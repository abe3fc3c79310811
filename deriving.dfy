/// `#[derive(…)]` as a modifier (`expand_derive`): each accepted trait
/// `T` of the list becomes a `#[derive_T]` word attribute on the item.
module Deriving {
  import opened Wrappers
  import opened Ast
  import opened Expansions
  import SquashDerive

  /// The traits `derive` always accepts, in the order `is_builtin_trait`
  /// lists them.
  const BUILTIN_TRAITS: seq<string> := [
    "Clone", "Hash", "RustcEncodable", "RustcDecodable",
    "PartialEq", "Eq", "PartialOrd", "Ord",
    "Debug", "Default", "FromPrimitive",
    "Send", "Sync", "Copy",
    "Encodable", "Decodable"]

  /// `is_builtin_trait`.
  predicate IsBuiltinTrait(name: string)
  {
    match name
    case "Clone" => true
    case "Hash" => true
    case "RustcEncodable" => true
    case "RustcDecodable" => true
    case "PartialEq" => true
    case "Eq" => true
    case "PartialOrd" => true
    case "Ord" => true
    case "Debug" => true
    case "Default" => true
    case "FromPrimitive" => true
    case "Send" => true
    case "Sync" => true
    case "Copy" => true
    case "Encodable" => true
    case "Decodable" => true
    case _ => false
  }

  /// The whitelist is exactly the sixteen names listed.
  lemma BuiltinTraitsExactly(name: string)
    ensures IsBuiltinTrait(name) <==> name in BUILTIN_TRAITS
  {
  }

  /// Whether an entry becomes a `derive_T` attribute: a word naming a
  /// builtin trait, or any word once `custom_derive` is enabled.
  predicate Accepted(t: MetaItem, customDerive: bool)
  {
    t.node.Word? && (IsBuiltinTrait(t.node.word) || customDerive)
  }

  /// `#[derive_T]`, with the entry's span.
  function DeriveWordAttr(t: MetaItem): (a: Attribute)
    requires t.node.Word?
    ensures SquashDerive.IsDeriveWord(a) && SquashDerive.StrippedWord(a) == t
  {
    var a := MkAttribute(t.span, MetaWord(t.span, DERIVE_PREFIX + t.node.word));
    assert (DERIVE_PREFIX + t.node.word)[..|DERIVE_PREFIX|] == DERIVE_PREFIX;
    assert (DERIVE_PREFIX + t.node.word)[|DERIVE_PREFIX|..] == t.node.word;
    a
  }

  /// The attributes the loop appends: one per accepted entry, the last
  /// entry's first.
  function DerivedAttrs(traits: seq<MetaItem>, customDerive: bool): seq<Attribute>
  {
    if traits == [] then []
    else DerivedAttrs(traits[1..], customDerive) +
         (if Accepted(traits[0], customDerive) then [DeriveWordAttr(traits[0])] else [])
  }

  /// What the loop reports for one entry: a malformed entry, or a word the
  /// `custom_derive` gate rejects.
  function EntryDiagnostic(t: MetaItem, customDerive: bool): seq<Diagnostic>
  {
    if !t.node.Word? then [Diagnostic(Error, t.span, MalformedDeriveEntry)]
    else if !Accepted(t, customDerive) then [Diagnostic(Error, t.span, CustomDeriveGated)]
    else []
  }

  /// The loop's reports, the last entry's first.
  function EntryDiagnostics(traits: seq<MetaItem>, customDerive: bool): seq<Diagnostic>
  {
    if traits == [] then []
    else EntryDiagnostics(traits[1..], customDerive) + EntryDiagnostic(traits[0], customDerive)
  }

  /// The reports made before the loop: a `derive = "…"` value and an empty
  /// or absent trait list.
  function HeaderDiagnostics(mitem: MetaItem): seq<Diagnostic>
  {
    (if ValueStr(mitem).Some? then [Diagnostic(Error, mitem.span, UnexpectedDeriveValue)] else []) +
    (if ListEntries(mitem) == [] then [Diagnostic(Warning, mitem.span, EmptyDeriveList)] else [])
  }

  /// `expand_derive`: on an item, appends `#[derive_T]` for each accepted
  /// entry in reverse list order and reports the rest; any other
  /// annotatable is reported and returned unchanged.
  method ExpandDerive(handler: Handler, ecfg: ExpansionConfig, span: Span, mitem: MetaItem, a: Annotatable)
    returns (r: Annotatable)
    modifies handler
    ensures a.position == ItemPosition ==>
      (var traits := ListEntries(mitem);
       var custom := EnableCustomDerive(ecfg);
       r == a.(attrs := a.attrs + DerivedAttrs(traits, custom)) &&
       handler.diagnostics == old(handler.diagnostics) + HeaderDiagnostics(mitem) + EntryDiagnostics(traits, custom))
    ensures a.position != ItemPosition ==>
      (r == a && handler.diagnostics == old(handler.diagnostics) + [Diagnostic(Error, span, DeriveOnNonItem)])
  {
    if a.position != ItemPosition {
      handler.Emit(Diagnostic(Error, span, DeriveOnNonItem));
      return a;
    }
    if ValueStr(mitem).Some? {
      handler.Emit(Diagnostic(Error, mitem.span, UnexpectedDeriveValue));
    }
    var traits := ListEntries(mitem);
    if traits == [] {
      handler.Emit(Diagnostic(Warning, mitem.span, EmptyDeriveList));
    }
    ghost var header := handler.diagnostics;
    assert header == old(handler.diagnostics) + HeaderDiagnostics(mitem);
    var custom := EnableCustomDerive(ecfg);
    var attrs := a.attrs;
    var i := |traits|;
    while i > 0
      invariant 0 <= i <= |traits|
      invariant attrs == a.attrs + DerivedAttrs(traits[i..], custom)
      invariant handler.diagnostics == header + EntryDiagnostics(traits[i..], custom)
    {
      i := i - 1;
      var titem := traits[i];
      assert traits[i..][1..] == traits[i + 1..];
      AppendAssoc(header, EntryDiagnostics(traits[i + 1..], custom), EntryDiagnostic(titem, custom));
      AppendAssoc(a.attrs, DerivedAttrs(traits[i + 1..], custom), if Accepted(titem, custom) then [DeriveWordAttr(titem)] else []);
      if !titem.node.Word? {
        handler.Emit(Diagnostic(Error, titem.span, MalformedDeriveEntry));
      } else if !(IsBuiltinTrait(titem.node.word) || custom) {
        handler.Emit(Diagnostic(Error, titem.span, CustomDeriveGated));
      } else {
        attrs := attrs + [DeriveWordAttr(titem)];
      }
    }
    r := a.(attrs := attrs);
  }

  /// The accepted entries, in list order.
  function AcceptedTraits(traits: seq<MetaItem>, customDerive: bool): (r: seq<MetaItem>)
    ensures forall i :: 0 <= i < |r| ==> Accepted(r[i], customDerive) && r[i] in traits
  {
    if traits == [] then []
    else (if Accepted(traits[0], customDerive) then [traits[0]] else []) + AcceptedTraits(traits[1..], customDerive)
  }

  /// The derived attributes are exactly `#[derive_T]` for the accepted
  /// entries, in reverse list order: stripping the prefix again, as
  /// `squash_derive` does, gives back the accepted entries reversed.
  lemma {:induction false} DerivedAttrsAreReversedAccepted(traits: seq<MetaItem>, customDerive: bool)
    ensures forall i :: 0 <= i < |DerivedAttrs(traits, customDerive)| ==>
              SquashDerive.IsDeriveWord(DerivedAttrs(traits, customDerive)[i])
    ensures SquashDerive.DeriveEntries(DerivedAttrs(traits, customDerive)) == Reverse(AcceptedTraits(traits, customDerive))
    decreases |traits|
  {
    if traits != [] {
      var t := traits[0];
      var rest := DerivedAttrs(traits[1..], customDerive);
      DerivedAttrsAreReversedAccepted(traits[1..], customDerive);
      var tail := AcceptedTraits(traits[1..], customDerive);
      if Accepted(t, customDerive) {
        SquashDerive.EntriesAppend(rest, DeriveWordAttr(t));
        ReverseCons(t, tail);
      } else {
        assert rest + [] == rest;
        assert [] + tail == tail;
      }
    }
  }

  /// The squash post-pass turns what `expand_derive` appended back into one
  /// `#[derive(…)]` naming the accepted traits in reverse list order, after
  /// the item's other attributes.
  lemma DeriveThenSquash(attrs: seq<Attribute>, traits: seq<MetaItem>, customDerive: bool)
    requires forall i :: 0 <= i < |attrs| ==> !SquashDerive.IsDeriveWord(attrs[i])
    requires AcceptedTraits(traits, customDerive) != []
    ensures var r := SquashDerive.Squashed(attrs + DerivedAttrs(traits, customDerive));
            && |r| == |attrs| + 1
            && r[..|attrs|] == attrs
            && AttrName(r[|attrs|]) == "derive"
            && MetaItemList(r[|attrs|].value) == Some(Reverse(AcceptedTraits(traits, customDerive)))
  {
    var d := DerivedAttrs(traits, customDerive);
    DerivedAttrsAreReversedAccepted(traits, customDerive);
    SquashDerive.NoDeriveNoEntries(attrs);
    SquashDerive.KeptConcat(attrs, d);
    SquashDerive.EntriesConcat(attrs, d);
    SquashDerive.OnlyDeriveWords(d);
    var all := attrs + d;
    assert |d| > 0;
    assert all[|attrs|] == d[0];
    assert SquashDerive.FirstDerive(all).Some?;
    assert SquashDerive.Kept(all) == attrs;
    var c := SquashDerive.Collected(all);
    assert c.Some?;
    assert c.value.metaItems == Reverse(AcceptedTraits(traits, customDerive)) by {
      assert SquashDerive.DeriveEntries(all) == [] + SquashDerive.DeriveEntries(d);
    }
    var r := SquashDerive.Squashed(all);
    assert r == attrs + [SquashDerive.IntoDeriveAttr(c.value)];
    assert r[..|attrs|] == attrs;
  }

  /// Entries that are all builtin traits are all accepted and reported on
  /// by nothing, whatever the `custom_derive` feature.
  lemma {:induction false} BuiltinAlwaysAccepted(traits: seq<MetaItem>, customDerive: bool)
    requires forall i :: 0 <= i < |traits| ==> traits[i].node.Word? && IsBuiltinTrait(traits[i].node.word)
    ensures AcceptedTraits(traits, customDerive) == traits
    ensures EntryDiagnostics(traits, customDerive) == []
    decreases |traits|
  {
    if traits != [] {
      BuiltinAlwaysAccepted(traits[1..], customDerive);
      assert [traits[0]] + traits[1..] == traits;
    }
  }

  /// Without `custom_derive`, a word entry is accepted exactly when it
  /// names a builtin trait; with it, every word is.
  lemma GateDecides(t: MetaItem, customDerive: bool)
    requires t.node.Word?
    ensures customDerive ==> Accepted(t, customDerive) && EntryDiagnostic(t, customDerive) == []
    ensures !customDerive ==> (Accepted(t, customDerive) <==> IsBuiltinTrait(t.node.word))
    ensures !customDerive && !IsBuiltinTrait(t.node.word) ==>
      EntryDiagnostic(t, customDerive) == [Diagnostic(Error, t.span, CustomDeriveGated)]
  {
  }

  /// Every entry that is not a word is reported as malformed and yields no
  /// attribute; every accepted entry yields one attribute and no report.
  lemma {:induction false} EntriesAccountedFor(traits: seq<MetaItem>, customDerive: bool)
    ensures |DerivedAttrs(traits, customDerive)| + |EntryDiagnostics(traits, customDerive)| == |traits|
    decreases |traits|
  {
    if traits != [] {
      EntriesAccountedFor(traits[1..], customDerive);
    }
  }

  /// `register_all`: `derive` is registered as a modifier. The registered
  /// function gives the item `expand_derive` produces; the diagnostics of
  /// the call are not part of a pure extension.
  function RegisterAll(env: map<Name, SyntaxExtension>, customDerive: bool): (r: map<Name, SyntaxExtension>)
    ensures "derive" in r && r["derive"].MultiModifier?
    ensures forall n :: n != "derive" ==> (n in r <==> n in env) && (n in env ==> r[n] == env[n])
    ensures forall span: Span, mitem: MetaItem, a: Annotatable :: a.position == ItemPosition ==>
      r["derive"].transform(span, mitem, a) == [a.(attrs := a.attrs + DerivedAttrs(ListEntries(mitem), customDerive))]
    ensures forall span: Span, mitem: MetaItem, a: Annotatable :: a.position != ItemPosition ==> r["derive"].transform(span, mitem, a) == [a]
  {
    env["derive" := MultiModifier((span: Span, mitem: MetaItem, a: Annotatable) =>
      if a.position == ItemPosition then [a.(attrs := a.attrs + DerivedAttrs(ListEntries(mitem), customDerive))] else [a])]
  }
}
