/// The post-pass that folds the `#[derive_X]` word attributes left by
/// expansion back into one `#[derive(X, …)]` attribute per item.
module SquashDerive {
  import opened Wrappers
  import opened Ast

  /// A word attribute whose name starts with `derive_`.
  predicate IsDeriveWord(a: Attribute)
  {
    a.value.node.Word? && |DERIVE_PREFIX| <= |a.value.node.word| && a.value.node.word[..|DERIVE_PREFIX|] == DERIVE_PREFIX
  }

  /// The name after the `derive_` prefix, as a word meta item carrying the
  /// attribute's meta-item span.
  function StrippedWord(a: Attribute): (m: MetaItem)
    requires IsDeriveWord(a)
    ensures m.node.Word? && DERIVE_PREFIX + m.node.word == a.value.node.word
  {
    var name := a.value.node.word;
    assert name == name[..|DERIVE_PREFIX|] + name[|DERIVE_PREFIX|..];
    MetaItem(Word(name[|DERIVE_PREFIX|..]), a.value.span)
  }

  /// The attributes that are not `derive_` words, in order.
  function Kept(attrs: seq<Attribute>): (r: seq<Attribute>)
    ensures |r| <= |attrs|
    ensures forall i :: 0 <= i < |r| ==> !IsDeriveWord(r[i])
  {
    if attrs == [] then []
    else if IsDeriveWord(attrs[0]) then Kept(attrs[1..])
    else [attrs[0]] + Kept(attrs[1..])
  }

  /// The stripped names of the `derive_` words, in order.
  function DeriveEntries(attrs: seq<Attribute>): (r: seq<MetaItem>)
    ensures |r| <= |attrs|
    ensures forall i :: 0 <= i < |r| ==> r[i].node.Word?
  {
    if attrs == [] then []
    else if IsDeriveWord(attrs[0]) then [StrippedWord(attrs[0])] + DeriveEntries(attrs[1..])
    else DeriveEntries(attrs[1..])
  }

  /// The index of the first `derive_` word.
  function FirstDerive(attrs: seq<Attribute>): (r: Option<nat>)
    ensures r.None? <==> forall i :: 0 <= i < |attrs| ==> !IsDeriveWord(attrs[i])
    ensures r.Some? ==> r.value < |attrs| && IsDeriveWord(attrs[r.value])
    ensures r.Some? ==> forall j :: 0 <= j < r.value ==> !IsDeriveWord(attrs[j])
  {
    if attrs == [] then None
    else if IsDeriveWord(attrs[0]) then Some(0)
    else
      var rest := FirstDerive(attrs[1..]);
      assert forall j :: 1 <= j < |attrs| ==> attrs[j] == attrs[1..][j - 1];
      if rest.None? then None else Some(rest.value + 1)
  }

  /// `DeriveAttr`: the metadata of the first `derive_` attribute and the
  /// entries collected so far.
  datatype DeriveAttr = DeriveAttr(id: nat, style: AttrStyle, isSugaredDoc: bool, metaItems: seq<MetaItem>, span: Span)

  /// `into_attr` on a collected `DeriveAttr`: one `derive(…)` list attribute
  /// whose id, style, doc flag and spans come from the first `derive_`
  /// attribute.
  function IntoDeriveAttr(d: DeriveAttr): (a: Attribute)
    ensures AttrName(a) == "derive" && MetaItemList(a.value) == Some(d.metaItems)
    ensures a.id == d.id && a.style == d.style && a.isSugaredDoc == d.isSugaredDoc && a.span == d.span
  {
    Attribute(d.id, d.style, MetaItem(List("derive", d.metaItems), d.span), d.isSugaredDoc, d.span)
  }

  /// What folding `attrs` must collect: nothing when no `derive_` word is
  /// present, otherwise the first one's metadata and every stripped name.
  function Collected(attrs: seq<Attribute>): Option<DeriveAttr>
  {
    var first := FirstDerive(attrs);
    if first.None? then None
    else
      var a := attrs[first.value];
      Some(DeriveAttr(a.id, a.style, a.isSugaredDoc, DeriveEntries(attrs), a.value.span))
  }

  /// The attribute list `fold_item_simple` must produce.
  function Squashed(attrs: seq<Attribute>): seq<Attribute>
  {
    var c := Collected(attrs);
    Kept(attrs) + (if c.Some? then [IntoDeriveAttr(c.value)] else [])
  }

  /// `SquashDeriveAttrFolder`: its `derive_attr` starts empty, becomes the
  /// first `derive_` attribute's metadata and gathers every stripped name.
  class SquashDeriveAttrFolder {
    var deriveAttr: Option<DeriveAttr>

    constructor()
      ensures deriveAttr.None?
    {
      deriveAttr := None;
    }

    /// `fold_attribute`: a `derive_` word is absorbed (and dropped);
    /// anything else is returned unchanged.
    method FoldAttribute(a: Attribute) returns (r: Option<Attribute>)
      modifies this
      ensures IsDeriveWord(a) ==> r.None?
      ensures !IsDeriveWord(a) ==> r == Some(a) && deriveAttr == old(deriveAttr)
      ensures IsDeriveWord(a) && old(deriveAttr).None? ==>
        deriveAttr == Some(DeriveAttr(a.id, a.style, a.isSugaredDoc, [StrippedWord(a)], a.value.span))
      ensures IsDeriveWord(a) && old(deriveAttr).Some? ==>
        deriveAttr == Some(old(deriveAttr).value.(metaItems := old(deriveAttr).value.metaItems + [StrippedWord(a)]))
    {
      if IsDeriveWord(a) {
        var metaWord := StrippedWord(a);
        match deriveAttr {
          case Some(d) =>
            deriveAttr := Some(d.(metaItems := d.metaItems + [metaWord]));
          case None =>
            deriveAttr := Some(DeriveAttr(a.id, a.style, a.isSugaredDoc, [metaWord], a.value.span));
        }
        return None;
      }
      return Some(a);
    }

    /// `into_attr`.
    function IntoAttr(): (r: Option<Attribute>)
      reads this
      ensures r.None? <==> deriveAttr.None?
      ensures r.Some? ==> r.value == IntoDeriveAttr(deriveAttr.value)
    {
      if deriveAttr.Some? then Some(IntoDeriveAttr(deriveAttr.value)) else None
    }
  }

  /// `SquashDeriveFolder::fold_item_simple` on an item's attributes: fold
  /// every attribute, then append the combined `derive(…)` if one was built.
  method FoldItemAttrs(attrs: seq<Attribute>) returns (r: seq<Attribute>)
    ensures r == Squashed(attrs)
  {
    var folder := new SquashDeriveAttrFolder();
    r := [];
    var i := 0;
    while i < |attrs|
      invariant 0 <= i <= |attrs|
      invariant r == Kept(attrs[..i])
      invariant folder.deriveAttr == Collected(attrs[..i])
    {
      var kept := folder.FoldAttribute(attrs[i]);
      FoldStep(attrs, i);
      if kept.Some? {
        r := r + [kept.value];
      }
      i := i + 1;
    }
    assert attrs[..i] == attrs;
    var d := folder.IntoAttr();
    if d.Some? {
      r := r + [d.value];
    }
  }

  /// One attribute more: `Kept`, `DeriveEntries` and `Collected` each take
  /// one step.
  lemma FoldStep(attrs: seq<Attribute>, i: nat)
    requires i < |attrs|
    ensures Kept(attrs[..i + 1]) == Kept(attrs[..i]) + (if IsDeriveWord(attrs[i]) then [] else [attrs[i]])
    ensures var before := Collected(attrs[..i]);
            Collected(attrs[..i + 1]) ==
              if !IsDeriveWord(attrs[i]) then before
              else if before.None? then
                Some(DeriveAttr(attrs[i].id, attrs[i].style, attrs[i].isSugaredDoc, [StrippedWord(attrs[i])], attrs[i].value.span))
              else Some(before.value.(metaItems := before.value.metaItems + [StrippedWord(attrs[i])]))
  {
    var p := attrs[..i];
    assert attrs[..i + 1] == p + [attrs[i]];
    KeptAppend(p, attrs[i]);
    EntriesAppend(p, attrs[i]);
    FirstDeriveAppend(p, attrs[i]);
    var q := p + [attrs[i]];
    assert q[|p|] == attrs[i];
    if FirstDerive(p).None? {
      NoDeriveNoEntries(p);
      if IsDeriveWord(attrs[i]) {
        assert [] + [StrippedWord(attrs[i])] == [StrippedWord(attrs[i])];
      }
    } else {
      var f := FirstDerive(p).value;
      assert q[f] == p[f];
      if !IsDeriveWord(attrs[i]) {
        assert DeriveEntries(q) == DeriveEntries(p);
      }
    }
  }

  lemma {:induction false} KeptAppend(p: seq<Attribute>, a: Attribute)
    ensures Kept(p + [a]) == Kept(p) + (if IsDeriveWord(a) then [] else [a])
    decreases |p|
  {
    if p == [] {
      assert [] + [a] == [a];
    } else {
      assert (p + [a])[1..] == p[1..] + [a];
      KeptAppend(p[1..], a);
    }
  }

  lemma {:induction false} EntriesAppend(p: seq<Attribute>, a: Attribute)
    ensures DeriveEntries(p + [a]) == DeriveEntries(p) + (if IsDeriveWord(a) then [StrippedWord(a)] else [])
    decreases |p|
  {
    if p == [] {
      assert [] + [a] == [a];
    } else {
      assert (p + [a])[1..] == p[1..] + [a];
      EntriesAppend(p[1..], a);
    }
  }

  lemma {:induction false} FirstDeriveAppend(p: seq<Attribute>, a: Attribute)
    ensures FirstDerive(p + [a]) ==
      if FirstDerive(p).Some? then FirstDerive(p) else if IsDeriveWord(a) then Some(|p|) else None
    decreases |p|
  {
    if p == [] {
      assert [] + [a] == [a];
      assert [a][1..] == [];
    } else {
      assert (p + [a])[1..] == p[1..] + [a];
      assert (p + [a])[0] == p[0];
      FirstDeriveAppend(p[1..], a);
    }
  }

  lemma {:induction false} KeptConcat(p: seq<Attribute>, q: seq<Attribute>)
    ensures Kept(p + q) == Kept(p) + Kept(q)
    decreases |p|
  {
    if p == [] {
      assert p + q == q;
    } else {
      assert (p + q)[1..] == p[1..] + q;
      KeptConcat(p[1..], q);
    }
  }

  lemma {:induction false} EntriesConcat(p: seq<Attribute>, q: seq<Attribute>)
    ensures DeriveEntries(p + q) == DeriveEntries(p) + DeriveEntries(q)
    decreases |p|
  {
    if p == [] {
      assert p + q == q;
    } else {
      assert (p + q)[1..] == p[1..] + q;
      EntriesConcat(p[1..], q);
    }
  }

  lemma {:induction false} OnlyDeriveWords(p: seq<Attribute>)
    requires forall i :: 0 <= i < |p| ==> IsDeriveWord(p[i])
    ensures Kept(p) == []
    decreases |p|
  {
    if p != [] {
      OnlyDeriveWords(p[1..]);
    }
  }

  lemma {:induction false} NoDeriveNoEntries(p: seq<Attribute>)
    requires forall i :: 0 <= i < |p| ==> !IsDeriveWord(p[i])
    ensures DeriveEntries(p) == [] && Kept(p) == p
    decreases |p|
  {
    if p != [] {
      NoDeriveNoEntries(p[1..]);
    }
  }

  /// With no `derive_` word among them, the attributes are left exactly as
  /// they were.
  lemma SquashedUnchanged(attrs: seq<Attribute>)
    requires forall i :: 0 <= i < |attrs| ==> !IsDeriveWord(attrs[i])
    ensures Squashed(attrs) == attrs
  {
    NoDeriveNoEntries(attrs);
  }

  /// With some `derive_` word: the other attributes in order, then one
  /// `derive(…)` whose entries are the stripped names in order and whose
  /// metadata is the first `derive_` attribute's.
  lemma SquashedShape(attrs: seq<Attribute>, first: nat)
    requires first < |attrs| && IsDeriveWord(attrs[first])
    requires forall j :: 0 <= j < first ==> !IsDeriveWord(attrs[j])
    ensures var r := Squashed(attrs);
            && |r| == |Kept(attrs)| + 1
            && r[..|r| - 1] == Kept(attrs)
            && AttrName(r[|r| - 1]) == "derive"
            && MetaItemList(r[|r| - 1].value) == Some(DeriveEntries(attrs))
            && r[|r| - 1].id == attrs[first].id
            && r[|r| - 1].style == attrs[first].style
            && r[|r| - 1].isSugaredDoc == attrs[first].isSugaredDoc
            && r[|r| - 1].span == attrs[first].value.span
  {
    assert FirstDerive(attrs) == Some(first);
  }

  /// Every attribute that is not a `derive_` word survives, and no `derive_`
  /// word does.
  lemma {:induction false} KeptExactly(attrs: seq<Attribute>, a: Attribute)
    ensures a in Kept(attrs) <==> a in attrs && !IsDeriveWord(a)
    decreases |attrs|
  {
    if attrs != [] {
      KeptExactly(attrs[1..], a);
      assert attrs == [attrs[0]] + attrs[1..];
    }
  }

  /// The stripped names are exactly one per `derive_` word.
  lemma {:induction false} EntriesCount(attrs: seq<Attribute>)
    ensures |DeriveEntries(attrs)| + |Kept(attrs)| == |attrs|
    decreases |attrs|
  {
    if attrs != [] {
      EntriesCount(attrs[1..]);
    }
  }

  /// The module's test: `#[derive_A] #[derive_B]` becomes `#[derive(A, B)]`.
  lemma SquashExample(s: Span)
    ensures var attrs := [MkAttribute(s, MetaWord(s, "derive_A")), MkAttribute(s, MetaWord(s, "derive_B"))];
            Squashed(attrs) == [MkAttribute(s, MetaList(s, "derive", [MetaWord(s, "A"), MetaWord(s, "B")]))]
  {
    var a := MkAttribute(s, MetaWord(s, "derive_A"));
    var b := MkAttribute(s, MetaWord(s, "derive_B"));
    var attrs := [a, b];
    assert "derive_A"[..7] == DERIVE_PREFIX && "derive_B"[..7] == DERIVE_PREFIX;
    assert StrippedWord(a) == MetaWord(s, "A") by {
      assert "derive_A"[7..] == "A";
    }
    assert StrippedWord(b) == MetaWord(s, "B") by {
      assert "derive_B"[7..] == "B";
    }
    assert attrs[1..] == [b];
    assert [b][1..] == [];
    assert Kept(attrs) == [];
    assert DeriveEntries(attrs) == [MetaWord(s, "A"), MetaWord(s, "B")];
  }

  /// A squashed attribute list has no `derive_` word left.
  lemma SquashedHasNoDeriveWord(attrs: seq<Attribute>)
    ensures forall i :: 0 <= i < |Squashed(attrs)| ==> !IsDeriveWord(Squashed(attrs)[i])
  {
    var c := Collected(attrs);
    if c.Some? {
      var r := Squashed(attrs);
      assert r[|r| - 1] == IntoDeriveAttr(c.value);
      assert forall i :: 0 <= i < |r| - 1 ==> r[i] == Kept(attrs)[i];
    }
  }

  /// Squashing twice is squashing once.
  lemma SquashedIdempotent(attrs: seq<Attribute>)
    ensures Squashed(Squashed(attrs)) == Squashed(attrs)
  {
    SquashedHasNoDeriveWord(attrs);
    SquashedUnchanged(Squashed(attrs));
  }

  /// `SquashDeriveFolder` over a tree: every item in item position has its
  /// attributes squashed (`fold_item_simple`), and the fold descends into
  /// every child (`noop_fold_item_simple` and the other `noop_fold_*`).
  /// Trait items, impl items and the attributes of macro sites are not
  /// squashed, as the folder overrides only `fold_item_simple`.
  function SquashNode(n: Node): (r: Node)
    ensures r.Item? <==> n.Item?
    ensures r.Item? ==> r.item.position == n.item.position && r.item.ident == n.item.ident && r.item.span == n.item.span
    decreases NodeSize(n), 0
  {
    match n
    case Branch(t, cs) => Branch(t, SquashSeq(cs))
    case Item(a) =>
      var attrs := if a.position == ItemPosition then Squashed(a.attrs) else a.attrs;
      Item(a.(attrs := attrs, children := SquashSeq(a.children)))
    case _ => n
  }

  function SquashSeq(ns: seq<Node>): (r: seq<Node>)
    ensures |r| == |ns|
    decreases SeqSize(ns), 1
  {
    if ns == [] then [] else [SquashNode(ns[0])] + SquashSeq(ns[1..])
  }

  /// `squash_derive` on a crate: the crate's top-level nodes folded.
  function SquashCrate(krate: seq<Node>): (r: seq<Node>)
    ensures |r| == |krate|
    ensures forall i :: 0 <= i < |krate| ==> r[i] == SquashNode(krate[i])
  {
    SquashSeqAt(krate);
    SquashSeq(krate)
  }

  lemma {:induction false} SquashSeqAt(ns: seq<Node>)
    ensures forall i :: 0 <= i < |ns| ==> SquashSeq(ns)[i] == SquashNode(ns[i])
    decreases |ns|
  {
    if ns != [] {
      SquashSeqAt(ns[1..]);
      assert forall i :: 1 <= i < |ns| ==> ns[i] == ns[1..][i - 1];
    }
  }

  /// The fold changes attributes only: no placeholder appears or disappears.
  lemma {:induction false} SquashNodeSlots(n: Node)
    ensures NodeSlots(SquashNode(n)) == NodeSlots(n)
    decreases NodeSize(n), 0
  {
    match n
    case Branch(_, cs) => SquashSeqSlots(cs);
    case Item(a) => SquashSeqSlots(a.children);
    case _ =>
  }

  lemma {:induction false} SquashSeqSlots(ns: seq<Node>)
    ensures SeqSlots(SquashSeq(ns)) == SeqSlots(ns)
    decreases SeqSize(ns), 1
  {
    if ns != [] {
      SquashNodeSlots(ns[0]);
      SquashSeqSlots(ns[1..]);
      assert SquashSeq(ns)[1..] == SquashSeq(ns[1..]);
      assert SquashSeq(ns)[0] == SquashNode(ns[0]);
    }
  }

  /// Squashing a crate twice is squashing it once.
  lemma {:induction false} SquashNodeIdempotent(n: Node)
    ensures SquashNode(SquashNode(n)) == SquashNode(n)
    decreases NodeSize(n), 0
  {
    match n
    case Branch(_, cs) => SquashSeqIdempotent(cs);
    case Item(a) =>
      SquashSeqIdempotent(a.children);
      if a.position == ItemPosition {
        SquashedIdempotent(a.attrs);
      }
    case _ =>
  }

  lemma {:induction false} SquashSeqIdempotent(ns: seq<Node>)
    ensures SquashSeq(SquashSeq(ns)) == SquashSeq(ns)
    decreases SeqSize(ns), 1
  {
    if ns != [] {
      SquashNodeIdempotent(ns[0]);
      SquashSeqIdempotent(ns[1..]);
      var r := SquashSeq(ns);
      assert r[0] == SquashNode(ns[0]) && r[1..] == SquashSeq(ns[1..]);
    }
  }
}
