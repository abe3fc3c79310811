/// The attribute normalisation pass run on every annotatable
/// (`expand_annotatable`): `cfg_attr(COND, SPEC)` is split, `derive(…)` is
/// unrolled into `derive_T` decorators, and decorators registered in the
/// syntax environment add sibling items, which are expanded in turn.
///
/// Decorators are arbitrary functions, so their items may carry decorators
/// again without end; every definition takes a `fuel` bound on the depth of
/// that recursion and gives `None` when the bound is reached.
/// `expand_multi_modified`, which runs after the decorators, is a parameter.
module Decorator {
  import opened Wrappers
  import opened Ast

  type Env = map<Name, SyntaxExtension>

  /// `expand_multi_modified`: what becomes of the item once its decorators
  /// are gone.
  type MultiModified = Annotatable -> seq<Annotatable>

  /// The outcome of expanding annotatables: the items produced, and the
  /// diagnostics reported on the way.
  datatype Expanded = Expanded(items: seq<Annotatable>, diags: seq<Diagnostic>)

  /// The outcome of `expand_decorators` and `expand_decorators_2`: what they
  /// push onto `decorator_items` and `new_attrs`, and what they report.
  datatype Decorated = Decorated(items: seq<Annotatable>, attrs: seq<Attribute>, diags: seq<Diagnostic>)

  /// The outcome of `expand_decorators_3`: whether the attribute was
  /// handled, and the items and reports of its decorator.
  datatype Dispatch = Dispatch(handled: bool, items: seq<Annotatable>, diags: seq<Diagnostic>)

  /// The outcome of the reversed loop over a `derive` list: the items of
  /// the handled entries and the entries left unhandled, in visiting order.
  datatype Unrolled = Unrolled(items: seq<Annotatable>, notHandled: seq<MetaItem>, diags: seq<Diagnostic>)

  predicate IsDecorator(env: Env, name: Name)
  {
    name in env && env[name].MultiDecorator?
  }

  /// `#[cfg_attr(COND, SPEC)]` with exactly two entries.
  predicate IsCfgAttrPair(attr: Attribute)
  {
    attr.value.node.List? && attr.value.node.list == "cfg_attr" && |attr.value.node.items| == 2
  }

  /// `#[cfg(COND)]` for a two-entry `cfg_attr`.
  function CfgCond(attr: Attribute): Attribute
    requires IsCfgAttrPair(attr)
  {
    MkAttribute(attr.span, MetaList(attr.value.span, "cfg", attr.value.node.items[..1]))
  }

  /// `#[SPEC]` for a two-entry `cfg_attr`.
  function CfgSpec(attr: Attribute): Attribute
    requires IsCfgAttrPair(attr)
  {
    MkAttribute(attr.span, attr.value.node.items[1])
  }

  /// `#[cfg_attr(COND, NEW)]`: a new attribute that stays conditional.
  function CfgRewrap(attr: Attribute, newAttr: Attribute): (r: Attribute)
    requires IsCfgAttrPair(attr)
    ensures IsCfgAttrPair(r) && r.value.node.items[0] == attr.value.node.items[0]
    ensures r.value.node.items[1] == newAttr.value && r.span == attr.span
  {
    MkAttribute(attr.span, MetaList(attr.value.span, "cfg_attr", [attr.value.node.items[0], newAttr.value]))
  }

  /// `#[derive_T]` for the entry `T` of the attribute `attr`.
  function DeriveDecoratorAttr(attr: Attribute, t: MetaItem): Attribute
    requires t.node.Word?
  {
    MkAttribute(attr.span, MetaWord(t.span, DERIVE_PREFIX + t.node.word))
  }

  /// The word entries of a `derive` list that no decorator handles, in list
  /// order.
  function UnhandledWords(env: Env, traits: seq<MetaItem>): (r: seq<MetaItem>)
    ensures forall i :: 0 <= i < |r| ==> r[i] in traits && r[i].node.Word? && !IsDecorator(env, DERIVE_PREFIX + r[i].node.word)
  {
    if traits == [] then []
    else
      var t := traits[0];
      (if t.node.Word? && !IsDecorator(env, DERIVE_PREFIX + t.node.word) then [t] else []) + UnhandledWords(env, traits[1..])
  }

  /// Expanding a list of annotatables one after the other
  /// (`flat_map(expand_annotatable)`); each one expands one level deeper.
  function ExpandAllSpec(env: Env, mm: MultiModified, anns: seq<Annotatable>, fuel: nat): Option<Expanded>
    decreases fuel, 0, |anns|
  {
    if anns == [] then Some(Expanded([], []))
    else if fuel == 0 then None
    else
      var p := ExpandAllSpec(env, mm, anns[..|anns| - 1], fuel);
      if p.None? then None
      else
        var e := ExpandAnnotatableSpec(env, mm, anns[|anns| - 1], fuel - 1);
        if e.None? then None
        else Some(Expanded(p.value.items + e.value.items, p.value.diags + e.value.diags))
  }

  /// `expand_decorators_3`: a name registered as a decorator handles the
  /// attribute, and the items it generates are expanded in turn; any other
  /// name leaves it unhandled and adds nothing (`Decorators3Handled`).
  function Decorators3Spec(env: Env, mm: MultiModified, item: Annotatable, attr: Attribute, mname: Name, fuel: nat)
    : Option<Dispatch>
    decreases fuel, 1, 0
  {
    if IsDecorator(env, mname) then
      var e := ExpandAllSpec(env, mm, env[mname].decorate(attr.span, attr.value, item), fuel);
      if e.None? then None else Some(Dispatch(true, e.value.items, e.value.diags))
    else Some(Dispatch(false, [], []))
  }

  /// One entry `t` of a `derive` list after the entries visited before it:
  /// a word `T` is tried as the decorator `derive_T` and kept for the
  /// residual when unhandled; anything else is reported as malformed and
  /// dropped.
  function UnrollEntry(env: Env, mm: MultiModified, item: Annotatable, attr: Attribute, rest: Unrolled,
                       t: MetaItem, fuel: nat): (r: Option<Unrolled>)
    ensures r.Some? ==>
      (r.value.notHandled == rest.notHandled + (if t.node.Word? && !IsDecorator(env, DERIVE_PREFIX + t.node.word) then [t] else []))
    ensures r.Some? ==> |rest.diags| <= |r.value.diags| && r.value.diags[..|rest.diags|] == rest.diags
    ensures !t.node.Word? ==> r.Some? && Diagnostic(Error, t.span, MalformedDeriveEntry) in r.value.diags
    decreases fuel, 2, 0
  {
    if !t.node.Word? then
      Some(rest.(diags := rest.diags + [Diagnostic(Error, t.span, MalformedDeriveEntry)]))
    else
      var tname := DERIVE_PREFIX + t.node.word;
      var d := Decorators3Spec(env, mm, item, DeriveDecoratorAttr(attr, t), tname, fuel);
      if d.None? then None
      else
        Some(Unrolled(rest.items + d.value.items,
                      rest.notHandled + (if d.value.handled then [] else [t]),
                      rest.diags + d.value.diags))
  }

  /// The reversed loop of `expand_decorators_2` over `traits`: the last
  /// entry is visited first (`UnrollFacts`).
  function UnrollSpec(env: Env, mm: MultiModified, item: Annotatable, attr: Attribute, traits: seq<MetaItem>, fuel: nat)
    : Option<Unrolled>
    decreases fuel, 3, |traits|
  {
    if traits == [] then Some(Unrolled([], [], []))
    else
      var rest := UnrollSpec(env, mm, item, attr, traits[1..], fuel);
      if rest.None? then None
      else UnrollEntry(env, mm, item, attr, rest.value, traits[0], fuel)
  }

  /// The residual `#[derive(…)]` of the unhandled entries, if any.
  function Residual(attr: Attribute, notHandled: seq<MetaItem>): seq<Attribute>
  {
    if notHandled == [] then [] else [MkAttribute(attr.span, MetaList(attr.value.span, "derive", notHandled))]
  }

  /// `expand_decorators_2`: a `derive` list is unrolled entry by entry, the
  /// unhandled words kept in one residual `derive`; any other attribute is
  /// dropped when a decorator handles it and kept verbatim otherwise
  /// (`Decorators2Facts`).
  function Decorators2Spec(env: Env, mm: MultiModified, item: Annotatable, attr: Attribute, fuel: nat)
    : Option<Decorated>
    decreases fuel, 4, 0
  {
    var mname := AttrName(attr);
    if mname == "derive" then
      var traits := ListEntries(attr.value);
      var warn := if traits == [] then [Diagnostic(Warning, attr.value.span, EmptyDeriveList)] else [];
      var u := UnrollSpec(env, mm, item, attr, traits, fuel);
      if u.None? then None
      else Some(Decorated(u.value.items, Residual(attr, u.value.notHandled), warn + u.value.diags))
    else
      var d := Decorators3Spec(env, mm, item, attr, mname, fuel);
      if d.None? then None
      else Some(Decorated(d.value.items, if d.value.handled then [] else [attr], d.value.diags))
  }

  /// The SPEC part of a two-entry `cfg_attr` made conditional: each item
  /// gets `#[cfg(COND)]` appended and each new attribute is re-wrapped as
  /// `#[cfg_attr(COND, NEW)]`.
  function Conditional(attr: Attribute, d: Decorated): Decorated
    requires IsCfgAttrPair(attr)
  {
    var cond := CfgCond(attr);
    Decorated(
      seq(|d.items|, i requires 0 <= i < |d.items| => d.items[i].(attrs := d.items[i].attrs + [cond])),
      seq(|d.attrs|, i requires 0 <= i < |d.attrs| => CfgRewrap(attr, d.attrs[i])),
      d.diags)
  }

  /// One attribute of `expand_decorators`: a two-entry `cfg_attr` has its
  /// SPEC expanded and made conditional; any other attribute goes to
  /// `expand_decorators_2` unchanged (`DecorateOneFacts`).
  function DecorateOneSpec(env: Env, mm: MultiModified, item: Annotatable, attr: Attribute, fuel: nat)
    : Option<Decorated>
    decreases fuel, 5, 0
  {
    if IsCfgAttrPair(attr) then
      var d := Decorators2Spec(env, mm, item, CfgSpec(attr), fuel);
      if d.None? then None else Some(Conditional(attr, d.value))
    else Decorators2Spec(env, mm, item, attr, fuel)
  }

  /// The outcomes of two stretches of attributes, one after the other.
  function Then(p: Option<Decorated>, h: Option<Decorated>): Option<Decorated>
  {
    if p.None? || h.None? then None
    else Some(Decorated(p.value.items + h.value.items, p.value.attrs + h.value.attrs, p.value.diags + h.value.diags))
  }

  /// `expand_decorators` over the attributes `attrs` of `item`, in order.
  function DecoratorsSpec(env: Env, mm: MultiModified, item: Annotatable, attrs: seq<Attribute>, fuel: nat)
    : Option<Decorated>
    decreases fuel, 6, |attrs|
  {
    if attrs == [] then Some(Decorated([], [], []))
    else
      var p := DecoratorsSpec(env, mm, item, attrs[..|attrs| - 1], fuel);
      if p.None? then None
      else Then(p, DecorateOneSpec(env, mm, item, attrs[|attrs| - 1], fuel))
  }

  /// `expand_annotatable`: the item with its new attributes goes through
  /// `expand_multi_modified`, and the decorator items follow.
  function ExpandAnnotatableSpec(env: Env, mm: MultiModified, item: Annotatable, fuel: nat): Option<Expanded>
    decreases fuel, 7, 0
  {
    var d := DecoratorsSpec(env, mm, item, item.attrs, fuel);
    if d.None? then None
    else Some(Expanded(mm(WithAttrs(item, d.value.attrs)) + d.value.items, d.value.diags))
  }

  /// `expand_decorators_3` reports handled exactly for a decorator's name;
  /// for any other name it adds no items and reports nothing.
  lemma Decorators3Handled(env: Env, mm: MultiModified, item: Annotatable, attr: Attribute, mname: Name, fuel: nat)
    ensures var r := Decorators3Spec(env, mm, item, attr, mname, fuel);
            r.Some? ==> (r.value.handled <==> IsDecorator(env, mname))
    ensures !IsDecorator(env, mname) ==> Decorators3Spec(env, mm, item, attr, mname, fuel) == Some(Dispatch(false, [], []))
  {
  }

  /// The entries left unhandled are the unhandled words in reverse list
  /// order, and every entry that is not a word is reported as malformed.
  lemma UnrollFacts(env: Env, mm: MultiModified, item: Annotatable, attr: Attribute,
                    traits: seq<MetaItem>, fuel: nat)
    ensures var r := UnrollSpec(env, mm, item, attr, traits, fuel);
            r.Some? ==> r.value.notHandled == Reverse(UnhandledWords(env, traits))
    ensures var r := UnrollSpec(env, mm, item, attr, traits, fuel);
            r.Some? ==> forall k :: 0 <= k < |traits| && !traits[k].node.Word? ==>
              Diagnostic(Error, traits[k].span, MalformedDeriveEntry) in r.value.diags
  {
    UnrollUnhandled(env, mm, item, attr, traits, fuel);
    UnrollMalformed(env, mm, item, attr, traits, fuel);
  }

  lemma {:induction false} UnrollUnhandled(env: Env, mm: MultiModified, item: Annotatable, attr: Attribute,
                                           traits: seq<MetaItem>, fuel: nat)
    ensures var r := UnrollSpec(env, mm, item, attr, traits, fuel);
            r.Some? ==> r.value.notHandled == Reverse(UnhandledWords(env, traits))
    decreases |traits|
  {
    if traits != [] {
      var t := traits[0];
      var rest := UnrollSpec(env, mm, item, attr, traits[1..], fuel);
      UnrollUnhandled(env, mm, item, attr, traits[1..], fuel);
      if rest.Some? {
        var r := UnrollEntry(env, mm, item, attr, rest.value, t, fuel);
        assert UnrollSpec(env, mm, item, attr, traits, fuel) == r;
        var tail := UnhandledWords(env, traits[1..]);
        var mine := if t.node.Word? && !IsDecorator(env, DERIVE_PREFIX + t.node.word) then [t] else [];
        assert UnhandledWords(env, traits) == mine + tail;
        if mine == [] {
          assert mine + tail == tail;
        } else {
          ReverseCons(t, tail);
        }
      }
    }
  }

  lemma {:induction false} UnrollMalformed(env: Env, mm: MultiModified, item: Annotatable, attr: Attribute,
                                           traits: seq<MetaItem>, fuel: nat)
    ensures var r := UnrollSpec(env, mm, item, attr, traits, fuel);
            r.Some? ==> forall k :: 0 <= k < |traits| && !traits[k].node.Word? ==>
              Diagnostic(Error, traits[k].span, MalformedDeriveEntry) in r.value.diags
    decreases |traits|
  {
    if traits != [] {
      var rest := UnrollSpec(env, mm, item, attr, traits[1..], fuel);
      UnrollMalformed(env, mm, item, attr, traits[1..], fuel);
      var r := UnrollSpec(env, mm, item, attr, traits, fuel);
      if r.Some? {
        forall k | 1 <= k < |traits| && !traits[k].node.Word?
          ensures Diagnostic(Error, traits[k].span, MalformedDeriveEntry) in r.value.diags
        {
          assert traits[k] == traits[1..][k - 1];
          assert r.value.diags[..|rest.value.diags|] == rest.value.diags;
        }
      }
    }
  }

  /// `expand_decorators_2`'s new attributes: for `derive`, the residual of
  /// the unhandled words in reverse order, nothing at all (and a warning)
  /// for an empty list; for anything else, the attribute itself unless a
  /// decorator handled it.
  lemma Decorators2Facts(env: Env, mm: MultiModified, item: Annotatable, attr: Attribute, fuel: nat)
    ensures var r := Decorators2Spec(env, mm, item, attr, fuel);
      AttrName(attr) != "derive" && r.Some? ==>
        r.value.attrs == (if IsDecorator(env, AttrName(attr)) then [] else [attr])
    ensures var r := Decorators2Spec(env, mm, item, attr, fuel);
      AttrName(attr) == "derive" && r.Some? ==>
        r.value.attrs == Residual(attr, Reverse(UnhandledWords(env, ListEntries(attr.value))))
    ensures AttrName(attr) == "derive" && ListEntries(attr.value) == [] ==>
      Decorators2Spec(env, mm, item, attr, fuel) == Some(Decorated([], [], [Diagnostic(Warning, attr.value.span, EmptyDeriveList)]))
  {
    Decorators3Handled(env, mm, item, attr, AttrName(attr), fuel);
    UnrollFacts(env, mm, item, attr, ListEntries(attr.value), fuel);
    var w := [Diagnostic(Warning, attr.value.span, EmptyDeriveList)];
    assert w + [] == w;
  }

  /// A two-entry `cfg_attr` yields exactly what its SPEC yields, with every
  /// item ending in `#[cfg(COND)]` and every new attribute a `cfg_attr` under
  /// the same COND; any other attribute is handled as by
  /// `expand_decorators_2`.
  lemma DecorateOneFacts(env: Env, mm: MultiModified, item: Annotatable, attr: Attribute, fuel: nat)
    ensures !IsCfgAttrPair(attr) ==> DecorateOneSpec(env, mm, item, attr, fuel) == Decorators2Spec(env, mm, item, attr, fuel)
    ensures IsCfgAttrPair(attr) ==>
      (DecorateOneSpec(env, mm, item, attr, fuel).Some? <==> Decorators2Spec(env, mm, item, CfgSpec(attr), fuel).Some?)
    ensures IsCfgAttrPair(attr) && DecorateOneSpec(env, mm, item, attr, fuel).Some? ==>
      (var r := DecorateOneSpec(env, mm, item, attr, fuel).value;
       var d := Decorators2Spec(env, mm, item, CfgSpec(attr), fuel).value;
       && |r.items| == |d.items|
       && (forall i :: 0 <= i < |d.items| ==>
             && r.items[i].attrs[..|d.items[i].attrs|] == d.items[i].attrs
             && r.items[i].attrs[|d.items[i].attrs|..] == [CfgCond(attr)]
             && r.items[i] == d.items[i].(attrs := r.items[i].attrs))
       && |r.attrs| == |d.attrs|
       && (forall i :: 0 <= i < |d.attrs| ==>
             IsCfgAttrPair(r.attrs[i]) && r.attrs[i].value.node.items == [attr.value.node.items[0], d.attrs[i].value])
       && r.diags == d.diags)
  {
  }

  /// An attribute that is neither a two-entry `cfg_attr` nor `derive` and
  /// names no decorator passes through untouched.
  predicate Inert(env: Env, a: Attribute)
  {
    !IsCfgAttrPair(a) && AttrName(a) != "derive" && !IsDecorator(env, AttrName(a))
  }

  lemma {:induction false} InertDecorators(env: Env, mm: MultiModified, item: Annotatable, attrs: seq<Attribute>, fuel: nat)
    requires forall i :: 0 <= i < |attrs| ==> Inert(env, attrs[i])
    ensures DecoratorsSpec(env, mm, item, attrs, fuel) == Some(Decorated([], attrs, []))
    decreases |attrs|
  {
    if attrs != [] {
      var n := |attrs| - 1;
      InertDecorators(env, mm, item, attrs[..n], fuel);
      Decorators3Handled(env, mm, item, attrs[n], AttrName(attrs[n]), fuel);
      assert Decorators2Spec(env, mm, item, attrs[n], fuel) == Some(Decorated([], [attrs[n]], []));
      assert DecorateOneSpec(env, mm, item, attrs[n], fuel) == Some(Decorated([], [attrs[n]], []));
      assert attrs[..n] + [attrs[n]] == attrs;
      assert DecoratorsSpec(env, mm, item, attrs, fuel) ==
        Then(Some(Decorated([], attrs[..n], [])), Some(Decorated([], [attrs[n]], [])));
      var noItems: seq<Annotatable>, noDiags: seq<Diagnostic> := [], [];
      assert noItems + noItems == noItems && noDiags + noDiags == noDiags;
    }
  }

  /// With no attribute for the pass to act on, `expand_annotatable` is
  /// `expand_multi_modified` of the item, and nothing is reported.
  lemma InertAnnotatable(env: Env, mm: MultiModified, item: Annotatable, fuel: nat)
    requires forall i :: 0 <= i < |item.attrs| ==> Inert(env, item.attrs[i])
    ensures ExpandAnnotatableSpec(env, mm, item, fuel) == Some(Expanded(mm(item), []))
  {
    InertDecorators(env, mm, item, item.attrs, fuel);
    assert WithAttrs(item, item.attrs) == item;
    assert mm(item) + [] == mm(item);
  }

  /// A single decorator attribute: the item, stripped of it, goes to
  /// `expand_multi_modified`, and the decorator's items follow, each
  /// expanded in turn one level deeper.
  lemma SingleDecorator(env: Env, mm: MultiModified, item: Annotatable, fuel: nat)
    requires |item.attrs| == 1
    requires var a := item.attrs[0]; !IsCfgAttrPair(a) && AttrName(a) != "derive" && IsDecorator(env, AttrName(a))
    ensures var a := item.attrs[0];
            var e := ExpandAllSpec(env, mm, env[AttrName(a)].decorate(a.span, a.value, item), fuel);
            ExpandAnnotatableSpec(env, mm, item, fuel) ==
              if e.None? then None else Some(Expanded(mm(WithAttrs(item, [])) + e.value.items, e.value.diags))
  {
    var a := item.attrs[0];
    assert item.attrs[..0] == [];
    Decorators3Handled(env, mm, item, a, AttrName(a), fuel);
    var e := ExpandAllSpec(env, mm, env[AttrName(a)].decorate(a.span, a.value, item), fuel);
    if e.Some? {
      assert Decorators2Spec(env, mm, item, a, fuel) == Some(Decorated(e.value.items, [], e.value.diags));
      assert DecoratorsSpec(env, mm, item, item.attrs, fuel) == Then(Some(Decorated([], [], [])), Some(Decorated(e.value.items, [], e.value.diags)));
      assert [] + e.value.items == e.value.items && [] + e.value.diags == e.value.diags;
      var noAttrs: seq<Attribute> := [];
      assert noAttrs + noAttrs == noAttrs;
      assert DecoratorsSpec(env, mm, item, item.attrs, fuel) == Some(Decorated(e.value.items, [], e.value.diags));
    } else {
      assert DecorateOneSpec(env, mm, item, a, fuel).None?;
      assert DecoratorsSpec(env, mm, item, item.attrs, fuel) == Then(Some(Decorated([], [], [])), None);
    }
  }

  /// A `derive` list of words none of which names a `derive_T` decorator
  /// comes out as one residual `derive` with the entries in reverse order.
  lemma {:induction false} UnhandledDeriveReversed(env: Env, mm: MultiModified, item: Annotatable, attr: Attribute,
                                                   traits: seq<MetaItem>, fuel: nat)
    requires forall i :: 0 <= i < |traits| ==> traits[i].node.Word? && !IsDecorator(env, DERIVE_PREFIX + traits[i].node.word)
    ensures UnrollSpec(env, mm, item, attr, traits, fuel) == Some(Unrolled([], Reverse(traits), []))
    decreases |traits|
  {
    if traits != [] {
      var t := traits[0];
      UnhandledDeriveReversed(env, mm, item, attr, traits[1..], fuel);
      ReverseCons(t, traits[1..]);
      assert [t] + traits[1..] == traits;
      Decorators3Handled(env, mm, item, DeriveDecoratorAttr(attr, t), DERIVE_PREFIX + t.node.word, fuel);
      var rest := Unrolled([], Reverse(traits[1..]), []);
      assert UnrollEntry(env, mm, item, attr, rest, t, fuel) == Some(Unrolled([] + [], Reverse(traits[1..]) + [t], [] + []));
    }
  }

  lemma DeriveResidualReversed(env: Env, mm: MultiModified, item: Annotatable, attr: Attribute, fuel: nat)
    requires AttrName(attr) == "derive" && ListEntries(attr.value) != []
    requires var traits := ListEntries(attr.value);
      forall i :: 0 <= i < |traits| ==> traits[i].node.Word? && !IsDecorator(env, DERIVE_PREFIX + traits[i].node.word)
    ensures Decorators2Spec(env, mm, item, attr, fuel) ==
              Some(Decorated([], [MkAttribute(attr.span, MetaList(attr.value.span, "derive", Reverse(ListEntries(attr.value))))], []))
  {
    UnhandledDeriveReversed(env, mm, item, attr, ListEntries(attr.value), fuel);
  }

  lemma {:induction false} ExpandAllNoneExtends(env: Env, mm: MultiModified, anns: seq<Annotatable>, j: nat, fuel: nat)
    requires j <= |anns| && ExpandAllSpec(env, mm, anns[..j], fuel).None?
    ensures ExpandAllSpec(env, mm, anns, fuel).None?
    decreases |anns| - j
  {
    if j == |anns| {
      assert anns[..j] == anns;
    } else {
      assert anns[..j + 1][..j] == anns[..j];
      ExpandAllNoneExtends(env, mm, anns, j + 1, fuel);
    }
  }

  lemma {:induction false} DecoratorsNoneExtends(env: Env, mm: MultiModified, item: Annotatable, attrs: seq<Attribute>, j: nat, fuel: nat)
    requires j <= |attrs| && DecoratorsSpec(env, mm, item, attrs[..j], fuel).None?
    ensures DecoratorsSpec(env, mm, item, attrs, fuel).None?
    decreases |attrs| - j
  {
    if j == |attrs| {
      assert attrs[..j] == attrs;
    } else {
      assert attrs[..j + 1][..j] == attrs[..j];
      DecoratorsNoneExtends(env, mm, item, attrs, j + 1, fuel);
    }
  }

  lemma {:induction false} UnrollNoneExtends(env: Env, mm: MultiModified, item: Annotatable, attr: Attribute,
                                             traits: seq<MetaItem>, i: nat, fuel: nat)
    requires i <= |traits| && UnrollSpec(env, mm, item, attr, traits[i..], fuel).None?
    ensures UnrollSpec(env, mm, item, attr, traits, fuel).None?
    decreases i
  {
    if i == 0 {
      assert traits[i..] == traits;
    } else {
      assert traits[i - 1..][1..] == traits[i..];
      UnrollNoneExtends(env, mm, item, attr, traits, i - 1, fuel);
    }
  }

  lemma DecoratorsStep(env: Env, mm: MultiModified, item: Annotatable, attrs: seq<Attribute>, i: nat, fuel: nat)
    requires i < |attrs| && DecoratorsSpec(env, mm, item, attrs[..i], fuel).Some?
    ensures DecoratorsSpec(env, mm, item, attrs[..i + 1], fuel) ==
              Then(DecoratorsSpec(env, mm, item, attrs[..i], fuel), DecorateOneSpec(env, mm, item, attrs[i], fuel))
  {
    assert attrs[..i + 1][..i] == attrs[..i];
    assert attrs[..i + 1][i] == attrs[i];
  }

  lemma UnrollStep(env: Env, mm: MultiModified, item: Annotatable, attr: Attribute, traits: seq<MetaItem>, i: nat, fuel: nat)
    requires i < |traits|
    ensures UnrollSpec(env, mm, item, attr, traits[i..], fuel) ==
              (var rest := UnrollSpec(env, mm, item, attr, traits[i + 1..], fuel);
               if rest.None? then None else UnrollEntry(env, mm, item, attr, rest.value, traits[i], fuel))
  {
    assert traits[i..][1..] == traits[i + 1..];
  }

  /// `expand_annotatable`.
  method ExpandAnnotatable(handler: Handler, env: Env, mm: MultiModified, item: Annotatable, fuel: nat)
    returns (r: Option<seq<Annotatable>>)
    modifies handler
    ensures var s := ExpandAnnotatableSpec(env, mm, item, fuel);
      && (r.Some? <==> s.Some?)
      && (r.Some? ==> r.value == s.value.items && handler.diagnostics == old(handler.diagnostics) + s.value.diags)
    decreases fuel, 7, 0
  {
    var d := ExpandDecorators(handler, env, mm, item, fuel);
    if d.None? {
      return None;
    }
    var (decoratorItems, newAttrs) := d.value;
    var newItems := mm(WithAttrs(item, newAttrs));
    newItems := newItems + decoratorItems;
    r := Some(newItems);
  }

  /// `expand_decorators`: every attribute of `item` in order; the decorator
  /// items and new attributes are returned rather than pushed onto
  /// out-parameters.
  method ExpandDecorators(handler: Handler, env: Env, mm: MultiModified, item: Annotatable, fuel: nat)
    returns (r: Option<(seq<Annotatable>, seq<Attribute>)>)
    modifies handler
    ensures var s := DecoratorsSpec(env, mm, item, item.attrs, fuel);
      && (r.Some? <==> s.Some?)
      && (r.Some? ==> r.value == (s.value.items, s.value.attrs) &&
                      handler.diagnostics == old(handler.diagnostics) + s.value.diags)
    decreases fuel, 6, 0
  {
    ghost var log0 := handler.diagnostics;
    var attrs := item.attrs;
    var decoratorItems: seq<Annotatable> := [];
    var newAttrs: seq<Attribute> := [];
    var i := 0;
    while i < |attrs|
      invariant 0 <= i <= |attrs|
      invariant var s := DecoratorsSpec(env, mm, item, attrs[..i], fuel);
        s.Some? && s.value.items == decoratorItems && s.value.attrs == newAttrs &&
        handler.diagnostics == log0 + s.value.diags
    {
      var one := DecorateOne(handler, env, mm, item, attrs[i], fuel);
      DecoratorsStep(env, mm, item, attrs, i, fuel);
      if one.None? {
        DecoratorsNoneExtends(env, mm, item, attrs, i + 1, fuel);
        return None;
      }
      decoratorItems := decoratorItems + one.value.0;
      newAttrs := newAttrs + one.value.1;
      i := i + 1;
    }
    assert attrs[..i] == attrs;
    r := Some((decoratorItems, newAttrs));
  }

  /// The body of the loop of `expand_decorators`: the `cfg_attr(COND, SPEC)`
  /// arm, or `expand_decorators_2` for any other attribute.
  method DecorateOne(handler: Handler, env: Env, mm: MultiModified, item: Annotatable, attr: Attribute, fuel: nat)
    returns (r: Option<(seq<Annotatable>, seq<Attribute>)>)
    modifies handler
    ensures var s := DecorateOneSpec(env, mm, item, attr, fuel);
      && (r.Some? <==> s.Some?)
      && (r.Some? ==> r.value == (s.value.items, s.value.attrs) &&
                      handler.diagnostics == old(handler.diagnostics) + s.value.diags)
    decreases fuel, 5, 0
  {
    if !IsCfgAttrPair(attr) {
      r := ExpandDecorators2(handler, env, mm, item, attr, fuel);
      return;
    }
    var cond := CfgCond(attr);
    var spec := CfgSpec(attr);
    var d := ExpandDecorators2(handler, env, mm, item, spec, fuel);
    if d.None? {
      return None;
    }
    ghost var s := DecorateOneSpec(env, mm, item, attr, fuel).value;
    var (items, attrs) := d.value;
    var decoratorItems: seq<Annotatable> := [];
    var k := 0;
    while k < |items|
      invariant 0 <= k <= |items| && |decoratorItems| == k
      invariant forall j :: 0 <= j < k ==> decoratorItems[j] == items[j].(attrs := items[j].attrs + [cond])
    {
      decoratorItems := decoratorItems + [items[k].(attrs := items[k].attrs + [cond])];
      k := k + 1;
    }
    var newAttrs: seq<Attribute> := [];
    k := 0;
    while k < |attrs|
      invariant 0 <= k <= |attrs| && |newAttrs| == k
      invariant forall j :: 0 <= j < k ==> newAttrs[j] == CfgRewrap(attr, attrs[j])
    {
      newAttrs := newAttrs + [CfgRewrap(attr, attrs[k])];
      k := k + 1;
    }
    assert decoratorItems == s.items;
    assert newAttrs == s.attrs;
    r := Some((decoratorItems, newAttrs));
  }

  /// `expand_decorators_2`.
  method ExpandDecorators2(handler: Handler, env: Env, mm: MultiModified, item: Annotatable, attr: Attribute, fuel: nat)
    returns (r: Option<(seq<Annotatable>, seq<Attribute>)>)
    modifies handler
    ensures var s := Decorators2Spec(env, mm, item, attr, fuel);
      && (r.Some? <==> s.Some?)
      && (r.Some? ==> r.value == (s.value.items, s.value.attrs) &&
                      handler.diagnostics == old(handler.diagnostics) + s.value.diags)
    decreases fuel, 4, 0
  {
    var mname := AttrName(attr);
    if mname == "derive" {
      var traits := ListEntries(attr.value);
      if traits == [] {
        handler.Emit(Diagnostic(Warning, attr.value.span, EmptyDeriveList));
      }
      var u := UnrollDerive(handler, env, mm, item, attr, traits, fuel);
      if u.None? {
        return None;
      }
      var (decoratorItems, notHandled) := u.value;
      var newAttrs: seq<Attribute> := [];
      if notHandled != [] {
        newAttrs := newAttrs + [MkAttribute(attr.span, MetaList(attr.value.span, "derive", notHandled))];
      }
      assert newAttrs == Residual(attr, notHandled);
      r := Some((decoratorItems, newAttrs));
    } else {
      var d := ExpandDecorators3(handler, env, mm, item, attr, mname, fuel);
      if d.None? {
        return None;
      }
      var (handled, items) := d.value;
      var newAttrs: seq<Attribute> := [];
      if !handled {
        newAttrs := newAttrs + [attr];
      }
      assert newAttrs == if handled then [] else [attr];
      r := Some((items, newAttrs));
    }
  }

  /// The `for titem in traits.iter().rev()` loop of `expand_decorators_2`:
  /// the decorator items of the handled entries and the unhandled entries,
  /// in visiting order.
  method UnrollDerive(handler: Handler, env: Env, mm: MultiModified, item: Annotatable, attr: Attribute,
                      traits: seq<MetaItem>, fuel: nat)
    returns (r: Option<(seq<Annotatable>, seq<MetaItem>)>)
    modifies handler
    ensures var s := UnrollSpec(env, mm, item, attr, traits, fuel);
      && (r.Some? <==> s.Some?)
      && (r.Some? ==> r.value == (s.value.items, s.value.notHandled) &&
                      handler.diagnostics == old(handler.diagnostics) + s.value.diags)
    decreases fuel, 3, 0
  {
    ghost var log0 := handler.diagnostics;
    var notHandled: seq<MetaItem> := [];
    var decoratorItems: seq<Annotatable> := [];
    var i := |traits|;
    while i > 0
      invariant 0 <= i <= |traits|
      invariant var u := UnrollSpec(env, mm, item, attr, traits[i..], fuel);
        u.Some? && u.value.items == decoratorItems && u.value.notHandled == notHandled &&
        handler.diagnostics == log0 + u.value.diags
    {
      i := i - 1;
      var titem := traits[i];
      UnrollStep(env, mm, item, attr, traits, i, fuel);
      ghost var rest := UnrollSpec(env, mm, item, attr, traits[i + 1..], fuel).value;
      if !titem.node.Word? {
        handler.Emit(Diagnostic(Error, titem.span, MalformedDeriveEntry));
        AppendAssoc(log0, rest.diags, [Diagnostic(Error, titem.span, MalformedDeriveEntry)]);
      } else {
        var tname := DERIVE_PREFIX + titem.node.word;
        var derive := DeriveDecoratorAttr(attr, titem);
        var d := ExpandDecorators3(handler, env, mm, item, derive, tname, fuel);
        if d.None? {
          UnrollNoneExtends(env, mm, item, attr, traits, i, fuel);
          return None;
        }
        AppendAssoc(log0, rest.diags, Decorators3Spec(env, mm, item, derive, tname, fuel).value.diags);
        var (handled, items) := d.value;
        decoratorItems := decoratorItems + items;
        if !handled {
          notHandled := notHandled + [titem];
        }
      }
    }
    assert traits[i..] == traits;
    r := Some((decoratorItems, notHandled));
  }

  /// `expand_decorators_3`: whether `mname` is a decorator, and the items
  /// it generated, each expanded.
  method ExpandDecorators3(handler: Handler, env: Env, mm: MultiModified, item: Annotatable, attr: Attribute,
                           mname: Name, fuel: nat)
    returns (r: Option<(bool, seq<Annotatable>)>)
    modifies handler
    ensures var s := Decorators3Spec(env, mm, item, attr, mname, fuel);
      && (r.Some? <==> s.Some?)
      && (r.Some? ==> r.value == (s.value.handled, s.value.items) &&
                      handler.diagnostics == old(handler.diagnostics) + s.value.diags)
    decreases fuel, 1, 0
  {
    if mname in env && env[mname].MultiDecorator? {
      var modified := env[mname].decorate(attr.span, attr.value, item);
      ghost var log0 := handler.diagnostics;
      var decoratorItems: seq<Annotatable> := [];
      var j := 0;
      while j < |modified|
        invariant 0 <= j <= |modified|
        invariant var e := ExpandAllSpec(env, mm, modified[..j], fuel);
          e.Some? && e.value.items == decoratorItems && handler.diagnostics == log0 + e.value.diags
      {
        assert modified[..j + 1][..j] == modified[..j];
        if fuel == 0 {
          ExpandAllNoneExtends(env, mm, modified, j + 1, fuel);
          return None;
        }
        ghost var done := ExpandAllSpec(env, mm, modified[..j], fuel).value;
        var more := ExpandAnnotatable(handler, env, mm, modified[j], fuel - 1);
        if more.None? {
          ExpandAllNoneExtends(env, mm, modified, j + 1, fuel);
          return None;
        }
        AppendAssoc(log0, done.diags, ExpandAnnotatableSpec(env, mm, modified[j], fuel - 1).value.diags);
        decoratorItems := decoratorItems + more.value;
        j := j + 1;
      }
      assert modified[..j] == modified;
      r := Some((true, decoratorItems));
    } else {
      r := Some((false, []));
    }
  }
}
