/// Expansion kinds, expansions and invocations: the pure part of the
/// expansion engine (`ExpansionKind::name`, `make_from`, `dummy`,
/// `expect_from_annotatables`, `Expansion::make_*`, `ExpansionConfig`).
module Expansions {
  import opened Wrappers
  import opened Ast

  /// An `Expansion`: the fragment that fills a position of `kind`. The
  /// single-node kinds hold exactly one node, an optional expression at most
  /// one, and the sequence kinds any number.
  datatype Expansion = Expansion(kind: ExpansionKind, nodes: seq<Node>)

  predicate IsSequenceKind(k: ExpansionKind)
  {
    k == Stmts || k == Items || k == TraitItems || k == ImplItems
  }

  predicate WellShaped(e: Expansion)
  {
    match e.kind
    case OptExpr => |e.nodes| <= 1
    case Expr => |e.nodes| == 1
    case Pat => |e.nodes| == 1
    case Ty => |e.nodes| == 1
    case _ => true
  }

  /// `ExpansionKind::name`, used in the "non-{kind} macro in {kind}
  /// position" message.
  function KindName(k: ExpansionKind): string
  {
    match k
    case OptExpr => "expression"
    case Expr => "expression"
    case Pat => "pattern"
    case Ty => "type"
    case Stmts => "statement"
    case Items => "item"
    case TraitItems => "trait item"
    case ImplItems => "impl item"
  }

  /// Only an optional expression and an expression share a name.
  lemma KindNameInjective(a: ExpansionKind, b: ExpansionKind)
    ensures KindName(a) == KindName(b) <==> a == b || (a in {OptExpr, Expr} && b in {OptExpr, Expr})
  {
  }

  /// `ExpansionKind::make_from`: the `make_*` method of the result that
  /// matches the kind; an optional expression takes the result's expression.
  function MakeFrom(k: ExpansionKind, result: MacResult): (r: Option<Expansion>)
    ensures r.Some? ==> r.value.kind == k && WellShaped(r.value)
    ensures r.None? <==> match k
                         case OptExpr => result.expr.None?
                         case Expr => result.expr.None?
                         case Pat => result.pat.None?
                         case Ty => result.ty.None?
                         case Stmts => result.stmts.None?
                         case Items => result.items.None?
                         case TraitItems => result.traitItems.None?
                         case ImplItems => result.implItems.None?
  {
    match k
    case OptExpr => if result.expr.Some? then Some(Expansion(OptExpr, [result.expr.value])) else None
    case Expr => if result.expr.Some? then Some(Expansion(Expr, [result.expr.value])) else None
    case Pat => if result.pat.Some? then Some(Expansion(Pat, [result.pat.value])) else None
    case Ty => if result.ty.Some? then Some(Expansion(Ty, [result.ty.value])) else None
    case Stmts => if result.stmts.Some? then Some(Expansion(Stmts, result.stmts.value)) else None
    case Items => if result.items.Some? then Some(Expansion(Items, result.items.value)) else None
    case TraitItems => if result.traitItems.Some? then Some(Expansion(TraitItems, result.traitItems.value)) else None
    case ImplItems => if result.implItems.Some? then Some(Expansion(ImplItems, result.implItems.value)) else None
  }

  /// `DummyResult::any`: a dummy expression, pattern and type, one dummy
  /// statement, and no items of any kind.
  function DummyResult(span: Span): MacResult
  {
    MacResult(Some(Dummy(Expr, span)), Some(Dummy(Pat, span)), Some(Dummy(Ty, span)),
              Some([Dummy(Stmts, span)]), Some([]), Some([]), Some([]))
  }

  /// `ExpansionKind::dummy`: `make_from(DummyResult::any(span)).unwrap()`.
  function DummyExpansion(k: ExpansionKind, span: Span): (r: Expansion)
    ensures r.kind == k && WellShaped(r)
    ensures SeqSlots(r.nodes) == {}
    ensures k in {Items, TraitItems, ImplItems} ==> r.nodes == []
    ensures k !in {Items, TraitItems, ImplItems} ==> |r.nodes| == 1 && r.nodes[0].Dummy?
  {
    var e := MakeFrom(k, DummyResult(span));
    assert e.Some?;
    assert SeqSlots(e.value.nodes) == {} by {
      var ns := e.value.nodes;
      if ns != [] {
        assert ns[1..] == [];
      }
    }
    e.value
  }

  /// `Expansion::make_*` (and `make_opt_expr`): the nodes of an expansion of
  /// the requested kind; any other kind panics.
  function MakeNodes(e: Expansion, k: ExpansionKind): (r: Result<seq<Node>, Panic>)
    ensures r.Ok? <==> e.kind == k
    ensures r.Ok? ==> r.value == e.nodes
    ensures r.Err? ==> r.error == WrongExpansionKind
  {
    if e.kind == k then Ok(e.nodes) else Err(WrongExpansionKind)
  }

  /// `make_from` followed by the matching `make_*` gives back the result's
  /// nodes for that position.
  lemma MakeFromThenMake(k: ExpansionKind, result: MacResult)
    requires MakeFrom(k, result).Some?
    ensures MakeNodes(MakeFrom(k, result).value, k).Ok?
    ensures k == Stmts ==> MakeNodes(MakeFrom(k, result).value, k).value == result.stmts.value
    ensures k == Items ==> MakeNodes(MakeFrom(k, result).value, k).value == result.items.value
    ensures k == Expr ==> MakeNodes(MakeFrom(k, result).value, k).value == [result.expr.value]
    ensures k == OptExpr ==> MakeNodes(MakeFrom(k, result).value, k).value == [result.expr.value]
    ensures k == Pat ==> MakeNodes(MakeFrom(k, result).value, k).value == [result.pat.value]
    ensures k == Ty ==> MakeNodes(MakeFrom(k, result).value, k).value == [result.ty.value]
    ensures k == TraitItems ==> MakeNodes(MakeFrom(k, result).value, k).value == result.traitItems.value
    ensures k == ImplItems ==> MakeNodes(MakeFrom(k, result).value, k).value == result.implItems.value
  {
  }

  /// The position annotatables of an expansion kind must come from.
  function KindPosition(k: ExpansionKind): (p: Option<Position>)
    ensures p.Some? <==> k in {Items, TraitItems, ImplItems}
    ensures p.Some? ==> PositionKind(p.value) == k
  {
    match k
    case Items => Some(ItemPosition)
    case TraitItems => Some(TraitItemPosition)
    case ImplItems => Some(ImplItemPosition)
    case _ => None
  }

  /// `ExpansionKind::expect_from_annotatables`: the annotatables as nodes of
  /// an item-like expansion; `Annotatable::expect_*` panics on an
  /// annotatable from another position, and a non-item kind is unreachable.
  function ExpectFromAnnotatables(k: ExpansionKind, items: seq<Annotatable>): (r: Result<Expansion, Panic>)
    ensures r.Ok? <==> KindPosition(k).Some? && forall i :: 0 <= i < |items| ==> items[i].position == KindPosition(k).value
    ensures r.Ok? ==> r.value.kind == k && |r.value.nodes| == |items|
    ensures r.Ok? ==> forall i :: 0 <= i < |items| ==> r.value.nodes[i] == Item(items[i])
    ensures KindPosition(k).None? ==> r == Err(UnreachableKind)
    ensures KindPosition(k).Some? && r.Err? ==> r.error == WrongAnnotatable
  {
    var p := KindPosition(k);
    if p.None? then Err(UnreachableKind)
    else if forall i :: 0 <= i < |items| ==> items[i].position == p.value then
      Ok(Expansion(k, seq(|items|, i requires 0 <= i < |items| => Item(items[i]))))
    else
      Err(WrongAnnotatable)
  }

  /// The nodes of annotatables carry the annotatables' placeholders.
  lemma {:induction false} ItemNodesSlots(items: seq<Annotatable>, nodes: seq<Node>)
    requires |nodes| == |items| && forall i :: 0 <= i < |items| ==> nodes[i] == Item(items[i])
    ensures SeqSlots(nodes) == ItemsSlots(items)
    decreases |items|
  {
    if items != [] {
      ItemNodesSlots(items[1..], nodes[1..]);
    }
  }

  /// The compile-time features the engine consults.
  datatype Features = Features(customDerive: bool)

  datatype ExpansionConfig = ExpansionConfig(
    crateName: string,
    features: Option<Features>,
    recursionLimit: nat,
    traceMac: bool,
    shouldTest: bool,
    singleStep: bool,
    keepMacs: bool)

  /// `ExpansionConfig::default`: no features, a recursion limit of 64 and
  /// every flag off.
  function DefaultConfig(crateName: string): (c: ExpansionConfig)
    ensures c.crateName == crateName && c.features.None? && c.recursionLimit == 64
    ensures !c.traceMac && !c.shouldTest && !c.singleStep && !c.keepMacs
    ensures !EnableCustomDerive(c)
  {
    ExpansionConfig(crateName, None, 64, false, false, false, false)
  }

  /// `enable_custom_derive`: true exactly when features are present and
  /// `custom_derive` is on.
  predicate EnableCustomDerive(c: ExpansionConfig)
  {
    c.features.Some? && c.features.value.customDerive
  }

  /// `InvocationKind`: a bang macro call (with the attributes and the ident
  /// of its site, for `ident!` items) or an attribute on an annotatable.
  datatype InvocationKind =
    | Bang(attrs: seq<Attribute>, mac: MacCall, ident: Option<Ident>, span: Span)
    | Attr(attr: Attribute, item: Annotatable)

  /// `Invocation`: what to expand, the kind of the position it fills, and its
  /// `ExpansionData` (the fresh mark and the nesting depth).
  datatype Invocation = Invocation(kind: InvocationKind, expansionKind: ExpansionKind, mark: nat, depth: nat)

  /// `Invocation::span`.
  function InvocationSpan(inv: Invocation): Span
  {
    match inv.kind
    case Bang(_, _, _, span) => span
    case Attr(attr, _) => attr.span
  }

  /// The placeholders an invocation carries in its payload.
  function InvocationSlots(inv: Invocation): set<Slot>
  {
    match inv.kind
    case Bang(_, _, _, _) => {}
    case Attr(_, item) => SeqSlots(item.children)
  }
}
