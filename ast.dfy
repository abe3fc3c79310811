/// The syntax tree the expansion engine works on, reduced to what the
/// engine inspects: attributes and their meta items, macro paths, the
/// annotatable items attributes hang on, macro invocation sites and the
/// placeholders that stand in for pending expansions.
module Ast {
  import opened Wrappers

  type Name = string

  /// A source region; the engine only copies and compares spans.
  datatype Span = Span(lo: nat, hi: nat)

  /// An identifier with its hygiene syntax context: the marks applied to
  /// it, oldest first.
  datatype Ident = Ident(name: Name, ctxt: seq<nat>)

  datatype Lit = StrLit(text: string) | OtherLit(text: string)

  /// `MetaItemKind`: `#[word]`, `#[name(items…)]` and `#[name = lit]`.
  datatype MetaItemKind =
    | Word(word: Name)
    | List(list: Name, items: seq<MetaItem>)
    | NameValue(key: Name, lit: Lit)

  datatype MetaItem = MetaItem(node: MetaItemKind, span: Span)

  datatype AttrStyle = Outer | Inner

  datatype Attribute = Attribute(id: nat, style: AttrStyle, value: MetaItem, isSugaredDoc: bool, span: Span)

  /// `MetaItem::name`.
  function MetaName(m: MetaItem): Name
  {
    match m.node
    case Word(w) => w
    case List(n, _) => n
    case NameValue(n, _) => n
  }

  /// `Attribute::name`: the name of the attribute's meta item.
  function AttrName(a: Attribute): Name
  {
    MetaName(a.value)
  }

  /// `MetaItem::value_str`: the string of a `name = "…"` item.
  function ValueStr(m: MetaItem): Option<string>
  {
    if m.node.NameValue? && m.node.lit.StrLit? then Some(m.node.lit.text) else None
  }

  /// `MetaItem::meta_item_list`: the entries of a `name(…)` item.
  function MetaItemList(m: MetaItem): Option<seq<MetaItem>>
  {
    if m.node.List? then Some(m.node.items) else None
  }

  /// `meta_item_list().unwrap_or(&[])`: the entries of a list item, and
  /// none for any other item.
  function ListEntries(m: MetaItem): (r: seq<MetaItem>)
    ensures m.node.List? ==> r == m.node.items
    ensures !m.node.List? ==> r == []
  {
    var l := MetaItemList(m);
    if l.Some? then l.value else []
  }

  /// The prefix of the word attributes `derive` unrolls into
  /// (`#[derive(T)]` becomes `#[derive_T]`).
  const DERIVE_PREFIX: string := "derive_"

  /// `cx.attribute`: an outer, non-doc attribute. Attribute ids come from a
  /// global counter in the source; the model gives every built attribute
  /// id 0.
  function MkAttribute(span: Span, value: MetaItem): Attribute
  {
    Attribute(0, Outer, value, false, span)
  }

  /// `cx.meta_word`.
  function MetaWord(span: Span, w: Name): MetaItem
  {
    MetaItem(Word(w), span)
  }

  /// `cx.meta_list`.
  function MetaList(span: Span, name: Name, items: seq<MetaItem>): MetaItem
  {
    MetaItem(List(name, items), span)
  }

  datatype PathSegment = PathSegment(identifier: Ident, hasParameters: bool)

  datatype Path = Path(span: Span, global: bool, segments: seq<PathSegment>)

  /// A macro call `path!(tts)`; token trees are reduced to identifier tokens.
  datatype MacCall = MacCall(path: Path, tts: seq<Ident>, span: Span)

  /// A path a macro name may not have: more than one segment, a leading
  /// `::`, or generic parameters on the only segment.
  predicate IsQualified(p: Path)
    requires |p.segments| > 0 || p.global
  {
    |p.segments| > 1 || p.global || p.segments[0].hasParameters
  }

  /// The positions an expansion can fill. `OptExpr` is an expression that
  /// may expand to nothing.
  datatype ExpansionKind = OptExpr | Expr | Pat | Ty | Stmts | Items | TraitItems | ImplItems

  /// The three kinds of annotatable items.
  datatype Position = ItemPosition | TraitItemPosition | ImplItemPosition

  /// `Annotatable`: an item, trait item or impl item. An item whose `mac` is
  /// present is a macro invocation in item position (`ItemKind::Mac`).
  datatype Annotatable = Annotatable(
    position: Position,
    ident: Ident,
    attrs: seq<Attribute>,
    mac: Option<MacCall>,
    children: seq<Node>,
    span: Span)

  /// A tree node. `Mac` is a macro invocation in an expression, optional
  /// expression, pattern, type or statement position; `Placeholder` stands
  /// for the pending expansion whose mark is `id`; `Dummy` is the error
  /// node `DummyResult` produces.
  datatype Node =
    | Leaf(ident: Ident)
    | Branch(tag: Name, children: seq<Node>)
    | Item(item: Annotatable)
    | Mac(kind: ExpansionKind, mac: MacCall, attrs: seq<Attribute>, span: Span)
    | Placeholder(kind: ExpansionKind, id: nat)
    | Dummy(kind: ExpansionKind, span: Span)

  /// The expansion kind of the position an annotatable occupies.
  function PositionKind(p: Position): (k: ExpansionKind)
    ensures k == Items || k == TraitItems || k == ImplItems
  {
    match p
    case ItemPosition => Items
    case TraitItemPosition => TraitItems
    case ImplItemPosition => ImplItems
  }

  /// `Annotatable::attrs` replaced (`fold_attrs`).
  function WithAttrs(a: Annotatable, attrs: seq<Attribute>): (r: Annotatable)
    ensures r.attrs == attrs && r.position == a.position
  {
    a.(attrs := attrs)
  }

  /// A size measure for recursion over trees.
  function NodeSize(n: Node): (r: nat)
    ensures r >= 1
  {
    match n
    case Branch(_, cs) => 1 + SeqSize(cs)
    case Item(a) => 1 + SeqSize(a.children)
    case _ => 1
  }

  function SeqSize(ns: seq<Node>): nat
  {
    if ns == [] then 0 else NodeSize(ns[0]) + SeqSize(ns[1..])
  }

  /// A pending expansion a placeholder stands for: its mark and the kind of
  /// position it fills.
  datatype Slot = Slot(id: nat, kind: ExpansionKind)

  /// The placeholders in a node.
  function NodeSlots(n: Node): set<Slot>
    decreases NodeSize(n), 0
  {
    match n
    case Branch(_, cs) => SeqSlots(cs)
    case Item(a) => SeqSlots(a.children)
    case Placeholder(kind, id) => {Slot(id, kind)}
    case _ => {}
  }

  function SeqSlots(ns: seq<Node>): set<Slot>
    decreases SeqSize(ns), 1
  {
    if ns == [] then {} else NodeSlots(ns[0]) + SeqSlots(ns[1..])
  }

  lemma {:induction false} SeqSlotsAppend(a: seq<Node>, b: seq<Node>)
    ensures SeqSlots(a + b) == SeqSlots(a) + SeqSlots(b)
    decreases |a|
  {
    if a != [] {
      assert (a + b)[1..] == a[1..] + b;
      SeqSlotsAppend(a[1..], b);
    } else {
      assert a + b == b;
    }
  }

  /// The placeholders anywhere in a list of annotatables.
  function ItemsSlots(items: seq<Annotatable>): set<Slot>
  {
    if items == [] then {} else SeqSlots(items[0].children) + ItemsSlots(items[1..])
  }

  lemma {:induction false} ItemsSlotsAppend(a: seq<Annotatable>, b: seq<Annotatable>)
    ensures ItemsSlots(a + b) == ItemsSlots(a) + ItemsSlots(b)
    decreases |a|
  {
    if a != [] {
      assert (a + b)[1..] == a[1..] + b;
      ItemsSlotsAppend(a[1..], b);
    } else {
      assert a + b == b;
    }
  }

  /// What an extension returns: each `make_*` method of `MacResult`, none
  /// where the result cannot be used in that position.
  datatype MacResult = MacResult(
    expr: Option<Node>,
    pat: Option<Node>,
    ty: Option<Node>,
    stmts: Option<seq<Node>>,
    items: Option<seq<Node>>,
    traitItems: Option<seq<Node>>,
    implItems: Option<seq<Node>>)

  /// `SyntaxExtension`: the four kinds the expander dispatches on. The
  /// extensions' own code is arbitrary, so each is a function; their
  /// diagnostics and backtrace entries are not modelled.
  datatype SyntaxExtension =
    | MultiDecorator(decorate: (Span, MetaItem, Annotatable) -> seq<Annotatable>)
    | MultiModifier(transform: (Span, MetaItem, Annotatable) -> seq<Annotatable>)
    | NormalTT(expandTts: (Span, seq<Ident>) -> MacResult)
    | IdentTT(expandIdent: (Span, Ident, seq<Ident>, seq<Attribute>) -> MacResult)

  datatype Level = Error | Warning | Bug

  /// The diagnostics the modelled code reports; message texts are reduced to
  /// their kind and the names they mention.
  datatype Message =
    | QualifiedMacroName
    | MacroUndefined(name: Name)
    | ExpectsNoIdent(name: Name)
    | ExpectsIdent(name: Name)
    | OnlyInAttributes(name: Name)
    | WrongKind(kind: ExpansionKind, name: Name)
    | EmptyDeriveList
    | MalformedDeriveEntry
    | UnexpectedDeriveValue
    | CustomDeriveGated
    | DeriveOnNonItem
    | AddMacroUnsupported

  datatype Diagnostic = Diagnostic(level: Level, span: Span, message: Message)

  /// The panics of the modelled code that a caller can reach: running out of
  /// node ids, a `span_bug`, an `Annotatable::expect_*` or `Expansion::make_*`
  /// on the wrong kind, a placeholder without a recorded expansion, indexing
  /// the first segment of an empty macro path, and an `unreachable!()`:
  /// `UnreachableKind` for `expect_from_annotatables` on a kind that is not
  /// item-like, `Unreachable` for `expand_attr_invoc` on an extension that
  /// is neither a decorator nor a modifier.
  datatype Panic =
    | NodeIdsExhausted
    | ExplicitBug
    | WrongAnnotatable
    | WrongExpansionKind
    | MissingExpansion(id: nat)
    | EmptyMacroPath
    | Unreachable
    | UnreachableKind

  /// The parse session's diagnostic handler, shared by the resolver and the
  /// expansion context: reporting a diagnostic appends it to the log.
  class Handler {
    var diagnostics: seq<Diagnostic>

    constructor()
      ensures diagnostics == []
    {
      diagnostics := [];
    }

    method Emit(d: Diagnostic)
      modifies this
      ensures diagnostics == old(diagnostics) + [d]
    {
      diagnostics := diagnostics + [d];
    }
  }
}
