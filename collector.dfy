/// The invocation collector (`InvocationCollector`): a fold over a fragment
/// that replaces every macro invocation it finds by a placeholder keyed by a
/// fresh mark and records the invocation. Attribute-macro items are
/// recognised with the resolver's `find_attr_invoc`; their bodies are not
/// searched, since the attribute macro may rewrite them.
module Collector {
  import opened Wrappers
  import opened Ast
  import opened Expansions
  import opened SyntexResolver
  import opened Hygiene
  import opened Placeholders

  /// What collecting a node yields: the node with placeholders in place of
  /// invocations, and the invocations in the order they were found. Marks
  /// are drawn from `next` on, and every invocation records `depth`.
  function CollectNode(n: Node, exts: map<Name, SyntaxExtension>, depth: nat, next: nat): (Node, seq<Invocation>)
    decreases NodeSize(n), 0
  {
    match n
    case Branch(t, cs) =>
      var r := CollectSeq(cs, exts, depth, next);
      (Branch(t, r.0), r.1)
    case Mac(kind, mac, attrs, span) =>
      (Placeholder(kind, next), [Invocation(Bang(attrs, mac, None, span), kind, next, depth)])
    case Item(a) =>
      var kind := PositionKind(a.position);
      var i := FirstMacroAttr(exts, a.attrs);
      if i.Some? then
        var item := WithAttrs(a, a.attrs[..i.value] + a.attrs[i.value + 1..]);
        (Placeholder(kind, next), [Invocation(Attr(a.attrs[i.value], item), kind, next, depth)])
      else if a.mac.Some? then
        if a.position == ItemPosition && |a.mac.value.path.segments| == 0 then (n, [])
        else
          var ident := if a.position == ItemPosition then Some(a.ident) else None;
          (Placeholder(kind, next), [Invocation(Bang(a.attrs, a.mac.value, ident, a.span), kind, next, depth)])
      else
        var r := CollectSeq(a.children, exts, depth, next);
        (Item(a.(children := r.0)), r.1)
    case _ => (n, [])
  }

  function CollectSeq(ns: seq<Node>, exts: map<Name, SyntaxExtension>, depth: nat, next: nat): (seq<Node>, seq<Invocation>)
    decreases SeqSize(ns), 1
  {
    if ns == [] then ([], [])
    else
      var h := CollectNode(ns[0], exts, depth, next);
      var t := CollectSeq(ns[1..], exts, depth, next + |h.1|);
      ([h.0] + t.0, h.1 + t.1)
  }

  /// The placeholders the invocations leave behind, one per invocation.
  function SlotsOf(invs: seq<Invocation>): set<Slot>
  {
    if invs == [] then {} else {Slot(invs[0].mark, invs[0].expansionKind)} + SlotsOf(invs[1..])
  }

  /// The placeholders inside the invocations' payloads.
  function PayloadSlots(invs: seq<Invocation>): set<Slot>
  {
    if invs == [] then {} else InvocationSlots(invs[0]) + PayloadSlots(invs[1..])
  }

  lemma {:induction false} SlotsOfAppend(a: seq<Invocation>, b: seq<Invocation>)
    ensures SlotsOf(a + b) == SlotsOf(a) + SlotsOf(b)
    ensures PayloadSlots(a + b) == PayloadSlots(a) + PayloadSlots(b)
    decreases |a|
  {
    if a == [] {
      assert a + b == b;
    } else {
      assert (a + b)[1..] == a[1..] + b;
      SlotsOfAppend(a[1..], b);
    }
  }

  /// The invocations carry consecutive marks from `next` on, so no two share
  /// a mark, and all of them record the collector's depth.
  lemma {:induction false} CollectNodeMarks(n: Node, exts: map<Name, SyntaxExtension>, depth: nat, next: nat)
    ensures forall j :: 0 <= j < |CollectNode(n, exts, depth, next).1| ==>
      CollectNode(n, exts, depth, next).1[j].mark == next + j && CollectNode(n, exts, depth, next).1[j].depth == depth
    decreases NodeSize(n), 0
  {
    match n
    case Branch(_, cs) => CollectSeqMarks(cs, exts, depth, next);
    case Item(a) => CollectSeqMarks(a.children, exts, depth, next);
    case _ =>
  }

  lemma {:induction false} CollectSeqMarks(ns: seq<Node>, exts: map<Name, SyntaxExtension>, depth: nat, next: nat)
    ensures forall j :: 0 <= j < |CollectSeq(ns, exts, depth, next).1| ==>
      CollectSeq(ns, exts, depth, next).1[j].mark == next + j && CollectSeq(ns, exts, depth, next).1[j].depth == depth
    decreases SeqSize(ns), 1
  {
    if ns != [] {
      var h := CollectNode(ns[0], exts, depth, next);
      CollectNodeMarks(ns[0], exts, depth, next);
      CollectSeqMarks(ns[1..], exts, depth, next + |h.1|);
    }
  }

  /// Collecting keeps the number of nodes.
  lemma {:induction false} CollectSeqLength(ns: seq<Node>, exts: map<Name, SyntaxExtension>, depth: nat, next: nat)
    ensures |CollectSeq(ns, exts, depth, next).0| == |ns|
    decreases |ns|
  {
    if ns != [] {
      var h := CollectNode(ns[0], exts, depth, next);
      CollectSeqLength(ns[1..], exts, depth, next + |h.1|);
    }
  }

  /// Where the placeholders go: each invocation leaves its own placeholder
  /// in the result; every other placeholder of the result was already in the
  /// input; and the payloads only hold placeholders of the input.
  lemma {:induction false} CollectNodeSlots(n: Node, exts: map<Name, SyntaxExtension>, depth: nat, next: nat)
    ensures var r := CollectNode(n, exts, depth, next);
      && SlotsOf(r.1) <= NodeSlots(r.0)
      && NodeSlots(r.0) <= NodeSlots(n) + SlotsOf(r.1)
      && PayloadSlots(r.1) <= NodeSlots(n)
    decreases NodeSize(n), 0
  {
    match n
    case Branch(_, cs) => CollectSeqSlots(cs, exts, depth, next);
    case Item(a) =>
      var i := FirstMacroAttr(exts, a.attrs);
      if i.None? && a.mac.None? {
        CollectSeqSlots(a.children, exts, depth, next);
      }
    case _ =>
  }

  lemma {:induction false} CollectSeqSlots(ns: seq<Node>, exts: map<Name, SyntaxExtension>, depth: nat, next: nat)
    ensures var r := CollectSeq(ns, exts, depth, next);
      && SlotsOf(r.1) <= SeqSlots(r.0)
      && SeqSlots(r.0) <= SeqSlots(ns) + SlotsOf(r.1)
      && PayloadSlots(r.1) <= SeqSlots(ns)
    decreases SeqSize(ns), 1
  {
    if ns != [] {
      var h := CollectNode(ns[0], exts, depth, next);
      var t := CollectSeq(ns[1..], exts, depth, next + |h.1|);
      CollectNodeSlots(ns[0], exts, depth, next);
      CollectSeqSlots(ns[1..], exts, depth, next + |h.1|);
      var r := CollectSeq(ns, exts, depth, next);
      assert r == ([h.0] + t.0, h.1 + t.1);
      SlotsOfAppend(h.1, t.1);
      SeqSlotsCons(r.0);
      assert r.0[0] == h.0 && r.0[1..] == t.0;
      SeqSlotsCons(ns);
      SlotsJoin(SlotsOf(h.1), SlotsOf(t.1), NodeSlots(h.0), SeqSlots(t.0), NodeSlots(ns[0]), SeqSlots(ns[1..]),
                PayloadSlots(h.1), PayloadSlots(t.1));
    }
  }

  /// The bounds of a node and of the rest of a fragment combine into the
  /// bounds of the whole fragment (stated over plain sets to keep the
  /// inductive step small).
  lemma SlotsJoin(a: set<Slot>, b: set<Slot>, out0: set<Slot>, out1: set<Slot>, in0: set<Slot>, in1: set<Slot>,
                  pay0: set<Slot>, pay1: set<Slot>)
    requires a <= out0 <= in0 + a && pay0 <= in0
    requires b <= out1 <= in1 + b && pay1 <= in1
    ensures a + b <= out0 + out1 <= (in0 + in1) + (a + b) && pay0 + pay1 <= in0 + in1
  {
  }

  /// From a fragment without placeholders, the result's placeholders are
  /// exactly those of the new invocations, and the payloads have none.
  lemma CollectCleanSlots(ns: seq<Node>, exts: map<Name, SyntaxExtension>, depth: nat, next: nat)
    requires SeqSlots(ns) == {}
    ensures SeqSlots(CollectSeq(ns, exts, depth, next).0) == SlotsOf(CollectSeq(ns, exts, depth, next).1)
    ensures PayloadSlots(CollectSeq(ns, exts, depth, next).1) == {}
  {
    CollectSeqSlots(ns, exts, depth, next);
  }

  /// Every attribute invocation's attribute names a decorator or a modifier.
  lemma {:induction false} CollectNodeAttrs(n: Node, exts: map<Name, SyntaxExtension>, depth: nat, next: nat)
    ensures forall inv :: inv in CollectNode(n, exts, depth, next).1 && inv.kind.Attr? ==> IsMacroAttr(exts, inv.kind.attr)
    decreases NodeSize(n), 0
  {
    match n
    case Branch(_, cs) => CollectSeqAttrs(cs, exts, depth, next);
    case Item(a) =>
      var i := FirstMacroAttr(exts, a.attrs);
      if i.None? && a.mac.None? {
        CollectSeqAttrs(a.children, exts, depth, next);
      }
    case _ =>
  }

  lemma {:induction false} CollectSeqAttrs(ns: seq<Node>, exts: map<Name, SyntaxExtension>, depth: nat, next: nat)
    ensures forall inv :: inv in CollectSeq(ns, exts, depth, next).1 && inv.kind.Attr? ==> IsMacroAttr(exts, inv.kind.attr)
    decreases SeqSize(ns), 1
  {
    if ns != [] {
      var h := CollectNode(ns[0], exts, depth, next);
      CollectNodeAttrs(ns[0], exts, depth, next);
      CollectSeqAttrs(ns[1..], exts, depth, next + |h.1|);
    }
  }

  /// `InvocationCollector`: the resolver it classifies attributes with, the
  /// mark counter, the depth of the expansion being collected
  /// (`cx.current_expansion.depth`) and the invocations found so far.
  class InvocationCollector {
    const resolver: Resolver
    const marks: MarkCounter
    const depth: nat
    var invocations: seq<Invocation>

    constructor(resolver: Resolver, marks: MarkCounter, depth: nat)
      ensures this.resolver == resolver && this.marks == marks && this.depth == depth
      ensures invocations == []
    {
      this.resolver := resolver;
      this.marks := marks;
      this.depth := depth;
      invocations := [];
    }

    /// `collect`: a fresh mark, one recorded invocation carrying it, and a
    /// placeholder keyed by it.
    method Collect(kind: ExpansionKind, ikind: InvocationKind) returns (r: Expansion)
      modifies this, marks
      ensures r == PlaceholderExpansion(kind, old(marks.next))
      ensures invocations == old(invocations) + [Invocation(ikind, kind, old(marks.next), depth)]
      ensures marks.next == old(marks.next) + 1
    {
      var mark := marks.Fresh();
      invocations := invocations + [Invocation(ikind, kind, mark, depth)];
      r := PlaceholderExpansion(kind, mark);
    }

    /// `collect_bang`: a bang invocation without an ident.
    method CollectBang(mac: MacCall, attrs: seq<Attribute>, span: Span, kind: ExpansionKind) returns (r: Expansion)
      modifies this, marks
      ensures r == PlaceholderExpansion(kind, old(marks.next))
      ensures invocations == old(invocations) + [Invocation(Bang(attrs, mac, None, span), kind, old(marks.next), depth)]
      ensures marks.next == old(marks.next) + 1
    {
      r := Collect(kind, Bang(attrs, mac, None, span));
    }

    /// `collect_attr`.
    method CollectAttr(attr: Attribute, item: Annotatable, kind: ExpansionKind) returns (r: Expansion)
      modifies this, marks
      ensures r == PlaceholderExpansion(kind, old(marks.next))
      ensures invocations == old(invocations) + [Invocation(Attr(attr, item), kind, old(marks.next), depth)]
      ensures marks.next == old(marks.next) + 1
    {
      r := Collect(kind, Attr(attr, item));
    }

    /// The collector's fold over one node (`fold_expr`, `fold_opt_expr`,
    /// `fold_pat`, `fold_stmt`, `fold_ty` for macro calls; `fold_item`,
    /// `fold_trait_item`, `fold_impl_item` for annotatables).
    method FoldNode(n: Node) returns (r: Node)
      modifies this, marks
      ensures var c := CollectNode(n, resolver.extensions, depth, old(marks.next));
        r == c.0 && invocations == old(invocations) + c.1 && marks.next == old(marks.next) + |c.1|
      decreases NodeSize(n), 0
    {
      match n {
        case Branch(t, cs) =>
          var cs' := FoldSeq(cs);
          r := Branch(t, cs');
        case Mac(kind, mac, attrs, span) =>
          var e := CollectBang(mac, attrs, span, kind);
          r := e.nodes[0];
        case Item(a) =>
          var kind := PositionKind(a.position);
          var attr, rest := resolver.FindAttrInvoc(a.attrs);
          if attr.Some? {
            var e := CollectAttr(attr.value, WithAttrs(a, rest), kind);
            r := e.nodes[0];
          } else if a.mac.Some? {
            if a.position == ItemPosition {
              if |a.mac.value.path.segments| == 0 {
                r := n;
              } else {
                var e := Collect(kind, Bang(a.attrs, a.mac.value, Some(a.ident), a.span));
                r := e.nodes[0];
              }
            } else {
              var e := CollectBang(a.mac.value, a.attrs, a.span, kind);
              r := e.nodes[0];
            }
          } else {
            var cs' := FoldSeq(a.children);
            r := Item(a.(children := cs'));
          }
        case Leaf(_) => r := n;
        case Placeholder(_, _) => r := n;
        case Dummy(_, _) => r := n;
      }
    }

    /// The fold over a list of nodes, front to back.
    method FoldSeq(ns: seq<Node>) returns (r: seq<Node>)
      modifies this, marks
      ensures var c := CollectSeq(ns, resolver.extensions, depth, old(marks.next));
        r == c.0 && invocations == old(invocations) + c.1 && marks.next == old(marks.next) + |c.1|
      decreases SeqSize(ns), 1
    {
      if ns == [] {
        r := [];
      } else {
        var h := FoldNode(ns[0]);
        var t := FoldSeq(ns[1..]);
        r := [h] + t;
      }
    }
  }
}
