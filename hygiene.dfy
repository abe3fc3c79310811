/// Hygiene marks: the counter `Mark::fresh` draws from, and the `Marker`
/// folder that applies a mark to every identifier of an expansion
/// (`Marker::fold_ident`, `mark_tts`). A syntax context is the list of marks
/// applied to an identifier, oldest first; applying a mark appends it.
module Hygiene {
  import opened Wrappers
  import opened Ast
  import opened Expansions

  /// The source of fresh marks. Mark 0 is the root mark, so the counter
  /// starts at 1 and every mark it hands out is new.
  class MarkCounter {
    var next: nat

    constructor()
      ensures next == 1
    {
      next := 1;
    }

    /// `Mark::fresh`: a mark never handed out before.
    method Fresh() returns (m: nat)
      modifies this
      ensures m == old(next) && next == old(next) + 1
    {
      m := next;
      next := next + 1;
    }
  }

  /// `SyntaxContext::apply_mark`.
  function MarkIdent(i: Ident, m: nat): (r: Ident)
    ensures r.name == i.name && r.ctxt == i.ctxt + [m]
  {
    Ident(i.name, i.ctxt + [m])
  }

  /// `mark_tts`: every token gets the mark; names and order are kept.
  function MarkTts(tts: seq<Ident>, m: nat): (r: seq<Ident>)
    ensures |r| == |tts|
    ensures forall i :: 0 <= i < |tts| ==> r[i].name == tts[i].name && r[i].ctxt == tts[i].ctxt + [m]
  {
    if tts == [] then [] else [MarkIdent(tts[0], m)] + MarkTts(tts[1..], m)
  }

  function MarkSegments(segs: seq<PathSegment>, m: nat): (r: seq<PathSegment>)
    ensures |r| == |segs|
    ensures forall i :: 0 <= i < |segs| ==> r[i].identifier == MarkIdent(segs[i].identifier, m)
    ensures forall i :: 0 <= i < |segs| ==> r[i].hasParameters == segs[i].hasParameters
  {
    if segs == [] then []
    else [PathSegment(MarkIdent(segs[0].identifier, m), segs[0].hasParameters)] + MarkSegments(segs[1..], m)
  }

  /// `noop_fold_mac` under the marker: the path's identifiers and the tokens.
  function MarkMac(mac: MacCall, m: nat): (r: MacCall)
    ensures r.path.global == mac.path.global && |r.path.segments| == |mac.path.segments|
    ensures r.tts == MarkTts(mac.tts, m)
  {
    MacCall(Path(mac.path.span, mac.path.global, MarkSegments(mac.path.segments, m)), MarkTts(mac.tts, m), mac.span)
  }

  /// The `Marker` fold over a node: identifiers of leaves, items and macro
  /// calls get the mark; placeholders and dummies carry no identifier.
  function MarkNode(n: Node, m: nat): Node
    decreases NodeSize(n), 0
  {
    match n
    case Leaf(i) => Leaf(MarkIdent(i, m))
    case Branch(t, cs) => Branch(t, MarkSeq(cs, m))
    case Item(a) =>
      Item(a.(ident := MarkIdent(a.ident, m),
              mac := if a.mac.Some? then Some(MarkMac(a.mac.value, m)) else None,
              children := MarkSeq(a.children, m)))
    case Mac(k, mac, attrs, span) => Mac(k, MarkMac(mac, m), attrs, span)
    case Placeholder(_, _) => n
    case Dummy(_, _) => n
  }

  function MarkSeq(ns: seq<Node>, m: nat): (r: seq<Node>)
    ensures |r| == |ns|
    decreases SeqSize(ns), 1
  {
    if ns == [] then [] else [MarkNode(ns[0], m)] + MarkSeq(ns[1..], m)
  }

  /// `expansion.fold_with(&mut Marker { mark, .. })`.
  function MarkExpansion(e: Expansion, m: nat): (r: Expansion)
    ensures r.kind == e.kind && |r.nodes| == |e.nodes|
    ensures WellShaped(e) ==> WellShaped(r)
    ensures SeqSlots(r.nodes) == SeqSlots(e.nodes)
  {
    MarkSeqSlots(e.nodes, m);
    Expansion(e.kind, MarkSeq(e.nodes, m))
  }

  /// Marking neither adds nor removes a placeholder.
  lemma {:induction false} MarkNodeSlots(n: Node, m: nat)
    ensures NodeSlots(MarkNode(n, m)) == NodeSlots(n)
    decreases NodeSize(n), 0
  {
    match n
    case Branch(_, cs) => MarkSeqSlots(cs, m);
    case Item(a) => MarkSeqSlots(a.children, m);
    case _ =>
  }

  lemma {:induction false} MarkSeqSlots(ns: seq<Node>, m: nat)
    ensures SeqSlots(MarkSeq(ns, m)) == SeqSlots(ns)
    decreases SeqSize(ns), 1
  {
    if ns != [] {
      var r := MarkSeq(ns, m);
      assert r[0] == MarkNode(ns[0], m) && r[1..] == MarkSeq(ns[1..], m);
      MarkNodeSlots(ns[0], m);
      MarkSeqSlots(ns[1..], m);
    }
  }

  /// Taking the newest mark off an identifier's context: the inverse of
  /// `MarkIdent`.
  function UnmarkIdent(i: Ident): Ident
  {
    if i.ctxt == [] then i else Ident(i.name, i.ctxt[..|i.ctxt| - 1])
  }

  function UnmarkTts(tts: seq<Ident>): seq<Ident>
  {
    if tts == [] then [] else [UnmarkIdent(tts[0])] + UnmarkTts(tts[1..])
  }

  function UnmarkSegments(segs: seq<PathSegment>): seq<PathSegment>
  {
    if segs == [] then []
    else [PathSegment(UnmarkIdent(segs[0].identifier), segs[0].hasParameters)] + UnmarkSegments(segs[1..])
  }

  function UnmarkMac(mac: MacCall): MacCall
  {
    MacCall(Path(mac.path.span, mac.path.global, UnmarkSegments(mac.path.segments)), UnmarkTts(mac.tts), mac.span)
  }

  function UnmarkNode(n: Node): Node
    decreases NodeSize(n), 0
  {
    match n
    case Leaf(i) => Leaf(UnmarkIdent(i))
    case Branch(t, cs) => Branch(t, UnmarkSeq(cs))
    case Item(a) =>
      Item(a.(ident := UnmarkIdent(a.ident),
              mac := if a.mac.Some? then Some(UnmarkMac(a.mac.value)) else None,
              children := UnmarkSeq(a.children)))
    case Mac(k, mac, attrs, span) => Mac(k, UnmarkMac(mac), attrs, span)
    case Placeholder(_, _) => n
    case Dummy(_, _) => n
  }

  function UnmarkSeq(ns: seq<Node>): seq<Node>
    decreases SeqSize(ns), 1
  {
    if ns == [] then [] else [UnmarkNode(ns[0])] + UnmarkSeq(ns[1..])
  }

  lemma {:induction false} UnmarkMarkTts(tts: seq<Ident>, m: nat)
    ensures UnmarkTts(MarkTts(tts, m)) == tts
    decreases |tts|
  {
    if tts != [] {
      var r := MarkTts(tts, m);
      assert r[0] == MarkIdent(tts[0], m) && r[1..] == MarkTts(tts[1..], m);
      assert (tts[0].ctxt + [m])[..|tts[0].ctxt|] == tts[0].ctxt;
      UnmarkMarkTts(tts[1..], m);
    }
  }

  lemma {:induction false} UnmarkMarkSegments(segs: seq<PathSegment>, m: nat)
    ensures UnmarkSegments(MarkSegments(segs, m)) == segs
    decreases |segs|
  {
    if segs != [] {
      var r := MarkSegments(segs, m);
      assert r[1..] == MarkSegments(segs[1..], m);
      var c := segs[0].identifier.ctxt;
      assert (c + [m])[..|c|] == c;
      UnmarkMarkSegments(segs[1..], m);
    }
  }

  lemma UnmarkMarkMac(mac: MacCall, m: nat)
    ensures UnmarkMac(MarkMac(mac, m)) == mac
  {
    UnmarkMarkTts(mac.tts, m);
    UnmarkMarkSegments(mac.path.segments, m);
  }

  /// Marking loses nothing: taking the mark off again gives back the node,
  /// so two different fragments never become the same after marking.
  lemma {:induction false} UnmarkMarkNode(n: Node, m: nat)
    ensures UnmarkNode(MarkNode(n, m)) == n
    decreases NodeSize(n), 0
  {
    match n
    case Leaf(i) =>
      assert (i.ctxt + [m])[..|i.ctxt|] == i.ctxt;
    case Branch(_, cs) => UnmarkMarkSeq(cs, m);
    case Item(a) =>
      assert (a.ident.ctxt + [m])[..|a.ident.ctxt|] == a.ident.ctxt;
      if a.mac.Some? {
        UnmarkMarkMac(a.mac.value, m);
      }
      UnmarkMarkSeq(a.children, m);
    case Mac(_, mac, _, _) => UnmarkMarkMac(mac, m);
    case Placeholder(_, _) =>
    case Dummy(_, _) =>
  }

  lemma {:induction false} UnmarkMarkSeq(ns: seq<Node>, m: nat)
    ensures UnmarkSeq(MarkSeq(ns, m)) == ns
    decreases SeqSize(ns), 1
  {
    if ns != [] {
      var r := MarkSeq(ns, m);
      assert r[0] == MarkNode(ns[0], m) && r[1..] == MarkSeq(ns[1..], m);
      UnmarkMarkNode(ns[0], m);
      UnmarkMarkSeq(ns[1..], m);
    }
  }

  /// Marking is injective on fragments.
  lemma MarkSeqInjective(a: seq<Node>, b: seq<Node>, m: nat)
    requires MarkSeq(a, m) == MarkSeq(b, m)
    ensures a == b
  {
    UnmarkMarkSeq(a, m);
    UnmarkMarkSeq(b, m);
  }
}
