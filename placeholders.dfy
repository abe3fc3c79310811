/// Placeholders and the placeholder expander that replaces them. A
/// placeholder stands for the expansion of the invocation whose mark is its
/// id; the expander keeps a table from marks to finished expansions and
/// substitutes them into a fragment.
module Placeholders {
  import opened Wrappers
  import opened Ast
  import opened Expansions

  /// `placeholder(kind, id)`: the fragment of one placeholder node.
  function PlaceholderExpansion(kind: ExpansionKind, id: nat): (r: Expansion)
    ensures r.kind == kind && WellShaped(r)
    ensures SeqSlots(r.nodes) == {Slot(id, kind)}
  {
    assert SeqSlots([Placeholder(kind, id)]) == NodeSlots(Placeholder(kind, id)) + SeqSlots([]);
    Expansion(kind, [Placeholder(kind, id)])
  }

  /// The table covers a fragment: every placeholder's mark has a recorded
  /// expansion of the placeholder's kind.
  predicate Fits(ns: seq<Node>, table: map<nat, Expansion>)
  {
    forall s :: s in SeqSlots(ns) ==> s.id in table && table[s.id].kind == s.kind
  }

  /// No recorded expansion contains a placeholder.
  predicate Settled(table: map<nat, Expansion>)
  {
    forall id :: id in table ==> SeqSlots(table[id].nodes) == {}
  }

  /// The placeholder expander's fold over a node: a placeholder becomes the
  /// nodes of the expansion recorded under its mark (`make_*` of its kind);
  /// every other node is rebuilt from its filled children.
  function FillNode(n: Node, table: map<nat, Expansion>): Result<seq<Node>, Panic>
    decreases NodeSize(n), 0
  {
    match n
    case Placeholder(k, id) =>
      if id in table then MakeNodes(table[id], k) else Err(MissingExpansion(id))
    case Branch(t, cs) =>
      var r := FillSeq(cs, table);
      if r.Err? then Err(r.error) else Ok([Branch(t, r.value)])
    case Item(a) =>
      var r := FillSeq(a.children, table);
      if r.Err? then Err(r.error) else Ok([Item(a.(children := r.value))])
    case _ => Ok([n])
  }

  function FillSeq(ns: seq<Node>, table: map<nat, Expansion>): Result<seq<Node>, Panic>
    decreases SeqSize(ns), 1
  {
    if ns == [] then Ok([])
    else
      var h := FillNode(ns[0], table);
      if h.Err? then Err(h.error)
      else
        var t := FillSeq(ns[1..], table);
        if t.Err? then Err(t.error) else Ok(h.value + t.value)
  }

  /// `expansion.fold_with(&mut placeholder_expander)`.
  function FillExpansion(e: Expansion, table: map<nat, Expansion>): (r: Result<Expansion, Panic>)
    ensures r.Ok? ==> r.value.kind == e.kind
    ensures r.Ok? <==> FillSeq(e.nodes, table).Ok?
  {
    var ns := FillSeq(e.nodes, table);
    if ns.Err? then Err(ns.error) else Ok(Expansion(e.kind, ns.value))
  }

  lemma SeqSlotsCons(ns: seq<Node>)
    requires ns != []
    ensures SeqSlots(ns) == NodeSlots(ns[0]) + SeqSlots(ns[1..])
  {
  }

  /// Filling succeeds exactly when the table covers the fragment; otherwise
  /// it panics on a missing or mis-kinded expansion.
  lemma {:induction false} FillNodeOk(n: Node, table: map<nat, Expansion>)
    ensures FillNode(n, table).Ok? <==> Fits([n], table)
    ensures FillNode(n, table).Err? ==> FillNode(n, table).error.MissingExpansion? || FillNode(n, table).error == WrongExpansionKind
    decreases NodeSize(n), 0
  {
    SeqSlotsCons([n]);
    assert SeqSlots([n]) == NodeSlots(n);
    match n
    case Branch(_, cs) => FillSeqOk(cs, table);
    case Item(a) => FillSeqOk(a.children, table);
    case _ =>
  }

  lemma {:induction false} FillSeqOk(ns: seq<Node>, table: map<nat, Expansion>)
    ensures FillSeq(ns, table).Ok? <==> Fits(ns, table)
    ensures FillSeq(ns, table).Err? ==> FillSeq(ns, table).error.MissingExpansion? || FillSeq(ns, table).error == WrongExpansionKind
    decreases SeqSize(ns), 1
  {
    if ns != [] {
      SeqSlotsCons(ns);
      SeqSlotsCons([ns[0]]);
      FillNodeOk(ns[0], table);
      FillSeqOk(ns[1..], table);
    }
  }

  /// A fragment without placeholders is left as it is.
  lemma {:induction false} FillNodeNoSlots(n: Node, table: map<nat, Expansion>)
    requires NodeSlots(n) == {}
    ensures FillNode(n, table) == Ok([n])
    decreases NodeSize(n), 0
  {
    match n
    case Branch(_, cs) => FillSeqNoSlots(cs, table);
    case Item(a) =>
      FillSeqNoSlots(a.children, table);
      assert a.(children := a.children) == a;
    case _ =>
  }

  lemma {:induction false} FillSeqNoSlots(ns: seq<Node>, table: map<nat, Expansion>)
    requires SeqSlots(ns) == {}
    ensures FillSeq(ns, table) == Ok(ns)
    decreases SeqSize(ns), 1
  {
    if ns != [] {
      FillNodeNoSlots(ns[0], table);
      FillSeqNoSlots(ns[1..], table);
      assert [ns[0]] + ns[1..] == ns;
    }
  }

  /// With a settled table, a filled fragment has no placeholder left.
  lemma {:induction false} FillNodeSettles(n: Node, table: map<nat, Expansion>)
    requires Settled(table) && FillNode(n, table).Ok?
    ensures SeqSlots(FillNode(n, table).value) == {}
    decreases NodeSize(n), 0
  {
    match n
    case Placeholder(_, _) =>
    case Branch(t, cs) =>
      FillSeqSettles(cs, table);
      SeqSlotsCons([Branch(t, FillSeq(cs, table).value)]);
    case Item(a) =>
      FillSeqSettles(a.children, table);
      SeqSlotsCons([Item(a.(children := FillSeq(a.children, table).value))]);
    case Leaf(_) => SeqSlotsCons([n]);
    case Mac(_, _, _, _) => SeqSlotsCons([n]);
    case Dummy(_, _) => SeqSlotsCons([n]);
  }

  lemma {:induction false} FillSeqSettles(ns: seq<Node>, table: map<nat, Expansion>)
    requires Settled(table) && FillSeq(ns, table).Ok?
    ensures SeqSlots(FillSeq(ns, table).value) == {}
    decreases SeqSize(ns), 1
  {
    if ns != [] {
      FillNodeSettles(ns[0], table);
      FillSeqSettles(ns[1..], table);
      SeqSlotsAppend(FillNode(ns[0], table).value, FillSeq(ns[1..], table).value);
    }
  }

  /// `PlaceholderExpander`: the table of finished expansions, keyed by mark.
  class PlaceholderExpander {
    var expansions: map<nat, Expansion>

    constructor()
      ensures expansions == map[]
    {
      expansions := map[];
    }

    /// `add`: records the finished expansion of mark `id`.
    method Add(id: nat, e: Expansion)
      modifies this
      ensures expansions == old(expansions)[id := e]
    {
      expansions := expansions[id := e];
    }

    /// `remove`: takes the expansion of mark `id` out of the table; a mark
    /// without one panics (`remove(&id).unwrap()`).
    method Remove(id: nat) returns (r: Result<Expansion, Panic>)
      modifies this
      ensures r.Err? <==> id !in old(expansions)
      ensures r.Err? ==> r.error == MissingExpansion(id) && expansions == old(expansions)
      ensures r.Ok? ==> r.value == old(expansions)[id] && expansions == old(expansions) - {id}
    {
      if id in expansions {
        r := Ok(expansions[id]);
        expansions := expansions - {id};
      } else {
        r := Err(MissingExpansion(id));
      }
    }
  }
}
