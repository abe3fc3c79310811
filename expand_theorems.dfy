/// What `MacroExpander::expand` guarantees, proved about the loop's
/// specification (`Start`, `Step`, `Run`, `Finish`): the order invocations
/// are processed in, what single-step mode does, that every pending
/// invocation is processed, the outcome rules of one invocation, and that,
/// when the extensions do not make up placeholders, the final substitution
/// finds an expansion of the right kind for every placeholder and leaves
/// none behind.
module ExpandTheorems {
  import opened Wrappers
  import opened Ast
  import opened Expansions
  import opened SyntexResolver
  import opened Hygiene
  import opened Placeholders
  import opened Collector
  import opened Expander

  // ---------------------------------------------------------------------
  // Outcome rules of one invocation

  /// Every error path of `expand_bang_invoc` reports exactly one error and
  /// gives the dummy of the expected kind; without an error the result is
  /// the extension's output, converted to the kind and marked.
  lemma BangErrorsGiveDummy(inv: Invocation, ext: SyntaxExtension)
    requires inv.kind.Bang? && (|inv.kind.mac.path.segments| > 0 || inv.kind.mac.path.global)
    ensures var r := BangOutcome(inv, ext);
      r.1 != [] ==> (r.0 == DummyExpansion(inv.expansionKind, inv.kind.span) && |r.1| == 1 &&
                     r.1[0].level == Error && r.1[0].span == inv.kind.mac.path.span)
    ensures var r := BangOutcome(inv, ext);
      r.1 == [] ==> (!IsQualified(inv.kind.mac.path) && (ext.NormalTT? || ext.IdentTT?))
    ensures var r := BangOutcome(inv, ext);
      r.1 == [] && ext.NormalTT? ==>
        (var result := ext.expandTts(inv.kind.span, MarkTts(inv.kind.mac.tts, inv.mark));
         MakeFrom(inv.expansionKind, result).Some? &&
         r.0 == MarkExpansion(MakeFrom(inv.expansionKind, result).value, inv.mark))
  {
  }

  /// A qualified, global or parameterised path, a `NormalTT` given an
  /// ident, an `IdentTT` without one, a decorator or modifier called with
  /// `!`, and an unconvertible result each give their own error.
  lemma BangErrorMessages(inv: Invocation, ext: SyntaxExtension)
    requires inv.kind.Bang? && (|inv.kind.mac.path.segments| > 0 || inv.kind.mac.path.global)
    ensures var r := BangOutcome(inv, ext);
      IsQualified(inv.kind.mac.path) ==> r.1 == [Diagnostic(Error, inv.kind.mac.path.span, QualifiedMacroName)]
    ensures var r := BangOutcome(inv, ext);
      !IsQualified(inv.kind.mac.path) ==>
        (var name := inv.kind.mac.path.segments[0].identifier.name;
         var named := inv.kind.ident.Some? && inv.kind.ident.value.name != INVALID_NAME;
         && (ext.NormalTT? && named ==> r.1 == [Diagnostic(Error, inv.kind.mac.path.span, ExpectsNoIdent(name))])
         && (ext.IdentTT? && !named ==> r.1 == [Diagnostic(Error, inv.kind.mac.path.span, ExpectsIdent(name))])
         && (ext.MultiDecorator? || ext.MultiModifier? ==> r.1 == [Diagnostic(Error, inv.kind.mac.path.span, OnlyInAttributes(name))])
         && (ext.NormalTT? && !named &&
             MakeFrom(inv.expansionKind, ext.expandTts(inv.kind.span, MarkTts(inv.kind.mac.tts, inv.mark))).None? ==>
               r.1 == [Diagnostic(Error, inv.kind.mac.path.span, WrongKind(inv.expansionKind, name))]))
  {
  }

  /// A decorator's expansion is its generated items followed by the
  /// original item; a modifier's is exactly the items it returned.
  lemma AttrExpansionItems(inv: Invocation, ext: SyntaxExtension)
    requires inv.kind.Attr? && AttrOutcome(inv, ext).Ok?
    ensures ext.MultiDecorator? || ext.MultiModifier?
    ensures var nodes := AttrOutcome(inv, ext).value.nodes;
      ext.MultiDecorator? ==>
        (var generated := ext.decorate(inv.kind.attr.span, inv.kind.attr.value, inv.kind.item);
         |nodes| == |generated| + 1 && nodes[|generated|] == Item(inv.kind.item) &&
         forall i :: 0 <= i < |generated| ==> nodes[i] == Item(generated[i]))
    ensures var nodes := AttrOutcome(inv, ext).value.nodes;
      ext.MultiModifier? ==>
        (var returned := ext.transform(inv.kind.attr.span, inv.kind.attr.value, inv.kind.item);
         |nodes| == |returned| && forall i :: 0 <= i < |returned| ==> nodes[i] == Item(returned[i]))
  {
    if ext.MultiDecorator? {
      var generated := ext.decorate(inv.kind.attr.span, inv.kind.attr.value, inv.kind.item);
      assert (generated + [inv.kind.item])[|generated|] == inv.kind.item;
    }
  }

  // ---------------------------------------------------------------------
  // Processing order

  /// One turn processes the first pending invocation and files its result
  /// at the end of the bucket of its depth. Outside single-step mode the
  /// invocations found in the result come next, in the order they were
  /// found, one level deeper and with fresh consecutive marks, ahead of the
  /// older pending ones, whose order is kept (depth first). In single-step
  /// mode they are dropped.
  lemma StepOrder(exts: map<Name, SyntaxExtension>, ecfg: ExpansionConfig, st: Schedule)
    requires st.pending != [] && BucketsInRange(st) && Step(exts, ecfg, st).Ok?
    ensures var s := Step(exts, ecfg, st).value;
      var inv := st.pending[0];
      && |s.buckets[inv.depth]| >= 1
      && s.buckets[inv.depth][|s.buckets[inv.depth]| - 1].mark == inv.mark
      && (ecfg.singleStep ==> s.pending == st.pending[1..])
      && (!ecfg.singleStep ==>
            var k := |s.pending| - (|st.pending| - 1);
            && |s.pending| >= |st.pending| - 1
            && s.pending[k..] == st.pending[1..]
            && s.next == st.next + k
            && forall i :: 0 <= i < k ==> s.pending[i].mark == st.next + i && s.pending[i].depth == inv.depth + 1)
  {
    var inv := st.pending[0];
    var o := InvocOutcome(exts, inv);
    CollectSeqMarks(o.value.0.nodes, exts, inv.depth + 1, st.next);
  }

  /// The invocations of the root fragment are processed in the order they
  /// were found, starting with the first.
  lemma StartOrder(exts: map<Name, SyntaxExtension>, e: Expansion, next: nat)
    ensures var st := Start(exts, e, next);
      && st.pending == CollectSeq(e.nodes, exts, 0, next).1
      && st.buckets == [[Entry(0, Expansion(e.kind, CollectSeq(e.nodes, exts, 0, next).0))]]
      && forall i :: 0 <= i < |st.pending| ==> st.pending[i].mark == next + i && st.pending[i].depth == 0
  {
    CollectSeqMarks(e.nodes, exts, 0, next);
  }

  // ---------------------------------------------------------------------
  // Which invocations get processed

  function BucketMarks(b: seq<Entry>): multiset<nat>
  {
    if b == [] then multiset{} else BucketMarks(b[..|b| - 1]) + multiset{b[|b| - 1].mark}
  }

  /// The marks of all filed expansions.
  function EntryMarks(bs: seq<seq<Entry>>): multiset<nat>
  {
    if bs == [] then multiset{} else EntryMarks(bs[..|bs| - 1]) + BucketMarks(bs[|bs| - 1])
  }

  /// The marks of the pending invocations.
  function PendingMarks(invs: seq<Invocation>): multiset<nat>
  {
    if invs == [] then multiset{} else multiset{invs[0].mark} + PendingMarks(invs[1..])
  }

  lemma {:induction false} PendingMarksAppend(a: seq<Invocation>, b: seq<Invocation>)
    ensures PendingMarks(a + b) == PendingMarks(a) + PendingMarks(b)
    decreases |a|
  {
    if a == [] {
      assert a + b == b;
    } else {
      assert (a + b)[1..] == a[1..] + b;
      PendingMarksAppend(a[1..], b);
    }
  }

  lemma {:induction false} EntryMarksAppend(a: seq<seq<Entry>>, b: seq<seq<Entry>>)
    ensures EntryMarks(a + b) == EntryMarks(a) + EntryMarks(b)
    decreases |b|
  {
    if b == [] {
      assert a + b == a;
    } else {
      assert (a + b)[..|a + b| - 1] == a + b[..|b| - 1];
      EntryMarksAppend(a, b[..|b| - 1]);
    }
  }

  lemma BucketMarksSnoc(b: seq<Entry>, e: Entry)
    ensures BucketMarks(b + [e]) == BucketMarks(b) + multiset{e.mark}
  {
    assert (b + [e])[..|b|] == b;
  }

  lemma EntryMarksOne(b: seq<Entry>)
    ensures EntryMarks([b]) == BucketMarks(b)
  {
    assert [b][..0] == [];
  }

  /// Equal bucket lists have equal marks (stated apart, so that proofs
  /// about slices need not rediscover it).
  lemma SameMarks(a: seq<seq<Entry>>, b: seq<seq<Entry>>)
    requires a == b
    ensures EntryMarks(a) == EntryMarks(b)
  {
  }

  /// The marks around one bucket.
  lemma EntryMarksSplit(front: seq<seq<Entry>>, b: seq<Entry>, back: seq<seq<Entry>>)
    ensures EntryMarks(front + [b] + back) == EntryMarks(front) + BucketMarks(b) + EntryMarks(back)
  {
    EntryMarksAppend(front + [b], back);
    EntryMarksAppend(front, [b]);
    EntryMarksOne(b);
  }

  /// Appending `e` to bucket `d`.
  lemma SnocMarks(bs: seq<seq<Entry>>, d: nat, e: Entry)
    requires d < |bs|
    ensures EntryMarks(bs[d := bs[d] + [e]]) == EntryMarks(bs) + multiset{e.mark}
  {
    var front, back := bs[..d], bs[d + 1..];
    SameMarks(bs, front + [bs[d]] + back);
    SameMarks(bs[d := bs[d] + [e]], front + [bs[d] + [e]] + back);
    EntryMarksSplit(front, bs[d], back);
    EntryMarksSplit(front, bs[d] + [e], back);
    BucketMarksSnoc(bs[d], e);
  }

  /// Filing an entry adds its mark to the filed marks.
  lemma FileMarks(bs: seq<seq<Entry>>, d: nat, e: Entry)
    requires d <= |bs|
    ensures EntryMarks(File(bs, d, e)) == EntryMarks(bs) + multiset{e.mark}
  {
    if |bs| == d {
      var none: seq<Entry> := [];
      EntryMarksAppend(bs, [none]);
      EntryMarksOne(none);
      SnocMarks(bs + [none], d, e);
    } else {
      SnocMarks(bs, d, e);
    }
  }

  /// Filing the first pending invocation's entry and putting `found` in
  /// front of the rest moves exactly its mark from pending to filed.
  lemma TurnMarks(st: Schedule, found: seq<Invocation>, e: Entry)
    requires st.pending != [] && st.pending[0].depth <= |st.buckets|
    ensures EntryMarks(File(st.buckets, st.pending[0].depth, e)) == EntryMarks(st.buckets) + multiset{e.mark}
    ensures PendingMarks(st.pending) == multiset{st.pending[0].mark} + PendingMarks(st.pending[1..])
    ensures PendingMarks(st.pending[1..]) <= PendingMarks(found + st.pending[1..])
  {
    FileMarks(st.buckets, st.pending[0].depth, e);
    PendingMarksAppend(found, st.pending[1..]);
  }

  lemma StepMarks(exts: map<Name, SyntaxExtension>, ecfg: ExpansionConfig, st: Schedule)
    requires st.pending != [] && BucketsInRange(st) && Step(exts, ecfg, st).Ok?
    ensures EntryMarks(Step(exts, ecfg, st).value.buckets) == EntryMarks(st.buckets) + multiset{st.pending[0].mark}
    ensures PendingMarks(st.pending) == multiset{st.pending[0].mark} + PendingMarks(st.pending[1..])
    ensures PendingMarks(st.pending[1..]) <= PendingMarks(Step(exts, ecfg, st).value.pending)
    ensures ecfg.singleStep ==> Step(exts, ecfg, st).value.pending == st.pending[1..]
  {
    var p := Process(exts, st.pending[0], st.next).value;
    var found := if ecfg.singleStep then [] else p.1;
    var e := Entry(st.pending[0].mark, p.0);
    TurnMarks(st, found, e);
  }

  /// A turn files the first pending invocation's mark and keeps the other
  /// pending invocations.
  ghost predicate FilesFirst(st: Schedule, s: Schedule)
  {
    st.pending != [] &&
    EntryMarks(s.buckets) == EntryMarks(st.buckets) + multiset{st.pending[0].mark} &&
    PendingMarks(st.pending[1..]) <= PendingMarks(s.pending)
  }

  lemma TurnerFiles(exts: map<Name, SyntaxExtension>, ecfg: ExpansionConfig)
    ensures forall x: Schedule :: x.pending != [] && Turner(exts, ecfg)(x).Ok? ==>
      FilesFirst(x, Turner(exts, ecfg)(x).value) && (ecfg.singleStep ==> Turner(exts, ecfg)(x).value.pending == x.pending[1..])
  {
    forall x: Schedule | x.pending != [] && Turner(exts, ecfg)(x).Ok?
      ensures FilesFirst(x, Turner(exts, ecfg)(x).value) && (ecfg.singleStep ==> Turner(exts, ecfg)(x).value.pending == x.pending[1..])
    {
      StepMarks(exts, ecfg, x);
    }
  }

  lemma {:induction false} RunWithFiles(turn: Schedule -> Result<Schedule, Panic>, st: Schedule, fuel: nat)
    requires forall x: Schedule :: x.pending != [] && turn(x).Ok? ==> FilesFirst(x, turn(x).value)
    requires RunWith(turn, st, fuel).Some? && RunWith(turn, st, fuel).value.Ok?
    ensures EntryMarks(st.buckets) + PendingMarks(st.pending) <= EntryMarks(RunWith(turn, st, fuel).value.value.buckets)
    decreases fuel
  {
    if st.pending != [] {
      var s := turn(st).value;
      RunWithFiles(turn, s, fuel - 1);
      assert RunWith(turn, st, fuel) == RunWith(turn, s, fuel - 1);
      IncludedAfterTurn(EntryMarks(st.buckets), EntryMarks(s.buckets), st.pending[0].mark,
        PendingMarks(st.pending[1..]), PendingMarks(s.pending), EntryMarks(RunWith(turn, s, fuel - 1).value.value.buckets));
    }
  }

  /// The multiset step of one turn: the popped mark moves from pending to
  /// filed, so inclusion in the final filed marks carries over.
  lemma IncludedAfterTurn(filed: multiset<nat>, filed': multiset<nat>, m: nat, rest: multiset<nat>, pending': multiset<nat>, last: multiset<nat>)
    requires filed' == filed + multiset{m} && rest <= pending' && filed' + pending' <= last
    ensures filed + (multiset{m} + rest) <= last
  {
  }

  lemma {:induction false} RunWithSingle(turn: Schedule -> Result<Schedule, Panic>, st: Schedule, fuel: nat)
    requires forall x: Schedule :: x.pending != [] && turn(x).Ok? ==> FilesFirst(x, turn(x).value) && turn(x).value.pending == x.pending[1..]
    requires fuel >= |st.pending|
    ensures RunWith(turn, st, fuel).Some?
    ensures RunWith(turn, st, fuel).value.Ok? ==>
      EntryMarks(RunWith(turn, st, fuel).value.value.buckets) == EntryMarks(st.buckets) + PendingMarks(st.pending)
    decreases fuel
  {
    if st.pending != [] && turn(st).Ok? {
      var s := turn(st).value;
      RunWithSingle(turn, s, fuel - 1);
      assert RunWith(turn, st, fuel) == RunWith(turn, s, fuel - 1);
      if RunWith(turn, s, fuel - 1).value.Ok? {
        EqualAfterTurn(EntryMarks(st.buckets), EntryMarks(s.buckets), st.pending[0].mark,
          PendingMarks(st.pending[1..]), PendingMarks(s.pending), EntryMarks(RunWith(turn, s, fuel - 1).value.value.buckets));
      }
    }
  }

  /// The same step when the final filed marks equal the filed and pending
  /// marks exactly.
  lemma EqualAfterTurn(filed: multiset<nat>, filed': multiset<nat>, m: nat, rest: multiset<nat>, pending': multiset<nat>, last: multiset<nat>)
    requires filed' == filed + multiset{m} && rest == pending' && last == filed' + pending'
    ensures last == filed + (multiset{m} + rest)
  {
  }

  /// A run that completes has processed every invocation that was pending.
  lemma EveryPendingProcessed(exts: map<Name, SyntaxExtension>, ecfg: ExpansionConfig, st: Schedule, fuel: nat)
    requires BucketsInRange(st)
    requires Run(exts, ecfg, st, fuel).Some? && Run(exts, ecfg, st, fuel).value.Ok?
    ensures EntryMarks(st.buckets) + PendingMarks(st.pending) <= EntryMarks(Run(exts, ecfg, st, fuel).value.value.buckets)
  {
    RunIsRunWith(exts, ecfg, st, fuel);
    TurnerFiles(exts, ecfg);
    RunWithFiles(Turner(exts, ecfg), st, fuel);
  }

  /// In single-step mode the loop takes one turn per pending invocation,
  /// and exactly the invocations that were pending are processed: those
  /// found in their results are dropped.
  lemma SingleStepRun(exts: map<Name, SyntaxExtension>, ecfg: ExpansionConfig, st: Schedule, fuel: nat)
    requires ecfg.singleStep && BucketsInRange(st) && fuel >= |st.pending|
    ensures Run(exts, ecfg, st, fuel).Some?
    ensures Run(exts, ecfg, st, fuel).value.Ok? ==>
      EntryMarks(Run(exts, ecfg, st, fuel).value.value.buckets) == EntryMarks(st.buckets) + PendingMarks(st.pending)
  {
    RunIsRunWith(exts, ecfg, st, fuel);
    TurnerFiles(exts, ecfg);
    RunWithSingle(Turner(exts, ecfg), st, fuel);
  }

  // ---------------------------------------------------------------------
  // Extensions that do not make up placeholders

  /// The placeholders in any of a result's `make_*` fragments.
  function ResultSlots(r: MacResult): set<Slot>
  {
    (if r.expr.Some? then NodeSlots(r.expr.value) else {}) +
    (if r.pat.Some? then NodeSlots(r.pat.value) else {}) +
    (if r.ty.Some? then NodeSlots(r.ty.value) else {}) +
    (if r.stmts.Some? then SeqSlots(r.stmts.value) else {}) +
    (if r.items.Some? then SeqSlots(r.items.value) else {}) +
    (if r.traitItems.Some? then SeqSlots(r.traitItems.value) else {}) +
    (if r.implItems.Some? then SeqSlots(r.implItems.value) else {})
  }

  /// An extension that puts no placeholder in its output other than those
  /// of the item it was given.
  ghost predicate CleanExtension(x: SyntaxExtension)
  {
    match x
    case MultiDecorator(f) => forall sp, mi, a :: ItemsSlots(f(sp, mi, a)) <= SeqSlots(a.children)
    case MultiModifier(f) => forall sp, mi, a :: ItemsSlots(f(sp, mi, a)) <= SeqSlots(a.children)
    case NormalTT(f) => forall sp, tts :: ResultSlots(f(sp, tts)) == {}
    case IdentTT(f) => forall sp, id, tts, attrs :: ResultSlots(f(sp, id, tts, attrs)) == {}
  }

  ghost predicate CleanExtensions(exts: map<Name, SyntaxExtension>)
  {
    forall n :: n in exts ==> CleanExtension(exts[n])
  }

  lemma MakeFromSlots(k: ExpansionKind, result: MacResult)
    requires MakeFrom(k, result).Some?
    ensures SeqSlots(MakeFrom(k, result).value.nodes) <= ResultSlots(result)
  {
    var ns := MakeFrom(k, result).value.nodes;
    if k in {OptExpr, Expr, Pat, Ty} {
      SeqSlotsCons(ns);
    }
  }

  lemma ConvertedSlots(kind: ExpansionKind, result: MacResult, mark: nat, span: Span, pathSpan: Span, name: Name)
    requires ResultSlots(result) == {}
    ensures SeqSlots(Converted(kind, result, mark, span, pathSpan, name).0.nodes) == {}
  {
    if MakeFrom(kind, result).Some? {
      MakeFromSlots(kind, result);
    }
  }

  /// With clean extensions, an invocation without placeholders in its
  /// payload expands to a fragment without placeholders.
  lemma OutcomeClean(exts: map<Name, SyntaxExtension>, inv: Invocation)
    requires CleanExtensions(exts) && InvocationSlots(inv) == {}
    requires InvocOutcome(exts, inv).Ok?
    ensures SeqSlots(InvocOutcome(exts, inv).value.0.nodes) == {}
  {
    var res := Resolution(exts, inv);
    if res.0.Some? {
      var ext := res.0.value;
      assert CleanExtension(ext);
      if inv.kind.Bang? {
        var mac := inv.kind.mac;
        if !IsQualified(mac.path) {
          var ident := if inv.kind.ident.Some? then inv.kind.ident.value else Ident(INVALID_NAME, []);
          var marked := MarkTts(mac.tts, inv.mark);
          var name := mac.path.segments[0].identifier.name;
          match ext
          case NormalTT(f) =>
            if ident.name == INVALID_NAME {
              assert ResultSlots(f(inv.kind.span, marked)) == {};
              ConvertedSlots(inv.expansionKind, f(inv.kind.span, marked), inv.mark, inv.kind.span, mac.path.span, name);
            }
          case IdentTT(f) =>
            if ident.name != INVALID_NAME {
              assert ResultSlots(f(inv.kind.span, ident, marked, inv.kind.attrs)) == {};
              ConvertedSlots(inv.expansionKind, f(inv.kind.span, ident, marked, inv.kind.attrs), inv.mark, inv.kind.span, mac.path.span, name);
            }
          case _ =>
        }
      } else {
        var attr := inv.kind.attr;
        var item := inv.kind.item;
        match ext
        case MultiModifier(f) =>
          var items := f(attr.span, attr.value, item);
          var r := ExpectFromAnnotatables(inv.expansionKind, items);
          if r.Ok? {
            ItemNodesSlots(items, r.value.nodes);
          }
        case MultiDecorator(f) =>
          var generated := f(attr.span, attr.value, item);
          assert ItemsSlots(generated) <= SeqSlots(item.children);
          var items := generated + [item];
          ItemsSlotsAppend(generated, [item]);
          assert [item][1..] == [];
          var r := ExpectFromAnnotatables(inv.expansionKind, items);
          if r.Ok? {
            ItemNodesSlots(items, r.value.nodes);
          }
        case _ =>
      }
    }
  }

  // ---------------------------------------------------------------------
  // The invariant of the loop

  /// Marks filed in buckets deeper than `d`.
  function DeeperMarks(bs: seq<seq<Entry>>, d: nat): set<nat>
  {
    set d', j' | d < d' < |bs| && 0 <= j' < |bs[d']| :: bs[d'][j'].mark
  }

  /// Marks filed after position `j` of a bucket.
  function LaterMarks(b: seq<Entry>, j: nat): set<nat>
  {
    set j' | j < j' < |b| :: b[j'].mark
  }

  /// Marks of pending invocations at depth `d` or deeper.
  function PendingFrom(pending: seq<Invocation>, d: nat): set<nat>
  {
    set i | 0 <= i < |pending| && pending[i].depth >= d :: pending[i].mark
  }

  /// A pending invocation: its mark's kind is its own, and its payload holds
  /// no placeholder.
  predicate PendingOk(inv: Invocation, kinds: map<nat, ExpansionKind>)
  {
    inv.mark in kinds && kinds[inv.mark] == inv.expansionKind && InvocationSlots(inv) == {}
  }

  /// A filed expansion: its mark's kind is its own, and each placeholder in
  /// it waits for an expansion of the placeholder's kind.
  predicate EntryOk(e: Entry, kinds: map<nat, ExpansionKind>)
  {
    && e.mark in kinds && kinds[e.mark] == e.expansion.kind
    && forall s :: s in SeqSlots(e.expansion.nodes) ==> s.id in kinds && kinds[s.id] == s.kind
  }

  /// `kinds` gives the kind of every mark handed out so far.
  predicate KindsAgree(st: Schedule, kinds: map<nat, ExpansionKind>)
  {
    && (forall m :: m in kinds ==> m < st.next)
    && (forall i :: 0 <= i < |st.pending| ==> PendingOk(st.pending[i], kinds))
    && (forall d, j :: 0 <= d < |st.buckets| && 0 <= j < |st.buckets[d]| ==> EntryOk(st.buckets[d][j], kinds))
  }

  /// Every placeholder of a filed expansion will have been filled when the
  /// substitution reaches it: its mark is filed deeper, or later in the same
  /// bucket, or belongs to a pending invocation at least as deep.
  predicate Covered(st: Schedule)
  {
    forall d, j, s :: 0 <= d < |st.buckets| && 0 <= j < |st.buckets[d]| && s in SeqSlots(st.buckets[d][j].expansion.nodes) ==>
      s.id in DeeperMarks(st.buckets, d) + LaterMarks(st.buckets[d], j) + PendingFrom(st.pending, d)
  }

  /// The root is filed first in bucket 0, under mark 0.
  predicate Rooted(st: Schedule, rootKind: ExpansionKind)
  {
    |st.buckets| >= 1 && |st.buckets[0]| >= 1 &&
    st.buckets[0][0].mark == 0 && st.buckets[0][0].expansion.kind == rootKind
  }

  predicate Sound(st: Schedule, kinds: map<nat, ExpansionKind>, rootKind: ExpansionKind)
  {
    BucketsInRange(st) && KindsAgree(st, kinds) && Covered(st) && Rooted(st, rootKind)
  }

  /// The kinds of a list of invocations, by mark.
  function KindsOf(invs: seq<Invocation>): map<nat, ExpansionKind>
  {
    if invs == [] then map[] else KindsOf(invs[1..])[invs[0].mark := invs[0].expansionKind]
  }

  lemma {:induction false} KindsOfFacts(invs: seq<Invocation>, next: nat)
    requires forall i :: 0 <= i < |invs| ==> invs[i].mark == next + i
    ensures forall m :: m in KindsOf(invs) ==> next <= m < next + |invs|
    ensures forall i :: 0 <= i < |invs| ==> invs[i].mark in KindsOf(invs) && KindsOf(invs)[invs[i].mark] == invs[i].expansionKind
    decreases |invs|
  {
    if invs != [] {
      KindsOfFacts(invs[1..], next + 1);
      forall i | 0 < i < |invs|
        ensures invs[i].mark != invs[0].mark
      {
      }
      assert forall i :: 1 <= i < |invs| ==> invs[i] == invs[1..][i - 1];
    }
  }

  lemma {:induction false} SlotsOfMember(invs: seq<Invocation>, s: Slot)
    requires s in SlotsOf(invs)
    ensures exists i :: 0 <= i < |invs| && s == Slot(invs[i].mark, invs[i].expansionKind)
    decreases |invs|
  {
    if s != Slot(invs[0].mark, invs[0].expansionKind) {
      SlotsOfMember(invs[1..], s);
      var i :| 0 <= i < |invs[1..]| && s == Slot(invs[1..][i].mark, invs[1..][i].expansionKind);
      assert s == Slot(invs[i + 1].mark, invs[i + 1].expansionKind);
    }
  }

  lemma {:induction false} PayloadSlotsMember(invs: seq<Invocation>, i: nat)
    requires i < |invs|
    ensures InvocationSlots(invs[i]) <= PayloadSlots(invs)
    decreases |invs|
  {
    if i > 0 {
      PayloadSlotsMember(invs[1..], i - 1);
    }
  }

  /// The invocations a collection finds, with their kinds as the new part
  /// of the kind map.
  lemma CollectedKinds(ns: seq<Node>, exts: map<Name, SyntaxExtension>, depth: nat, next: nat, kinds: map<nat, ExpansionKind>)
    requires SeqSlots(ns) == {}
    requires forall m :: m in kinds ==> m < next
    ensures var c := CollectSeq(ns, exts, depth, next);
      var kinds' := kinds + KindsOf(c.1);
      && (forall m :: m in kinds' ==> m < next + |c.1|)
      && (forall m :: m in kinds ==> m in kinds' && kinds'[m] == kinds[m])
      && (forall i :: 0 <= i < |c.1| ==> PendingOk(c.1[i], kinds') && c.1[i].mark == next + i && c.1[i].depth == depth)
      && (forall s :: s in SeqSlots(c.0) ==> s.id in kinds' && kinds'[s.id] == s.kind && s.id in PendingFrom(c.1, depth))
  {
    var c := CollectSeq(ns, exts, depth, next);
    var kinds' := kinds + KindsOf(c.1);
    CollectSeqMarks(ns, exts, depth, next);
    CollectCleanSlots(ns, exts, depth, next);
    KindsOfFacts(c.1, next);
    forall i | 0 <= i < |c.1|
      ensures PendingOk(c.1[i], kinds')
    {
      PayloadSlotsMember(c.1, i);
    }
    forall s | s in SeqSlots(c.0)
      ensures s.id in kinds' && kinds'[s.id] == s.kind && s.id in PendingFrom(c.1, depth)
    {
      SlotsOfMember(c.1, s);
    }
  }

  /// The loop starts sound, for a root fragment without placeholders.
  lemma StartSound(exts: map<Name, SyntaxExtension>, e: Expansion, next: nat) returns (kinds: map<nat, ExpansionKind>)
    requires SeqSlots(e.nodes) == {} && next >= 1
    ensures Sound(Start(exts, e, next), kinds, e.kind)
  {
    var st := Start(exts, e, next);
    var c := CollectSeq(e.nodes, exts, 0, next);
    CollectedKinds(e.nodes, exts, 0, next, map[0 := e.kind]);
    kinds := map[0 := e.kind] + KindsOf(c.1);
    assert st.buckets == [[Entry(0, Expansion(e.kind, c.0))]];
    assert EntryOk(st.buckets[0][0], kinds);
  }

  /// Filing keeps every bucket's entries and their positions.
  lemma FileKeeps(bs: seq<seq<Entry>>, d: nat, e: Entry)
    requires d <= |bs|
    ensures var r := File(bs, d, e);
      && |r| >= |bs| && d < |r|
      && r[d] == (if d < |bs| then bs[d] else []) + [e]
      && (forall d' :: 0 <= d' < |bs| && d' != d ==> r[d'] == bs[d'])
      && (forall d', j' :: 0 <= d' < |bs| && 0 <= j' < |bs[d']| ==> j' < |r[d']| && r[d'][j'] == bs[d'][j'])
  {
  }

  /// After a turn, the marks that covered a placeholder of an old entry
  /// still cover it: the processed invocation is now filed either deeper or
  /// later in the same bucket.
  lemma CoverageKept(st: Schedule, s': Schedule, e: Entry, found: seq<Invocation>, d: nat, j: nat, id: nat)
    requires st.pending != [] && BucketsInRange(st)
    requires e.mark == st.pending[0].mark
    requires s'.buckets == File(st.buckets, st.pending[0].depth, e) && s'.pending == found + st.pending[1..]
    requires d < |st.buckets| && j < |st.buckets[d]|
    requires id in DeeperMarks(st.buckets, d) + LaterMarks(st.buckets[d], j) + PendingFrom(st.pending, d)
    ensures id in DeeperMarks(s'.buckets, d) + LaterMarks(s'.buckets[d], j) + PendingFrom(s'.pending, d)
  {
    var bs: seq<seq<Entry>>, bs': seq<seq<Entry>> := st.buckets, s'.buckets;
    var D := st.pending[0].depth;
    FileKeeps(bs, D, e);
    if id in DeeperMarks(bs, d) {
      var d', j' :| d < d' < |bs| && 0 <= j' < |bs[d']| && bs[d'][j'].mark == id;
      assert bs'[d'][j'].mark == id;
    } else if id in LaterMarks(bs[d], j) {
      var j' :| j < j' < |bs[d]| && bs[d][j'].mark == id;
      assert bs'[d][j'].mark == id;
    } else {
      var i :| 0 <= i < |st.pending| && st.pending[i].depth >= d && st.pending[i].mark == id;
      if i > 0 {
        assert s'.pending[|found| + i - 1] == st.pending[i];
      } else if D == d {
        var k := |bs[d]|;
        assert bs'[d][k] == e;
        assert id in LaterMarks(bs'[d], j);
      } else {
        var k := |bs'[D]| - 1;
        assert bs'[D][k] == e;
        assert id in DeeperMarks(bs', d);
      }
    }
  }

  /// What the collection of a processed invocation's result gives the
  /// invariant: the new marks with their kinds, and the placeholders of the
  /// filed result waiting on them.
  ghost predicate FreshKinds(st: Schedule, p: (Expansion, seq<Invocation>, seq<Diagnostic>),
                             kinds: map<nat, ExpansionKind>, kinds': map<nat, ExpansionKind>)
    requires st.pending != []
  {
    var inv := st.pending[0];
    && p.0.kind == inv.expansionKind
    && (forall m :: m in kinds' ==> m < st.next + |p.1|)
    && (forall m :: m in kinds ==> m in kinds' && kinds'[m] == kinds[m])
    && (forall i :: 0 <= i < |p.1| ==> PendingOk(p.1[i], kinds') && p.1[i].depth == inv.depth + 1)
    && (forall s :: s in SeqSlots(p.0.nodes) ==> s.id in kinds' && kinds'[s.id] == s.kind && s.id in PendingFrom(p.1, inv.depth + 1))
  }

  /// Filing a processed invocation keeps the kinds in agreement.
  lemma AdvanceKinds(ecfg: ExpansionConfig, st: Schedule, p: (Expansion, seq<Invocation>, seq<Diagnostic>),
                     kinds: map<nat, ExpansionKind>, kinds': map<nat, ExpansionKind>)
    requires !ecfg.singleStep && st.pending != [] && BucketsInRange(st) && KindsAgree(st, kinds)
    requires FreshKinds(st, p, kinds, kinds')
    ensures forall i :: 0 <= i < |p.1| ==> p.1[i].depth == st.pending[0].depth + 1
    ensures KindsAgree(Advance(ecfg, st, p), kinds')
  {
    var inv := st.pending[0];
    var s := Advance(ecfg, st, p);
    var e := Entry(inv.mark, p.0);
    var bs: seq<seq<Entry>>, bs': seq<seq<Entry>> := st.buckets, s.buckets;
    FileKeeps(bs, inv.depth, e);
    forall i | 0 <= i < |s.pending|
      ensures PendingOk(s.pending[i], kinds')
    {
      if i >= |p.1| {
        assert s.pending[i] == st.pending[i - |p.1| + 1];
        assert PendingOk(st.pending[i - |p.1| + 1], kinds);
      }
    }
    assert PendingOk(inv, kinds);
    assert EntryOk(e, kinds');
    forall d, j | 0 <= d < |bs'| && 0 <= j < |bs'[d]|
      ensures EntryOk(bs'[d][j], kinds')
    {
      if d < |bs| && j < |bs[d]| {
        assert EntryOk(bs[d][j], kinds);
      }
    }
  }

  /// Filing a processed invocation keeps every placeholder covered.
  lemma AdvanceCovered(ecfg: ExpansionConfig, st: Schedule, p: (Expansion, seq<Invocation>, seq<Diagnostic>),
                       kinds: map<nat, ExpansionKind>, kinds': map<nat, ExpansionKind>)
    requires !ecfg.singleStep && st.pending != [] && BucketsInRange(st) && Covered(st)
    requires FreshKinds(st, p, kinds, kinds')
    requires forall i :: 0 <= i < |p.1| ==> p.1[i].depth == st.pending[0].depth + 1
    ensures Covered(Advance(ecfg, st, p))
  {
    var inv := st.pending[0];
    var s := Advance(ecfg, st, p);
    var e := Entry(inv.mark, p.0);
    var bs: seq<seq<Entry>>, bs': seq<seq<Entry>> := st.buckets, s.buckets;
    FileKeeps(bs, inv.depth, e);
    forall d, j, sl | 0 <= d < |bs'| && 0 <= j < |bs'[d]| && sl in SeqSlots(bs'[d][j].expansion.nodes)
      ensures sl.id in DeeperMarks(bs', d) + LaterMarks(bs'[d], j) + PendingFrom(s.pending, d)
    {
      if d < |bs| && j < |bs[d]| {
        assert bs'[d][j] == bs[d][j];
        CoverageKept(st, s, e, p.1, d, j, sl.id);
      } else {
        assert bs'[d][j] == e && d == inv.depth;
        var i :| 0 <= i < |p.1| && p.1[i].depth >= inv.depth + 1 && p.1[i].mark == sl.id;
        assert s.pending[i] == p.1[i];
      }
    }
  }

  /// One turn keeps the loop sound, outside single-step mode and with clean
  /// extensions.
  lemma StepSound(exts: map<Name, SyntaxExtension>, ecfg: ExpansionConfig, st: Schedule, kinds: map<nat, ExpansionKind>, rootKind: ExpansionKind)
    returns (kinds': map<nat, ExpansionKind>)
    requires !ecfg.singleStep && CleanExtensions(exts)
    requires st.pending != [] && Sound(st, kinds, rootKind) && Step(exts, ecfg, st).Ok?
    ensures Sound(Step(exts, ecfg, st).value, kinds', rootKind)
  {
    var inv := st.pending[0];
    var o := InvocOutcome(exts, inv);
    assert PendingOk(inv, kinds);
    OutcomeClean(exts, inv);
    var c := CollectSeq(o.value.0.nodes, exts, inv.depth + 1, st.next);
    CollectedKinds(o.value.0.nodes, exts, inv.depth + 1, st.next, kinds);
    kinds' := kinds + KindsOf(c.1);
    var p := Process(exts, inv, st.next).value;
    assert p == (Expansion(o.value.0.kind, c.0), c.1, o.value.1);
    assert FreshKinds(st, p, kinds, kinds');
    AdvanceKinds(ecfg, st, p, kinds, kinds');
    AdvanceCovered(ecfg, st, p, kinds, kinds');
    FileKeeps(st.buckets, inv.depth, Entry(inv.mark, p.0));
  }

  /// A completed run ends sound, with no invocation pending.
  lemma {:induction false} RunSound(exts: map<Name, SyntaxExtension>, ecfg: ExpansionConfig, st: Schedule, fuel: nat,
                                    kinds: map<nat, ExpansionKind>, rootKind: ExpansionKind)
    returns (kinds': map<nat, ExpansionKind>)
    requires !ecfg.singleStep && CleanExtensions(exts) && Sound(st, kinds, rootKind)
    requires Run(exts, ecfg, st, fuel).Some? && Run(exts, ecfg, st, fuel).value.Ok?
    ensures Run(exts, ecfg, st, fuel).value.value.pending == []
    ensures Sound(Run(exts, ecfg, st, fuel).value.value, kinds', rootKind)
    decreases fuel
  {
    if st.pending == [] {
      kinds' := kinds;
    } else {
      var k := StepSound(exts, ecfg, st, kinds, rootKind);
      kinds' := RunSound(exts, ecfg, Step(exts, ecfg, st).value, fuel - 1, k, rootKind);
    }
  }

  // ---------------------------------------------------------------------
  // The substitution

  /// A table of settled expansions whose kinds agree with `kinds`.
  predicate TableOk(t: map<nat, Expansion>, kinds: map<nat, ExpansionKind>)
  {
    Settled(t) && forall m :: m in t ==> m in kinds && t[m].kind == kinds[m]
  }

  /// The marks of a bucket.
  function BucketMarkSet(b: seq<Entry>): set<nat>
  {
    set j | 0 <= j < |b| :: b[j].mark
  }

  /// Dropping a bucket's last entry drops at most its mark from what is
  /// filed after position `j`.
  lemma LaterMarksDrop(b: seq<Entry>, j: nat)
    requires j + 1 < |b|
    ensures LaterMarks(b, j) <= LaterMarks(b[..|b| - 1], j) + {b[|b| - 1].mark}
  {
    forall m | m in LaterMarks(b, j)
      ensures m in LaterMarks(b[..|b| - 1], j) + {b[|b| - 1].mark}
    {
      var j' :| j < j' < |b| && b[j'].mark == m;
      if j' < |b| - 1 {
        assert b[..|b| - 1][j'].mark == m;
      }
    }
  }

  /// Dropping the deepest bucket drops at most its marks from what is filed
  /// deeper than `d`.
  lemma DeeperMarksDrop(bs: seq<seq<Entry>>, d: nat)
    requires d + 1 < |bs|
    ensures DeeperMarks(bs, d) <= DeeperMarks(bs[..|bs| - 1], d) + BucketMarkSet(bs[|bs| - 1])
  {
    var n := |bs| - 1;
    forall m | m in DeeperMarks(bs, d)
      ensures m in DeeperMarks(bs[..n], d) + BucketMarkSet(bs[n])
    {
      var d', j' :| d < d' < |bs| && 0 <= j' < |bs[d']| && bs[d'][j'].mark == m;
      if d' < n {
        assert bs[..n][d'][j'].mark == m;
      } else {
        assert bs[n][j'].mark == m;
      }
    }
  }

  /// Filling one entry whose placeholders all have their expansions in the
  /// table, and recording it, keeps the table in agreement.
  lemma FillEntryOk(e: Entry, t: map<nat, Expansion>, kinds: map<nat, ExpansionKind>)
    requires TableOk(t, kinds) && EntryOk(e, kinds) && Fits(e.expansion.nodes, t)
    ensures FillExpansion(e.expansion, t).Ok?
    ensures TableOk(t[e.mark := FillExpansion(e.expansion, t).value], kinds)
  {
    FillSeqOk(e.expansion.nodes, t);
    FillSeqSettles(e.expansion.nodes, t);
  }

  lemma {:induction false} FillBucketOk(b: seq<Entry>, t: map<nat, Expansion>, kinds: map<nat, ExpansionKind>)
    requires TableOk(t, kinds)
    requires forall j :: 0 <= j < |b| ==> EntryOk(b[j], kinds)
    requires forall j, s :: 0 <= j < |b| && s in SeqSlots(b[j].expansion.nodes) ==> s.id in t || s.id in LaterMarks(b, j)
    ensures FillBucket(b, t).Ok?
    ensures TableOk(FillBucket(b, t).value, kinds)
    ensures t.Keys <= FillBucket(b, t).value.Keys
    ensures forall j :: 0 <= j < |b| ==> b[j].mark in FillBucket(b, t).value
    decreases |b|
  {
    if b != [] {
      var k := |b| - 1;
      var e := b[k];
      assert EntryOk(e, kinds);
      assert Fits(e.expansion.nodes, t) by {
        forall s | s in SeqSlots(e.expansion.nodes)
          ensures s.id in t && t[s.id].kind == s.kind
        {
          assert LaterMarks(b, k) == {};
        }
      }
      FillEntryOk(e, t, kinds);
      var t' := t[e.mark := FillExpansion(e.expansion, t).value];
      var b' := b[..k];
      forall j, s | 0 <= j < |b'| && s in SeqSlots(b'[j].expansion.nodes)
        ensures s.id in t' || s.id in LaterMarks(b', j)
      {
        assert b'[j] == b[j];
        LaterMarksDrop(b, j);
      }
      FillBucketOk(b', t', kinds);
    }
  }

  lemma {:induction false} FillBucketsOk(bs: seq<seq<Entry>>, t: map<nat, Expansion>, kinds: map<nat, ExpansionKind>)
    requires TableOk(t, kinds)
    requires forall d, j :: 0 <= d < |bs| && 0 <= j < |bs[d]| ==> EntryOk(bs[d][j], kinds)
    requires forall d, j, s :: 0 <= d < |bs| && 0 <= j < |bs[d]| && s in SeqSlots(bs[d][j].expansion.nodes) ==>
      s.id in t || s.id in DeeperMarks(bs, d) || s.id in LaterMarks(bs[d], j)
    ensures FillBuckets(bs, t).Ok?
    ensures TableOk(FillBuckets(bs, t).value, kinds)
    ensures t.Keys <= FillBuckets(bs, t).value.Keys
    ensures forall d, j :: 0 <= d < |bs| && 0 <= j < |bs[d]| ==> bs[d][j].mark in FillBuckets(bs, t).value
    decreases |bs|
  {
    if bs != [] {
      var n := |bs| - 1;
      var last := bs[n];
      forall j, s | 0 <= j < |last| && s in SeqSlots(last[j].expansion.nodes)
        ensures s.id in t || s.id in LaterMarks(last, j)
      {
        assert DeeperMarks(bs, n) == {};
      }
      FillBucketOk(last, t, kinds);
      var t1 := FillBucket(last, t).value;
      var bs': seq<seq<Entry>> := bs[..n];
      forall d, j, s | 0 <= d < |bs'| && 0 <= j < |bs'[d]| && s in SeqSlots(bs'[d][j].expansion.nodes)
        ensures s.id in t1 || s.id in DeeperMarks(bs', d) || s.id in LaterMarks(bs'[d], j)
      {
        assert bs'[d] == bs[d];
        DeeperMarksDrop(bs, d);
        if s.id in BucketMarkSet(last) {
          var j' :| 0 <= j' < |last| && last[j'].mark == s.id;
        }
      }
      FillBucketsOk(bs', t1, kinds);
    }
  }

  /// When extensions do not make up placeholders and single-step mode is
  /// off, a fully expanded root fragment without placeholders is
  /// substituted without any panic: each placeholder finds the expansion of
  /// its invocation, of its own kind, and the result, of the root's kind,
  /// has no placeholder left.
  lemma ExpandComplete(exts: map<Name, SyntaxExtension>, ecfg: ExpansionConfig, e: Expansion, next: nat, fuel: nat)
    requires !ecfg.singleStep && CleanExtensions(exts) && SeqSlots(e.nodes) == {} && next >= 1
    requires Run(exts, ecfg, Start(exts, e, next), fuel).Some? && Run(exts, ecfg, Start(exts, e, next), fuel).value.Ok?
    ensures var f := Run(exts, ecfg, Start(exts, e, next), fuel).value.value;
      Finish(f.buckets).Ok? && Finish(f.buckets).value.kind == e.kind && SeqSlots(Finish(f.buckets).value.nodes) == {}
  {
    var k0 := StartSound(exts, e, next);
    var k := RunSound(exts, ecfg, Start(exts, e, next), fuel, k0, e.kind);
    var f := Run(exts, ecfg, Start(exts, e, next), fuel).value.value;
    var empty: map<nat, Expansion> := map[];
    forall d, j, s | 0 <= d < |f.buckets| && 0 <= j < |f.buckets[d]| && s in SeqSlots(f.buckets[d][j].expansion.nodes)
      ensures s.id in empty || s.id in DeeperMarks(f.buckets, d) || s.id in LaterMarks(f.buckets[d], j)
    {
      assert PendingFrom(f.pending, d) == {};
    }
    FillBucketsOk(f.buckets, empty, k);
    assert EntryOk(f.buckets[0][0], k);
  }
}
