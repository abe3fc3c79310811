/// The macro expander (`MacroExpander`): the outcome rules of one bang or
/// attribute invocation, and `expand`, the worklist loop that resolves and
/// expands invocations, collects the invocations inside each result, files
/// every result in the bucket of its depth, and finally substitutes the
/// results into their placeholders, deepest first.
module Expander {
  import opened Wrappers
  import opened Ast
  import opened Expansions
  import opened SyntexResolver
  import opened Hygiene
  import opened Placeholders
  import opened Collector

  /// The name of `keywords::Invalid`, the ident of a macro call that has
  /// none.
  const INVALID_NAME: Name := ""

  /// `ExpansionData`: the mark and the depth of the expansion in progress.
  datatype ExpansionData = ExpansionData(mark: nat, depth: nat)

  /// A finished expansion, filed under the mark of its invocation.
  datatype Entry = Entry(mark: nat, expansion: Expansion)

  /// What resolving an invocation yields: the extension, and the
  /// diagnostics `resolve_invoc` reports.
  function Resolution(exts: map<Name, SyntaxExtension>, inv: Invocation): (Option<SyntaxExtension>, seq<Diagnostic>)
    requires inv.kind.Bang? ==> |inv.kind.mac.path.segments| > 0 || inv.kind.mac.path.global
  {
    match inv.kind
    case Bang(_, mac, _, _) =>
      if IsQualified(mac.path) then (None, [Diagnostic(Error, mac.path.span, QualifiedMacroName)])
      else
        var name := mac.path.segments[0].identifier.name;
        if name in exts then (Some(exts[name]), []) else (None, [Diagnostic(Error, mac.path.span, MacroUndefined(name))])
    case Attr(attr, _) =>
      var name := AttrName(attr);
      if name in exts then (Some(exts[name]), []) else (None, [Diagnostic(Error, attr.span, MacroUndefined(name))])
  }

  /// The end of `expand_bang_invoc`: a result that cannot fill the position
  /// is reported and replaced by a dummy; otherwise it is marked.
  function Converted(kind: ExpansionKind, result: MacResult, mark: nat, span: Span, pathSpan: Span, name: Name): (Expansion, seq<Diagnostic>)
  {
    var opt := MakeFrom(kind, result);
    if opt.None? then (DummyExpansion(kind, span), [Diagnostic(Error, pathSpan, WrongKind(kind, name))])
    else (MarkExpansion(opt.value, mark), [])
  }

  /// `expand_bang_invoc`: the expansion of a bang invocation and the
  /// diagnostics it reports.
  function BangOutcome(inv: Invocation, ext: SyntaxExtension): (r: (Expansion, seq<Diagnostic>))
    requires inv.kind.Bang? && (|inv.kind.mac.path.segments| > 0 || inv.kind.mac.path.global)
    ensures r.0.kind == inv.expansionKind && WellShaped(r.0)
    ensures |r.1| <= 1
  {
    var kind := inv.expansionKind;
    var mac := inv.kind.mac;
    var span := inv.kind.span;
    var path := mac.path;
    var dummy := DummyExpansion(kind, span);
    if IsQualified(path) then (dummy, [Diagnostic(Error, path.span, QualifiedMacroName)])
    else
      var extname := path.segments[0].identifier.name;
      var ident := if inv.kind.ident.Some? then inv.kind.ident.value else Ident(INVALID_NAME, []);
      var marked := MarkTts(mac.tts, inv.mark);
      match ext
      case NormalTT(expand) =>
        if ident.name != INVALID_NAME then (dummy, [Diagnostic(Error, path.span, ExpectsNoIdent(extname))])
        else Converted(kind, expand(span, marked), inv.mark, span, path.span, extname)
      case IdentTT(expand) =>
        if ident.name == INVALID_NAME then (dummy, [Diagnostic(Error, path.span, ExpectsIdent(extname))])
        else Converted(kind, expand(span, ident, marked, inv.kind.attrs), inv.mark, span, path.span, extname)
      case _ => (dummy, [Diagnostic(Error, path.span, OnlyInAttributes(extname))])
  }

  /// `expand_attr_invoc`: a modifier's items, or a decorator's generated
  /// items followed by the item itself, as an expansion of the invocation's
  /// kind. Any other extension is unreachable.
  function AttrOutcome(inv: Invocation, ext: SyntaxExtension): (r: Result<Expansion, Panic>)
    requires inv.kind.Attr?
    ensures r.Ok? ==> r.value.kind == inv.expansionKind && WellShaped(r.value)
  {
    var attr := inv.kind.attr;
    var item := inv.kind.item;
    match ext
    case MultiModifier(transform) => ExpectFromAnnotatables(inv.expansionKind, transform(attr.span, attr.value, item))
    case MultiDecorator(decorate) => ExpectFromAnnotatables(inv.expansionKind, decorate(attr.span, attr.value, item) + [item])
    case _ => Err(Unreachable)
  }

  /// `expand_invoc`: a bang invocation goes to `expand_bang_invoc`, which
  /// cannot panic; an attribute invocation goes to `expand_attr_invoc`.
  function ExpandInvocOutcome(inv: Invocation, ext: SyntaxExtension): (r: Result<(Expansion, seq<Diagnostic>), Panic>)
    requires inv.kind.Bang? ==> |inv.kind.mac.path.segments| > 0 || inv.kind.mac.path.global
    ensures r.Ok? ==> r.value.0.kind == inv.expansionKind && WellShaped(r.value.0)
    ensures r.Err? ==> inv.kind.Attr? && AttrOutcome(inv, ext).Err?
    ensures inv.kind.Attr? ==> r.Ok? ==> r.value.1 == []
  {
    if inv.kind.Bang? then Ok(BangOutcome(inv, ext))
    else
      var a := AttrOutcome(inv, ext);
      if a.Err? then Err(a.error) else Ok((a.value, []))
  }

  /// One turn of the loop in `expand` up to collection: resolve the
  /// invocation, then expand it, or put the dummy of its kind in its place
  /// when it does not resolve. A bang invocation with an empty path panics
  /// on `path.segments[0]`.
  function InvocOutcome(exts: map<Name, SyntaxExtension>, inv: Invocation): (r: Result<(Expansion, seq<Diagnostic>), Panic>)
    ensures r.Ok? ==> r.value.0.kind == inv.expansionKind && WellShaped(r.value.0)
    ensures r.Err? && r.error == EmptyMacroPath <==> inv.kind.Bang? && |inv.kind.mac.path.segments| == 0 && !inv.kind.mac.path.global
    ensures r.Err? && r.error == Unreachable ==> inv.kind.Attr? && !IsMacroAttr(exts, inv.kind.attr)
    ensures (inv.kind.Bang? ==> |inv.kind.mac.path.segments| > 0 || inv.kind.mac.path.global) && Resolution(exts, inv).0.None? ==>
      r == Ok((DummyExpansion(inv.expansionKind, InvocationSpan(inv)), Resolution(exts, inv).1))
  {
    if inv.kind.Bang? && |inv.kind.mac.path.segments| == 0 && !inv.kind.mac.path.global then Err(EmptyMacroPath)
    else
      var res := Resolution(exts, inv);
      if res.0.None? then Ok((DummyExpansion(inv.expansionKind, InvocationSpan(inv)), res.1))
      else
        var x := ExpandInvocOutcome(inv, res.0.value);
        if x.Err? then Err(x.error) else Ok((x.value.0, res.1 + x.value.1))
  }

  /// The state of `expand`'s loop: the pending invocations in the order they
  /// will be processed (the stack read from the top), the buckets of
  /// finished expansions by depth, the next fresh mark, and the diagnostics
  /// reported so far.
  datatype Schedule = Schedule(pending: seq<Invocation>, buckets: seq<seq<Entry>>, next: nat, diags: seq<Diagnostic>)

  /// The bucket invariant: there is a bucket, and no pending invocation is
  /// deeper than the number of buckets, so `expansions[depth]` is in range
  /// once a bucket is pushed for `depth == expansions.len()`.
  predicate BucketsInRange(st: Schedule)
  {
    |st.buckets| >= 1 && forall i :: 0 <= i < |st.pending| ==> st.pending[i].depth <= |st.buckets|
  }

  /// The state before the loop: the root fragment collected at depth 0, its
  /// invocations pending in discovery order, and bucket 0 holding the root
  /// under mark 0.
  function Start(exts: map<Name, SyntaxExtension>, e: Expansion, next: nat): (st: Schedule)
    ensures BucketsInRange(st)
  {
    var c := CollectSeq(e.nodes, exts, 0, next);
    CollectSeqMarks(e.nodes, exts, 0, next);
    Schedule(c.1, [[Entry(0, Expansion(e.kind, c.0))]], next + |c.1|, [])
  }

  /// `expansions[depth].push(entry)`, after pushing a new bucket when
  /// `depth` equals the number of buckets.
  function File(bs: seq<seq<Entry>>, depth: nat, e: Entry): (r: seq<seq<Entry>>)
    requires depth <= |bs|
    ensures |r| == if depth == |bs| then |bs| + 1 else |bs|
  {
    var bs' := if |bs| == depth then bs + [[]] else bs;
    bs'[depth := bs'[depth] + [e]]
  }

  /// One turn of the loop: the first pending invocation is expanded, the
  /// result's invocations are collected one level deeper, the result is
  /// filed at the end of the bucket of the invocation's depth (a new bucket
  /// is pushed when the depth equals the number of buckets), and the new
  /// invocations go in front of the older pending ones, unless single-step
  /// mode discards them.
  function Step(exts: map<Name, SyntaxExtension>, ecfg: ExpansionConfig, st: Schedule): (r: Result<Schedule, Panic>)
    requires st.pending != [] && BucketsInRange(st)
    ensures r.Ok? ==> BucketsInRange(r.value)
  {
    var p := Process(exts, st.pending[0], st.next);
    if p.Err? then Err(p.error) else Ok(Advance(ecfg, st, p.value))
  }

  /// An invocation processed: its expansion (the dummy of its kind when it
  /// does not resolve) with the invocations of the result collected one
  /// level deeper, the invocations found, and the reports.
  function Process(exts: map<Name, SyntaxExtension>, inv: Invocation, next: nat): (r: Result<(Expansion, seq<Invocation>, seq<Diagnostic>), Panic>)
    ensures r.Ok? ==> forall i :: 0 <= i < |r.value.1| ==> r.value.1[i].mark == next + i && r.value.1[i].depth == inv.depth + 1
  {
    var o := InvocOutcome(exts, inv);
    if o.Err? then Err(o.error)
    else
      var c := CollectSeq(o.value.0.nodes, exts, inv.depth + 1, next);
      CollectSeqMarks(o.value.0.nodes, exts, inv.depth + 1, next);
      Ok((Expansion(o.value.0.kind, c.0), c.1, o.value.1))
  }

  /// The schedule after the first pending invocation was processed into
  /// `p`: its expansion filed at the end of the bucket of its depth, the
  /// invocations found put in front of the others (dropped in single-step
  /// mode), the marks drawn and the reports added.
  function Advance(ecfg: ExpansionConfig, st: Schedule, p: (Expansion, seq<Invocation>, seq<Diagnostic>)): (r: Schedule)
    requires st.pending != [] && BucketsInRange(st)
    requires forall i :: 0 <= i < |p.1| ==> p.1[i].depth == st.pending[0].depth + 1
    ensures BucketsInRange(r)
  {
    var inv := st.pending[0];
    var found := if ecfg.singleStep then [] else p.1;
    Schedule(found + st.pending[1..], File(st.buckets, inv.depth, Entry(inv.mark, p.0)), st.next + |p.1|, st.diags + p.2)
  }

  /// The loop run to the end; `None` when `fuel` turns ran out first. (The
  /// source's loop runs until no invocation is pending and checks no
  /// recursion limit.)
  function Run(exts: map<Name, SyntaxExtension>, ecfg: ExpansionConfig, st: Schedule, fuel: nat): Option<Result<Schedule, Panic>>
    requires BucketsInRange(st)
    decreases fuel
  {
    if st.pending == [] then Some(Ok(st))
    else if fuel == 0 then None
    else
      var s := Step(exts, ecfg, st);
      if s.Err? then Some(Err(s.error)) else Run(exts, ecfg, s.value, fuel - 1)
  }

  /// The loop with its turn given as a function: the loop of `expand`
  /// proved once for whatever a turn does.
  ghost function RunWith(turn: Schedule -> Result<Schedule, Panic>, st: Schedule, fuel: nat): Option<Result<Schedule, Panic>>
    decreases fuel
  {
    if st.pending == [] then Some(Ok(st))
    else if fuel == 0 then None
    else
      var s := turn(st);
      if s.Err? then Some(Err(s.error)) else RunWith(turn, s.value, fuel - 1)
  }

  /// `Step` as a total function. Schedules with nothing pending or outside
  /// the bucket invariant never reach it (`RunIsRunWith`), so the error it
  /// gives for them is an arbitrary value, not the empty-path panic of
  /// `InvocOutcome`.
  ghost function Turner(exts: map<Name, SyntaxExtension>, ecfg: ExpansionConfig): Schedule -> Result<Schedule, Panic>
  {
    (st: Schedule) => if st.pending != [] && BucketsInRange(st) then Step(exts, ecfg, st) else Err(EmptyMacroPath)
  }

  lemma {:induction false} RunIsRunWith(exts: map<Name, SyntaxExtension>, ecfg: ExpansionConfig, st: Schedule, fuel: nat)
    requires BucketsInRange(st)
    ensures Run(exts, ecfg, st, fuel) == RunWith(Turner(exts, ecfg), st, fuel)
    decreases fuel
  {
    if st.pending != [] && fuel > 0 {
      var s := Step(exts, ecfg, st);
      assert Turner(exts, ecfg)(st) == s;
      if s.Ok? {
        RunIsRunWith(exts, ecfg, s.value, fuel - 1);
      }
    }
  }

  /// The substitution of one bucket, walked from its end: each expansion has
  /// its placeholders filled and is then recorded under its mark.
  function FillBucket(b: seq<Entry>, table: map<nat, Expansion>): Result<map<nat, Expansion>, Panic>
    decreases |b|
  {
    if b == [] then Ok(table)
    else
      var e := b[|b| - 1];
      var f := FillExpansion(e.expansion, table);
      if f.Err? then Err(f.error) else FillBucket(b[..|b| - 1], table[e.mark := f.value])
  }

  /// The substitution of all buckets, deepest first.
  function FillBuckets(bs: seq<seq<Entry>>, table: map<nat, Expansion>): Result<map<nat, Expansion>, Panic>
    decreases |bs|
  {
    if bs == [] then Ok(table)
    else
      var r := FillBucket(bs[|bs| - 1], table);
      if r.Err? then Err(r.error) else FillBuckets(bs[..|bs| - 1], r.value)
  }

  /// The end of `expand`: substitute everything, then take out the entry of
  /// mark 0, the root.
  function Finish(bs: seq<seq<Entry>>): Result<Expansion, Panic>
  {
    var t := FillBuckets(bs, map[]);
    if t.Err? then Err(t.error)
    else if 0 in t.value then Ok(t.value[0])
    else Err(MissingExpansion(0))
  }

  /// `MacroExpander`, with the parts of `ExtCtxt` it uses: the resolver, the
  /// diagnostic handler the resolver shares, the mark counter, the expansion
  /// config, and `current_expansion`.
  class MacroExpander {
    const resolver: Resolver
    const handler: Handler
    const marks: MarkCounter
    const ecfg: ExpansionConfig
    var current: ExpansionData

    ghost predicate Valid()
      reads this
    {
      resolver.handler == handler
    }

    constructor(resolver: Resolver, marks: MarkCounter, ecfg: ExpansionConfig)
      ensures Valid() && this.resolver == resolver && this.marks == marks && this.ecfg == ecfg
      ensures current == ExpansionData(ROOT_MARK, 0)
    {
      this.resolver := resolver;
      this.handler := resolver.handler;
      this.marks := marks;
      this.ecfg := ecfg;
      current := ExpansionData(ROOT_MARK, 0);
    }

    /// `collect_invocations`: a collector at the current depth folds the
    /// fragment.
    method CollectInvocations(e: Expansion) returns (r: Expansion, invs: seq<Invocation>)
      modifies marks
      ensures var c := CollectSeq(e.nodes, resolver.extensions, current.depth, old(marks.next));
        r == Expansion(e.kind, c.0) && invs == c.1 && marks.next == old(marks.next) + |c.1|
    {
      var collector := new InvocationCollector(resolver, marks, current.depth);
      var ns := collector.FoldSeq(e.nodes);
      r := Expansion(e.kind, ns);
      invs := collector.invocations;
    }

    /// `expand_bang_invoc`. A qualified path, a `NormalTT` given an ident,
    /// an `IdentTT` without one, a decorator or modifier called with `!`, and
    /// a result that cannot fill the position each report one error and give
    /// the dummy of the expected kind; otherwise the result is marked.
    method ExpandBangInvoc(inv: Invocation, ext: SyntaxExtension) returns (r: Expansion)
      requires inv.kind.Bang? && (|inv.kind.mac.path.segments| > 0 || inv.kind.mac.path.global)
      modifies handler
      ensures r == BangOutcome(inv, ext).0
      ensures handler.diagnostics == old(handler.diagnostics) + BangOutcome(inv, ext).1
    {
      var kind := inv.expansionKind;
      var mac := inv.kind.mac;
      var span := inv.kind.span;
      var path := mac.path;
      if IsQualified(path) {
        handler.Emit(Diagnostic(Error, path.span, QualifiedMacroName));
        return DummyExpansion(kind, span);
      }
      var extname := path.segments[0].identifier.name;
      var ident := if inv.kind.ident.Some? then inv.kind.ident.value else Ident(INVALID_NAME, []);
      var markedTts := MarkTts(mac.tts, inv.mark);
      var result;
      match ext {
        case NormalTT(expand) =>
          if ident.name != INVALID_NAME {
            handler.Emit(Diagnostic(Error, path.span, ExpectsNoIdent(extname)));
            return DummyExpansion(kind, span);
          }
          result := expand(span, markedTts);
        case IdentTT(expand) =>
          if ident.name == INVALID_NAME {
            handler.Emit(Diagnostic(Error, path.span, ExpectsIdent(extname)));
            return DummyExpansion(kind, span);
          }
          result := expand(span, ident, markedTts, inv.kind.attrs);
        case MultiDecorator(_) =>
          handler.Emit(Diagnostic(Error, path.span, OnlyInAttributes(extname)));
          return DummyExpansion(kind, span);
        case MultiModifier(_) =>
          handler.Emit(Diagnostic(Error, path.span, OnlyInAttributes(extname)));
          return DummyExpansion(kind, span);
      }
      var expanded := MakeFrom(kind, result);
      if expanded.None? {
        handler.Emit(Diagnostic(Error, path.span, WrongKind(kind, extname)));
        return DummyExpansion(kind, span);
      }
      r := MarkExpansion(expanded.value, inv.mark);
    }

    /// `expand_attr_invoc`.
    method ExpandAttrInvoc(inv: Invocation, ext: SyntaxExtension) returns (r: Result<Expansion, Panic>)
      requires inv.kind.Attr?
      ensures r == AttrOutcome(inv, ext)
      ensures r.Ok? ==> r.value.kind == inv.expansionKind
    {
      var attr := inv.kind.attr;
      var item := inv.kind.item;
      match ext {
        case MultiModifier(transform) =>
          var items := transform(attr.span, attr.value, item);
          r := ExpectFromAnnotatables(inv.expansionKind, items);
        case MultiDecorator(decorate) =>
          var items := decorate(attr.span, attr.value, item);
          items := items + [item];
          r := ExpectFromAnnotatables(inv.expansionKind, items);
        case NormalTT(_) => r := Err(Unreachable);
        case IdentTT(_) => r := Err(Unreachable);
      }
    }

    /// `expand_invoc`.
    method ExpandInvoc(inv: Invocation, ext: SyntaxExtension) returns (r: Result<Expansion, Panic>)
      requires inv.kind.Bang? ==> |inv.kind.mac.path.segments| > 0 || inv.kind.mac.path.global
      modifies handler
      ensures var x := ExpandInvocOutcome(inv, ext);
        && (r.Err? <==> x.Err?)
        && (r.Err? ==> r.error == x.error)
        && (r.Ok? ==> r.value == x.value.0 && handler.diagnostics == old(handler.diagnostics) + x.value.1)
    {
      if inv.kind.Bang? {
        var e := ExpandBangInvoc(inv, ext);
        r := Ok(e);
      } else {
        r := ExpandAttrInvoc(inv, ext);
      }
    }

    /// The first half of one invocation of the loop in `expand`: resolve
    /// it, then expand it, or put the dummy of its kind in its place.
    method ResolveAndExpand(inv: Invocation) returns (r: Result<Expansion, Panic>)
      requires Valid()
      modifies handler
      ensures var o := InvocOutcome(resolver.extensions, inv);
        && (r.Err? <==> o.Err?)
        && (r.Err? ==> r.error == o.error)
        && (r.Ok? ==> r.value == o.value.0 && handler.diagnostics == old(handler.diagnostics) + o.value.1)
    {
      if inv.kind.Bang? && |inv.kind.mac.path.segments| == 0 && !inv.kind.mac.path.global {
        return Err(EmptyMacroPath);
      }
      var ext := resolver.ResolveInvoc(ROOT_MARK, inv);
      ghost var resolved := handler.diagnostics;
      ghost var reported := resolved[|old(handler.diagnostics)|..];
      assert (ext, reported) == Resolution(resolver.extensions, inv);
      if ext.None? {
        return Ok(DummyExpansion(inv.expansionKind, InvocationSpan(inv)));
      }
      r := ExpandInvoc(inv, ext.value);
      if r.Ok? {
        assert resolved == old(handler.diagnostics) + reported;
        AppendAssoc(old(handler.diagnostics), reported, ExpandInvocOutcome(inv, ext.value).value.1);
      }
    }

    /// One invocation of the loop in `expand`: resolve and expand it, then
    /// collect the invocations of the result one level deeper.
    method ProcessInvocation(inv: Invocation) returns (r: Result<(Expansion, seq<Invocation>), Panic>)
      requires Valid()
      modifies this, handler, marks
      ensures Valid()
      ensures var p := Process(resolver.extensions, inv, old(marks.next));
        && (r.Err? <==> p.Err?)
        && (r.Err? ==> r.error == p.error)
        && (r.Ok? ==>
              && r.value == (p.value.0, p.value.1)
              && marks.next == old(marks.next) + |p.value.1|
              && handler.diagnostics == old(handler.diagnostics) + p.value.2)
    {
      current := ExpansionData(inv.mark, inv.depth);
      var expansion := ResolveAndExpand(inv);
      if expansion.Err? {
        return Err(expansion.error);
      }
      current := current.(depth := inv.depth + 1);
      var collected, found := CollectInvocations(expansion.value);
      r := Ok((collected, found));
    }

    /// The body of the loop in `expand`: pop the top invocation, process it,
    /// file the result in the bucket of the invocation's depth, and push the
    /// new invocations reversed, so that the first found is popped next.
    method Turn(invocations: seq<Invocation>, expansions: seq<seq<Entry>>, ghost st: Schedule, ghost d0: seq<Diagnostic>)
      returns (failed: Option<Panic>, invocations': seq<Invocation>, expansions': seq<seq<Entry>>)
      requires Valid() && st.pending != [] && BucketsInRange(st)
      requires invocations == Reverse(st.pending) && expansions == st.buckets && marks.next == st.next
      requires handler.diagnostics == d0 + st.diags
      modifies this, handler, marks
      ensures Valid()
      ensures var s := Step(resolver.extensions, ecfg, st);
        && (failed.Some? <==> s.Err?)
        && (failed.Some? ==> failed.value == s.error)
        && (failed.None? ==>
              && invocations' == Reverse(s.value.pending) && expansions' == s.value.buckets
              && marks.next == s.value.next
              && handler.diagnostics == d0 + s.value.diags
              && s.value.diags == st.diags + Process(resolver.extensions, st.pending[0], st.next).value.2)
    {
      var inv := invocations[|invocations| - 1];
      ReverseTail(st.pending);
      invocations' := invocations[..|invocations| - 1];
      var p := ProcessInvocation(inv);
      if p.Err? {
        return Some(p.error), invocations', expansions;
      }
      failed := None;
      ghost var reported := Process(resolver.extensions, inv, st.next).value.2;
      assert (d0 + st.diags) + reported == d0 + (st.diags + reported);
      var (expansion, found) := p.value;
      expansions' := File(expansions, inv.depth, Entry(inv.mark, expansion));
      if !ecfg.singleStep {
        ReverseAppend(found, st.pending[1..]);
        invocations' := invocations' + Reverse(found);
      } else {
        assert [] + st.pending[1..] == st.pending[1..];
      }
    }

    /// The substitution at the end of `expand`: pop the buckets deepest
    /// first, walk each from its end, fill each expansion's placeholders and
    /// record it under its mark; then remove the root's entry, mark 0.
    method Substitute(buckets: seq<seq<Entry>>) returns (r: Result<Expansion, Panic>)
      ensures r == Finish(buckets)
    {
      var expander := new PlaceholderExpander();
      var bs := buckets;
      while bs != []
        invariant FillBuckets(bs, expander.expansions) == FillBuckets(buckets, map[])
        decreases |bs|
      {
        var b := bs[|bs| - 1];
        bs := bs[..|bs| - 1];
        ghost var t0 := expander.expansions;
        var j := |b|;
        assert b[..j] == b;
        while j > 0
          invariant 0 <= j <= |b|
          invariant FillBucket(b[..j], expander.expansions) == FillBucket(b, t0)
        {
          assert b[..j][..j - 1] == b[..j - 1];
          var e := b[j - 1];
          var filled := FillExpansion(e.expansion, expander.expansions);
          if filled.Err? {
            return Err(filled.error);
          }
          expander.Add(e.mark, filled.value);
          j := j - 1;
        }
      }
      r := expander.Remove(0);
    }

    /// The worklist loop of `expand`, from schedule `st0`: at most `fuel`
    /// turns, then the buckets to substitute. `None` means the fuel ran out.
    /// `turn` is `Step` on every schedule the loop reaches.
    method Drive(invocations0: seq<Invocation>, expansions0: seq<seq<Entry>>, ghost st0: Schedule, ghost d0: seq<Diagnostic>,
                 ghost turn: Schedule -> Result<Schedule, Panic>, fuel: nat)
      returns (r: Option<Result<seq<seq<Entry>>, Panic>>)
      requires Valid() && BucketsInRange(st0)
      requires invocations0 == Reverse(st0.pending) && expansions0 == st0.buckets
      requires marks.next == st0.next && handler.diagnostics == d0 + st0.diags
      requires forall x: Schedule {:trigger Step(resolver.extensions, ecfg, x)} ::
        x.pending != [] && BucketsInRange(x) ==> turn(x) == Step(resolver.extensions, ecfg, x)
      modifies this, handler, marks
      ensures Valid()
      ensures var run := RunWith(turn, st0, fuel);
        && (r.None? <==> run.None?)
        && (r.Some? && run.value.Err? ==> r.value == Err(run.value.error))
        && (r.Some? && run.value.Ok? ==>
              && r.value == Ok(run.value.value.buckets)
              && handler.diagnostics == d0 + run.value.value.diags
              && marks.next == run.value.value.next)
    {
      ghost var exts := resolver.extensions;
      var invocations, expansions := invocations0, expansions0;
      ghost var st := st0;
      var left := fuel;
      while invocations != []
        invariant Valid()
        invariant BucketsInRange(st)
        invariant invocations == Reverse(st.pending) && expansions == st.buckets
        invariant marks.next == st.next && handler.diagnostics == d0 + st.diags
        invariant RunWith(turn, st, left) == RunWith(turn, st0, fuel)
        decreases left
      {
        if left == 0 {
          return None;
        }
        var failed;
        failed, invocations, expansions := Turn(invocations, expansions, st, d0);
        if failed.Some? {
          return Some(Err(failed.value));
        }
        st := Step(exts, ecfg, st).value;
        left := left - 1;
      }
      assert st.pending == [];
      r := Some(Ok(expansions));
    }

    /// `expand`: collect the invocations of the root fragment, run the
    /// worklist loop, then substitute. `fuel` bounds the number of turns;
    /// `None` means it ran out.
    method Expand(e: Expansion, fuel: nat) returns (r: Option<Result<Expansion, Panic>>)
      requires Valid()
      modifies this, handler, marks
      ensures Valid()
      ensures var run := Run(resolver.extensions, ecfg, Start(resolver.extensions, e, old(marks.next)), fuel);
        && (r.None? <==> run.None?)
        && (r.Some? && run.value.Err? ==> r.value == Err(run.value.error))
        && (r.Some? && run.value.Ok? ==>
              && r.value == Finish(run.value.value.buckets)
              && handler.diagnostics == old(handler.diagnostics) + run.value.value.diags
              && marks.next == run.value.value.next
              && current == old(current))
    {
      var orig := current;
      current := current.(depth := 0);
      var root, found := CollectInvocations(e);
      ghost var st0 := Start(resolver.extensions, e, old(marks.next));
      RunIsRunWith(resolver.extensions, ecfg, st0, fuel);
      var d := Drive(Reverse(found), [[Entry(0, root)]], st0, old(handler.diagnostics), Turner(resolver.extensions, ecfg), fuel);
      if d.None? {
        return None;
      }
      if d.value.Err? {
        return Some(Err(d.value.error));
      }
      current := orig;
      var result := Substitute(d.value.value);
      r := Some(result);
    }
  }
}
