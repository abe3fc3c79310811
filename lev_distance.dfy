/// Edit distance and "did you mean" suggestions (the compiler's
/// `util::lev_distance`). Strings are sequences of characters; a length in
/// bytes is computed from the characters' UTF-8 encoding.
module LevDistance {
  import opened Wrappers

  function Min(x: nat, y: nat): nat
  {
    if x <= y then x else y
  }

  function Max(x: nat, y: nat): nat
  {
    if x >= y then x else y
  }

  /// The standard Levenshtein distance with unit-cost insertion, deletion
  /// and substitution, by the recurrence on the last characters.
  function Lev(a: string, b: string): nat
    decreases |a| + |b|
  {
    if |a| == 0 then |b|
    else if |b| == 0 then |a|
    else
      Min(Min(Lev(a[..|a| - 1], b) + 1, Lev(a, b[..|b| - 1]) + 1),
          Lev(a[..|a| - 1], b[..|b| - 1]) + (if a[|a| - 1] == b[|b| - 1] then 0 else 1))
  }

  // ---------------------------------------------------------------------
  // Properties of the distance

  /// The distance is symmetric.
  lemma {:induction false} LevSymmetric(a: string, b: string)
    ensures Lev(a, b) == Lev(b, a)
    decreases |a| + |b|
  {
    if |a| > 0 && |b| > 0 {
      LevSymmetric(a[..|a| - 1], b);
      LevSymmetric(a, b[..|b| - 1]);
      LevSymmetric(a[..|a| - 1], b[..|b| - 1]);
    }
  }

  /// Appending a character to the second string lowers the distance by at
  /// most one.
  lemma {:induction false} AppendRight(a: string, b: string, c: char)
    ensures Lev(a, b) <= Lev(a, b + [c]) + 1
    decreases |a|
  {
    var b' := b + [c];
    assert b'[..|b'| - 1] == b;
    if |a| > 0 {
      var a0 := a[..|a| - 1];
      AppendRight(a0, b, c);
      if |b| > 0 {
        assert Lev(a, b) <= Lev(a0, b) + 1;
      }
    }
  }

  /// Appending a character to the first string lowers the distance by at
  /// most one.
  lemma AppendLeft(a: string, b: string, c: char)
    ensures Lev(a, b) <= Lev(a + [c], b) + 1
  {
    LevSymmetric(a, b);
    LevSymmetric(a + [c], b);
    AppendRight(b, a, c);
  }

  /// A common last character can be dropped: this is why the one-column DP
  /// may take the diagonal entry unchanged when the characters agree.
  lemma MatchingLast(a: string, b: string, c: char)
    ensures Lev(a + [c], b + [c]) == Lev(a, b)
  {
    var a', b' := a + [c], b + [c];
    assert a'[..|a'| - 1] == a && b'[..|b'| - 1] == b;
    AppendRight(a, b, c);
    AppendLeft(a, b, c);
  }

  /// The distance of a string to itself is zero.
  lemma {:induction false} LevSelf(s: string)
    ensures Lev(s, s) == 0
    decreases |s|
  {
    if |s| > 0 {
      var s0 := s[..|s| - 1];
      LevSelf(s0);
      MatchingLast(s0, s0, s[|s| - 1]);
      assert s0 + [s[|s| - 1]] == s;
    }
  }

  // ---------------------------------------------------------------------
  // The one-column dynamic programme

  /// One cell of the table, in the form the DP computes it.
  lemma LevCell(a: string, b: string, i: nat, j: nat)
    requires i < |a| && j < |b|
    ensures Lev(a[..i + 1], b[..j + 1]) ==
      if a[i] == b[j] then Lev(a[..i], b[..j])
      else Min(Min(Lev(a[..i], b[..j]), Lev(a[..i], b[..j + 1])), Lev(a[..i + 1], b[..j])) + 1
  {
    PrefixSnoc(a, i);
    PrefixSnoc(b, j);
    if a[i] == b[j] {
      MatchingLast(a[..i], b[..j], a[i]);
    }
  }

  lemma PrefixSnoc(s: string, i: nat)
    requires i < |s|
    ensures s[..i] + [s[i]] == s[..i + 1]
    ensures s[..i + 1][..i] == s[..i] && s[..i + 1][i] == s[i] && |s[..i + 1]| == i + 1
  {
  }

  /// Row `x` of the table: the distances from `x` to every prefix of `b`.
  ghost function Row(x: string, b: string): (r: seq<nat>)
    ensures |r| == |b| + 1
  {
    seq(|b| + 1, k requires 0 <= k <= |b| => Lev(x, b[..k]))
  }

  /// `lev_distance`: after row `i`, `dcol[j]` holds the distance between the
  /// first `i` characters of `a` and the first `j` characters of `b`.
  method LevDistance(a: string, b: string) returns (d: nat)
    ensures d == Lev(a, b)
    ensures a == [] ==> d == |b|
    ensures b == [] ==> d == |a|
  {
    if |a| == 0 {
      return |b|;
    } else if |b| == 0 {
      return |a|;
    }
    var dcol := new nat[|b| + 1](j => j);
    var tLast := 0;
    var i := 0;
    assert a[..0] == [];
    forall k | 0 <= k <= |b| ensures dcol[k] == Row(a[..0], b)[k] {
      assert |b[..k]| == k;
    }
    assert dcol[..] == Row(a[..0], b);
    while i < |a|
      invariant 0 <= i <= |a| && tLast < |b|
      invariant i > 0 ==> tLast == |b| - 1
      invariant dcol.Length == |b| + 1 && dcol[..] == Row(a[..i], b)
    {
      tLast := NextRow(a, b, i, dcol);
      i := i + 1;
    }
    assert a[..|a|] == a && b[..|b|] == b;
    d := dcol[tLast + 1];
    assert d == Row(a, b)[|b|];
  }

  /// The inner loop of `lev_distance`: turns row `i` into row `i + 1` in
  /// place, carrying the diagonal entry in `current`; returns the last `j`.
  method NextRow(a: string, b: string, i: nat, dcol: array<nat>) returns (tLast: nat)
    requires i < |a| && |b| > 0
    requires dcol.Length == |b| + 1 && dcol[..] == Row(a[..i], b)
    modifies dcol
    ensures dcol[..] == Row(a[..i + 1], b) && tLast == |b| - 1
  {
    ghost var prev := dcol[..];
    var sc := a[i];
    var current := i;
    assert b[..0] == [];
    assert prev[0] == i;
    dcol[0] := current + 1;
    assert a[..i + 1][..i + 1] == a[..i + 1];
    assert dcol[0] == Row(a[..i + 1], b)[0];
    tLast := 0;
    var j := 0;
    while j < |b|
      invariant 0 <= j <= |b|
      invariant j > 0 ==> tLast == j - 1
      invariant forall k :: 0 <= k <= j ==> dcol[k] == Row(a[..i + 1], b)[k]
      invariant forall k :: j < k <= |b| ==> dcol[k] == prev[k]
      invariant current == prev[j]
    {
      var tc := b[j];
      var next := dcol[j + 1];
      LevCell(a, b, i, j);
      if sc == tc {
        dcol[j + 1] := current;
      } else {
        dcol[j + 1] := Min(current, next);
        dcol[j + 1] := Min(dcol[j + 1], dcol[j]) + 1;
      }
      current := next;
      tLast := j;
      j := j + 1;
    }
    assert dcol[..] == Row(a[..i + 1], b);
  }

  // ---------------------------------------------------------------------
  // Selecting the best candidate

  /// One step of `select_fold1`: switch to `x` when the comparison says so.
  function SelectStep<T, B>(sel: (B, T), x: T, proj: T -> B, cmp: (B, T, B, T) -> bool): (B, T)
  {
    if cmp(sel.0, sel.1, proj(x), x) then (proj(x), x) else sel
  }

  /// Folds `SelectStep` over `xs`, left to right, starting from `sel`.
  function SelectFrom<T, B>(sel: (B, T), xs: seq<T>, proj: T -> B, cmp: (B, T, B, T) -> bool): (B, T)
  {
    if xs == [] then sel
    else SelectStep(SelectFrom(sel, xs[..|xs| - 1], proj, cmp), xs[|xs| - 1], proj, cmp)
  }

  /// What `select_fold1` computes: None for no elements, otherwise the
  /// fold from the first element and its projection.
  function SelectFold1Spec<T, B>(items: seq<T>, proj: T -> B, cmp: (B, T, B, T) -> bool): Option<(B, T)>
  {
    if items == [] then None else Some(SelectFrom((proj(items[0]), items[0]), items[1..], proj, cmp))
  }

  lemma {:induction false} SelectFromMember<T, B>(sel: (B, T), xs: seq<T>, proj: T -> B, cmp: (B, T, B, T) -> bool)
    requires sel.0 == proj(sel.1)
    ensures var r := SelectFrom(sel, xs, proj, cmp); r.0 == proj(r.1) && (r == sel || r.1 in xs)
    decreases |xs|
  {
    if xs != [] {
      SelectFromMember(sel, xs[..|xs| - 1], proj, cmp);
    }
  }

  /// `select_fold1`: keeps the first element as the selection and switches
  /// to a later one whenever the comparison asks for it.
  method SelectFold1<T, B>(items: seq<T>, proj: T -> B, cmp: (B, T, B, T) -> bool) returns (r: Option<(B, T)>)
    ensures r == SelectFold1Spec(items, proj, cmp)
    ensures r.None? <==> items == []
    ensures r.Some? ==> r.value.1 in items && r.value.0 == proj(r.value.1)
  {
    if |items| == 0 {
      return None;
    }
    var sel := items[0];
    var selP := proj(sel);
    var i := 1;
    while i < |items|
      invariant 1 <= i <= |items|
      invariant (selP, sel) == SelectFrom((proj(items[0]), items[0]), items[1..i], proj, cmp)
    {
      var x := items[i];
      var xP := proj(x);
      assert items[1..i + 1][..i - 1] == items[1..i];
      if cmp(selP, sel, xP, x) {
        sel := x;
        selP := xP;
      }
      i := i + 1;
    }
    assert items[1..i] == items[1..];
    r := Some((selP, sel));
    SelectFromMember((proj(items[0]), items[0]), items[1..], proj, cmp);
  }

  /// The comparison `min_by_key` hands to `select_fold1`: switch only to a
  /// strictly smaller key, so that the first of equal keys is kept.
  function StrictlySmaller<T>(xP: nat, x: T, yP: nat, y: T): bool
  {
    xP > yP
  }

  /// `min_by_key`.
  function MinByKey<T>(items: seq<T>, key: T -> nat): (r: Option<T>)
  {
    var s := SelectFold1Spec(items, key, StrictlySmaller);
    if s.None? then None else Some(s.value.1)
  }

  /// `min_by_key` returns None only for no elements; otherwise an element of
  /// least key, and the first one of those.
  lemma {:induction false} MinByKeyIsFirstMinimum<T>(items: seq<T>, key: T -> nat)
    ensures MinByKey(items, key).None? <==> items == []
    ensures MinByKey(items, key).Some? ==>
              exists i :: FirstMinimum(items, key, i) && items[i] == MinByKey(items, key).value
    decreases |items|
  {
    if |items| == 1 {
      assert FirstMinimum(items, key, 0);
    } else if |items| > 1 {
      var init := items[..|items| - 1];
      var x := items[|items| - 1];
      assert items == init + [x];
      MinByKeyIsFirstMinimum(init, key);
      var i :| FirstMinimum(init, key, i) && init[i] == MinByKey(init, key).value;
      SelectFold1Snoc(init, x, key, StrictlySmaller);
      SelectFromMember((key(init[0]), init[0]), init[1..], key, StrictlySmaller);
      if key(init[i]) > key(x) {
        FirstMinimumExtendNew(init, x, key, i);
      } else {
        FirstMinimumExtendKeep(init, x, key, i);
      }
    }
  }

  /// `items[i]` has the least key of `items` and is the first of those.
  ghost predicate FirstMinimum<T>(items: seq<T>, key: T -> nat, i: int)
  {
    0 <= i < |items| &&
    (forall j :: 0 <= j < i ==> key(items[j]) > key(items[i])) &&
    (forall j :: 0 <= j < |items| ==> key(items[i]) <= key(items[j]))
  }

  lemma FirstMinimumExtendKeep<T>(items: seq<T>, x: T, key: T -> nat, i: int)
    requires FirstMinimum(items, key, i) && key(items[i]) <= key(x)
    ensures FirstMinimum(items + [x], key, i)
  {
    var s := items + [x];
    forall j | 0 <= j < |s| ensures key(s[i]) <= key(s[j]) {
      if j < |items| { assert s[j] == items[j]; }
    }
    forall j | 0 <= j < i ensures key(s[j]) > key(s[i]) {
      assert s[j] == items[j];
    }
  }

  lemma FirstMinimumExtendNew<T>(items: seq<T>, x: T, key: T -> nat, i: int)
    requires FirstMinimum(items, key, i) && key(items[i]) > key(x)
    ensures FirstMinimum(items + [x], key, |items|)
  {
    var s := items + [x];
    forall j | 0 <= j < |items| ensures key(s[j]) > key(x) {
      assert s[j] == items[j];
    }
  }

  /// The number of bytes of the UTF-8 encoding of one character.
  function Utf8Width(c: char): nat
  {
    if c as int < 0x80 then 1
    else if c as int < 0x800 then 2
    else if c as int < 0x1_0000 then 3
    else 4
  }

  /// `str::len`: the length of a string in UTF-8 bytes.
  function Utf8Len(s: string): (r: nat)
    ensures |s| <= r <= 4 * |s|
    ensures (forall i :: 0 <= i < |s| ==> s[i] as int < 0x80) ==> r == |s|
  {
    if s == [] then 0 else Utf8Width(s[0]) + Utf8Len(s[1..])
  }

  /// The default threshold: a third of the looked-up name's length in
  /// UTF-8 bytes, but at least one.
  function Threshold(lookup: string, dist: Option<nat>): (r: nat)
    ensures dist.Some? ==> r == dist.value
    ensures dist.None? ==> 1 <= r && 3 * r <= Max(Utf8Len(lookup), 3) < 3 * r + 3
  {
    if dist.Some? then dist.value else Max(Utf8Len(lookup), 3) / 3
  }

  /// A name of four two-byte characters has a default threshold of two,
  /// where counting characters would give one.
  lemma NonAsciiThreshold()
    ensures Utf8Len("\U{e4}\U{e4}\U{e4}\U{e4}") == 8
    ensures Threshold("\U{e4}\U{e4}\U{e4}\U{e4}", None) == 2
  {
    assert "\U{e4}\U{e4}\U{e4}\U{e4}"[1..] == "\U{e4}\U{e4}\U{e4}";
    assert "\U{e4}\U{e4}\U{e4}"[1..] == "\U{e4}\U{e4}";
    assert "\U{e4}\U{e4}"[1..] == "\U{e4}";
  }

  /// The `filter_map` stage: candidates within `maxDist`, with their distance.
  function Candidates(names: seq<string>, lookup: string, maxDist: nat): seq<(string, nat)>
  {
    if names == [] then []
    else
      var rest := Candidates(names[..|names| - 1], lookup, maxDist);
      var d := Lev(lookup, names[|names| - 1]);
      if d <= maxDist then rest + [(names[|names| - 1], d)] else rest
  }

  function Distance(p: (string, nat)): nat
  {
    p.1
  }

  /// `find_best_match_for_name`.
  function FindBestMatchForName(names: seq<string>, lookup: string, dist: Option<nat>): Option<string>
  {
    var best := MinByKey(Candidates(names, lookup, Threshold(lookup, dist)), Distance);
    if best.None? then None else Some(best.value.0)
  }

  lemma SelectFold1Snoc<T, B>(items: seq<T>, x: T, proj: T -> B, cmp: (B, T, B, T) -> bool)
    requires items != []
    ensures SelectFold1Spec(items + [x], proj, cmp) ==
              Some(SelectStep(SelectFold1Spec(items, proj, cmp).value, x, proj, cmp))
  {
    var s := items + [x];
    assert s[0] == items[0];
    assert s[1..][..|s[1..]| - 1] == items[1..];
  }

  /// `names[i]` is at the least distance from `lookup` of all `names`, and
  /// is the first name at that distance.
  ghost predicate FirstNearest(names: seq<string>, lookup: string, i: int)
  {
    0 <= i < |names| &&
    (forall j :: 0 <= j < i ==> Lev(lookup, names[j]) > Lev(lookup, names[i])) &&
    (forall j :: 0 <= j < |names| ==> Lev(lookup, names[i]) <= Lev(lookup, names[j]))
  }

  lemma FirstNearestExtendKeep(names: seq<string>, x: string, lookup: string, i: int)
    requires FirstNearest(names, lookup, i) && Lev(lookup, names[i]) <= Lev(lookup, x)
    ensures FirstNearest(names + [x], lookup, i)
  {
    var s := names + [x];
    forall j | 0 <= j < |s| ensures Lev(lookup, s[i]) <= Lev(lookup, s[j]) {
      if j < |names| { assert s[j] == names[j]; }
    }
    forall j | 0 <= j < i ensures Lev(lookup, s[j]) > Lev(lookup, s[i]) {
      assert s[j] == names[j];
    }
  }

  lemma FirstNearestExtendNew(names: seq<string>, x: string, lookup: string)
    requires forall j :: 0 <= j < |names| ==> Lev(lookup, names[j]) > Lev(lookup, x)
    ensures FirstNearest(names + [x], lookup, |names|)
  {
    var s := names + [x];
    forall j | 0 <= j < |names| ensures Lev(lookup, s[j]) > Lev(lookup, x) {
      assert s[j] == names[j];
    }
  }

  /// The suggestion is within the threshold, no nearer name exists, it is
  /// the first name at that distance, and there is a suggestion exactly
  /// when some name is within the threshold.
  lemma {:induction false} BestMatchIsFirstNearest(names: seq<string>, lookup: string, dist: Option<nat>)
    ensures FindBestMatchForName(names, lookup, dist).None? <==>
              forall j :: 0 <= j < |names| ==> Lev(lookup, names[j]) > Threshold(lookup, dist)
    ensures FindBestMatchForName(names, lookup, dist).Some? ==>
              exists i :: FirstNearest(names, lookup, i) && Lev(lookup, names[i]) <= Threshold(lookup, dist) &&
                names[i] == FindBestMatchForName(names, lookup, dist).value
    decreases |names|
  {
    var t := Threshold(lookup, dist);
    if names != [] {
      var init := names[..|names| - 1];
      var x := names[|names| - 1];
      assert names == init + [x];
      var d := Lev(lookup, x);
      BestMatchIsFirstNearest(init, lookup, dist);
      var cs := Candidates(init, lookup, t);
      if d <= t {
        assert Candidates(names, lookup, t) == cs + [(x, d)];
        if cs == [] {
          FirstNearestExtendNew(init, x, lookup);
        } else {
          SelectFold1Snoc(cs, (x, d), Distance, StrictlySmaller);
          var i :| FirstNearest(init, lookup, i) && Lev(lookup, init[i]) <= t &&
                   init[i] == FindBestMatchForName(init, lookup, dist).value;
          var sel := SelectFold1Spec(cs, Distance, StrictlySmaller).value;
          SelectFromMember((Distance(cs[0]), cs[0]), cs[1..], Distance, StrictlySmaller);
          assert sel.1 in cs;
          CandidateDistance(init, lookup, t, sel.1);
          assert sel.0 == Lev(lookup, init[i]);
          if sel.0 > d {
            FirstNearestExtendNew(init, x, lookup);
          } else {
            FirstNearestExtendKeep(init, x, lookup, i);
          }
        }
      } else {
        assert Candidates(names, lookup, t) == cs;
        if cs != [] {
          var i :| FirstNearest(init, lookup, i) && Lev(lookup, init[i]) <= t &&
                   init[i] == FindBestMatchForName(init, lookup, dist).value;
          FirstNearestExtendKeep(init, x, lookup, i);
        } else {
          forall j | 0 <= j < |names| ensures Lev(lookup, names[j]) > t {
            if j < |init| { assert names[j] == init[j]; }
          }
        }
      }
    }
  }

  /// Every candidate carries its own distance, within the threshold.
  lemma {:induction false} CandidateDistance(names: seq<string>, lookup: string, maxDist: nat, p: (string, nat))
    requires p in Candidates(names, lookup, maxDist)
    ensures p.1 == Lev(lookup, p.0) <= maxDist && p.0 in names
    decreases |names|
  {
    if names != [] {
      var init := names[..|names| - 1];
      if p in Candidates(init, lookup, maxDist) {
        CandidateDistance(init, lookup, maxDist, p);
      }
    }
  }
}
