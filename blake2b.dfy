/// BLAKE2b (RFC 7693) as a streaming hasher: a context with a 128-byte
/// input buffer `b`, the chaining value `h`, the 128-bit byte counter `t`,
/// the fill level `c` and the `finalized` flag.
/// Words are `bv64`, so `+` is the wrapping add of RFC 7693 section 3.1;
/// its right rotations are written as pairs of shifts.
module Blake2b {
  import opened Wrappers

  type Index16 = x: nat | x < 16

  /// A row of the message schedule: sixteen word indices.
  type ScheduleRow = s: seq<Index16> | |s| == 16 witness seq(16, k => 0)

  const TWO64: nat := 0x1_0000_0000_0000_0000
  const TWO128: nat := 0x1_0000_0000_0000_0000_0000_0000_0000_0000

  /// The initialisation vector (RFC 7693 section 2.6).
  const IV: seq<bv64> := [
    0x6A09E667F3BCC908, 0xBB67AE8584CAA73B, 0x3C6EF372FE94F82B, 0xA54FF53A5F1D36F1,
    0x510E527FADE682D1, 0x9B05688C2B3E6C1F, 0x1F83D9ABFB41BD6B, 0x5BE0CD19137E2179
  ]

  /// The ten rows of the message schedule (RFC 7693 section 2.7).
  const SigmaRow0: ScheduleRow := [0, 1, 2, 3, 4, 5, 6, 7, 8, 9, 10, 11, 12, 13, 14, 15]
  const SigmaRow1: ScheduleRow := [14, 10, 4, 8, 9, 15, 13, 6, 1, 12, 0, 2, 11, 7, 5, 3]
  const SigmaRow2: ScheduleRow := [11, 8, 12, 0, 5, 2, 15, 13, 10, 14, 3, 6, 7, 1, 9, 4]
  const SigmaRow3: ScheduleRow := [7, 9, 3, 1, 13, 12, 11, 14, 2, 6, 5, 10, 4, 0, 15, 8]
  const SigmaRow4: ScheduleRow := [9, 0, 5, 7, 2, 4, 10, 15, 14, 1, 11, 12, 6, 8, 3, 13]
  const SigmaRow5: ScheduleRow := [2, 12, 6, 10, 0, 11, 8, 3, 4, 13, 7, 5, 15, 14, 1, 9]
  const SigmaRow6: ScheduleRow := [12, 5, 1, 15, 14, 13, 4, 10, 0, 7, 6, 3, 9, 2, 8, 11]
  const SigmaRow7: ScheduleRow := [13, 11, 7, 14, 12, 1, 3, 9, 5, 0, 15, 4, 8, 6, 2, 10]
  const SigmaRow8: ScheduleRow := [6, 15, 14, 9, 11, 3, 0, 8, 12, 2, 13, 7, 1, 4, 10, 5]
  const SigmaRow9: ScheduleRow := [10, 2, 8, 4, 7, 6, 1, 5, 15, 11, 9, 14, 3, 12, 13, 0]

  /// The message schedule, one row per round; rows 10 and 11 repeat rows
  /// 0 and 1 (RFC 7693 section 2.7 indexes its ten rows by round mod 10).
  const SIGMA: seq<ScheduleRow> := [
    SigmaRow0, SigmaRow1, SigmaRow2, SigmaRow3, SigmaRow4, SigmaRow5,
    SigmaRow6, SigmaRow7, SigmaRow8, SigmaRow9, SigmaRow0, SigmaRow1
  ]

  // ---------------------------------------------------------------------
  // The compression function (RFC 7693 sections 3.1 and 3.2)

  /// Wrapping addition, exclusive or and complement of words.
  function Add(x: bv64, y: bv64): bv64 { x + y }
  function Xor(x: bv64, y: bv64): bv64 { x ^ y }
  function Not(x: bv64): bv64 { !x }

  /// The four right rotations G uses.
  function Rotr32(w: bv64): bv64 { (w >> 32) | (w << 32) }
  function Rotr24(w: bv64): bv64 { (w >> 24) | (w << 40) }
  function Rotr16(w: bv64): bv64 { (w >> 16) | (w << 48) }
  function Rotr63(w: bv64): bv64 { (w >> 63) | (w << 1) }

  /// The low `k` bits of `n` as a word, one binary digit at a time.
  function Bits(n: nat, k: nat): bv64
    requires k <= 64
  {
    if k == 0 then 0 else (Bits(n / 2, k - 1) << 1) | (if n % 2 == 1 then 1 else 0)
  }

  /// A counter word (a `u64`) as a bit vector.
  function ToWord(n: nat): bv64
    requires n < TWO64
  {
    Bits(n, 64)
  }

  /// The four words of the working vector one mixing step works on.
  datatype Quad = Quad(a: bv64, b: bv64, c: bv64, d: bv64)

  /// The mixing function G of RFC 7693 section 3.1 on its four words.
  function Mix(q: Quad, x: bv64, y: bv64): Quad
  {
    var a1 := Add(Add(q.a, q.b), x);
    var d1 := Rotr32(Xor(q.d, a1));
    var c1 := Add(q.c, d1);
    var b1 := Rotr24(Xor(q.b, c1));
    var a2 := Add(Add(a1, b1), y);
    var d2 := Rotr16(Xor(d1, a2));
    var c2 := Add(c1, d2);
    var b2 := Rotr63(Xor(b1, c2));
    Quad(a2, b2, c2, d2)
  }

  predicate Distinct(a: Index16, b: Index16, c: Index16, d: Index16)
  {
    a != b && a != c && a != d && b != c && b != d && c != d
  }

  /// G applied to positions a, b, c, d of the working vector.
  function G(v: seq<bv64>, a: Index16, b: Index16, c: Index16, d: Index16, x: bv64, y: bv64): (r: seq<bv64>)
    requires |v| == 16 && Distinct(a, b, c, d)
    ensures |r| == 16
  {
    var q := Mix(Quad(v[a], v[b], v[c], v[d]), x, y);
    v[a := q.a][b := q.b][c := q.c][d := q.d]
  }

  /// G writes the mixed words to its four positions and leaves the other
  /// twelve words of the working vector as they were.
  lemma GPositions(v: seq<bv64>, a: Index16, b: Index16, c: Index16, d: Index16, x: bv64, y: bv64)
    requires |v| == 16 && Distinct(a, b, c, d)
    ensures var r := G(v, a, b, c, d, x, y); var q := Mix(Quad(v[a], v[b], v[c], v[d]), x, y);
      && r[a] == q.a && r[b] == q.b && r[c] == q.c && r[d] == q.d
      && forall k :: 0 <= k < 16 && k != a && k != b && k != c && k != d ==> r[k] == v[k]
  {
  }

  /// The four column steps of a round with message schedule `s`.
  function Columns(v: seq<bv64>, m: seq<bv64>, s: ScheduleRow): (r: seq<bv64>)
    requires |v| == 16 && |m| == 16
    ensures |r| == 16
  {
    var v1 := G(v, 0, 4, 8, 12, m[s[0]], m[s[1]]);
    var v2 := G(v1, 1, 5, 9, 13, m[s[2]], m[s[3]]);
    var v3 := G(v2, 2, 6, 10, 14, m[s[4]], m[s[5]]);
    G(v3, 3, 7, 11, 15, m[s[6]], m[s[7]])
  }

  /// The four diagonal steps of a round with message schedule `s`.
  function Diagonals(v: seq<bv64>, m: seq<bv64>, s: ScheduleRow): (r: seq<bv64>)
    requires |v| == 16 && |m| == 16
    ensures |r| == 16
  {
    var v1 := G(v, 0, 5, 10, 15, m[s[8]], m[s[9]]);
    var v2 := G(v1, 1, 6, 11, 12, m[s[10]], m[s[11]]);
    var v3 := G(v2, 2, 7, 8, 13, m[s[12]], m[s[13]]);
    G(v3, 3, 4, 9, 14, m[s[14]], m[s[15]])
  }

  /// Round `i`: the column steps, then the diagonal steps.
  function Round(v: seq<bv64>, m: seq<bv64>, i: nat): (r: seq<bv64>)
    requires |v| == 16 && |m| == 16 && i < 12
    ensures |r| == 16
  {
    Diagonals(Columns(v, m, SIGMA[i]), m, SIGMA[i])
  }

  /// The first `n` rounds.
  function Rounds(v: seq<bv64>, m: seq<bv64>, n: nat): (r: seq<bv64>)
    requires |v| == 16 && |m| == 16 && n <= 12
    ensures |r| == 16
  {
    if n == 0 then v else Round(Rounds(v, m, n - 1), m, n - 1)
  }

  /// The working vector before the rounds: `h ++ IV`, the counter folded
  /// into words 12 and 13, word 14 inverted for the last block.
  function InitialVector(h: seq<bv64>, t0: bv64, t1: bv64, last: bool): (r: seq<bv64>)
    requires |h| == 8
    ensures |r| == 16
  {
    var v := h + IV;
    var v' := v[12 := Xor(v[12], t0)][13 := Xor(v[13], t1)];
    if last then v'[14 := Not(v'[14])] else v'
  }

  /// The compression function F.
  function Compress(h: seq<bv64>, m: seq<bv64>, t0: bv64, t1: bv64, last: bool): (r: seq<bv64>)
    requires |h| == 8 && |m| == 16
    ensures |r| == 8
  {
    FeedForward(h, Rounds(InitialVector(h, t0, t1, last), m, 12))
  }

  /// The new chaining value: the old one xor both halves of the vector.
  function FeedForward(h: seq<bv64>, v: seq<bv64>): (r: seq<bv64>)
    requires |h| == 8 && |v| == 16
    ensures |r| == 8
  {
    seq(8, i requires 0 <= i < 8 => Xor(Xor(h[i], v[i]), v[i + 8]))
  }

  // ---------------------------------------------------------------------
  // Bytes and words

  /// Eight bytes, least significant first, as one word.
  function Join(b0: bv8, b1: bv8, b2: bv8, b3: bv8, b4: bv8, b5: bv8, b6: bv8, b7: bv8): bv64
  {
    (b0 as bv64) | ((b1 as bv64) << 8) | ((b2 as bv64) << 16) | ((b3 as bv64) << 24) |
    ((b4 as bv64) << 32) | ((b5 as bv64) << 40) | ((b6 as bv64) << 48) | ((b7 as bv64) << 56)
  }

  /// The eight bytes at `k`, read as a little-endian word.
  function LeWord(bs: seq<bv8>, k: nat): bv64
    requires k + 8 <= |bs|
  {
    Join(bs[k], bs[k + 1], bs[k + 2], bs[k + 3], bs[k + 4], bs[k + 5], bs[k + 6], bs[k + 7])
  }

  /// A 128-byte block as sixteen little-endian words (the buffer `m`).
  function Words(block: seq<bv8>): (r: seq<bv64>)
    requires |block| == 128
    ensures |r| == 16
  {
    seq(16, i requires 0 <= i < 16 => LeWord(block, 8 * i))
  }

  /// A word as its eight bytes, least significant first.
  function WordBytes(w: bv64): (r: seq<bv8>)
    ensures |r| == 8
  {
    [(w & 0xFF) as bv8, ((w >> 8) & 0xFF) as bv8, ((w >> 16) & 0xFF) as bv8, ((w >> 24) & 0xFF) as bv8,
     ((w >> 32) & 0xFF) as bv8, ((w >> 40) & 0xFF) as bv8, ((w >> 48) & 0xFF) as bv8, (w >> 56) as bv8]
  }

  /// Words laid out as little-endian bytes (the view `finalize` returns).
  function LeBytes(ws: seq<bv64>): (r: seq<bv8>)
    ensures |r| == 8 * |ws|
  {
    if ws == [] then [] else LeBytes(ws[..|ws| - 1]) + WordBytes(ws[|ws| - 1])
  }

  lemma Bytes8(b0: bv8, b1: bv8, b2: bv8, b3: bv8, b4: bv8, b5: bv8, b6: bv8, b7: bv8)
    ensures WordBytes(Join(b0, b1, b2, b3, b4, b5, b6, b7)) == [b0, b1, b2, b3, b4, b5, b6, b7]
  {
  }

  /// The bytes of a little-endian word are the bytes it was read from.
  lemma LeWordBytes(bs: seq<bv8>, k: nat)
    requires k + 8 <= |bs|
    ensures WordBytes(LeWord(bs, k)) == bs[k..k + 8]
  {
    Bytes8(bs[k], bs[k + 1], bs[k + 2], bs[k + 3], bs[k + 4], bs[k + 5], bs[k + 6], bs[k + 7]);
    assert bs[k..k + 8] == [bs[k], bs[k + 1], bs[k + 2], bs[k + 3], bs[k + 4], bs[k + 5], bs[k + 6], bs[k + 7]];
  }

  /// Reading a block as words and laying the words out again as bytes
  /// gives back the block.
  lemma {:induction false} WordsBytesRoundTrip(block: seq<bv8>)
    requires |block| == 128
    ensures LeBytes(Words(block)) == block
  {
    var ws := Words(block);
    forall n | 0 <= n <= 16 ensures LeBytes(ws[..n]) == block[..8 * n] {
      PrefixBytes(block, n);
    }
    assert ws[..16] == ws && block[..128] == block;
  }

  lemma {:induction false} PrefixBytes(block: seq<bv8>, n: nat)
    requires |block| == 128 && n <= 16
    ensures LeBytes(Words(block)[..n]) == block[..8 * n]
  {
    if n > 0 {
      var ws := Words(block)[..n];
      PrefixBytes(block, n - 1);
      assert ws[..n - 1] == Words(block)[..n - 1];
      LeWordBytes(block, 8 * (n - 1));
      assert block[..8 * n] == block[..8 * (n - 1)] + block[8 * (n - 1)..8 * n];
    }
  }

  // ---------------------------------------------------------------------
  // The hash of a whole message (RFC 7693 section 3.3, no key)

  /// The low and high 64-bit words of the 128-bit byte offset `n`.
  function Lo(n: nat): (r: nat)
    ensures r < TWO64
  {
    (n % TWO128) % TWO64
  }

  function Hi(n: nat): (r: nat)
    ensures r < TWO64
  {
    (n % TWO128) / TWO64
  }

  /// One link of the chain: from a chaining value, a block's bytes and
  /// the byte offset at the block's end to the next chaining value.
  type Link = (seq<bv64>, seq<bv8>, nat) -> seq<bv64>

  /// The chaining value after the first `n` full blocks of `msg`.
  function Chain(F: Link, h0: seq<bv64>, msg: seq<bv8>, n: nat): (r: seq<bv64>)
    requires forall h, block, offset :: |F(h, block, offset)| == |h|
    requires 128 * n <= |msg|
    ensures |r| == |h0|
  {
    if n == 0 then h0 else F(Chain(F, h0, msg, n - 1), msg[128 * (n - 1)..128 * n], 128 * n)
  }

  /// A chain only depends on the bytes of the blocks it goes through.
  lemma {:induction false} ChainPrefix(F: Link, h0: seq<bv64>, msg: seq<bv8>, more: seq<bv8>, n: nat)
    requires forall h, block, offset :: |F(h, block, offset)| == |h|
    requires 128 * n <= |msg|
    ensures Chain(F, h0, msg + more, n) == Chain(F, h0, msg, n)
  {
    if n > 0 {
      ChainPrefix(F, h0, msg, more, n - 1);
      assert (msg + more)[128 * (n - 1)..128 * n] == msg[128 * (n - 1)..128 * n];
    }
  }

  /// A chain is determined by its links' values: two links that agree
  /// everywhere give the same chain.
  lemma {:induction false} ChainCongruent(F: Link, G: Link, h0: seq<bv64>, msg: seq<bv8>, n: nat)
    requires forall h, block, offset :: |F(h, block, offset)| == |h|
    requires forall h, block, offset :: |G(h, block, offset)| == |h|
    requires forall h, block, offset {:trigger G(h, block, offset)} :: F(h, block, offset) == G(h, block, offset)
    requires 128 * n <= |msg|
    ensures Chain(F, h0, msg, n) == Chain(G, h0, msg, n)
  {
    if n > 0 {
      ChainCongruent(F, G, h0, msg, n - 1);
      var h := Chain(G, h0, msg, n - 1);
      assert F(h, msg[128 * (n - 1)..128 * n], 128 * n) == G(h, msg[128 * (n - 1)..128 * n], 128 * n);
    }
  }

  /// A block that is not the last one: compressed with `last = false`.
  function FullBlock(h: seq<bv64>, block: seq<bv8>, offset: nat): (r: seq<bv64>)
    ensures |r| == |h|
  {
    if |h| == 8 && |block| == 128 then Compress(h, Words(block), ToWord(Lo(offset)), ToWord(Hi(offset)), false) else h
  }

  /// The last block: zero-padded to 128 bytes and compressed with the
  /// message length as offset and `last = true`.
  function LastBlock(h: seq<bv64>, tail: seq<bv8>, length: nat): (r: seq<bv64>)
    ensures |r| == |h|
  {
    if |h| == 8 && |tail| <= 128 then Compress(h, Words(Pad(tail)), ToWord(Lo(length)), ToWord(Hi(length)), true) else h
  }

  /// A block padded with zero bytes to 128 bytes.
  function Pad(tail: seq<bv8>): (r: seq<bv8>)
    requires |tail| <= 128
    ensures |r| == 128 && r[..|tail|] == tail
    ensures forall k :: |tail| <= k < 128 ==> r[k] == 0
  {
    tail + seq(128 - |tail|, _ => 0 as bv8)
  }

  /// The number of blocks before the last one. The last block holds
  /// between 1 and 128 bytes, and is empty only for the empty message.
  function FullBlocks(length: nat): (n: nat)
    ensures length == 0 ==> n == 0
    ensures length > 0 ==> 128 * n < length <= 128 * n + 128
  {
    if length == 0 then 0 else (length - 1) / 128
  }

  /// The hash of `msg` from `h0` with link `F` for every block but the
  /// last and link `L` for the last block.
  function HashWith(F: Link, L: Link, h0: seq<bv64>, msg: seq<bv8>): (r: seq<bv64>)
    requires forall h, block, offset :: |F(h, block, offset)| == |h|
    requires forall h, block, offset :: |L(h, block, offset)| == |h|
    ensures |r| == |h0|
  {
    var n := FullBlocks(|msg|);
    L(Chain(F, h0, msg, n), msg[128 * n..], |msg|)
  }

  /// BLAKE2b of `msg` (no key) from the initial chaining value `h0`.
  function Hash(h0: seq<bv64>, msg: seq<bv8>): (r: seq<bv64>)
    requires |h0| == 8
    ensures |r| == 8
  {
    HashWith(FullBlock, LastBlock, h0, msg)
  }

  /// `F` and `L` are `FullBlock` and `LastBlock`. The quantifiers only
  /// fire on a `FullBlock` or `LastBlock` term, so a context that names the
  /// links `F` and `L` does not unfold the compression function.
  ghost predicate Links(F: Link, L: Link)
  {
    (forall h, block, offset :: |F(h, block, offset)| == |h|) &&
    (forall h, block, offset :: |L(h, block, offset)| == |h|) &&
    (forall h, block, offset {:trigger FullBlock(h, block, offset)} ::
       F(h, block, offset) == FullBlock(h, block, offset)) &&
    (forall h, block, offset {:trigger LastBlock(h, block, offset)} ::
       L(h, block, offset) == LastBlock(h, block, offset))
  }

  /// Links that agree with `FullBlock` and `LastBlock` compute `Hash`.
  lemma HashWithLinks(F: Link, L: Link, h0: seq<bv64>, msg: seq<bv8>)
    requires |h0| == 8 && Links(F, L)
    ensures HashWith(F, L, h0, msg) == Hash(h0, msg)
  {
    var n := FullBlocks(|msg|);
    ChainCongruent(F, FullBlock, h0, msg, n);
    var x := Chain(FullBlock, h0, msg, n);
    assert L(x, msg[128 * n..], |msg|) == LastBlock(x, msg[128 * n..], |msg|);
  }

  /// Adding `n` bytes to the counter the way the source does (wrapping add
  /// on `t[0]`, carry into `t[1]` when the sum wrapped) adds `n` modulo
  /// 2^128 to the 128-bit value `(t[1], t[0])`.
  lemma CounterAdd(t0: nat, t1: nat, n: nat)
    requires t0 < TWO64 && t1 < TWO64 && n <= 128
    ensures var t0' := (t0 + n) % TWO64;
            var t1' := if t0' < n then (t1 + 1) % TWO64 else t1;
            t1' * TWO64 + t0' == (t1 * TWO64 + t0 + n) % TWO128
  {
    var t0' := (t0 + n) % TWO64;
    if t0 + n < TWO64 {
      assert t0' == t0 + n;
      assert t1 * TWO64 + t0 + n < TWO128;
    } else {
      assert t0' == t0 + n - TWO64;
      if t1 + 1 < TWO64 {
        assert (t1 + 1) * TWO64 + t0' < TWO128;
      } else {
        assert t1 * TWO64 + t0 + n == TWO128 + t0';
      }
    }
  }

  /// `b2b_g`: mixes four words of the working vector in place.
  method B2bG(v: array<bv64>, a: Index16, b: Index16, c: Index16, d: Index16, x: bv64, y: bv64)
    requires v.Length == 16 && Distinct(a, b, c, d)
    modifies v
    ensures v[..] == G(old(v[..]), a, b, c, d, x, y)
  {
    var q := Mix(Quad(v[a], v[b], v[c], v[d]), x, y);
    v[a], v[b], v[c], v[d] := q.a, q.b, q.c, q.d;
  }

  /// The working vector of `blake2b_compress` before its rounds.
  method WorkingVector(h: array<bv64>, t0: bv64, t1: bv64, last: bool) returns (v: array<bv64>)
    requires h.Length == 8
    ensures fresh(v) && v.Length == 16 && v[..] == InitialVector(h[..], t0, t1, last)
  {
    v := new bv64[16](k requires 0 <= k < 16 reads h => if k < 8 then h[k] else IV[k - 8]);
    v[12] := Xor(v[12], t0);
    v[13] := Xor(v[13], t1);
    if last {
      v[14] := Not(v[14]);
    }
  }

  /// The last loop of `blake2b_compress`: `h[i] ^= v[i] ^ v[i + 8]`.
  method XorHalves(h: array<bv64>, v: array<bv64>)
    requires h.Length == 8 && v.Length == 16 && h != v
    modifies h
    ensures h[..] == FeedForward(old(h[..]), v[..])
  {
    for i := 0 to 8
      invariant forall k :: 0 <= k < i ==> h[k] == Xor(Xor(old(h[k]), v[k]), v[k + 8])
      invariant forall k :: i <= k < 8 ==> h[k] == old(h[k])
    {
      h[i] := Xor(Xor(h[i], v[i]), v[i + 8]);
    }
  }

  /// The column steps of one round of `blake2b_compress`, in place.
  method ColumnSteps(v: array<bv64>, m: seq<bv64>, s: ScheduleRow)
    requires v.Length == 16 && |m| == 16
    modifies v
    ensures v[..] == Columns(old(v[..]), m, s)
  {
    B2bG(v, 0, 4, 8, 12, m[s[0]], m[s[1]]);
    B2bG(v, 1, 5, 9, 13, m[s[2]], m[s[3]]);
    B2bG(v, 2, 6, 10, 14, m[s[4]], m[s[5]]);
    B2bG(v, 3, 7, 11, 15, m[s[6]], m[s[7]]);
  }

  /// The diagonal steps of one round of `blake2b_compress`, in place.
  method DiagonalSteps(v: array<bv64>, m: seq<bv64>, s: ScheduleRow)
    requires v.Length == 16 && |m| == 16
    modifies v
    ensures v[..] == Diagonals(old(v[..]), m, s)
  {
    B2bG(v, 0, 5, 10, 15, m[s[8]], m[s[9]]);
    B2bG(v, 1, 6, 11, 12, m[s[10]], m[s[11]]);
    B2bG(v, 2, 7, 8, 13, m[s[12]], m[s[13]]);
    B2bG(v, 3, 4, 9, 14, m[s[14]], m[s[15]]);
  }

  /// The twelve rounds of `blake2b_compress` on the working vector.
  method Rounds12(v: array<bv64>, m: seq<bv64>)
    requires v.Length == 16 && |m| == 16
    modifies v
    ensures v[..] == Rounds(old(v[..]), m, 12)
  {
    ghost var v0 := v[..];
    for i := 0 to 12
      invariant v[..] == Rounds(v0, m, i)
    {
      ghost var before := v[..];
      OneRound(v, m, i);
      assert Rounds(v0, m, i + 1) == Round(before, m, i);
    }
  }

  /// Round `i` of `blake2b_compress`, in place.
  method OneRound(v: array<bv64>, m: seq<bv64>, i: nat)
    requires v.Length == 16 && |m| == 16 && i < 12
    modifies v
    ensures v[..] == Round(old(v[..]), m, i)
  {
    var s := SIGMA[i];
    ColumnSteps(v, m, s);
    DiagonalSteps(v, m, s);
  }

  /// `blake2b_compress`: compresses the buffer `b`, read as little-endian
  /// words, into the chaining value `h` with counter words `t0`, `t1`.
  method Blake2bCompress(h: array<bv64>, b: array<bv8>, t0: nat, t1: nat, last: bool)
    requires h.Length == 8 && b.Length == 128 && t0 < TWO64 && t1 < TWO64
    modifies h
    ensures h[..] == Compress(old(h[..]), Words(b[..]), ToWord(t0), ToWord(t1), last)
  {
    var v := WorkingVector(h, ToWord(t0), ToWord(t1), last);
    var m := Words(b[..]);
    MixInto(h, v, m);
  }

  /// The twelve rounds on the working vector `v`, then the feed-forward of
  /// both halves of `v` into `h`.
  method MixInto(h: array<bv64>, v: array<bv64>, m: seq<bv64>)
    requires h.Length == 8 && v.Length == 16 && |m| == 16 && h != v
    modifies h, v
    ensures h[..] == FeedForward(old(h[..]), Rounds(old(v[..]), m, 12))
  {
    Rounds12(v, m);
    XorHalves(h, v);
  }

  /// `blake2b_compress` on a block that is not the last one.
  method CompressFullBlock(h: array<bv64>, b: array<bv8>, t0: nat, t1: nat, ghost offset: nat, ghost F: Link, ghost L: Link)
    requires h.Length == 8 && b.Length == 128 && t0 == Lo(offset) && t1 == Hi(offset) && Links(F, L)
    modifies h
    ensures h[..] == F(old(h[..]), b[..], offset)
  {
    ghost var h1 := h[..];
    Blake2bCompress(h, b, t0, t1, false);
    assert FullBlock(h1, b[..], offset) == Compress(h1, Words(b[..]), ToWord(t0), ToWord(t1), false);
  }

  /// `blake2b_compress` on the last block, the zero-padded `tail`.
  method CompressLastBlock(h: array<bv64>, b: array<bv8>, t0: nat, t1: nat, ghost tail: seq<bv8>, ghost length: nat, ghost F: Link, ghost L: Link)
    requires h.Length == 8 && b.Length == 128 && |tail| <= 128 && b[..] == Pad(tail)
    requires t0 == Lo(length) && t1 == Hi(length) && Links(F, L)
    modifies h
    ensures h[..] == L(old(h[..]), tail, length)
  {
    ghost var h1 := h[..];
    Blake2bCompress(h, b, t0, t1, true);
    assert LastBlock(h1, tail, length) == Compress(h1, Words(b[..]), ToWord(t0), ToWord(t1), true);
  }

  datatype Blake2bPanic = AlreadyFinalized | IncompatibleOutputLength

  // ---------------------------------------------------------------------
  // The streaming context

  /// A counter kept as two words below 2^64 whose value is `n` modulo
  /// 2^128 holds exactly the words `Lo(n)` and `Hi(n)`.
  lemma CounterWords(t0: nat, t1: nat, n: nat)
    requires t0 < TWO64 && t1 < TWO64 && t1 * TWO64 + t0 == n % TWO128
    ensures t0 == Lo(n) && t1 == Hi(n)
  {
  }

  /// Appending consecutive slices of `data`.
  lemma AppendSlice(start: seq<bv8>, data: seq<bv8>, i: nat, j: nat)
    requires i <= j <= |data|
    ensures start + data[..i] + data[i..j] == start + data[..j]
  {
    assert data[..i] + data[i..j] == data[..j];
  }

  /// Appending the rest of `data` after its first `i` bytes.
  lemma AppendRest(start: seq<bv8>, data: seq<bv8>, i: nat)
    requires i <= |data|
    ensures start + data[..i] + data[i..] == start + data
    ensures i == |data| ==> start + data[..i] == start + data
  {
    assert data[..i] + data[i..] == data;
    assert data[..|data|] == data;
  }

  /// Adding to a counter kept modulo 2^128.
  lemma CounterStep(x: nat, n: nat)
    ensures (x % TWO128 + n) % TWO128 == (x + n) % TWO128
  {
  }

  /// When `c` bytes are buffered after whole blocks (and at least one byte
  /// is buffered unless the message is empty), the buffered bytes are the
  /// last block of `HashWith`.
  lemma BufferedIsLast(length: nat, blocks: nat, c: nat)
    requires length == 128 * blocks + c && c <= 128 && (length > 0 ==> c > 0)
    ensures FullBlocks(length) == blocks
  {
    if length > 0 {
      assert length - 1 == 128 * blocks + (c - 1);
    }
  }

  class Blake2bCtx {
    const b: array<bv8>
    const h: array<bv64>
    var t0: nat
    var t1: nat
    var c: nat
    const outlen: nat
    var finalized: bool

    /// The initial chaining value and every byte absorbed so far.
    ghost const h0: seq<bv64>
    ghost var msg: seq<bv8>
    /// The number of blocks compressed so far.
    ghost var blocks: nat
    /// The compression of a full block and of the last block, named by the
    /// context so that its invariant mentions them without unfolding them.
    ghost const full: Link
    ghost const last: Link

    /// The counter `(t[1], t[0])` as one number.
    ghost function Counter(): nat
      reads this
    {
      t1 * TWO64 + t0
    }

    /// Array sizes, field ranges and the links.
    ghost predicate Shapes()
      reads this
    {
      b.Length == 128 && h.Length == 8 && |h0| == 8 &&
      c <= 128 && t0 < TWO64 && t1 < TWO64 && outlen <= 64 && Links(full, last)
    }

    /// While absorbing: the buffer holds the last `c` bytes of the message,
    /// the counter the number of bytes before them, and `h` the chaining
    /// value after the whole blocks before them.
    ghost predicate Buffered()
      reads this, b, h
    {
      Shapes() &&
      |msg| == 128 * blocks + c &&
      Counter() == (128 * blocks) % TWO128 &&
      b[..c] == msg[128 * blocks..] &&
      h[..] == Chain(full, h0, msg, blocks)
    }

    ghost predicate Valid()
      reads this, b, h
    {
      Shapes() &&
      if finalized then
        c == 128 && Counter() == |msg| % TWO128 && h[..] == HashWith(full, last, h0, msg)
      else
        Buffered() && (|msg| > 0 ==> c > 0)
    }

    /// A fresh context with chaining value `h0` and nothing absorbed.
    constructor (h0: seq<bv64>, outlen: nat)
      requires |h0| == 8 && outlen <= 64
      ensures Valid() && fresh(b) && fresh(h) && !finalized
      ensures this.h0 == h0 && this.outlen == outlen && msg == [] && h[..] == h0
    {
      b := new bv8[128](_ => 0);
      h := new bv64[8](k requires 0 <= k < 8 => h0[k]);
      t0, t1, c := 0, 0, 0;
      this.outlen := outlen;
      finalized := false;
      this.h0 := h0;
      msg := [];
      blocks := 0;
      full := FullBlock;
      last := LastBlock;
      new;
      assert h[..] == h0;
    }

    /// `blake2b_compress(ctx, false)` on a full block ending at `offset`.
    method CompressFull(ghost offset: nat)
      requires Shapes() && t0 == Lo(offset) && t1 == Hi(offset)
      modifies h
      ensures h[..] == full(old(h[..]), b[..], offset)
    {
      CompressFullBlock(h, b, t0, t1, offset, full, last);
    }

    /// `blake2b_compress(ctx, true)` on the padded last block `tail`.
    method CompressLast(ghost tail: seq<bv8>, ghost length: nat)
      requires Shapes() && |tail| <= 128 && b[..] == Pad(tail) && t0 == Lo(length) && t1 == Hi(length)
      modifies h
      ensures h[..] == last(old(h[..]), tail, length)
    {
      CompressLastBlock(h, b, t0, t1, tail, length, full, last);
    }

    /// Copies `src` into the buffer at `at` (`checked_mem_copy`).
    method CopyIntoBuffer(src: seq<bv8>, at: nat)
      requires b.Length == 128 && at + |src| <= 128
      modifies b
      ensures b[..] == old(b[..at]) + src + old(b[at + |src|..])
    {
      forall k | 0 <= k < |src| {
        b[at + k] := src[k];
      }
    }

    /// `t[0]` wrapping-adds `n`, carrying into `t[1]` when it wrapped.
    method AddToCounter(n: nat)
      requires t0 < TWO64 && t1 < TWO64 && n <= 128
      modifies this
      ensures t0 < TWO64 && t1 < TWO64 && Counter() == (old(Counter()) + n) % TWO128
      ensures c == old(c) && msg == old(msg) && blocks == old(blocks) && finalized == old(finalized)
    {
      CounterAdd(t0, t1, n);
      t0 := (t0 + n) % TWO64;
      if t0 < n {
        t1 := (t1 + 1) % TWO64;
      }
    }

    /// One pass of the loop of `blake2b_update`: tops the buffer up to a
    /// full block, counts it and compresses it.
    method AbsorbBlock(chunk: seq<bv8>)
      requires Buffered() && !finalized && c + |chunk| == 128
      modifies this, b, h
      ensures Buffered() && !finalized && c == 0 && msg == old(msg) + chunk
    {
      FillBuffer(chunk);
      ghost var n := blocks;
      CounterStep(128 * n, 128);
      AddToCounter(128);
      CounterWords(t0, t1, |msg|);
      CompressFull(|msg|);
      c := 0;
      blocks := n + 1;
      assert Counter() == (128 * blocks) % TWO128 by {
        assert 128 * n + 128 == 128 * blocks == |msg|;
      }
    }

    /// The copy that tops the buffer up to a full block.
    method FillBuffer(chunk: seq<bv8>)
      requires Buffered() && !finalized && c + |chunk| == 128
      modifies this, b
      ensures Shapes() && !finalized && c == old(c) && blocks == old(blocks)
      ensures t0 == old(t0) && t1 == old(t1) && msg == old(msg) + chunk
      ensures |msg| == 128 * blocks + 128 && b[..] == msg[128 * blocks..]
      ensures Chain(full, h0, msg, blocks + 1) == full(h[..], b[..], |msg|)
    {
      ghost var before := msg;
      CopyIntoBuffer(chunk, c);
      msg := msg + chunk;
      assert b[..] == msg[128 * blocks..128 * (blocks + 1)] by {
        assert b[..] == b[..c] + chunk;
      }
      ChainPrefix(full, h0, before, chunk, blocks);
    }

    /// The tail of `blake2b_update`: appends bytes that fit in the buffer.
    method BufferTail(chunk: seq<bv8>)
      requires Buffered() && !finalized && c + |chunk| <= 128
      modifies this, b
      ensures Buffered() && !finalized && c == old(c) + |chunk| && msg == old(msg) + chunk
    {
      ghost var before := msg;
      CopyIntoBuffer(chunk, c);
      msg := msg + chunk;
      assert b[..c + |chunk|] == b[..c] + chunk;
      ChainPrefix(full, h0, before, chunk, blocks);
      c := c + |chunk|;
    }

    /// `blake2b_update`: fills the buffer, compressing it each time more
    /// bytes arrive than fit, so a full buffer waits for the next update
    /// or for `final`.
    method Update(data: seq<bv8>) returns (r: Result<(), Blake2bPanic>)
      requires Valid()
      modifies this, b, h
      ensures Valid()
      ensures old(finalized) ==> r == Err(AlreadyFinalized) && unchanged(this, b, h)
      ensures !old(finalized) ==> r.Ok? && !finalized && msg == old(msg) + data
    {
      if finalized {
        return Err(AlreadyFinalized);
      }
      Absorb(data);
      r := Ok(());
    }

    /// The body of `blake2b_update` once the context is known not to be
    /// finalized.
    method Absorb(data: seq<bv8>)
      requires Buffered() && !finalized && (|msg| > 0 ==> c > 0)
      modifies this, b, h
      ensures Buffered() && !finalized && (|msg| > 0 ==> c > 0) && msg == old(msg) + data
    {
      var bytesToCopy: nat := |data|;
      var space: nat := 128 - c;
      var offset: nat := 0;
      ghost var start := msg;
      while bytesToCopy > space
        invariant offset + bytesToCopy == |data| && space == 128 - c
        invariant msg == start + data[..offset]
        invariant Buffered() && !finalized
        invariant (|msg| > 0 ==> c > 0) || bytesToCopy > 0
      {
        AbsorbBlock(data[offset..offset + space]);
        AppendSlice(start, data, offset, offset + space);
        offset := offset + space;
        bytesToCopy := bytesToCopy - space;
        space := 128;
      }
      if bytesToCopy > 0 {
        BufferTail(data[offset..]);
      }
      AppendRest(start, data, offset);
    }

    /// The zero fill of `blake2b_final`.
    method ZeroFill()
      requires b.Length == 128 && c <= 128
      modifies this, b
      ensures c == 128 && b[..] == Pad(old(b[..c]))
      ensures t0 == old(t0) && t1 == old(t1) && msg == old(msg) && finalized == old(finalized)
    {
      ghost var tail := b[..c];
      while c < 128
        invariant |tail| <= c <= 128
        invariant t0 == old(t0) && t1 == old(t1) && msg == old(msg) && finalized == old(finalized)
        invariant b[..|tail|] == tail
        invariant forall k :: |tail| <= k < c ==> b[k] == 0
      {
        b[c] := 0;
        c := c + 1;
      }
      assert b[..] == Pad(tail);
    }

    /// `blake2b_final`: adds the buffered bytes to the counter, zero-fills
    /// the rest of the buffer and compresses it as the last block.
    method Final() returns (r: Result<(), Blake2bPanic>)
      requires Valid()
      modifies this, b, h
      ensures Valid() && msg == old(msg)
      ensures old(finalized) ==> r == Err(AlreadyFinalized) && unchanged(this, b, h)
      ensures !old(finalized) ==> r.Ok? && finalized && h[..] == HashWith(full, last, h0, msg)
    {
      if finalized {
        return Err(AlreadyFinalized);
      }
      BufferedIsLast(|msg|, blocks, c);
      ghost var tail := b[..c];
      CounterStep(128 * blocks, c);
      AddToCounter(c);
      CounterWords(t0, t1, |msg|);
      ZeroFill();
      CompressLast(tail, |msg|);
      finalized := true;
      r := Ok(());
    }
  }

  /// `Blake2bHasher`: the context behind the standard `Hasher` interface.
  class Blake2bHasher {
    const ctx: Blake2bCtx

    ghost predicate Valid()
      reads this, ctx, ctx.b, ctx.h
    {
      ctx.Valid()
    }

    constructor (ctx: Blake2bCtx)
      requires ctx.Valid()
      ensures Valid() && this.ctx == ctx
    {
      this.ctx := ctx;
    }

    /// `write`: feeds the bytes to the context.
    method Write(bytes: seq<bv8>) returns (r: Result<(), Blake2bPanic>)
      requires Valid()
      modifies ctx, ctx.b, ctx.h
      ensures Valid()
      ensures old(ctx.finalized) ==> r.Err?
      ensures !old(ctx.finalized) ==> r.Ok? && ctx.msg == old(ctx.msg) + bytes
    {
      r := ctx.Update(bytes);
    }

    /// `finish`: the first chaining word; only for an 8-byte output.
    function Finish(): (r: Result<bv64, Blake2bPanic>)
      requires Valid()
      reads this, ctx, ctx.b, ctx.h
      ensures r.Ok? <==> ctx.outlen == 8
      ensures r.Ok? ==> r.value == ctx.h[0]
      ensures r.Ok? && ctx.finalized ==> r.value == Hash(ctx.h0, ctx.msg)[0]
    {
      HashWithLinks(ctx.full, ctx.last, ctx.h0, ctx.msg);
      if ctx.outlen != 8 then Err(IncompatibleOutputLength) else Ok(ctx.h[0])
    }

    /// `finalize`: runs `final` once, then returns the first `outlen`
    /// bytes of the chaining value.
    method Finalize() returns (out: seq<bv8>)
      requires Valid()
      modifies ctx, ctx.b, ctx.h
      ensures Valid() && ctx.finalized && ctx.msg == old(ctx.msg)
      ensures out == LeBytes(Hash(ctx.h0, ctx.msg))[..ctx.outlen]
      ensures old(ctx.finalized) ==> unchanged(ctx, ctx.b, ctx.h)
    {
      if !ctx.finalized {
        var _ := ctx.Final();
      }
      HashWithLinks(ctx.full, ctx.last, ctx.h0, ctx.msg);
      out := LeBytes(ctx.h[..])[..ctx.outlen];
    }
  }
}
