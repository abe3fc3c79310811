/// LEB128 ("little-endian base 128") encoders of the compiler's metadata
/// writer, as described in section 7.6 of the DWARF Version 4 standard.
/// The encoders hand every byte to a `write(position, byte)` callback; the
/// model records those calls, in order, as a log of `Write` records.
module Leb128 {

  type byte = x: int | 0 <= x < 256

  /// 2^128: `u128` values lie in [0, U128_BOUND), `i128` values in
  /// [-U128_BOUND / 2, U128_BOUND / 2).
  const U128_BOUND: int := 0x1_0000_0000_0000_0000_0000_0000_0000_0000
  type u128 = x: int | 0 <= x < U128_BOUND
  type i128 = x: int | -U128_BOUND / 2 <= x < U128_BOUND / 2

  /// One call of the `write` callback.
  datatype Write = Write(position: nat, value: byte)

  function Pow128(k: nat): (r: nat)
    ensures r >= 1
  {
    if k == 0 then 1 else 128 * Pow128(k - 1)
  }

  lemma Pow128Table()
    ensures U128_BOUND / 2 <= 64 * Pow128(18) && U128_BOUND <= Pow128(19)
  {
    assert Pow128(1) == 128;
    assert Pow128(2) == 16384;
    assert Pow128(3) == 2097152;
    assert Pow128(4) == 268435456;
    assert Pow128(5) == 34359738368;
    assert Pow128(6) == 4398046511104;
    assert Pow128(7) == 562949953421312;
    assert Pow128(8) == 72057594037927936;
    assert Pow128(9) == 9223372036854775808;
    assert Pow128(10) == 1180591620717411303424;
    assert Pow128(11) == 151115727451828646838272;
    assert Pow128(12) == 19342813113834066795298816;
    assert Pow128(13) == 2475880078570760549798248448;
    assert Pow128(14) == 316912650057057350374175801344;
    assert Pow128(15) == 40564819207303340847894502572032;
    assert Pow128(16) == 5192296858534827628530496329220096;
    assert Pow128(17) == 664613997892457936451903530140172288;
    assert Pow128(18) == 85070591730234615865843651857942052864;
    assert Pow128(19) == 10889035741470030830827987437816582766592;
  }

  // ---------------------------------------------------------------------
  // Reference encodings and decodings

  /// The unsigned encoding of `v`: seven bits per byte, least significant
  /// group first, bit 0x80 set on every byte that is followed by another.
  function UnsignedBytes(v: nat): seq<byte>
    decreases v
  {
    if v / 128 == 0 then [v % 128] else [v % 128 + 128] + UnsignedBytes(v / 128)
  }

  /// Reads the low seven bits of each byte as little-endian base-128 digits.
  function DecodeUnsigned(bs: seq<byte>): nat
  {
    if bs == [] then 0 else bs[0] % 128 + 128 * DecodeUnsigned(bs[1..])
  }

  /// A measure that shrinks under an arithmetic right shift by seven bits
  /// until the value is 0 or -1 (it is `v` for `v >= 0` and `!v` otherwise).
  function Magnitude(v: int): nat
  {
    if v >= 0 then v else -v - 1
  }

  /// The signed encoder stops once the remaining value is 0 and bit 0x40 of
  /// the byte is clear, or the remaining value is -1 and bit 0x40 is set.
  predicate SignedLast(low: int, rest: int)
  {
    (rest == 0 && low < 64) || (rest == -1 && low >= 64)
  }

  lemma ShiftShrinks(v: int)
    requires !SignedLast(v % 128, v / 128)
    ensures Magnitude(v / 128) < Magnitude(v)
  {
    var low, rest := v % 128, v / 128;
    assert v == 128 * rest + low;
    if v < 0 {
      assert rest <= -1;
      assert v != -1;
      assert rest > v;
    }
  }

  /// The signed encoding of `v` (two's complement, seven bits per byte).
  /// Dafny's `/` and `%` by the positive constant 128 are the floor
  /// quotient and the non-negative remainder, which is exactly what an
  /// arithmetic shift by seven and a mask with 0x7f compute on an `i128`.
  function SignedBytes(v: int): seq<byte>
    decreases Magnitude(v)
  {
    var low, rest := v % 128, v / 128;
    if SignedLast(low, rest) then [low]
    else
      ShiftShrinks(v);
      [low + 128] + SignedBytes(rest)
  }

  /// Signed decoding: the unsigned reading, sign-extended from bit 0x40 of
  /// the last byte.
  function DecodeSigned(bs: seq<byte>): int
    requires bs != []
  {
    DecodeUnsigned(bs) - (if bs[|bs| - 1] % 128 >= 64 then Pow128(|bs|) else 0)
  }

  // ---------------------------------------------------------------------
  // Properties of the reference encodings

  /// Every byte but the last carries the continuation bit 0x80, the last
  /// does not, and there is at least one byte; zero is the single byte 0x00.
  lemma {:induction false} UnsignedContinuation(v: nat)
    ensures |UnsignedBytes(v)| >= 1
    ensures v == 0 ==> UnsignedBytes(v) == [0]
    ensures forall k :: 0 <= k < |UnsignedBytes(v)| - 1 ==> UnsignedBytes(v)[k] >= 128
    ensures UnsignedBytes(v)[|UnsignedBytes(v)| - 1] < 128
    decreases v
  {
    if v / 128 != 0 {
      UnsignedContinuation(v / 128);
    }
  }

  /// Decoding the unsigned encoding gives back the value.
  lemma {:induction false} UnsignedRoundTrip(v: nat)
    ensures DecodeUnsigned(UnsignedBytes(v)) == v
    decreases v
  {
    if v / 128 != 0 {
      UnsignedRoundTrip(v / 128);
      assert UnsignedBytes(v)[1..] == UnsignedBytes(v / 128);
    }
  }

  /// A value below 128^k needs at most k bytes.
  lemma {:induction false} UnsignedLength(v: nat, k: nat)
    requires k >= 1 && v < Pow128(k)
    ensures |UnsignedBytes(v)| <= k
    decreases k
  {
    if v / 128 != 0 {
      assert Pow128(1) == 128;
      assert k >= 2;
      assert v / 128 < Pow128(k - 1);
      UnsignedLength(v / 128, k - 1);
    }
  }

  /// Every `u128` encodes in at most 19 bytes (7 * 19 = 133 >= 128 bits).
  lemma U128AtMost19Bytes(v: u128)
    ensures |UnsignedBytes(v)| <= 19
  {
    Pow128Table();
    UnsignedLength(v, 19);
  }

  /// Every byte but the last of the signed encoding carries 0x80, the last
  /// does not, and the last byte is exactly where the stop rule fires.
  lemma {:induction false} SignedContinuation(v: int)
    ensures |SignedBytes(v)| >= 1
    ensures forall k :: 0 <= k < |SignedBytes(v)| - 1 ==> SignedBytes(v)[k] >= 128
    ensures SignedBytes(v)[|SignedBytes(v)| - 1] < 128
    decreases Magnitude(v)
  {
    if !SignedLast(v % 128, v / 128) {
      ShiftShrinks(v);
      SignedContinuation(v / 128);
    }
  }

  /// Signed decoding with sign extension gives back the value.
  lemma {:induction false} SignedRoundTrip(v: int)
    ensures SignedBytes(v) != [] && DecodeSigned(SignedBytes(v)) == v
    decreases Magnitude(v)
  {
    var low, rest := v % 128, v / 128;
    if SignedLast(low, rest) {
      assert SignedBytes(v) == [low];
      assert DecodeUnsigned([low]) == low by {
        assert [low][1..] == [];
      }
      assert Pow128(1) == 128;
    } else {
      ShiftShrinks(v);
      SignedRoundTrip(rest);
      var tail := SignedBytes(rest);
      var bs := SignedBytes(v);
      assert bs == [low + 128] + tail;
      assert bs[1..] == tail;
      assert bs[|bs| - 1] == tail[|tail| - 1];
      assert Pow128(|bs|) == 128 * Pow128(|tail|);
    }
  }

  /// A value in [-64 * 128^(k-1), 64 * 128^(k-1)) needs at most k bytes.
  lemma {:induction false} SignedLength(v: int, k: nat)
    requires k >= 1 && -64 * Pow128(k - 1) <= v < 64 * Pow128(k - 1)
    ensures |SignedBytes(v)| <= k
    decreases k
  {
    var low, rest := v % 128, v / 128;
    assert v == 128 * rest + low;
    if k == 1 {
      assert -64 <= v < 64;
      assert SignedLast(low, rest);
    } else if !SignedLast(low, rest) {
      assert -64 * Pow128(k - 2) <= rest < 64 * Pow128(k - 2);
      SignedLength(rest, k - 1);
    }
  }

  /// Every `i128` encodes in at most 19 signed bytes.
  lemma I128AtMost19Bytes(v: i128)
    ensures |SignedBytes(v)| <= 19
  {
    Pow128Table();
    SignedLength(v, 19);
  }

  // ---------------------------------------------------------------------
  // The encoders

  /// One turn of the unsigned encoder: the byte written at `position` is
  /// the next byte of the encoding, and what is left to write is the
  /// encoding of `v / 128`, or nothing once that is 0.
  lemma UnsignedStep(all: seq<byte>, position: nat, v: nat)
    requires position <= |all| && all == all[..position] + UnsignedBytes(v)
    ensures position < |all|
    ensures all[position] == if v / 128 != 0 then v % 128 + 128 else v % 128
    ensures v / 128 == 0 ==> all == all[..position + 1]
    ensures v / 128 != 0 ==> all == all[..position + 1] + UnsignedBytes(v / 128)
  {
    var rest := UnsignedBytes(v);
    assert all[position..] == rest;
    if v / 128 != 0 {
      assert all[position + 1..] == rest[1..] == UnsignedBytes(v / 128);
      assert all == all[..position + 1] + all[position + 1..];
    }
  }

  /// One turn of the signed encoder, as `UnsignedStep`.
  lemma SignedStep(all: seq<byte>, position: nat, v: int)
    requires position <= |all| && all == all[..position] + SignedBytes(v)
    ensures position < |all|
    ensures all[position] == if SignedLast(v % 128, v / 128) then v % 128 else v % 128 + 128
    ensures SignedLast(v % 128, v / 128) ==> all == all[..position + 1]
    ensures !SignedLast(v % 128, v / 128) ==> all == all[..position + 1] + SignedBytes(v / 128)
  {
    var rest := SignedBytes(v);
    assert all[position..] == rest;
    if !SignedLast(v % 128, v / 128) {
      assert all[position + 1..] == rest[1..] == SignedBytes(v / 128);
      assert all == all[..position + 1] + all[position + 1..];
    }
  }

  /// `write_unsigned_leb128_to`: emits the unsigned encoding byte by byte
  /// at positions 0, 1, ..., n - 1 and returns n.
  method WriteUnsignedLeb128To(value: u128) returns (position: nat, writes: seq<Write>)
    ensures 1 <= position <= 19 && position == |writes| == |UnsignedBytes(value)|
    ensures forall k :: 0 <= k < |writes| ==> writes[k].position == k
    ensures forall k :: 0 <= k < |writes| ==> writes[k].value == UnsignedBytes(value)[k]
  {
    ghost var all := UnsignedBytes(value);
    U128AtMost19Bytes(value);
    var v: nat := value;
    position := 0;
    writes := [];
    while true
      invariant position == |writes|
      invariant position <= |all| && all == all[..position] + UnsignedBytes(v)
      invariant forall k :: 0 <= k < position ==> writes[k] == Write(k, all[k])
      decreases v
    {
      UnsignedStep(all, position, v);
      var byte: byte := v % 128;
      v := v / 128;
      if v != 0 {
        byte := byte + 128;
      }
      writes := writes + [Write(position, byte)];
      position := position + 1;
      if v == 0 {
        break;
      }
    }
  }

  /// `write_signed_leb128_to`: emits the signed encoding byte by byte at
  /// positions 0, 1, ..., n - 1 and returns n.
  method WriteSignedLeb128To(value: i128) returns (position: nat, writes: seq<Write>)
    ensures 1 <= position <= 19 && position == |writes| == |SignedBytes(value)|
    ensures forall k :: 0 <= k < |writes| ==> writes[k].position == k
    ensures forall k :: 0 <= k < |writes| ==> writes[k].value == SignedBytes(value)[k]
  {
    ghost var all := SignedBytes(value);
    I128AtMost19Bytes(value);
    var v: int := value;
    position := 0;
    writes := [];
    while true
      invariant position == |writes|
      invariant position <= |all| && all == all[..position] + SignedBytes(v)
      invariant forall k :: 0 <= k < position ==> writes[k] == Write(k, all[k])
      decreases Magnitude(v)
    {
      SignedStep(all, position, v);
      var before := v;
      var byte: byte := v % 128;
      v := v / 128;
      var more := !((v == 0 && byte < 64) || (v == -1 && byte >= 64));
      if more {
        byte := byte + 128;
      }
      writes := writes + [Write(position, byte)];
      position := position + 1;
      if !more {
        break;
      }
      ShiftShrinks(before);
    }
  }
}
