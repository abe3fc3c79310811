/// Option and Result, the model's stand-ins for Rust's `Option` and for
/// operations that can fail or panic, and sequence reversal, which several
/// loops of the engine perform by walking a list backwards.
module Wrappers {

  datatype Option<T> = None | Some(value: T)

  datatype Result<T, E> = Ok(value: T) | Err(error: E)

  /// `s` back to front.
  function Reverse<T>(s: seq<T>): (r: seq<T>)
    ensures |r| == |s|
    ensures forall i :: 0 <= i < |s| ==> r[i] == s[|s| - 1 - i]
  {
    if s == [] then [] else Reverse(s[1..]) + [s[0]]
  }

  lemma ReverseCons<T>(x: T, s: seq<T>)
    ensures Reverse([x] + s) == Reverse(s) + [x]
  {
    assert ([x] + s)[1..] == s;
  }

  /// Reversal turns a concatenation around.
  lemma ReverseAppend<T>(a: seq<T>, b: seq<T>)
    ensures Reverse(a + b) == Reverse(b) + Reverse(a)
  {
    var l, r := Reverse(a + b), Reverse(b) + Reverse(a);
    assert |l| == |r|;
    forall i | 0 <= i < |l|
      ensures l[i] == r[i]
    {
      if i < |b| {
        assert r[i] == Reverse(b)[i];
      } else {
        assert r[i] == Reverse(a)[i - |b|];
      }
    }
  }

  /// Dropping the front of a list drops the back of its reversal.
  lemma ReverseTail<T>(s: seq<T>)
    requires s != []
    ensures Reverse(s[1..]) == Reverse(s)[..|s| - 1]
  {
  }

  /// Concatenation is associative; a log that grows in two steps is the log
  /// grown by both at once.
  lemma AppendAssoc<T>(a: seq<T>, b: seq<T>, c: seq<T>)
    ensures (a + b) + c == a + (b + c)
  {
  }
}
