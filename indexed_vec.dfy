/// `IndexVec`: a vector indexed by a newtyped index, as used throughout the
/// compiler's data structures. The index type is either `usize` or `u32`
/// (the two `Idx` implementations); the backing `Vec` is the `raw` field.
module IndexedVec {
  import opened Wrappers

  const U32_MAX: nat := 0xFFFF_FFFF
  const USIZE_MAX: nat := 0xFFFF_FFFF_FFFF_FFFF

  /// The two implementations of the `Idx` trait.
  datatype IdxKind = Usize | U32

  /// A panic of the source: an `Idx::new` range assertion, or a `Vec`
  /// index out of bounds.
  datatype IdxPanic = IndexTooLarge | OutOfBounds

  /// `Idx::index`: both implementations widen to `usize` unchanged.
  function IdxIndex(kind: IdxKind, i: nat): nat
  {
    i
  }

  /// `Idx::new`: the identity for `usize`; for `u32` it first asserts that
  /// the index fits in 32 bits.
  function IdxNew(kind: IdxKind, idx: nat): (r: Result<nat, IdxPanic>)
    requires idx <= USIZE_MAX
    ensures kind == Usize ==> r.Ok?
    ensures kind == U32 ==> (r.Ok? <==> idx <= U32_MAX)
    ensures r.Ok? ==> IdxIndex(kind, r.value) == idx
  {
    if kind == U32 && idx > U32_MAX then Err(IndexTooLarge) else Ok(idx)
  }

  class IndexVec<T> {
    const kind: IdxKind
    var raw: seq<T>

    ghost predicate Valid()
      reads this
    {
      |raw| <= USIZE_MAX
    }

    /// `IndexVec::new`.
    constructor New(kind: IdxKind)
      ensures Valid() && this.kind == kind && raw == []
    {
      this.kind := kind;
      raw := [];
    }

    /// `IndexVec::with_capacity`: capacity is not observable in the model.
    constructor WithCapacity(kind: IdxKind, capacity: nat)
      ensures Valid() && this.kind == kind && raw == []
    {
      this.kind := kind;
      raw := [];
    }

    /// `IndexVec::from_elem`: one copy of `elem` per slot of `universe`.
    constructor FromElem<S>(elem: T, universe: IndexVec<S>)
      requires universe.Valid()
      ensures Valid() && kind == universe.kind
      ensures |raw| == universe.Len() && forall k :: 0 <= k < |raw| ==> raw[k] == elem
    {
      kind := universe.kind;
      raw := seq(universe.Len(), _ => elem);
    }

    /// `IndexVec::from_elem_n`.
    constructor FromElemN(kind: IdxKind, elem: T, n: nat)
      requires n <= USIZE_MAX
      ensures Valid() && this.kind == kind
      ensures |raw| == n && forall k :: 0 <= k < |raw| ==> raw[k] == elem
    {
      this.kind := kind;
      raw := seq(n, _ => elem);
    }

    function Len(): (r: nat)
      reads this
      ensures r == |raw|
    {
      |raw|
    }

    function IsEmpty(): (r: bool)
      reads this
      ensures r <==> raw == []
    {
      |raw| == 0
    }

    /// `last`: the index of the last slot, none for an empty vector.
    function Last(): (r: Result<Option<nat>, IdxPanic>)
      requires Valid()
      reads this
      ensures raw == [] ==> r == Ok(None)
      ensures raw != [] && (kind == Usize || |raw| - 1 <= U32_MAX) ==> r == Ok(Some(|raw| - 1))
      ensures r.Err? <==> kind == U32 && |raw| - 1 > U32_MAX
    {
      if |raw| == 0 then Ok(None)
      else
        var i := IdxNew(kind, |raw| - 1);
        if i.Err? then Err(i.error) else Ok(Some(i.value))
    }

    /// `get`: the slot at `index`, if it exists.
    function Get(index: nat): (r: Option<T>)
      reads this
      ensures r.Some? <==> IdxIndex(kind, index) < |raw|
      ensures r.Some? ==> r.value == raw[index]
    {
      var i := IdxIndex(kind, index);
      if i < |raw| then Some(raw[i]) else None
    }

    /// `push`: computes the new element's index first (which can fail the
    /// `u32` range assertion before anything is pushed), then appends.
    method Push(d: T) returns (r: Result<nat, IdxPanic>)
      requires Valid() && |raw| < USIZE_MAX
      modifies this
      ensures Valid()
      ensures r.Ok? ==> r.value == old(|raw|) && raw == old(raw) + [d]
      ensures r.Ok? ==> Get(r.value) == Some(d)
      ensures r.Err? <==> kind == U32 && old(|raw|) > U32_MAX
      ensures r.Err? ==> raw == old(raw)
    {
      r := IdxNew(kind, |raw|);
      if r.Ok? {
        raw := raw + [d];
      }
    }

    /// `swap`: exchanges two slots; `Vec::swap` panics on an index out of
    /// bounds, leaving the vector as it was.
    method Swap(a: nat, b: nat) returns (r: Result<(), IdxPanic>)
      modifies this
      ensures r.Ok? <==> a < old(|raw|) && b < old(|raw|)
      ensures r.Err? ==> raw == old(raw)
      ensures r.Ok? ==> |raw| == old(|raw|) && raw[a] == old(raw[b]) && raw[b] == old(raw[a])
      ensures r.Ok? ==> forall k :: 0 <= k < |raw| && k != a && k != b ==> raw[k] == old(raw[k])
    {
      if a < |raw| && b < |raw| {
        var x, y := raw[a], raw[b];
        raw := raw[a := y][b := x];
        r := Ok(());
      } else {
        r := Err(OutOfBounds);
      }
    }

    /// `truncate`: keeps the first `min(a, len)` slots.
    method Truncate(a: nat)
      requires Valid()
      modifies this
      ensures Valid()
      ensures a <= old(|raw|) ==> raw == old(raw[..a])
      ensures a > old(|raw|) ==> raw == old(raw)
    {
      if a < |raw| {
        raw := raw[..a];
      }
    }

    /// `resize`: keeps the prefix of length `min(newLen, len)` and fills any
    /// new slots with `value`.
    method Resize(newLen: nat, value: T)
      requires newLen <= USIZE_MAX
      modifies this
      ensures Valid() && |raw| == newLen
      ensures forall k :: 0 <= k < newLen && k < old(|raw|) ==> raw[k] == old(raw[k])
      ensures forall k :: old(|raw|) <= k < newLen ==> raw[k] == value
    {
      if newLen <= |raw| {
        raw := raw[..newLen];
      } else {
        raw := raw + seq(newLen - |raw|, _ => value);
      }
    }
  }
}
