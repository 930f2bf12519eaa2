/** The standard-library range algorithms that Vector/vector.h calls, as
    loops over arrays, specialised to the ways the vector calls them. On
    values a move and a copy are the same thing, so uninitialized_copy_n,
    uninitialized_move_n and std::copy are all CopyN, and placement
    construction is an ordinary array update. */
module Algorithms {

  /** Copies src[from..from + n] onto dst[to..to + n]; no other slot of dst
      changes. The two blocks are distinct. */
  method CopyN<T>(src: array<T>, from: nat, n: nat, dst: array<T>, to: nat)
    requires src != dst
    requires from + n <= src.Length && to + n <= dst.Length
    modifies dst
    ensures forall k :: 0 <= k < dst.Length ==>
              dst[k] == if to <= k < to + n then src[from + k - to] else old(dst[k])
  {
    var i := 0;
    while i < n
      invariant i <= n
      invariant forall k :: 0 <= k < dst.Length ==>
                  dst[k] == if to <= k < to + i then src[from + k - to] else old(dst[k])
    {
      dst[to + i] := src[from + i];
      i := i + 1;
    }
  }

  /** uninitialized_value_construct_n: sets a[from..from + n] to the
      value-initialised element `zero`; no other slot changes. */
  method FillN<T>(a: array<T>, from: nat, n: nat, zero: T)
    requires from + n <= a.Length
    modifies a
    ensures forall k :: 0 <= k < a.Length ==>
              a[k] == if from <= k < from + n then zero else old(a[k])
  {
    var i := 0;
    while i < n
      invariant i <= n
      invariant forall k :: 0 <= k < a.Length ==>
                  a[k] == if from <= k < from + i then zero else old(a[k])
    {
      a[from + i] := zero;
      i := i + 1;
    }
  }

  /** std::move_backward(first, last, last + 1): moves a[first..last] one slot
      to the right, from the back, so a[first] keeps its old value. */
  method MoveBackwardByOne<T>(a: array<T>, first: nat, last: nat)
    requires first <= last < a.Length
    modifies a
    ensures forall k :: 0 <= k < a.Length ==>
              a[k] == if first < k <= last then old(a[k - 1]) else old(a[k])
  {
    var i := last;
    while i > first
      invariant first <= i <= last
      invariant forall k :: 0 <= k < a.Length ==>
                  a[k] == if i < k <= last then old(a[k - 1]) else old(a[k])
    {
      a[i] := a[i - 1];
      i := i - 1;
    }
  }

  /** std::move(first + 1, last, first): moves a[first + 1..last] one slot to
      the left, from the front, so a[last - 1] keeps its old value. */
  method MoveForwardByOne<T>(a: array<T>, first: nat, last: nat)
    requires first < last <= a.Length
    modifies a
    ensures forall k :: 0 <= k < a.Length ==>
              a[k] == if first <= k < last - 1 then old(a[k + 1]) else old(a[k])
  {
    var i := first;
    while i + 1 < last
      invariant first <= i < last
      invariant forall k :: 0 <= k < a.Length ==>
                  a[k] == if first <= k < i then old(a[k + 1]) else old(a[k])
    {
      a[i] := a[i + 1];
      i := i + 1;
    }
  }
}
