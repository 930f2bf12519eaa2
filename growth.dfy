/** The capacity rules of Vector/vector.h as functions of the size and the
    capacity before the call, and what they add up to. */
module Growth {

  /** The capacity a full vector of `size` elements reallocates to when one
      element is added: twice the size, or 1 for an empty vector
      (vector.h:177, 217, 233). The new block always has room for one more. */
  function Doubled(size: nat): (r: nat)
    ensures size < r && r <= 2 * size + 1
    ensures size > 0 ==> r == 2 * size
  {
    if size == 0 then 1 else size * 2
  }

  /** Capacity after PushBack or Emplace on a vector with `size` elements and
      capacity `cap`: unchanged while there is a free slot, doubled otherwise. */
  function AddOneCapacity(size: nat, cap: nat): (r: nat)
    ensures size < r && cap <= r
    ensures size < cap <==> r == cap
  {
    if size >= cap then Doubled(size) else cap
  }

  function Max(a: nat, b: nat): (r: nat)
    ensures r >= a && r >= b && (r == a || r == b)
  {
    if a >= b then a else b
  }

  /** Capacity after Resize(n) (vector.h:151-153): grows to at least n and at
      least twice the old capacity when n does not fit, unchanged otherwise. */
  function ResizeCapacity(cap: nat, n: nat): (r: nat)
    ensures n <= r && cap <= r
    ensures n <= cap <==> r == cap
    ensures n > cap ==> r == Max(2 * cap, n)
  {
    if n > cap then Max(cap * 2, n) else cap
  }

  /** Capacity after Reserve(n) (vector.h:133-137): exactly n when it grows. */
  function ReserveCapacity(cap: nat, n: nat): (r: nat)
    ensures n <= r && cap <= r
    ensures r == cap || r == n
  {
    if n <= cap then cap else n
  }

  /** Capacity after copy assignment from a vector of `rhsSize` elements
      (vector.h:264, 277): kept when the right-hand side fits, exactly the
      right-hand side's size otherwise. */
  function AssignCapacity(cap: nat, rhsSize: nat): (r: nat)
    ensures rhsSize <= r && cap <= r
    ensures rhsSize <= cap <==> r == cap
  {
    if rhsSize <= cap then cap else rhsSize
  }

  /** Capacity of a vector that started empty after `n` PushBack calls. */
  function CapacityAfterPushes(n: nat): (r: nat)
  {
    if n == 0 then 0 else AddOneCapacity(n - 1, CapacityAfterPushes(n - 1))
  }

  ghost predicate IsPowerOfTwo(c: nat)
    decreases c
  {
    c == 1 || (c > 1 && c % 2 == 0 && IsPowerOfTwo(c / 2))
  }

  /** Geometric growth: after n >= 1 pushes onto an empty vector its capacity
      is the least power of two that is at least n, so it never exceeds
      2^ceil(log2 n) and the number of reallocations is logarithmic. */
  lemma {:induction false} PushesGrowGeometrically(n: nat)
    requires n > 0
    ensures IsPowerOfTwo(CapacityAfterPushes(n))
    ensures n <= CapacityAfterPushes(n) < 2 * n
  {
    if n > 1 {
      PushesGrowGeometrically(n - 1);
      var c := CapacityAfterPushes(n - 1);
      if n - 1 >= c {
        assert (2 * c) / 2 == c;
      }
    }
  }
}
