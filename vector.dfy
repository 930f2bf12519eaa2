/** The growable contiguous array of Vector/vector.h. A vector owns one
    RawMemory block and a size; the first `size` slots of the block hold the
    live elements and the slots at or beyond `size` are unconstrained.
    Iterators are positions 0..Size(). */
module Vectors {
  import opened RawStorage
  import opened Algorithms
  import opened Sequences
  import opened Growth

  class Vector<T(0)> {
    var data: RawMemory<T>
    var size: nat

    /** The object invariant: the live elements fit in the block. */
    ghost predicate Valid()
      reads this, data
    {
      size <= data.buffer.Length
    }

    /** The live elements, in order. */
    ghost function Contents(): seq<T>
      reads this, data, data.buffer
      requires Valid()
    {
      data.buffer[..size]
    }

    /** Vector(): empty, with no block. */
    constructor ()
      ensures Valid() && fresh(data) && fresh(data.buffer)
      ensures Contents() == [] && Capacity() == 0
    {
      data := new RawMemory.Empty();
      size := 0;
    }

    /** Vector(n): n value-initialised elements (`zero` stands for T()) in a
        block of exactly n slots. */
    constructor OfSize(n: nat, zero: T)
      ensures Valid() && fresh(data) && fresh(data.buffer)
      ensures Contents() == seq(n, _ => zero) && Capacity() == n
    {
      var raw := new RawMemory(n);
      FillN(raw.buffer, 0, n, zero);
      data := raw;
      size := n;
    }

    /** Vector(const Vector&): the same elements in a block of exactly
        other.Size() slots. */
    constructor Copy(other: Vector<T>)
      requires other.Valid()
      ensures Valid() && fresh(data) && fresh(data.buffer)
      ensures Contents() == other.Contents() && Capacity() == other.Size()
    {
      var raw := new RawMemory(other.size);
      CopyN(other.data.buffer, 0, other.size, raw.buffer, 0);
      data := raw;
      size := other.size;
    }

    /** Vector(Vector&&): takes over the block and the elements of `other`,
        which is left with no elements and no block. */
    constructor Move(other: Vector<T>)
      requires other.Valid()
      modifies other, other.data
      ensures Valid() && fresh(data) && data.buffer == old(other.data.buffer)
      ensures Contents() == old(other.Contents()) && Capacity() == old(other.Capacity())
      ensures other.Valid() && other.data == old(other.data) && fresh(other.data.buffer)
      ensures other.Contents() == [] && other.Capacity() == 0
    {
      data := new RawMemory.Take(other.data);
      size := other.size;
      other.size := 0;
    }

    function Size(): (r: nat)
      reads this, data, data.buffer
      requires Valid()
      ensures r == |Contents()|
    {
      size
    }

    /** The capacity never falls below the size. */
    function Capacity(): (r: nat)
      reads this, data
      requires Valid()
      ensures size <= r
    {
      data.Capacity()
    }

    function Empty(): (r: bool)
      reads this, data, data.buffer
      requires Valid()
      ensures r <==> Contents() == []
    {
      !(size > 0)
    }

    /** Reading operator[]: only live positions may be named. */
    method Get(index: nat) returns (x: T)
      requires Valid() && index < Size()
      ensures x == Contents()[index]
    {
      x := data.Get(index);
    }

    /** Writing through the reference operator[] returns. */
    method Set(index: nat, x: T)
      requires Valid() && index < Size()
      modifies data.buffer
      ensures Valid() && Contents() == old(Contents())[index := x]
    {
      data.Set(index, x);
    }

    /** MoveOrCopy: relocates the live elements to the front of `tmp`, then
        swaps blocks, so the vector owns tmp's block with the old elements in
        front and tmp's other slots unchanged, and tmp owns the old block. */
    method MoveOrCopy(tmp: RawMemory<T>)
      requires Valid() && size <= tmp.Capacity()
      requires tmp != data && tmp.buffer != data.buffer
      modifies data, tmp, tmp.buffer
      ensures Valid() && size == old(size)
      ensures data.buffer == old(tmp.buffer) && tmp.buffer == old(data.buffer)
      ensures data.buffer[..] == old(data.buffer[..size]) + old(tmp.buffer[size..])
    {
      CopyN(data.buffer, 0, size, tmp.buffer, 0);
      data.Swap(tmp);
    }

    /** Reserve(n): a no-op when n fits; otherwise the elements move to a fresh
        block of exactly n slots. */
    method Reserve(n: nat)
      requires Valid()
      modifies data
      ensures Valid() && size == old(size)
      ensures Contents() == old(Contents())
      ensures Capacity() == ReserveCapacity(old(Capacity()), n)
      ensures n <= old(Capacity()) ==> data.buffer == old(data.buffer)
      ensures n > old(Capacity()) ==> fresh(data.buffer)
    {
      if n <= data.Capacity() {
        return;
      }
      var tmp := new RawMemory(n);
      MoveOrCopy(tmp);
    }

    /** Swap: exchanges the elements and the blocks of two vectors. */
    method Swap(other: Vector<T>)
      requires Valid() && other.Valid()
      requires other == this || other.data != data
      modifies this, data, other, other.data
      ensures Valid() && other.Valid()
      ensures data == old(data) && other.data == old(other.data)
      ensures data.buffer == old(other.data.buffer) && other.data.buffer == old(data.buffer)
      ensures Contents() == old(other.Contents()) && other.Contents() == old(Contents())
      ensures Capacity() == old(other.Capacity()) && other.Capacity() == old(Capacity())
    {
      data.Swap(other.data);
      var mine := size;
      size := other.size;
      other.size := mine;
    }

    /** Resize(n): afterwards there are n elements; the first min(old size, n)
        are kept and the rest are value-initialised (`zero` stands for T()). */
    method Resize(n: nat, zero: T)
      requires Valid()
      modifies this, data, data.buffer
      ensures Valid() && data == old(data)
      ensures data.buffer == old(data.buffer) || fresh(data.buffer)
      ensures n <= old(Capacity()) ==> data.buffer == old(data.buffer)
      ensures Contents() == if n <= old(size) then old(Contents())[..n]
                            else old(Contents()) + seq(n - old(size), _ => zero)
      ensures Capacity() == ResizeCapacity(old(Capacity()), n)
    {
      // Shrinking destroys the tail, which leaves nothing to do on values.
      if n >= size {
        if n > Capacity() {
          Reserve(Max(Capacity() * 2, n));
        }
        FillN(data.buffer, size, n - size, zero);
      }
      size := n;
    }

    /** Emplace(pos, v), and Insert, which forwards to it: `v` ends up at
        position `pos` and the position is returned. A vector with a free slot
        shuffles in place; a full one moves to a block of AddOneCapacity slots,
        whatever `pos` is. Both paths give the same contents. */
    method Emplace(pos: nat, v: T) returns (it: nat)
      requires Valid() && pos <= Size()
      modifies this, data, data.buffer
      ensures Valid() && data == old(data)
      ensures data.buffer == old(data.buffer) || fresh(data.buffer)
      ensures old(Size()) < old(Capacity()) ==> data.buffer == old(data.buffer)
      ensures it == pos
      ensures Contents() == InsertAt(old(Contents()), pos, v)
      ensures Capacity() == AddOneCapacity(old(Size()), old(Capacity()))
    {
      if size < Capacity() {
        EmplaceInPlace(pos, v);
      } else {
        EmplaceRelocating(pos, v);
      }
      it := pos;
    }

    /** The free-slot path of Emplace (vector.h:164-173): the last element is
        moved into the free slot at the end, the elements from `pos` on are
        moved one slot to the right from the back, and `v` is assigned into
        slot `pos`. */
    method EmplaceInPlace(pos: nat, v: T)
      requires Valid() && pos <= Size() < Capacity()
      modifies this, data.buffer
      ensures Valid() && data == old(data) && data.buffer == old(data.buffer)
      ensures Contents() == InsertAt(old(Contents()), pos, v)
    {
      ghost var before := Contents();
      var buf := data.buffer;
      if pos != size {
        var element := v;
        buf[size] := buf[size - 1];
        MoveBackwardByOne(buf, pos, size - 1);
        buf[pos] := element;
      } else {
        buf[size] := v;
      }
      size := size + 1;
      assert forall i :: 0 <= i < size ==> Contents()[i] == InsertAt(before, pos, v)[i];
    }

    /** The full-vector path of Emplace (vector.h:175-193): `v` is constructed
        at slot `pos` of a fresh block of Doubled(size) slots, the elements
        before `pos` are relocated in front of it and the others after it, and
        the blocks are swapped. */
    method EmplaceRelocating(pos: nat, v: T)
      requires Valid() && pos <= Size() == Capacity()
      modifies this, data
      ensures Valid() && data == old(data) && fresh(data.buffer)
      ensures Contents() == InsertAt(old(Contents()), pos, v)
      ensures Capacity() == Doubled(old(Size()))
    {
      ghost var before := Contents();
      var tmp := new RawMemory(Doubled(size));
      tmp.buffer[pos] := v;
      CopyN(data.buffer, 0, pos, tmp.buffer, 0);
      CopyN(data.buffer, pos, size - pos, tmp.buffer, pos + 1);
      data.Swap(tmp);
      size := size + 1;
      assert forall i :: 0 <= i < size ==> Contents()[i] == InsertAt(before, pos, v)[i];
    }

    /** Insert(pos, value): the same as Emplace. */
    method Insert(pos: nat, value: T) returns (it: nat)
      requires Valid() && pos <= Size()
      modifies this, data, data.buffer
      ensures Valid() && data == old(data)
      ensures data.buffer == old(data.buffer) || fresh(data.buffer)
      ensures old(Size()) < old(Capacity()) ==> data.buffer == old(data.buffer)
      ensures it == pos
      ensures Contents() == InsertAt(old(Contents()), pos, value)
      ensures Capacity() == AddOneCapacity(old(Size()), old(Capacity()))
    {
      it := Emplace(pos, value);
    }

    /** EmplaceBack(v) as written: it emplaces at the beginning, so `v` becomes
        the first element and the position returned is 0. */
    method EmplaceBack(v: T) returns (it: nat)
      requires Valid()
      modifies this, data, data.buffer
      ensures Valid() && data == old(data)
      ensures data.buffer == old(data.buffer) || fresh(data.buffer)
      ensures old(Size()) < old(Capacity()) ==> data.buffer == old(data.buffer)
      ensures it == 0
      ensures Contents() == [v] + old(Contents())
      ensures Capacity() == AddOneCapacity(old(Size()), old(Capacity()))
    {
      it := Emplace(0, v);
    }

    /** EmplaceBack as its name and PushBack's commented-out call intend:
        emplacing at the end, so `v` becomes the last element. */
    method EmplaceBackAtEnd(v: T) returns (it: nat)
      requires Valid()
      modifies this, data, data.buffer
      ensures Valid() && data == old(data)
      ensures data.buffer == old(data.buffer) || fresh(data.buffer)
      ensures old(Size()) < old(Capacity()) ==> data.buffer == old(data.buffer)
      ensures it == old(Size())
      ensures Contents() == old(Contents()) + [v]
      ensures Capacity() == AddOneCapacity(old(Size()), old(Capacity()))
    {
      it := Emplace(size, v);
    }

    /** PushBack(v), both overloads: `v` is appended; a full vector first moves
        to a block of AddOneCapacity slots, with `v` constructed in it before
        the old elements are relocated. */
    method PushBack(v: T)
      requires Valid()
      modifies this, data, data.buffer
      ensures Valid() && data == old(data)
      ensures data.buffer == old(data.buffer) || fresh(data.buffer)
      ensures old(Size()) < old(Capacity()) ==> data.buffer == old(data.buffer)
      ensures Contents() == old(Contents()) + [v]
      ensures Capacity() == AddOneCapacity(old(Size()), old(Capacity()))
    {
      if size >= Capacity() {
        var tmp := new RawMemory(Doubled(size));
        tmp.buffer[size] := v;
        MoveOrCopy(tmp);
      } else {
        data.buffer[size] := v;
      }
      size := size + 1;
    }

    /** PopBack(): removes the last element; the block is untouched. */
    method PopBack()
      requires Valid() && Size() > 0
      modifies this
      ensures Valid() && data == old(data) && data.buffer == old(data.buffer)
      ensures Contents() == old(Contents())[..old(Size()) - 1]
      ensures Capacity() == old(Capacity())
    {
      size := size - 1;
    }

    /** Erase(pos): removes the element at `pos` by moving the tail one slot to
        the left, and returns `pos`; the block is kept. */
    method Erase(pos: nat) returns (it: nat)
      requires Valid() && pos < Size()
      modifies this, data.buffer
      ensures Valid() && data == old(data) && data.buffer == old(data.buffer)
      ensures it == pos
      ensures Contents() == RemoveAt(old(Contents()), pos)
      ensures Capacity() == old(Capacity())
    {
      var position := pos;
      MoveForwardByOne(data.buffer, position, size);
      size := size - 1;
      it := position;
    }

    /** Copy assignment: afterwards the elements are those of `rhs`. The block
        is kept when rhs's elements fit in it and is replaced by a copy of
        exactly rhs.Size() slots otherwise; self-assignment changes nothing. */
    method Assign(rhs: Vector<T>)
      requires Valid() && rhs.Valid()
      requires rhs == this || (rhs.data != data && rhs.data.buffer != data.buffer)
      modifies this, data, data.buffer
      ensures Valid() && data == old(data)
      ensures data.buffer == old(data.buffer) || fresh(data.buffer)
      ensures rhs == this || old(rhs.Size()) <= old(Capacity()) ==> data.buffer == old(data.buffer)
      ensures Contents() == old(rhs.Contents())
      ensures Capacity() == AssignCapacity(old(Capacity()), old(rhs.Size()))
      ensures rhs != this ==> rhs.data == old(rhs.data) && rhs.Valid()
      ensures rhs != this ==> rhs.Contents() == old(rhs.Contents())
    {
      if rhs != this {
        if rhs.size <= data.Capacity() {
          if rhs.size < size {
            CopyN(rhs.data.buffer, 0, rhs.size, data.buffer, 0);
            size := rhs.size;
          } else {
            CopyN(rhs.data.buffer, 0, size, data.buffer, 0);
            CopyN(rhs.data.buffer, size, rhs.size - size, data.buffer, size);
            size := rhs.size;
          }
        } else {
          var tmp := new Vector.Copy(rhs);
          Swap(tmp);
        }
      }
    }

    /** Move assignment: a swap, so `rhs` ends up with the old elements and
        block of this vector. */
    method MoveAssign(rhs: Vector<T>)
      requires Valid() && rhs.Valid()
      requires rhs == this || rhs.data != data
      modifies this, data, rhs, rhs.data
      ensures Valid() && rhs.Valid()
      ensures data == old(data) && rhs.data == old(rhs.data)
      ensures data.buffer == old(rhs.data.buffer) && rhs.data.buffer == old(data.buffer)
      ensures Contents() == old(rhs.Contents()) && rhs.Contents() == old(Contents())
      ensures Capacity() == old(rhs.Capacity()) && rhs.Capacity() == old(Capacity())
    {
      Swap(rhs);
    }
  }
}
