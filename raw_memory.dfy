/** The raw storage layer of Vector/vector.h: an owner of a block of element
    slots that it never treats as live elements. A slot nobody has constructed
    yet holds whatever the default value of T is; the owner of the block (the
    vector) is the one that knows which slots are live. */
module RawStorage {

  class RawMemory<T(0)> {
    /** The block. Its length is the capacity in elements; a block of length 0
        stands for the null buffer of an empty RawMemory. */
    var buffer: array<T>

    /** RawMemory(): the empty block. */
    constructor Empty()
      ensures Capacity() == 0 && fresh(buffer)
    {
      buffer := new T[0];
    }

    /** RawMemory(capacity): a fresh block of exactly `capacity` slots. */
    constructor (capacity: nat)
      ensures Capacity() == capacity && fresh(buffer)
    {
      buffer := new T[capacity];
    }

    /** RawMemory(RawMemory&&): takes over the block of `other`, which is left
        empty. */
    constructor Take(other: RawMemory<T>)
      modifies other
      ensures buffer == old(other.buffer)
      ensures other.Capacity() == 0 && fresh(other.buffer)
    {
      buffer := other.buffer;
      other.buffer := new T[0];
    }

    /** RawMemory::Capacity(): the number of slots in the block. */
    function Capacity(): (r: nat)
      reads this
      ensures r == buffer.Length
    {
      buffer.Length
    }

    /** Reading through operator[]: only slots below the capacity may be named. */
    method Get(index: nat) returns (x: T)
      requires index < Capacity()
      ensures x == buffer[index]
    {
      x := buffer[index];
    }

    /** Writing through the reference operator[] returns; no other slot changes. */
    method Set(index: nat, x: T)
      requires index < Capacity()
      modifies buffer
      ensures buffer[..] == old(buffer[..])[index := x]
    {
      buffer[index] := x;
    }

    /** Exchanges the blocks (and with them the capacities) of two owners;
        no slot of either block changes. */
    method Swap(other: RawMemory<T>)
      modifies this, other
      ensures buffer == old(other.buffer) && other.buffer == old(buffer)
      ensures buffer[..] == old(other.buffer[..]) && other.buffer[..] == old(buffer[..])
    {
      var mine := buffer;
      buffer := other.buffer;
      other.buffer := mine;
    }
  }
}
