# A verified model of a growable contiguous array

This project models `Vector/vector.h`, a hand-written growable array in two layers.

- `RawMemory<T>` owns a block of element slots and never constructs or destroys elements. It offers bounds-checked indexed access, an O(1) swap, and a move constructor that leaves its source empty.
- `Vector<T>` puts a size on top of one `RawMemory` block. The first `size` slots hold the live elements. It grows by relocating the elements into a fresh block.

The model is imperative, as the source is:

- `RawStorage.RawMemory` is a class over an `array<T>`. Its length is the capacity.
- `Vectors.Vector` is a class with a `data: RawMemory<T>` field and a `size: nat` field.
- `Valid()` is the invariant `size <= capacity`. The ghost function `Contents()` gives the live elements, `data.buffer[..size]`.
- Every mutating member is a method whose `ensures` gives the new contents in terms of `old(Contents())`, and the new capacity in terms of the old size and capacity.
- Reallocation always follows the same steps: allocate a fresh block, copy the elements with a loop (`Algorithms.CopyN`), then swap blocks.
- The in-place shuffle of `Emplace` and the tail shift of `Erase` are array loops (`Algorithms.MoveBackwardByOne`, `Algorithms.MoveForwardByOne`).
- The capacity rules are functions in module `Growth`, with a lemma about where repeated pushes lead.
- Module `Sequences` holds the positional edits that insertion and erasure perform on the contents.

Conventions:

- Iterators are positions `0..Size()`, so `begin()` is 0 and `end()` is `Size()`.
- A slot nobody has constructed holds an arbitrary value of `T`. Element types are `T(0)` only so that a block can be allocated.
- Value-initialisation `T()` is the parameter `zero` of `OfSize` and `Resize`.
- Operations on two vectors require that the two own distinct storage, as exclusive ownership in the source guarantees. Self-swap and self-assignment are allowed.

Module `Scenarios` restates the checks of `Vector/main.cpp` as client methods. They use only the contracts. They are examples, not part of the core.

Where the code and its documented intent differ, this model follows the code. `EmplaceBack` emplaces at the beginning, not at the end (see Findings).

## Model

| member | source | states |
|---|---|---|
| `RawStorage.RawMemory.Empty` | Vector/vector.h:12 | the default block has capacity 0 |
| `RawStorage.RawMemory.constructor` | Vector/vector.h:14-17 | a fresh block of exactly `capacity` slots |
| `RawStorage.RawMemory.Take` | Vector/vector.h:22-25 | the new owner holds the source's block; the source is left with capacity 0 |
| `RawStorage.RawMemory.Capacity` | Vector/vector.h:75-77 | the capacity is the block's length |
| `RawStorage.RawMemory.Get` | Vector/vector.h:53-60 | indexed access requires `index < Capacity()` and yields that slot |
| `RawStorage.RawMemory.Set` | Vector/vector.h:57-60 | writing through the index changes that slot only, and requires `index < Capacity()` |
| `RawStorage.RawMemory.Swap` | Vector/vector.h:62-65 | the two owners exchange their blocks (so their capacities); no slot changes |
| `Algorithms.CopyN` | Vector/vector.h:337-340 | the n source slots land in the target range of another block; the target's other slots are unchanged |
| `Algorithms.FillN` | Vector/vector.h:155 | the n slots from `from` become the value-initialised element; the others are unchanged |
| `Algorithms.MoveBackwardByOne` | Vector/vector.h:168 | the range moves one slot to the right; slots outside the shifted-into range are unchanged |
| `Algorithms.MoveForwardByOne` | Vector/vector.h:255 | the range moves one slot to the left; slots outside the shifted-into range are unchanged |
| `Sequences.InsertAt` | Vector/vector.h:160-198 | the result is one longer, with `v` at `p`, the prefix in place and the tail one position later |
| `Sequences.RemoveAt` | Vector/vector.h:253-260 | the result is one shorter, with the prefix in place and the tail one position earlier |
| `Sequences.RemoveAfterInsert` | Vector/vector.h:253-260 | erasing at the position just inserted at restores the original contents |
| `Sequences.InsertAfterRemove` | Vector/vector.h:253-260 | inserting the erased element back at its position restores the original contents |
| `Sequences.FrontInsertIsAppendIff` | Vector/vector.h:200-203 | inserting at the front equals appending iff every element already equals the new one (so tests on empty or uniform vectors cannot see what EmplaceBack does) |
| `Growth.Doubled` | Vector/vector.h:177 | the reallocation size always has room for one more element: 1 for an empty vector, twice the size otherwise |
| `Growth.AddOneCapacity` | Vector/vector.h:213-217 | adding one element keeps the capacity iff a slot was free; either way the capacity exceeds the old size |
| `Growth.ResizeCapacity` | Vector/vector.h:151-153 | after Resize the capacity covers n; it is unchanged iff n fits, and otherwise it is `max(2*cap, n)` |
| `Growth.ReserveCapacity` | Vector/vector.h:132-139 | after Reserve the capacity covers n and is either the old capacity or exactly n |
| `Growth.AssignCapacity` | Vector/vector.h:264-279 | after copy assignment the capacity covers the right-hand side's size; it is unchanged iff that size fits |
| `Growth.PushesGrowGeometrically` | Vector/vector.h:213-227 | after n >= 1 pushes onto an empty vector the capacity is a power of two with `n <= capacity < 2n` |
| `Vectors.Vector.constructor` | Vector/vector.h:96 | a new vector is empty with capacity 0 |
| `Vectors.Vector.OfSize` | Vector/vector.h:98-103 | n value-initialised elements, capacity exactly n |
| `Vectors.Vector.Copy` | Vector/vector.h:105-110 | equal contents, capacity exactly `other.Size()`, fresh storage |
| `Vectors.Vector.Move` | Vector/vector.h:112-115 | takes over the source's block and contents; the source is left with size 0 and capacity 0 |
| `Vectors.Vector.Size` | Vector/vector.h:124-126 | the number of live elements |
| `Vectors.Vector.Capacity` | Vector/vector.h:128-130 | the capacity is never below the size |
| `Vectors.Vector.Empty` | Vector/vector.h:324-330 | true iff there are no elements |
| `Vectors.Vector.Get` | Vector/vector.h:291-298 | requires `index < Size()` and yields the element at index |
| `Vectors.Vector.Set` | Vector/vector.h:295-298 | writing through the index replaces that element only |
| `Vectors.Vector.MoveOrCopy` | Vector/vector.h:335-346 | the vector takes over the target block with its elements in front and the block's other slots unchanged; the target gets the old block |
| `Vectors.Vector.Reserve` | Vector/vector.h:132-139 | contents and size unchanged; a no-op when n fits, otherwise a fresh block of exactly n slots |
| `Vectors.Vector.Swap` | Vector/vector.h:141-144 | the two vectors exchange contents, blocks and capacities |
| `Vectors.Vector.Resize` | Vector/vector.h:146-158 | size becomes n; the first min(old size, n) elements are kept and the rest are value-initialised; capacity per ResizeCapacity |
| `Vectors.Vector.Emplace` | Vector/vector.h:160-198 | contents become `InsertAt(old, pos, v)` and `pos` is returned; capacity per AddOneCapacity, whatever `pos` is |
| `Vectors.Vector.EmplaceInPlace` | Vector/vector.h:164-173 | the in-place shuffle produces `InsertAt(old, pos, v)` in the same block |
| `Vectors.Vector.EmplaceRelocating` | Vector/vector.h:175-193 | the reallocating path produces the same `InsertAt(old, pos, v)` in a fresh block of `Doubled(size)` slots |
| `Vectors.Vector.Insert` | Vector/vector.h:205-211 | same contract as Emplace |
| `Vectors.Vector.EmplaceBack` | Vector/vector.h:200-203 | as written: contents become `[v] + old` and position 0 is returned; capacity per AddOneCapacity |
| `Vectors.Vector.EmplaceBackAtEnd` | Vector/vector.h:200-203 | as intended: contents become `old + [v]` and the old size is returned; capacity per AddOneCapacity |
| `Vectors.Vector.PushBack` | Vector/vector.h:213-246 | contents become `old + [v]`; capacity per AddOneCapacity (1 from empty, double when full, otherwise unchanged) |
| `Vectors.Vector.PopBack` | Vector/vector.h:248-251 | requires a non-empty vector; removes exactly the last element; block and capacity unchanged |
| `Vectors.Vector.Erase` | Vector/vector.h:253-260 | requires `pos < Size()`; contents become `RemoveAt(old, pos)`, `pos` is returned, the block is unchanged |
| `Vectors.Vector.Assign` | Vector/vector.h:262-283 | contents become those of rhs and rhs is unchanged; capacity per AssignCapacity; self-assignment changes nothing |
| `Vectors.Vector.MoveAssign` | Vector/vector.h:285-289 | the two vectors exchange contents, blocks and capacities, so the source holds the target's old state |

## Left out

- Move versus copy dispatch (vector.h:182-189, 336-341): values have no move, so one relocation loop, `Algorithms.CopyN`, stands for both branches.
- Exception safety: Dafny has no exceptions. Allocation failure and failing element constructors are not modelled, so the strong guarantee is not stated.
- Allocation details: `operator new`/`delete`, `sizeof`, and the null pointer for a zero-sized block (vector.h:80-86). A fresh array stands for a block, and an empty array stands for the null pointer.
- `RawMemory::operator=(RawMemory&&)` (vector.h:27-38): `Vector` never uses it. As written it compares a pointer with an object and would not compile if instantiated.
- Object lifetime: destructors, `destroy_n` and `destroy_at`. The slots at or beyond the size are simply unconstrained.
- Pointer identity: `GetAddress`, `begin`/`end`/`cbegin`/`cend` and iterator identity. Iterators are positions 0..Size(), so these reduce to index equalities.
- Const overloads: the overloads implemented with `const_cast` are the same operations as the non-const ones and are not modelled separately.
- `RawMemory::operator+` (vector.h:44-51): `Vector` never calls it (its arithmetic is `GetAddress() + k` or `begin() + position`), so it and its bound `offset <= capacity` are not modelled.
- Integer width: `size_t` overflow of `size * 2`, and the `int` narrowing of positions (vector.h:162, 254). Sizes and positions are unbounded `nat`s.
- Variadic construction: the `Args&&...` parameters of `Emplace` and `EmplaceBack`. They become one already-constructed value `v`. `Emplace`'s temporary copy of its argument is kept, so inserting a copy of an element of the same vector is covered.
- Overloads: the two `PushBack` overloads are one method, and so are the two `Insert` overloads.
- Storage aliasing: the exclusive ownership of storage is not expressible in Dafny. The operations on two vectors instead require that the vectors own distinct storage.
- The test driver `Vector/main.cpp` and its `TestObj` liveness tracking: the driver is not part of the core. Its checks are restated in module `Scenarios`, apart from the liveness cookie.

## Findings

| source | as written | input that shows it | evidently intended | confidence | as-written member | corrected member |
|---|---|---|---|---|---|---|
| Vector/vector.h:200-203 | EmplaceBack emplaces at the beginning of the storage, so the new element becomes the first | a vector holding [1]; EmplaceBack(2) gives [2, 1] (`Scenarios.EmplaceBackPrepends`; `Sequences.FrontInsertIsAppendIff` shows the two agree only when every element equals the new one) | emplace at the end, giving [1, 2], as the name and the commented-out EmplaceBack calls in PushBack (vector.h:228, 245) indicate | not executed; high | `Vectors.Vector.EmplaceBack` | `Vectors.Vector.EmplaceBackAtEnd` |
