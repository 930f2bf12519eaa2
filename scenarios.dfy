/** The scenarios of Vector/main.cpp, restated as client code that relies on
    the contracts of Vectors.Vector alone. Value-initialised ints are 0. */
module Scenarios {
  import opened Vectors
  import Sequences

  method ReserveOnEmpty()
  {
    var v := new Vector<int>();
    assert v.Capacity() == 0 && v.Size() == 0;
    v.Reserve(100500);
    assert v.Capacity() == 100500 && v.Size() == 0;
  }

  method ValueConstructThenReserve()
  {
    var v := new Vector<int>.OfSize(100500, 0);
    assert v.Capacity() == 100500 && v.Size() == 100500;
    var first := v.Get(0);
    assert first == 0;
    v.Reserve(100500 * 2);
    assert v.Size() == 100500 && v.Capacity() == 100500 * 2;
  }

  method AssignIntoLargerBlock()
  {
    var medium := new Vector<int>.OfSize(100, 0);
    var large := new Vector<int>.OfSize(250, 0);
    large.Assign(medium);
    assert large.Size() == 100 && large.Capacity() == 250;
  }

  method AssignIntoReservedBlock()
  {
    var v := new Vector<real>.OfSize(100, 0.0);
    var small := new Vector<real>.OfSize(50, 0.0);
    small.Reserve(101);
    small.Assign(v);
    assert small.Size() == v.Size() && small.Capacity() == 101;
  }

  method AssignIntoSmallerBlock()
  {
    var target := new Vector<int>.OfSize(100, 0);
    var source := new Vector<int>.OfSize(250, 0);
    target.Assign(source);
    assert target.Size() == 250 && target.Capacity() == 250;
  }

  method ResizeGrowAndShrink()
  {
    var grown := new Vector<real>();
    grown.Resize(100500, 0.0);
    assert grown.Size() == 100500 && grown.Capacity() == 100500;
    var shrunk := new Vector<real>.OfSize(100500, 0.0);
    shrunk.Resize(10000, 0.0);
    assert shrunk.Size() == 10000 && shrunk.Capacity() == 100500;
  }

  method PushBackOntoFull()
  {
    var v := new Vector<int>.OfSize(100500, 0);
    v.PushBack(55);
    assert v.Size() == 100500 + 1 && v.Capacity() == 100500 * 2;
  }

  method PushThenPop()
  {
    var v := new Vector<seq<int>>();
    v.PushBack([34, 122]);
    v.PopBack();
    assert v.Size() == 0 && v.Capacity() == 1;
  }

  method EmplaceBackOnEmpty()
  {
    var v := new Vector<string>();
    var at := v.EmplaceBack("Ivan");
    assert v.Capacity() == 1 && v.Size() == 1 && at == 0;
    var first := v.Get(0);
    assert first == "Ivan";
  }

  method EmplaceBackCopyOfFirst(zero: int)
  {
    var v := new Vector<int>.OfSize(1, zero);
    assert v.Size() == v.Capacity();
    var first := v.Get(0);
    var _ := v.EmplaceBack(first);
    assert v.Contents() == [zero, zero];
  }

  /** EmplaceBack places its element first, which the scenarios above cannot
      tell apart from appending. */
  method EmplaceBackPrepends()
  {
    var v := new Vector<int>();
    v.PushBack(1);
    var _ := v.EmplaceBack(2);
    assert v.Contents() == [2, 1];
    var w := new Vector<int>();
    w.PushBack(1);
    var _ := w.EmplaceBackAtEnd(2);
    assert w.Contents() == [1, 2];
  }

  method WriteThroughIndex()
  {
    var v := new Vector<int>.OfSize(10, 0);
    v.PushBack(1);
    v.Set(0, 2);
    var first := v.Get(0);
    assert first == 2;
  }

  method InsertIntoFull()
  {
    var v := new Vector<int>.OfSize(10, 0);
    var at := v.Insert(1, 34);
    assert v.Size() == 10 + 1 && v.Capacity() == 10 * 2 && at == 1;
    var x := v.Get(at);
    assert x == 34;
  }

  method EmplaceAtEnd()
  {
    var v := new Vector<real>();
    var at := v.Emplace(v.Size(), 1.5);
    assert v.Size() == 1 && v.Capacity() >= v.Size() && at == 0;
    var w := new Vector<string>();
    w.Reserve(10);
    at := w.Emplace(w.Size(), "Artem");
    assert w.Size() == 1 && w.Capacity() == 10 && at == 0;
  }

  method InsertThenErase(x: int)
  {
    var v := new Vector<int>.OfSize(10, 0);
    ghost var before := v.Contents();
    var at := v.Insert(2, x);
    at := v.Erase(at);
    Sequences.RemoveAfterInsert(before, 2, x);
    assert v.Contents() == before && at == 2;
  }
}
