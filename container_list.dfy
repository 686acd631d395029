// delamo::List<T>: a growable array with an explicit capacity.
// `elems` is the heap buffer (_pElem), `size` the number of stored elements
// (_mSize) and `space` the capacity (_mSpace). `zero` stands for the value
// `T()` that the source writes into cleared and resized slots.
module ContainerList {
  import opened Wrappers
  import opened Sequences

  /** CONTAINER_DEFAULT_ALLOC_SZ: the growth step of `allocate`. */
  const DefaultAllocSize: nat := 8

  /** The capacity `allocate` leaves before a push_back: 8 when there is no space, 8 more when full. */
  function GrownCapacity(size: nat, space: nat): (c: nat)
    requires size <= space
    ensures size < c
    ensures space <= c
    ensures c == space || (space == 0 && c == DefaultAllocSize) || (size == space && c == space + DefaultAllocSize)
  {
    if space == 0 then DefaultAllocSize
    else if size == space then space + DefaultAllocSize
    else space
  }

  /** The capacity `deallocate` leaves: shrunk to the size when it was more than twice the size. */
  function ShrunkCapacity(size: nat, space: nat): (c: nat)
    requires size <= space
    ensures size <= c <= space && c <= 2 * size
    ensures c == space || c == size
  {
    if space > 2 * size then size else space
  }

  /** std::copy of `n` elements from `src[from..]` to `dst[to..]`; the rest of `dst` is kept. */
  method CopyRange<T>(src: array<T>, from: nat, dst: array<T>, to: nat, n: nat)
    requires src != dst
    requires from + n <= src.Length && to + n <= dst.Length
    modifies dst
    ensures forall i :: 0 <= i < dst.Length ==> dst[i] == if to <= i < to + n then src[from + i - to] else old(dst[i])
  {
    var k := 0;
    while k < n
      invariant 0 <= k <= n
      invariant forall i :: 0 <= i < dst.Length ==> dst[i] == if to <= i < to + k then src[from + i - to] else old(dst[i])
    {
      dst[to + k] := src[from + k];
      k := k + 1;
    }
  }

  /** Writes `src` over the front of `dst`, element by element. */
  method CopyIn<T>(src: seq<T>, dst: array<T>)
    requires |src| <= dst.Length
    modifies dst
    ensures forall i :: 0 <= i < dst.Length ==> dst[i] == if i < |src| then src[i] else old(dst[i])
  {
    for k := 0 to |src|
      invariant forall i :: 0 <= i < dst.Length ==> dst[i] == if i < k then src[i] else old(dst[i])
    {
      dst[k] := src[k];
    }
  }

  class List<T(0)> {
    var elems: array<T>
    var size: nat
    var space: nat
    const zero: T

    ghost predicate Valid()
      reads this
    {
      size <= space && elems.Length == space
    }

    /** The stored elements. */
    function Contents(): seq<T>
      reads this, elems
      requires Valid()
    {
      elems[..size]
    }

    /** List(): empty, no capacity. */
    constructor (zero: T)
      ensures Valid() && this.zero == zero && fresh(elems)
      ensures Contents() == [] && space == 0
    {
      this.zero := zero;
      elems := new T[0];
      size, space := 0, 0;
    }

    /** List(initializer_list) and List(T*, n): exactly the given elements, capacity equal to size. */
    constructor FromSeq(zero: T, lst: seq<T>)
      ensures Valid() && this.zero == zero && fresh(elems)
      ensures Contents() == lst && space == |lst|
    {
      this.zero := zero;
      var a := new T[|lst|];
      var k := 0;
      while k < |lst|
        invariant 0 <= k <= |lst|
        invariant forall i :: 0 <= i < k ==> a[i] == lst[i]
      {
        a[k] := lst[k];
        k := k + 1;
      }
      elems := a;
      size, space := |lst|, |lst|;
    }

    /** List(s, value) through init_vars: `s` copies of `value`. */
    constructor Filled(zero: T, s: nat, value: T)
      ensures Valid() && this.zero == zero && fresh(elems)
      ensures |Contents()| == s && space == s
      ensures forall i :: 0 <= i < s ==> Contents()[i] == value
    {
      this.zero := zero;
      elems := new T[s](_ => value);
      size, space := s, s;
    }

    /** Copy constructor: the elements of `rhs`, capacity equal to its size. */
    constructor Copy(rhs: List<T>)
      requires rhs.Valid()
      ensures Valid() && zero == rhs.zero
      ensures Contents() == rhs.Contents() && space == rhs.size && fresh(elems)
    {
      zero := rhs.zero;
      var a := new T[rhs.size];
      CopyRange(rhs.elems, 0, a, 0, rhs.size);
      elems := a;
      size, space := rhs.size, rhs.size;
    }

    /** Move constructor: takes over the buffer of `rhs`, which is left empty with no capacity. */
    constructor Move(rhs: List<T>)
      requires rhs.Valid()
      modifies rhs
      ensures Valid() && zero == rhs.zero
      ensures elems == old(rhs.elems) && size == old(rhs.size) && space == old(rhs.space)
      ensures rhs.Valid() && rhs.Contents() == [] && rhs.space == 0
    {
      zero := rhs.zero;
      elems, size, space := rhs.elems, rhs.size, rhs.space;
      rhs.elems := new T[0];
      rhs.size, rhs.space := 0, 0;
    }

    /** Copy assignment; self-assignment changes nothing. */
    method Assign(rhs: List<T>)
      requires Valid() && rhs.Valid()
      modifies this
      ensures Valid()
      ensures rhs == this ==> elems == old(elems) && size == old(size) && space == old(space)
      ensures rhs != this ==> Contents() == old(rhs.Contents()) && space == old(rhs.size) && fresh(elems)
    {
      if this != rhs {
        var a := new T[rhs.size];
        CopyRange(rhs.elems, 0, a, 0, rhs.size);
        elems := a;
        size, space := rhs.size, rhs.size;
      }
    }

    /** Move assignment; `rhs` is left empty unless it is this list. */
    method MoveAssign(rhs: List<T>)
      requires Valid() && rhs.Valid()
      modifies this, rhs
      ensures Valid() && rhs.Valid()
      ensures rhs == this ==> elems == old(elems) && size == old(size) && space == old(space)
      ensures rhs != this ==> elems == old(rhs.elems) && size == old(rhs.size) && space == old(rhs.space)
      ensures rhs != this ==> rhs.Contents() == [] && rhs.space == 0
    {
      if this != rhs {
        elems, size, space := rhs.elems, rhs.size, rhs.space;
        rhs.elems := new T[0];
        rhs.size, rhs.space := 0, 0;
      }
    }

    /** operator[]: unchecked access to any allocated slot. */
    method Get(idx: nat) returns (x: T)
      requires Valid() && idx < space
      ensures x == elems[idx]
      ensures idx < size ==> x == Contents()[idx]
    {
      x := elems[idx];
    }

    /** at(): checked access, out_of_range for an index at or past the size. */
    method At(idx: nat) returns (r: Result<T>)
      requires Valid()
      ensures r.Success? <==> idx < size
      ensures r.Success? ==> r.value == Contents()[idx]
    {
      if idx >= size {
        return Failure("Index value exceeds container size");
      }
      r := Success(elems[idx]);
    }

    method Size() returns (n: nat)
      requires Valid()
      ensures n == |Contents()|
    {
      n := size;
    }

    method Capacity() returns (c: nat)
      requires Valid()
      ensures c == space && |Contents()| <= c
    {
      c := space;
    }

    method Empty() returns (b: bool)
      requires Valid()
      ensures b <==> Contents() == []
    {
      b := size == 0;
    }

    /** clear(): no elements and no capacity. */
    method Clear()
      requires Valid()
      modifies this
      ensures Valid() && Contents() == [] && space == 0
    {
      elems := new T[0];
      size, space := 0, 0;
    }

    /** reserve(): grows the buffer to `newalloc`, never shrinks it; reports whether it grew. */
    method Reserve(newalloc: nat) returns (grew: bool)
      requires Valid()
      modifies this
      ensures Valid() && Contents() == old(Contents()) && size == old(size)
      ensures grew <==> newalloc > old(space)
      ensures space == if grew then newalloc else old(space)
      ensures grew ==> fresh(elems)
      ensures !grew ==> elems == old(elems)
    {
      if newalloc <= space {
        return false;
      }
      var a := new T[newalloc];
      CopyRange(elems, 0, a, 0, size);
      elems := a;
      space := newalloc;
      grew := true;
    }

    /** resize(): like reserve, then fills the slots from the size up to `newsize` with T(). The size is not changed. */
    method Resize(newsize: nat)
      requires Valid()
      modifies this
      ensures Valid() && Contents() == old(Contents())
      ensures space == if newsize > old(space) then newsize else old(space)
      ensures newsize > old(space) ==> fresh(elems) && forall i :: size <= i < newsize ==> elems[i] == zero
      ensures newsize <= old(space) ==> elems == old(elems)
    {
      var grew := Reserve(newsize);
      if grew {
        var i := size;
        while i < newsize
          invariant size <= i <= newsize
          invariant Valid() && space == newsize && fresh(elems) && size == old(size)
          invariant elems[..size] == old(Contents())
          invariant forall k :: size <= k < i ==> elems[k] == zero
        {
          elems[i] := zero;
          i := i + 1;
        }
      }
    }

    /** reset_alloc(): reallocates the buffer to exactly the size. */
    method ResetAlloc()
      requires Valid()
      modifies this
      ensures Valid() && Contents() == old(Contents()) && space == size && fresh(elems)
    {
      var a := new T[size];
      CopyRange(elems, 0, a, 0, size);
      elems := a;
      space := size;
    }

    /** allocate(): makes room for one more element. */
    method Allocate()
      requires Valid()
      modifies this
      ensures Valid() && Contents() == old(Contents())
      ensures space == GrownCapacity(old(size), old(space)) && size < space && size == old(size)
      ensures space == old(space) ==> elems == old(elems)
      ensures space != old(space) ==> fresh(elems)
    {
      if space == 0 {
        var _ := Reserve(DefaultAllocSize);
      } else if size == space {
        var _ := Reserve(space + DefaultAllocSize);
      }
    }

    /** deallocate(): shrinks the buffer to the size when the capacity exceeds twice the size. */
    method Deallocate()
      requires Valid()
      modifies this
      ensures Valid() && Contents() == old(Contents())
      ensures space == ShrunkCapacity(old(size), old(space)) && size == old(size)
      ensures space == old(space) ==> elems == old(elems)
    {
      if space > 2 * size {
        var a := new T[size];
        CopyRange(elems, 0, a, 0, size);
        elems := a;
        space := size;
      }
    }

    /** push_back(x): `x` is stored at the old size index. */
    method PushBack(x: T)
      requires Valid()
      modifies this, elems
      ensures Valid()
      ensures Contents() == old(Contents()) + [x]
      ensures space == GrownCapacity(old(size), old(space))
      ensures elems == old(elems) || fresh(elems)
    {
      Allocate();
      elems[size] := x;
      size := size + 1;
    }

    /** push_back(list): reserve(capacity + list size), then append the list's elements in order. */
    method PushBackList(elemList: seq<T>)
      requires Valid()
      modifies this, elems
      ensures Valid()
      ensures Contents() == old(Contents()) + elemList
      ensures space == old(space) + |elemList|
    {
      var _ := Reserve(space + |elemList|);
      ghost var before := Contents();
      var buffer := elems;
      assert buffer == old(elems) || fresh(buffer);
      var k := 0;
      while k < |elemList|
        invariant 0 <= k <= |elemList|
        invariant Valid() && space == old(space) + |elemList| && elems == buffer
        invariant size == |before| + k
        invariant Contents() == before + elemList[..k]
      {
        elems[size] := elemList[k];
        size := size + 1;
        k := k + 1;
      }
    }

    /** push_front(x): `[x]` followed by the old elements, capacity trimmed to the size. */
    method PushFront(x: T)
      requires Valid()
      modifies this
      ensures Valid() && Contents() == [x] + old(Contents()) && space == size && fresh(elems)
    {
      ResetAlloc();
      var newElems := new T[size + 1];
      CopyRange(elems, 0, newElems, 1, size);
      newElems[0] := x;
      size := size + 1;
      var a := new T[size];
      CopyRange(newElems, 0, a, 0, size);
      elems := a;
      space := size;
    }

    /** push_front(list): the list's elements followed by the old ones, capacity trimmed to the size. */
    method PushFrontList(elemList: seq<T>)
      requires Valid()
      modifies this
      ensures Valid() && Contents() == elemList + old(Contents()) && space == size && fresh(elems)
    {
      ResetAlloc();
      var listSize := |elemList|;
      var oldElems, oldSize := elems, size;
      var newElems := new T[oldSize + listSize];
      CopyRange(oldElems, 0, newElems, listSize, oldSize);
      CopyIn(elemList, newElems);
      assert newElems[..oldSize + listSize] == elemList + oldElems[..oldSize];
      size := oldSize + listSize;
      var a := new T[size];
      CopyRange(newElems, 0, a, 0, size);
      elems := a;
      space := size;
    }

    /** pop_front(): returns the first element; the rest stay in order, capacity trimmed to the size. */
    method PopFront() returns (x: T)
      requires Valid() && size > 0
      modifies this
      ensures Valid()
      ensures x == old(Contents())[0] && Contents() == old(Contents())[1..]
      ensures space == size && fresh(elems)
    {
      ResetAlloc();
      var newElems := new T[size - 1];
      CopyRange(elems, 1, newElems, 0, size - 1);
      x := elems[0];
      size := size - 1;
      var a := new T[size];
      CopyRange(newElems, 0, a, 0, size);
      elems := a;
      space := size;
    }

    /** pop_back(): returns the last element and clears its slot to T(); may shrink the capacity. */
    method PopBack() returns (x: T)
      requires Valid() && size > 0
      modifies this, elems
      ensures Valid()
      ensures x == old(Contents())[old(size) - 1] && Contents() == old(Contents())[..old(size) - 1]
      ensures space == ShrunkCapacity(old(size) - 1, old(space))
      ensures space == old(space) ==> elems == old(elems) && elems[size] == zero
    {
      x := elems[size - 1];
      elems[size - 1] := zero;
      size := size - 1;
      Deallocate();
    }

    /** reverse() with the capacity kept equal to the length of the new buffer. */
    method Reverse()
      requires Valid()
      modifies this
      ensures Valid() && Contents() == Reversed(old(Contents()))
      ensures size == old(size) && space == size && fresh(elems)
    {
      var n, oldElems := size, elems;
      var revElems := new T[n];
      var i := 0;
      while i < n
        invariant 0 <= i <= n
        invariant size == n && space == old(space) && elems == oldElems
        invariant forall k :: 0 <= k < i ==> revElems[k] == oldElems[n - 1 - k]
      {
        revElems[i] := oldElems[n - 1 - i];
        i := i + 1;
      }
      var a := new T[n];
      CopyRange(revElems, 0, a, 0, n);
      ReversedByIndex(oldElems[..n], a[..]);
      elems := a;
      space := size;
    }

    /** reverse() as written: a new buffer of the size's length, with the capacity field left as it was. */
    method ReverseAsWritten()
      requires Valid()
      modifies this
      ensures elems.Length == old(size) && size == old(size) && space == old(space)
      ensures elems[..] == Reversed(old(Contents()))
      ensures old(size) < old(space) ==> !Valid()
    {
      var n, oldElems := size, elems;
      var revElems := new T[n];
      var i := 0;
      while i < n
        invariant 0 <= i <= n
        invariant size == n && space == old(space) && elems == oldElems
        invariant forall k :: 0 <= k < i ==> revElems[k] == oldElems[n - 1 - k]
      {
        revElems[i] := oldElems[n - 1 - i];
        i := i + 1;
      }
      var a := new T[n];
      CopyRange(revElems, 0, a, 0, n);
      ReversedByIndex(oldElems[..n], a[..]);
      elems := a;
    }
  }

  /** The three numbers behind a list's memory: its size, its capacity field and the allocated length. */
  datatype Alloc = Alloc(size: nat, space: nat, allocLen: nat)

  /** push_back on the bookkeeping: allocate() decides from size and capacity alone, reserve() reallocates when it grows. */
  function PushBackAlloc(a: Alloc): (r: Alloc)
    requires a.size <= a.space
    ensures r.size == a.size + 1 && r.space == GrownCapacity(a.size, a.space)
    ensures r.space > a.space ==> r.allocLen == r.space
    ensures r.space == a.space ==> r.allocLen == a.allocLen
  {
    var c := GrownCapacity(a.size, a.space);
    Alloc(a.size + 1, c, if c > a.space then c else a.allocLen)
  }

  /** Whether the slot push_back writes, index `size` after allocate(), lies inside the allocated buffer. */
  predicate PushBackWritesInBounds(a: Alloc)
    requires a.size <= a.space
  {
    a.size < PushBackAlloc(a).allocLen
  }

  /** reverse() as written on the bookkeeping: the buffer shrinks to the size, the capacity field stays. */
  function ReverseAllocAsWritten(a: Alloc): (r: Alloc)
    ensures r.size == a.size && r.space == a.space && r.allocLen == a.size
  {
    Alloc(a.size, a.space, a.size)
  }

  /** reverse() corrected: the capacity follows the new buffer. */
  function ReverseAllocCorrected(a: Alloc): (r: Alloc)
    ensures r.size == a.size && r.space == r.allocLen == a.size
  {
    Alloc(a.size, a.size, a.size)
  }

  /** One push_back on an empty list, reverse(), then push_back writes one past the end of its buffer. */
  lemma ReverseThenPushBackOverflows()
    ensures PushBackAlloc(Alloc(0, 0, 0)) == Alloc(1, 8, 8)
    ensures ReverseAllocAsWritten(Alloc(1, 8, 8)) == Alloc(1, 8, 1)
    ensures !PushBackWritesInBounds(Alloc(1, 8, 1))
  {
  }

  /** With the corrected reverse, from any consistent state the next push_back stays in bounds. */
  lemma ReverseCorrectedKeepsPushBackInBounds(a: Alloc)
    requires a.size <= a.space == a.allocLen
    ensures PushBackWritesInBounds(ReverseAllocCorrected(a))
    ensures PushBackWritesInBounds(a)
  {
  }

  /** The contents the test driver's calls build from its five-element list. */
  lemma DriverContents(t: seq<real>)
    requires t == [7.0, 8.0, 9.0, 10.0, 11.0]
    ensures t[0] == 7.0
    ensures t + (([100.0] + (t + [500.0])[1..]) + t) == [7.0, 8.0, 9.0, 10.0, 11.0, 100.0, 8.0, 9.0, 10.0, 11.0, 500.0, 7.0, 8.0, 9.0, 10.0, 11.0]
  {
  }

  /** The scenario of the library's test driver for List. */
  method TestDriverScenario() returns (popped: real, result: seq<real>)
    ensures popped == 7.0
    ensures result == [7.0, 8.0, 9.0, 10.0, 11.0, 100.0, 8.0, 9.0, 10.0, 11.0, 500.0, 7.0, 8.0, 9.0, 10.0, 11.0]
  {
    var testList := new List.FromSeq(0.0, [7.0, 8.0, 9.0, 10.0, 11.0]);
    var testList2 := new List.FromSeq(0.0, [7.0, 8.0, 9.0, 10.0, 11.0]);
    var tail := testList2.Contents();
    testList.PushBack(500.0);
    popped := testList.PopFront();
    testList.PushFront(100.0);
    testList.PushBackList(tail);
    testList.PushFrontList(tail);
    DriverContents(tail);
    result := testList.Contents();
  }
}
