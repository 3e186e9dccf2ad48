/**
 The binary heap of apps/dedup/binheap.c, ordered by chunk number.  Elements are
 kept at indices 1 .. size; index 0 holds the null sentinel that stops Insert.
 */
module BinHeap {
  const MIN_PQ_SIZE := 16

  datatype Slot<T> = Null | Elem(cid: nat, value: T)

  ghost predicate Filled<T>(s: seq<Slot<T>>)
  {
    forall i :: 0 <= i < |s| ==> s[i].Elem?
  }

  /** Heap order on elements 1 .. n of s. */
  ghost predicate Ordered<T>(s: seq<Slot<T>>, n: nat)
    requires n < |s|
  {
    forall i :: 2 <= i <= n ==> s[i].Elem? && s[i / 2].Elem? && s[i / 2].cid <= s[i].cid
  }

  /** Heap order except at the hole: the hole's parent bounds the hole's children. */
  ghost predicate OrderedBut<T>(s: seq<Slot<T>>, n: nat, hole: nat)
    requires n < |s| && 1 <= hole <= n
  {
    && (forall i :: 1 <= i <= n && i != hole ==> s[i].Elem?)
    && (forall i :: 2 <= i <= n && i != hole && i / 2 != hole ==> s[i / 2].cid <= s[i].cid)
    && (forall i :: 2 <= i <= n && i / 2 == hole && hole / 2 >= 1 ==> s[hole / 2].cid <= s[i].cid)
  }

  /** The first element of an ordered heap is a minimum. */
  lemma {:induction false} RootIsLeast<T>(s: seq<Slot<T>>, n: nat, i: nat)
    requires n < |s| && 1 <= i <= n && s[1].Elem? && Ordered(s, n)
    ensures s[i].Elem? && s[1].cid <= s[i].cid
  {
    if i >= 2 {
      RootIsLeast(s, n, i / 2);
    }
  }

  /** Moving an element into the hole and the hole to where it was changes nothing in the bag. */
  lemma HoleMoves<T>(s: seq<Slot<T>>, i: nat, j: nat, x: Slot<T>)
    requires i < |s| && j < |s| && i != j
    ensures multiset(s[i := s[j]][j := x]) == multiset(s[i := x])
  {
  }

  lemma PlaceInHole<T>(s: seq<Slot<T>>, n: nat, hole: nat, x: Slot<T>)
    requires n < |s| && 1 <= hole <= n && x.Elem? && OrderedBut(s, n, hole)
    requires hole >= 2 ==> s[hole / 2].cid <= x.cid
    requires forall i :: 2 <= i <= n && i / 2 == hole ==> x.cid <= s[i].cid
    ensures Ordered(s[hole := x], n) && Filled(s[hole := x][1..n + 1])
  {
  }

  /** One level up: the parent moves down into the hole. */
  lemma HoleUp<T>(s: seq<Slot<T>>, n: nat, hole: nat, x: Slot<T>)
    requires n < |s| && 2 <= hole <= n && x.Elem? && OrderedBut(s, n, hole) && x.cid < s[hole / 2].cid
    requires forall i :: 2 <= i <= n && i / 2 == hole ==> x.cid <= s[i].cid
    ensures var s' := s[hole := s[hole / 2]];
      OrderedBut(s', n, hole / 2) && forall i :: 2 <= i <= n && i / 2 == hole / 2 ==> x.cid <= s'[i].cid
  {
    var p := hole / 2;
    assert 1 <= p < hole;
    var s' := s[hole := s[p]];
    forall i | 2 <= i <= n && i / 2 == p ensures x.cid <= s'[i].cid && (p / 2 >= 1 ==> s'[p / 2].cid <= s'[i].cid) {
      assert p / 2 >= 1 ==> s[p / 2].cid <= s[p].cid;
    }
  }

  /** One level down: the smaller child moves up into the hole. */
  lemma HoleDown<T>(s: seq<Slot<T>>, n: nat, hole: nat, child: nat)
    requires n < |s| && 1 <= hole <= n && OrderedBut(s, n, hole)
    requires 2 <= child <= n && child / 2 == hole
    requires forall i :: 2 <= i <= n && i / 2 == hole ==> s[child].cid <= s[i].cid
    ensures OrderedBut(s[hole := s[child]], n, child)
  {
    var s' := s[hole := s[child]];
    forall i | 2 <= i <= n && i != child && i / 2 != child ensures s'[i / 2].cid <= s'[i].cid {
      if i == hole {
        assert hole / 2 >= 1;
      }
    }
    forall i | 2 <= i <= n && i / 2 == child ensures s'[child / 2].cid <= s'[i].cid {
      assert s[i / 2].cid <= s[i].cid;
    }
  }

  // ---------------------------------------------------------------------
  // The two percolation loops
  // ---------------------------------------------------------------------

  /** Elements 1 .. n with x in the hole make up the bag, and x fits above the hole's children. */
  ghost predicate HoleState<T>(s: seq<Slot<T>>, n: nat, hole: nat, x: Slot<T>, bag: multiset<Slot<T>>)
  {
    && n < |s| && 1 <= hole <= n && x.Elem? && s[0] == Null && OrderedBut(s, n, hole)
    && multiset(s[1..n + 1][hole - 1 := x]) == bag
  }

  ghost predicate FitsAbove<T>(s: seq<Slot<T>>, n: nat, hole: nat, x: Slot<T>)
  {
    n < |s| && x.Elem? && forall i :: 2 <= i <= n && i / 2 == hole ==> s[i].Elem? && x.cid <= s[i].cid
  }

  ghost predicate FitsBelow<T>(s: seq<Slot<T>>, n: nat, hole: nat, x: Slot<T>)
  {
    hole >= 2 ==> hole / 2 < |s| && x.Elem? && s[hole / 2].Elem? && s[hole / 2].cid <= x.cid
  }

  /** A heap of n elements. */
  ghost predicate IsHeap<T>(s: seq<Slot<T>>, n: nat)
  {
    n < |s| && s[0] == Null && Filled(s[1..n + 1]) && Ordered(s, n)
  }

  lemma UpStep<T>(s: seq<Slot<T>>, n: nat, hole: nat, x: Slot<T>, bag: multiset<Slot<T>>)
    requires HoleState(s, n, hole, x, bag) && FitsAbove(s, n, hole, x)
    requires hole >= 2 && s[hole / 2].Elem? && x.cid < s[hole / 2].cid
    ensures var s' := s[hole := s[hole / 2]]; HoleState(s', n, hole / 2, x, bag) && FitsAbove(s', n, hole / 2, x)
  {
    var p := hole / 2;
    HoleUp(s, n, hole, x);
    HoleMoves(s[1..n + 1], hole - 1, p - 1, x);
    assert s[hole := s[p]][1..n + 1] == s[1..n + 1][hole - 1 := s[1..n + 1][p - 1]];
  }

  lemma DownStep<T>(s: seq<Slot<T>>, n: nat, hole: nat, child: nat, x: Slot<T>, bag: multiset<Slot<T>>)
    requires HoleState(s, n, hole, x, bag) && 2 <= child <= n && child / 2 == hole && s[child].Elem?
      && s[child].cid < x.cid
    requires FitsAbove(s, n, hole, s[child])
    ensures var s' := s[hole := s[child]]; HoleState(s', n, child, x, bag) && FitsBelow(s', n, child, x)
  {
    HoleDown(s, n, hole, child);
    HoleMoves(s[1..n + 1], hole - 1, child - 1, x);
    assert s[hole := s[child]][1..n + 1] == s[1..n + 1][hole - 1 := s[1..n + 1][child - 1]];
  }

  lemma Placed<T>(s: seq<Slot<T>>, n: nat, hole: nat, x: Slot<T>, bag: multiset<Slot<T>>)
    requires HoleState(s, n, hole, x, bag) && FitsAbove(s, n, hole, x) && FitsBelow(s, n, hole, x)
    ensures IsHeap(s[hole := x], n) && multiset(s[hole := x][1..n + 1]) == bag
  {
    PlaceInHole(s, n, hole, x);
    assert s[hole := x][1..n + 1] == s[1..n + 1][hole - 1 := x];
  }

  lemma UpStart<T>(s: seq<Slot<T>>, n: nat, x: Slot<T>)
    requires 1 <= n < |s| && IsHeap(s, n - 1) && x.Elem?
    ensures HoleState(s, n, n, x, multiset(s[1..n]) + multiset{x}) && FitsAbove(s, n, n, x)
  {
    assert s[1..n + 1][n - 1 := x] == s[1..n] + [x];
    assert forall i :: 1 <= i < n ==> s[i] == s[1..n][i - 1];
  }

  lemma DownStart<T>(s: seq<Slot<T>>, n: nat)
    requires 1 <= n && IsHeap(s, n + 1)
    ensures HoleState(s, n, 1, s[n + 1], multiset(s[1..n + 2]) - multiset{s[1]}) && FitsBelow(s, n, 1, s[n + 1])
  {
    assert s[1..n + 2] == [s[1]] + s[2..n + 1] + [s[n + 1]];
    assert s[1..n + 1][0 := s[n + 1]] == [s[n + 1]] + s[2..n + 1];
    assert forall i :: 1 <= i <= n + 1 ==> s[i] == s[1..n + 2][i - 1];
  }

  lemma HoleFacts<T>(s: seq<Slot<T>>, n: nat, hole: nat, x: Slot<T>, bag: multiset<Slot<T>>)
    requires HoleState(s, n, hole, x, bag)
    ensures n < |s| && 1 <= hole <= n && s[0] == Null && x.Elem? && (hole >= 2 ==> s[hole / 2].Elem?)
  {
  }

  lemma SmallerChild<T>(s: seq<Slot<T>>, n: nat, hole: nat, child: nat)
    requires 2 * hole <= n < |s| && child <= n && s[child].Elem? && s[2 * hole].Elem?
    requires 2 * hole < n ==> s[2 * hole + 1].Elem?
    requires child == 2 * hole || child == 2 * hole + 1
    requires child == 2 * hole ==> 2 * hole == n || s[2 * hole].cid <= s[2 * hole + 1].cid
    requires child == 2 * hole + 1 ==> s[child].cid < s[2 * hole].cid
    ensures FitsAbove(s, n, hole, s[child])
  {
  }

  /** The loop of Insert, with slot n still to be filled. */
  method PercolateUp<T>(a: seq<Slot<T>>, n: nat, x: Slot<T>) returns (s: seq<Slot<T>>)
    requires 1 <= n < |a| && IsHeap(a, n - 1) && x.Elem?
    ensures |s| == |a| && IsHeap(s, n) && multiset(s[1..n + 1]) == multiset(a[1..n]) + multiset{x}
  {
    hide IsHeap, HoleState, FitsAbove, FitsBelow;
    s := a;
    ghost var bag := multiset(s[1..n]) + multiset{x};
    UpStart(s, n, x);
    var i: nat := n;
    HoleFacts(s, n, i, x, bag);
    while s[i / 2] != Null && s[i / 2].cid > x.cid
      invariant |s| == |a| && HoleState(s, n, i, x, bag) && FitsAbove(s, n, i, x)
      invariant 1 <= i <= n && s[0] == Null
      decreases i
    {
      HoleFacts(s, n, i, x, bag);
      UpStep(s, n, i, x, bag);
      s := s[i := s[i / 2]];
      i := i / 2;
      HoleFacts(s, n, i, x, bag);
    }
    HoleFacts(s, n, i, x, bag);
    HoleFits(s, n, i, x);
    Placed(s, n, i, x, bag);
    s := s[i := x];
  }

  lemma HoleFits<T>(s: seq<Slot<T>>, n: nat, hole: nat, x: Slot<T>)
    requires 1 <= hole <= n < |s| && x.Elem? && (hole >= 2 ==> s[hole / 2].Elem? && s[hole / 2].cid <= x.cid)
    ensures FitsBelow(s, n, hole, x)
  {
  }

  /** The smaller of the one or two children of the hole. */
  method PickChild<T>(a: seq<Slot<T>>, n: nat, hole: nat) returns (child: nat)
    requires 1 <= hole && 2 * hole <= n < |a| && a[2 * hole].Elem?
    requires 2 * hole < n ==> a[2 * hole + 1].Elem?
    ensures 2 <= child <= n && child / 2 == hole && a[child].Elem? && FitsAbove(a, n, hole, a[child])
  {
    child := hole * 2;
    if child != n && a[child + 1].cid < a[child].cid {
      child := child + 1;
    }
    SmallerChild(a, n, hole, child);
  }

  /** The loop of DeleteMin, after the last element has been taken off. */
  method PercolateDown<T>(a: seq<Slot<T>>, n: nat) returns (s: seq<Slot<T>>)
    requires 1 <= n < |a| - 1 && IsHeap(a, n + 1)
    ensures |s| == |a| && IsHeap(s, n) && multiset(s[1..n + 1]) == multiset(a[1..n + 2]) - multiset{a[1]}
  {
    hide IsHeap, HoleState, FitsAbove, FitsBelow;
    s := a;
    ghost var bag := multiset(s[1..n + 2]) - multiset{s[1]};
    DownStart(s, n);
    var last := s[n + 1];
    var i: nat := 1;
    HoleFacts(s, n, i, last, bag);
    while i * 2 <= n
      invariant |s| == |a| && HoleState(s, n, i, last, bag) && FitsBelow(s, n, i, last)
      invariant 1 <= i <= n && last.Elem?
      decreases n - i
    {
      ChildrenAreElems(s, n, i, last, bag);
      var child := PickChild(s, n, i);
      if last.cid <= s[child].cid {
        FitsAboveToo(s, n, i, s[child], last);
        break;
      }
      DownStep(s, n, i, child, last, bag);
      s := s[i := s[child]];
      i := child;
    }
    if n < i * 2 {
      NoChildren(s, n, i, last);
    }
    Placed(s, n, i, last, bag);
    s := s[i := last];
  }

  lemma ChildrenAreElems<T>(s: seq<Slot<T>>, n: nat, hole: nat, x: Slot<T>, bag: multiset<Slot<T>>)
    requires HoleState(s, n, hole, x, bag) && 2 * hole <= n
    ensures n < |s| && s[2 * hole].Elem? && (2 * hole < n ==> s[2 * hole + 1].Elem?)
  {
  }

  lemma FitsAboveToo<T>(s: seq<Slot<T>>, n: nat, hole: nat, y: Slot<T>, x: Slot<T>)
    requires FitsAbove(s, n, hole, y) && x.Elem? && x.cid <= y.cid
    ensures FitsAbove(s, n, hole, x)
  {
  }

  lemma NoChildren<T>(s: seq<Slot<T>>, n: nat, hole: nat, x: Slot<T>)
    requires n < |s| && n < hole * 2 && x.Elem?
    ensures FitsAbove(s, n, hole, x)
  {
  }

  lemma Enlarged<T>(s: seq<Slot<T>>, n: nat, more: seq<Slot<T>>)
    requires IsHeap(s, n)
    ensures IsHeap(s + more, n) && n < |s| && (s + more)[1..n + 1] == s[1..n + 1]
  {
    assert (s + more)[1..n + 1] == s[1..n + 1];
  }

  lemma SingleHeap<T>(s: seq<Slot<T>>, x: Slot<T>)
    requires IsHeap(s, 0) && x.Elem? && |s| >= 2
    ensures IsHeap(s[1 := x], 1) && s[1..1] == [] && s[1 := x][1..2] == [x]
  {
  }

  lemma NoHeap<T>(s: seq<Slot<T>>)
    requires IsHeap(s, 1)
    ensures IsHeap(s, 0) && |s| >= 2 && s[1..1] == [] && s[1..2] == [s[1]]
  {
  }

  /** HeapStruct; the array that realloc enlarges is the sequence elements. */
  class Heap<T> {
    var elements: seq<Slot<T>>
    var size: nat
    var capacity: nat

    ghost predicate Valid()
      reads this
    {
      MIN_PQ_SIZE <= capacity && |elements| == capacity + 1 && size <= capacity && IsHeap(elements, size)
    }

    /** The elements in the queue. */
    ghost function Contents(): multiset<Slot<T>>
      requires Valid()
      reads this
    {
      multiset(elements[1..size + 1])
    }

    /** Initialize; a capacity below the minimum ends the program in the source. */
    constructor (initCapacity: nat)
      requires MIN_PQ_SIZE <= initCapacity
      ensures Valid() && Contents() == multiset{}
    {
      elements := seq(initCapacity + 1, _ => Null);
      capacity := initCapacity;
      size := 0;
    }

    /** A full heap gets twice the room. */
    method Grow()
      requires Valid()
      modifies this
      ensures Valid() && Contents() == old(Contents()) && size == old(size) && capacity == 2 * old(capacity)
    {
      hide IsHeap;
      var more := seq(capacity, _ => Null);
      Enlarged(elements, size, more);
      elements, capacity := elements + more, 2 * capacity;
    }

    method Insert(x: Slot<T>)
      requires Valid() && x.Elem?
      modifies this
      ensures Valid() && Contents() == old(Contents()) + multiset{x}
    {
      if size == capacity {
        Grow();
      }
      Place(x);
    }

    /** Insert once there is room. */
    method Place(x: Slot<T>)
      requires Valid() && x.Elem? && size < capacity
      modifies this
      ensures Valid() && Contents() == old(Contents()) + multiset{x}
    {
      hide IsHeap;
      if size == 0 {
        SingleHeap(elements, x);
        elements, size := elements[1 := x], 1;
        return;
      }
      var longer := PercolateUp(elements, size + 1, x);
      elements, size := longer, size + 1;
    }

    method IsEmpty() returns (r: bool)
      requires Valid()
      ensures r <==> Contents() == multiset{}
    {
      r := size == 0;
      if size > 0 { Least(); }
    }

    /** FindMin: the first element, or null when the queue is empty. */
    method FindMin() returns (r: Slot<T>)
      requires Valid()
      ensures r == Null <==> Contents() == multiset{}
      ensures r != Null ==> r in Contents() && forall x :: x in Contents() ==> x.Elem? && r.cid <= x.cid
    {
      if size > 0 {
        r := elements[1];
        Least();
      } else {
        r := Null;
      }
    }

    lemma Least()
      requires Valid() && (size > 0 || Contents() != multiset{})
      ensures size > 0 && elements[1] in Contents() && forall x :: x in Contents() ==>
        x.Elem? && elements[1].cid <= x.cid
    {
      assert elements[1..size + 1][0] == elements[1];
      forall x | x in Contents() ensures x.Elem? && elements[1].cid <= x.cid {
        var i :| 0 <= i < size && elements[1..size + 1][i] == x;
        RootIsLeast(elements, size, i + 1);
      }
    }

    /** DeleteMin on a queue that is not empty (the source ends the program on an empty one). */
    method DeleteMin() returns (r: Slot<T>)
      requires Valid() && Contents() != multiset{}
      modifies this
      ensures Valid()
      ensures r in old(Contents()) && Contents() == old(Contents()) - multiset{r}
      ensures forall x :: x in old(Contents()) ==> x.Elem? && r.cid <= x.cid
    {
      hide IsHeap;
      Least();
      r := elements[1];
      RemoveRoot();
    }

    method RemoveRoot()
      requires Valid() && size > 0
      modifies this
      ensures Valid() && Contents() == old(Contents()) - multiset{old(elements[1])}
    {
      hide IsHeap;
      if size == 1 {
        NoHeap(elements);
        size := 0;
      } else {
        var shorter := PercolateDown(elements, size - 1);
        elements, size := shorter, size - 1;
      }
    }
  }
}
