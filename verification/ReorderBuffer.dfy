/**
 The reorder buffer of SendBlock (apps/dedup/encoder.c, lines 883-945 and 946-971): a
 search tree with one heap per anchor.  Its abstract value is the map items from
 (anchor, chunk) to what is waiting under that number.
 */
module ReorderBuffer {
  import opened BinHeap
  import SearchTree

  const INITIAL_SIZE := 4096

  type Key = (nat, nat)

  /** Order of the output: by anchor, then by chunk. */
  predicate Before(a: Key, b: Key)
  {
    a.0 < b.0 || (a.0 == b.0 && a.1 < b.1)
  }

  datatype Next<T> = Empty | Item(aid: nat, cid: nat, value: T)

  /** r is the item that comes first in the output order, or Empty when none waits. */
  ghost predicate IsFirst<T>(items: map<Key, T>, r: Next<T>)
  {
    && (r == Empty <==> items == map[])
    && (r != Empty ==> (r.aid, r.cid) in items && items[(r.aid, r.cid)] == r.value)
    && (r != Empty ==> forall k :: k in items ==> k == (r.aid, r.cid) || Before((r.aid, r.cid), k))
  }

  /** The search tree stores exactly the map queues. */
  ghost predicate Stores<V>(search: SearchTree.Search<V>, queues: map<nat, V>)
  {
    && search.pmin == SearchTree.Nil && SearchTree.Bst(search.root) && SearchTree.Keys(search.root) == queues.Keys
    && forall a :: a in queues ==> SearchTree.Lookup(search.root, a) == queues[a]
  }

  lemma StoresFind<V>(search: SearchTree.Search<V>, queues: map<nat, V>, a: nat)
    requires Stores(search, queues)
    ensures var r := SearchTree.Find(a, search.root);
      (r == SearchTree.Nil <==> a !in queues) && (a in queues ==> r.value == queues[a])
  {
  }

  lemma StoresMin<V>(search: SearchTree.Search<V>, queues: map<nat, V>)
    requires Stores(search, queues)
    ensures SearchTree.Bst(search.root)
    ensures var r := SearchTree.FindMin(search);
      && (r == SearchTree.Nil <==> queues == map[])
      && (queues != map[] ==> r.aid in queues && r.value == queues[r.aid] && forall a :: a in queues ==> r.aid <= a)
  {
    if queues != map[] {
      var a :| a in queues;
      assert a in SearchTree.Keys(search.root);
    }
  }

  lemma StoresInsert<V>(search: SearchTree.Search<V>, queues: map<nat, V>, a: nat, v: V)
    requires Stores(search, queues) && a !in queues
    ensures SearchTree.Bst(search.root) && Stores(SearchTree.Insert(a, v, search), queues[a := v])
  {
    forall b | b in queues[a := v]
      ensures SearchTree.Lookup(SearchTree.Insert(a, v, search).root, b) == queues[a := v][b] {
      SearchTree.InsertLookup(a, v, search.root, b);
    }
  }

  lemma StoresDelete<V>(search: SearchTree.Search<V>, queues: map<nat, V>, a: nat)
    requires Stores(search, queues) && a in queues
    ensures SearchTree.Bst(search.root) && a in SearchTree.Keys(search.root)
      && Stores(SearchTree.Delete(a, search), queues - {a})
  {
    forall b | b in queues - {a} ensures SearchTree.Lookup(SearchTree.Delete(a, search).root, b) == queues[b] {
      SearchTree.DeleteLookup(a, search.root, b);
    }
  }

  /** The bag holds exactly the items of anchor a, each once. */
  ghost predicate Matches<T(!new)>(bag: multiset<Slot<T>>, items: map<Key, T>, a: nat)
  {
    && bag != multiset{}
    && forall x :: bag[x] == if x.Elem? && (a, x.cid) in items && items[(a, x.cid)] == x.value then 1 else 0
  }

  /** The bags hold the items, each under its anchor, and none is empty. */
  ghost predicate Sorted<T(!new)>(bags: map<nat, multiset<Slot<T>>>, items: map<Key, T>)
  {
    && (forall a :: a in bags ==> Matches(bags[a], items, a))
    && (forall k :: k in items ==> k.0 in bags)
  }

  lemma MatchesElsewhere<T(!new)>(bag: multiset<Slot<T>>, items: map<Key, T>, a: nat, k: Key, v: T)
    requires Matches(bag, items, a) && a != k.0
    ensures Matches(bag, items[k := v], a) && Matches(bag, items - {k}, a)
  {
  }

  lemma MatchesOne<T(!new)>(items: map<Key, T>, aid: nat, cid: nat, v: T)
    requires forall k :: k in items ==> k.0 != aid
    ensures Matches(multiset{Elem(cid, v)}, items[(aid, cid) := v], aid)
  {
  }

  lemma MatchesMore<T(!new)>(bag: multiset<Slot<T>>, items: map<Key, T>, aid: nat, cid: nat, v: T)
    requires Matches(bag, items, aid) && (aid, cid) !in items
    ensures Matches(bag + multiset{Elem(cid, v)}, items[(aid, cid) := v], aid)
  {
  }

  lemma MatchesLess<T(!new)>(bag: multiset<Slot<T>>, items: map<Key, T>, aid: nat, x: Slot<T>)
    requires Matches(bag, items, aid) && x in bag
    ensures x.Elem? && (aid, x.cid) in items && items[(aid, x.cid)] == x.value
    ensures bag - multiset{x} != multiset{} ==> Matches(bag - multiset{x}, items - {(aid, x.cid)}, aid)
    ensures bag - multiset{x} == multiset{} ==> forall k :: k in items && k.0 == aid ==> k == (aid, x.cid)
  {
    assert bag[x] >= 1;
    forall k | k in items && k.0 == aid ensures bag - multiset{x} == multiset{} ==> k == (aid, x.cid) {
      var y := Elem(k.1, items[k]);
      assert bag[y] == 1;
      assert y != x ==> (bag - multiset{x})[y] == 1;
    }
  }

  lemma SortedFirst<T(!new)>(bags: map<nat, multiset<Slot<T>>>, items: map<Key, T>, aid: nat, cid: nat, v: T)
    requires Sorted(bags, items) && aid !in bags
    ensures Sorted(bags[aid := multiset{Elem(cid, v)}], items[(aid, cid) := v])
  {
    hide Matches;
    MatchesOne(items, aid, cid, v);
    forall a | a in bags ensures Matches(bags[a], items[(aid, cid) := v], a) {
      MatchesElsewhere(bags[a], items, a, (aid, cid), v);
    }
  }

  lemma SortedMore<T(!new)>(bags: map<nat, multiset<Slot<T>>>, items: map<Key, T>, aid: nat, cid: nat, v: T)
    requires Sorted(bags, items) && aid in bags && (aid, cid) !in items
    ensures Sorted(bags[aid := bags[aid] + multiset{Elem(cid, v)}], items[(aid, cid) := v])
  {
    hide Matches;
    MatchesMore(bags[aid], items, aid, cid, v);
    forall a | a in bags && a != aid ensures Matches(bags[a], items[(aid, cid) := v], a) {
      MatchesElsewhere(bags[a], items, a, (aid, cid), v);
    }
  }

  /** Taking an element of an anchor takes one item; the anchor goes when its bag is empty. */
  lemma SortedLess<T(!new)>(bags: map<nat, multiset<Slot<T>>>, items: map<Key, T>, aid: nat, x: Slot<T>)
    requires Sorted(bags, items) && aid in bags && x in bags[aid]
    ensures x.Elem? && (aid, x.cid) in items && items[(aid, x.cid)] == x.value
    ensures bags[aid] - multiset{x} == multiset{} ==> Sorted(bags - {aid}, items - {(aid, x.cid)})
    ensures bags[aid] - multiset{x} != multiset{} ==>
      Sorted(bags[aid := bags[aid] - multiset{x}], items - {(aid, x.cid)})
  {
    hide Matches;
    MatchesLess(bags[aid], items, aid, x);
    forall a | a in bags && a != aid ensures Matches(bags[a], items - {(aid, x.cid)}, a) {
      MatchesElsewhere(bags[a], items, a, (aid, x.cid), x.value);
    }
  }

  /** The least element of the first anchor is the first item in output order. */
  lemma SortedMin<T(!new)>(bags: map<nat, multiset<Slot<T>>>, items: map<Key, T>, aid: nat, x: Slot<T>)
    requires Sorted(bags, items) && aid in bags && x in bags[aid] && x.Elem?
    requires forall a :: a in bags ==> aid <= a
    requires forall y :: y in bags[aid] ==> y.Elem? && x.cid <= y.cid
    ensures forall k :: k in items ==> k == (aid, x.cid) || Before((aid, x.cid), k)
  {
    forall k | k in items ensures k == (aid, x.cid) || Before((aid, x.cid), k) {
      if k.0 == aid {
        assert Matches(bags[aid], items, aid);
        assert bags[aid][Elem(k.1, items[k])] == 1;
        assert Elem(k.1, items[k]) in bags[aid];
      }
    }
  }

  lemma SortedEmpty<T(!new)>(bags: map<nat, multiset<Slot<T>>>, items: map<Key, T>)
    requires Sorted(bags, items)
    ensures bags == map[] <==> items == map[]
  {
    if bags != map[] {
      var a :| a in bags;
      assert Matches(bags[a], items, a);
      var x :| x in bags[a];
      assert bags[a][x] >= 1;
      assert (a, x.cid) in items;
    }
    if items != map[] {
      var k :| k in items;
      assert k.0 in bags;
    }
  }

  /** What a buffer stands for: its heaps, what they hold, and the items waiting under each number. */
  datatype View<T(==)> =
    View(queues: map<nat, Heap<T>>, bags: map<nat, multiset<Slot<T>>>, items: map<Key, T>, repr: set<Heap<T>>)

  /** The heaps hold the bags; the heaps of different anchors are different. */
  ghost predicate Shape<T>(v: View<T>)
    reads v.repr
  {
    && v.bags.Keys == v.queues.Keys
    && (forall a, b :: a in v.queues && b in v.queues && v.queues[a] == v.queues[b] ==> a == b)
    && (forall a :: a in v.queues ==>
      v.queues[a] in v.repr && v.queues[a].Valid() && v.queues[a].Contents() == v.bags[a])
  }

  lemma ShapeAdd<T>(v: View<T>, aid: nat, h: Heap<T>, items: map<Key, T>)
    requires Shape(v) && aid !in v.queues && h !in v.repr && h.Valid()
    ensures Shape(View(v.queues[aid := h], v.bags[aid := h.Contents()], items, v.repr + {h}))
  {
    hide Heap.Valid, Heap.Contents;
  }

  lemma ShapeDrop<T>(v: View<T>, aid: nat, items: map<Key, T>)
    requires Shape(v) && aid in v.queues
    ensures Shape(View(v.queues - {aid}, v.bags - {aid}, items, v.repr))
  {
    hide Heap.Valid, Heap.Contents;
  }

  class Buffer<T(==,!new)> {
    var search: SearchTree.Search<Heap<T>>
    ghost var view: View<T>

    ghost predicate Valid()
      reads this, view.repr
    {
      Shape(view) && Stores(search, view.queues) && Sorted(view.bags, view.items)
    }

    constructor ()
      ensures Valid() && view.repr == {} && view.items == map[]
    {
      search := SearchTree.Search(SearchTree.Nil, SearchTree.Nil);
      view := View(map[], map[], map[], {});
    }

    /** Lines 948-970: put an item that cannot be written yet into the heap of its anchor. */
    method Put(aid: nat, cid: nat, v: T)
      requires Valid() && (aid, cid) !in view.items
      modifies this, view.repr
      ensures Valid() && fresh(view.repr - old(view.repr)) && view.items == old(view.items)[(aid, cid) := v]
    {
      hide Sorted, Heap.Valid, Heap.Contents;
      StoresFind(search, view.queues, aid);
      var pos := SearchTree.Find(aid, search.root);
      if pos == SearchTree.Nil {
        PutFirst(aid, cid, v);
      } else {
        PutMore(aid, cid, v, pos.value);
      }
    }

    method PutFirst(aid: nat, cid: nat, v: T)
      requires Valid() && aid !in view.queues
      modifies this
      ensures Valid() && fresh(view.repr - old(view.repr)) && view.items == old(view.items)[(aid, cid) := v]
    {
      hide Shape, Stores, Sorted, Heap.Valid, Heap.Contents;
      hide SearchTree.Bst, SearchTree.Keys, SearchTree.InsertNode, SearchTree.Insert;
      ShapeFacts(view);
      SortedFirst(view.bags, view.items, aid, cid, v);
      var h := new Heap<T>(INITIAL_SIZE);
      h.Insert(Elem(cid, v));
      assert h.Contents() == multiset{Elem(cid, v)};
      StoresInsert(search, view.queues, aid, h);
      ShapeAdd(view, aid, h, view.items[(aid, cid) := v]);
      search := SearchTree.Insert(aid, h, search);
      view := View(view.queues[aid := h], view.bags[aid := multiset{Elem(cid, v)}], view.items[(aid, cid) := v],
                   view.repr + {h});
    }

    method PutMore(aid: nat, cid: nat, v: T, h: Heap<T>)
      requires Valid() && aid in view.queues && view.queues[aid] == h && (aid, cid) !in view.items
      modifies this, h
      ensures Valid() && view.repr == old(view.repr) && view.items == old(view.items)[(aid, cid) := v]
    {
      hide Shape, Stores, Sorted, Heap.Valid, Heap.Contents;
      ShapeFacts(view);
      SortedMore(view.bags, view.items, aid, cid, v);
      ghost var items := view.items[(aid, cid) := v];
      AddTo(aid, Elem(cid, v), h);
      ShapeItems(view, items);
      view := view.(items := items);
    }

    /** Insert on the heap of one anchor. */
    method AddTo(aid: nat, x: Slot<T>, h: Heap<T>)
      requires Shape(view) && aid in view.queues && view.queues[aid] == h && aid in view.bags && x.Elem?
      modifies this, h
      ensures search == old(search) && Shape(view)
      ensures view == old(view).(bags := old(view).bags[aid := old(view).bags[aid] + multiset{x}])
    {
      hide Heap.Valid, Heap.Contents;
      h.Insert(x);
      view := view.(bags := view.bags[aid := view.bags[aid] + multiset{x}]);
    }

    /** TreeFindMin and FindMin: the waiting item that comes first in the output order. */
    method Peek() returns (r: Next<T>)
      requires Valid()
      ensures IsFirst(view.items, r)
    {
      hide Stores, Sorted, Heap.Valid, Heap.Contents, SearchTree.Bst, SearchTree.Keys, SearchTree.FindMin;
      StoresMin(search, view.queues);
      SortedEmpty(view.bags, view.items);
      var pos := SearchTree.FindMin(search);
      if pos == SearchTree.Nil {
        assert view.bags.Keys == {};
        return Empty;
      }
      var h := pos.value;
      NotEmpty(view.bags, view.items, pos.aid);
      var x := h.FindMin();
      SortedLess(view.bags, view.items, pos.aid, x);
      SortedMin(view.bags, view.items, pos.aid, x);
      r := Item(pos.aid, x.cid, x.value);
    }

    /** DeleteMin on the heap of one anchor. */
    method TakeLeast(aid: nat, h: Heap<T>) returns (x: Slot<T>)
      requires Shape(view) && aid in view.queues && view.queues[aid] == h && view.bags[aid] != multiset{}
      modifies this, h
      ensures search == old(search) && Shape(view)
      ensures x in old(view).bags[aid] && forall y :: y in old(view).bags[aid] ==> y.Elem? && x.cid <= y.cid
      ensures view == old(view).(bags := old(view).bags[aid := old(view).bags[aid] - multiset{x}])
    {
      hide Heap.Valid, Heap.Contents;
      x := h.DeleteMin();
      view := view.(bags := view.bags[aid := view.bags[aid] - multiset{x}]);
    }

    /** Lines 928-941: take the first waiting item out, and its anchor when that was the last one. */
    method Pop(ghost r: Next<T>)
      requires Valid() && r != Empty && IsFirst(view.items, r)
      modifies this, view.repr
      ensures Valid() && view.repr == old(view.repr) && view.items == old(view.items) - {(r.aid, r.cid)}
    {
      ghost var first := (r.aid, r.cid);
      hide Shape, Stores, Sorted, Heap.Valid, Heap.Contents;
      hide SearchTree.Bst, SearchTree.Keys, SearchTree.FindMin, SearchTree.Delete;
      ShapeFacts(view);
      ghost var v := view;
      SomeQueue(v.bags, v.items, first);
      StoresMin(search, v.queues);
      var pos := SearchTree.FindMin(search);
      NotEmpty(v.bags, v.items, pos.aid);
      var x := TakeLeast(pos.aid, pos.value);
      Popped(v.bags, v.items, pos.aid, x, first);
      Settle(pos.aid, pos.value, v.items - {first});
    }

    /** After an element has left the heap h of an anchor: drop the anchor when nothing is left. */
    method Settle(aid: nat, h: Heap<T>, ghost rest: map<Key, T>)
      requires Shape(view) && Stores(search, view.queues) && aid in view.queues && view.queues[aid] == h
        && aid in view.bags
      requires view.bags[aid] == multiset{} ==> Sorted(view.bags - {aid}, rest)
      requires view.bags[aid] != multiset{} ==> Sorted(view.bags, rest)
      modifies this
      ensures Valid() && view.repr == old(view.repr) && view.items == rest
    {
      hide Shape, Stores, Sorted, Heap.Valid, Heap.Contents, SearchTree.Bst, SearchTree.Keys, SearchTree.Delete;
      ShapeHeap(view, aid);
      var empty := h.IsEmpty();
      if empty {
        StoresDelete(search, view.queues, aid);
        ShapeDrop(view, aid, rest);
        search := SearchTree.Delete(aid, search);
        view := View(view.queues - {aid}, view.bags - {aid}, rest, view.repr);
      } else {
        ShapeItems(view, rest);
        view := view.(items := rest);
      }
    }
  }

  lemma SomeQueue<T(!new)>(bags: map<nat, multiset<Slot<T>>>, items: map<Key, T>, k: Key)
    requires Sorted(bags, items) && k in items
    ensures k.0 in bags
  {
  }

  /** The element taken is the first item, and what is left is still sorted into its bags. */
  lemma Popped<T(!new)>(bags: map<nat, multiset<Slot<T>>>, items: map<Key, T>, aid: nat, x: Slot<T>, first: Key)
    requires Sorted(bags, items) && aid in bags && x in bags[aid]
    requires forall a :: a in bags ==> aid <= a
    requires forall y :: y in bags[aid] ==> y.Elem? && x.cid <= y.cid
    requires first in items && forall k :: k in items ==> k == first || Before(first, k)
    ensures var left := bags[aid := bags[aid] - multiset{x}];
      && (left[aid] == multiset{} ==> Sorted(left - {aid}, items - {first}))
      && (left[aid] != multiset{} ==> Sorted(left, items - {first}))
  {
    hide Sorted;
    SortedLess(bags, items, aid, x);
    assert bags[aid := bags[aid] - multiset{x}] - {aid} == bags - {aid};
    SortedMin(bags, items, aid, x);
  }

  lemma ShapeFacts<T>(v: View<T>)
    requires Shape(v)
    ensures v.bags.Keys == v.queues.Keys && forall a :: a in v.queues ==> v.queues[a] in v.repr
  {
  }

  lemma ShapeHeap<T>(v: View<T>, a: nat)
    requires Shape(v) && a in v.queues
    ensures a in v.bags && v.queues[a].Valid() && v.queues[a].Contents() == v.bags[a]
  {
  }

  lemma ShapeItems<T>(v: View<T>, items: map<Key, T>)
    requires Shape(v)
    ensures Shape(v.(items := items))
  {
  }

  lemma NotEmpty<T(!new)>(bags: map<nat, multiset<Slot<T>>>, items: map<Key, T>, a: nat)
    requires Sorted(bags, items) && a in bags
    ensures bags[a] != multiset{}
  {
  }
}
