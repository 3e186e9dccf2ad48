/**
 What the loop of SendBlock, apps/dedup/encoder.c, lines 810-993, writes.  Items arrive in any order.
 After each write the sender reads chunks_per_anchor, which the chunker may still be raising (lines
 441 and 469), to decide whether to leave the anchor (lines 877 and 931); read(k) is what it reads
 after writing k.
 */
module SendLoop {
  import opened ReorderBuffer
  import opened SendOrder

  /** next: the counters anchor_count and reassemble_count; waiting: what is in the tree; out: what was written. */
  datatype Sender = Sender(next: Key, waiting: set<Key>, out: seq<Key>)

  ghost function Write(s: Sender, read: Key -> nat): Sender
  {
    var (a, c) := s.next;
    Sender(if c + 1 == read(s.next) then (a + 1, 0) else (a, c + 1), s.waiting - {s.next}, s.out + [s.next])
  }

  /** The least waiting item is the next one to write. */
  ghost predicate Ready(s: Sender)
  {
    s.next in s.waiting && forall k :: k in s.waiting ==> k == s.next || Before(s.next, k)
  }

  /** Lines 883-944: write as long as the least waiting item is the next one. */
  ghost function Release(s: Sender, read: Key -> nat): Sender
    decreases |s.waiting|
  {
    if Ready(s) then Release(Write(s, read), read) else s
  }

  ghost function Arrive(s: Sender, k: Key): Sender { s.(waiting := s.waiting + {k}) }

  /** Lines 836-971: an item that is next is written, with all it releases; any other item waits. */
  ghost function Take(s: Sender, k: Key, read: Key -> nat): Sender
  {
    if k == s.next then Release(Write(Arrive(s, k), read), read) else Arrive(s, k)
  }

  /** The loop over the first n arrivals. */
  ghost function Loop(ks: seq<Key>, read: Key -> nat, n: nat): Sender
    requires n <= |ks|
  {
    if n == 0 then Sender((0, 0), {}, []) else Take(Loop(ks, read, n - 1), ks[n - 1], read)
  }

  // ---------------------------------------------------------------------
  // What the sender may read
  // ---------------------------------------------------------------------

  /** The chunker raises the count of an anchor before it hands a chunk on, and never above the final count. */
  ghost predicate Sees(counts: seq<nat>, arrived: set<Key>, k: Key, v: nat)
  {
    (k.0 < |counts| ==> v <= counts[k.0]) && forall q :: q in arrived && q.0 == k.0 ==> q.1 < v
  }

  ghost predicate ReleaseSees(counts: seq<nat>, arrived: set<Key>, s: Sender, read: Key -> nat)
    decreases |s.waiting|
  {
    Ready(s) ==> Sees(counts, arrived, s.next, read(s.next)) && ReleaseSees(counts, arrived, Write(s, read), read)
  }

  ghost predicate TakeSees(counts: seq<nat>, arrived: set<Key>, s: Sender, k: Key, read: Key -> nat)
  {
    k == s.next ==>
      Sees(counts, arrived + {k}, k, read(k)) && ReleaseSees(counts, arrived + {k}, Write(Arrive(s, k), read), read)
  }

  ghost function KeysOf(ks: seq<Key>): set<Key> { set i | 0 <= i < |ks| :: ks[i] }

  /** Every count read during the first n arrivals is one the chunker may have left there. */
  ghost predicate LoopSees(counts: seq<nat>, ks: seq<Key>, read: Key -> nat, n: nat)
    requires n <= |ks|
  {
    n > 0 ==>
      && LoopSees(counts, ks, read, n - 1)
      && TakeSees(counts, KeysOf(ks[..n - 1]), Loop(ks, read, n - 1), ks[n - 1], read)
  }

  /** Whenever the sender left an anchor other than the last, the count it had read was the final one. */
  ghost predicate LeavesComplete(counts: seq<nat>, read: Key -> nat, out: seq<Key>)
  {
    forall k :: k in out && k.0 + 1 < |counts| && read(k) == k.1 + 1 ==> read(k) == counts[k.0]
  }

  // ---------------------------------------------------------------------
  // What every run keeps
  // ---------------------------------------------------------------------

  /** Each arrived item is either waiting or written, once. */
  ghost predicate Whole(arrived: set<Key>, s: Sender)
  {
    && (forall k :: k in arrived <==> k in s.waiting || k in s.out)
    && (forall k :: k in s.waiting ==> k !in s.out)
    && (forall i, j :: 0 <= i < j < |s.out| ==> s.out[i] != s.out[j])
  }

  /** All keys before m are out, in order; what else has arrived waits. */
  ghost predicate OutUpto(counts: seq<nat>, arrived: set<Key>, s: Sender, m: Key)
  {
    && (IsKey(counts, m) || m == (|counts|, 0))
    && s.out == Upto(counts, m)
    && (forall k :: k in arrived ==> IsKey(counts, k))
    && (forall k :: k in s.waiting <==> k in arrived && !Before(k, m))
  }

  /** So far in order: the counters name the next item, or the last anchor was left too early. */
  ghost predicate InOrder(counts: seq<nat>, arrived: set<Key>, s: Sender)
  {
    OutUpto(counts, arrived, s, s.next) || (s.next == (|counts|, 0) && exists m: Key :: OutUpto(counts, arrived, s, m))
  }

  /**
   q was passed over: its anchor has been left, and the first item of the next anchor was or will be written before
   it.
   */
  ghost predicate Passed(counts: seq<nat>, s: Sender, q: Key)
  {
    && IsKey(counts, q) && q.0 + 1 < |counts| && q !in s.out && s.next.0 > q.0
    && ((q.0 + 1, 0) in s.out || s.next == (q.0 + 1, 0))
  }

  /** While items are being released: if the next item is there, it is not held up. */
  ghost predicate OutOfOrder(counts: seq<nat>, arrived: set<Key>, s: Sender, q: Key)
  {
    Passed(counts, s, q) && ((q.0 + 1, 0) in s.out || (s.next in arrived ==> Ready(s)))
  }

  ghost predicate Inv(counts: seq<nat>, arrived: set<Key>, s: Sender, read: Key -> nat)
  {
    && Whole(arrived, s)
    && (forall k :: k in arrived ==> IsKey(counts, k))
    && if LeavesComplete(counts, read, s.out) then InOrder(counts, arrived, s)
       else exists q: Key :: OutOfOrder(counts, arrived, s, q)
  }

  lemma WriteKeepsWhole(arrived: set<Key>, s: Sender, read: Key -> nat)
    requires Whole(arrived, s) && s.next in s.waiting
    ensures Whole(arrived, Write(s, read))
  {
    var t := Write(s, read);
    forall k ensures k in t.out <==> k in s.out || k == s.next {
      if k == s.next { assert t.out[|s.out|] == k; }
      if k in s.out { var i :| 0 <= i < |s.out| && s.out[i] == k; assert t.out[i] == k; }
    }
  }

  lemma WriteAddsOne(counts: seq<nat>, s: Sender, read: Key -> nat)
    ensures LeavesComplete(counts, read, Write(s, read).out) <==>
            LeavesComplete(counts, read, s.out)
            && (s.next.0 + 1 < |counts| && read(s.next) == s.next.1 + 1 ==> read(s.next) == counts[s.next.0])
  {
    var t := Write(s, read);
    forall k ensures k in t.out <==> k in s.out || k == s.next {
      if k == s.next { assert t.out[|s.out|] == k; }
      if k in s.out { var i :| 0 <= i < |s.out| && s.out[i] == k; assert t.out[i] == k; }
    }
  }

  /** The next item is written and the counters move on to the one after it. */
  lemma WriteInOrder(counts: seq<nat>, arrived: set<Key>, s: Sender, read: Key -> nat)
    requires forall a :: 0 <= a < |counts| ==> counts[a] >= 1
    requires OutUpto(counts, arrived, s, s.next) && s.next in s.waiting && Sees(counts, arrived, s.next, read(s.next))
    requires read(s.next) == s.next.1 + 1 ==> read(s.next) == counts[s.next.0]
    ensures OutUpto(counts, arrived, Write(s, read), Write(s, read).next)
  {
    UptoSucc(counts, s.next);
    hide Upto;
  }

  /** The last anchor is left too early: nothing more is written in the loop. */
  lemma WriteLast(counts: seq<nat>, arrived: set<Key>, s: Sender, read: Key -> nat)
    requires OutUpto(counts, arrived, s, s.next) && s.next in s.waiting && Sees(counts, arrived, s.next, read(s.next))
    requires read(s.next) == s.next.1 + 1 < counts[s.next.0] && s.next.0 + 1 == |counts|
    ensures Write(s, read).next == (|counts|, 0)
    ensures OutUpto(counts, arrived, Write(s, read), (s.next.0, s.next.1 + 1))
  {
    UptoSucc(counts, s.next);
    hide Upto;
  }

  /** Another anchor is left too early: the item after it is passed over, and nothing holds up the next anchor. */
  lemma WriteEarly(counts: seq<nat>, arrived: set<Key>, s: Sender, read: Key -> nat)
    requires forall a :: 0 <= a < |counts| ==> counts[a] >= 1
    requires OutUpto(counts, arrived, s, s.next) && s.next in s.waiting && Sees(counts, arrived, s.next, read(s.next))
    requires read(s.next) == s.next.1 + 1 < counts[s.next.0] && s.next.0 + 1 < |counts|
    ensures OutOfOrder(counts, arrived, Write(s, read), (s.next.0, s.next.1 + 1))
  {
    var t, q := Write(s, read), (s.next.0, s.next.1 + 1);
    UptoSucc(counts, s.next);
    UptoIsBefore(counts, q, q);
    hide Upto;
    forall k | k in t.waiting ensures t.next in arrived ==> k == t.next || Before(t.next, k) {
      assert Before(s.next, k);
    }
  }

  lemma WriteOutOfOrder(counts: seq<nat>, arrived: set<Key>, s: Sender, read: Key -> nat, q: Key)
    requires Passed(counts, s, q)
    ensures OutOfOrder(counts, arrived, Write(s, read), q)
  {
    var t := Write(s, read);
    assert t.out[|s.out|] == s.next;
    forall k | k in s.out ensures k in t.out {
      var i :| 0 <= i < |s.out| && s.out[i] == k;
      assert t.out[i] == k;
    }
  }

  lemma WriteKeeps(counts: seq<nat>, arrived: set<Key>, s: Sender, read: Key -> nat)
    requires forall a :: 0 <= a < |counts| ==> counts[a] >= 1
    requires Whole(arrived, s) && s.next in s.waiting && Sees(counts, arrived, s.next, read(s.next))
    requires forall k :: k in arrived ==> IsKey(counts, k)
    requires if LeavesComplete(counts, read, s.out) then InOrder(counts, arrived, s)
      else exists q: Key :: Passed(counts, s, q)
    ensures Inv(counts, arrived, Write(s, read), read)
  {
    hide OutUpto, OutOfOrder, Passed, Whole, LeavesComplete, Write;
    WriteKeepsWhole(arrived, s, read);
    WriteAddsOne(counts, s, read);
    WholeHas(arrived, s);
    if !LeavesComplete(counts, read, s.out) {
      var q: Key :| Passed(counts, s, q);
      WriteOutOfOrder(counts, arrived, s, read, q);
    } else if read(s.next) != s.next.1 + 1 || read(s.next) == counts[s.next.0] {
      WriteInOrder(counts, arrived, s, read);
    } else if s.next.0 + 1 == |counts| {
      WriteLast(counts, arrived, s, read);
    } else {
      WriteEarly(counts, arrived, s, read);
    }
  }

  lemma WholeHas(arrived: set<Key>, s: Sender)
    requires Whole(arrived, s)
    ensures forall k :: k in s.waiting ==> k in arrived
  {
  }

  lemma {:induction false} ReleaseKeeps(counts: seq<nat>, arrived: set<Key>, s: Sender, read: Key -> nat)
    requires forall a :: 0 <= a < |counts| ==> counts[a] >= 1
    requires Inv(counts, arrived, s, read) && ReleaseSees(counts, arrived, s, read)
    ensures Inv(counts, arrived, Release(s, read), read) && !Ready(Release(s, read))
    decreases |s.waiting|
  {
    hide OutUpto, Whole, LeavesComplete, InOrder, Sees;
    if Ready(s) {
      WriteKeeps(counts, arrived, s, read);
      ReleaseKeeps(counts, arrived, Write(s, read), read);
    }
  }

  lemma ArriveKeepsWhole(arrived: set<Key>, s: Sender, k: Key)
    requires Whole(arrived, s) && k !in arrived
    ensures Whole(arrived + {k}, Arrive(s, k))
  {
  }

  lemma ArriveInOrder(counts: seq<nat>, arrived: set<Key>, s: Sender, k: Key, m: Key)
    requires OutUpto(counts, arrived, s, m) && Whole(arrived, s) && k !in arrived && IsKey(counts, k)
    ensures OutUpto(counts, arrived + {k}, Arrive(s, k), m)
  {
    UptoIsBefore(counts, m, k);
    hide Upto;
  }

  lemma ArriveKeeps(counts: seq<nat>, arrived: set<Key>, s: Sender, read: Key -> nat, k: Key)
    requires Inv(counts, arrived, s, read) && !Ready(s) && k !in arrived && IsKey(counts, k)
    ensures var t := Arrive(s, k);
      && Whole(arrived + {k}, t)
      && (LeavesComplete(counts, read, s.out) ==> InOrder(counts, arrived + {k}, t))
      && (!LeavesComplete(counts, read, s.out) ==> exists q: Key :: Passed(counts, t, q))
      && (k != s.next ==> Inv(counts, arrived + {k}, t, read))
  {
    hide OutUpto, Whole, LeavesComplete;
    ArriveKeepsWhole(arrived, s, k);
    if LeavesComplete(counts, read, s.out) {
      var m: Key :| OutUpto(counts, arrived, s, m) && (m == s.next || s.next == (|counts|, 0));
      ArriveInOrder(counts, arrived, s, k, m);
    } else {
      var q: Key :| OutOfOrder(counts, arrived, s, q);
      assert Passed(counts, Arrive(s, k), q);
      assert k != s.next ==> OutOfOrder(counts, arrived + {k}, Arrive(s, k), q);
    }
  }

  lemma TakeKeeps(counts: seq<nat>, arrived: set<Key>, s: Sender, read: Key -> nat, k: Key)
    requires forall a :: 0 <= a < |counts| ==> counts[a] >= 1
    requires Inv(counts, arrived, s, read) && !Ready(s) && k !in arrived && IsKey(counts, k)
    requires TakeSees(counts, arrived, s, k, read)
    ensures Inv(counts, arrived + {k}, Take(s, k, read), read) && !Ready(Take(s, k, read))
  {
    ArriveKeeps(counts, arrived, s, read, k);
    if k == s.next {
      var t := Arrive(s, k);
      KeysStay(counts, arrived, s, read, k);
      hide Whole, LeavesComplete, InOrder, Passed, Sees, Write;
      WriteKeeps(counts, arrived + {k}, t, read);
      ReleaseKeeps(counts, arrived + {k}, Write(t, read), read);
    } else {
      assert s.next !in s.waiting ==> s.next !in Arrive(s, k).waiting;
    }
  }

  lemma KeysStay(counts: seq<nat>, arrived: set<Key>, s: Sender, read: Key -> nat, k: Key)
    requires Inv(counts, arrived, s, read) && IsKey(counts, k)
    ensures forall q :: q in arrived + {k} ==> IsKey(counts, q)
  {
  }

  // ---------------------------------------------------------------------
  // The whole loop
  // ---------------------------------------------------------------------

  /** Every chunk of every anchor arrives exactly once. */
  ghost predicate AllArrive(counts: seq<nat>, ks: seq<Key>)
  {
    && (forall a :: 0 <= a < |counts| ==> counts[a] >= 1)
    && (forall p :: 0 <= p < |ks| ==> IsKey(counts, ks[p]))
    && (forall p, q :: 0 <= p < q < |ks| ==> ks[p] != ks[q])
    && (forall k :: IsKey(counts, k) ==> k in ks)
  }

  lemma KeysNext(ks: seq<Key>, n: nat)
    requires n < |ks| && forall p, q :: 0 <= p < q < |ks| ==> ks[p] != ks[q]
    ensures ks[n] !in KeysOf(ks[..n]) && KeysOf(ks[..n + 1]) == KeysOf(ks[..n]) + {ks[n]}
  {
    var a, b := ks[..n], ks[..n + 1];
    forall k ensures k in KeysOf(b) <==> k in KeysOf(a) || k == ks[n] {
      if k in KeysOf(b) {
        var i :| 0 <= i < |b| && b[i] == k;
        if i < n { assert a[i] == k; }
      }
      if k in KeysOf(a) {
        var i :| 0 <= i < |a| && a[i] == k;
        assert b[i] == k;
      }
      if k == ks[n] { assert b[n] == k; }
    }
  }

  lemma InvAtStart(counts: seq<nat>, read: Key -> nat)
    requires forall a :: 0 <= a < |counts| ==> counts[a] >= 1
    ensures Inv(counts, {}, Sender((0, 0), {}, []), read)
  {
    var s := Sender((0, 0), {}, []);
    assert Upto(counts, (0, 0)) == [];
    assert OutUpto(counts, {}, s, s.next);
  }

  lemma {:induction false} LoopKeeps(counts: seq<nat>, ks: seq<Key>, read: Key -> nat, n: nat)
    requires AllArrive(counts, ks) && n <= |ks| && LoopSees(counts, ks, read, n)
    ensures Inv(counts, KeysOf(ks[..n]), Loop(ks, read, n), read) && !Ready(Loop(ks, read, n))
  {
    hide Inv, TakeSees, Take;
    if n == 0 {
      assert KeysOf(ks[..0]) == {};
      InvAtStart(counts, read);
    } else {
      LoopKeeps(counts, ks, read, n - 1);
      KeysNext(ks, n - 1);
      TakeKeeps(counts, KeysOf(ks[..n - 1]), Loop(ks, read, n - 1), read, ks[n - 1]);
    }
  }

  /** rest lists the waiting items by increasing keys, as the last loop writes them (lines 996-1045). */
  ghost predicate IsListing(waiting: set<Key>, rest: seq<Key>)
  {
    Increasing(rest) && forall k :: k in rest <==> k in waiting
  }

  /** keys is what a loop over the arrivals and the flush after it write. */
  ghost predicate IsOutput(ks: seq<Key>, read: Key -> nat, keys: seq<Key>)
  {
    exists rest :: IsListing(Loop(ks, read, |ks|).waiting, rest) && keys == Loop(ks, read, |ks|).out + rest
  }

  lemma AllKeys(counts: seq<nat>, ks: seq<Key>)
    requires AllArrive(counts, ks)
    ensures forall k :: k in KeysOf(ks) <==> IsKey(counts, k)
  {
    forall k | IsKey(counts, k) ensures k in KeysOf(ks) {
      var p :| 0 <= p < |ks| && ks[p] == k;
    }
  }

  /** What is in order when everything has arrived is the output order once the rest is flushed. */
  lemma EndsInOrder(counts: seq<nat>, arrived: set<Key>, s: Sender, rest: seq<Key>, m: Key)
    requires forall k :: k in arrived <==> IsKey(counts, k)
    requires OutUpto(counts, arrived, s, m) && IsListing(s.waiting, rest)
    ensures s.out + rest == Order(counts, |counts|)
  {
    var order, out := Order(counts, |counts|), s.out;
    OrderIncreases(counts, |counts|);
    UptoIncreases(counts, m);
    hide Upto, Order;
    forall k ensures k in out <==> IsKey(counts, k) && Before(k, m) { UptoIsBefore(counts, m, k); }
    forall k ensures k in order <==> IsKey(counts, k) { OrderHasAll(counts, k); }
    JoinIncreases(out, rest, m);
    OneListing(out + rest, order);
  }

  lemma JoinIncreases(xs: seq<Key>, ys: seq<Key>, m: Key)
    requires Increasing(xs) && Increasing(ys)
    requires (forall k :: k in xs ==> Before(k, m)) && (forall k :: k in ys ==> !Before(k, m))
    ensures Increasing(xs + ys)
  {
    var all := xs + ys;
    forall i, j | 0 <= i < j < |all| ensures Before(all[i], all[j]) {
      if i < |xs| <= j { assert xs[i] in xs && ys[j - |xs|] in ys; }
    }
  }

  lemma UptoIncreases(counts: seq<nat>, m: Key)
    requires m.0 <= |counts|
    ensures Increasing(Upto(counts, m))
  {
    OrderIncreases(counts, m.0);
  }

  /** An item that was passed over comes out after an item that should follow it. */
  lemma EndsOutOfOrder(counts: seq<nat>, arrived: set<Key>, s: Sender, rest: seq<Key>, q: Key)
    requires forall k :: k in arrived <==> IsKey(counts, k)
    requires forall a :: 0 <= a < |counts| ==> counts[a] >= 1
    requires OutOfOrder(counts, arrived, s, q) && !Ready(s) && Whole(arrived, s) && IsListing(s.waiting, rest)
    ensures s.out + rest != Order(counts, |counts|)
  {
    hide Order, Increasing, OutOfOrder, Whole, Ready;
    PassedOver(counts, arrived, s, q);
    NotIncreasing(s.out, rest, (q.0 + 1, 0), q);
    OrderIncreases(counts, |counts|);
  }

  lemma PassedOver(counts: seq<nat>, arrived: set<Key>, s: Sender, q: Key)
    requires forall k :: k in arrived <==> IsKey(counts, k)
    requires forall a :: 0 <= a < |counts| ==> counts[a] >= 1
    requires OutOfOrder(counts, arrived, s, q) && !Ready(s) && Whole(arrived, s)
    ensures (q.0 + 1, 0) in s.out && q in s.waiting
  {
    hide Ready;
    assert IsKey(counts, (q.0 + 1, 0));
  }

  lemma NotIncreasing(xs: seq<Key>, ys: seq<Key>, f: Key, q: Key)
    requires f in xs && q in ys && !Before(f, q)
    ensures !Increasing(xs + ys)
  {
    var i :| 0 <= i < |xs| && xs[i] == f;
    var j :| 0 <= j < |ys| && ys[j] == q;
    var all := xs + ys;
    assert all[i] == f && all[|xs| + j] == q;
  }

  /**
   For every order of arrival and whatever counts the sender reads on its way: the items come out in
   output order if and only if it never left an anchor other than the last on a count that still grew.
   */
  lemma OrderedIff(counts: seq<nat>, ks: seq<Key>, read: Key -> nat, rest: seq<Key>)
    requires AllArrive(counts, ks) && LoopSees(counts, ks, read, |ks|) && IsListing(Loop(ks, read, |ks|).waiting, rest)
    ensures Loop(ks, read, |ks|).out + rest == Order(counts, |counts|)
       <==> LeavesComplete(counts, read, Loop(ks, read, |ks|).out)
  {
    var s := Loop(ks, read, |ks|);
    assert ks[..|ks|] == ks;
    LoopKeeps(counts, ks, read, |ks|);
    AllKeys(counts, ks);
    hide Loop, LoopSees, Whole, OutUpto, OutOfOrder, Order, Ready, IsListing, LeavesComplete, KeysOf;
    if LeavesComplete(counts, read, s.out) {
      var m: Key :| OutUpto(counts, KeysOf(ks), s, m);
      EndsInOrder(counts, KeysOf(ks), s, rest, m);
    } else {
      var q: Key :| OutOfOrder(counts, KeysOf(ks), s, q);
      EndsOutOfOrder(counts, KeysOf(ks), s, rest, q);
    }
  }

  /** In order or not, each item comes out exactly once. */
  lemma EachOnce(counts: seq<nat>, ks: seq<Key>, read: Key -> nat, rest: seq<Key>)
    requires AllArrive(counts, ks) && LoopSees(counts, ks, read, |ks|) && IsListing(Loop(ks, read, |ks|).waiting, rest)
    ensures var out := Loop(ks, read, |ks|).out + rest;
      (forall k :: k in out <==> IsKey(counts, k)) && forall i, j :: 0 <= i < j < |out| ==> out[i] != out[j]
  {
    var s := Loop(ks, read, |ks|);
    assert ks[..|ks|] == ks;
    LoopKeeps(counts, ks, read, |ks|);
    AllKeys(counts, ks);
    hide Loop, LoopSees, LeavesComplete, KeysOf, InOrder, OutOfOrder;
    assert Whole(KeysOf(ks), s);
    OnceEach(s.out, rest);
  }

  lemma OnceEach(xs: seq<Key>, ys: seq<Key>)
    requires forall i, j :: 0 <= i < j < |xs| ==> xs[i] != xs[j]
    requires Increasing(ys) && forall k :: k in ys ==> k !in xs
    ensures forall i, j :: 0 <= i < j < |xs + ys| ==> (xs + ys)[i] != (xs + ys)[j]
  {
    var all := xs + ys;
    forall i, j | 0 <= i < j < |all| ensures all[i] != all[j] {
      if i < |xs| <= j { assert xs[i] in xs && ys[j - |xs|] in ys; }
    }
  }

  /** order holds the places of the keys in the data. */
  ghost predicate ArePlaces(counts: seq<nat>, keys: seq<Key>, order: seq<nat>)
  {
    |order| == |keys| && forall i :: 0 <= i < |keys| ==> IsKey(counts, keys[i]) && order[i] == PlaceOf(counts, keys[i])
  }

  /** The chunks are sent as 0, 1, 2, ... under exactly the same condition. */
  lemma SentInOrderIff(counts: seq<nat>, ks: seq<Key>, read: Key -> nat, keys: seq<Key>, order: seq<nat>)
    requires AllArrive(counts, ks) && LoopSees(counts, ks, read, |ks|) && IsOutput(ks, read, keys)
      && ArePlaces(counts, keys, order)
    ensures order == seq(|order|, i => i) <==> LeavesComplete(counts, read, Loop(ks, read, |ks|).out)
    ensures |order| == |Order(counts, |counts|)|
  {
    var rest :| IsListing(Loop(ks, read, |ks|).waiting, rest) && keys == Loop(ks, read, |ks|).out + rest;
    OrderedIff(counts, ks, read, rest);
    EachOnce(counts, ks, read, rest);
    hide AllArrive, Loop, LoopSees, IsListing, LeavesComplete, Order, PlaceOf;
    ByPlaceIff(counts, keys, order);
    SameLength(counts, keys);
  }

  lemma ByPlaceIff(counts: seq<nat>, keys: seq<Key>, order: seq<nat>)
    requires ArePlaces(counts, keys, order) && forall k :: k in keys <==> IsKey(counts, k)
    ensures order == seq(|order|, i => i) <==> keys == Order(counts, |counts|)
  {
    OrderIsByPlace(counts, |counts|);
    OrderIncreases(counts, |counts|);
    if order == seq(|order|, i => i) {
      var all := Order(counts, |counts|);
      hide Order, PlaceOf;
      forall i, j | 0 <= i < j < |keys| ensures Before(keys[i], keys[j]) {
        assert order[i] < order[j];
        if !Before(keys[i], keys[j]) && keys[i] != keys[j] { PlacesIncrease(counts, keys[j], keys[i]); }
      }
      forall k ensures k in keys <==> k in all { OrderHasAll(counts, k); }
      OneListing(keys, all);
    }
  }

  lemma SameLength(counts: seq<nat>, keys: seq<Key>)
    requires forall i, j :: 0 <= i < j < |keys| ==> keys[i] != keys[j]
    requires forall k :: k in keys <==> IsKey(counts, k)
    ensures |keys| == |Order(counts, |counts|)|
  {
    var all := Order(counts, |counts|);
    OrderIncreases(counts, |counts|);
    hide Order;
    forall k ensures k in keys <==> k in all { OrderHasAll(counts, k); }
    DistinctSize(keys);
    DistinctSize(all);
    SameKeys(keys, all);
  }

  lemma SameKeys(xs: seq<Key>, ys: seq<Key>)
    requires forall k :: k in xs <==> k in ys
    ensures KeysOf(xs) == KeysOf(ys)
  {
    forall k ensures k in KeysOf(xs) <==> k in xs { InKeys(xs, k); }
    forall k ensures k in KeysOf(ys) <==> k in ys { InKeys(ys, k); }
  }

  lemma InKeys(xs: seq<Key>, k: Key)
    ensures k in KeysOf(xs) <==> k in xs
  {
  }

  lemma {:induction false} DistinctSize(xs: seq<Key>)
    requires forall i, j :: 0 <= i < j < |xs| ==> xs[i] != xs[j]
    ensures |KeysOf(xs)| == |xs|
  {
    if xs != [] {
      var n := |xs| - 1;
      KeysNext(xs, n);
      DistinctSize(xs[..n]);
      assert xs[..n + 1] == xs;
    }
  }

  // ---------------------------------------------------------------------
  // A sender that starts after its producers
  // ---------------------------------------------------------------------

  /** The counts when all chunks have been found. */
  function Final(counts: seq<nat>): Key -> nat
  {
    (k: Key) => if k.0 < |counts| then counts[k.0] else 0
  }

  lemma {:induction false} ReleaseSeesFinal(counts: seq<nat>, arrived: set<Key>, s: Sender)
    requires forall k :: k in arrived ==> IsKey(counts, k)
    ensures ReleaseSees(counts, arrived, s, Final(counts))
    decreases |s.waiting|
  {
    if Ready(s) {
      ReleaseSeesFinal(counts, arrived, Write(s, Final(counts)));
    }
  }

  lemma {:induction false} LoopSeesFinal(counts: seq<nat>, ks: seq<Key>, n: nat)
    requires n <= |ks| && forall p :: 0 <= p < |ks| ==> IsKey(counts, ks[p])
    ensures LoopSees(counts, ks, Final(counts), n)
  {
    if n > 0 {
      LoopSeesFinal(counts, ks, n - 1);
      var s, k := Loop(ks, Final(counts), n - 1), ks[n - 1];
      var arrived := KeysOf(ks[..n - 1]) + {k};
      forall q | q in arrived ensures IsKey(counts, q) {
        if q != k { var i :| 0 <= i < n - 1 && ks[..n - 1][i] == q; }
      }
      hide Loop, Release, LoopSees, KeysOf;
      ReleaseSeesFinal(counts, arrived, Write(Arrive(s, k), Final(counts)));
    }
  }

  /** With final counts the items come out in order, whatever the order of arrival. */
  lemma OrderedWithFinalCounts(counts: seq<nat>, ks: seq<Key>, rest: seq<Key>)
    requires AllArrive(counts, ks) && IsListing(Loop(ks, Final(counts), |ks|).waiting, rest)
    ensures Loop(ks, Final(counts), |ks|).out + rest == Order(counts, |counts|)
  {
    LoopSeesFinal(counts, ks, |ks|);
    OrderedIff(counts, ks, Final(counts), rest);
  }

  // ---------------------------------------------------------------------
  // A sender beside its producers
  // ---------------------------------------------------------------------

  /** Three coarse chunks are cut into 19, 2 and 1 chunks; the first batch of 20 ends inside the second. */
  const COUNTS: seq<nat> := [19, 2, 1]

  /** The count of the second is still 1 when its first chunk is written. */
  function EarlyRead(k: Key): nat { if k == (1, 0) then 1 else Final(COUNTS)(k) }

  ghost function Arrivals(): seq<Key> { Row(0, 19) + [(1, 0), (2, 0), (1, 1)] }

  /** An item that is next and finds nothing waiting is written, and nothing else happens. */
  lemma TakeAlone(counts: seq<nat>, ks: seq<Key>, read: Key -> nat, n: nat)
    requires n < |ks| && LoopSees(counts, ks, read, n)
    requires Loop(ks, read, n).waiting == {} && ks[n] == Loop(ks, read, n).next
    requires Sees(counts, KeysOf(ks[..n]) + {ks[n]}, ks[n], read(ks[n]))
    ensures var k := ks[n];
      Loop(ks, read, n + 1) ==
      Sender(if k.1 + 1 == read(k) then (k.0 + 1, 0) else (k.0, k.1 + 1), {}, Loop(ks, read, n).out + [k])
    ensures LoopSees(counts, ks, read, n + 1)
  {
    hide Sees, KeysOf;
    var s, k := Loop(ks, read, n), ks[n];
    var t := Write(Arrive(s, k), read);
    assert t.waiting == {};
    assert Loop(ks, read, n + 1) == Take(s, k, read);
    assert TakeSees(counts, KeysOf(ks[..n]), s, k, read);
  }

  lemma ArrivalsAre(n: nat)
    requires n <= 21
    ensures |Arrivals()| == 22
      && Arrivals()[n] == if n < 19 then (0, n) else if n == 19 then (1, 0) else if n == 20 then (2, 0) else (1, 1)
    ensures forall q :: q in KeysOf(Arrivals()[..n]) ==> IsKey(COUNTS, q) && q != (1, 1)
  {
    var ks := Arrivals();
    forall q | q in KeysOf(ks[..n]) ensures IsKey(COUNTS, q) && q != (1, 1) {
      var i :| 0 <= i < n && ks[..n][i] == q;
    }
  }

  lemma SeenEarly(k: Key, arrived: set<Key>)
    requires IsKey(COUNTS, k) && forall q :: q in arrived ==> IsKey(COUNTS, q) && q != (1, 1)
    requires k != (1, 1)
    ensures Sees(COUNTS, arrived + {k}, k, EarlyRead(k))
  {
  }

  /** Up to the arrival of (2, 0) everything is written on arrival. */
  lemma {:induction false} WrittenAtOnce(n: nat)
    requires n <= 21
    ensures |Arrivals()| == 22 && LoopSees(COUNTS, Arrivals(), EarlyRead, n)
    ensures Loop(Arrivals(), EarlyRead, n) == Sender(if n < 19 then (0, n) else (n - 18, 0), {}, Arrivals()[..n])
  {
    hide Loop, LoopSees, Arrivals;
    if n == 0 {
      NothingYet();
    } else {
      WrittenAtOnce(n - 1);
      OneMoreAtOnce(Arrivals(), n - 1);
    }
  }

  lemma NothingYet()
    ensures |Arrivals()| == 22 && LoopSees(COUNTS, Arrivals(), EarlyRead, 0)
    ensures Loop(Arrivals(), EarlyRead, 0) == Sender((0, 0), {}, Arrivals()[..0])
  {
    ArrivalsAre(0);
  }

  lemma OneMoreAtOnce(ks: seq<Key>, n: nat)
    requires n < 21 && ks == Arrivals() && |ks| == 22 && LoopSees(COUNTS, ks, EarlyRead, n)
    requires Loop(ks, EarlyRead, n) == Sender(if n < 19 then (0, n) else (n - 18, 0), {}, ks[..n])
    ensures LoopSees(COUNTS, ks, EarlyRead, n + 1)
    ensures Loop(ks, EarlyRead, n + 1) == Sender(if n + 1 < 19 then (0, n + 1) else (n - 17, 0), {}, ks[..n + 1])
  {
    hide Loop, LoopSees, KeysOf, Arrivals, Sees;
    ArrivalsAre(n);
    SeenEarly(ks[n], KeysOf(ks[..n]));
    TakeAlone(COUNTS, ks, EarlyRead, n);
    assert ks[..n + 1] == ks[..n] + [ks[n]];
  }

  lemma InArrivals(k: Key)
    requires IsKey(COUNTS, k)
    ensures k in Arrivals()
  {
    var ks := Arrivals();
    var i := if k.0 == 0 then k.1 else if k == (1, 0) then 19 else if k == (1, 1) then 21 else 20;
    assert ks[i] == k;
  }

  lemma ArrivalsComplete()
    ensures AllArrive(COUNTS, Arrivals())
  {
    forall k: Key | IsKey(COUNTS, k) ensures k in Arrivals() { InArrivals(k); }
  }

  lemma FailingRun(ks: seq<Key>)
    requires ks == Arrivals()
    ensures |ks| == 22 && LoopSees(COUNTS, ks, EarlyRead, 22)
    ensures Loop(ks, EarlyRead, 22) == Sender((3, 0), {(1, 1)}, ks[..21])
  {
    hide Loop, LoopSees, Arrivals;
    var n := 21;
    ArrivalsAre(n);
    WrittenAtOnce(n);
    OneWaits(ks, n);
  }

  lemma WrongOrder(out: seq<Key>)
    requires (2, 0) in out
    ensures out + [(1, 1)] != Order(COUNTS, |COUNTS|)
  {
    hide Order, Increasing;
    NotIncreasing(out, [(1, 1)], (2, 0), (1, 1));
    OrderIncreases(COUNTS, |COUNTS|);
  }

  /** A run beside the producers in which chunk (1, 1) comes out after chunk (2, 0). */
  lemma EarlyLeaveFails(ks: seq<Key>)
    requires ks == Arrivals()
    ensures AllArrive(COUNTS, ks) && |ks| == 22 && LoopSees(COUNTS, ks, EarlyRead, 22)
    ensures Loop(ks, EarlyRead, 22) == Sender((3, 0), {(1, 1)}, ks[..21])
    ensures ks[..21] + [(1, 1)] != Order(COUNTS, |COUNTS|)
  {
    hide Loop, LoopSees, Order, AllArrive, Arrivals;
    ArrivalsComplete();
    FailingRun(ks);
    ArrivalsAre(20);
    assert ks[..21][20] == (2, 0);
    WrongOrder(ks[..21]);
  }

  lemma OneWaits(ks: seq<Key>, n: nat)
    requires n < |ks| && LoopSees(COUNTS, ks, EarlyRead, n) && Loop(ks, EarlyRead, n).waiting == {}
      && ks[n] != Loop(ks, EarlyRead, n).next
    ensures Loop(ks, EarlyRead, n + 1) == Loop(ks, EarlyRead, n).(waiting := {ks[n]})
      && LoopSees(COUNTS, ks, EarlyRead, n + 1)
  {
    assert Loop(ks, EarlyRead, n + 1) == Take(Loop(ks, EarlyRead, n), ks[n], EarlyRead);
  }
}
