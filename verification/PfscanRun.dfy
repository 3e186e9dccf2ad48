/**
 pfscan as a whole: main queues the paths and closes the queue, nworkers threads scan them, main
 waits for the last one (apps/pfscan/pfscan.c, lines 302-327, 494-520, 705-755; apps/pfscan/pqueue.c,
 lines 49-162).  Whatever runs under one mutex is one step.  A thread in a condition wait
 sleeps until it is signalled; it may also wake up for no reason, and always looks
 again before it goes on.
 */
module PfscanRun {

  /** nworkers, the capacity of the queue, and the number of matches in each queued path. */
  datatype Job = Job(nworkers: nat, qsize: nat, matches: seq<nat>)
  {
    ghost predicate Valid() { nworkers >= 1 && qsize >= 1 }
  }

  /** main: queueing, asleep on less, closed and looking at aworkers, asleep on aworker_cv, through. */
  datatype Main = Putting | WaitLess | Checking | WaitDone | Finished

  /** A worker: about to get, asleep on more, scanning path f with found matches so far, refused, through. */
  datatype Worker = AtGet | WaitMore | Scanning(f: nat, found: nat) | Leaving | Gone

  /** put, taken: how many paths have gone in and out of the queue. */
  datatype State = State(main: Main, put: nat, taken: nat, queue: seq<nat>, closed: bool, ws: seq<Worker>,
    aworkers: int, nmatches: nat)

  datatype Action =
    | PutPath(wake: nat) | FullWait | Close | Check
    | Take(i: nat) | EmptyWait(i: nat) | Refuse(i: nat) | Match(i: nat) | Scanned(i: nat) | Leave(i: nat)
    | Spurious(i: nat) | SpuriousMain

  ghost predicate Init(j: Job, s: State)
  {
    && s.main == Putting && s.put == 0 && s.taken == 0 && s.queue == [] && !s.closed && s.nmatches == 0
    && s.aworkers == j.nworkers && |s.ws| == j.nworkers && forall i :: 0 <= i < |s.ws| ==> s.ws[i] == AtGet
  }

  /** A signal on more: wakes worker `wake` if it sleeps; it must be a sleeper if there is one. */
  ghost function Signalled(ws: seq<Worker>, wake: nat): seq<Worker>
  {
    if wake < |ws| && ws[wake] == WaitMore then ws[wake := AtGet] else ws
  }

  ghost predicate WakesOne(ws: seq<Worker>, wake: nat)
  {
    (exists i :: 0 <= i < |ws| && ws[i] == WaitMore) ==> wake < |ws| && ws[wake] == WaitMore
  }

  /** A broadcast on more. */
  ghost function AllAwake(ws: seq<Worker>): (r: seq<Worker>)
    ensures |r| == |ws| && forall i :: 0 <= i < |ws| ==> r[i] == if ws[i] == WaitMore then AtGet else ws[i]
  {
    seq(|ws|, i requires 0 <= i < |ws| => if ws[i] == WaitMore then AtGet else ws[i])
  }

  ghost predicate Step(j: Job, s: State, s': State, a: Action)
  {
    match a
    case PutPath(wake) =>
      && s.main == Putting && s.put < |j.matches| && !s.closed && |s.queue| < j.qsize && WakesOne(s.ws, wake)
      && s' == s.(put := s.put + 1, queue := s.queue + [s.put], ws := Signalled(s.ws, wake))
    case FullWait =>
      s.main == Putting && s.put < |j.matches| && !s.closed && |s.queue| >= j.qsize && s' == s.(main := WaitLess)
    case Close =>
      s.main == Putting && s.put == |j.matches| && s' == s.(closed := true, ws := AllAwake(s.ws), main := Checking)
    case Check =>
      s.main == Checking && s' == s.(main := if s.aworkers > 0 then WaitDone else Finished)
    case Take(i) =>
      && i < |s.ws| && s.ws[i] == AtGet && s.queue != []
      && s' == s.(ws := s.ws[i := Scanning(s.queue[0], 0)], queue := s.queue[1..], taken := s.taken + 1,
                  main := if s.main == WaitLess then Putting else s.main)
    case EmptyWait(i) =>
      i < |s.ws| && s.ws[i] == AtGet && s.queue == [] && !s.closed && s' == s.(ws := s.ws[i := WaitMore])
    case Refuse(i) =>
      i < |s.ws| && s.ws[i] == AtGet && s.queue == [] && s.closed && s' == s.(ws := s.ws[i := Leaving])
    case Match(i) =>
      && i < |s.ws| && s.ws[i].Scanning? && s.ws[i].f < |j.matches| && s.ws[i].found < j.matches[s.ws[i].f]
      && s' == s.(ws := s.ws[i := s.ws[i].(found := s.ws[i].found + 1)], nmatches := s.nmatches + 1)
    case Scanned(i) =>
      && i < |s.ws| && s.ws[i].Scanning? && s.ws[i].f < |j.matches| && s.ws[i].found == j.matches[s.ws[i].f]
      && s' == s.(ws := s.ws[i := AtGet])
    case Leave(i) =>
      && i < |s.ws| && s.ws[i] == Leaving
      && s' == s.(ws := s.ws[i := Gone], aworkers := s.aworkers - 1, main := if s.main == WaitDone then Checking
        else s.main)
    case Spurious(i) =>
      i < |s.ws| && s.ws[i] == WaitMore && s' == s.(ws := s.ws[i := AtGet])
    case SpuriousMain =>
      (s.main == WaitLess && s' == s.(main := Putting)) || (s.main == WaitDone && s' == s.(main := Checking))
  }

  ghost predicate IsRun(j: Job, tr: seq<State>, acts: seq<Action>)
    decreases |tr|
  {
    && |tr| == |acts| + 1
    && if |acts| == 0 then Init(j, tr[0])
       else
         && IsRun(j, tr[..|tr| - 1], acts[..|acts| - 1])
         && Step(j, tr[|tr| - 2], tr[|tr| - 1], acts[|acts| - 1])
  }

  // ---------------------------------------------------------------------
  // Counting
  // ---------------------------------------------------------------------

  /** Matches in the first m paths. */
  ghost function MatchesIn(j: Job, m: nat): nat
    requires m <= |j.matches|
  {
    if m == 0 then 0 else MatchesIn(j, m - 1) + j.matches[m - 1]
  }

  /** Matches worker w has still to report. */
  ghost function Left(j: Job, w: Worker): int
  {
    if w.Scanning? && w.f < |j.matches| then j.matches[w.f] - w.found else 0
  }

  ghost function LeftAll(j: Job, ws: seq<Worker>): int
  {
    if ws == [] then 0 else LeftAll(j, ws[..|ws| - 1]) + Left(j, ws[|ws| - 1])
  }

  /** How many workers are w. */
  ghost function Number(ws: seq<Worker>, w: Worker): nat
  {
    if ws == [] then 0 else Number(ws[..|ws| - 1], w) + if ws[|ws| - 1] == w then 1 else 0
  }

  lemma {:induction false} UpdateCounts(j: Job, ws: seq<Worker>, i: nat, w: Worker, v: Worker)
    requires i < |ws|
    ensures LeftAll(j, ws[i := w]) == LeftAll(j, ws) - Left(j, ws[i]) + Left(j, w)
    ensures Number(ws[i := w], v) + (if ws[i] == v then 1 else 0) == Number(ws, v) + if w == v then 1 else 0
  {
    var n := |ws| - 1;
    var us := ws[i := w];
    if i < n {
      assert us[..n] == ws[..n][i := w];
      UpdateCounts(j, ws[..n], i, w, v);
    } else {
      assert us[..n] == ws[..n];
    }
  }

  lemma {:induction false} NumberBounds(ws: seq<Worker>, v: Worker)
    ensures Number(ws, v) <= |ws|
    ensures Number(ws, v) == |ws| ==> forall i :: 0 <= i < |ws| ==> ws[i] == v
    ensures Number(ws, v) == 0 <==> forall i :: 0 <= i < |ws| ==> ws[i] != v
  {
    if ws != [] { NumberBounds(ws[..|ws| - 1], v); }
  }

  lemma {:induction false} NothingLeft(j: Job, ws: seq<Worker>)
    requires forall i :: 0 <= i < |ws| ==> !ws[i].Scanning?
    ensures LeftAll(j, ws) == 0
  {
    if ws != [] { NothingLeft(j, ws[..|ws| - 1]); }
  }

  // ---------------------------------------------------------------------
  // The invariant
  // ---------------------------------------------------------------------

  /** The queue holds the paths put and not yet taken, oldest first. */
  ghost predicate QueueOk(j: Job, s: State)
  {
    && s.taken <= s.put <= |j.matches| && |s.queue| == s.put - s.taken && |s.queue| <= j.qsize
    && (forall i :: 0 <= i < |s.queue| ==> s.queue[i] == s.taken + i)
  }

  ghost predicate MainOk(j: Job, s: State)
  {
    && (s.closed <==> s.main == Checking || s.main == WaitDone || s.main == Finished)
    && (s.closed ==> s.put == |j.matches|)
    && (s.main == WaitLess ==> |s.queue| == j.qsize)
    && (s.main == WaitDone ==> s.aworkers > 0)
    && (s.main == Finished ==> s.aworkers == 0)
  }

  ghost predicate WorkersOk(j: Job, s: State)
  {
    && |s.ws| == j.nworkers && s.aworkers == j.nworkers - Number(s.ws, Gone)
    && (forall i :: 0 <= i < |s.ws| && s.ws[i].Scanning? ==>
      s.ws[i].f < s.taken && s.ws[i].f < |j.matches| && s.ws[i].found <= j.matches[s.ws[i].f])
    && (forall i :: 0 <= i < |s.ws| && (s.ws[i] == Leaving || s.ws[i] == Gone) ==> s.closed && s.queue == [])
  }

  /** A sleeping getter never misses an item: there is an awake getter for every item, and nobody sleeps once closed. */
  ghost predicate WakeOk(s: State)
  {
    && (s.closed ==> Number(s.ws, WaitMore) == 0)
    && (Number(s.ws, WaitMore) > 0 ==> |s.queue| <= Number(s.ws, AtGet))
  }

  ghost predicate CountOk(j: Job, s: State)
    requires s.taken <= |j.matches|
  {
    s.nmatches + LeftAll(j, s.ws) == MatchesIn(j, s.taken)
  }

  ghost predicate Inv(j: Job, s: State)
  {
    QueueOk(j, s) && MainOk(j, s) && WorkersOk(j, s) && WakeOk(s) && CountOk(j, s)
  }

  /** All counts that matter when worker i becomes w. */
  lemma Changed(j: Job, ws: seq<Worker>, i: nat, w: Worker)
    requires i < |ws|
    ensures LeftAll(j, ws[i := w]) == LeftAll(j, ws) - Left(j, ws[i]) + Left(j, w)
    ensures Number(ws[i := w], Gone) ==
      Number(ws, Gone) - (if ws[i] == Gone then 1 else 0) + (if w == Gone then 1 else 0)
    ensures Number(ws[i := w], WaitMore) ==
      Number(ws, WaitMore) - (if ws[i] == WaitMore then 1 else 0) + (if w == WaitMore then 1 else 0)
    ensures Number(ws[i := w], AtGet) ==
      Number(ws, AtGet) - (if ws[i] == AtGet then 1 else 0) + (if w == AtGet then 1 else 0)
  {
    UpdateCounts(j, ws, i, w, Gone);
    UpdateCounts(j, ws, i, w, WaitMore);
    UpdateCounts(j, ws, i, w, AtGet);
  }

  lemma {:induction false} AwakeCounts(j: Job, ws: seq<Worker>)
    ensures LeftAll(j, AllAwake(ws)) == LeftAll(j, ws) && Number(AllAwake(ws), Gone) == Number(ws, Gone)
    ensures Number(AllAwake(ws), WaitMore) == 0
  {
    if ws != [] {
      var pre := ws[..|ws| - 1];
      AwakeCounts(j, pre);
      assert AllAwake(ws)[..|ws| - 1] == AllAwake(pre);
    }
  }

  // ---------------------------------------------------------------------
  // Each step keeps the invariant
  // ---------------------------------------------------------------------

  lemma PutKeeps(j: Job, s: State, s': State, wake: nat)
    requires Inv(j, s) && Step(j, s, s', PutPath(wake))
    ensures Inv(j, s')
  {
    hide LeftAll, Number, MatchesIn;
    if wake < |s.ws| { Changed(j, s.ws, wake, AtGet); }
    NumberBounds(s.ws, WaitMore);
    assert Number(s.ws, WaitMore) > 0 ==> wake < |s.ws| && s.ws[wake] == WaitMore;
  }

  lemma CloseKeeps(j: Job, s: State, s': State)
    requires Inv(j, s) && Step(j, s, s', Close)
    ensures Inv(j, s')
  {
    AwakeCounts(j, s.ws);
    hide LeftAll, Number, MatchesIn;
  }

  lemma MainKeeps(j: Job, s: State, s': State, a: Action)
    requires Inv(j, s) && Step(j, s, s', a) && (a == FullWait || a == Check || a == SpuriousMain)
    ensures Inv(j, s')
  {
    NumberBounds(s.ws, Gone);
    hide LeftAll, Number, MatchesIn;
  }

  lemma MatchesNext(j: Job, m: nat)
    requires m < |j.matches|
    ensures MatchesIn(j, m + 1) == MatchesIn(j, m) + j.matches[m]
  {
  }

  lemma TakeKeeps(j: Job, s: State, s': State, i: nat)
    requires Inv(j, s) && Step(j, s, s', Take(i))
    ensures Inv(j, s')
  {
    hide LeftAll, Number, MatchesIn;
    MatchesNext(j, s.taken);
    Changed(j, s.ws, i, Scanning(s.queue[0], 0));
  }

  lemma GetKeeps(j: Job, s: State, s': State, i: nat, a: Action)
    requires Inv(j, s) && Step(j, s, s', a) && (a == EmptyWait(i) || a == Refuse(i) || a == Spurious(i))
    ensures Inv(j, s')
  {
    hide LeftAll, Number, MatchesIn;
    Changed(j, s.ws, i, s'.ws[i]);
  }

  lemma ScanKeeps(j: Job, s: State, s': State, i: nat, a: Action)
    requires Inv(j, s) && Step(j, s, s', a) && (a == Match(i) || a == Scanned(i))
    ensures Inv(j, s')
  {
    hide LeftAll, Number, MatchesIn;
    Changed(j, s.ws, i, s'.ws[i]);
  }

  lemma LeaveKeeps(j: Job, s: State, s': State, i: nat)
    requires Inv(j, s) && Step(j, s, s', Leave(i))
    ensures Inv(j, s')
  {
    Changed(j, s.ws, i, Gone);
    NumberBounds(s'.ws, Gone);
    hide LeftAll, Number, MatchesIn;
  }

  lemma InitHolds(j: Job, s: State)
    requires Init(j, s)
    ensures Inv(j, s)
  {
    NothingLeft(j, s.ws);
    NumberBounds(s.ws, Gone);
    NumberBounds(s.ws, WaitMore);
    hide LeftAll, Number;
  }

  lemma StepKeeps(j: Job, s: State, s': State, a: Action)
    requires Inv(j, s) && Step(j, s, s', a)
    ensures Inv(j, s')
  {
    hide Inv, Step;
    match a
    case PutPath(wake) => PutKeeps(j, s, s', wake);
    case FullWait => MainKeeps(j, s, s', a);
    case Close => CloseKeeps(j, s, s');
    case Check => MainKeeps(j, s, s', a);
    case Take(i) => TakeKeeps(j, s, s', i);
    case EmptyWait(i) => GetKeeps(j, s, s', i, a);
    case Refuse(i) => GetKeeps(j, s, s', i, a);
    case Match(i) => ScanKeeps(j, s, s', i, a);
    case Scanned(i) => ScanKeeps(j, s, s', i, a);
    case Leave(i) => LeaveKeeps(j, s, s', i);
    case Spurious(i) => GetKeeps(j, s, s', i, a);
    case SpuriousMain => MainKeeps(j, s, s', a);
  }

  lemma {:induction false} RunKeeps(j: Job, tr: seq<State>, acts: seq<Action>)
    requires IsRun(j, tr, acts)
    ensures Inv(j, tr[|tr| - 1])
    decreases |tr|
  {
    hide Inv, Step, Init;
    if |acts| == 0 {
      InitHolds(j, tr[0]);
    } else {
      RunKeeps(j, tr[..|tr| - 1], acts[..|acts| - 1]);
      StepKeeps(j, tr[|tr| - 2], tr[|tr| - 1], acts[|acts| - 1]);
    }
  }

  // ---------------------------------------------------------------------
  // Main results
  // ---------------------------------------------------------------------

  /**
   When main returns, every queued path has been taken once and scanned to the end, and n_matches is the full
   total.
   */
  lemma FinishedMeansAllScanned(j: Job, tr: seq<State>, acts: seq<Action>)
    requires j.Valid() && IsRun(j, tr, acts) && tr[|tr| - 1].main == Finished
    ensures var s := tr[|tr| - 1];
      && s.taken == s.put == |j.matches| && s.queue == []
      && (forall i :: 0 <= i < |s.ws| ==> s.ws[i] == Gone)
      && s.nmatches == MatchesIn(j, |j.matches|)
  {
    RunKeeps(j, tr, acts);
    var s := tr[|tr| - 1];
    NumberBounds(s.ws, Gone);
    assert s.ws[0] == Gone;
    NothingLeft(j, s.ws);
  }

  /** Paths leave the queue in the order they went in, each exactly once: the next path taken is the next one put. */
  lemma QueueIsFifo(j: Job, tr: seq<State>, acts: seq<Action>)
    requires IsRun(j, tr, acts)
    ensures var s := tr[|tr| - 1];
      s.taken <= s.put && |s.queue| == s.put - s.taken && forall i :: 0 <= i < |s.queue| ==> s.queue[i] == s.taken + i
  {
    RunKeeps(j, tr, acts);
  }

  /**
   No getter sleeps through an item: if one sleeps and the queue is not empty, another one is awake and about to
   get.
   */
  lemma NoLostWakeup(j: Job, tr: seq<State>, acts: seq<Action>, i: nat) returns (awake: nat)
    requires IsRun(j, tr, acts) && i < |tr[|tr| - 1].ws| && tr[|tr| - 1].ws[i] == WaitMore
    ensures var s := tr[|tr| - 1]; !s.closed && (s.queue != [] ==> awake < |s.ws| && s.ws[awake] == AtGet)
  {
    RunKeeps(j, tr, acts);
    var s := tr[|tr| - 1];
    NumberBounds(s.ws, WaitMore);
    NumberBounds(s.ws, AtGet);
    hide IsRun, Number, LeftAll, MatchesIn;
    awake := 0;
    if s.queue != [] {
      awake :| 0 <= awake < |s.ws| && s.ws[awake] == AtGet;
    }
  }

  /** As long as main has not returned, some thread can go on without a spurious wakeup. */
  lemma NoDeadlock(j: Job, s: State) returns (a: Action, s': State)
    requires j.Valid() && Inv(j, s) && s.main != Finished
    ensures Step(j, s, s', a) && !a.Spurious? && !a.SpuriousMain?
  {
    NumberBounds(s.ws, AtGet);
    NumberBounds(s.ws, WaitMore);
    NumberBounds(s.ws, Gone);
    hide Number, LeftAll, MatchesIn;
    if i :| 0 <= i < |s.ws| && s.ws[i] == AtGet {
      a, s' := GetterMoves(j, s, i);
    } else if i :| 0 <= i < |s.ws| && s.ws[i].Scanning? {
      a, s' := ScannerMoves(j, s, i);
    } else if i :| 0 <= i < |s.ws| && s.ws[i] == Leaving {
      a, s' := Leave(i),
        s.(ws := s.ws[i := Gone], aworkers := s.aworkers - 1, main := if s.main == WaitDone then Checking else s.main);
    } else {
      a, s' := MainMoves(j, s);
    }
  }

  lemma GetterMoves(j: Job, s: State, i: nat) returns (a: Action, s': State)
    requires i < |s.ws| && s.ws[i] == AtGet
    ensures Step(j, s, s', a) && !a.Spurious? && !a.SpuriousMain?
  {
    if s.queue != [] {
      a, s' := Take(i), s.(ws := s.ws[i := Scanning(s.queue[0], 0)], queue := s.queue[1..], taken := s.taken + 1,
                           main := if s.main == WaitLess then Putting else s.main);
    } else if s.closed {
      a, s' := Refuse(i), s.(ws := s.ws[i := Leaving]);
    } else {
      a, s' := EmptyWait(i), s.(ws := s.ws[i := WaitMore]);
    }
  }

  lemma ScannerMoves(j: Job, s: State, i: nat) returns (a: Action, s': State)
    requires WorkersOk(j, s) && i < |s.ws| && s.ws[i].Scanning?
    ensures Step(j, s, s', a) && !a.Spurious? && !a.SpuriousMain?
  {
    hide Number;
    var w := s.ws[i];
    if w.found < j.matches[w.f] {
      a, s' := Match(i), s.(ws := s.ws[i := w.(found := w.found + 1)], nmatches := s.nmatches + 1);
    } else {
      a, s' := Scanned(i), s.(ws := s.ws[i := AtGet]);
    }
  }

  /** With every worker asleep or gone, main is the one that can move. */
  lemma MainMoves(j: Job, s: State) returns (a: Action, s': State)
    requires j.Valid() && Inv(j, s) && s.main != Finished
    requires forall i :: 0 <= i < |s.ws| ==> s.ws[i] == WaitMore || s.ws[i] == Gone
    ensures Step(j, s, s', a) && !a.Spurious? && !a.SpuriousMain?
  {
    NumberBounds(s.ws, AtGet);
    NumberBounds(s.ws, WaitMore);
    AllGone(s.ws);
    hide Number, LeftAll, MatchesIn;
    if s.closed {
      a, s' := Check, s.(main := if s.aworkers > 0 then WaitDone else Finished);
    } else if s.put == |j.matches| {
      assert s.ws[0] == WaitMore;
      a, s' := Close, s.(closed := true, ws := AllAwake(s.ws), main := Checking);
    } else {
      assert s.ws[0] == WaitMore;
      var wake := 0;
      a, s' := PutPath(wake), s.(put := s.put + 1, queue := s.queue + [s.put], ws := Signalled(s.ws, wake));
    }
  }

  lemma {:induction false} AllGone(ws: seq<Worker>)
    requires forall i :: 0 <= i < |ws| ==> ws[i] == WaitMore || ws[i] == Gone
    ensures Number(ws, WaitMore) + Number(ws, Gone) == |ws|
  {
    if ws != [] { AllGone(ws[..|ws| - 1]); }
  }

  // ---------------------------------------------------------------------
  // Every run comes to its end
  // ---------------------------------------------------------------------

  function Weight(w: Worker): nat
  {
    match w case AtGet => 3 case WaitMore => 2 case Scanning(_, _) => 4 case Leaving => 2 case Gone => 0
  }

  ghost function WeightAll(ws: seq<Worker>): nat
  {
    if ws == [] then 0 else WeightAll(ws[..|ws| - 1]) + Weight(ws[|ws| - 1])
  }

  lemma {:induction false} UpdateWeight(ws: seq<Worker>, i: nat, w: Worker)
    requires i < |ws|
    ensures WeightAll(ws[i := w]) + Weight(ws[i]) == WeightAll(ws) + Weight(w)
  {
    var n := |ws| - 1;
    if i < n {
      assert ws[i := w][..n] == ws[..n][i := w];
      UpdateWeight(ws[..n], i, w);
    } else {
      assert ws[i := w][..n] == ws[..n];
    }
  }

  lemma {:induction false} AwakeWeight(ws: seq<Worker>)
    ensures WeightAll(AllAwake(ws)) <= WeightAll(ws) + |ws|
  {
    if ws != [] {
      AwakeWeight(ws[..|ws| - 1]);
      assert AllAwake(ws)[..|ws| - 1] == AllAwake(ws[..|ws| - 1]);
    }
  }

  lemma {:induction false} MatchesGrow(j: Job, m: nat, n: nat)
    requires m <= n <= |j.matches|
    ensures MatchesIn(j, m) <= MatchesIn(j, n)
  {
    if m < n { MatchesGrow(j, m, n - 1); }
  }

  /** Work ahead: paths to put, to take and to report, threads to pass their next point, the closing of the queue. */
  ghost function Ahead(j: Job, s: State): int
    requires s.taken <= |j.matches|
  {
    var n := |j.matches|;
    3 * (n - s.taken) + MatchesIn(j, n) - MatchesIn(j, s.taken) + 2 * (n - s.put)
    + WeightAll(s.ws) + LeftAll(j, s.ws) + (if s.closed then 0 else |s.ws| + 1)
    + (if s.main == Putting || s.main == Checking then 1 else 0)
  }

  lemma {:induction false} LeftIsNat(j: Job, ws: seq<Worker>)
    requires forall i :: 0 <= i < |ws| && ws[i].Scanning? && ws[i].f < |j.matches| ==> ws[i].found <= j.matches[ws[i].f]
    ensures LeftAll(j, ws) >= 0
  {
    if ws != [] { LeftIsNat(j, ws[..|ws| - 1]); }
  }

  /**
   Every step that is not a spurious wakeup takes work away, so with NoDeadlock main returns after finitely many of
   them.
   */
  lemma WorkShrinks(j: Job, s: State, s': State, a: Action)
    requires Inv(j, s) && Step(j, s, s', a) && !a.Spurious? && !a.SpuriousMain?
    ensures s'.taken <= |j.matches| && 0 <= Ahead(j, s') < Ahead(j, s)
  {
    StepKeeps(j, s, s', a);
    MatchesGrow(j, s'.taken, |j.matches|);
    LeftIsNat(j, s'.ws);
    hide Inv, LeftAll, Number, WeightAll, MatchesIn;
    AheadShrinks(j, s, s', a);
    AheadIsNat(j, s');
  }

  lemma AheadIsNat(j: Job, s: State)
    requires Inv(j, s) && LeftAll(j, s.ws) >= 0 && MatchesIn(j, s.taken) <= MatchesIn(j, |j.matches|)
    ensures Ahead(j, s) >= 0
  {
    hide LeftAll, Number, WeightAll, MatchesIn;
  }

  lemma AheadShrinks(j: Job, s: State, s': State, a: Action)
    requires Inv(j, s) && Step(j, s, s', a) && !a.Spurious? && !a.SpuriousMain? && s'.taken <= |j.matches|
    ensures Ahead(j, s') < Ahead(j, s)
  {
    match a
    case PutPath(wake) =>
      if wake < |s.ws| {
        UpdateWeight(s.ws, wake, AtGet);
        Changed(j, s.ws, wake, AtGet);
      }
      hide LeftAll, Number, WeightAll, MatchesIn;
    case FullWait => hide LeftAll, Number, WeightAll, MatchesIn;
    case Check => hide LeftAll, Number, WeightAll, MatchesIn;
    case Close =>
      AwakeWeight(s.ws);
      AwakeCounts(j, s.ws);
      hide LeftAll, Number, WeightAll, MatchesIn;
    case Take(i) => TakeShrinks(j, s, s', i);
    case EmptyWait(i) => GetShrinks(j, s, s', i, a);
    case Refuse(i) => GetShrinks(j, s, s', i, a);
    case Match(i) => ScanShrinks(j, s, s', i, a);
    case Scanned(i) => ScanShrinks(j, s, s', i, a);
    case Leave(i) => GetShrinks(j, s, s', i, a);
  }

  lemma TakeShrinks(j: Job, s: State, s': State, i: nat)
    requires QueueOk(j, s) && Step(j, s, s', Take(i)) && s'.taken <= |j.matches|
    ensures Ahead(j, s') < Ahead(j, s)
  {
    UpdateWeight(s.ws, i, s'.ws[i]);
    Changed(j, s.ws, i, s'.ws[i]);
    assert MatchesIn(j, s.taken + 1) == MatchesIn(j, s.taken) + j.matches[s.taken];
    hide LeftAll, Number, WeightAll, MatchesIn;
  }

  lemma GetShrinks(j: Job, s: State, s': State, i: nat, a: Action)
    requires QueueOk(j, s) && Step(j, s, s', a) && (a == EmptyWait(i) || a == Refuse(i) || a == Leave(i))
    ensures Ahead(j, s') < Ahead(j, s)
  {
    UpdateWeight(s.ws, i, s'.ws[i]);
    Changed(j, s.ws, i, s'.ws[i]);
    hide LeftAll, Number, WeightAll, MatchesIn;
  }

  lemma ScanShrinks(j: Job, s: State, s': State, i: nat, a: Action)
    requires QueueOk(j, s) && Step(j, s, s', a) && (a == Match(i) || a == Scanned(i))
    ensures Ahead(j, s') < Ahead(j, s)
  {
    UpdateWeight(s.ws, i, s'.ws[i]);
    Changed(j, s.ws, i, s'.ws[i]);
    hide LeftAll, Number, WeightAll, MatchesIn;
  }
}
