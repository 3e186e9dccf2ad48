/**
 The sender over several groups of queues, apps/dedup/encoder.c, lines 810-825: it dequeues from the
 groups in turn and stops when all of them have refused it one after the other.  Group g has ts[g]
 threads in each pool (lines 1075-1099).
 */
module DedupGroups {
  import opened DedupPipeline

  const MAX_THREADS_PER_QUEUE: nat := 4

  /** Encode, lines 1075-1093: every queue counts exactly the threads whose number divided by four is its own. */
  method ThreadsPerQueue(nthreads: nat) returns (ts: seq<nat>)
    ensures forall i: nat :: i < nthreads ==> i / MAX_THREADS_PER_QUEUE < |ts|
    ensures forall g: nat :: g < |ts| ==> ts[g] >= 1 && CountsItsThreads(nthreads, g, ts[g])
  {
    var nqueues := nthreads / MAX_THREADS_PER_QUEUE + if nthreads % MAX_THREADS_PER_QUEUE != 0 then 1 else 0;
    ts := [];
    var i := 0;
    while i < nqueues
      invariant 0 <= i == |ts| <= nqueues
      invariant forall g: nat :: g < i ==> ts[g] >= 1 && CountsItsThreads(nthreads, g, ts[g])
    {
      var threadsPerQueue := MAX_THREADS_PER_QUEUE;
      if !(i < nqueues - 1 || nthreads % MAX_THREADS_PER_QUEUE == 0) {
        threadsPerQueue := nthreads % MAX_THREADS_PER_QUEUE;
      }
      ts := ts + [threadsPerQueue];
      i := i + 1;
    }
  }

  /** Of the threads 0..nthreads, the t from MAX_THREADS_PER_QUEUE * g on use queue g, and no others. */
  ghost predicate CountsItsThreads(nthreads: nat, g: nat, t: nat)
  {
    var first := MAX_THREADS_PER_QUEUE * g;
    forall i: nat :: i < nthreads && i / MAX_THREADS_PER_QUEUE == g <==> first <= i < first + t
  }

  /**
   gs: the groups; qid: the group whose send queue is next; refused: refusals in a row; stopped: the loop was left.
   */
  datatype Groups = Groups(gs: seq<State>, qid: nat, refused: nat, stopped: bool)

  /** A step of a thread of group g, a batch of n items for the sender, or a refusal. */
  datatype Move = Stage(g: nat, a: Action) | Batch(n: nat) | Refuse

  function Next(q: nat, n: nat): nat { if q + 1 < n then q + 1 else 0 }

  /** The group that was asked j turns ago. */
  function Back(q: nat, j: nat, n: nat): (r: nat)
    requires q < n && j <= n
    ensures r < n
  {
    if q >= j then q - j else q + n - j
  }

  ghost predicate Form(ts: seq<nat>, alls: seq<Bag>, s: Groups)
  {
    |s.gs| == |ts| == |alls| >= 1 && s.qid < |alls| && forall g :: 0 <= g < |alls| ==> Shape(ts[g], s.gs[g])
  }

  ghost predicate Start(ts: seq<nat>, alls: seq<Bag>, s: Groups)
  {
    && Form(ts, alls, s) && s.qid == 0 && s.refused == 0 && !s.stopped
    && forall g :: 0 <= g < |alls| ==> Init(ts[g], alls[g], s.gs[g])
  }

  /** One group makes step a, the others stay. */
  ghost predicate Within(t: nat, gs: seq<State>, gs': seq<State>, g: nat, a: Action)
    requires g < |gs| && Shape(t, gs[g])
  {
    |gs'| == |gs| && Step(t, gs[g], gs'[g], a) && gs' == gs[g := gs'[g]]
  }

  ghost predicate Does(ts: seq<nat>, alls: seq<Bag>, s: Groups, s': Groups, m: Move)
    requires Form(ts, alls, s)
  {
    match m
    case Stage(g, a) => g < |alls| && !a.Send? && Within(ts[g], s.gs, s'.gs, g, a) && s' == s.(gs := s'.gs)
    case Batch(n) =>
      && !s.stopped && Within(ts[s.qid], s.gs, s'.gs, s.qid, Send(n))
      && s' == Groups(s'.gs, Next(s.qid, |alls|), 0, false)
    case Refuse =>
      && !s.stopped && Closed(ts[s.qid], s.gs[s.qid], 3)
      && s' == Groups(s.gs, Next(s.qid, |alls|), s.refused + 1, s.refused + 1 == |alls|)
  }

  ghost predicate IsGroupRun(ts: seq<nat>, alls: seq<Bag>, tr: seq<Groups>, ms: seq<Move>)
    decreases |tr|
  {
    && |tr| == |ms| + 1
    && if |ms| == 0 then Start(ts, alls, tr[0])
       else
         && IsGroupRun(ts, alls, tr[..|tr| - 1], ms[..|ms| - 1])
         && Form(ts, alls, tr[|tr| - 2])
         && Does(ts, alls, tr[|tr| - 2], tr[|tr| - 1], ms[|ms| - 1])
  }

  /** The groups that refused last are still closed. */
  ghost predicate RefusedAre(ts: seq<nat>, alls: seq<Bag>, s: Groups)
    requires Form(ts, alls, s)
  {
    && s.refused <= |alls| && (s.stopped <==> s.refused == |alls|)
    && forall j :: 1 <= j <= s.refused ==> var g := Back(s.qid, j, |alls|); Closed(ts[g], s.gs[g], 3)
  }

  ghost predicate Keeps(ts: seq<nat>, alls: seq<Bag>, s: Groups)
  {
    && Form(ts, alls, s) && (forall g :: 0 <= g < |alls| ==> Inv(ts[g], alls[g], s.gs[g]))
    && RefusedAre(ts, alls, s)
  }

  /** A group whose send queue is closed has come to its end and makes no step any more. */
  lemma ClosedIsOver(t: nat, all: Bag, s: State, s': State, a: Action)
    requires Inv(t, all, s) && Closed(t, s, 3)
    ensures !Step(t, s, s', a) && s.got == all
  {
    hide Step, Conserved;
    AtTheEnd(t, s);
    NothingAfterTheEnd(t, s, s', a);
    EverythingSent(t, all, s);
  }

  lemma WithinKeeps(ts: seq<nat>, alls: seq<Bag>, s: Groups, gs': seq<State>, g: nat, a: Action)
    requires Keeps(ts, alls, s) && g < |alls| && Within(ts[g], s.gs, gs', g, a)
    ensures forall h :: 0 <= h < |alls| ==> Shape(ts[h], gs'[h]) && Inv(ts[h], alls[h], gs'[h])
    ensures forall h :: 0 <= h < |alls| && Closed(ts[h], s.gs[h], 3) ==> gs'[h] == s.gs[h]
  {
    hide Step, Closed, Inv, Shape;
    StepKeeps(ts[g], alls[g], s.gs[g], gs'[g], a);
    ShapeOf(ts[g], alls[g], gs'[g]);
    if Closed(ts[g], s.gs[g], 3) { ClosedIsOver(ts[g], alls[g], s.gs[g], gs'[g], a); }
  }

  lemma DoesKeeps(ts: seq<nat>, alls: seq<Bag>, s: Groups, s': Groups, m: Move)
    requires Keeps(ts, alls, s) && Does(ts, alls, s, s', m)
    ensures Keeps(ts, alls, s')
  {
    hide Step, Closed, Inv, Shape;
    match m
    case Stage(g, a) => WithinKeeps(ts, alls, s, s'.gs, g, a);
    case Batch(n) => WithinKeeps(ts, alls, s, s'.gs, s.qid, Send(n));
    case Refuse =>
      forall j | 1 <= j <= s'.refused ensures var g := Back(s'.qid, j, |alls|); Closed(ts[g], s'.gs[g], 3) {
        if j > 1 { assert Back(s'.qid, j, |alls|) == Back(s.qid, j - 1, |alls|); }
      }
  }

  lemma StartKeeps(ts: seq<nat>, alls: seq<Bag>, s: Groups)
    requires Start(ts, alls, s)
    ensures Keeps(ts, alls, s)
  {
    hide Inv, Init, Shape;
    forall g | 0 <= g < |alls| ensures Inv(ts[g], alls[g], s.gs[g]) { InitHolds(ts[g], alls[g], s.gs[g]); }
  }

  lemma {:induction false} GroupRunKeeps(ts: seq<nat>, alls: seq<Bag>, tr: seq<Groups>, ms: seq<Move>)
    requires IsGroupRun(ts, alls, tr, ms)
    ensures Keeps(ts, alls, tr[|tr| - 1])
    decreases |tr|
  {
    hide Keeps, Does, Start, Form;
    if |ms| == 0 {
      StartKeeps(ts, alls, tr[0]);
    } else {
      GroupRunKeeps(ts, alls, tr[..|tr| - 1], ms[..|ms| - 1]);
      DoesKeeps(ts, alls, tr[|tr| - 2], tr[|tr| - 1], ms[|ms| - 1]);
    }
  }

  /**
   In every run, whatever the interleaving: when the sender stops it has every chunk of every group, and nothing
   can happen any more.
   */
  lemma StopsOnlyAtTheEnd(ts: seq<nat>, alls: seq<Bag>, tr: seq<Groups>, ms: seq<Move>, s': Groups, m: Move)
    requires IsGroupRun(ts, alls, tr, ms) && tr[|tr| - 1].stopped
    ensures Form(ts, alls, tr[|tr| - 1]) && forall g :: 0 <= g < |alls| ==> tr[|tr| - 1].gs[g].got == alls[g]
    ensures !Does(ts, alls, tr[|tr| - 1], s', m)
  {
    hide Step, Closed, Inv, Shape;
    GroupRunKeeps(ts, alls, tr, ms);
    var s := tr[|tr| - 1];
    forall g | 0 <= g < |alls| ensures Closed(ts[g], s.gs[g], 3) && s.gs[g].got == alls[g] {
      var j := if g < s.qid then s.qid - g else s.qid + |alls| - g;
      assert Back(s.qid, j, |alls|) == g;
      ClosedIsOver(ts[g], alls[g], s.gs[g], s.gs[g], EndRead);
    }
    if m.Stage? && m.g < |alls| && |s'.gs| == |alls| {
      ClosedIsOver(ts[m.g], alls[m.g], s.gs[m.g], s'.gs[m.g], m.a);
    }
  }
}
