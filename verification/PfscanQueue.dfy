/**
 pfscan on its queue: the calls of pqueue_put, pqueue_get and pqueue_close (apps/pfscan/pfscan.c, lines 302-327
 and 705-755, apps/pfscan/pqueue.c) are steps of PfscanRun.
 */
module PfscanQueue {
  import opened PathQueue
  import opened PfscanRun

  ghost predicate Holds(que: PQueue<nat>, j: Job, s: State)
    reads que, que.buf
  {
    que.Valid() && que.buf.Length == j.qsize && que.items == s.queue && que.closed == s.closed
  }

  /** main puts the next path, whether it had to wait for room or not; the signal wakes a sleeper if there is one. */
  method PutNext(que: PQueue<nat>, path: nat, waited: bool, ghost j: Job, ghost s: State, ghost wake: nat)
    returns (ok: bool, ghost s': State)
    requires Holds(que, j, s) && s.main == Putting && path == s.put < |j.matches| && !s.closed && |s.queue| < j.qsize
    requires WakesOne(s.ws, wake)
    modifies que, que.buf
    ensures ok && Step(j, s, s', PutPath(wake)) && Holds(que, j, s')
  {
    hide PQueue.Valid, Number, LeftAll;
    ok := que.Put(path, waited);
    s' := s.(put := s.put + 1, queue := s.queue + [s.put], ws := Signalled(s.ws, wake));
  }

  /** Worker i gets the oldest path, or is refused by a queue that is empty and closed. */
  method GetNext(que: PQueue<nat>, ghost j: Job, ghost s: State, ghost i: nat)
    returns (got: bool, path: nat, ghost s': State)
    requires Holds(que, j, s) && i < |s.ws| && s.ws[i] == AtGet && (s.closed || s.queue != [])
    modifies que
    ensures Step(j, s, s', if got then Take(i) else Refuse(i)) && Holds(que, j, s')
    ensures got ==> s'.ws[i] == Scanning(path, 0)
  {
    hide PQueue.Valid, Number, LeftAll;
    got, path := que.Get();
    if got {
      s' := s.(ws := s.ws[i := Scanning(s.queue[0], 0)], queue := s.queue[1..], taken := s.taken + 1,
               main := if s.main == WaitLess then Putting else s.main);
    } else {
      s' := s.(ws := s.ws[i := Leaving]);
    }
  }

  /** main closes the queue after the last path. */
  method CloseQueue(que: PQueue<nat>, ghost j: Job, ghost s: State) returns (ghost s': State)
    requires Holds(que, j, s) && s.main == Putting && s.put == |j.matches|
    modifies que
    ensures Step(j, s, s', PfscanRun.Close) && Holds(que, j, s')
  {
    hide PQueue.Valid, Number, LeftAll;
    que.Close();
    s' := s.(closed := true, ws := AllAwake(s.ws), main := Checking);
  }
}
