/** What a Start can do while the worker of an earlier period is still alive: it always opens the way to a
    wrong `isTaskExecuting_`.
 */
module TaskQueueRestarts {
  import opened Wrappers
  import opened TaskQueueModel
  import opened TaskQueueRuns
  import opened TaskQueueStops

  /** The queue runs and the clock can still be added to. */
  predicate Open(s: State) {
    !s.q.isExit && s.clock < UINT64_MAX
  }

  /** Worker `w` pops the head of the list; if there is none, a producer supplies one. */
  lemma PopBy(r: Run, w: nat) returns (r1: Run)
    requires IsRun(r) && Open(Last(r)) && At(Last(r), w, Top)
    ensures Continues(r, r1) && Open(Last(r1))
    ensures Last(r1).workers == Last(r).workers[w := Check(|Last(r).q.popped|)]
    ensures Last(r1).stoppers == Last(r).stoppers
  {
    r1 := r;
    if Last(r).q.list == [] {
      r1 := Extend(r, Produce(Task(0, UINT64_MAX), false, 0, Last(r).clock));
    }
    var s := Last(r1);
    assert s.q.list != [] && s.workers == Last(r).workers && s.q.popped == Last(r).q.popped && Open(s);
    Reachable(r1, |r1.events|);
    var head := s.q.list[0];
    SerialBound(s.q, head);
    assert StampOk(s.q, head.serial);
    r1 := Extend(r1, WorkerPop(w, if s.clock < head.due then head.due else s.clock));
  }

  /** A worker that is not between a pop and its completion reaches the top of its loop. */
  lemma ToTop(r: Run, w: nat) returns (r1: Run)
    requires IsRun(r) && Open(Last(r)) && w in Last(r).workers && !Busy(Last(r).workers[w])
    ensures Continues(r, r1) && Open(Last(r1)) && Last(r1).workers == Last(r).workers[w := Top]
    ensures Last(r1).stoppers == Last(r).stoppers
  {
    r1 := r;
    if Last(r1).workers[w].Clear? {
      r1 := Extend(r1, WorkerClear(w));
    }
    if Last(r1).workers[w].Requeue? {
      r1 := Extend(r1, WorkerRequeue(w, Last(r1).clock));
    }
    assert Last(r1).workers == Last(r).workers[w := Top];
  }

  /** The worker is about to clear the flag; no other worker has moved. */
  predicate Completing(s: State, s1: State, w: nat) {
    && w in s1.workers && (s1.workers[w].Skip? || s1.workers[w].Leave?)
    && forall v :: v != w && v in s.workers ==> v in s1.workers && s1.workers[v] == s.workers[v]
  }

  lemma FromEnter(r: Run, w: nat) returns (r1: Run)
    requires IsRun(r) && w in Last(r).workers && !InStop(Last(r), w)
    requires Last(r).workers[w].Enter? || Last(r).workers[w].Body?
    ensures Continues(r, r1) && Completing(Last(r), Last(r1), w)
  {
    r1 := r;
    if Last(r1).workers[w].Enter? {
      r1 := Extend(r1, WorkerEnter(w));
      assert Last(r1).stoppers == Last(r).stoppers && !InStop(Last(r1), w);
    }
    if Last(r1).workers[w].Body? {
      r1 := Extend(r1, WorkerReturn(w));
    }
  }

  /** A worker on a task comes to the point where it clears the flag, alone. */
  lemma ToCompletion(r: Run, w: nat) returns (r1: Run)
    requires IsRun(r) && w in Last(r).workers && Busy(Last(r).workers[w]) && !InStop(Last(r), w)
    ensures Continues(r, r1) && Completing(Last(r), Last(r1), w)
  {
    r1 := r;
    if Last(r1).workers[w].Check? {
      r1 := Extend(r1, WorkerCheck(w));
      assert Last(r1).stoppers == Last(r).stoppers && !InStop(Last(r1), w);
    }
    if Last(r1).workers[w].Enter? || Last(r1).workers[w].Body? {
      r1 := FromEnter(r1, w);
    }
  }

  /** Of two workers on tasks one completes and clears the flag under the other. */
  lemma CompleteUnder(r: Run, w: nat, v: nat) returns (r1: Run)
    requires IsRun(r) && w != v && w in Last(r).workers && v in Last(r).workers
    requires Busy(Last(r).workers[w]) && Busy(Last(r).workers[v]) && !InStop(Last(r), w)
    ensures Continues(r, r1)
    ensures !Last(r1).q.executing && v in Last(r1).workers && Busy(Last(r1).workers[v])
  {
    r1 := ToCompletion(r, w);
    r1 := Extend(r1, if Last(r1).workers[w].Skip? then WorkerSkip(w) else WorkerLeave(w));
  }

  lemma {:induction false} Latest(workers: set<nat>) returns (u: nat)
    requires workers != {}
    ensures u in workers && forall w :: w in workers ==> w <= u
  {
    var x :| x in workers;
    var rest := workers - {x};
    assert forall w :: w in workers ==> w == x || w in rest;
    if rest == {} {
      u := x;
    } else {
      var later := Latest(rest);
      u := if x < later then later else x;
    }
  }

  /** After the Start the latest of the earlier workers gets out of the Stop it may be in: the worker that
      Stop waits for has ended. */
  lemma LeaveStop(r: Run, u: nat) returns (r1: Run)
    requires IsRun(r) && Last(r).q.thread.None? && Last(r).clock < UINT64_MAX
    requires u in Last(r).workers && forall w :: w in Last(r).workers ==> w <= u
    ensures Continues(r, r1) && |r1.events| > |r.events| && r1.events[|r.events|] == Start
    ensures Open(Last(r1)) && !InStop(Last(r1), u)
    ensures Last(r1).workers == Last(r).workers[Last(r).spawned := Top] && u < Last(r).spawned
  {
    Reachable(r, |r.events|);
    StopsReachable(r, |r.events|);
    var r0 := Extend(r, Start);
    r1 := r0;
    if InStop(Last(r0), u) {
      var id :| id in Last(r0).stoppers && Last(r0).stoppers[id].caller == Some(u);
      assert StopOk(Last(r), Last(r).stoppers[id]);
      StopsReachable(r0, |r0.events|);
      r1 := OwnStopReturns(r0, |r0.events|, {u}, u, id);
    }
    assert r0.events[|r.events|] == Start;
  }

  /** From every reachable state in which a Start would make a second worker, some continuation of that
      Start makes the flag wrong: it ends false with a worker between a pop and its completion. */
  lemma SecondWorkerBreaksFlag(r: Run, w: nat) returns (r1: Run)
    requires IsRun(r) && Last(r).q.thread.None? && w in Last(r).workers && Last(r).clock < UINT64_MAX
    ensures Continues(r, r1) && |r1.events| > |r.events| && r1.events[|r.events|] == Start
    ensures !Last(r1).q.executing && exists v :: v in Last(r1).workers && Busy(Last(r1).workers[v])
  {
    var v := Last(r).spawned;
    var u := Latest(Last(r).workers.Keys);
    var r0 := LeaveStop(r, u);
    r1 := r0;
    if !Busy(Last(r1).workers[u]) {
      r1 := ToTop(r1, u);
      r1 := PopBy(r1, u);
    }
    assert Continues(r0, r1) && At(Last(r1), v, Top) && !InStop(Last(r1), u);
    r1 := PopBy(r1, v);
    assert !InStop(Last(r1), u);
    r1 := CompleteUnder(r1, u, v);
    assert r0.events[|r.events|] == Start;
  }
}
