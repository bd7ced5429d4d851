/** Runs of the task queue that fall short of what a caller may expect, step by step. */
module TaskQueueWitnesses {
  import opened Wrappers
  import opened TaskQueueModel
  import opened TaskQueueRuns
  import opened TaskQueueStops

  const FIRST := Task(0, UINT64_MAX)
  const SECOND := Task(1, UINT64_MAX)

  const FIRST_ITEM := Item(FIRST, 0, 0)
  const SECOND_ITEM := Item(SECOND, 0, 1)

  /** The queue runs and nothing is pending. */
  lemma JustStarted() returns (r: Run)
    ensures IsRun(r) && r.events == [Start]
    ensures var s := Last(r);
            && s.workers == map[0 := Top] && s.spawned == 1 && s.clock == 0 && s.stoppers == map[]
            && s.q == Initial().(isExit := false, thread := Some(0))
  {
    r := Run([State(Initial(), 0, map[], 0, map[])], []);
    r := Extend(r, Start);
  }

  /** The first task is pending. */
  lemma FirstPending() returns (r: Run)
    ensures IsRun(r) && r.events == [Start, Produce(FIRST, false, 0, 0)]
    ensures var s := Last(r);
            && s.workers == map[0 := Top] && s.spawned == 1 && s.clock == 0 && s.stoppers == map[]
            && s.q.thread == Some(0) && !s.q.isExit && s.q.list == [FIRST_ITEM] && s.q.handlers == map[]
            && s.q.popped == [] && |s.q.accepted| == 1
  {
    r := JustStarted();
    var q := Last(r).q;
    r := Extend(r, Produce(FIRST, false, 0, 0));
    assert Last(r).q == InsertItem(q, FIRST, 0, 0, None);
  }

  /** A worker is inside the first task. */
  lemma FirstInside() returns (r: Run)
    ensures IsRun(r)
    ensures r.events == [Start, Produce(FIRST, false, 0, 0), WorkerPop(0, 0), WorkerCheck(0), WorkerEnter(0)]
    ensures var s := Last(r);
            && s.workers == map[0 := Body(0)] && s.spawned == 1 && s.clock == 0 && s.stoppers == map[]
            && s.q.thread == Some(0) && !s.q.isExit && s.q.list == [] && s.q.handlers == map[FIRST := Running]
            && s.q.popped == [FIRST_ITEM] && |s.q.accepted| == 1
  {
    r := FirstPending();
    r := Extend(r, WorkerPop(0, 0));
    assert Last(r).q.popped == [FIRST_ITEM];
    r := Extend(r, WorkerCheck(0));
    assert Last(r).workers == map[0 := Enter(0)];
    r := Extend(r, WorkerEnter(0));
  }

  /** The queue was stopped and started again around it. */
  lemma RestartedAround() returns (r: Run)
    ensures IsRun(r) && |r.events| == 7 && r.events[5] == Stop(None, 0) && r.events[6] == Start
    ensures !StartsAlone(r.states[6], r.events[6])
    ensures var s := Last(r);
            && s.workers == map[0 := Body(0), 1 := Top] && s.spawned == 2 && s.clock == 0
            && s.stoppers == map[0 := Joining(0, None)]
            && s.q.thread == Some(1) && !s.q.isExit && s.q.list == [] && s.q.handlers == map[FIRST := Running]
            && s.q.popped == [FIRST_ITEM] && |s.q.accepted| == 1
  {
    r := FirstInside();
    r := Extend(r, Stop(None, 0));
    assert 0 in Last(r).workers;
    r := Extend(r, Start);
  }

  // ----- the flag -----

  lemma SecondPending() returns (r: Run)
    ensures IsRun(r) && |r.events| >= 7 && !StartsAlone(r.states[6], r.events[6])
    ensures var s := Last(r);
            && s.workers == map[0 := Body(0), 1 := Top] && s.clock == 0 && !s.q.isExit && s.q.list == [SECOND_ITEM]
            && s.stoppers == map[0 := Joining(0, None)]
            && s.q.handlers == map[FIRST := Running] && s.q.popped == [FIRST_ITEM]
  {
    r := RestartedAround();
    var q := Last(r).q;
    r := Extend(r, Produce(SECOND, false, 0, 0));
    assert Last(r).q == InsertItem(q, SECOND, 0, 0, None);
  }

  lemma SecondPopped() returns (r: Run)
    ensures IsRun(r) && |r.events| >= 7 && !StartsAlone(r.states[6], r.events[6])
    ensures var s := Last(r);
            && s.workers == map[0 := Body(0), 1 := Check(1)] && s.stoppers == map[0 := Joining(0, None)]
            && s.q.handlers == map[FIRST := Running] && s.q.popped == [FIRST_ITEM, SECOND_ITEM]
  {
    r := SecondPending();
    r := Extend(r, WorkerPop(1, 0));
    assert Last(r).q.popped == [FIRST_ITEM, SECOND_ITEM];
  }

  /** Both workers are inside a task. */
  lemma BothInside() returns (r: Run)
    ensures IsRun(r) && |r.events| >= 7 && !StartsAlone(r.states[6], r.events[6])
    ensures var s := Last(r);
            && s.workers == map[0 := Body(0), 1 := Body(1)] && s.stoppers == map[0 := Joining(0, None)]
            && s.q.popped == [FIRST_ITEM, SECOND_ITEM]
  {
    r := SecondPopped();
    r := Extend(r, WorkerCheck(1));
    assert Last(r).workers == map[0 := Body(0), 1 := Enter(1)];
    r := Extend(r, WorkerEnter(1));
  }

  /** Without the discipline the flag can be wrong: a Start while a stopped worker is still inside a
      task lets a second worker run, and the first one's completion clears the flag under it. */
  lemma FlagWrongWithoutDiscipline() returns (r: Run)
    ensures IsRun(r) && !Disciplined(r)
    ensures !Last(r).q.executing && exists w :: InBody(Last(r), w, SECOND)
  {
    r := BothInside();
    assert !InStop(Last(r), 0);
    r := Extend(r, WorkerReturn(0));
    assert Last(r).workers == map[0 := Leave(0), 1 := Body(1)];
    r := Extend(r, WorkerLeave(0));
    assert InBody(Last(r), 1, SECOND);
  }

  // ----- joins -----

  /** A Start right after the first section of a Stop: the Stop waits for a worker that goes on working. */
  lemma StopHeldByStart() returns (r: Run)
    ensures IsRun(r) && r.events == [Start, Stop(None, 0), Start] && StopsOk(Last(r))
    ensures Last(r).stoppers == map[0 := Joining(0, None)]
    ensures forall r1 :: Continues(r, r1) && OnlyChain(r1, 3, Chain(Last(r), 0)) ==> !Enabled(Last(r1), StopJoin(0))
  {
    r := JustStarted();
    r := Extend(r, Stop(None, 0));
    r := Extend(r, Start);
    assert 0 in Last(r).workers;
    JoinEndsIff(r, 0);
  }

  /** The worker's own steps. */
  predicate OwnStep(e: Event, w: nat) {
    (IsWork(e) || e.WorkerPop? || e.WorkerExit?) && e.w == w
  }

  /** A worker inside Stop has no step of its own. */
  lemma NoOwnStep(s: State, w: nat, e: Event)
    requires w in s.workers && s.workers[w].Body? && InStop(s, w)
    ensures !(OwnStep(e, w) && Enabled(s, e))
  {
  }

  lemma NothingAlone(r: Run, r1: Run, w: nat)
    requires IsRun(r) && Continues(r, r1)
    requires w in Last(r).workers && Last(r).workers[w].Body? && InStop(Last(r), w)
    requires forall i :: |r.events| <= i < |r1.events| ==> OwnStep(r1.events[i], w)
    ensures Last(r1) == Last(r)
  {
    var n := |r.events|;
    assert r1.states[n] == Last(r);
    if n < |r1.events| {
      assert StepAt(r1, n);
      NoOwnStep(Last(r), w, r1.events[n]);
    }
  }

  /** A task function that calls Stop after a restart waits for the new worker. Although the queue is
      stopped, the outer Stop cannot return by steps of the worker it waits for alone; with those of the
      new worker and of the inner Stop it can. */
  lemma StopInsideStop() returns (r: Run, r2: Run)
    ensures IsRun(r) && Last(r).q.isExit && Last(r).workers == map[0 := Body(0), 1 := Top]
    ensures Last(r).stoppers == map[0 := Joining(0, None), 1 := Joining(1, Some(0))]
    ensures forall r1 :: Continues(r, r1) && (forall i :: |r.events| <= i < |r1.events| ==> OwnStep(r1.events[i], 0)) ==>
              !Enabled(Last(r1), StopJoin(0))
    ensures Continues(r, r2) && 0 !in Last(r2).stoppers
  {
    r := RestartedAround();
    assert !InStop(Last(r), 0);
    r := Extend(r, Stop(Some(0), 1));
    assert InStop(Last(r), 0) by { assert 1 in Last(r).stoppers; }
    forall r1 | Continues(r, r1) && forall i :: |r.events| <= i < |r1.events| ==> OwnStep(r1.events[i], 0)
      ensures !Enabled(Last(r1), StopJoin(0))
    {
      NothingAlone(r, r1, 0);
    }
    r2 := StopReturns(r, 0);
  }

  // ----- what a Stop cancels -----

  /** The queue was stopped, its worker has ended, and it was started again before the Stop returned. */
  lemma RestartedBeforeReturn() returns (r: Run)
    ensures IsRun(r) && |r.events| == 5 && r.events[1] == Stop(None, 0)
    ensures r.states[2].q.accepted == []
    ensures var s := Last(r);
            && s.stoppers == map[0 := Joined(None)] && s.clock == 0
            && s.q == Initial().(isExit := false, thread := Some(1))
  {
    r := JustStarted();
    r := Extend(r, Stop(None, 0));
    var s2 := Last(r);
    assert s2.q == Initial();
    r := Extend(r, WorkerExit(0));
    r := Extend(r, StopJoin(0));
    r := Extend(r, Start);
    assert r.states[2] == s2;
  }

  /** The Stop cancels an entry of the new period while the queue runs. */
  lemma StopCancelsNewEntry() returns (r: Run)
    ensures IsRun(r) && |r.events| == 7 && r.events[1] == Stop(None, 0) && r.events[6] == StopCancel(0)
    ensures r.states[2].q.accepted == [] && r.states[6].q.list == [FIRST_ITEM]
    ensures !Last(r).q.isExit && Last(r).q.list == [] && Last(r).q.cancelled == [FIRST_ITEM]
  {
    r := RestartedBeforeReturn();
    var q, s2 := Last(r).q, r.states[2];
    r := Extend(r, Produce(FIRST, false, 0, 0));
    assert Last(r).q == InsertItem(q, FIRST, 0, 0, None) && Last(r).q.list == [FIRST_ITEM];
    var s6 := Last(r);
    r := Extend(r, StopCancel(0));
    assert r.states[2] == s2 && r.states[6] == s6;
  }
}
