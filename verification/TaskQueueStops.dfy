/** Calls of Stop from other threads and from task functions: whom they wait for, when their joins can end,
    and what they cancel.

    A task function that calls Stop from an outdated worker waits inside that call, so joins can wait for
    joins: the workers a join depends on form a chain.
 */
module TaskQueueStops {
  import opened Wrappers
  import opened TaskQueueModel
  import opened TaskQueueRuns

  // ----- whom a Stop waits for -----

  /** Every Stop waits for a worker that `thread_` no longer points to; a Stop called from a task function
      waits for a worker spawned later than the caller, and no worker is inside two. */
  ghost predicate StopsOk(s: State) {
    && (s.q.thread.Some? ==> s.q.thread.value + 1 == s.spawned)
    && (forall id :: id in s.stoppers ==> StopOk(s, s.stoppers[id]))
    && (forall id, id1 :: id in s.stoppers && id1 in s.stoppers ==>
          s.stoppers[id].caller.None? || s.stoppers[id].caller != s.stoppers[id1].caller || id == id1)
  }

  predicate StopOk(s: State, pc: StopPc) {
    && (pc.caller.Some? ==> pc.caller.value in s.workers && s.workers[pc.caller.value].Body?)
    && (pc.Joining? ==>
          pc.worker < s.spawned && s.q.thread != Some(pc.worker) &&
          (pc.caller.Some? ==> pc.caller.value < pc.worker))
  }

  lemma StopKeepsStops(s: State, caller: Option<nat>, id: nat)
    requires Enabled(s, Stop(caller, id)) && ThreadsOk(s) && StopsOk(s)
    ensures StopsOk(Next(s, Stop(caller, id)))
  {
    var s1 := Next(s, Stop(caller, id));
    forall x | x in s1.stoppers ensures StopOk(s1, s1.stoppers[x]) {
      assert x != id ==> StopOk(s, s1.stoppers[x]);
    }
  }

  /** Workers in their functions stay there, and Stops keep their callers. */
  lemma SameCallersKeepStops(s: State, s1: State)
    requires StopsOk(s)
    requires s1.q.thread == s.q.thread && s1.spawned == s.spawned
    requires forall id :: id in s1.stoppers ==> id in s.stoppers && s1.stoppers[id].caller == s.stoppers[id].caller
    requires forall id :: id in s1.stoppers && s1.stoppers[id].Joining? ==> s1.stoppers[id] == s.stoppers[id]
    requires forall w :: InStop(s, w) && w in s.workers && s.workers[w].Body? ==> w in s1.workers && s1.workers[w].Body?
    ensures StopsOk(s1)
  {
    forall id | id in s1.stoppers ensures StopOk(s1, s1.stoppers[id]) {
      assert StopOk(s, s.stoppers[id]);
      assert s.stoppers[id].caller.Some? ==> InStop(s, s.stoppers[id].caller.value);
    }
  }

  lemma StartKeepsStops(s: State)
    requires ThreadsOk(s) && StopsOk(s)
    ensures StopsOk(Next(s, Start))
  {
    var s1 := Next(s, Start);
    forall id | id in s1.stoppers ensures StopOk(s1, s1.stoppers[id]) {
      assert StopOk(s, s.stoppers[id]);
    }
  }

  lemma WorkerKeepsStops(s: State, e: Event)
    requires Enabled(s, e) && StopsOk(s) && (IsWork(e) || e.WorkerPop? || e.WorkerExit?)
    ensures StopsOk(Next(s, e))
  {
    var s1 := Next(s, e);
    assert s1.stoppers == s.stoppers && s1.q.thread == s.q.thread && s1.spawned == s.spawned;
    SameCallersKeepStops(s, s1);
  }

  lemma NextKeepsStops(s: State, e: Event)
    requires Enabled(s, e) && ThreadsOk(s) && StopsOk(s)
    ensures StopsOk(Next(s, e))
  {
    if e.Start? {
      StartKeepsStops(s);
    } else if e.Stop? {
      StopKeepsStops(s, e.caller, e.id);
    } else if IsWork(e) || e.WorkerPop? || e.WorkerExit? {
      WorkerKeepsStops(s, e);
    } else {
      SameCallersKeepStops(s, Next(s, e));
    }
  }

  lemma {:induction false} StopsReachable(r: Run, n: nat)
    requires IsRun(r) && n < |r.states|
    ensures StopsOk(r.states[n])
  {
    if n > 0 {
      StopsReachable(r, n - 1);
      NextKeepsStops(r.states[n - 1], r.events[n - 1]) by {
        assert StepAt(r, n - 1);
        Reachable(r, n - 1);
      }
      assert StepAt(r, n - 1);
    }
  }

  /** Waiting is acyclic: a task function that is inside Stop waits for a worker spawned after its own. */
  lemma StopWaitsForLater(r: Run, n: nat, id: nat)
    requires IsRun(r) && n < |r.states| && id in r.states[n].stoppers
    ensures var pc := r.states[n].stoppers[id];
            pc.Joining? && pc.caller.Some? ==>
              pc.caller.value < pc.worker < r.states[n].spawned && InStop(r.states[n], pc.caller.value)
  {
    StopsReachable(r, n);
    assert StopOk(r.states[n], r.states[n].stoppers[id]);
  }

  /** The worker, the worker its own Stop waits for, and so on. */
  ghost function Chain(s: State, w: nat): set<nat>
    requires StopsOk(s)
    decreases if w < s.spawned then s.spawned - w else 0
  {
    if !InStop(s, w) then {w}
    else
      var id :| id in s.stoppers && s.stoppers[id].caller == Some(w);
      assert StopOk(s, s.stoppers[id]);
      if s.stoppers[id].Joining? then {w} + Chain(s, s.stoppers[id].worker) else {w}
  }

  lemma {:induction false} ChainAbove(s: State, w: nat)
    requires StopsOk(s)
    ensures w in Chain(s, w) && forall v :: v in Chain(s, w) ==> v >= w
    decreases if w < s.spawned then s.spawned - w else 0
  {
    if InStop(s, w) {
      var id :| id in s.stoppers && s.stoppers[id].caller == Some(w);
      assert StopOk(s, s.stoppers[id]);
      if s.stoppers[id].Joining? {
        ChainAbove(s, s.stoppers[id].worker);
      }
    }
  }

  // ----- steps of a chain -----

  /** A step of one of the workers, or of a Stop called from the task function of one of them. */
  predicate ChainStep(s: State, c: set<nat>, e: Event) {
    || ((IsWork(e) || e.WorkerPop? || e.WorkerExit?) && e.w in c)
    || ((e.StopJoin? || e.StopCancel?) && e.id in s.stoppers && OwnedBy(s.stoppers[e.id], c))
  }

  predicate OwnedBy(pc: StopPc, c: set<nat>) {
    pc.caller.Some? && pc.caller.value in c
  }

  /** Everything after the first `n` steps is such a step. */
  ghost predicate OnlyChain(r: Run, n: nat, c: set<nat>)
    requires n < |r.states|
  {
    forall i :: n <= i < |r.events| ==> ChainStep(r.states[n], c, r.events[i])
  }

  /** What such steps leave alone. */
  ghost predicate Framed(s: State, s1: State, c: set<nat>) {
    && s1.q.isExit == s.q.isExit
    && s1.workers.Keys <= s.workers.Keys
    && (!s.q.isExit ==> s1.workers.Keys == s.workers.Keys)
    && (forall id :: id in s1.stoppers ==> id in s.stoppers && s1.stoppers[id].caller == s.stoppers[id].caller)
    && (forall id :: id in s1.stoppers && s1.stoppers[id].Joining? ==> s1.stoppers[id] == s.stoppers[id])
    && (forall id :: id in s.stoppers && !OwnedBy(s.stoppers[id], c) ==>
          id in s1.stoppers && s1.stoppers[id] == s.stoppers[id])
  }

  lemma FramedWork(s: State, s1: State, c: set<nat>, e: Event)
    requires Framed(s, s1, c) && Enabled(s1, e) && (IsWork(e) || e.WorkerPop? || e.WorkerExit?)
    ensures Framed(s, Next(s1, e), c)
  {
    var s2 := Next(s1, e);
    assert s2.stoppers == s1.stoppers && s2.q.isExit == s1.q.isExit;
    assert s2.workers.Keys == if e.WorkerExit? then s1.workers.Keys - {e.w} else s1.workers.Keys;
  }

  lemma FramedStop(s: State, s1: State, c: set<nat>, e: Event)
    requires Framed(s, s1, c) && Enabled(s1, e) && ChainStep(s, c, e) && (e.StopJoin? || e.StopCancel?)
    ensures Framed(s, Next(s1, e), c)
  {
  }

  lemma FramedStep(s: State, s1: State, c: set<nat>, e: Event)
    requires Framed(s, s1, c) && Enabled(s1, e) && ChainStep(s, c, e)
    ensures Framed(s, Next(s1, e), c)
  {
    if e.StopJoin? || e.StopCancel? {
      FramedStop(s, s1, c, e);
    } else {
      FramedWork(s, s1, c, e);
    }
  }

  lemma {:induction false} ChainFrame(r: Run, n: nat, k: nat, c: set<nat>)
    requires IsRun(r) && n <= k <= |r.events| && OnlyChain(r, n, c)
    ensures Framed(r.states[n], r.states[k], c)
  {
    if n < k {
      ChainFrame(r, n, k - 1, c);
      assert StepAt(r, k - 1);
      FramedStep(r.states[n], r.states[k - 1], c, r.events[k - 1]);
    }
  }

  lemma ExtendChain(r: Run, n: nat, c: set<nat>, e: Event) returns (r1: Run)
    requires IsRun(r) && n <= |r.events| && OnlyChain(r, n, c)
    requires Enabled(Last(r), e) && ChainStep(r.states[n], c, e)
    ensures Continues(r, r1) && OnlyChain(r1, n, c) && Last(r1) == Next(Last(r), e)
    ensures |r1.events| == |r.events| + 1
  {
    r1 := Extend(r, e);
    forall i | n <= i < |r1.events| ensures ChainStep(r1.states[n], c, r1.events[i]) {
      assert r1.states[n] == r.states[n];
      assert i < |r.events| ==> r1.events[i] == r.events[i];
    }
  }

  // ----- the end of a worker -----

  /** The steps a worker has left before it can look at the exit flag. */
  function Togo(pc: Pc): nat {
    match pc
    case Top => 0
    case Check(_) => 6
    case Enter(_) => 5
    case Body(_) => 4
    case Leave(_) => 3
    case Clear(_) => 2
    case Requeue(_) => 1
    case Skip(_) => 1
  }

  /** The worker's next step. */
  function WorkStep(s: State, w: nat): Event
    requires w in s.workers && !s.workers[w].Top?
  {
    match s.workers[w]
    case Check(_) => WorkerCheck(w)
    case Skip(_) => WorkerSkip(w)
    case Enter(_) => WorkerEnter(w)
    case Body(_) => WorkerReturn(w)
    case Leave(_) => WorkerLeave(w)
    case Clear(_) => WorkerClear(w)
    case Requeue(_) => WorkerRequeue(w, s.clock)
  }

  lemma WorkStepAdvances(s: State, w: nat)
    requires w in s.workers && !s.workers[w].Top? && !InStop(s, w)
    ensures var e := WorkStep(s, w);
            && Enabled(s, e) && IsWork(e) && e.w == w
            && var s1 := Next(s, e);
               && w in s1.workers && Togo(s1.workers[w]) < Togo(s.workers[w])
               && s1.q.isExit == s.q.isExit && s1.stoppers == s.stoppers
  {
  }

  /** A worker outside Stop ends by its own steps, at most seven, while the queue is stopped. */
  lemma {:induction false} RunOut(r: Run, n: nat, c: set<nat>, w: nat) returns (r1: Run)
    requires IsRun(r) && n <= |r.events| && OnlyChain(r, n, c) && w in c
    requires Last(r).q.isExit && w in Last(r).workers && !InStop(Last(r), w)
    ensures Continues(r, r1) && OnlyChain(r1, n, c) && w !in Last(r1).workers
    ensures |r1.events| <= |r.events| + Togo(Last(r).workers[w]) + 1
    decreases Togo(Last(r).workers[w])
  {
    var s := Last(r);
    if s.workers[w].Top? {
      r1 := ExtendChain(r, n, c, WorkerExit(w));
    } else {
      WorkStepAdvances(s, w);
      r1 := ExtendChain(r, n, c, WorkStep(s, w));
      assert !InStop(Last(r1), w);
      r1 := RunOut(r1, n, c, w);
    }
  }

  /** The own Stop of a worker returns if its join has nothing left to wait for. */
  lemma OwnStopReturns(r: Run, n: nat, c: set<nat>, w: nat, id: nat) returns (r1: Run)
    requires IsRun(r) && n <= |r.events| && OnlyChain(r, n, c) && w in c && StopsOk(Last(r))
    requires id in Last(r).stoppers && Last(r).stoppers[id].caller == Some(w)
    requires Last(r).stoppers[id].Joined? || Last(r).stoppers[id].worker !in Last(r).workers
    ensures Continues(r, r1) && OnlyChain(r1, n, c) && !InStop(Last(r1), w)
    ensures Last(r1).q.isExit == Last(r).q.isExit && Last(r1).workers == Last(r).workers
    ensures Last(r1).clock == Last(r).clock
  {
    ChainFrame(r, n, |r.events|, c);
    r1 := r;
    if Last(r1).stoppers[id].Joining? {
      r1 := ExtendChain(r1, n, c, StopJoin(id));
    }
    r1 := ExtendChain(r1, n, c, StopCancel(id));
    assert Last(r1).stoppers.Keys == Last(r).stoppers.Keys - {id};
  }

  /** A worker whose own Stop, if any, has nothing left to wait for ends, too. */
  lemma FinishOwn(r: Run, n: nat, c: set<nat>, w: nat) returns (r1: Run)
    requires IsRun(r) && n <= |r.events| && OnlyChain(r, n, c) && w in c && Last(r).q.isExit && StopsOk(Last(r))
    requires forall id :: id in Last(r).stoppers && Last(r).stoppers[id].caller == Some(w) ==>
               Last(r).stoppers[id].Joined? || Last(r).stoppers[id].worker !in Last(r).workers
    ensures Continues(r, r1) && OnlyChain(r1, n, c) && w !in Last(r1).workers
  {
    r1 := r;
    if w in Last(r).workers {
      if InStop(Last(r), w) {
        var id :| id in Last(r).stoppers && Last(r).stoppers[id].caller == Some(w);
        r1 := OwnStopReturns(r, n, c, w, id);
      }
      r1 := RunOut(r1, n, c, w);
    }
  }

  lemma {:induction false} EndChain(r: Run, n: nat, c: set<nat>, w: nat) returns (r1: Run)
    requires IsRun(r) && n <= |r.events| && OnlyChain(r, n, c) && Last(r).q.isExit
    requires StopsOk(r.states[n]) && Chain(r.states[n], w) <= c
    ensures Continues(r, r1) && OnlyChain(r1, n, c) && w !in Last(r1).workers
    decreases if w < r.states[n].spawned then r.states[n].spawned - w else 0
  {
    var s := r.states[n];
    ChainAbove(s, w);
    ChainFrame(r, n, |r.events|, c);
    r1 := r;
    if InStop(s, w) {
      var id :| id in s.stoppers && s.stoppers[id].caller == Some(w);
      assert StopOk(s, s.stoppers[id]);
      if s.stoppers[id].Joining? {
        r1 := EndChain(r, n, c, s.stoppers[id].worker);
      }
    }
    ChainFrame(r1, n, |r1.events|, c);
    StopsReachable(r1, |r1.events|);
    r1 := FinishOwn(r1, n, c, w);
  }

  /** While the queue is stopped every worker can end, by steps of its own chain alone. */
  lemma WorkerEnds(r: Run, w: nat) returns (r1: Run)
    requires IsRun(r) && Last(r).q.isExit
    ensures StopsOk(Last(r))
    ensures Continues(r, r1) && OnlyChain(r1, |r.events|, Chain(Last(r), w)) && w !in Last(r1).workers
  {
    StopsReachable(r, |r.events|);
    r1 := EndChain(r, |r.events|, Chain(Last(r), w), w);
  }

  // ----- the end of a join -----

  /** The join of a Stop can be brought to its end by the worker it waits for and those that worker waits
      for in turn exactly if the worker has ended or the queue is still stopped: a Start in between revives
      the worker, and only another Stop ends it. */
  lemma JoinEndsIff(r: Run, id: nat)
    requires IsRun(r) && id in Last(r).stoppers && Last(r).stoppers[id].Joining?
    ensures StopsOk(Last(r))
    ensures var w := Last(r).stoppers[id].worker;
            (exists r1 :: Continues(r, r1) && OnlyChain(r1, |r.events|, Chain(Last(r), w)) &&
                          Enabled(Last(r1), StopJoin(id)))
            <==> (w !in Last(r).workers || Last(r).q.isExit)
  {
    StopsReachable(r, |r.events|);
    var s, n, w := Last(r), |r.events|, Last(r).stoppers[id].worker;
    var c := Chain(s, w);
    assert StopOk(s, s.stoppers[id]);
    ChainAbove(s, w);
    if w !in s.workers {
      assert Continues(r, r) && OnlyChain(r, n, c);
    } else if s.q.isExit {
      var r1 := WorkerEnds(r, w);
      ChainFrame(r1, n, |r1.events|, c);
      assert Enabled(Last(r1), StopJoin(id));
    } else {
      forall r1 | Continues(r, r1) && OnlyChain(r1, n, c) ensures !Enabled(Last(r1), StopJoin(id)) {
        ChainFrame(r1, n, |r1.events|, c);
      }
    }
  }

  /** A step of the Stop or of the chain of the worker it waits for. */
  ghost predicate ReturnStep(s: State, id: nat, e: Event)
    requires StopsOk(s) && id in s.stoppers
  {
    || e == StopJoin(id) || e == StopCancel(id)
    || (s.stoppers[id].Joining? && ChainStep(s, Chain(s, s.stoppers[id].worker), e))
  }

  /** While the queue is stopped the join of a Stop ends. */
  lemma JoinReturns(r: Run, id: nat) returns (r1: Run)
    requires IsRun(r) && id in Last(r).stoppers && Last(r).stoppers[id].Joining? && Last(r).q.isExit
    ensures StopsOk(Last(r))
    ensures Continues(r, r1) && id in Last(r1).stoppers && Last(r1).stoppers[id].Joined?
    ensures forall i :: |r.events| <= i < |r1.events| ==> ReturnStep(Last(r), id, r1.events[i])
  {
    StopsReachable(r, |r.events|);
    var s, n, w := Last(r), |r.events|, Last(r).stoppers[id].worker;
    assert StopOk(s, s.stoppers[id]);
    ChainAbove(s, w);
    var r0 := WorkerEnds(r, w);
    ChainFrame(r0, n, |r0.events|, Chain(s, w));
    r1 := Extend(r0, StopJoin(id));
    assert forall i :: n <= i < |r0.events| ==> r1.events[i] == r0.events[i];
  }

  /** No set of Stops blocks itself: while the queue is stopped every Stop can return, by its own steps and
      those of the chain of the worker it waits for. */
  lemma StopReturns(r: Run, id: nat) returns (r1: Run)
    requires IsRun(r) && id in Last(r).stoppers && Last(r).q.isExit
    ensures Continues(r, r1) && id !in Last(r1).stoppers && StopsOk(Last(r))
    ensures forall i :: |r.events| <= i < |r1.events| ==> ReturnStep(Last(r), id, r1.events[i])
  {
    StopsReachable(r, |r.events|);
    var r0 := r;
    if Last(r).stoppers[id].Joining? {
      r0 := JoinReturns(r, id);
    }
    r1 := Extend(r0, StopCancel(id));
    assert forall i :: |r.events| <= i < |r0.events| ==> r1.events[i] == r0.events[i];
  }

  // ----- what a Stop cancels -----

  /** A Start that makes a worker. */
  predicate StartsAt(r: Run, k: nat)
    requires k < |r.events| < |r.states|
  {
    r.events[k].Start? && r.states[k].q.thread.None?
  }

  /** The last section of a Stop cancels only entries accepted before its first section exactly if no entry
      accepted since is still pending. */
  lemma StopCancelsEarlierIff(r: Run, m: nat, n: nat, id: nat)
    requires IsRun(r) && m <= n < |r.events| && r.events[n] == StopCancel(id)
    ensures |r.states[m].q.accepted| <= |r.states[n].q.accepted|
    ensures r.states[n + 1].q.cancelled == r.states[n].q.cancelled + r.states[n].q.list
    ensures (forall x :: x in r.states[n].q.list ==> x in r.states[m].q.accepted) <==>
            (forall k :: |r.states[m].q.accepted| <= k < |r.states[n].q.accepted| ==>
               r.states[n].q.accepted[k] !in r.states[n].q.list)
  {
    HistoryGrows(r, m, n);
    Reachable(r, n);
    assert StepAt(r, n);
    var q, before := r.states[n].q, r.states[m].q.accepted;
    forall x | x in q.list ensures x in before <==> x.serial < |before| {
      SerialBound(q, x);
      if x.serial < |before| {
        assert before[x.serial] == x;
      }
      if x in before {
        var k :| 0 <= k < |before| && before[k] == x;
        assert q.accepted[k] == x;
      }
    }
    forall x | x in q.list ensures x.serial < |q.accepted| && q.accepted[x.serial] == x {
      SerialBound(q, x);
    }
    assert forall k :: 0 <= k < |q.accepted| ==> q.accepted[k].serial == k;
  }

  lemma StoppedStays(s: State, e: Event)
    requires Enabled(s, e) && ThreadsOk(s) && s.q.isExit && !e.Start?
    ensures Next(s, e).q.isExit && Next(s, e).q.accepted == s.q.accepted && Next(s, e).q.popped == s.q.popped
  {
  }

  /** Between the two sections an entry is accepted or popped only after a Start that made a worker. */
  lemma {:induction false} AcceptedAfterStart(r: Run, m: nat, n: nat)
    requires IsRun(r) && m <= n < |r.states| && r.states[m].q.isExit
    requires forall k :: m <= k < n ==> !StartsAt(r, k)
    ensures r.states[n].q.isExit && r.states[n].q.accepted == r.states[m].q.accepted
    ensures r.states[n].q.popped == r.states[m].q.popped
  {
    if m < n {
      AcceptedAfterStart(r, m, n - 1);
      Reachable(r, n - 1);
      assert StepAt(r, n - 1) && !StartsAt(r, n - 1);
      StoppedStays(r.states[n - 1], r.events[n - 1]);
    }
  }
}
