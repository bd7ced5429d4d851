/** Runs of a task queue: any interleaving of producers, workers, callers of Start and Stop, and
    users of the handlers, over a clock that never goes back.

    A worker moves through the locked sections of TaskProcessor and the unlocked stretches between
    them. Nothing forces a Start to wait for the workers of an earlier period, so several workers
    may be alive at once; `Disciplined` names the runs in which they are not.
 */
module TaskQueueRuns {
  import opened Wrappers
  import opened TaskQueueModel

  /** Where a worker stands; the number is the index of its latest pop in the pop history. */
  datatype Pc =
    | Top
    | Check(pop: nat)     // popped, about to ask whether the handler is cancelled
    | Skip(pop: nat)      // it is
    | Enter(pop: nat)     // it was not, about to enter Execute
    | Body(pop: nat)      // inside the task's own function
    | Leave(pop: nat)     // Execute has returned
    | Clear(pop: nat)     // re-enqueueing a periodic task
    | Requeue(pop: nat)   // handler cleared, about to take the lock

  predicate Busy(pc: Pc) {
    pc.Check? || pc.Skip? || pc.Enter? || pc.Body? || pc.Leave?
  }

  /** A Stop after its first section, unless it was called by the thread it would have to join: it waits
      for that worker, then it has still to cancel. A caller is a worker whose task function called Stop;
      its function goes on when the Stop returns. */
  datatype StopPc = Joining(worker: nat, caller: Option<nat>) | Joined(caller: Option<nat>)

  datatype State = State(
    q: Queue,
    clock: nat,
    workers: map<nat, Pc>,
    spawned: nat,
    stoppers: map<nat, StopPc>)

  datatype Event =
    | Start
    | Produce(task: Task, cancelNotExecuted: bool, delayUs: nat, now: nat)
    | ClearTask(task: Task)
    | CancelTask(task: Task)
    | Stop(caller: Option<nat>, id: nat)
    | StopJoin(id: nat)
    | StopCancel(id: nat)
    | WorkerExit(w: nat)
    | WorkerPop(w: nat, now: nat)
    | WorkerCheck(w: nat)
    | WorkerSkip(w: nat)
    | WorkerEnter(w: nat)
    | WorkerReturn(w: nat)
    | WorkerLeave(w: nat)
    | WorkerClear(w: nat)
    | WorkerRequeue(w: nat, now: nat)

  predicate At(s: State, w: nat, pc: Pc) {
    w in s.workers && s.workers[w] == pc
  }

  function TaskOf(s: State, p: nat): Task {
    if p < |s.q.popped| then s.q.popped[p].task else Task(0, 0)
  }

  /** The task function of the worker is inside a call of Stop. */
  predicate InStop(s: State, w: nat) {
    exists id :: id in s.stoppers && s.stoppers[id].caller == Some(w)
  }

  /** The worker runs its task function, not a Stop called from it. */
  predicate InFunction(s: State, w: nat) {
    w in s.workers && s.workers[w].Body? && !InStop(s, w)
  }

  predicate Enabled(s: State, e: Event) {
    match e
    case Start => true
    case Produce(_, _, _, now) => s.clock <= now
    case ClearTask(_) => true
    case CancelTask(_) => true
    case Stop(caller, id) =>
      id !in s.stoppers && (caller.Some? ==> InFunction(s, caller.value))
    case StopJoin(id) => id in s.stoppers && s.stoppers[id].Joining? && s.stoppers[id].worker !in s.workers
    case StopCancel(id) => id in s.stoppers && s.stoppers[id].Joined?
    case WorkerExit(w) => At(s, w, Top) && s.q.isExit
    case WorkerPop(w, now) => At(s, w, Top) && s.clock <= now && CanPop(s.q, now)
    case WorkerCheck(w) => w in s.workers && s.workers[w].Check?
    case WorkerSkip(w) => w in s.workers && s.workers[w].Skip?
    case WorkerEnter(w) => w in s.workers && s.workers[w].Enter?
    case WorkerReturn(w) => InFunction(s, w)
    case WorkerLeave(w) => w in s.workers && s.workers[w].Leave?
    case WorkerClear(w) => w in s.workers && s.workers[w].Clear?
    case WorkerRequeue(w, now) => w in s.workers && s.workers[w].Requeue? && s.clock <= now
  }

  /** A step of a worker on the task it popped. */
  predicate IsWork(e: Event) {
    || e.WorkerCheck? || e.WorkerSkip? || e.WorkerEnter? || e.WorkerReturn? || e.WorkerLeave?
    || e.WorkerClear? || e.WorkerRequeue?
  }

  function Move(s: State, w: nat, pc: Pc): State {
    s.(workers := s.workers[w := pc])
  }

  function SetPhase(s: State, t: Task, phase: Phase): State {
    s.(q := s.q.(handlers := s.q.handlers[t := phase]))
  }

  function NextStop(s: State, caller: Option<nat>, id: nat): State {
    var s1 := s.(q := StopQueue(s.q));
    if s.q.isExit || s.q.thread.None? || caller == s.q.thread then s1
    else s1.(stoppers := s.stoppers[id := Joining(s.q.thread.value, caller)])
  }

  function NextWorker(s: State, e: Event, w: nat, p: nat): State
    requires Enabled(s, e) && w in s.workers
  {
    var t := TaskOf(s, p);
    var phase := PhaseOf(s.q.handlers, t);
    match e
    case WorkerCheck(_) => Move(s, w, if phase == Canceled then Skip(p) else Enter(p))
    case WorkerSkip(_) => Move(s.(q := s.q.(executing := false)), w, Top)
    case WorkerEnter(_) =>
      if phase == Idle then Move(SetPhase(s, t, Running), w, Body(p)) else Move(s, w, Leave(p))
    case WorkerReturn(_) => Move(SetPhase(s, t, Finished), w, Leave(p))
    case WorkerLeave(_) =>
      Move(s.(q := s.q.(executing := false)), w, if t.periodUs == UINT64_MAX then Top else Clear(p))
    case WorkerClear(_) => Move(s.(q := s.q.(handlers := ClearHandler(s.q.handlers, t))), w, Requeue(p))
    case WorkerRequeue(_, now) =>
      Move(s.(q := Enqueue(s.q, t, false, t.periodUs, now, Some(p)).0, clock := now), w, Top)
    case _ => s
  }

  function Next(s: State, e: Event): State
    requires Enabled(s, e)
  {
    match e
    case Start =>
      if s.q.thread.Some? then s
      else s.(q := StartQueue(s.q, s.spawned), workers := s.workers[s.spawned := Top], spawned := s.spawned + 1)
    case Produce(task, cancel, delayUs, now) =>
      s.(q := Enqueue(s.q, task, cancel, delayUs, now, None).0, clock := now)
    case ClearTask(t) => s.(q := s.q.(handlers := ClearHandler(s.q.handlers, t)))
    case CancelTask(t) => s.(q := s.q.(handlers := CancelHandler(s.q.handlers, t)))
    case Stop(caller, id) => NextStop(s, caller, id)
    case StopJoin(id) => s.(stoppers := s.stoppers[id := Joined(s.stoppers[id].caller)])
    case StopCancel(id) => s.(q := CancelAll(s.q), stoppers := s.stoppers - {id})
    case WorkerExit(w) => s.(workers := s.workers - {w})
    case WorkerPop(w, now) => Move(s.(q := Pop(s.q, now), clock := now), w, Check(|s.q.popped|))
    case _ => NextWorker(s, e, e.w, if s.workers[e.w].Top? then 0 else s.workers[e.w].pop)
  }

  datatype Run = Run(states: seq<State>, events: seq<Event>)

  predicate Init(s: State) {
    s.q == Initial() && s.workers == map[] && s.stoppers == map[]
  }

  ghost predicate IsRun(r: Run) {
    && |r.states| == |r.events| + 1
    && Init(r.states[0])
    && forall i :: 0 <= i < |r.events| ==> StepAt(r, i)
  }

  predicate StepAt(r: Run, i: nat)
    requires i < |r.events| < |r.states|
  {
    Enabled(r.states[i], r.events[i]) && r.states[i + 1] == Next(r.states[i], r.events[i])
  }

  // ----- what the list and its history keep -----

  predicate Sorted(s: seq<Item>) {
    forall i, j :: 0 <= i < j < |s| ==> Less(s[i], s[j])
  }

  predicate StampOk(q: Queue, i: nat)
    requires i < |q.accepted| == |q.stamps| && |q.popTimes| == |q.popped|
  {
    var st := q.stamps[i];
    && st.delayUs < MAX_DELAY_US
    && q.accepted[i].due == st.instant + st.delayUs * US_TO_NS < UINT64_MAX
    && (st.origin.Some? ==>
          var p := st.origin.value;
          && p < |q.popped|
          && q.popTimes[p] <= st.instant
          && q.popped[p].task == q.accepted[i].task
          && q.popped[p].serial < i
          && st.delayUs == q.accepted[i].task.periodUs)
  }

  ghost predicate Ledger(q: Queue) {
    && (forall i :: 0 <= i < |q.accepted| ==> q.accepted[i].serial == i)
    && multiset(q.list) + multiset(q.popped) + multiset(q.cancelled) == multiset(q.accepted)
  }

  predicate Ordered(q: Queue) {
    && Sorted(q.list)
    && Sorted(q.popped)
    && forall i, j :: 0 <= i < |q.popped| && 0 <= j < |q.list| ==> Less(q.popped[i], q.list[j])
  }

  predicate Timed(q: Queue, clock: nat) {
    && |q.stamps| == |q.accepted|
    && |q.popTimes| == |q.popped|
    && (forall i :: 0 <= i < |q.popped| ==> q.popped[i].due <= q.popTimes[i] <= clock)
    && (forall i, j :: 0 <= i < j < |q.popped| ==> q.popTimes[i] <= q.popTimes[j])
    && (forall i :: 0 <= i < |q.accepted| ==> StampOk(q, i))
  }

  ghost predicate QueueInv(q: Queue, clock: nat) {
    Ledger(q) && Ordered(q) && Timed(q, clock)
  }

  lemma SortedIndex(s: seq<Item>, i: nat, j: nat)
    requires Sorted(s) && i < |s| && j < |s| && Less(s[i], s[j])
    ensures i < j
  {
  }

  lemma SerialBound(q: Queue, x: Item)
    requires Ledger(q)
    requires x in q.list || x in q.popped || x in q.cancelled
    ensures x.serial < |q.accepted| && q.accepted[x.serial] == x
  {
    assert x in multiset(q.list) + multiset(q.popped) + multiset(q.cancelled);
    assert x in multiset(q.accepted);
    assert x in q.accepted;
  }

  lemma CancelAllKeeps(q: Queue, clock: nat)
    requires QueueInv(q, clock)
    ensures QueueInv(CancelAll(q), clock)
  {
    assert multiset(q.cancelled + q.list) == multiset(q.cancelled) + multiset(q.list);
    var q1 := CancelAll(q);
    forall i | 0 <= i < |q1.accepted| ensures StampOk(q1, i) { assert StampOk(q, i); }
  }

  lemma InsertLedger(q: Queue, task: Task, delayUs: nat, now: nat, origin: Option<nat>)
    requires Ledger(q)
    ensures Ledger(InsertItem(q, task, delayUs, now, origin))
  {
    var q1 := InsertItem(q, task, delayUs, now, origin);
    var item := Item(task, delayUs * US_TO_NS + now, |q.accepted|);
    var k := InsertionPoint(q.list, item.due);
    assert q.list == q.list[..k] + q.list[k..];
    assert multiset(q1.list) == multiset(q.list) + multiset{item};
    assert multiset(q1.accepted) == multiset(q.accepted) + multiset{item};
  }

  lemma InsertOrdered(q: Queue, clock: nat, task: Task, delayUs: nat, now: nat, origin: Option<nat>)
    requires QueueInv(q, clock) && clock <= now
    ensures Ordered(InsertItem(q, task, delayUs, now, origin))
  {
    var q1 := InsertItem(q, task, delayUs, now, origin);
    var item := Item(task, delayUs * US_TO_NS + now, |q.accepted|);
    var k := InsertionPoint(q.list, item.due);
    forall j | 0 <= j < |q.list|
      ensures if j < k then Less(q.list[j], item) else Less(item, q.list[j])
    {
      SerialBound(q, q.list[j]);
      assert j > k ==> Less(q.list[k], q.list[j]);
    }
    forall i | 0 <= i < |q.popped| ensures Less(q.popped[i], item) {
      SerialBound(q, q.popped[i]);
    }
    assert forall j :: 0 <= j < |q1.list| ==>
      q1.list[j] == if j < k then q.list[j] else if j == k then item else q.list[j - 1];
  }

  predicate OriginOk(q: Queue, task: Task, delayUs: nat, origin: Option<nat>) {
    origin.Some? ==>
      origin.value < |q.popped| && q.popped[origin.value].task == task && delayUs == task.periodUs
  }

  lemma InsertTimed(q: Queue, clock: nat, task: Task, delayUs: nat, now: nat, origin: Option<nat>)
    requires Ledger(q) && Timed(q, clock) && clock <= now && OriginOk(q, task, delayUs, origin)
    requires delayUs < MAX_DELAY_US && now < UINT64_MAX - delayUs * US_TO_NS
    ensures Timed(InsertItem(q, task, delayUs, now, origin), now)
  {
    var q1 := InsertItem(q, task, delayUs, now, origin);
    forall i | 0 <= i < |q1.accepted| ensures StampOk(q1, i) {
      if i < |q.accepted| {
        assert StampOk(q, i);
      } else if origin.Some? {
        SerialBound(q, q.popped[origin.value]);
      }
    }
  }

  lemma EnqueueKeeps(q: Queue, clock: nat, task: Task, cancel: bool, delayUs: nat, now: nat, origin: Option<nat>)
    requires QueueInv(q, clock) && clock <= now && OriginOk(q, task, delayUs, origin)
    ensures QueueInv(Enqueue(q, task, cancel, delayUs, now, origin).0, now)
  {
    var q1 := if cancel then CancelAll(q) else q;
    var (q2, code) := Enqueue(q, task, cancel, delayUs, now, origin);
    if code == Ok {
      assert QueueInv(q1, clock) by { CancelAllKeeps(q, clock); }
      assert q2 == InsertItem(q1, task, delayUs, now, origin);
      InsertKeeps(q1, clock, task, delayUs, now, origin);
    } else if q2 == q {
      LaterKeeps(q, clock, now);
    } else {
      CancelAllKeeps(q, clock);
      LaterKeeps(q1, clock, now);
    }
  }

  lemma InsertKeeps(q: Queue, clock: nat, task: Task, delayUs: nat, now: nat, origin: Option<nat>)
    requires QueueInv(q, clock) && clock <= now && OriginOk(q, task, delayUs, origin)
    requires delayUs < MAX_DELAY_US && now < UINT64_MAX - delayUs * US_TO_NS
    ensures QueueInv(InsertItem(q, task, delayUs, now, origin), now)
  {
    InsertLedger(q, task, delayUs, now, origin);
    InsertOrdered(q, clock, task, delayUs, now, origin);
    InsertTimed(q, clock, task, delayUs, now, origin);
  }

  lemma LaterKeeps(q: Queue, clock: nat, now: nat)
    requires QueueInv(q, clock) && clock <= now
    ensures QueueInv(q, now)
  {
  }

  lemma PopKeeps(q: Queue, clock: nat, now: nat)
    requires QueueInv(q, clock) && clock <= now && CanPop(q, now)
    ensures QueueInv(Pop(q, now), now)
  {
    var q1 := Pop(q, now);
    assert q.list == [q.list[0]] + q.list[1..];
    assert multiset(q1.popped) == multiset(q.popped) + multiset{q.list[0]};
    forall i | 0 <= i < |q1.accepted| ensures StampOk(q1, i) { assert StampOk(q, i); }
  }

  // ----- what the threads keep -----

  predicate InBody(s: State, w: nat, t: Task) {
    w in s.workers && s.workers[w].Body? && TaskOf(s, s.workers[w].pop) == t
  }

  /** `thread_` and `isExit_` agree, and every worker was spawned and refers to a pop that happened. */
  ghost predicate Lifecycle(s: State) {
    ThreadsOk(s) && PcsOk(s)
  }

  ghost predicate ThreadsOk(s: State) {
    && (s.q.thread.Some? <==> !s.q.isExit)
    && (s.q.thread.Some? ==> s.q.thread.value in s.workers)
    && (forall w :: w in s.workers ==> w < s.spawned)
  }

  ghost predicate PcsOk(s: State) {
    forall w :: w in s.workers ==> PcOk(s, s.workers[w])
  }

  predicate PcOk(s: State, pc: Pc) {
    && (!pc.Top? ==> pc.pop < |s.q.popped|)
    && (pc.Clear? || pc.Requeue? ==> TaskOf(s, pc.pop).periodUs != UINT64_MAX)
  }

  /** A handler is running exactly when one worker is inside its function. */
  ghost predicate Exclusive(s: State) {
    && (forall w, t :: InBody(s, w, t) ==> PhaseOf(s.q.handlers, t) == Running)
    && (forall w, v, t :: InBody(s, w, t) && InBody(s, v, t) ==> w == v)
    && (forall t :: PhaseOf(s.q.handlers, t) == Running ==> exists w :: InBody(s, w, t))
  }

  lemma NextKeepsQueue(s: State, e: Event)
    requires Enabled(s, e) && QueueInv(s.q, s.clock) && Lifecycle(s)
    ensures QueueInv(Next(s, e).q, Next(s, e).clock)
  {
    match e
    case Produce(task, cancel, delayUs, now) => EnqueueKeeps(s.q, s.clock, task, cancel, delayUs, now, None);
    case StopCancel(_) => CancelAllKeeps(s.q, s.clock);
    case WorkerPop(_, now) => PopKeeps(s.q, s.clock, now);
    case WorkerRequeue(w, now) =>
      var p := s.workers[w].pop;
      EnqueueKeeps(s.q, s.clock, TaskOf(s, p), false, TaskOf(s, p).periodUs, now, Some(p));
    case _ => SameListKeeps(s.q, Next(s, e).q, s.clock);
  }

  lemma SameListKeeps(q: Queue, q1: Queue, clock: nat)
    requires QueueInv(q, clock)
    requires q1.list == q.list && q1.accepted == q.accepted && q1.stamps == q.stamps
    requires q1.popped == q.popped && q1.popTimes == q.popTimes && q1.cancelled == q.cancelled
    ensures QueueInv(q1, clock)
  {
    forall i | 0 <= i < |q1.accepted| ensures StampOk(q1, i) { assert StampOk(q, i); }
  }

  lemma NextKeepsThreads(s: State, e: Event)
    requires Enabled(s, e) && ThreadsOk(s)
    ensures ThreadsOk(Next(s, e))
  {
  }

  /** The worker moves to a legal place; the pop history may grow. */
  lemma MoveKeepsPcs(s: State, s1: State, w: nat, pc: Pc)
    requires PcsOk(s) && s.q.popped <= s1.q.popped && s1.workers == s.workers[w := pc] && PcOk(s1, pc)
    ensures PcsOk(s1)
  {
    forall v | v in s1.workers ensures PcOk(s1, s1.workers[v]) {
      assert v != w ==> PcOk(s, s1.workers[v]);
    }
  }

  lemma WorkerKeepsPcs(s: State, e: Event, w: nat, p: nat)
    requires Enabled(s, e) && PcsOk(s) && IsWork(e) && w == e.w && s.workers[w].pop == p
    ensures PcsOk(NextWorker(s, e, w, p))
  {
    var s1 := NextWorker(s, e, w, p);
    assert PcOk(s, s.workers[w]);
    assert s1.q.popped == s.q.popped;
    MoveKeepsPcs(s, s1, w, s1.workers[w]);
  }

  lemma FewerKeepsPcs(s: State, s1: State)
    requires PcsOk(s) && s1.q.popped == s.q.popped
    requires forall w :: w in s1.workers ==> w in s.workers && s1.workers[w] == s.workers[w]
    ensures PcsOk(s1)
  {
    forall w | w in s1.workers ensures PcOk(s1, s1.workers[w]) {
      assert PcOk(s, s.workers[w]);
    }
  }

  lemma NextKeepsPcs(s: State, e: Event)
    requires Enabled(s, e) && PcsOk(s)
    ensures PcsOk(Next(s, e))
  {
    if e.WorkerPop? {
      MoveKeepsPcs(s, Next(s, e), e.w, Check(|s.q.popped|));
    } else if e.Start? && s.q.thread.None? {
      MoveKeepsPcs(s, Next(s, e), s.spawned, Top);
    } else if IsWork(e) {
      WorkerKeepsPcs(s, e, e.w, s.workers[e.w].pop);
    } else {
      FewerKeepsPcs(s, Next(s, e));
    }
  }

  lemma {:induction false} CancelHandlersEffect(h: map<Task, Phase>, items: seq<Item>, t: Task)
    ensures PhaseOf(CancelHandlers(h, items), t) ==
            if PhaseOf(h, t) != Running && (exists x :: x in items && x.task == t) then Canceled else PhaseOf(h, t)
    decreases |items|
  {
    if items != [] {
      CancelHandlersEffect(CancelHandler(h, items[0].task), items[1..], t);
      assert items == [items[0]] + items[1..];
      assert forall x :: x in items <==> x == items[0] || x in items[1..];
    }
  }

  lemma MoveBodies(s: State, s1: State, v: nat, pc: Pc, w: nat, t: Task)
    requires PcsOk(s) && s.q.popped <= s1.q.popped && s1.workers == s.workers[v := pc]
    ensures InBody(s1, w, t) <==> if w == v then pc.Body? && TaskOf(s1, pc.pop) == t else InBody(s, w, t)
  {
    assert w != v && w in s.workers ==> PcOk(s, s.workers[w]);
  }

  lemma WorkerBodies(s: State, e: Event, p: nat, w: nat, t: Task)
    requires Enabled(s, e) && PcsOk(s) && IsWork(e) && s.workers[e.w].pop == p
    ensures InBody(NextWorker(s, e, e.w, p), w, t) <==>
            || (InBody(s, w, t) && e != WorkerReturn(w))
            || (e == WorkerEnter(w) && TaskOf(s, p) == t && PhaseOf(s.q.handlers, t) == Idle)
  {
    var s1 := NextWorker(s, e, e.w, p);
    assert s1.q.popped == s.q.popped;
    MoveBodies(s, s1, e.w, s1.workers[e.w], w, t);
  }

  /** Which tasks are inside their function after a step. */
  lemma BodiesAfter(s: State, e: Event, w: nat, t: Task)
    requires Enabled(s, e) && Lifecycle(s)
    ensures InBody(Next(s, e), w, t) <==>
            || (InBody(s, w, t) && e != WorkerReturn(w))
            || (e == WorkerEnter(w) && TaskOf(s, s.workers[w].pop) == t && PhaseOf(s.q.handlers, t) == Idle)
  {
    if e.WorkerPop? {
      MoveBodies(s, Next(s, e), e.w, Check(|s.q.popped|), w, t);
    } else if e.Start? && s.q.thread.None? {
      MoveBodies(s, Next(s, e), s.spawned, Top, w, t);
    } else if IsWork(e) {
      WorkerBodies(s, e, s.workers[e.w].pop, w, t);
    }
  }

  /** Which handlers are running after a step. */
  lemma RunningAfter(s: State, e: Event, t: Task)
    requires Enabled(s, e)
    ensures PhaseOf(Next(s, e).q.handlers, t) == Running <==>
            if e.WorkerReturn? && TaskOf(s, s.workers[e.w].pop) == t then false
            else PhaseOf(s.q.handlers, t) == Running ||
                 (e.WorkerEnter? && TaskOf(s, s.workers[e.w].pop) == t && PhaseOf(s.q.handlers, t) == Idle)
  {
    if IsWork(e) {
      WorkerRunning(s, e, s.workers[e.w].pop, t);
    } else {
      CancelHandlersEffect(s.q.handlers, s.q.list, t);
    }
  }

  lemma WorkerRunning(s: State, e: Event, p: nat, t: Task)
    requires Enabled(s, e) && IsWork(e) && s.workers[e.w].pop == p
    ensures PhaseOf(NextWorker(s, e, e.w, p).q.handlers, t) == Running <==>
            if e.WorkerReturn? && TaskOf(s, p) == t then false
            else PhaseOf(s.q.handlers, t) == Running ||
                 (e.WorkerEnter? && TaskOf(s, p) == t && PhaseOf(s.q.handlers, t) == Idle)
  {
  }

  lemma NextKeepsExclusive(s: State, e: Event)
    requires Enabled(s, e) && Lifecycle(s) && Exclusive(s)
    ensures Exclusive(Next(s, e))
  {
    var s1 := Next(s, e);
    forall w, t ensures InBody(s1, w, t) ==> PhaseOf(s1.q.handlers, t) == Running {
      BodiesAfter(s, e, w, t);
      RunningAfter(s, e, t);
      assert e.WorkerReturn? ==> InBody(s, e.w, TaskOf(s, s.workers[e.w].pop));
    }
    forall w, v, t | InBody(s1, w, t) && InBody(s1, v, t) ensures w == v {
      BodiesAfter(s, e, w, t);
      BodiesAfter(s, e, v, t);
    }
    forall t | PhaseOf(s1.q.handlers, t) == Running ensures exists w :: InBody(s1, w, t) {
      RunningAfter(s, e, t);
      if PhaseOf(s.q.handlers, t) == Running {
        var w :| InBody(s, w, t);
        BodiesAfter(s, e, w, t);
      } else {
        BodiesAfter(s, e, e.w, t);
      }
    }
  }

  ghost predicate Inv(s: State) {
    QueueInv(s.q, s.clock) && Lifecycle(s) && Exclusive(s)
  }

  lemma {:induction false} Reachable(r: Run, n: nat)
    requires IsRun(r) && n < |r.states|
    ensures Inv(r.states[n])
  {
    if n > 0 {
      assert StepAt(r, n - 1);
      Reachable(r, n - 1);
      NextKeepsQueue(r.states[n - 1], r.events[n - 1]);
      NextKeepsThreads(r.states[n - 1], r.events[n - 1]);
      NextKeepsPcs(r.states[n - 1], r.events[n - 1]);
      NextKeepsExclusive(r.states[n - 1], r.events[n - 1]);
    }
  }

  // ----- theorems over all runs -----

  /** The pops of a whole run, by whichever workers, are strictly increasing in due time and
      enqueue order; an entry still pending comes after everything popped so far. */
  lemma PoppedInDueOrder(r: Run, n: nat, i: nat, j: nat)
    requires IsRun(r) && n < |r.states|
    requires i < j < |r.states[n].q.popped + r.states[n].q.list|
    ensures var all := r.states[n].q.popped + r.states[n].q.list;
            all[i].due < all[j].due || (all[i].due == all[j].due && all[i].serial < all[j].serial)
  {
    Reachable(r, n);
    var q := r.states[n].q;
    var all := q.popped + q.list;
    if j < |q.popped| {
    } else if i < |q.popped| {
      assert Less(q.popped[i], q.list[j - |q.popped|]);
    } else {
      assert Less(q.list[i - |q.popped|], q.list[j - |q.popped|]);
    }
  }

  lemma StepGrows(s: State, e: Event)
    requires Enabled(s, e)
    ensures s.q.popped <= Next(s, e).q.popped
    ensures s.q.accepted <= Next(s, e).q.accepted
    ensures s.q.cancelled <= Next(s, e).q.cancelled
  {
  }

  /** The histories only grow, so the order above is an order over the whole run. */
  lemma {:induction false} HistoryGrows(r: Run, m: nat, n: nat)
    requires IsRun(r) && m <= n < |r.states|
    ensures r.states[m].q.popped <= r.states[n].q.popped
    ensures r.states[m].q.accepted <= r.states[n].q.accepted
    ensures r.states[m].q.cancelled <= r.states[n].q.cancelled
  {
    if m < n {
      assert StepAt(r, n - 1);
      HistoryGrows(r, m, n - 1);
      StepGrows(r.states[n - 1], r.events[n - 1]);
    }
  }

  /** Conservation: every accepted entry is, exactly once, pending, popped or cancelled. */
  lemma TasksConserved(r: Run, n: nat, k: nat)
    requires IsRun(r) && n < |r.states| && k < |r.states[n].q.accepted|
    ensures var q := r.states[n].q;
            && multiset(q.list) + multiset(q.popped) + multiset(q.cancelled) == multiset(q.accepted)
            && multiset(q.list)[q.accepted[k]] + multiset(q.popped)[q.accepted[k]]
               + multiset(q.cancelled)[q.accepted[k]] == 1
  {
    Reachable(r, n);
    var q := r.states[n].q;
    OnceInSeq(q.accepted, k);
  }

  lemma OnceInSeq(s: seq<Item>, k: nat)
    requires k < |s| && forall i :: 0 <= i < |s| ==> s[i].serial == i
    ensures multiset(s)[s[k]] == 1
  {
    assert s == s[..k] + [s[k]] + s[k + 1..];
    assert s[k] !in s[..k] && s[k] !in s[k + 1..];
  }

  /** An accepted enqueue that cancels leaves exactly the new entry pending; an accepted enqueue
      that does not adds exactly the new entry. */
  lemma EnqueueLeaves(q: Queue, task: Task, cancel: bool, delayUs: nat, now: nat, origin: Option<nat>)
    requires Enqueue(q, task, cancel, delayUs, now, origin).1 == Ok
    ensures var q1 := Enqueue(q, task, cancel, delayUs, now, origin).0;
            var item := Item(task, now + 1000 * delayUs, |q.accepted|);
            && q1.accepted == q.accepted + [item]
            && (cancel ==> q1.list == [item] && q1.cancelled == q.cancelled + q.list)
            && (!cancel ==> multiset(q1.list) == multiset(q.list) + multiset{item} && q1.cancelled == q.cancelled)
  {
    var q1 := if cancel then CancelAll(q) else q;
    assert Enqueue(q, task, cancel, delayUs, now, origin).0 == InsertItem(q1, task, delayUs, now, origin);
    InsertLeaves(q1, task, delayUs, now, origin);
    assert cancel ==> |InsertItem(q1, task, delayUs, now, origin).list| == 1;
  }

  lemma InsertLeaves(q: Queue, task: Task, delayUs: nat, now: nat, origin: Option<nat>)
    ensures var q1 := InsertItem(q, task, delayUs, now, origin);
            var item := Item(task, now + 1000 * delayUs, |q.accepted|);
            && q1.accepted == q.accepted + [item] && q1.cancelled == q.cancelled
            && multiset(q1.list) == multiset(q.list) + multiset{item}
            && (q.list == [] ==> q1.list == [item])
  {
    var q1 := InsertItem(q, task, delayUs, now, origin);
    var item := Item(task, delayUs * US_TO_NS + now, |q.accepted|);
    var k := InsertionPoint(q.list, item.due);
    assert q.list == q.list[..k] + q.list[k..];
    assert multiset(q1.list) == multiset(q.list) + multiset{item};
    if q.list == [] {
      assert q1.list == [item];
    }
  }

  /** The time arithmetic of an accepted entry: no wrap, less than ten seconds ahead, and never
      popped early. */
  lemma DueTimes(r: Run, n: nat, k: nat)
    requires IsRun(r) && n < |r.states| && k < |r.states[n].q.accepted|
    ensures var q := r.states[n].q;
            && k < |q.stamps|
            && q.accepted[k].due == q.stamps[k].instant + 1000 * q.stamps[k].delayUs < 0xFFFF_FFFF_FFFF_FFFF
            && q.accepted[k].due < q.stamps[k].instant + 10_000_000_000
            && forall i :: 0 <= i < |q.popped| && q.popped[i] == q.accepted[k] ==>
                 i < |q.popTimes| && q.accepted[k].due <= q.popTimes[i]
  {
    Reachable(r, n);
    assert StampOk(r.states[n].q, k);
  }

  /** The copy of a periodic task that its worker enqueued is popped after the pop it follows, and
      at least one full period later. */
  lemma PeriodBetweenPops(r: Run, n: nat, j: nat)
    requires IsRun(r) && n < |r.states| && j < |r.states[n].q.popped|
    ensures var q := r.states[n].q;
            && q.popped[j].serial < |q.stamps|
            && var origin := q.stamps[q.popped[j].serial].origin;
               origin.Some? ==>
                 && origin.value < j < |q.popTimes|
                 && q.popped[origin.value].task == q.popped[j].task
                 && q.popTimes[j] >= q.popTimes[origin.value] + 1000 * q.popped[j].task.periodUs
  {
    Reachable(r, n);
    var q := r.states[n].q;
    var x := q.popped[j];
    SerialBound(q, x);
    assert StampOk(q, x.serial);
    var origin := q.stamps[x.serial].origin;
    if origin.Some? {
      var p := origin.value;
      SortedIndex(q.popped, p, j);
    }
  }

  /** A null `thread_` is never dereferenced: it is non-null exactly while `isExit_` is false. */
  lemma ThreadIffNotExit(r: Run, n: nat)
    requires IsRun(r) && n < |r.states|
    ensures r.states[n].q.thread.Some? <==> !r.states[n].q.isExit
    ensures r.states[n].q.thread.Some? ==> r.states[n].q.thread.value in r.states[n].workers
  {
    Reachable(r, n);
  }

  /** A handler is never run by two workers at once, however Start and Stop interleave. */
  lemma HandlerNotReentered(r: Run, n: nat, w: nat, v: nat, t: Task)
    requires IsRun(r) && n < |r.states|
    requires InBody(r.states[n], w, t) && InBody(r.states[n], v, t)
    ensures w == v && PhaseOf(r.states[n].q.handlers, t) == Running
  {
    Reachable(r, n);
  }

  lemma StepKeepsCanceled(s: State, e: Event, t: Task)
    requires Enabled(s, e) && Exclusive(s) && PhaseOf(s.q.handlers, t) == Canceled
    ensures PhaseOf(Next(s, e).q.handlers, t) == Canceled
  {
    CancelHandlersEffect(s.q.handlers, s.q.list, t);
    assert e.WorkerReturn? ==> InBody(s, e.w, TaskOf(s, s.workers[e.w].pop));
  }

  /** Cancellation is final: a cancelled handler stays cancelled, even through later enqueues, and
      its function is never entered again. */
  lemma {:induction false} CancelIsFinal(r: Run, m: nat, n: nat, t: Task)
    requires IsRun(r) && m <= n < |r.states|
    requires PhaseOf(r.states[m].q.handlers, t) == Canceled
    ensures PhaseOf(r.states[n].q.handlers, t) == Canceled
    ensures forall w :: !InBody(r.states[n], w, t)
  {
    if m < n {
      assert StepAt(r, n - 1);
      CancelIsFinal(r, m, n - 1, t);
      Reachable(r, n - 1);
      StepKeepsCanceled(r.states[n - 1], r.events[n - 1], t);
    }
    assert Exclusive(r.states[n]) by { Reachable(r, n); }
  }

  // ----- runs in which a Start waits for the earlier workers -----

  predicate StartsAlone(s: State, e: Event) {
    e.Start? && s.q.thread.None? ==> s.workers == map[]
  }

  /** Every Start that creates a worker happens when no worker is left. */
  predicate Disciplined(r: Run)
    requires |r.states| > |r.events|
  {
    forall i :: 0 <= i < |r.events| ==> StartsAlone(r.states[i], r.events[i])
  }

  ghost predicate OneWorker(s: State) {
    forall w, v :: w in s.workers && v in s.workers ==> w == v
  }

  ghost predicate FlagExact(s: State) {
    s.q.executing <==> exists w :: w in s.workers && Busy(s.workers[w])
  }

  lemma StepOneWorker(s: State, e: Event)
    requires Enabled(s, e) && Lifecycle(s) && OneWorker(s)
    ensures OneWorker(Next(s, e)) <==> StartsAlone(s, e)
  {
    var s1 := Next(s, e);
    if e.Start? && s.q.thread.None? && s.workers != map[] {
      var w :| w in s.workers;
      assert w in s1.workers && s.spawned in s1.workers;
    }
  }

  /** At most one worker is alive throughout a run exactly when every Start waited for the earlier ones. */
  lemma {:induction false} OneWorkerIffDisciplined(r: Run, n: nat)
    requires IsRun(r) && n < |r.states|
    ensures (forall i :: 0 <= i <= n ==> OneWorker(r.states[i])) <==>
            (forall i :: 0 <= i < n ==> StartsAlone(r.states[i], r.events[i]))
  {
    if n > 0 {
      assert StepAt(r, n - 1);
      OneWorkerIffDisciplined(r, n - 1);
      if forall i :: 0 <= i <= n - 1 ==> OneWorker(r.states[i]) {
        assert OneWorker(r.states[n]) <==> StartsAlone(r.states[n - 1], r.events[n - 1]) by {
          Reachable(r, n - 1);
          StepOneWorker(r.states[n - 1], r.events[n - 1]);
        }
        if OneWorker(r.states[n]) {
          forall i | 0 <= i < n ensures StartsAlone(r.states[i], r.events[i]) {}
        }
      } else {
        assert !forall i :: 0 <= i < n - 1 ==> StartsAlone(r.states[i], r.events[i]);
      }
    }
  }

  /** A worker clears the flag while another one is between its pop and its completion. */
  predicate Overlaps(s: State, e: Event) {
    (e.WorkerSkip? || e.WorkerLeave?) && exists v :: v in s.workers && v != e.w && Busy(s.workers[v])
  }

  lemma MoveFlagExact(s: State, s1: State, w: nat, pc: Pc)
    requires FlagExact(s) && s1.workers == s.workers[w := pc]
    requires w in s.workers || !Busy(pc)
    requires w in s.workers && Busy(s.workers[w]) == Busy(pc) ==> s1.q.executing == s.q.executing
    requires w in s.workers && Busy(s.workers[w]) != Busy(pc) ==> s1.q.executing == Busy(pc)
    requires w !in s.workers ==> s1.q.executing == s.q.executing
    ensures FlagExact(s1) <==> s1.q.executing || !exists v :: v in s.workers && v != w && Busy(s.workers[v])
  {
    if v :| v in s.workers && v != w && Busy(s.workers[v]) {
      assert v in s1.workers && Busy(s1.workers[v]);
    }
    if s1.q.executing && (w in s.workers ==> Busy(s.workers[w]) == Busy(pc)) {
      var v :| v in s.workers && Busy(s.workers[v]);
      assert v in s1.workers && Busy(s1.workers[v]);
    }
    if Busy(pc) {
      assert w in s1.workers && Busy(s1.workers[w]);
    }
  }

  /** A step keeps the flag exact, unless it is such an overlap. */
  lemma StepFlagExact(s: State, e: Event)
    requires Enabled(s, e) && Lifecycle(s) && FlagExact(s)
    ensures FlagExact(Next(s, e)) <==> !Overlaps(s, e)
  {
    var s1 := Next(s, e);
    if e.WorkerPop? {
      MoveFlagExact(s, s1, e.w, Check(|s.q.popped|));
    } else if e.Start? && s.q.thread.None? {
      MoveFlagExact(s, s1, s.spawned, Top);
      assert !s1.q.executing ==> !exists v :: v in s.workers && Busy(s.workers[v]);
    } else if IsWork(e) {
      WorkFlagExact(s, e, s.workers[e.w].pop);
    } else {
      assert forall v :: v in s1.workers ==> v in s.workers && s1.workers[v] == s.workers[v];
      assert forall v :: v in s.workers && Busy(s.workers[v]) ==> v in s1.workers;
    }
  }

  lemma WorkFlagExact(s: State, e: Event, p: nat)
    requires Enabled(s, e) && FlagExact(s) && IsWork(e) && s.workers[e.w].pop == p
    ensures FlagExact(NextWorker(s, e, e.w, p)) <==> !Overlaps(s, e)
  {
    var s1 := NextWorker(s, e, e.w, p);
    var w, pc := e.w, s1.workers[e.w];
    assert Busy(s.workers[w]) ==> s.q.executing;
    MoveFlagExact(s, s1, w, pc);
    assert !e.WorkerSkip? && !e.WorkerLeave? && !s1.q.executing ==>
      !exists v :: v in s.workers && Busy(s.workers[v]);
  }

  /** `isTaskExecuting_` reports exactly, throughout a run, whether a task is between its pop and its
      completion, if and only if no worker completes a task while another one has one. */
  lemma {:induction false} ExecutingFlagExact(r: Run, n: nat)
    requires IsRun(r) && n < |r.states|
    ensures (forall i :: 0 <= i <= n ==> FlagExact(r.states[i])) <==>
            (forall i :: 0 <= i < n ==> !Overlaps(r.states[i], r.events[i]))
  {
    if n > 0 {
      assert StepAt(r, n - 1);
      ExecutingFlagExact(r, n - 1);
      if forall i :: 0 <= i <= n - 1 ==> FlagExact(r.states[i]) {
        assert FlagExact(r.states[n]) <==> !Overlaps(r.states[n - 1], r.events[n - 1]) by {
          Reachable(r, n - 1);
          StepFlagExact(r.states[n - 1], r.events[n - 1]);
        }
        if FlagExact(r.states[n]) {
          forall i | 0 <= i < n ensures !Overlaps(r.states[i], r.events[i]) {}
        }
      } else {
        assert !forall i :: 0 <= i < n - 1 ==> !Overlaps(r.states[i], r.events[i]);
      }
    }
  }

  /** In particular in a disciplined run, where at most one worker is alive. */
  lemma DisciplinedFlagExact(r: Run, n: nat)
    requires IsRun(r) && Disciplined(r) && n < |r.states|
    ensures OneWorker(r.states[n]) && FlagExact(r.states[n])
  {
    OneWorkerIffDisciplined(r, n);
    forall i | 0 <= i < n ensures !Overlaps(r.states[i], r.events[i]) {
      assert StepAt(r, i) && OneWorker(r.states[i]);
    }
    ExecutingFlagExact(r, n);
  }

  /** The last section of a Stop that joined empties the list and cancels every leftover; a leftover
      handler ends cancelled unless some worker is inside its function at that moment. */
  lemma StopCancelsLeftovers(r: Run, n: nat, id: nat, k: nat)
    requires IsRun(r) && n < |r.events| && r.events[n] == StopCancel(id)
    requires k < |r.states[n].q.list|
    ensures var s, s1 := r.states[n], r.states[n + 1];
            var t := s.q.list[k].task;
            && s1.q.list == [] && s1.q.cancelled == s.q.cancelled + s.q.list
            && (PhaseOf(s1.q.handlers, t) == Canceled <==> !exists w :: InBody(s, w, t))
  {
    assert StepAt(r, n);
    Reachable(r, n);
    var s := r.states[n];
    CancelHandlersEffect(s.q.handlers, s.q.list, s.q.list[k].task);
    assert s.q.list[k] in s.q.list;
  }

  // ----- longer runs -----

  /** `r1` goes on where `r` ends. */
  ghost predicate Continues(r: Run, r1: Run) {
    IsRun(r1) && r.states <= r1.states && r.events <= r1.events
  }

  function Last(r: Run): State
    requires |r.states| == |r.events| + 1
  {
    r.states[|r.events|]
  }

  lemma Extend(r: Run, e: Event) returns (r1: Run)
    requires IsRun(r) && Enabled(r.states[|r.events|], e)
    ensures IsRun(r1) && |r1.events| == |r.events| + 1
    ensures r1.states[|r1.events|] == Next(r.states[|r.events|], e)
    ensures r1.events == r.events + [e] && r.states <= r1.states
  {
    r1 := Run(r.states + [Next(r.states[|r.events|], e)], r.events + [e]);
    forall i | 0 <= i < |r1.events| ensures StepAt(r1, i) {
      assert i < |r.events| ==> StepAt(r, i);
    }
  }
}
