/** What a worker does with the task it popped, up to its next pop, and when that leaves a copy of a
    periodic task in the list.
 */
module TaskQueuePeriods {
  import opened Wrappers
  import opened TaskQueueModel
  import opened TaskQueueRuns

  /** A step of the worker, its pops and its exit included. */
  predicate Own(e: Event, w: nat) {
    (IsWork(e) || e.WorkerPop? || e.WorkerExit?) && e.w == w
  }

  /** The steps of the worker among `i`, ..., `j - 1`. */
  function OwnSteps(r: Run, w: nat, i: nat, j: nat): (own: seq<nat>)
    requires i <= j <= |r.events|
    ensures forall k :: 0 <= k < |own| ==> i <= own[k] < j
    decreases j
  {
    if i == j then []
    else OwnSteps(r, w, i, j - 1) + (if Own(r.events[j - 1], w) then [j - 1] else [])
  }

  /** The handler of the task is in the phase when step `i` begins. */
  predicate PhaseAt(r: Run, i: nat, t: Task, phase: Phase)
    requires |r.states| > |r.events| && i <= |r.events|
  {
    PhaseOf(r.states[i].q.handlers, t) == phase
  }

  /** The task was found cancelled. */
  predicate Cancelled(r: Run, w: nat, t: Task, own: seq<nat>)
    requires |r.states| > |r.events| && forall k :: 0 <= k < |own| ==> own[k] < |r.events|
  {
    |own| >= 1 && r.events[own[0]] == WorkerCheck(w) && PhaseAt(r, own[0], t, Canceled)
  }

  /** It was not, and Execute was entered. */
  predicate Entered(r: Run, w: nat, t: Task, own: seq<nat>)
    requires |r.states| > |r.events| && forall k :: 0 <= k < |own| ==> own[k] < |r.events|
  {
    && |own| >= 2 && r.events[own[0]] == WorkerCheck(w) && !PhaseAt(r, own[0], t, Canceled)
    && r.events[own[1]] == WorkerEnter(w)
  }

  /** Execute has returned, `k` steps after the pop: through the task's function exactly if the handler was idle
      at the entry. */
  predicate Executed(r: Run, w: nat, t: Task, own: seq<nat>, k: nat)
    requires |r.states| > |r.events| && forall j :: 0 <= j < |own| ==> own[j] < |r.events|
  {
    && Entered(r, w, t, own)
    && k == (if PhaseAt(r, own[1], t, Idle) then 3 else 2) <= |own|
    && (k == 3 ==> r.events[own[2]] == WorkerReturn(w))
  }

  /** The next step left it. */
  predicate Left(r: Run, w: nat, t: Task, own: seq<nat>, k: nat)
    requires |r.states| > |r.events| && forall j :: 0 <= j < |own| ==> own[j] < |r.events|
  {
    Executed(r, w, t, own, k) && k < |own| && r.events[own[k]] == WorkerLeave(w)
  }

  /** The two steps after that enqueued the task again, or tried to. */
  predicate CopyTried(r: Run, w: nat, own: seq<nat>, k: nat)
    requires forall j :: 0 <= j < |own| ==> own[j] < |r.events|
  {
    && k + 2 < |own| && r.events[own[k + 1]] == WorkerClear(w)
    && r.events[own[k + 2]].WorkerRequeue? && r.events[own[k + 2]].w == w
  }

  /** The steps of one turn of the loop in TaskProcessor, between a pop of the task and the next pop or exit. */
  predicate Turn(r: Run, w: nat, t: Task, own: seq<nat>)
    requires |r.states| > |r.events| && forall j :: 0 <= j < |own| ==> own[j] < |r.events|
  {
    || (|own| == 2 && Cancelled(r, w, t, own) && r.events[own[1]] == WorkerSkip(w))
    || (|own| == 3 && t.periodUs == UINT64_MAX && Left(r, w, t, own, 2))
    || (|own| == 4 && t.periodUs == UINT64_MAX && Left(r, w, t, own, 3))
    || (|own| == 5 && t.periodUs != UINT64_MAX && Left(r, w, t, own, 2) && CopyTried(r, w, own, 2))
    || (|own| == 6 && t.periodUs != UINT64_MAX && Left(r, w, t, own, 3) && CopyTried(r, w, own, 3))
  }

  /** How far the turn has come when the worker stands at `pc`. */
  predicate SoFar(r: Run, w: nat, t: Task, own: seq<nat>, pc: Pc)
    requires |r.states| > |r.events| && forall j :: 0 <= j < |own| ==> own[j] < |r.events|
  {
    match pc
    case Top => Turn(r, w, t, own)
    case Check(_) => own == []
    case Skip(_) => |own| == 1 && Cancelled(r, w, t, own)
    case Enter(_) => |own| == 1 && r.events[own[0]] == WorkerCheck(w) && !PhaseAt(r, own[0], t, Canceled)
    case Body(_) => |own| == 2 && Entered(r, w, t, own) && PhaseAt(r, own[1], t, Idle)
    case Leave(_) => Executed(r, w, t, own, |own|)
    case Clear(_) => t.periodUs != UINT64_MAX && |own| >= 1 && Left(r, w, t, own, |own| - 1)
    case Requeue(_) =>
      && t.periodUs != UINT64_MAX && |own| >= 2 && Left(r, w, t, own, |own| - 2)
      && r.events[own[|own| - 1]] == WorkerClear(w)
  }

  /** Nobody else moves a worker. */
  lemma OthersKeep(s: State, e: Event, w: nat)
    requires Enabled(s, e) && ThreadsOk(s) && w in s.workers && !Own(e, w)
    ensures w in Next(s, e).workers && Next(s, e).workers[w] == s.workers[w]
  {
  }

  /** The step carries the turn on. */
  lemma TurnStep(r: Run, w: nat, t: Task, own: seq<nat>, j: nat)
    requires j < |r.events| < |r.states| && forall k :: 0 <= k < |own| ==> own[k] < j
    requires StepAt(r, j) && IsWork(r.events[j]) && r.events[j].w == w
    requires SoFar(r, w, t, own, r.states[j].workers[w]) && TaskOf(r.states[j], r.states[j].workers[w].pop) == t
    ensures w in r.states[j + 1].workers && SoFar(r, w, t, own + [j], r.states[j + 1].workers[w])
    ensures !r.states[j + 1].workers[w].Top? ==> r.states[j + 1].workers[w].pop == r.states[j].workers[w].pop
  {
    var own1 := own + [j];
    assert forall k :: 0 <= k < |own| ==> own1[k] == own[k];
    assert own1[|own|] == j;
  }

  predicate EndsTurn(e: Event, w: nat) {
    (e.WorkerPop? || e.WorkerExit?) && e.w == w
  }

  /** At state `j` the worker is still on the entry it popped at step `i`, or has just done with it. */
  predicate OnEntry(r: Run, w: nat, i: nat, j: nat)
    requires i < j <= |r.events| < |r.states|
  {
    var p, s := |r.states[i].q.popped|, r.states[j];
    && w in s.workers && p < |s.q.popped| && r.states[i].q.list != []
    && s.q.popped[p] == r.states[i].q.list[0]
    && (!s.workers[w].Top? ==> s.workers[w].pop == p)
  }

  lemma EntryPopped(r: Run, w: nat, i: nat)
    requires IsRun(r) && i < |r.events| && r.events[i].WorkerPop? && r.events[i].w == w
    ensures OnEntry(r, w, i, i + 1) && r.states[i + 1].workers[w].Check?
  {
    assert StepAt(r, i);
  }

  lemma EntryKept(r: Run, w: nat, i: nat, j: nat)
    requires IsRun(r) && i < j < |r.events| && OnEntry(r, w, i, j) && !EndsTurn(r.events[j], w)
    ensures OnEntry(r, w, i, j + 1)
    ensures !Own(r.events[j], w) ==> r.states[j + 1].workers[w] == r.states[j].workers[w]
  {
    HistoryGrows(r, j, j + 1);
    Reachable(r, j);
    assert StepAt(r, j);
    if !Own(r.events[j], w) {
      OthersKeep(r.states[j], r.events[j], w);
    }
  }

  lemma TurnMoves(r: Run, w: nat, t: Task, own: seq<nat>, i: nat, j: nat)
    requires IsRun(r) && i < j < |r.events| && OnEntry(r, w, i, j) && t == r.states[i].q.list[0].task
    requires Own(r.events[j], w) && !EndsTurn(r.events[j], w) && forall k :: 0 <= k < |own| ==> own[k] < j
    requires SoFar(r, w, t, own, r.states[j].workers[w])
    ensures w in r.states[j + 1].workers && SoFar(r, w, t, own + [j], r.states[j + 1].workers[w])
  {
    assert StepAt(r, j);
    TurnStep(r, w, t, own, j);
  }

  predicate OnTurn(r: Run, w: nat, i: nat, j: nat)
    requires i < j <= |r.events| < |r.states|
  {
    && OnEntry(r, w, i, j)
    && SoFar(r, w, r.states[i].q.list[0].task, OwnSteps(r, w, i + 1, j), r.states[j].workers[w])
  }

  lemma TurnGoesOn(r: Run, w: nat, i: nat, j: nat)
    requires IsRun(r) && i < j < |r.events| && OnTurn(r, w, i, j)
    requires Own(r.events[j], w) && !EndsTurn(r.events[j], w)
    ensures OnTurn(r, w, i, j + 1)
  {
    var own := OwnSteps(r, w, i + 1, j);
    EntryKept(r, w, i, j);
    TurnMoves(r, w, r.states[i].q.list[0].task, own, i, j);
    assert OwnSteps(r, w, i + 1, j + 1) == own + [j];
  }

  lemma TurnWaits(r: Run, w: nat, i: nat, j: nat)
    requires IsRun(r) && i < j < |r.events| && OnTurn(r, w, i, j) && !Own(r.events[j], w)
    ensures OnTurn(r, w, i, j + 1)
  {
    EntryKept(r, w, i, j);
    assert OwnSteps(r, w, i + 1, j + 1) == OwnSteps(r, w, i + 1, j);
  }

  lemma {:induction false} TurnSoFar(r: Run, w: nat, i: nat, j: nat)
    requires IsRun(r) && i < j <= |r.events| && r.events[i].WorkerPop? && r.events[i].w == w
    requires forall k :: i < k < j ==> !EndsTurn(r.events[k], w)
    ensures OnTurn(r, w, i, j)
    decreases j
  {
    if j == i + 1 {
      EntryPopped(r, w, i);
    } else {
      TurnSoFar(r, w, i, j - 1);
      if Own(r.events[j - 1], w) {
        TurnGoesOn(r, w, i, j - 1);
      } else {
        TurnWaits(r, w, i, j - 1);
      }
    }
  }

  /** Every turn of every worker in every run: between a pop and its next pop or exit a worker asks once
      whether the handler is cancelled and skips it exactly if it is; otherwise it enters Execute, runs the
      function exactly if the handler is idle, and then clears and enqueues it again exactly if it is
      periodic. */
  lemma EveryTurn(r: Run, w: nat, i: nat, j: nat)
    requires IsRun(r) && i < j < |r.events| && r.events[i].WorkerPop? && r.events[i].w == w
    requires EndsTurn(r.events[j], w) && forall k :: i < k < j ==> !EndsTurn(r.events[k], w)
    ensures r.states[i].q.list != [] && Turn(r, w, r.states[i].q.list[0].task, OwnSteps(r, w, i + 1, j))
  {
    assert StepAt(r, j);
    TurnSoFar(r, w, i, j);
  }

  // ----- the copies -----

  /** The worker is on the pop. */
  predicate Holds(s: State, w: nat, p: nat) {
    w in s.workers && !s.workers[w].Top? && s.workers[w].pop == p
  }

  predicate CopyOf(q: Queue, k: nat, p: nat) {
    k < |q.stamps| && q.stamps[k].origin == Some(p)
  }

  /** A pop has one worker at most, and at most one copy, made when no worker is on it any more. */
  ghost predicate CopiesOk(s: State) {
    && (forall v: nat, w: nat, p: nat :: Holds(s, v, p) && Holds(s, w, p) ==> v == w)
    && (forall k: nat, p: nat :: CopyOf(s.q, k, p) ==> p < |s.q.popped|)
    && (forall k: nat, p: nat, w: nat :: CopyOf(s.q, k, p) ==> !Holds(s, w, p))
    && (forall k: nat, k1: nat, p: nat :: CopyOf(s.q, k, p) && CopyOf(s.q, k1, p) ==> k == k1)
  }

  /** Who is on which pop after a step. */
  lemma HoldsAfter(s: State, e: Event, v: nat, p: nat)
    requires Enabled(s, e) && Lifecycle(s) && Holds(Next(s, e), v, p)
    ensures (e.WorkerPop? && e.w == v && p == |s.q.popped|) || (Holds(s, v, p) && p < |s.q.popped|)
  {
    assert Holds(s, v, p) ==> PcOk(s, s.workers[v]);
  }

  /** Which copies there are after a step. */
  lemma CopiesAfter(s: State, e: Event, k: nat, p: nat)
    requires Enabled(s, e) && Lifecycle(s) && CopyOf(Next(s, e).q, k, p)
    ensures CopyOf(s.q, k, p) ||
            (k == |s.q.stamps| && e.WorkerRequeue? && Holds(s, e.w, p) && p < |s.q.popped| &&
             Next(s, e).workers == s.workers[e.w := Top])
  {
    if e.WorkerRequeue? {
      assert PcOk(s, s.workers[e.w]);
    }
  }

  lemma NextCopiesOk(s: State, e: Event)
    requires Enabled(s, e) && Lifecycle(s) && CopiesOk(s)
    ensures CopiesOk(Next(s, e))
  {
    var s1 := Next(s, e);
    StepGrows(s, e);
    forall v: nat, w: nat, p: nat | Holds(s1, v, p) && Holds(s1, w, p) ensures v == w {
      HoldsAfter(s, e, v, p);
      HoldsAfter(s, e, w, p);
    }
    forall k: nat, p: nat | CopyOf(s1.q, k, p) ensures p < |s1.q.popped| {
      CopiesAfter(s, e, k, p);
    }
    forall k: nat, p: nat, w: nat | CopyOf(s1.q, k, p) ensures !Holds(s1, w, p) {
      CopiesAfter(s, e, k, p);
      if Holds(s1, w, p) {
        HoldsAfter(s, e, w, p);
      }
    }
    forall k: nat, k1: nat, p: nat | CopyOf(s1.q, k, p) && CopyOf(s1.q, k1, p) ensures k == k1 {
      CopiesAfter(s, e, k, p);
      CopiesAfter(s, e, k1, p);
    }
  }

  lemma {:induction false} RunCopiesOk(r: Run, n: nat)
    requires IsRun(r) && n < |r.states|
    ensures CopiesOk(r.states[n])
  {
    if n > 0 {
      assert StepAt(r, n - 1);
      Reachable(r, n - 1);
      RunCopiesOk(r, n - 1);
      NextCopiesOk(r.states[n - 1], r.events[n - 1]);
    }
  }

  /** At any time a pop has led to one copy at most. */
  lemma OneCopy(r: Run, n: nat, k: nat, k1: nat)
    requires IsRun(r) && n < |r.states| && k < |r.states[n].q.stamps| && k1 < |r.states[n].q.stamps|
    requires r.states[n].q.stamps[k].origin.Some? && r.states[n].q.stamps[k].origin == r.states[n].q.stamps[k1].origin
    ensures k == k1
  {
    RunCopiesOk(r, n);
    var p := r.states[n].q.stamps[k].origin.value;
    assert CopyOf(r.states[n].q, k, p) && CopyOf(r.states[n].q, k1, p);
  }

  /** A copy can be enqueued at that time. */
  predicate CopyFits(q: Queue, t: Task, now: nat) {
    !q.isExit && t.periodUs < 10_000_000 && now + 1000 * t.periodUs < 0xFFFF_FFFF_FFFF_FFFF
  }

  /** The re-enqueue of a periodic task accepts just one entry, for the same task, due a period later, exactly
      if the queue runs, the period is short enough and the sum fits; otherwise it changes nothing. */
  lemma CopyAccepted(r: Run, n: nat)
    requires IsRun(r) && n < |r.events| && r.events[n].WorkerRequeue?
    ensures var q, q1, w, now := r.states[n].q, r.states[n + 1].q, r.events[n].w, r.events[n].now;
            w in r.states[n].workers && r.states[n].workers[w].Requeue? &&
            var p := r.states[n].workers[w].pop;
            p < |q.popped| &&
            var t := q.popped[p].task;
            var item := Item(t, now + 1000 * t.periodUs, |q.accepted|);
            if CopyFits(q, t, now) then
              && q1.accepted == q.accepted + [item] && q1.stamps == q.stamps + [Stamp(now, t.periodUs, Some(p))]
              && multiset(q1.list) == multiset(q.list) + multiset{item} && q1.cancelled == q.cancelled
            else q1 == q
  {
    assert StepAt(r, n);
    Reachable(r, n);
    var s, w, now := r.states[n], r.events[n].w, r.events[n].now;
    var p := s.workers[w].pop;
    assert PcOk(s, s.workers[w]);
    var t := s.q.popped[p].task;
    if CopyFits(s.q, t, now) {
      EnqueueLeaves(s.q, t, false, t.periodUs, now, Some(p));
    }
  }

  /** A worker is done with its pop and enqueues nothing: the task was cancelled, it is not periodic, or its
      copy does not fit. */
  predicate DoneWithoutCopy(s: State, e: Event) {
    match e
    case WorkerSkip(_) => true
    case WorkerLeave(w) => w in s.workers && s.workers[w].Leave? && TaskOf(s, s.workers[w].pop).periodUs == UINT64_MAX
    case WorkerRequeue(w, now) =>
      w in s.workers && s.workers[w].Requeue? && !CopyFits(s.q, TaskOf(s, s.workers[w].pop), now)
    case _ => false
  }

  ghost predicate Gone(s: State, p: nat) {
    && p < |s.q.popped|
    && (forall w :: !Holds(s, w, p))
    && (forall k :: !CopyOf(s.q, k, p))
  }

  lemma StaysGone(s: State, e: Event, p: nat)
    requires Enabled(s, e) && Lifecycle(s) && Gone(s, p)
    ensures Gone(Next(s, e), p)
  {
    var s1 := Next(s, e);
    StepGrows(s, e);
    forall w ensures !Holds(s1, w, p) {
      if Holds(s1, w, p) {
        HoldsAfter(s, e, w, p);
      }
    }
    forall k ensures !CopyOf(s1.q, k, p) {
      if CopyOf(s1.q, k, p) {
        CopiesAfter(s, e, k, p);
      }
    }
  }

  lemma DoneIsGone(s: State, e: Event, p: nat)
    requires Enabled(s, e) && Lifecycle(s) && CopiesOk(s) && DoneWithoutCopy(s, e) && Holds(s, e.w, p)
    ensures Gone(Next(s, e), p)
  {
    var s1 := Next(s, e);
    assert PcOk(s, s.workers[e.w]);
    assert s1.workers == s.workers[e.w := Top] && s1.q.stamps == s.q.stamps;
    forall w ensures !Holds(s1, w, p) {
      assert w != e.w ==> Holds(s1, w, p) == Holds(s, w, p);
    }
    forall k ensures !CopyOf(s1.q, k, p) {
      assert CopyOf(s1.q, k, p) == CopyOf(s.q, k, p);
    }
  }

  lemma {:induction false} GoneSince(r: Run, m: nat, n: nat, p: nat)
    requires IsRun(r) && m < n <= |r.events| && Enabled(r.states[m], r.events[m])
    requires DoneWithoutCopy(r.states[m], r.events[m]) && Holds(r.states[m], r.events[m].w, p)
    ensures Gone(r.states[n], p)
    decreases n
  {
    assert StepAt(r, n - 1);
    Reachable(r, n - 1);
    if n == m + 1 {
      RunCopiesOk(r, m);
      DoneIsGone(r.states[m], r.events[m], p);
    } else {
      GoneSince(r, m, n - 1, p);
      StaysGone(r.states[n - 1], r.events[n - 1], p);
    }
  }

  /** A pop whose task was skipped, is not periodic or could not be enqueued again never has a copy. */
  lemma NoCopyOtherwise(r: Run, m: nat, n: nat, k: nat)
    requires IsRun(r) && m < n <= |r.events| && k < |r.states[n].q.stamps|
    requires DoneWithoutCopy(r.states[m], r.events[m])
    ensures var w := r.events[m].w;
            w in r.states[m].workers && !r.states[m].workers[w].Top? &&
            r.states[n].q.stamps[k].origin != Some(r.states[m].workers[w].pop)
  {
    assert StepAt(r, m);
    var p := r.states[m].workers[r.events[m].w].pop;
    GoneSince(r, m, n, p);
    assert !CopyOf(r.states[n].q, k, p);
  }

  // ----- the life of a handler -----

  /** The step works on the task as a worker. */
  predicate WorksOn(s: State, e: Event, t: Task) {
    IsWork(e) && e.w in s.workers && !s.workers[e.w].Top? && TaskOf(s, s.workers[e.w].pop) == t
  }

  /** The step cancels the task: by name, or as a pending one, by an enqueue that gets that far or by the last
      section of a Stop. */
  predicate CancelsTask(s: State, e: Event, t: Task) {
    || e == CancelTask(t)
    || (e.Produce? && e.cancelNotExecuted && e.delayUs < 10_000_000 && !s.q.isExit && exists x :: x in s.q.list && x.task == t)
    || (e.StopCancel? && exists x :: x in s.q.list && x.task == t)
  }

  /** The next phase of a handler. */
  ghost function NextPhase(s: State, e: Event, t: Task): Phase {
    match PhaseOf(s.q.handlers, t)
    case Running => if e.WorkerReturn? && WorksOn(s, e, t) then Finished else Running
    case Canceled => Canceled
    case Idle =>
      if CancelsTask(s, e, t) then Canceled else if e.WorkerEnter? && WorksOn(s, e, t) then Running else Idle
    case Finished =>
      if CancelsTask(s, e, t) then Canceled
      else if e == ClearTask(t) || (e.WorkerClear? && WorksOn(s, e, t)) then Idle
      else Finished
  }

  lemma WorkerPhase(s: State, e: Event, p: nat, t: Task)
    requires Enabled(s, e) && IsWork(e) && s.workers[e.w].pop == p
    requires e.WorkerReturn? ==> PhaseOf(s.q.handlers, TaskOf(s, p)) == Running
    ensures PhaseOf(NextWorker(s, e, e.w, p).q.handlers, t) == NextPhase(s, e, t)
  {
  }

  lemma CallerPhase(s: State, e: Event, t: Task)
    requires Enabled(s, e) && (e.ClearTask? || e.CancelTask? || e.Produce? || e.StopCancel?)
    ensures PhaseOf(Next(s, e).q.handlers, t) == NextPhase(s, e, t)
  {
    CancelHandlersEffect(s.q.handlers, s.q.list, t);
  }

  lemma OtherPhase(s: State, e: Event, t: Task)
    requires Enabled(s, e) && !IsWork(e)
    ensures PhaseOf(Next(s, e).q.handlers, t) == NextPhase(s, e, t)
  {
    if e.ClearTask? || e.CancelTask? || e.Produce? || e.StopCancel? {
      CallerPhase(s, e, t);
    } else {
      assert Next(s, e).q.handlers == s.q.handlers;
    }
  }

  /** A handler goes from idle to running when a worker enters Execute, from running to finished when its
      function returns, from finished to idle when it is cleared, and to cancelled from anywhere but running;
      it changes in no other way. */
  lemma HandlerLife(r: Run, n: nat, t: Task)
    requires IsRun(r) && n < |r.events|
    ensures PhaseOf(r.states[n + 1].q.handlers, t) == NextPhase(r.states[n], r.events[n], t)
  {
    var s, e := r.states[n], r.events[n];
    assert StepAt(r, n);
    if IsWork(e) {
      assert e.WorkerReturn? ==> PhaseOf(s.q.handlers, TaskOf(s, s.workers[e.w].pop)) == Running by {
        Reachable(r, n);
        assert e.WorkerReturn? ==> InBody(s, e.w, TaskOf(s, s.workers[e.w].pop));
      }
      WorkerPhase(s, e, s.workers[e.w].pop, t);
    } else {
      OtherPhase(s, e, t);
    }
  }
}
