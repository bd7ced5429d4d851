/** What is accepted, and that what is pending can be run: while the queue runs, each of its workers alone can
    bring every pending entry to its pop.
 */
module TaskQueueProgress {
  import opened Wrappers
  import opened TaskQueueModel
  import opened TaskQueueRuns
  import opened TaskQueueStops
  import opened TaskQueuePeriods

  /** An enqueue is accepted exactly if its delay is below ten seconds, the queue runs and the due time fits; a
      longer delay is an invalid value, anything else an invalid operation. A refusal accepts nothing, and
      cancels the pending entries, if that was asked, only when the due time does not fit. */
  lemma EnqueueAnswers(q: Queue, task: Task, cancel: bool, delayUs: nat, now: nat, origin: Option<nat>)
    ensures var (q1, code) := Enqueue(q, task, cancel, delayUs, now, origin);
            && (code == Ok <==> delayUs < 10_000_000 && !q.isExit && now + 1000 * delayUs < 0xFFFF_FFFF_FFFF_FFFF)
            && (code == InvalidVal <==> delayUs >= 10_000_000)
            && (code != Ok ==>
                  && q1.accepted == q.accepted && q1.popped == q.popped && q1.isExit == q.isExit
                  && if cancel && delayUs < 10_000_000 && !q.isExit
                     then q1.list == [] && q1.cancelled == q.cancelled + q.list
                     else q1 == q)
  {
  }

  /** A second Start and a second Stop change nothing, and a Stop undoes a Start: it stops the queue and gives up
      just the thread that Start made. */
  lemma StopUndoesStart(q: Queue, w: nat, v: nat)
    requires q.thread.Some? <==> !q.isExit
    ensures StartQueue(StartQueue(q, w), v) == StartQueue(q, w)
    ensures StopQueue(StopQueue(q)) == StopQueue(q)
    ensures q.isExit ==> StartQueue(q, w).thread == Some(w) && StopQueue(StartQueue(q, w)) == q
  {
  }

  function Later(a: nat, b: nat): nat {
    if a < b then b else a
  }

  /** The worker's next step on the way to the entry at `k`, late enough for that entry. */
  function GoStep(s: State, w: nat, k: nat): Event
    requires w in s.workers && k < |s.q.list|
  {
    var now := Later(s.clock, s.q.list[k].due);
    match s.workers[w]
    case Top => WorkerPop(w, now)
    case Requeue(_) => WorkerRequeue(w, now)
    case _ => WorkStep(s, w)
  }

  /** The worker runs and the entry is pending at `k`. */
  predicate Waiting(s: State, w: nat, k: nat, x: Item) {
    !s.q.isExit && w in s.workers && k < |s.q.list| && s.q.list[k] == x
  }

  lemma WorkKeepsWaiting(s: State, w: nat, k: nat, x: Item)
    requires Waiting(s, w, k, x) && !InStop(s, w) && !s.workers[w].Top? && Sorted(s.q.list)
    ensures var e := GoStep(s, w, k);
            && Enabled(s, e) && Own(e, w)
            && var s1 := Next(s, e);
               Waiting(s1, w, k, x) && s1.stoppers == s.stoppers && Togo(s1.workers[w]) < Togo(s.workers[w])
  {
    if s.workers[w].Requeue? {
      CopyBehind(s, w, k);
    } else {
      WorkStepAdvances(s, w);
    }
  }

  /** An entry that is due no earlier is inserted behind. */
  lemma InsertedBehind(list: seq<Item>, k: nat, due: nat)
    requires Sorted(list) && k < |list| && list[k].due <= due
    ensures k < InsertionPoint(list, due)
  {
    var p := InsertionPoint(list, due);
    assert forall j :: 0 <= j < k ==> Less(list[j], list[k]);
  }

  lemma CopyBehind(s: State, w: nat, k: nat)
    requires w in s.workers && s.workers[w].Requeue? && k < |s.q.list| && Sorted(s.q.list) && !s.q.isExit
    ensures var s1 := Next(s, GoStep(s, w, k));
            s1.q.isExit == s.q.isExit && k < |s1.q.list| && s1.q.list[k] == s.q.list[k]
  {
    var t := TaskOf(s, s.workers[w].pop);
    InsertedBehind(s.q.list, k, t.periodUs * US_TO_NS + Later(s.clock, s.q.list[k].due));
  }

  lemma PopBringsCloser(s: State, w: nat, k: nat, x: Item)
    requires Waiting(s, w, k, x) && s.workers[w].Top? && Sorted(s.q.list)
    ensures var e := GoStep(s, w, k);
            && Enabled(s, e) && Own(e, w)
            && var s1 := Next(s, e);
               && s1.stoppers == s.stoppers
               && if k == 0 then x in s1.q.popped else Waiting(s1, w, k - 1, x)
  {
    assert k > 0 ==> Less(s.q.list[0], s.q.list[k]);
    var s1 := Next(s, GoStep(s, w, k));
    assert s1.q.popped[|s.q.popped|] == s.q.list[0];
  }

  /** Everything after the first `n` steps is a step of the worker. */
  predicate OnlyWorker(r: Run, n: nat, w: nat) {
    forall i :: n <= i < |r.events| ==> Own(r.events[i], w)
  }

  lemma {:induction false} GoOn(r: Run, n: nat, w: nat, k: nat, x: Item) returns (r1: Run)
    requires IsRun(r) && n <= |r.events| && OnlyWorker(r, n, w)
    requires Waiting(Last(r), w, k, x) && !InStop(Last(r), w)
    ensures Continues(r, r1) && OnlyWorker(r1, n, w) && x in Last(r1).q.popped
    decreases k, Togo(Last(r).workers[w])
  {
    var s := Last(r);
    assert Sorted(s.q.list) by { Reachable(r, |r.events|); }
    var e := GoStep(s, w, k);
    if s.workers[w].Top? {
      PopBringsCloser(s, w, k, x);
    } else {
      WorkKeepsWaiting(s, w, k, x);
    }
    r1 := Extend(r, e);
    assert OnlyWorker(r1, n, w) by { assert r1.events == r.events + [e]; }
    if !(s.workers[w].Top? && k == 0) {
      assert !InStop(Last(r1), w);
      r1 := GoOn(r1, n, w, if s.workers[w].Top? then k - 1 else k, x);
    }
  }

  /** While the queue runs every pending entry can be popped by steps of any one worker that is not inside a
      Stop: whatever that worker is doing, and whatever copies of periodic tasks it enqueues on the way. */
  lemma EntryCanBePopped(r: Run, w: nat, k: nat) returns (r1: Run)
    requires IsRun(r) && !Last(r).q.isExit && w in Last(r).workers && !InStop(Last(r), w) && k < |Last(r).q.list|
    ensures Continues(r, r1) && OnlyWorker(r1, |r.events|, w)
    ensures Last(r).q.list[k] in Last(r1).q.popped
  {
    r1 := GoOn(r, |r.events|, w, k, Last(r).q.list[k]);
  }
}
