/** The due-time scheduler of services/utils/task_queue.cpp: the list of pending tasks, its
    locked sections as functions on a value, and the class whose methods implement them.

    A queue value also carries the history of the object: what was accepted, popped by a worker
    and cancelled. The history is never read by the scheduler.
 */
module TaskQueueModel {
  import opened Wrappers

  const MAX_DELAY_US: nat := 10_000_000
  const UINT64_MAX: nat := 0xFFFF_FFFF_FFFF_FFFF
  const US_TO_NS: nat := 1000

  /** A task handler. `periodUs == UINT64_MAX` marks a task that is not periodic. */
  datatype Task = Task(id: nat, periodUs: nat)

  /** The state of a handler; an unknown handler is `Idle`. */
  datatype Phase = Idle | Running | Canceled | Finished

  /** A pending entry: the handler, its due time and the number of its enqueue event. */
  datatype Item = Item(task: Task, due: nat, serial: nat)

  /** How an entry was accepted: when, with which delay, and, for a periodic re-enqueue,
      which pop (an index into `popped`) it follows. */
  datatype Stamp = Stamp(instant: nat, delayUs: nat, origin: Option<nat>)

  datatype Code = Ok | InvalidVal | InvalidOperation

  datatype Queue = Queue(
    isExit: bool,
    thread: Option<nat>,
    list: seq<Item>,
    executing: bool,
    handlers: map<Task, Phase>,
    accepted: seq<Item>,
    stamps: seq<Stamp>,
    popped: seq<Item>,
    popTimes: seq<nat>,
    cancelled: seq<Item>)

  function Initial(): Queue {
    Queue(true, None, [], false, map[], [], [], [], [], [])
  }

  // ----- handlers -----

  function PhaseOf(h: map<Task, Phase>, t: Task): Phase {
    if t in h then h[t] else Idle
  }

  /** Cancel: a running handler is left alone. */
  function CancelHandler(h: map<Task, Phase>, t: Task): map<Task, Phase> {
    if PhaseOf(h, t) == Running then h else h[t := Canceled]
  }

  /** Clear, also the effect of reading a result: only a finished handler becomes idle again. */
  function ClearHandler(h: map<Task, Phase>, t: Task): map<Task, Phase> {
    if PhaseOf(h, t) == Finished then h[t := Idle] else h
  }

  function CancelHandlers(h: map<Task, Phase>, items: seq<Item>): map<Task, Phase>
    decreases |items|
  {
    if items == [] then h else CancelHandlers(CancelHandler(h, items[0].task), items[1..])
  }

  // ----- locked sections -----

  /** The order in which entries must be popped: by due time, ties by enqueue order. */
  predicate Less(a: Item, b: Item) {
    a.due < b.due || (a.due == b.due && a.serial < b.serial)
  }

  function CancelAll(q: Queue): Queue {
    q.(list := [], handlers := CancelHandlers(q.handlers, q.list), cancelled := q.cancelled + q.list)
  }

  /** The position before the first entry that is due later than `due`. */
  function InsertionPoint(list: seq<Item>, due: nat): (k: nat)
    ensures k <= |list|
    ensures forall j :: 0 <= j < k ==> list[j].due <= due
    ensures k < |list| ==> list[k].due > due
    decreases |list|
  {
    if list == [] || list[0].due > due then 0 else 1 + InsertionPoint(list[1..], due)
  }

  function InsertItem(q: Queue, task: Task, delayUs: nat, now: nat, origin: Option<nat>): Queue {
    var item := Item(task, delayUs * US_TO_NS + now, |q.accepted|);
    var k := InsertionPoint(q.list, item.due);
    q.(list := q.list[..k] + [item] + q.list[k..],
       accepted := q.accepted + [item],
       stamps := q.stamps + [Stamp(now, delayUs, origin)])
  }

  /** EnqueueTask after the handler has been cleared; `now` is the clock read under the lock. */
  function Enqueue(q: Queue, task: Task, cancelNotExecuted: bool, delayUs: nat, now: nat, origin: Option<nat>)
    : (Queue, Code)
  {
    if delayUs >= MAX_DELAY_US then (q, InvalidVal)
    else if q.isExit then (q, InvalidOperation)
    else
      var q1 := if cancelNotExecuted then CancelAll(q) else q;
      if now >= UINT64_MAX - delayUs * US_TO_NS then (q1, InvalidOperation)
      else (InsertItem(q1, task, delayUs, now, origin), Ok)
  }

  predicate CanPop(q: Queue, now: nat) {
    !q.isExit && q.list != [] && now >= q.list[0].due
  }

  function Pop(q: Queue, now: nat): Queue
    requires q.list != []
  {
    q.(list := q.list[1..], executing := true, popped := q.popped + [q.list[0]], popTimes := q.popTimes + [now])
  }

  function StartQueue(q: Queue, worker: nat): Queue {
    if q.thread.Some? then q else q.(isExit := false, thread := Some(worker))
  }

  /** The first locked section of Stop. */
  function StopQueue(q: Queue): Queue {
    if q.isExit then q else q.(isExit := true, thread := None)
  }

  // ----- the class -----

  class TaskQueue {
    var isExit: bool
    var thread: Option<nat>
    var taskList: seq<Item>
    var isTaskExecuting: bool
    var handlers: map<Task, Phase>
    ghost var accepted: seq<Item>
    ghost var stamps: seq<Stamp>
    ghost var popped: seq<Item>
    ghost var popTimes: seq<nat>
    ghost var cancelled: seq<Item>
    var enqueued: nat

    ghost predicate Valid()
      reads this
    {
      enqueued == |accepted|
    }

    ghost function Model(): Queue
      reads this
    {
      Queue(isExit, thread, taskList, isTaskExecuting, handlers, accepted, stamps, popped, popTimes, cancelled)
    }

    constructor ()
      ensures Valid() && Model() == Initial()
    {
      isExit, thread, taskList, isTaskExecuting, handlers, enqueued := true, None, [], false, map[], 0;
      accepted, stamps, popped, popTimes, cancelled := [], [], [], [], [];
    }

    method Start(worker: nat) returns (created: bool)
      requires Valid()
      modifies this
      ensures Valid() && Model() == StartQueue(old(Model()), worker)
      ensures created == old(thread).None?
    {
      created := thread.None?;
      if created {
        isExit := false;
        thread := Some(worker);
      }
    }

    /** The first section of Stop: `join` is the worker the caller has to wait for. */
    method StopBegin(caller: Option<nat>) returns (join: Option<nat>)
      requires Valid()
      requires !isExit ==> thread.Some?
      modifies this
      ensures Valid() && Model() == StopQueue(old(Model()))
      ensures join == if old(isExit) || caller == old(thread) then None else old(thread)
    {
      if isExit {
        return None;
      }
      isExit := true;
      join := if caller == thread then None else thread;
      thread := None;
    }

    method CancelNotExecutedTaskLocked()
      requires Valid()
      modifies this
      ensures Valid() && Model() == CancelAll(old(Model())) && enqueued == old(enqueued)
    {
      while taskList != []
        invariant Valid() && enqueued == old(enqueued)
        invariant CancelAll(Model()) == CancelAll(old(Model()))
        decreases |taskList|
      {
        var item := taskList[0];
        taskList := taskList[1..];
        handlers := CancelHandler(handlers, item.task);
        cancelled := cancelled + [item];
        assert old(cancelled) + old(taskList) == cancelled + taskList;
      }
      assert cancelled + taskList == cancelled;
    }

    /** The search for the first later entry. */
    static method FindLater(list: seq<Item>, executeTimeNs: nat) returns (i: nat)
      ensures i == InsertionPoint(list, executeTimeNs)
    {
      i := 0;
      while i < |list| && list[i].due <= executeTimeNs
        invariant i <= |list|
        invariant InsertionPoint(list, executeTimeNs) == i + InsertionPoint(list[i..], executeTimeNs)
      {
        assert list[i..][1..] == list[i + 1..];
        i := i + 1;
      }
    }

    method InsertLocked(task: Task, delayUs: nat, now: nat, ghost origin: Option<nat>)
      requires Valid()
      modifies this
      ensures Valid() && Model() == InsertItem(old(Model()), task, delayUs, now, origin)
    {
      var item := Item(task, delayUs * US_TO_NS + now, enqueued);
      var i := FindLater(taskList, item.due);
      taskList := taskList[..i] + [item] + taskList[i..];
      enqueued := enqueued + 1;
      accepted := accepted + [item];
      stamps := stamps + [Stamp(now, delayUs, origin)];
    }

    /** EnqueueTask; a null handler is `None`. The handler is cleared even when the call is rejected. */
    method EnqueueTask(task: Option<Task>, cancelNotExecuted: bool, delayUs: nat, now: nat, ghost origin: Option<nat>)
      returns (code: Code)
      requires Valid()
      modifies this
      ensures Valid()
      ensures task.None? ==> code == InvalidVal && Model() == old(Model())
      ensures task.Some? ==>
        var q := old(Model()).(handlers := ClearHandler(old(handlers), task.value));
        (Model(), code) == Enqueue(q, task.value, cancelNotExecuted, delayUs, now, origin)
    {
      if task.None? {
        return InvalidVal;
      }
      handlers := ClearHandler(handlers, task.value);
      if delayUs >= MAX_DELAY_US {
        return InvalidVal;
      }
      if isExit {
        return InvalidOperation;
      }
      if cancelNotExecuted {
        CancelNotExecutedTaskLocked();
      }
      if now >= UINT64_MAX - delayUs * US_TO_NS {
        return InvalidOperation;
      }
      InsertLocked(task.value, delayUs, now, origin);
      return Ok;
    }

    /** The worker's section up to the release of the lock: the due head of the list, if any. */
    method TakeDue(now: nat) returns (item: Option<Item>)
      requires Valid()
      modifies this
      ensures Valid()
      ensures item.Some? <==> CanPop(old(Model()), now)
      ensures item.Some? ==> Model() == Pop(old(Model()), now) && popped == old(popped) + [item.value]
      ensures item.None? ==> Model() == old(Model())
    {
      if isExit || taskList == [] || now < taskList[0].due {
        return None;
      }
      item := Some(taskList[0]);
      taskList := taskList[1..];
      isTaskExecuting := true;
      popped := popped + [item.value];
      popTimes := popTimes + [now];
    }

    method FinishTask()
      requires Valid()
      modifies this`isTaskExecuting
      ensures Valid() && Model() == old(Model()).(executing := false)
    {
      isTaskExecuting := false;
    }

    /** IsTaskExecuting. */
    method IsTaskExecuting() returns (b: bool)
      ensures b == Model().executing
    {
      b := isTaskExecuting;
    }
  }
}
