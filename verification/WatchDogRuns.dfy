/** Runs of a watchdog: any interleaving of its public methods, of the phases of DisableWatchDog and
    of its thread, over a clock that never goes back.

    `thread_` is a nullable pointer and any number of threads and of Disable calls may be under way:
    that there is at most one of each is proved, not assumed.
 */
module WatchDogRuns {
  import opened Wrappers
  import opened WatchDogModel

  /** The watchdog thread is before its first wait, or in its timed wait since `start`. */
  datatype Pc = Top | Window(start: nat)

  /** A Disable call after its locked section. */
  datatype DisablePc = AtThread | AtJoin(worker: nat) | AtPause | AtAlarmed | AtEnd

  datatype State = State(
    d: Dog,
    thread: Option<nat>,
    live: map<nat, Pc>,
    spawned: nat,
    disables: map<nat, DisablePc>,
    clock: nat)

  datatype Event =
    | EnableCall
    | DisableCall(id: nat)
    | DisableLook(id: nat)       // reads thread_
    | DisableJoined(id: nat)     // the join returns and thread_ is reset
    | DisablePause(id: nat)      // pause_ = false
    | DisableAlarmed(id: nat)    // alarmed_ = false
    | DisableEnd(id: nat)        // disabling = false
    | PauseCall
    | ResumeCall
    | NotifyCall
    | ThreadOpen(w: nat, now: nat)
    | ThreadClose(w: nat, now: nat)

  predicate AtPhase(s: State, id: nat, pc: DisablePc) {
    id in s.disables && s.disables[id] == pc
  }

  predicate Enabled(timeout: nat, s: State, e: Event) {
    match e
    case DisableCall(id) => id !in s.disables
    case DisableLook(id) => AtPhase(s, id, AtThread)
    case DisableJoined(id) => id in s.disables && s.disables[id].AtJoin? && s.disables[id].worker !in s.live
    case DisablePause(id) => AtPhase(s, id, AtPause)
    case DisableAlarmed(id) => AtPhase(s, id, AtAlarmed)
    case DisableEnd(id) => AtPhase(s, id, AtEnd)
    case ThreadOpen(w, now) => w in s.live && s.live[w].Top? && s.clock <= now && CanOpen(s.d)
    case ThreadClose(w, now) =>
      w in s.live && s.live[w].Window? && s.clock <= now && (Stirred(s.d) || s.live[w].start + timeout <= now)
    case _ => true
  }

  function Phase(s: State, id: nat, pc: DisablePc): State {
    s.(disables := s.disables[id := pc])
  }

  function Next(timeout: nat, s: State, e: Event): State
    requires Enabled(timeout, s, e)
  {
    match e
    case EnableCall =>
      if CanEnable(s.d) then
        s.(d := Enable(s.d), thread := Some(s.spawned), live := s.live[s.spawned := Top], spawned := s.spawned + 1)
      else s
    case DisableCall(id) =>
      if s.d.disabling then s else Phase(s.(d := DisableBegin(s.d)), id, AtThread)
    case DisableLook(id) => Phase(s, id, if s.thread.Some? then AtJoin(s.thread.value) else AtPause)
    case DisableJoined(id) => Phase(s.(thread := None), id, AtPause)
    case DisablePause(id) => Phase(s.(d := s.d.(pause := false)), id, AtAlarmed)
    case DisableAlarmed(id) => Phase(s.(d := s.d.(alarmed := false)), id, AtEnd)
    case DisableEnd(id) => s.(d := s.d.(disabling := false), disables := s.disables - {id})
    case PauseCall => s.(d := Pause(s.d))
    case ResumeCall => s.(d := Resume(s.d))
    case NotifyCall => s.(d := Notify(s.d))
    case ThreadOpen(w, now) => s.(d := Open(s.d), live := s.live[w := Window(now)], clock := now)
    case ThreadClose(w, now) =>
      if !s.d.enable then s.(live := s.live - {w}, clock := now)
      else s.(d := Close(s.d), live := s.live[w := Top], clock := now)
  }

  datatype Run = Run(timeout: nat, states: seq<State>, events: seq<Event>)

  predicate Init(s: State) {
    s.d == Initial() && s.thread.None? && s.live == map[] && s.disables == map[]
  }

  predicate StepAt(r: Run, i: nat)
    requires i < |r.events| < |r.states|
  {
    Enabled(r.timeout, r.states[i], r.events[i]) && r.states[i + 1] == Next(r.timeout, r.states[i], r.events[i])
  }

  ghost predicate IsRun(r: Run) {
    && |r.states| == |r.events| + 1
    && Init(r.states[0])
    && forall i :: 0 <= i < |r.events| ==> StepAt(r, i)
  }

  // ----- threads and Disable calls -----

  /** The phases of a Disable call against the thread it has to join. */
  predicate PhaseOk(s: State, pc: DisablePc) {
    match pc
    case AtThread => s.live.Keys <= (if s.thread.Some? then {s.thread.value} else {})
    case AtJoin(w) => s.thread == Some(w) && s.live.Keys <= {w}
    case AtPause => s.thread.None? && s.live == map[]
    case AtAlarmed => s.thread.None? && s.live == map[] && !s.d.pause
    case AtEnd => s.thread.None? && s.live == map[] && !s.d.pause && !s.d.alarmed
  }

  ghost predicate Inv(s: State) {
    && (s.d.enable ==> !s.d.disabling && s.thread.Some? && s.live.Keys == {s.thread.value})
    && (s.d.disabling <==> s.disables != map[])
    && (forall c, c1 :: c in s.disables && c1 in s.disables ==> c == c1)
    && (forall c :: c in s.disables ==> PhaseOk(s, s.disables[c]))
    && (!s.d.enable && !s.d.disabling ==> s.thread.None? && s.live == map[])
    && s.d.count < UINT32_RANGE
    && (s.d.alarmed && !s.d.enable ==> s.d.disabling)
  }

  lemma NextKeepsInv(timeout: nat, s: State, e: Event)
    requires Enabled(timeout, s, e) && Inv(s)
    ensures Inv(Next(timeout, s, e))
  {
    var s1 := Next(timeout, s, e);
    match e
    case DisableCall(id) =>
      assert !s.d.disabling ==> s.disables == map[] && id in s1.disables;
    case DisableLook(id) => assert id in s1.disables;
    case DisableJoined(id) => assert id in s1.disables;
    case DisablePause(id) => assert id in s1.disables;
    case DisableAlarmed(id) => assert id in s1.disables;
    case DisableEnd(id) => assert s1.disables == map[];
    case _ => assert s1.disables == s.disables;
  }

  lemma {:induction false} Reachable(r: Run, n: nat)
    requires IsRun(r) && n < |r.states|
    ensures Inv(r.states[n])
  {
    if n > 0 {
      assert StepAt(r, n - 1);
      Reachable(r, n - 1);
      NextKeepsInv(r.timeout, r.states[n - 1], r.events[n - 1]);
    }
  }

  /** At most one thread and one Disable call: enabled means exactly the thread `thread_` points to,
      disabling excludes enabled, and neither means no thread and a null `thread_`. */
  lemma OneThread(r: Run, n: nat)
    requires IsRun(r) && n < |r.states|
    ensures var s := r.states[n];
            && (s.d.enable ==> !s.d.disabling && s.thread.Some? && s.live.Keys == {s.thread.value})
            && (!s.d.enable && !s.d.disabling ==> s.thread.None? && s.live == map[])
            && |s.live| <= 1 && |s.disables| <= 1 && (s.d.disabling <==> |s.disables| == 1)
  {
    Reachable(r, n);
    var s := r.states[n];
    AtMostOne(s.disables);
    if s.d.disabling {
      var c :| c in s.disables;
      assert PhaseOk(s, s.disables[c]);
    }
    assert |s.live.Keys| <= 1 by {
      var cover := if s.thread.Some? then {s.thread.value} else {};
      assert s.live.Keys <= cover;
      CardinalityOfSubset(s.live.Keys, cover);
    }
  }

  lemma CardinalityOfSubset(a: set<nat>, b: set<nat>)
    requires a <= b
    ensures |a| <= |b|
  {
    assert b == a + (b - a);
  }

  lemma AtMostOne(m: map<nat, DisablePc>)
    requires forall c, c1 :: c in m && c1 in m ==> c == c1
    ensures |m| <= 1 && (m != map[] ==> |m| == 1)
  {
    if m != map[] {
      var c :| c in m;
      assert m.Keys == {c};
    }
  }

  /** `thread_` has one user at a time: a Disable that joins waits for the thread `thread_` points to,
      whose exit flag stays set, and an Enable that assigns `thread_` finds it null with no Disable
      under way. */
  lemma ThreadPointerSafe(r: Run, n: nat, id: nat)
    requires IsRun(r) && n < |r.states|
    ensures var s := r.states[n];
            && (id in s.disables && s.disables[id].AtJoin? ==>
                  !s.d.enable && s.thread == Some(s.disables[id].worker) && !CanEnable(s.d))
            && (CanEnable(s.d) ==> s.thread.None? && s.disables == map[] && s.live == map[])
  {
    Reachable(r, n);
  }

  /** An upper bound on the steps left to a Disable call. */
  function Togo(s: State, id: nat): nat {
    if id !in s.disables then 0
    else
      match s.disables[id]
      case AtThread => 7
      case AtJoin(w) => 4 + (if w !in s.live then 0 else if s.live[w].Top? then 2 else 1)
      case AtPause => 3
      case AtAlarmed => 2
      case AtEnd => 1
  }

  /** The step that brings a Disable call forward: its own, or that of the thread it waits for. */
  function Advance(s: State, id: nat): Event
    requires id in s.disables
  {
    match s.disables[id]
    case AtThread => DisableLook(id)
    case AtJoin(w) =>
      if w !in s.live then DisableJoined(id)
      else if s.live[w].Top? then ThreadOpen(w, s.clock)
      else ThreadClose(w, s.clock)
    case AtPause => DisablePause(id)
    case AtAlarmed => DisableAlarmed(id)
    case AtEnd => DisableEnd(id)
  }

  /** DisableWatchDog is never stuck: in every reachable state the step that advances it is possible
      and brings it closer to its end, and no step of anyone else takes it further away. */
  lemma DisableProgress(r: Run, n: nat, id: nat, e: Event)
    requires IsRun(r) && n < |r.states| && id in r.states[n].disables
    ensures var s := r.states[n];
            && Enabled(r.timeout, s, Advance(s, id))
            && Togo(Next(r.timeout, s, Advance(s, id)), id) < Togo(s, id)
            && (Enabled(r.timeout, s, e) ==> Togo(Next(r.timeout, s, e), id) <= Togo(s, id))
  {
    Reachable(r, n);
    var s := r.states[n];
    assert PhaseOk(s, s.disables[id]);
    assert !s.d.enable;
  }

  // ----- alarms -----

  predicate AlarmAt(r: Run, i: nat)
    requires i < |r.events| < |r.states|
  {
    r.events[i].ThreadClose? && Alarms(r.states[i].d)
  }

  predicate RecoveryAt(r: Run, i: nat)
    requires i < |r.events| < |r.states|
  {
    r.events[i].NotifyCall? && r.states[i].d.enable && r.states[i].d.alarmed
  }

  /** A Disable call clears a pending alarm. */
  predicate ClearAt(r: Run, i: nat)
    requires i < |r.events| < |r.states|
  {
    r.events[i].DisableAlarmed? && r.states[i].d.alarmed
  }

  /** A Notify that took effect. */
  predicate FedAt(r: Run, i: nat)
    requires i < |r.events| < |r.states|
  {
    r.events[i].NotifyCall? && r.states[i].d.enable
  }

  /** A PauseWatchDog that took effect. */
  predicate PausedAt(r: Run, i: nat)
    requires i < |r.events| < |r.states|
  {
    r.events[i].PauseCall? && r.states[i].d.enable
  }

  /** The number of effective Notify calls among the steps `i`, ..., `j - 1`. */
  function Fed(r: Run, i: nat, j: nat): nat
    requires i <= j <= |r.events| < |r.states|
    decreases j
  {
    if i == j then 0 else Fed(r, i, j - 1) + (if FedAt(r, j - 1) then 1 else 0)
  }

  /** A timed wait that is open at state `n` was opened at step `i`; nothing but the public calls
      happened since. */
  ghost predicate OpenSince(r: Run, i: nat, n: nat, w: nat)
    requires n <= |r.events| < |r.states|
  {
    && i < n
    && w in r.states[n].live && r.states[n].live[w].Window?
    && r.events[i] == ThreadOpen(w, r.states[n].live[w].start)
    && (forall k :: i < k < n ==> !r.events[k].ThreadOpen? && !r.events[k].ThreadClose?)
    && (r.states[n].d.enable ==> forall k :: i <= k <= n ==> r.states[k].d.enable)
    && (!r.states[n].d.paused ==> forall k :: i < k < n ==> !PausedAt(r, k))
    && r.states[n].d.count == (r.states[i].d.count + Fed(r, i, n)) % UINT32_RANGE
  }

  /** What one public call or Disable phase does to an open window. */
  lemma StepInWindow(timeout: nat, s: State, e: Event, w: nat)
    requires Enabled(timeout, s, e) && Inv(s) && !e.ThreadOpen? && !e.ThreadClose?
    requires var s1 := Next(timeout, s, e); w in s1.live && s1.live[w].Window?
    ensures var s1 := Next(timeout, s, e);
            && w in s.live && s.live[w] == s1.live[w]
            && (s1.d.enable ==> s.d.enable)
            && (!s1.d.paused ==> !s.d.paused && !(e.PauseCall? && s.d.enable))
            && s1.d.count == (s.d.count + (if e.NotifyCall? && s.d.enable then 1 else 0)) % UINT32_RANGE
  {
  }

  lemma StillOpen(r: Run, i: nat, n: nat, w: nat)
    requires IsRun(r) && n < |r.events| && OpenSince(r, i, n, w)
    requires !r.events[n].ThreadOpen? && !r.events[n].ThreadClose?
    requires w in r.states[n + 1].live && r.states[n + 1].live[w].Window?
    ensures OpenSince(r, i, n + 1, w)
  {
    assert StepAt(r, n);
    Reachable(r, n);
    StepInWindow(r.timeout, r.states[n], r.events[n], w);
    assert Fed(r, i, n + 1) == Fed(r, i, n) + (if FedAt(r, n) then 1 else 0);
    forall k | i < k < n + 1 && !r.states[n + 1].d.paused ensures !PausedAt(r, k) {
    }
  }

  lemma {:induction false} WindowOpened(r: Run, n: nat, w: nat) returns (i: nat)
    requires IsRun(r) && n < |r.states|
    requires w in r.states[n].live && r.states[n].live[w].Window?
    ensures OpenSince(r, i, n, w)
  {
    assert StepAt(r, n - 1);
    Reachable(r, n - 1);
    var s, e := r.states[n - 1], r.events[n - 1];
    if e.ThreadOpen? {
      i := n - 1;
      assert w == e.w;
      assert Fed(r, i, n) == Fed(r, i, n - 1) == 0;
    } else {
      assert !e.ThreadClose?;
      StepInWindow(r.timeout, s, e, w);
      i := WindowOpened(r, n - 1, w);
      StillOpen(r, i, n - 1, w);
    }
  }

  /** Every alarm ends one complete timeout window, opened by the same thread: since then the watchdog
      was enabled throughout, no PauseWatchDog took effect (resumed or not), and the Notify calls that
      took effect add up to a multiple of 2^32 with the count the window started from. So no Notify
      took effect exactly when those calls are fewer than it takes to wrap the counter. */
  lemma AlarmEndsFullWindow(r: Run, n: nat) returns (i: nat)
    requires IsRun(r) && n < |r.events| && AlarmAt(r, n)
    ensures i < n && r.events[i].ThreadOpen? && r.events[i].w == r.events[n].w
    ensures r.events[i].now + r.timeout <= r.events[n].now
    ensures forall k :: i <= k <= n ==> r.states[k].d.enable
    ensures !r.states[i].d.pause && forall k :: i < k < n ==> !PausedAt(r, k)
    ensures (r.states[i].d.count + Fed(r, i, n)) % UINT32_RANGE == 0
    ensures Fed(r, i, n) == 0 <==> r.states[i].d.count + Fed(r, i, n) < UINT32_RANGE
  {
    assert StepAt(r, n);
    i := WindowOpened(r, n, r.events[n].w);
    assert StepAt(r, i);
    Reachable(r, i);
  }

  /** The number of the first `n` steps that raised, recovered or cleared an alarm. */
  function Raised(r: Run, n: nat): nat
    requires n <= |r.events| < |r.states|
  {
    if n == 0 then 0 else Raised(r, n - 1) + (if AlarmAt(r, n - 1) then 1 else 0)
  }

  function Recovered(r: Run, n: nat): nat
    requires n <= |r.events| < |r.states|
  {
    if n == 0 then 0 else Recovered(r, n - 1) + (if RecoveryAt(r, n - 1) then 1 else 0)
  }

  function Cleared(r: Run, n: nat): nat
    requires n <= |r.events| < |r.states|
  {
    if n == 0 then 0 else Cleared(r, n - 1) + (if ClearAt(r, n - 1) then 1 else 0)
  }

  /** Alarm bookkeeping of a whole run. */
  lemma {:induction false} AlarmsBalance(r: Run, n: nat)
    requires IsRun(r) && n < |r.states|
    ensures Raised(r, n) == Recovered(r, n) + Cleared(r, n) + (if r.states[n].d.alarmed then 1 else 0)
  {
    if n > 0 {
      assert StepAt(r, n - 1);
      AlarmsBalance(r, n - 1);
    }
  }

  /** `alarmed_` changes only by an alarm, a recovery or a Disable. */
  lemma {:induction false} AlarmedChanges(r: Run, i: nat, j: nat) returns (k: nat)
    requires IsRun(r) && i < j < |r.states| && r.states[i].d.alarmed != r.states[j].d.alarmed
    ensures i <= k < j
    ensures if r.states[i].d.alarmed then RecoveryAt(r, k) || ClearAt(r, k) else AlarmAt(r, k)
    decreases j
  {
    assert StepAt(r, j - 1);
    if r.states[j - 1].d.alarmed != r.states[j].d.alarmed {
      k := j - 1;
    } else {
      k := AlarmedChanges(r, i, j - 1);
    }
  }

  /** Alarms and their ends alternate: between two alarms there is a recovery or a clearing Disable,
      between two recoveries there is an alarm. */
  lemma AlarmsAlternate(r: Run, i: nat, j: nat) returns (k: nat)
    requires IsRun(r) && i < j < |r.events|
    requires (AlarmAt(r, i) && AlarmAt(r, j)) || (RecoveryAt(r, i) && RecoveryAt(r, j))
    ensures i < k < j
    ensures if AlarmAt(r, i) then RecoveryAt(r, k) || ClearAt(r, k) else AlarmAt(r, k)
  {
    assert StepAt(r, i);
    k := AlarmedChanges(r, i + 1, j);
  }

  // ----- the counter wraps -----

  /** The state after `k` Notify calls inside the first window. */
  function FedDog(k: nat): State {
    State(Dog(false, true, false, false, false, k % UINT32_RANGE), Some(0), map[0 := Window(0)], 1, map[], 0)
  }

  function WrapState(i: nat): State {
    if i == 0 then State(Initial(), None, map[], 0, map[], 0)
    else if i == 1 then State(Initial().(enable := true), Some(0), map[0 := Top], 1, map[], 0)
    else FedDog(i - 2)
  }

  function WrapEvent(i: nat): Event {
    if i == 0 then EnableCall else if i == 1 then ThreadOpen(0, 0)
    else if i < 2 + UINT32_RANGE then NotifyCall
    else ThreadClose(0, 1000)
  }

  /** A watchdog fed 2^32 times in a window raises an alarm at its end all the same. */
  lemma AlarmAfterWrap() returns (r: Run, n: nat, i: nat)
    ensures IsRun(r) && n < |r.events| && AlarmAt(r, n)
    ensures i < n && r.events[i].ThreadOpen? && Fed(r, i, n) == UINT32_RANGE
  {
    n, i := 2 + UINT32_RANGE, 1;
    var last := Next(1000, WrapState(n), WrapEvent(n));
    r := Run(1000, seq(n + 1, k requires 0 <= k => WrapState(k)) + [last], seq(n + 1, k requires 0 <= k => WrapEvent(k)));
    forall k | 0 <= k < |r.events| ensures StepAt(r, k) {
      WrapStep(k);
    }
    FedWhileWrapping(r, n);
  }

  lemma WrapStep(k: nat)
    requires k <= 2 + UINT32_RANGE
    ensures Enabled(1000, WrapState(k), WrapEvent(k))
    ensures k < 2 + UINT32_RANGE ==> WrapState(k + 1) == Next(1000, WrapState(k), WrapEvent(k))
  {
  }

  lemma {:induction false} FedWhileWrapping(r: Run, j: nat)
    requires 2 <= j <= 2 + UINT32_RANGE == |r.events| - 1 && |r.states| > |r.events|
    requires forall k :: 0 <= k < |r.events| ==> r.states[k] == WrapState(k) && r.events[k] == WrapEvent(k)
    ensures Fed(r, 1, j) == j - 2
  {
    if j > 2 {
      FedWhileWrapping(r, j - 1);
    } else {
      assert Fed(r, 1, 2) == Fed(r, 1, 1);
    }
  }
}
