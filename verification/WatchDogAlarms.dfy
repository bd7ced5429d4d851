/** When a watchdog must raise an alarm, and when its thread is held: both read off the events of a run.
 */
module WatchDogAlarms {
  import opened Wrappers
  import opened WatchDogModel
  import opened WatchDogRuns

  /** The step raises an alarm. */
  predicate Raises(r: Run, i: nat)
    requires i < |r.events| < |r.states|
  {
    !r.states[i].d.alarmed && r.states[i + 1].d.alarmed
  }

  /** The latest step that decides whether the thread is held was a PauseWatchDog or an alarm, not a
      ResumeWatchDog, a recovery or a Disable. */
  predicate HeldBy(r: Run, n: nat)
    requires n <= |r.events| < |r.states|
  {
    n > 0 &&
    (PausedAt(r, n - 1) || Raises(r, n - 1) ||
     (HeldBy(r, n - 1) && !RecoveryAt(r, n - 1) && !r.events[n - 1].DisablePause?
      && !(r.events[n - 1].ResumeCall? && r.states[n - 1].d.enable)))
  }

  /** A PauseWatchDog took effect since a thread last left its first wait. */
  predicate PausedSinceOpen(r: Run, n: nat)
    requires n <= |r.events| < |r.states|
  {
    n > 0 && !r.events[n - 1].ThreadOpen? && (PausedAt(r, n - 1) || PausedSinceOpen(r, n - 1))
  }

  /** A timed wait ends in the enabled watchdog, not held and not paused on the way. */
  predicate WindowDone(r: Run, i: nat)
    requires i < |r.events| < |r.states|
  {
    r.events[i].ThreadClose? && r.states[i].d.enable && !HeldBy(r, i) && !PausedSinceOpen(r, i)
  }

  /** The Notify calls that took effect since a timed wait was last done, or since the start. */
  function FedSinceDone(r: Run, n: nat): nat
    requires n <= |r.events| < |r.states|
  {
    if n == 0 || WindowDone(r, n - 1) then 0
    else FedSinceDone(r, n - 1) + (if FedAt(r, n - 1) then 1 else 0)
  }

  /** The flags and the count are what the events say. */
  predicate Told(r: Run, n: nat)
    requires n <= |r.events| < |r.states|
  {
    && r.states[n].d.pause == HeldBy(r, n)
    && r.states[n].d.paused == PausedSinceOpen(r, n)
    && r.states[n].d.count == FedSinceDone(r, n) % UINT32_RANGE
  }

  lemma FlagsTold(r: Run, n: nat)
    requires IsRun(r) && n < |r.events| && Told(r, n)
    ensures r.states[n + 1].d.pause == HeldBy(r, n + 1)
    ensures r.states[n + 1].d.paused == PausedSinceOpen(r, n + 1)
  {
    assert StepAt(r, n);
  }

  lemma CountTold(r: Run, n: nat)
    requires IsRun(r) && n < |r.events| && Told(r, n)
    ensures r.states[n + 1].d.count == FedSinceDone(r, n + 1) % UINT32_RANGE
  {
    assert StepAt(r, n);
  }

  lemma {:induction false} AllTold(r: Run, n: nat)
    requires IsRun(r) && n < |r.states|
    ensures Told(r, n)
  {
    if n > 0 {
      AllTold(r, n - 1);
      FlagsTold(r, n - 1);
      CountTold(r, n - 1);
    }
  }

  /** The end of a timed wait raises an alarm if and only if the watchdog is enabled, no alarm is pending, the
      thread is not held and was not paused during the wait, and the Notify calls that took effect since a
      timed wait was last done add up to a multiple of 2^32. */
  lemma AlarmIff(r: Run, n: nat)
    requires IsRun(r) && n < |r.events| && r.events[n].ThreadClose?
    ensures Raises(r, n) <==>
              && r.states[n].d.enable && !r.states[n].d.alarmed
              && !HeldBy(r, n) && !PausedSinceOpen(r, n)
              && FedSinceDone(r, n) % 0x1_0000_0000 == 0
  {
    assert StepAt(r, n);
    AllTold(r, n);
  }

  /** The same for the window a thread opened at step `i`. */
  lemma SilentWindowAlarms(r: Run, i: nat, n: nat)
    requires IsRun(r) && i < n < |r.events|
    requires r.events[i].ThreadOpen? && r.events[n].ThreadClose? && r.events[i].w == r.events[n].w
    requires forall k :: i < k < n ==> !r.events[k].ThreadOpen? && !r.events[k].ThreadClose? && !PausedAt(r, k)
    requires r.states[n].d.enable && !r.states[n].d.pause && !r.states[n].d.alarmed
    ensures Raises(r, n) <==> FedSinceDone(r, n) % 0x1_0000_0000 == 0
  {
    AlarmIff(r, n);
    AllTold(r, n);
    NotPausedSince(r, i, n);
  }

  lemma {:induction false} NotPausedSince(r: Run, i: nat, n: nat)
    requires i < n <= |r.events| < |r.states| && r.events[i].ThreadOpen?
    requires forall k :: i < k < n ==> !PausedAt(r, k)
    ensures !PausedSinceOpen(r, n)
    decreases n
  {
    if n > i + 1 {
      NotPausedSince(r, i, n - 1);
    }
  }

  /** No other step raises an alarm. */
  lemma OnlyThreadRaises(r: Run, n: nat)
    requires IsRun(r) && n < |r.events| && Raises(r, n)
    ensures r.events[n].ThreadClose?
  {
    assert StepAt(r, n);
  }

  /** A thread can leave its first wait if and only if the watchdog is disabled or the thread is not held; so
      it can after a ResumeWatchDog and after a recovery. */
  lemma FirstWaitEnds(r: Run, n: nat, w: nat, now: nat)
    requires IsRun(r) && n < |r.states| && w in r.states[n].live && r.states[n].live[w].Top? && r.states[n].clock <= now
    ensures Enabled(r.timeout, r.states[n], ThreadOpen(w, now)) <==> !r.states[n].d.enable || !HeldBy(r, n)
    ensures n > 0 && (r.events[n - 1].ResumeCall? || RecoveryAt(r, n - 1)) ==>
              Enabled(r.timeout, r.states[n], ThreadOpen(w, now))
  {
    AllTold(r, n);
    if n > 0 {
      assert StepAt(r, n - 1);
    }
  }

  /** A timed wait can end if and only if its time is up, or the watchdog is disabled, the thread is held, or
      Notify calls that do not add up to a multiple of 2^32 took effect since a timed wait was last done. */
  lemma TimedWaitEnds(r: Run, n: nat, w: nat, now: nat)
    requires IsRun(r) && n < |r.states| && w in r.states[n].live && r.states[n].live[w].Window?
    requires r.states[n].clock <= now
    ensures Enabled(r.timeout, r.states[n], ThreadClose(w, now)) <==>
              || r.states[n].live[w].start + r.timeout <= now
              || !r.states[n].d.enable || HeldBy(r, n)
              || FedSinceDone(r, n) % 0x1_0000_0000 != 0
  {
    AllTold(r, n);
  }

  /** An EnableWatchDog came when no Disable was under way, and no DisableWatchDog since. */
  predicate EnabledBy(r: Run, n: nat)
    requires n <= |r.events| < |r.states|
  {
    n > 0 && !r.events[n - 1].DisableCall? &&
    (EnabledBy(r, n - 1) || (r.events[n - 1].EnableCall? && r.states[n - 1].disables == map[]))
  }

  /** The watchdog is enabled exactly then. */
  lemma {:induction false} EnabledIff(r: Run, n: nat)
    requires IsRun(r) && n < |r.states|
    ensures r.states[n].d.enable <==> EnabledBy(r, n)
  {
    if n > 0 {
      assert StepAt(r, n - 1);
      Reachable(r, n - 1);
      EnabledIff(r, n - 1);
    }
  }
}
