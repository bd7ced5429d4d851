/** The watchdog of services/utils/watchdog.cpp: its flags, the sections of its methods and of its
    thread as functions on a value, and the class whose methods implement them.

    `count_` is a 32-bit unsigned counter and wraps.
 */
module WatchDogModel {

  const UINT32_RANGE: nat := 0x1_0000_0000

  datatype Dog = Dog(disabling: bool, enable: bool, pause: bool, paused: bool, alarmed: bool, count: nat)

  function Initial(): Dog {
    Dog(false, false, false, false, false, 0)
  }

  predicate CanEnable(d: Dog) {
    !d.enable && !d.disabling
  }

  /** One pass of the loop in EnableWatchDog: it returns, spins (no change) or enables. */
  function Enable(d: Dog): Dog {
    if CanEnable(d) then d.(enable := true) else d
  }

  /** The locked section of DisableWatchDog. */
  function DisableBegin(d: Dog): Dog {
    if d.disabling then d else d.(disabling := true, enable := false)
  }

  function Pause(d: Dog): Dog {
    if d.enable then d.(pause := true, paused := true) else d
  }

  function Resume(d: Dog): Dog {
    if d.enable then d.(pause := false) else d
  }

  function Notify(d: Dog): Dog {
    if !d.enable then d
    else
      var d1 := if d.alarmed then d.(alarmed := false, pause := false) else d;
      d1.(count := (d1.count + 1) % UINT32_RANGE)
  }

  /** The condition of the thread's first wait. */
  predicate CanOpen(d: Dog) {
    !d.enable || !d.pause
  }

  function Open(d: Dog): Dog {
    d.(paused := false)
  }

  /** The condition that ends the thread's timed wait before its deadline. */
  predicate Stirred(d: Dog) {
    !d.enable || d.pause || d.count > 0
  }

  /** The thread raises an alarm when its timed wait has ended in this state. */
  predicate Alarms(d: Dog) {
    d.enable && !d.pause && !d.paused && d.count == 0 && !d.alarmed
  }

  /** What the thread does after its timed wait, unless it exits (`!d.enable`). */
  function Close(d: Dog): Dog {
    if !d.enable || d.pause || d.paused then d
    else if Alarms(d) then d.(alarmed := true, pause := true, count := 0)
    else d.(count := 0)
  }

  class WatchDog {
    var disabling: bool
    var enable: bool
    var pause: bool
    var paused: bool
    var alarmed: bool
    var count: nat
    var alarms: nat
    var recoveries: nat

    ghost function Model(): Dog
      reads this
    {
      Dog(disabling, enable, pause, paused, alarmed, count)
    }

    constructor ()
      ensures Model() == Initial() && alarms == recoveries == 0
    {
      disabling, enable, pause, paused, alarmed, count, alarms, recoveries :=
        false, false, false, false, false, 0, 0, 0;
    }

    /** One pass of EnableWatchDog. `done` is false when the caller has to try again. */
    method TryEnable() returns (done: bool, spawn: bool)
      modifies this`enable
      ensures Model() == Enable(old(Model()))
      ensures spawn == CanEnable(old(Model()))
      ensures done == (old(enable) || spawn)
    {
      if enable {
        return true, false;
      }
      if disabling {
        return false, false;
      }
      enable := true;
      return true, true;
    }

    /** The locked section of DisableWatchDog; `mine` tells the caller to go on with the join. */
    method BeginDisable() returns (mine: bool)
      modifies this`disabling, this`enable
      ensures Model() == DisableBegin(old(Model())) && mine == !old(disabling)
    {
      mine := !disabling;
      if mine {
        disabling := true;
        enable := false;
      }
    }

    /** The unlocked tail of DisableWatchDog. */
    method EndDisable()
      modifies this`pause, this`alarmed, this`disabling
      ensures Model() == old(Model()).(pause := false, alarmed := false, disabling := false)
    {
      pause := false;
      alarmed := false;
      disabling := false;
    }

    method PauseWatchDog()
      modifies this`pause, this`paused
      ensures Model() == Pause(old(Model()))
    {
      if enable {
        pause := true;
        paused := true;
      }
    }

    method ResumeWatchDog()
      modifies this`pause
      ensures Model() == Resume(old(Model()))
    {
      if enable {
        pause := false;
      }
    }

    method NotifyDog()
      modifies this`alarmed, this`pause, this`count, this`recoveries
      ensures Model() == Notify(old(Model()))
      ensures recoveries == old(recoveries) + (if old(enable && alarmed) then 1 else 0)
    {
      if enable {
        if alarmed {
          alarmed := false;
          recoveries := recoveries + 1;
          pause := false;
        }
        count := (count + 1) % UINT32_RANGE;
      }
    }

    /** The thread leaves its first wait. */
    method OpenWindow()
      requires CanOpen(Model())
      modifies this`paused
      ensures Model() == Open(old(Model()))
    {
      if paused {
        paused := false;
      }
    }

    /** The thread leaves its timed wait; `exit` ends the thread. */
    method CloseWindow() returns (exit: bool)
      modifies this`alarmed, this`pause, this`count, this`alarms
      ensures Model() == Close(old(Model())) && exit == !enable
      ensures alarms == old(alarms) + (if Alarms(old(Model())) then 1 else 0)
    {
      if !enable {
        return true;
      }
      exit := false;
      if pause || paused {
        return;
      }
      if count == 0 {
        if !alarmed {
          alarmed := true;
          alarms := alarms + 1;
          pause := true;
        }
      }
      count := 0;
    }
  }
}
