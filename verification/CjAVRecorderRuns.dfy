/** Runs of the recorder wrapper: operations in any order with any outcome, and background callbacks
    between them. The log of every run is legal for a monitor that knows nothing of the wrapper's
    tables and flags: it sees only the calls made and the milestones.
 */
module CjAVRecorderRuns {
  import opened Wrappers
  import opened CjAVRecorderModel

  datatype Event =
    | PrepareCall(i: PrepareInput)
    | ExecuteCall(opt: Opt, ok: bool, added: bool)
    | QueryCall(opt: Opt, ok: bool)
    | Callback(state: RecState)

  predicate Enabled(e: Event) {
    match e
    case QueryCall(opt, _) => IsQuery(opt)
    case Callback(state) => state == StError || state == StStopped
    case _ => true
  }

  function Next(r: Rec, e: Event): Rec
    requires Enabled(e)
  {
    match e
    case PrepareCall(i) => PrepareOpt(r, i).0
    case ExecuteCall(opt, ok, added) => Execute(r, opt, ok, added).0
    case QueryCall(opt, ok) => Query(r, opt, ok).0
    case Callback(state) => BackgroundChange(r, state)
  }

  datatype Run = Run(states: seq<Rec>, events: seq<Event>)

  predicate StepAt(r: Run, i: nat)
    requires i < |r.events| < |r.states|
  {
    Enabled(r.events[i]) && r.states[i + 1] == Next(r.states[i], r.events[i])
  }

  ghost predicate IsRun(r: Run) {
    && |r.states| == |r.events| + 1 && r.states[0] == Initial()
    && forall i :: 0 <= i < |r.events| ==> StepAt(r, i)
  }

  // ----- the monitor -----

  /** What the log says so far: a successful Prepare is in force; it had video; since it, GetSurface
      returned a surface and GetInputSurface succeeded; the latest successful Pause has not been
      followed by a successful Resume or Start; a successful Release has not been followed by a
      background change. */
  datatype Monitor = Monitor(
    prepared: bool,
    video: bool,
    surfaceGot: bool,
    surfaceDone: bool,
    paused: bool,
    released: bool)

  function Observe(m: Monitor, mark: Mark): Monitor {
    match mark
    case PrepareDone(video) => m.(prepared := true, video := video, surfaceGot := false, surfaceDone := false)
    case SurfaceDone => m.(surfaceDone := true)
    case SurfaceAdded(_) => m
    case Background(_) => m.(prepared := false, released := false)
    case Called(call, ok) =>
      match call {
        case DoGetSurface => m.(surfaceGot := m.surfaceGot || ok)
        case DoStart => m.(prepared := false, paused := m.paused && !ok)
        case DoResume => m.(paused := m.paused && !ok)
        case DoPause => m.(paused := m.paused || ok)
        case DoStop => m.(prepared := m.prepared && !ok)
        case DoReset => m.(prepared := m.prepared && !ok)
        case DoCleanup => m.(prepared := m.prepared && !ok)
        case DoRelease => m.(prepared := m.prepared && !ok, released := m.released || ok)
        case _ => m
      }
  }

  function Watch(log: seq<Mark>): Monitor {
    if log == [] then Monitor(false, false, false, false, false, false)
    else Observe(Watch(log[..|log| - 1]), log[|log| - 1])
  }

  /** The protocol: Start only with a Prepare in force and, with video, an input surface fetched since;
      no second Pause; nothing at all after Release. */
  predicate Legal(m: Monitor, mark: Mark) {
    mark.Called? ==>
      && !m.released
      && (mark.call == DoStart ==> m.prepared && (m.video ==> m.surfaceGot && m.surfaceDone))
      && (mark.call == DoPause ==> !m.paused)
  }

  predicate LegalLog(log: seq<Mark>) {
    log == [] || (LegalLog(log[..|log| - 1]) && Legal(Watch(log[..|log| - 1]), log[|log| - 1]))
  }

  lemma {:induction false} LegalAt(log: seq<Mark>, i: nat)
    requires LegalLog(log) && i < |log|
    ensures Legal(Watch(log[..i]), log[i])
  {
    var n := |log| - 1;
    if i < n {
      LegalAt(log[..n], i);
      assert log[..n][..i] == log[..i];
    }
  }

  /** How the wrapper's state and flags answer for the monitor. */
  predicate Link(m: Monitor, r: Rec) {
    && m.video == r.withVideo
    && (r.hasSurface ==> m.surfaceGot)
    && (r.getVideoInputSurface ==> m.surfaceGot && m.surfaceDone)
    && (r.state == StPrepared ==> m.prepared)
    && (r.state == StStarted ==> !m.paused)
    && (m.released ==> r.state == StReleased)
  }

  predicate Agrees(r: Rec) {
    LegalLog(r.log) && Link(Watch(r.log), r)
  }

  lemma MarkAgrees(r: Rec, mark: Mark, r1: Rec)
    requires Agrees(r) && r1.log == r.log + [mark]
    requires Legal(Watch(r.log), mark) && Link(Observe(Watch(r.log), mark), r1)
    ensures Agrees(r1)
  {
    assert r1.log[..|r.log|] == r.log;
  }

  /** What the two tables say about the operations that matter to the monitor. */
  lemma TableFacts(s: RecState, opt: Opt)
    requires opt in Allowed(s) && (opt !in Repeated(s) || IsQuery(opt))
    ensures s != StReleased
    ensures opt == Prepare ==> s == StIdle || s == StStopped
    ensures opt == Start || opt == GetInputSurface ==> s == StPrepared
    ensures opt == Pause ==> s == StStarted
  {
  }

  lemma ConfigureAgrees(r: Rec, ok: bool)
    requires Agrees(r) && r.state != StReleased
    ensures Agrees(Configure(r, ok))
  {
    if !r.hasConfiged {
      MarkAgrees(r, Called(DoConfigure, ok), Configure(r, ok));
    }
  }

  lemma FailedPrepareAgrees(r: Rec, ok: bool)
    requires Agrees(r) && (r.state == StIdle || r.state == StStopped)
    ensures Agrees(NoteCall(r, DoCleanup, ok))
  {
    MarkAgrees(r, Called(DoCleanup, ok), NoteCall(r, DoCleanup, ok));
  }

  lemma PrepareAgrees(r: Rec, i: PrepareInput)
    requires Agrees(r)
    ensures Agrees(PrepareOpt(r, i).0)
  {
    if Prepare in Allowed(r.state) && i.source && i.valid {
      TableFacts(r.state, Prepare);
      var r1 := r.(hasConfig := true);
      var r2 := Configure(r1, i.paramsOk);
      ConfigureAgrees(r1, i.paramsOk);
      if !r2.hasConfiged {
        FailedPrepareAgrees(r2, i.resetOk);
      } else {
        ConfiguredPrepareAgrees(r2, i);
        assert PrepareOpt(r, i).0 == ConfiguredPrepare(r2, i);
      }
    }
  }

  /** The end of Prepare, once the recorder is configured. */
  function ConfiguredPrepare(r: Rec, i: PrepareInput): Rec {
    var r3 := NoteCall(r, DoPrepare, i.prepareOk);
    if !i.prepareOk then NoteCall(r3, DoCleanup, i.resetOk)
    else
      Note(RemoveSurface(r3), PrepareDone(i.video)).(
        state := StPrepared, getVideoInputSurface := false, withVideo := i.video)
  }

  lemma ConfiguredPrepareAgrees(r: Rec, i: PrepareInput)
    requires Agrees(r) && (r.state == StIdle || r.state == StStopped)
    ensures Agrees(ConfiguredPrepare(r, i))
  {
    var r3 := NoteCall(r, DoPrepare, i.prepareOk);
    MarkAgrees(r, Called(DoPrepare, i.prepareOk), r3);
    if i.prepareOk {
      MarkAgrees(r3, PrepareDone(i.video), ConfiguredPrepare(r, i));
    } else {
      FailedPrepareAgrees(r3, i.resetOk);
    }
  }

  lemma SurfaceAgrees(r: Rec, ok: bool, added: bool)
    requires Agrees(r) && r.state == StPrepared
    ensures Agrees(InputSurface(r, ok, added).0)
  {
    var result := InputSurface(r, ok, added).0;
    if r.withVideo {
      if r.hasSurface {
        MarkAgrees(r, SurfaceDone, result);
      } else {
        var r1 := NoteCall(r, DoGetSurface, ok);
        MarkAgrees(r, Called(DoGetSurface, ok), r1);
        if ok {
          var r2 := Note(r1, SurfaceAdded(added)).(hasSurface := true, registered := added);
          MarkAgrees(r1, SurfaceAdded(added), r2);
          if added {
            MarkAgrees(r2, SurfaceDone, result);
          }
        }
      }
    }
  }

  lemma StartAgrees(r: Rec, ok: bool)
    requires Agrees(r) && r.state == StPrepared
    ensures Agrees(StartOpt(r, ok).0)
  {
    if !r.withVideo || r.getVideoInputSurface {
      MarkAgrees(r, Called(DoStart, ok), StartOpt(r, ok).0);
    }
  }

  lemma PlainAgrees(r: Rec, call: Call, ok: bool, target: RecState)
    requires Agrees(r) && r.state != StReleased
    requires (call == DoPause && target == StPaused && r.state == StStarted) || (call == DoResume && target == StStarted)
    ensures Agrees(Plain(r, call, ok, target).0)
  {
    MarkAgrees(r, Called(call, ok), Plain(r, call, ok, target).0);
  }

  lemma DropSurfaceAgrees(r: Rec)
    requires Agrees(r)
    ensures Agrees(RemoveSurface(r))
  {
  }

  lemma EndedLink(m: Monitor, r: Rec, call: Call, ok: bool, target: RecState)
    requires Link(m, r) && r.state != StReleased
    requires (call == DoStop && target == StStopped) || (call == DoReset && target == StIdle) ||
             (call == DoRelease && target == StReleased)
    ensures Legal(m, Called(call, ok)) && Link(Observe(m, Called(call, ok)), Ending(r, call, ok, target).0)
  {
    var m1 := Observe(m, Called(call, ok));
    if ok {
      assert m1 == m.(prepared := false, released := m.released || call == DoRelease);
    } else {
      assert m1 == m;
    }
  }

  lemma EndingAgrees(r: Rec, call: Call, ok: bool, target: RecState)
    requires Agrees(r) && r.state != StReleased
    requires (call == DoStop && target == StStopped) || (call == DoReset && target == StIdle) ||
             (call == DoRelease && target == StReleased)
    ensures Agrees(Ending(r, call, ok, target).0)
  {
    EndedLink(Watch(r.log), r, call, ok, target);
    MarkAgrees(r, Called(call, ok), Ending(r, call, ok, target).0);
  }

  lemma DealAgrees(r: Rec, opt: Opt, ok: bool, added: bool)
    requires Agrees(r) && r.state != StReleased
    requires opt == Start || opt == GetInputSurface ==> r.state == StPrepared
    requires opt == Pause ==> r.state == StStarted
    ensures Agrees(Deal(r, opt, ok, added).0)
  {
    match opt
    case GetInputSurface => SurfaceAgrees(r, ok, added);
    case Start => StartAgrees(r, ok);
    case Pause => PlainAgrees(r, DoPause, ok, StPaused);
    case Resume => PlainAgrees(r, DoResume, ok, StStarted);
    case Stop => EndingAgrees(r, DoStop, ok, StStopped);
    case Reset =>
      DropSurfaceAgrees(r);
      EndingAgrees(RemoveSurface(r), DoReset, ok, StIdle);
    case Release =>
      DropSurfaceAgrees(r);
      EndingAgrees(RemoveSurface(r), DoRelease, ok, StReleased);
    case _ =>
  }

  lemma QueriedAgrees(r: Rec, opt: Opt, ok: bool)
    requires Agrees(r) && r.state != StReleased
    ensures Agrees(NoteCall(r, DoQuery(opt), ok))
  {
    QueriedLink(Watch(r.log), r, opt, ok);
    MarkAgrees(r, Called(DoQuery(opt), ok), NoteCall(r, DoQuery(opt), ok));
  }

  lemma QueriedLink(m: Monitor, r: Rec, opt: Opt, ok: bool)
    requires Link(m, r) && r.state != StReleased
    ensures Legal(m, Called(DoQuery(opt), ok))
    ensures Link(Observe(m, Called(DoQuery(opt), ok)), NoteCall(r, DoQuery(opt), ok))
  {
  }

  lemma NextAgrees(r: Rec, e: Event)
    requires Enabled(e) && Agrees(r)
    ensures Agrees(Next(r, e))
  {
    match e
    case PrepareCall(i) => PrepareAgrees(r, i);
    case ExecuteCall(opt, ok, added) =>
      if opt in Allowed(r.state) && opt !in Repeated(r.state) {
        TableFacts(r.state, opt);
        DealAgrees(r, opt, ok, added);
      }
    case QueryCall(opt, ok) =>
      if opt in Allowed(r.state) {
        TableFacts(r.state, opt);
        QueriedAgrees(r, opt, ok);
      }
      assert Next(r, e) == r || Next(r, e) == NoteCall(r, DoQuery(opt), ok);
    case Callback(state) => MarkAgrees(r, Background(state), Next(r, e));
  }

  lemma {:induction false} RunAgrees(r: Run, n: nat)
    requires IsRun(r) && n < |r.states|
    ensures Agrees(r.states[n])
  {
    if n > 0 {
      RunAgrees(r, n - 1);
      NextAgrees(r.states[n - 1], r.events[n - 1]) by { assert StepAt(r, n - 1); }
      assert StepAt(r, n - 1);
    }
  }

  /** The log of every run is legal: at each point the monitor accepts the next mark. */
  lemma CallsAreLegal(r: Run, n: nat, i: nat)
    requires IsRun(r) && n < |r.states| && i < |r.states[n].log|
    ensures Legal(Watch(r.states[n].log[..i]), r.states[n].log[i])
  {
    RunAgrees(r, n);
    LegalAt(r.states[n].log, i);
  }

  // ----- the protocol, read off the log -----

  /** If the monitor no longer sees a Pause, something ended it. */
  lemma {:induction false} PauseEnded(log: seq<Mark>, i: nat, n: nat) returns (k: nat)
    requires i < n <= |log| && log[i] == Called(DoPause, true) && !Watch(log[..n]).paused
    ensures i < k < n && (log[k] == Called(DoResume, true) || log[k] == Called(DoStart, true))
    decreases n
  {
    assert log[..n][..n - 1] == log[..n - 1];
    if n - 1 > i && !Watch(log[..n - 1]).paused {
      k := PauseEnded(log, i, n - 1);
    } else {
      k := n - 1;
    }
  }

  /** Between two successful calls of Pause there is a successful Resume or Start. */
  lemma PausesSeparated(r: Run, n: nat, i: nat, j: nat) returns (k: nat)
    requires IsRun(r) && n < |r.states| && i < j < |r.states[n].log|
    requires r.states[n].log[i] == Called(DoPause, true) && r.states[n].log[j] == Called(DoPause, true)
    ensures i < k < j && (r.states[n].log[k] == Called(DoResume, true) || r.states[n].log[k] == Called(DoStart, true))
  {
    CallsAreLegal(r, n, j);
    k := PauseEnded(r.states[n].log, i, j);
  }

  lemma {:induction false} ReleaseEnded(log: seq<Mark>, i: nat, n: nat) returns (k: nat)
    requires i < n <= |log| && log[i] == Called(DoRelease, true) && !Watch(log[..n]).released
    ensures i < k < n && log[k].Background?
    decreases n
  {
    assert log[..n][..n - 1] == log[..n - 1];
    if n - 1 > i && !Watch(log[..n - 1]).released {
      k := ReleaseEnded(log, i, n - 1);
    } else {
      k := n - 1;
    }
  }

  /** After a successful Release the underlying recorder is not called again unless a background
      callback comes in between. */
  lemma NothingAfterRelease(r: Run, n: nat, i: nat, j: nat) returns (k: nat)
    requires IsRun(r) && n < |r.states| && i < j < |r.states[n].log|
    requires r.states[n].log[i] == Called(DoRelease, true) && r.states[n].log[j].Called?
    ensures i < k < j && r.states[n].log[k].Background?
  {
    CallsAreLegal(r, n, j);
    k := ReleaseEnded(r.states[n].log, i, j);
  }

  /** A call of Start, or a successful Stop, Reset or Release. */
  predicate Ends(mark: Mark) {
    mark.Called? &&
    (mark.call.DoStart? || (mark.ok && (mark.call.DoStop? || mark.call.DoReset? || mark.call.DoRelease?)))
  }

  /** The latest successful Prepare in a log whose monitor has one in force, and what the monitor saw
      since. */
  lemma {:induction false} PreparedSince(log: seq<Mark>, n: nat) returns (p: nat, g: nat, d: nat)
    requires n <= |log| && Watch(log[..n]).prepared
    ensures p < n && log[p] == PrepareDone(Watch(log[..n]).video)
    ensures forall k :: p < k < n ==> !log[k].PrepareDone? && !log[k].Background? && !Ends(log[k])
    ensures Watch(log[..n]).surfaceGot ==> p < g < n && log[g] == Called(DoGetSurface, true)
    ensures Watch(log[..n]).surfaceDone ==> p < d < n && log[d] == SurfaceDone
    decreases n
  {
    assert log[..n][..n - 1] == log[..n - 1];
    if log[n - 1].PrepareDone? {
      p, g, d := n - 1, 0, 0;
    } else {
      p, g, d := PreparedSince(log, n - 1);
      if log[n - 1] == Called(DoGetSurface, true) { g := n - 1; }
      if log[n - 1] == SurfaceDone { d := n - 1; }
    }
  }

  /** Start is called on the underlying recorder only after a successful Prepare with no Start, no
      successful Stop, Reset or Release and no background change since; and when that Prepare had
      video, GetSurface returned a surface and GetInputSurface succeeded since it. */
  lemma StartNeedsSurface(r: Run, n: nat, j: nat) returns (p: nat, g: nat, d: nat)
    requires IsRun(r) && n < |r.states| && j < |r.states[n].log|
    requires r.states[n].log[j].Called? && r.states[n].log[j].call == DoStart
    ensures p < j && r.states[n].log[p].PrepareDone?
    ensures forall k :: p < k < j ==>
              var mark := r.states[n].log[k];
              !mark.PrepareDone? && !mark.Background? && !Ends(mark)
    ensures r.states[n].log[p].video ==>
              p < g < j && r.states[n].log[g] == Called(DoGetSurface, true) &&
              p < d < j && r.states[n].log[d] == SurfaceDone
  {
    CallsAreLegal(r, n, j);
    p, g, d := PreparedSince(r.states[n].log, j);
  }

  // ----- which operations are performed -----

  /** The state an operation is meant to reach. */
  function Target(opt: Opt): (state: Option<RecState>) {
    match opt
    case Start => Some(StStarted)
    case Resume => Some(StStarted)
    case Pause => Some(StPaused)
    case Stop => Some(StStopped)
    case Reset => Some(StIdle)
    case Release => Some(StReleased)
    case _ => None
  }

  /** The states from which an operation is performed. */
  predicate PerformedFrom(opt: Opt, s: RecState) {
    match opt
    case GetInputSurface => s == StPrepared
    case Start => s == StPrepared
    case Pause => s == StStarted
    case Resume => s == StPaused
    case Stop => s == StStarted || s == StPaused
    case Reset => s != StIdle && s != StReleased
    case Release => s != StReleased
    case _ => false
  }

  /** The call an operation makes. */
  function CallFor(opt: Opt): Option<Call> {
    match opt
    case Start => Some(DoStart)
    case Pause => Some(DoPause)
    case Resume => Some(DoResume)
    case Stop => Some(DoStop)
    case Reset => Some(DoReset)
    case Release => Some(DoRelease)
    case _ => None
  }

  lemma TablesMeet(s: RecState, opt: Opt)
    requires Target(opt).Some?
    ensures opt in Allowed(s) <==> Target(opt) == Some(s) || PerformedFrom(opt, s)
    ensures opt in Allowed(s) && opt in Repeated(s) <==> Target(opt) == Some(s)
  {
  }

  lemma DealDoes(r: Rec, opt: Opt, ok: bool, added: bool)
    requires Target(opt).Some? && CallFor(opt).Some?
    ensures var (r1, success) := Deal(r, opt, ok, added);
            if opt == Start && r.withVideo && !r.getVideoInputSurface then r1 == r && !success
            else
              && success == ok
              && r1.log == r.log + [Called(CallFor(opt).value, ok)]
              && r1.state == if ok then Target(opt).value else if opt == Start then StError else r.state
  {
  }

  /** What an operation does in each state: where its target is reached already it succeeds and changes
      nothing; where it is performed it makes its own call, just once, answers as that call does, and on
      success reaches its target; a Start without the input surface of a video, and everything elsewhere, is
      refused and changes nothing. */
  lemma OperationDoes(r: Rec, opt: Opt, ok: bool, added: bool)
    requires Target(opt).Some?
    ensures var (r1, success) := Execute(r, opt, ok, added);
            if Target(opt) == Some(r.state) then r1 == r && success
            else if !PerformedFrom(opt, r.state) || (opt == Start && r.withVideo && !r.getVideoInputSurface) then
              r1 == r && !success
            else
              && success == ok
              && CallFor(opt).Some? && r1.log == r.log + [Called(CallFor(opt).value, ok)]
              && r1.state == if ok then Target(opt).value else if opt == Start then StError else r.state
  {
    TablesMeet(r.state, opt);
    if PerformedFrom(opt, r.state) && Target(opt) != Some(r.state) {
      DealDoes(r, opt, ok, added);
    }
  }

  /** GetInputSurface succeeds exactly in the prepared state with video, if the surface is held already or
      GetSurface and its registration succeed; it never changes the state, and outside the prepared state
      nothing. */
  lemma SurfaceOperationDoes(r: Rec, ok: bool, added: bool)
    ensures var (r1, success) := Execute(r, GetInputSurface, ok, added);
            && r1.state == r.state && (r.state != StPrepared ==> r1 == r)
            && (success <==> r.state == StPrepared && r.withVideo && (r.hasSurface || (ok && added)))
            && (success ==> r1.hasSurface && r1.getVideoInputSurface &&
                            r1.log == r.log + if r.hasSurface then [SurfaceDone]
                                              else [Called(DoGetSurface, true), SurfaceAdded(true), SurfaceDone])
  {
    if r.state == StPrepared {
      SurfaceFetched(r, ok, added);
    }
  }

  lemma SurfaceFetched(r: Rec, ok: bool, added: bool)
    ensures var (r1, success) := InputSurface(r, ok, added);
            && r1.state == r.state
            && (success <==> r.withVideo && (r.hasSurface || (ok && added)))
            && (success ==> r1.hasSurface && r1.getVideoInputSurface &&
                            r1.log == r.log + if r.hasSurface then [SurfaceDone]
                                              else [Called(DoGetSurface, true), SurfaceAdded(true), SurfaceDone])
  {
  }

  lemma PreparesFrom(s: RecState)
    ensures Prepare in Allowed(s) <==> s == StIdle || s == StStopped
  {
  }

  /** What a Prepare does with a valid configuration. */
  lemma ConfiguredDoes(r: Rec, i: PrepareInput)
    requires (r.state == StIdle || r.state == StStopped) && i.source && i.valid
    ensures var (r1, success) := PrepareOpt(r, i);
            var r2 := Configure(r.(hasConfig := true), i.paramsOk);
            && (success <==> r2.hasConfiged && i.prepareOk)
            && r1 == if r2.hasConfiged then ConfiguredPrepare(r2, i) else NoteCall(r2, DoCleanup, i.resetOk)
  {
    PreparesFrom(r.state);
  }

  /** Prepare succeeds exactly from idle and stopped, for a source and a valid configuration, if the recorder is
      configured already or the setters succeed, and the call of Prepare does. A success leaves it prepared,
      with the input surface given up and to be fetched; a failure leaves the state. */
  lemma PrepareDoes(r: Rec, i: PrepareInput)
    ensures var (r1, success) := PrepareOpt(r, i);
            && (success <==> (r.state == StIdle || r.state == StStopped) && i.source && i.valid &&
                             (r.hasConfiged || i.paramsOk) && i.prepareOk)
            && r1.state == (if success then StPrepared else r.state)
            && (success ==>
                  && !r1.hasSurface && !r1.getVideoInputSurface && r1.withVideo == i.video
                  && r1.log == r.log + (if r.hasConfiged then [] else [Called(DoConfigure, true)])
                               + [Called(DoPrepare, true), PrepareDone(i.video)])
  {
    PreparesFrom(r.state);
    if (r.state == StIdle || r.state == StStopped) && i.source && i.valid {
      ConfiguredDoes(r, i);
    }
  }

  /** The calls of a failed Prepare with a valid configuration. */
  function FailedCalls(configured: bool, i: PrepareInput): seq<Mark> {
    if configured then [Called(DoPrepare, false), Called(DoCleanup, i.resetOk)]
    else if i.paramsOk then [Called(DoConfigure, true), Called(DoPrepare, false), Called(DoCleanup, i.resetOk)]
    else [Called(DoConfigure, false), Called(DoCleanup, i.resetOk)]
  }

  /** A failed Prepare changes nothing but the configuration and what is called: a source from idle or stopped is
      enough to keep the configuration, and a valid one ends with the call of Reset. */
  lemma PrepareFails(r: Rec, i: PrepareInput)
    requires !PrepareOpt(r, i).1
    ensures PrepareOpt(r, i).0 ==
            if (r.state != StIdle && r.state != StStopped) || !i.source then r
            else if !i.valid then r.(hasConfig := true)
            else r.(hasConfig := true, hasConfiged := r.hasConfiged || i.paramsOk,
                    log := r.log + FailedCalls(r.hasConfiged, i))
  {
    PreparesFrom(r.state);
    if (r.state == StIdle || r.state == StStopped) && i.source && i.valid {
      ConfiguredDoes(r, i);
    }
  }

  /** The states in which a query is passed on. */
  predicate AskedIn(opt: Opt, s: RecState) {
    match opt
    case SetOrientationHint => s == StPrepared
    case GetAVRecorderConfig => s == StPrepared || s == StStarted || s == StPaused || s == StStopped
    case GetEncoderInfo => s != StReleased && s != StError
    case _ => s == StPrepared || s == StStarted || s == StPaused
  }

  /** A query is passed on exactly in these states, the first two only with a configuration; it answers as its
      call does and changes nothing else. */
  lemma QueryDoes(r: Rec, opt: Opt, ok: bool)
    requires IsQuery(opt)
    ensures Query(r, opt, ok) ==
            if AskedIn(opt, r.state) && (opt == SetOrientationHint || opt == GetAVRecorderConfig ==> r.hasConfig)
            then (r.(log := r.log + [Called(DoQuery(opt), ok)]), ok) else (r, false)
  {
    assert opt in Allowed(r.state) <==> AskedIn(opt, r.state);
  }

  lemma Extend(r: Run, e: Event) returns (r1: Run)
    requires IsRun(r) && Enabled(e)
    ensures IsRun(r1) && |r1.events| == |r.events| + 1
    ensures r1.states[|r1.events|] == Next(r.states[|r.events|], e)
  {
    r1 := Run(r.states + [Next(r.states[|r.events|], e)], r.events + [e]);
    forall i | 0 <= i < |r1.events| ensures StepAt(r1, i) {
      assert i < |r.events| ==> StepAt(r, i);
    }
  }
}
