/** What the flags of the recorder wrapper mean, read off the log of the run: when a Prepare configures the
    recorder, and when a Start records from a surface that is held and registered.
 */
module CjAVRecorderHistory {
  import opened CjAVRecorderModel
  import opened CjAVRecorderRuns

  /** The marks after which `hasConfiged_` is off again. */
  predicate Unconfigures(mark: Mark) {
    mark.Called? && mark.ok && (mark.call.DoStop? || mark.call.DoReset? || mark.call.DoRelease?)
  }

  /** The marks after which the surface is no longer held, or was just tried to be registered. */
  predicate Surfaces(mark: Mark) {
    mark.PrepareDone? || mark.SurfaceAdded? || (mark.Called? && (mark.call.DoReset? || mark.call.DoRelease?))
  }

  /** The latest configuration succeeded after the latest mark that undoes one. */
  ghost predicate Configured(log: seq<Mark>) {
    exists k :: 0 <= k < |log| && log[k] == Called(DoConfigure, true) &&
                forall j :: k < j < |log| ==> !Unconfigures(log[j])
  }

  /** The latest mark about the surface is its registration. */
  ghost predicate Registered(log: seq<Mark>) {
    exists k :: 0 <= k < |log| && log[k] == SurfaceAdded(true) && forall j :: k < j < |log| ==> !Surfaces(log[j])
  }

  lemma ConfiguredPush(log: seq<Mark>, mark: Mark)
    ensures Configured(log + [mark]) <==>
            mark == Called(DoConfigure, true) || (Configured(log) && !Unconfigures(mark))
  {
    var log1 := log + [mark];
    assert forall j :: 0 <= j < |log| ==> log1[j] == log[j];
    assert log1[|log|] == mark;
    if mark == Called(DoConfigure, true) {
      assert log1[|log|] == Called(DoConfigure, true);
    }
    if Configured(log) && !Unconfigures(mark) {
      var k :| 0 <= k < |log| && log[k] == Called(DoConfigure, true) && forall j :: k < j < |log| ==> !Unconfigures(log[j]);
      assert log1[k] == Called(DoConfigure, true);
    }
  }

  lemma RegisteredPush(log: seq<Mark>, mark: Mark)
    ensures Registered(log + [mark]) <==> mark == SurfaceAdded(true) || (Registered(log) && !Surfaces(mark))
  {
    var log1 := log + [mark];
    assert forall j :: 0 <= j < |log| ==> log1[j] == log[j];
    assert log1[|log|] == mark;
    if mark == SurfaceAdded(true) {
      assert log1[|log|] == SurfaceAdded(true);
    }
    if Registered(log) && !Surfaces(mark) {
      var k :| 0 <= k < |log| && log[k] == SurfaceAdded(true) && forall j :: k < j < |log| ==> !Surfaces(log[j]);
      assert log1[k] == SurfaceAdded(true);
    }
  }

  /** Both facts, mark by mark. */
  predicate ConfiguredBy(log: seq<Mark>) {
    log != [] &&
    var last := log[|log| - 1];
    last == Called(DoConfigure, true) || (ConfiguredBy(log[..|log| - 1]) && !Unconfigures(last))
  }

  predicate RegisteredBy(log: seq<Mark>) {
    log != [] &&
    var last := log[|log| - 1];
    last == SurfaceAdded(true) || (RegisteredBy(log[..|log| - 1]) && !Surfaces(last))
  }

  lemma {:induction false} MarkByMark(log: seq<Mark>)
    ensures ConfiguredBy(log) <==> Configured(log)
    ensures RegisteredBy(log) <==> Registered(log)
  {
    if log != [] {
      var before, last := log[..|log| - 1], log[|log| - 1];
      MarkByMark(before);
      ConfiguredPush(before, last);
      RegisteredPush(before, last);
      assert log == before + [last];
    }
  }

  /** The flags say what the log says. */
  predicate Recalls(r: Rec) {
    && (r.registered ==> r.hasSurface)
    && r.registered == RegisteredBy(r.log)
    && r.hasConfiged == ConfiguredBy(r.log)
  }

  lemma MarkRecalls(r: Rec, mark: Mark, r1: Rec)
    requires Recalls(r) && r1.log == r.log + [mark]
    requires r1.registered ==> r1.hasSurface
    requires r1.registered == (mark == SurfaceAdded(true) || (r.registered && !Surfaces(mark)))
    requires r1.hasConfiged == (mark == Called(DoConfigure, true) || (r.hasConfiged && !Unconfigures(mark)))
    ensures Recalls(r1)
  {
    assert r1.log[..|r.log|] == r.log;
  }

  lemma PrepareRecalls(r: Rec, i: PrepareInput)
    requires Recalls(r)
    ensures Recalls(PrepareOpt(r, i).0)
  {
    if Prepare in Allowed(r.state) && i.source && i.valid {
      var r2 := Configure(r.(hasConfig := true), i.paramsOk);
      if !r.hasConfiged {
        MarkRecalls(r, Called(DoConfigure, i.paramsOk), r2);
      }
      if r2.hasConfiged {
        ConfiguredPrepareRecalls(r2, i);
        assert PrepareOpt(r, i).0 == ConfiguredPrepare(r2, i);
      } else {
        MarkRecalls(r2, Called(DoCleanup, i.resetOk), NoteCall(r2, DoCleanup, i.resetOk));
      }
    }
  }

  /** A call that leaves surface and configuration alone. */
  lemma CallRecalls(r: Rec, call: Call, ok: bool)
    requires Recalls(r) && !Unconfigures(Called(call, ok)) && !Surfaces(Called(call, ok)) && call != DoConfigure
    ensures Recalls(NoteCall(r, call, ok))
  {
    MarkRecalls(r, Called(call, ok), NoteCall(r, call, ok));
  }

  lemma ConfiguredPrepareRecalls(r: Rec, i: PrepareInput)
    requires Recalls(r)
    ensures Recalls(ConfiguredPrepare(r, i))
  {
    var r3 := NoteCall(r, DoPrepare, i.prepareOk);
    CallRecalls(r, DoPrepare, i.prepareOk);
    if i.prepareOk {
      MarkRecalls(r3, PrepareDone(i.video), ConfiguredPrepare(r, i));
    } else {
      CallRecalls(r3, DoCleanup, i.resetOk);
    }
  }

  lemma SurfaceRecalls(r: Rec, ok: bool, added: bool)
    requires Recalls(r)
    ensures Recalls(InputSurface(r, ok, added).0)
  {
    var result := InputSurface(r, ok, added).0;
    if r.withVideo {
      if r.hasSurface {
        MarkRecalls(r, SurfaceDone, result);
      } else {
        var r1 := NoteCall(r, DoGetSurface, ok);
        MarkRecalls(r, Called(DoGetSurface, ok), r1);
        if ok {
          var r2 := Note(r1, SurfaceAdded(added)).(hasSurface := true, registered := added);
          MarkRecalls(r1, SurfaceAdded(added), r2);
          if added {
            MarkRecalls(r2, SurfaceDone, result);
          }
        }
      }
    }
  }

  lemma EndingRecalls(r: Rec, call: Call, ok: bool, target: RecState)
    requires Recalls(r) && (call == DoStop || call == DoReset || call == DoRelease)
    ensures Recalls(Ending(if call == DoStop then r else RemoveSurface(r), call, ok, target).0)
  {
    var r0 := if call == DoStop then r else RemoveSurface(r);
    MarkRecalls(r, Called(call, ok), Ending(r0, call, ok, target).0);
  }

  lemma StateRecalls(r: Rec, state: RecState)
    requires Recalls(r)
    ensures Recalls(r.(state := state))
  {
  }

  lemma DealRecalls(r: Rec, opt: Opt, ok: bool, added: bool)
    requires Recalls(r)
    ensures Recalls(Deal(r, opt, ok, added).0)
  {
    match opt
    case GetInputSurface => SurfaceRecalls(r, ok, added);
    case Start =>
      CallRecalls(r, DoStart, ok);
      StateRecalls(NoteCall(r, DoStart, ok), if ok then StStarted else StError);
    case Pause =>
      CallRecalls(r, DoPause, ok);
      StateRecalls(NoteCall(r, DoPause, ok), StPaused);
    case Resume =>
      CallRecalls(r, DoResume, ok);
      StateRecalls(NoteCall(r, DoResume, ok), StStarted);
    case Stop => EndingRecalls(r, DoStop, ok, StStopped);
    case Reset => EndingRecalls(r, DoReset, ok, StIdle);
    case Release => EndingRecalls(r, DoRelease, ok, StReleased);
    case _ =>
  }

  lemma NextRecalls(r: Rec, e: Event)
    requires Enabled(e) && Recalls(r)
    ensures Recalls(Next(r, e))
  {
    match e
    case PrepareCall(i) => PrepareRecalls(r, i);
    case ExecuteCall(opt, ok, added) => DealRecalls(r, opt, ok, added);
    case QueryCall(opt, ok) =>
      CallRecalls(r, DoQuery(opt), ok);
    case Callback(state) => MarkRecalls(r, Background(state), Next(r, e));
  }

  lemma {:induction false} RunRecalls(r: Run, n: nat)
    requires IsRun(r) && n < |r.states|
    ensures Recalls(r.states[n])
  {
    if n > 0 {
      RunRecalls(r, n - 1);
      NextRecalls(r.states[n - 1], r.events[n - 1]) by { assert StepAt(r, n - 1); }
      assert StepAt(r, n - 1);
    }
  }

  // ----- configuration -----

  /** A successful Prepare configures the recorder exactly if no configuration has succeeded since the start
      or since the latest successful Stop, Reset or Release. The Reset inside a failed Prepare does not
      count among these, nor does a background stop. */
  lemma PrepareConfiguresIff(r: Run, n: nat)
    requires IsRun(r) && n < |r.events| && r.events[n].PrepareCall? && PrepareOpt(r.states[n], r.events[n].i).1
    ensures r.states[n].log <= r.states[n + 1].log
    ensures Called(DoConfigure, true) in r.states[n + 1].log[|r.states[n].log|..] <==>
            !exists k :: 0 <= k < |r.states[n].log| && r.states[n].log[k] == Called(DoConfigure, true) &&
                         forall j :: k < j < |r.states[n].log| ==>
                           r.states[n].log[j] !in {Called(DoStop, true), Called(DoReset, true), Called(DoRelease, true)}
  {
    assert StepAt(r, n);
    RunRecalls(r, n);
    MarkByMark(r.states[n].log);
    var s, i := r.states[n], r.events[n].i;
    PrepareLog(s, i);
    assert Configured(s.log) <==>
      exists k :: 0 <= k < |s.log| && s.log[k] == Called(DoConfigure, true) &&
                  forall j :: k < j < |s.log| ==>
                    s.log[j] !in {Called(DoStop, true), Called(DoReset, true), Called(DoRelease, true)};
  }

  lemma PrepareLog(r: Rec, i: PrepareInput)
    requires PrepareOpt(r, i).1
    ensures PrepareOpt(r, i).0.log ==
            r.log + ((if r.hasConfiged then [] else [Called(DoConfigure, true)]) +
                     [Called(DoPrepare, true), PrepareDone(i.video)])
  {
  }

  /** So a recorder that was reset because its Prepare failed is prepared again without configuration. */
  lemma PreparedWithoutConfiguration() returns (r: Run)
    ensures IsRun(r) && r.states[|r.events|].state == StPrepared
    ensures r.states[|r.events|].log ==
              [Called(DoConfigure, true), Called(DoPrepare, false), Called(DoCleanup, true),
               Called(DoPrepare, true), PrepareDone(false)]
  {
    r := Run([Initial()], []);
    r := Extend(r, PrepareCall(PrepareInput(true, true, false, true, false, true)));
    r := Extend(r, PrepareCall(PrepareInput(true, true, false, true, true, true)));
  }

  // ----- the surface -----

  /** At a call of Start with video the surface is held and registered exactly if the latest attempt to
      register one since the Prepare succeeded and no Reset or Release was called after it. Such a call
      has failed, or the recorder would not be prepared. */
  lemma StartUsesRegisteredIff(r: Run, n: nat) returns (p: nat)
    requires IsRun(r) && n < |r.events| && r.events[n].ExecuteCall? && r.events[n].opt == Start
    requires r.states[n + 1].log != r.states[n].log && r.states[n].withVideo
    ensures var s := r.states[n];
            && r.states[n + 1].log == s.log + [Called(DoStart, r.events[n].ok)]
            && p < |s.log| && s.log[p] == PrepareDone(true)
            && (forall k :: p < k < |s.log| ==> !s.log[k].PrepareDone?)
            && (forall k :: p < k < |s.log| ==> s.log[k] != Called(DoReset, true) && s.log[k] != Called(DoRelease, true))
            && (s.hasSurface && s.registered <==>
                  exists k :: p < k < |s.log| && s.log[k] == SurfaceAdded(true) &&
                              forall j :: k < j < |s.log| ==>
                                !s.log[j].SurfaceAdded? && s.log[j] != Called(DoReset, false) &&
                                s.log[j] != Called(DoRelease, false))
  {
    assert StepAt(r, n);
    RunRecalls(r, n);
    RunAgrees(r, n);
    var s := r.states[n];
    TableFacts(s.state, Start);
    var g, d;
    assert s.log[..|s.log|] == s.log;
    p, g, d := PreparedSince(s.log, |s.log|);
    MarkByMark(s.log);
    LatestSurface(s.log, p);
  }

  lemma LatestSurface(log: seq<Mark>, p: nat)
    requires p < |log| && log[p].PrepareDone? && forall k :: p < k < |log| ==> !log[k].PrepareDone?
    requires forall k :: p < k < |log| ==> log[k] != Called(DoReset, true) && log[k] != Called(DoRelease, true)
    ensures Registered(log) <==>
            exists k :: p < k < |log| && log[k] == SurfaceAdded(true) &&
                        forall j :: k < j < |log| ==>
                          !log[j].SurfaceAdded? && log[j] != Called(DoReset, false) && log[j] != Called(DoRelease, false)
  {
    assert Surfaces(log[p]);
    assert forall j :: p < j < |log| ==>
      (Surfaces(log[j]) <==> log[j].SurfaceAdded? || log[j] == Called(DoReset, false) || log[j] == Called(DoRelease, false));
    if Registered(log) {
      var k :| 0 <= k < |log| && log[k] == SurfaceAdded(true) && forall j :: k < j < |log| ==> !Surfaces(log[j]);
      assert p < k;
    }
  }

  /** A surface that could not be registered is handed out, and recorded from, at the second try: the
      registration is not repeated. */
  lemma StartedWithUnregisteredSurface() returns (r: Run)
    ensures IsRun(r) && r.states[|r.events|].state == StStarted
    ensures r.states[|r.events|].hasSurface && !r.states[|r.events|].registered
    ensures r.states[|r.events|].log ==
              [Called(DoConfigure, true), Called(DoPrepare, true), PrepareDone(true),
               Called(DoGetSurface, true), SurfaceAdded(false), SurfaceDone, Called(DoStart, true)]
  {
    r := Run([Initial()], []);
    r := Extend(r, PrepareCall(PrepareInput(true, true, true, true, true, true)));
    r := Extend(r, ExecuteCall(GetInputSurface, true, false));
    assert r.states[|r.events|].hasSurface && !r.states[|r.events|].registered;
    r := Extend(r, ExecuteCall(GetInputSurface, true, true));
    r := Extend(r, ExecuteCall(Start, true, true));
  }

  /** A Reset that fails gives the surface up all the same; the Start after it records from none. */
  lemma StartedWithoutSurface() returns (r: Run)
    ensures IsRun(r) && r.states[|r.events|].state == StStarted && !r.states[|r.events|].hasSurface
    ensures r.states[|r.events|].log ==
              [Called(DoConfigure, true), Called(DoPrepare, true), PrepareDone(true),
               Called(DoGetSurface, true), SurfaceAdded(true), SurfaceDone, Called(DoReset, false),
               Called(DoStart, true)]
  {
    r := Run([Initial()], []);
    r := Extend(r, PrepareCall(PrepareInput(true, true, true, true, true, true)));
    r := Extend(r, ExecuteCall(GetInputSurface, true, true));
    assert r.states[|r.events|].getVideoInputSurface;
    r := Extend(r, ExecuteCall(Reset, false, true));
    assert r.states[|r.events|].state == StPrepared;
    r := Extend(r, ExecuteCall(Start, true, true));
  }
}
