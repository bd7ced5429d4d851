/** The recorder wrapper of frameworks/cj/avrecorder: the table of allowed operations, the table of
    repeated ones, the operations, and the background changes of the state.

    `log` is history: what was called on the underlying recorder with what success, and the wrapper's
    own milestones. The outcome of a call into the underlying recorder is part of the operation's input.
 */
module CjAVRecorderModel {

  datatype RecState = StIdle | StPrepared | StStarted | StPaused | StStopped | StReleased | StError

  datatype Opt =
    | Prepare | SetOrientationHint | GetInputSurface | Start | Pause | Resume | Stop | Reset | Release
    | GetAVRecorderProfile | GetAVRecorderConfig | GetCurrentAudioCapturerInfo | GetMaxAmplitude | GetEncoderInfo

  /** STATE_CTRL_LIST. */
  function Allowed(s: RecState): set<Opt> {
    match s
    case StIdle => {Prepare, Reset, Release, GetAVRecorderProfile, GetEncoderInfo}
    case StPrepared =>
      {SetOrientationHint, GetInputSurface, Start, Reset, Release, GetCurrentAudioCapturerInfo, GetMaxAmplitude,
       GetEncoderInfo, GetAVRecorderConfig}
    case StStarted =>
      {Start, Resume, Pause, Stop, Reset, Release, GetCurrentAudioCapturerInfo, GetMaxAmplitude, GetEncoderInfo,
       GetAVRecorderConfig}
    case StPaused =>
      {Pause, Resume, Stop, Reset, Release, GetCurrentAudioCapturerInfo, GetMaxAmplitude, GetEncoderInfo,
       GetAVRecorderConfig}
    case StStopped => {Stop, Prepare, Reset, Release, GetEncoderInfo, GetAVRecorderConfig}
    case StReleased => {Release}
    case StError => {Reset, Release}
  }

  /** The operations that succeed without doing anything because the state is already reached. */
  function Repeated(s: RecState): set<Opt> {
    match s
    case StIdle => {Reset, GetAVRecorderProfile, GetAVRecorderConfig}
    case StPrepared => {}
    case StStarted => {Start, Resume}
    case StPaused => {Pause}
    case StStopped => {Stop}
    case StReleased => {Release}
    case StError => {}
  }

  /** What is called on the underlying recorder. `DoConfigure` stands for the setters of one
      configuration, `DoCleanup` for the Reset inside a failed Prepare. */
  datatype Call = DoConfigure | DoPrepare | DoGetSurface | DoStart | DoPause | DoResume | DoStop | DoReset
                | DoCleanup | DoRelease | DoQuery(opt: Opt)

  datatype Mark =
    | Called(call: Call, ok: bool)
    | SurfaceAdded(ok: bool)        // registering the surface with SurfaceUtils
    | PrepareDone(video: bool)
    | SurfaceDone                   // GetInputSurface succeeded
    | Background(state: RecState)

  datatype Rec = Rec(
    state: RecState,
    hasSurface: bool,
    registered: bool,               // SurfaceUtils holds the surface
    hasConfig: bool,
    hasConfiged: bool,
    withVideo: bool,
    getVideoInputSurface: bool,
    log: seq<Mark>)

  /** The configuration has a source, it is valid, it has video; the setters, Prepare and, after a
      failure, Reset succeed. */
  datatype PrepareInput = PrepareInput(source: bool, valid: bool, video: bool, paramsOk: bool, prepareOk: bool, resetOk: bool)

  function Initial(): Rec {
    Rec(StIdle, false, false, false, false, false, false, [])
  }

  function Note(r: Rec, m: Mark): Rec {
    r.(log := r.log + [m])
  }

  function NoteCall(r: Rec, call: Call, ok: bool): Rec {
    Note(r, Called(call, ok))
  }

  /** RemoveSurface. */
  function RemoveSurface(r: Rec): Rec {
    if r.hasSurface then r.(hasSurface := false, registered := false) else r
  }

  /** SetAVConfigParams. */
  function Configure(r: Rec, ok: bool): Rec {
    if r.hasConfiged then r else NoteCall(r, DoConfigure, ok).(hasConfiged := ok)
  }

  function PrepareOpt(r: Rec, i: PrepareInput): (Rec, bool) {
    if Prepare !in Allowed(r.state) || !i.source then (r, false)
    else
      var r1 := r.(hasConfig := true);
      if !i.valid then (r1, false)
      else
        var r2 := Configure(r1, i.paramsOk);
        if !r2.hasConfiged then (NoteCall(r2, DoCleanup, i.resetOk), false)
        else
          var r3 := NoteCall(r2, DoPrepare, i.prepareOk);
          if !i.prepareOk then (NoteCall(r3, DoCleanup, i.resetOk), false)
          else
            (Note(RemoveSurface(r3), PrepareDone(i.video)).(
               state := StPrepared, getVideoInputSurface := false, withVideo := i.video), true)
  }

  /** DoGetInputSurface: `ok` is the outcome of GetSurface, `added` that of registering the surface. */
  function InputSurface(r: Rec, ok: bool, added: bool): (Rec, bool) {
    if !r.withVideo then (r, false)
    else if r.hasSurface then (Note(r, SurfaceDone).(getVideoInputSurface := true), true)
    else
      var r1 := NoteCall(r, DoGetSurface, ok);
      if !ok then (r1, false)
      else
        var r2 := Note(r1, SurfaceAdded(added)).(hasSurface := true, registered := added);
        if !added then (r2, false)
        else (Note(r2, SurfaceDone).(getVideoInputSurface := true), true)
  }

  function StartOpt(r: Rec, ok: bool): (Rec, bool) {
    if r.withVideo && !r.getVideoInputSurface then (r, false)
    else (NoteCall(r, DoStart, ok).(state := if ok then StStarted else StError), ok)
  }

  /** DoPause and DoResume. */
  function Plain(r: Rec, call: Call, ok: bool, target: RecState): (Rec, bool) {
    var r1 := NoteCall(r, call, ok);
    if ok then (r1.(state := target), true) else (r1, false)
  }

  /** The end of DoStop, DoReset and DoRelease. */
  function Ending(r: Rec, call: Call, ok: bool, target: RecState): (Rec, bool) {
    var r1 := NoteCall(r, call, ok);
    if ok then (r1.(state := target, hasConfiged := false), true) else (r1, false)
  }

  /** DealTask. */
  function Deal(r: Rec, opt: Opt, ok: bool, added: bool): (Rec, bool) {
    match opt
    case GetInputSurface => InputSurface(r, ok, added)
    case Start => StartOpt(r, ok)
    case Pause => Plain(r, DoPause, ok, StPaused)
    case Resume => Plain(r, DoResume, ok, StStarted)
    case Stop => Ending(r, DoStop, ok, StStopped)
    case Reset => Ending(RemoveSurface(r), DoReset, ok, StIdle)
    case Release => Ending(RemoveSurface(r), DoRelease, ok, StReleased)
    case _ => (r, false)
  }

  /** ExecuteOptTask. */
  function Execute(r: Rec, opt: Opt, ok: bool, added: bool): (Rec, bool) {
    if opt !in Allowed(r.state) then (r, false)
    else if opt in Repeated(r.state) then (r, true)
    else Deal(r, opt, ok, added)
  }

  /** The operations that only ask or tell the recorder something. */
  predicate IsQuery(opt: Opt) {
    opt in {SetOrientationHint, GetAVRecorderConfig, GetCurrentAudioCapturerInfo, GetMaxAmplitude, GetEncoderInfo}
  }

  function Query(r: Rec, opt: Opt, ok: bool): (Rec, bool)
    requires IsQuery(opt)
  {
    if opt in {SetOrientationHint, GetAVRecorderConfig} && !r.hasConfig then (r, false)
    else if opt !in Allowed(r.state) then (r, false)
    else if opt in {GetCurrentAudioCapturerInfo, GetEncoderInfo} && opt in Repeated(r.state) then (r, true)
    else (NoteCall(r, DoQuery(opt), ok), ok)
  }

  /** OnInfo at the maximum duration stops, OnError with a registered handler is an error. */
  function BackgroundChange(r: Rec, state: RecState): Rec {
    Note(r, Background(state)).(state := state)
  }

  class CjAVRecorder {
    var currentState: RecState
    var hasSurface: bool
    var registered: bool
    var hasConfig: bool
    var hasConfiged: bool
    var withVideo: bool
    var getVideoInputSurface: bool
    ghost var log: seq<Mark>

    ghost function Model(): Rec
      reads this
    {
      Rec(currentState, hasSurface, registered, hasConfig, hasConfiged, withVideo, getVideoInputSurface, log)
    }

    constructor ()
      ensures Model() == Initial()
    {
      currentState, hasSurface, registered, hasConfig, hasConfiged := StIdle, false, false, false, false;
      withVideo, getVideoInputSurface, log := false, false, [];
    }

    /** RemoveSurface. */
    method DropSurface()
      modifies this`hasSurface, this`registered
      ensures !hasSurface && registered == (old(registered) && !old(hasSurface))
    {
      if hasSurface {
        registered := false;
        hasSurface := false;
      }
    }

    method PrepareRecorder(i: PrepareInput) returns (ok: bool)
      modifies this
      ensures (Model(), ok) == PrepareOpt(old(Model()), i)
    {
      if Prepare !in Allowed(currentState) || !i.source {
        return false;
      }
      hasConfig := true;
      if !i.valid {
        return false;
      }
      if !hasConfiged {
        log := log + [Called(DoConfigure, i.paramsOk)];
        hasConfiged := i.paramsOk;
        if !hasConfiged {
          log := log + [Called(DoCleanup, i.resetOk)];
          return false;
        }
      }
      log := log + [Called(DoPrepare, i.prepareOk)];
      if !i.prepareOk {
        log := log + [Called(DoCleanup, i.resetOk)];
        return false;
      }
      DropSurface();
      currentState := StPrepared;
      getVideoInputSurface := false;
      withVideo := i.video;
      log := log + [PrepareDone(i.video)];
      return true;
    }

    method FetchInputSurface(surfaceOk: bool, addOk: bool) returns (ok: bool)
      modifies this
      ensures (Model(), ok) == InputSurface(old(Model()), surfaceOk, addOk)
    {
      if !withVideo {
        return false;
      }
      if !hasSurface {
        log := log + [Called(DoGetSurface, surfaceOk)];
        if !surfaceOk {
          return false;
        }
        hasSurface := true;
        registered := addOk;
        log := log + [SurfaceAdded(addOk)];
        if !addOk {
          return false;
        }
      }
      getVideoInputSurface := true;
      log := log + [SurfaceDone];
      return true;
    }

    method StartRecorder(startOk: bool) returns (ok: bool)
      modifies this
      ensures (Model(), ok) == StartOpt(old(Model()), startOk)
    {
      if withVideo && !getVideoInputSurface {
        return false;
      }
      log := log + [Called(DoStart, startOk)];
      currentState := if startOk then StStarted else StError;
      return startOk;
    }

    method PauseRecorder(callOk: bool) returns (ok: bool)
      modifies this
      ensures (Model(), ok) == Plain(old(Model()), DoPause, callOk, StPaused)
    {
      log := log + [Called(DoPause, callOk)];
      if !callOk {
        return false;
      }
      currentState := StPaused;
      return true;
    }

    method ResumeRecorder(callOk: bool) returns (ok: bool)
      modifies this
      ensures (Model(), ok) == Plain(old(Model()), DoResume, callOk, StStarted)
    {
      log := log + [Called(DoResume, callOk)];
      if !callOk {
        return false;
      }
      currentState := StStarted;
      return true;
    }

    method StopRecorder(callOk: bool) returns (ok: bool)
      modifies this
      ensures (Model(), ok) == Ending(old(Model()), DoStop, callOk, StStopped)
    {
      log := log + [Called(DoStop, callOk)];
      if !callOk {
        return false;
      }
      currentState := StStopped;
      hasConfiged := false;
      return true;
    }

    method ResetRecorder(callOk: bool) returns (ok: bool)
      modifies this
      ensures (Model(), ok) == Ending(RemoveSurface(old(Model())), DoReset, callOk, StIdle)
    {
      DropSurface();
      log := log + [Called(DoReset, callOk)];
      if !callOk {
        return false;
      }
      currentState := StIdle;
      hasConfiged := false;
      return true;
    }

    method ReleaseRecorder(callOk: bool) returns (ok: bool)
      modifies this
      ensures (Model(), ok) == Ending(RemoveSurface(old(Model())), DoRelease, callOk, StReleased)
    {
      DropSurface();
      log := log + [Called(DoRelease, callOk)];
      if !callOk {
        return false;
      }
      currentState := StReleased;
      hasConfiged := false;
      return true;
    }

    method ExecuteOptTask(opt: Opt, callOk: bool, addOk: bool) returns (ok: bool)
      modifies this
      ensures (Model(), ok) == Execute(old(Model()), opt, callOk, addOk)
    {
      if opt !in Allowed(currentState) {
        return false;
      }
      if opt in Repeated(currentState) {
        return true;
      }
      match opt {
        case GetInputSurface => ok := FetchInputSurface(callOk, addOk);
        case Start => ok := StartRecorder(callOk);
        case Pause => ok := PauseRecorder(callOk);
        case Resume => ok := ResumeRecorder(callOk);
        case Stop => ok := StopRecorder(callOk);
        case Reset => ok := ResetRecorder(callOk);
        case Release => ok := ReleaseRecorder(callOk);
        case _ => ok := false;
      }
    }

    method OnBackground(state: RecState)
      modifies this
      ensures Model() == BackgroundChange(old(Model()), state)
    {
      currentState := state;
      log := log + [Background(state)];
    }
  }
}
