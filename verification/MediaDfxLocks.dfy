/** The mutexes of services/utils/media_dfx.cpp. A call is the sequence of its lock and unlock
    actions; which sequence it is depends on the data it finds, so every choice the data can make is
    a parameter of the call.
 */
module MediaDfxLocks {

  datatype Mutex = Collect | Report | MaxReport | MediaKit | SubtitleCb | SubtitleCbReport

  datatype Action = Lock(m: Mutex) | Unlock(m: Mutex)

  /** How ReportMediaInfo ends: with nothing, because a call type is full, or because four hours have
      passed. `types` holds, for each call type with pending reports, whether each of its uids has
      media events; `maxFound` says whether UpdateMaxInsNumberMap gets as far as its lock. */
  datatype Flush =
    | NoFlush
    | Full(types: seq<seq<bool>>, maxFound: bool)
    | Timeout(stalling: bool, types: seq<seq<bool>>, maxFound: bool)

  datatype Call =
    | CreateMediaInfo(isNew: bool)
    | OneCollectSection                       // CreatePlaybackInfo, CreateStallingInfo, CreatePlayErrInfo, Append*
    | OneSubtitleSection                      // RecordSubtitleCbRegister, RecordSubtitleCbUnregister
    | OneMaxSection                           // GetMaxInstanceNumber, UpdateMaxInsNumberMap
    | OneMediaKitSection                      // MediaKitStatistics, ReportTranscoderMediaInfo
    | CollectSubtitleCbCounter(counted: bool)
    | CommonStatisicsEventWrite(uids: seq<bool>)
    | ReportMediaInfo(found: bool, counted: bool, stallingFull: bool, stalling: bool, flush: Flush)
    | GetMediaInfoContainInstanceNum

  function Section(m: Mutex): seq<Action> {
    [Lock(m), Unlock(m)]
  }

  function SubtitleTrace(counted: bool): seq<Action> {
    Section(SubtitleCb) + if counted then Section(SubtitleCbReport) else []
  }

  function StatisticsTrace(uids: seq<bool>): seq<Action> {
    if uids == [] then []
    else
      Section(Collect) + (if uids[0] then Section(MaxReport) + Section(SubtitleCbReport) else [])
      + Section(Collect) + StatisticsTrace(uids[1..])
  }

  function AllStatisticsTrace(types: seq<seq<bool>>): seq<Action> {
    if types == [] then [] else StatisticsTrace(types[0]) + AllStatisticsTrace(types[1..])
  }

  function EventReportTrace(types: seq<seq<bool>>, maxFound: bool): seq<Action> {
    if types == [] then []
    else
      AllStatisticsTrace(types) + Section(Collect) + Section(SubtitleCbReport)
      + if maxFound then Section(MaxReport) else []
  }

  function StallingTrace(stalling: bool): seq<Action> {
    if stalling then Section(Collect) else []
  }

  function FlushTrace(flush: Flush): seq<Action> {
    match flush
    case NoFlush => []
    case Full(types, maxFound) => EventReportTrace(types, maxFound)
    case Timeout(stalling, types, maxFound) => StallingTrace(stalling) + EventReportTrace(types, maxFound)
  }

  function UnderReport(body: seq<Action>): seq<Action> {
    [Lock(Report)] + body + [Unlock(Report)]
  }

  function Trace(c: Call): seq<Action> {
    match c
    case CreateMediaInfo(isNew) => Section(Collect) + if isNew then Section(MaxReport) else []
    case OneCollectSection => Section(Collect)
    case OneSubtitleSection => Section(SubtitleCb)
    case OneMaxSection => Section(MaxReport)
    case OneMediaKitSection => Section(MediaKit)
    case CollectSubtitleCbCounter(counted) => SubtitleTrace(counted)
    case CommonStatisicsEventWrite(uids) => StatisticsTrace(uids)
    case ReportMediaInfo(found, counted, stallingFull, stalling, flush) =>
      if !found then Section(Collect)
      else
        Section(Collect) + UnderReport(SubtitleTrace(counted))
        + UnderReport((if stallingFull then StallingTrace(stalling) else []) + FlushTrace(flush))
    case GetMediaInfoContainInstanceNum => Section(Collect) + UnderReport([])
  }

  // ----- which mutexes a call takes -----

  predicate Takes(t: seq<Action>, m: Mutex) {
    Lock(m) in t
  }

  lemma SectionTakes(m1: Mutex, m: Mutex)
    ensures Takes(Section(m1), m) <==> m == m1
  {
  }

  lemma UnderReportTakes(body: seq<Action>, m: Mutex)
    ensures Takes(UnderReport(body), m) <==> m == Report || Takes(body, m)
  {
    assert UnderReport(body)[0] == Lock(Report);
  }

  lemma {:induction false} StatisticsTakes(uids: seq<bool>, m: Mutex)
    ensures Takes(StatisticsTrace(uids), m) <==>
              uids != [] && (m == Collect || (true in uids && (m == MaxReport || m == SubtitleCbReport)))
  {
    if uids != [] {
      StatisticsTakes(uids[1..], m);
      SectionTakes(Collect, m);
      SectionTakes(MaxReport, m);
      SectionTakes(SubtitleCbReport, m);
      assert true in uids <==> uids[0] || true in uids[1..];
    }
  }

  /** Some uid of some call type has media events. */
  predicate AnyEvents(types: seq<seq<bool>>) {
    types != [] && (true in types[0] || AnyEvents(types[1..]))
  }

  predicate AnyUids(types: seq<seq<bool>>) {
    types != [] && (types[0] != [] || AnyUids(types[1..]))
  }

  lemma {:induction false} AllStatisticsTakes(types: seq<seq<bool>>, m: Mutex)
    ensures Takes(AllStatisticsTrace(types), m) <==>
              (m == Collect && AnyUids(types)) ||
              ((m == MaxReport || m == SubtitleCbReport) && AnyEvents(types))
  {
    if types != [] {
      StatisticsTakes(types[0], m);
      AllStatisticsTakes(types[1..], m);
    }
  }

  lemma EventReportTakes(types: seq<seq<bool>>, maxFound: bool, m: Mutex)
    ensures Takes(EventReportTrace(types, maxFound), m) <==>
              types != [] &&
              (m == Collect || m == SubtitleCbReport || (m == MaxReport && (maxFound || AnyEvents(types))))
  {
    AllStatisticsTakes(types, m);
    SectionTakes(Collect, m);
    SectionTakes(SubtitleCbReport, m);
    SectionTakes(MaxReport, m);
  }

  /** The pending reports are sent, and the maxima are looked up or brought up to date for it. */
  predicate Sends(flush: Flush) {
    !flush.NoFlush? && flush.types != []
  }

  lemma FlushTakes(flush: Flush, m: Mutex)
    ensures Takes(FlushTrace(flush), m) <==>
              || (Sends(flush) && (m == Collect || m == SubtitleCbReport))
              || (Sends(flush) && m == MaxReport && (flush.maxFound || AnyEvents(flush.types)))
              || (flush.Timeout? && flush.stalling && m == Collect)
  {
    SectionTakes(Collect, m);
    if !flush.NoFlush? {
      EventReportTakes(flush.types, flush.maxFound, m);
    }
  }

  /** A ReportMediaInfo takes the mutex of the registry, and, once something was collected, those of the report
      and of the subtitle counters; those of the reported counters and of the maxima exactly if it comes to
      counting, sending and looking maxima up. */
  lemma ReportTakes(found: bool, counted: bool, stallingFull: bool, stalling: bool, flush: Flush, m: Mutex)
    ensures Takes(Trace(ReportMediaInfo(found, counted, stallingFull, stalling, flush)), m) <==>
              match m
              case Collect => true
              case Report => found
              case SubtitleCb => found
              case SubtitleCbReport => found && (counted || Sends(flush))
              case MaxReport => found && Sends(flush) && (flush.maxFound || AnyEvents(flush.types))
              case MediaKit => false
  {
    var first := SubtitleTrace(counted);
    var second := (if stallingFull then StallingTrace(stalling) else []) + FlushTrace(flush);
    FlushTakes(flush, m);
    SectionTakes(Collect, m);
    SectionTakes(SubtitleCb, m);
    SectionTakes(SubtitleCbReport, m);
    UnderReportTakes(first, m);
    UnderReportTakes(second, m);
  }

  /** CreateMediaInfo takes the mutex of the registry, and that of the maxima exactly if the id is new; a query of
      the instance number takes those of the registry and of the report. */
  lemma CreateTakes(isNew: bool, m: Mutex)
    ensures Takes(Trace(CreateMediaInfo(isNew)), m) <==> m == Collect || (isNew && m == MaxReport)
    ensures Takes(Trace(GetMediaInfoContainInstanceNum), m) <==> m == Collect || m == Report
  {
    SectionTakes(Collect, m);
    SectionTakes(MaxReport, m);
    UnderReportTakes([], m);
  }

  /** A mutex is acquired only while nothing else, or only `reportMut_`, is held; it is never acquired
      twice; every mutex is released by its holder and nothing is held at the end. */
  predicate Orderly(held: set<Mutex>, t: seq<Action>)
    decreases |t|
  {
    if t == [] then held == {}
    else
      match t[0]
      case Lock(m) => m !in held && held <= {Report} && Orderly(held + {m}, t[1..])
      case Unlock(m) => m in held && Orderly(held - {m}, t[1..])
  }

  /** A sequence of sections of mutexes other than `reportMut_`. */
  predicate Leaves(t: seq<Action>) {
    t == [] || (|t| >= 2 && t[0].Lock? && t[0].m != Report && t[1] == Unlock(t[0].m) && Leaves(t[2..]))
  }

  lemma {:induction false} LeavesConcat(t: seq<Action>, u: seq<Action>)
    requires Leaves(t) && Leaves(u)
    ensures Leaves(t + u)
  {
    if t == [] {
      assert t + u == u;
    } else {
      LeavesConcat(t[2..], u);
      assert (t + u)[2..] == t[2..] + u;
    }
  }

  lemma {:induction false} LeavesOrderly(held: set<Mutex>, t: seq<Action>, u: seq<Action>)
    requires Leaves(t) && held <= {Report} && Orderly(held, u)
    ensures Orderly(held, t + u)
  {
    if t == [] {
      assert t + u == u;
    } else {
      LeavesOrderly(held, t[2..], u);
      var v := t + u;
      assert v[1..][1..] == t[2..] + u;
      assert v[1..][0] == Unlock(t[0].m);
      assert held + {t[0].m} - {t[0].m} == held;
      assert Orderly(held + {t[0].m}, v[1..]);
    }
  }

  lemma UnderReportOrderly(body: seq<Action>, u: seq<Action>)
    requires Leaves(body) && Orderly({}, u)
    ensures Orderly({}, UnderReport(body) + u)
  {
    assert {Report} - {Report} == {};
    assert ([Unlock(Report)] + u)[1..] == u;
    LeavesOrderly({Report}, body, [Unlock(Report)] + u);
    var v := UnderReport(body) + u;
    assert v[1..] == body + ([Unlock(Report)] + u);
    assert {} + {Report} == {Report};
  }

  lemma {:induction false} StatisticsLeaves(uids: seq<bool>)
    ensures Leaves(StatisticsTrace(uids))
  {
    if uids != [] {
      StatisticsLeaves(uids[1..]);
      var middle := if uids[0] then Section(MaxReport) + Section(SubtitleCbReport) else [];
      LeavesConcat(Section(Collect), middle);
      LeavesConcat(Section(Collect) + middle, Section(Collect));
      LeavesConcat(Section(Collect) + middle + Section(Collect), StatisticsTrace(uids[1..]));
    }
  }

  lemma {:induction false} AllStatisticsLeaves(types: seq<seq<bool>>)
    ensures Leaves(AllStatisticsTrace(types))
  {
    if types != [] {
      AllStatisticsLeaves(types[1..]);
      StatisticsLeaves(types[0]);
      LeavesConcat(StatisticsTrace(types[0]), AllStatisticsTrace(types[1..]));
    }
  }

  lemma EventReportLeaves(types: seq<seq<bool>>, maxFound: bool)
    ensures Leaves(EventReportTrace(types, maxFound))
  {
    var all := AllStatisticsTrace(types);
    AllStatisticsLeaves(types);
    LeavesConcat(all, Section(Collect));
    LeavesConcat(all + Section(Collect), Section(SubtitleCbReport));
    LeavesConcat(all + Section(Collect) + Section(SubtitleCbReport), if maxFound then Section(MaxReport) else []);
  }

  lemma FlushLeaves(flush: Flush)
    ensures Leaves(FlushTrace(flush))
  {
    match flush
    case NoFlush =>
    case Full(types, maxFound) => EventReportLeaves(types, maxFound);
    case Timeout(stalling, types, maxFound) =>
      EventReportLeaves(types, maxFound);
      LeavesConcat(StallingTrace(stalling), EventReportTrace(types, maxFound));
  }

  lemma TwoReportsOrderly(first: seq<Action>, second: seq<Action>)
    requires Leaves(first) && Leaves(second)
    ensures Orderly({}, Section(Collect) + UnderReport(first) + UnderReport(second))
  {
    var u, v := UnderReport(first), UnderReport(second);
    assert Orderly({}, v) by {
      UnderReportOrderly(second, []);
      assert v + [] == v;
    }
    assert Orderly({}, u + v) by {
      UnderReportOrderly(first, v);
    }
    LeavesOrderly({}, Section(Collect), u + v);
    assert Section(Collect) + u + v == Section(Collect) + (u + v);
  }

  lemma ReportOrderly(c: Call)
    requires c.ReportMediaInfo? && c.found
    ensures Orderly({}, Trace(c))
  {
    var stalls := if c.stallingFull then StallingTrace(c.stalling) else [];
    assert Leaves(stalls + FlushTrace(c.flush)) by {
      FlushLeaves(c.flush);
      LeavesConcat(stalls, FlushTrace(c.flush));
    }
    assert Leaves(SubtitleTrace(c.counted)) by {
      LeavesConcat(Section(SubtitleCb), if c.counted then Section(SubtitleCbReport) else []);
    }
    TwoReportsOrderly(SubtitleTrace(c.counted), stalls + FlushTrace(c.flush));
  }

  /** Every public call of the registry is orderly, whatever it finds in the maps. */
  lemma EveryCallOrderly(c: Call)
    ensures Orderly({}, Trace(c))
  {
    if c.ReportMediaInfo? && c.found {
      ReportOrderly(c);
    } else if c.GetMediaInfoContainInstanceNum? {
      UnderReportOrderly([], []);
      assert UnderReport([]) + [] == UnderReport([]);
      LeavesOrderly({}, Section(Collect), UnderReport([]));
    } else {
      match c {
        case CreateMediaInfo(isNew) => LeavesConcat(Section(Collect), if isNew then Section(MaxReport) else []);
        case CollectSubtitleCbCounter(counted) =>
          LeavesConcat(Section(SubtitleCb), if counted then Section(SubtitleCbReport) else []);
        case CommonStatisicsEventWrite(uids) => StatisticsLeaves(uids);
        case _ =>
      }
      LeavesOrderly({}, Trace(c), []);
      assert Trace(c) + [] == Trace(c);
    }
  }

  // ----- any number of calls at once -----

  /** A call under way: what it holds and what it still has to do. */
  datatype Caller = Caller(held: set<Mutex>, todo: seq<Action>)

  datatype Event = Arrive(call: Call) | Advance(i: nat)

  predicate Free(s: seq<Caller>, m: Mutex) {
    forall i :: 0 <= i < |s| ==> m !in s[i].held
  }

  predicate CanAdvance(s: seq<Caller>, i: nat) {
    i < |s| && s[i].todo != [] && (s[i].todo[0].Lock? ==> Free(s, s[i].todo[0].m))
  }

  predicate Enabled(s: seq<Caller>, e: Event) {
    e.Advance? ==> CanAdvance(s, e.i)
  }

  function Next(s: seq<Caller>, e: Event): seq<Caller>
    requires Enabled(s, e)
  {
    match e
    case Arrive(call) => s + [Caller({}, Trace(call))]
    case Advance(i) =>
      var a := s[i].todo[0];
      s[i := Caller(if a.Lock? then s[i].held + {a.m} else s[i].held - {a.m}, s[i].todo[1..])]
  }

  predicate StepAt(states: seq<seq<Caller>>, events: seq<Event>, i: nat)
    requires i < |events| < |states|
  {
    Enabled(states[i], events[i]) && states[i + 1] == Next(states[i], events[i])
  }

  ghost predicate IsRun(states: seq<seq<Caller>>, events: seq<Event>) {
    && |states| == |events| + 1 && states[0] == []
    && forall i :: 0 <= i < |events| ==> StepAt(states, events, i)
  }

  ghost predicate Inv(s: seq<Caller>) {
    && (forall i :: 0 <= i < |s| ==> Orderly(s[i].held, s[i].todo))
    && (forall i, j :: 0 <= i < j < |s| ==> s[i].held !! s[j].held)
  }

  lemma {:induction false} Reachable(states: seq<seq<Caller>>, events: seq<Event>, n: nat)
    requires IsRun(states, events) && n < |states|
    ensures Inv(states[n])
  {
    if n > 0 {
      Reachable(states, events, n - 1);
      assert StepAt(states, events, n - 1);
      var e := events[n - 1];
      if e.Arrive? {
        EveryCallOrderly(e.call);
      }
    }
  }

  /** No mutex is held by two calls, and a call that waits for one holds at most `reportMut_`. */
  lemma LocksExclusive(states: seq<seq<Caller>>, events: seq<Event>, n: nat, i: nat, j: nat)
    requires IsRun(states, events) && n < |states| && i < j < |states[n]|
    ensures states[n][i].held !! states[n][j].held
    ensures states[n][i].todo != [] && states[n][i].todo[0].Lock? ==>
              states[n][i].held <= {Report} && states[n][i].todo[0].m !in states[n][i].held
  {
    Reachable(states, events, n);
    assert Orderly(states[n][i].held, states[n][i].todo);
  }

  /** No deadlock: in every reachable state with an unfinished call, some call can go on. */
  lemma NoDeadlock(states: seq<seq<Caller>>, events: seq<Event>, n: nat, i: nat) returns (k: nat)
    requires IsRun(states, events) && n < |states|
    requires i < |states[n]| && states[n][i].todo != []
    ensures CanAdvance(states[n], k)
  {
    Reachable(states, events, n);
    var s := states[n];
    if h, m :| 0 <= h < |s| && m in s[h].held && m != Report {
      assert Orderly(s[h].held, s[h].todo);
      k := h;
    } else if h :| 0 <= h < |s| && Report in s[h].held {
      assert Orderly(s[h].held, s[h].todo);
      k := h;
    } else {
      k := i;
    }
  }

  /** The number of actions all calls still have to do. */
  function Remaining(s: seq<Caller>): nat {
    if s == [] then 0 else |s[0].todo| + Remaining(s[1..])
  }

  lemma {:induction false} RemainingUpdate(s: seq<Caller>, i: nat, c: Caller)
    requires i < |s|
    ensures Remaining(s[i := c]) + |s[i].todo| == Remaining(s) + |c.todo|
  {
    if i > 0 {
      RemainingUpdate(s[1..], i - 1, c);
      assert s[i := c][1..] == s[1..][i - 1 := c];
    } else {
      assert s[i := c][1..] == s[1..];
    }
  }

  /** Every advance is progress, so no schedule goes on for ever without new calls. */
  lemma AdvanceShrinks(s: seq<Caller>, k: nat)
    requires CanAdvance(s, k)
    ensures Remaining(Next(s, Advance(k))) == Remaining(s) - 1
  {
    RemainingUpdate(s, k, Next(s, Advance(k))[k]);
  }

  /** Calls that are let run all finish: from every reachable state there is a schedule of exactly
      `Remaining` advances after which nothing is left to do and nothing is held. */
  lemma {:induction false} AllCallsFinish(states: seq<seq<Caller>>, events: seq<Event>)
    returns (states1: seq<seq<Caller>>, events1: seq<Event>)
    requires IsRun(states, events)
    ensures IsRun(states1, events1) && states <= states1 && events <= events1
    ensures |events1| == |events| + Remaining(states[|events|])
    ensures forall i :: |events| <= i < |events1| ==> events1[i].Advance?
    ensures forall i :: 0 <= i < |states1[|events1|]| ==> states1[|events1|][i] == Caller({}, [])
    decreases Remaining(states[|events|])
  {
    var n := |events|;
    var s := states[n];
    if i :| 0 <= i < |s| && s[i].todo != [] {
      var k := NoDeadlock(states, events, n, i);
      var t := Next(s, Advance(k));
      AdvanceShrinks(s, k);
      var more, moreEvents := states + [t], events + [Advance(k)];
      forall j | 0 <= j < |moreEvents| ensures StepAt(more, moreEvents, j) {
        assert j < n ==> StepAt(states, events, j);
      }
      states1, events1 := AllCallsFinish(more, moreEvents);
    } else {
      states1, events1 := states, events;
      Reachable(states, events, n);
      NothingRemains(s);
      forall i | 0 <= i < |s| ensures s[i] == Caller({}, []) {
        assert Orderly(s[i].held, s[i].todo);
      }
    }
  }

  lemma {:induction false} NothingRemains(s: seq<Caller>)
    requires forall i :: 0 <= i < |s| ==> s[i].todo == []
    ensures Remaining(s) == 0
  {
    if s != [] {
      NothingRemains(s[1..]);
    }
  }
}
