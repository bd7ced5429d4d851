/** The registry's public functions called one at a time: the recorded maximum of live instances, the
    bound on the report map, and the class that implements the calls.
 */
module MediaDfxCalls {
  import opened Wrappers
  import opened Sums
  import opened MediaDfxModel

  datatype Op =
    | Create(o: Owner, id: nat)
    | Validate(o: Owner, id: nat)
    | Append(id: nat, meta: Meta)
    | Report(id: nat, fourHours: bool)
    | Record(o: Owner, n: int)               // GetMaxInstanceNumber, called directly with an int32
    | UpdateMaxCall(ct: CallType)

  function Apply(r: Registry, op: Op): Registry {
    match op
    case Create(o, id) => CreateCall(r, o, id)
    case Validate(o, id) => ValidateSection(r, o, id).0
    case Append(id, meta) => AppendSection(r, id, meta).0
    case Report(id, fourHours) => ReportCall(r, id, fourHours).0
    case Record(o, n) => r.(max := RecordMax(r.max, o, n))
    case UpdateMaxCall(ct) => UpdateMax(r, ct)
  }

  datatype Run = Run(regs: seq<Registry>, ops: seq<Op>)

  predicate Enabled(op: Op) {
    op.Record? ==> -0x8000_0000 <= op.n < 0x8000_0000
  }

  predicate StepAt(r: Run, i: nat)
    requires i < |r.ops| < |r.regs|
  {
    Enabled(r.ops[i]) && r.regs[i + 1] == Apply(r.regs[i], r.ops[i])
  }

  ghost predicate IsRun(r: Run) {
    && |r.regs| == |r.ops| + 1 && r.regs[0] == Initial()
    && forall i :: 0 <= i < |r.ops| ==> StepAt(r, i)
  }

  // ----- the recorded maximum -----

  /** The call restarts the maximum of a call type: UpdateMaxInsNumberMap, or, for players, a report
      that was sent. */
  predicate Resets(r: Registry, op: Op, ct: CallType) {
    match op
    case UpdateMaxCall(ct1) => ct1 == ct
    case Report(id, fourHours) =>
      var (r1, found) := TakeSection(r, id);
      && ct == AvPlayer && found.Some?
      && Flushes(PutSection(r1, found.value.0, found.value.1), fourHours)
    case _ => false
  }

  /** The largest length the live list of an owner has had since the last restart. */
  function Peak(r: Run, n: nat, o: Owner): nat
    requires n <= |r.ops| < |r.regs|
  {
    if n == 0 then 0
    else NextPeak(r.regs[n - 1], r.ops[n - 1], o, |ListOf(r.regs[n].live, o)|, Peak(r, n - 1, o))
  }

  function NextPeak(r: Registry, op: Op, o: Owner, len: nat, peak: nat): nat {
    if Resets(r, op, o.ct) || peak < len then len else peak
  }

  /** The largest number recorded directly for an owner, if any, since the maxima of its call type were
      last brought up to date. */
  function Direct(r: Run, n: nat, o: Owner): Option<int>
    requires n <= |r.ops| < |r.regs|
  {
    if n == 0 then None else NextDirect(r.regs[n - 1], r.ops[n - 1], o, Direct(r, n - 1, o))
  }

  function NextDirect(r: Registry, op: Op, o: Owner, direct: Option<int>): Option<int> {
    if op.Record? && op.o == o then
      if direct.Some? && direct.value >= op.n then direct else Some(op.n)
    else if Resets(r, op, o.ct) && o.ct in r.live then None
    else direct
  }

  function MaxOf(m: map<CallType, map<int, int>>, o: Owner): Option<int> {
    if o.ct in m && o.uid in m[o.ct] then Some(m[o.ct][o.uid]) else None
  }

  predicate HasMax(r: Registry, o: Owner) {
    MaxOf(r.max, o).Some?
  }

  function Recorded(r: Registry, o: Owner): int {
    if HasMax(r, o) then MaxOf(r.max, o).value else 0
  }

  lemma RecordMaxOf(m: map<CallType, map<int, int>>, o1: Owner, n: int, o: Owner)
    ensures MaxOf(RecordMax(m, o1, n), o) ==
            if o == o1 then Some(if MaxOf(m, o).Some? && MaxOf(m, o).value >= n then MaxOf(m, o).value else n)
            else MaxOf(m, o)
  {
  }

  /** What should be recorded: the peak, unless a direct call has named more; for an owner that never had a
      list, what direct calls named. */
  function Expected(hasList: bool, peak: nat, direct: Option<int>): int {
    if direct.None? then peak
    else if hasList && peak >= direct.value then peak
    else direct.value
  }

  /** A maximum is recorded exactly for the owners that have a list or were named directly, and it is the
      expected one while the peak fits a 32-bit signed integer. */
  predicate MaxOk(r: Registry, o: Owner, peak: nat, direct: Option<int>) {
    && (Has(r.live, o) || direct.Some? <==> HasMax(r, o))
    && (!Has(r.live, o) ==> peak == 0)
    && |ListOf(r.live, o)| <= peak
    && (direct.Some? ==> direct.value < 0x8000_0000)
    && Recorded(r, o) < 0x8000_0000
    && (peak < 0x8000_0000 ==> Recorded(r, o) == Expected(Has(r.live, o), peak, direct))
  }

  lemma {:induction false} RemoveShorter(list: seq<Entry>, e: Entry)
    ensures |Remove(list, e)| <= |list|
  {
    if list != [] {
      RemoveShorter(list[1..], e);
    }
  }

  lemma SameListsMaxOk(r: Registry, r1: Registry, o: Owner, peak: nat, direct: Option<int>)
    requires MaxOk(r, o, peak, direct) && r1.max == r.max
    requires Has(r1.live, o) == Has(r.live, o) && |ListOf(r1.live, o)| == |ListOf(r.live, o)|
    ensures MaxOk(r1, o, peak, direct)
  {
  }

  lemma UpdateMaxOk(r: Registry, ct: CallType, o: Owner, peak: nat, direct: Option<int>)
    requires MaxOk(r, o, peak, direct)
    ensures MaxOk(UpdateMax(r, ct), o, if o.ct == ct then |ListOf(r.live, o)| else peak,
                  if o.ct == ct && ct in r.live then None else direct)
  {
  }

  lemma CreateMaxOk(r: Registry, o1: Owner, id: nat, o: Owner, peak: nat, direct: Option<int>)
    requires MaxOk(r, o, peak, direct)
    ensures var r1 := CreateCall(r, o1, id);
            var len := |ListOf(r1.live, o)|;
            MaxOk(r1, o, if peak >= len then peak else len, direct)
  {
    if id !in r.idMap {
      var r1 := CreateSection(r, o1, id).0;
      var list := ListOf(r.live, o1) + [Entry(id, Some(r.created), Some(map[]))];
      ListOfSetList(r.live, o1, list, o);
      RecordMaxOf(r1.max, o1, Int32(|list|), o);
    }
  }

  lemma RecordMaxOk(r: Registry, o1: Owner, n: int, o: Owner, peak: nat, direct: Option<int>)
    requires MaxOk(r, o, peak, direct) && Enabled(Record(o1, n))
    ensures MaxOk(Apply(r, Record(o1, n)), o, peak, NextDirect(r, Record(o1, n), o, direct))
  {
    RecordMaxOf(r.max, o1, n, o);
  }

  lemma TakeMaxOk(r: Registry, id: nat, o: Owner, peak: nat, direct: Option<int>)
    requires MaxOk(r, o, peak, direct)
    ensures MaxOk(TakeSection(r, id).0, o, peak, direct)
    ensures TakeSection(r, id).0.live.Keys == r.live.Keys
  {
    if id in r.idMap && Has(r.live, r.idMap[id]) {
      var list := ListOf(r.live, r.idMap[id]);
      var k := Find(list, id);
      if k < |list| {
        RemoveShorter(list, list[k]);
      }
    }
  }

  lemma EventsMaxOk(r: Registry, o: Owner, peak: nat, direct: Option<int>)
    requires MaxOk(r, o, peak, direct)
    ensures MaxOk(r.(reachMax := false, max := WriteEvents(r.max, r.report), report := map[]), o, peak, direct)
  {
  }

  lemma TailMaxOk(r: Registry, fourHours: bool, o: Owner, peak: nat, direct: Option<int>)
    requires MaxOk(r, o, peak, direct)
    ensures var reset := o.ct == AvPlayer && Flushes(r, fourHours);
            MaxOk(TailSection(r, fourHours), o, if reset then |ListOf(r.live, o)| else peak,
                  if reset && o.ct in r.live then None else direct)
    ensures TailSection(r, fourHours).live == r.live
  {
    if Flushes(r, fourHours) {
      EventsMaxOk(r, o, peak, direct);
      UpdateMaxOk(r.(reachMax := false, max := WriteEvents(r.max, r.report), report := map[]), AvPlayer, o, peak,
                  direct);
    }
  }

  lemma AfterTakeMaxOk(r: Registry, found: Option<(Owner, Entry)>, fourHours: bool, o: Owner, peak: nat,
                       direct: Option<int>)
    requires MaxOk(r, o, peak, direct)
    ensures var reset := o.ct == AvPlayer && found.Some? &&
                         Flushes(PutSection(r, found.value.0, found.value.1), fourHours);
            MaxOk(AfterTake(r, found, fourHours), o, if reset then |ListOf(r.live, o)| else peak,
                  if reset && o.ct in r.live then None else direct)
    ensures AfterTake(r, found, fourHours).live == r.live
  {
    if found.Some? {
      var r2 := PutSection(r, found.value.0, found.value.1);
      assert r2.live == r.live;
      SameListsMaxOk(r, r2, o, peak, direct);
      TailMaxOk(r2, fourHours, o, peak, direct);
    }
  }

  lemma ReportMaxOk(r: Registry, id: nat, fourHours: bool, o: Owner, peak: nat, direct: Option<int>)
    requires MaxOk(r, o, peak, direct)
    ensures var r1 := ReportCall(r, id, fourHours).0;
            var reset := Resets(r, Report(id, fourHours), o.ct);
            MaxOk(r1, o, if reset then |ListOf(r1.live, o)| else peak,
                  if reset && o.ct in r.live then None else direct)
  {
    var (r1, found) := TakeSection(r, id);
    TakeMaxOk(r, id, o, peak, direct);
    AfterTakeMaxOk(r1, found, fourHours, o, peak, direct);
    assert ReportCall(r, id, fourHours).0 == AfterTake(r1, found, fourHours);
  }

  /** The peak and the direct number after a call. */
  predicate StepOk(r: Registry, op: Op, o: Owner, peak: nat, direct: Option<int>) {
    MaxOk(Apply(r, op), o, NextPeak(r, op, o, |ListOf(Apply(r, op).live, o)|, peak), NextDirect(r, op, o, direct))
  }

  lemma CreateStepOk(r: Registry, o1: Owner, id: nat, o: Owner, peak: nat, direct: Option<int>)
    requires MaxOk(r, o, peak, direct)
    ensures StepOk(r, Create(o1, id), o, peak, direct)
  {
    CreateMaxOk(r, o1, id, o, peak, direct);
  }

  lemma ReportStepOk(r: Registry, id: nat, fourHours: bool, o: Owner, peak: nat, direct: Option<int>)
    requires MaxOk(r, o, peak, direct)
    ensures StepOk(r, Report(id, fourHours), o, peak, direct)
  {
    ReportMaxOk(r, id, fourHours, o, peak, direct);
  }

  lemma UpdateStepOk(r: Registry, ct: CallType, o: Owner, peak: nat, direct: Option<int>)
    requires MaxOk(r, o, peak, direct)
    ensures StepOk(r, UpdateMaxCall(ct), o, peak, direct)
  {
    UpdateMaxOk(r, ct, o, peak, direct);
  }

  lemma OtherStepOk(r: Registry, op: Op, o: Owner, peak: nat, direct: Option<int>)
    requires MaxOk(r, o, peak, direct) && Enabled(op) && (op.Validate? || op.Append? || op.Record?)
    ensures StepOk(r, op, o, peak, direct)
  {
    if op.Record? {
      RecordMaxOk(r, op.o, op.n, o, peak, direct);
    } else {
      SameListsMaxOk(r, Apply(r, op), o, peak, direct);
    }
  }

  lemma ApplyMaxOk(r: Registry, op: Op, o: Owner, peak: nat, direct: Option<int>)
    requires MaxOk(r, o, peak, direct) && Enabled(op)
    ensures StepOk(r, op, o, peak, direct)
  {
    match op
    case Create(o1, id) => CreateStepOk(r, o1, id, o, peak, direct);
    case Report(id, fourHours) => ReportStepOk(r, id, fourHours, o, peak, direct);
    case UpdateMaxCall(ct) => UpdateStepOk(r, ct, o, peak, direct);
    case _ => OtherStepOk(r, op, o, peak, direct);
  }

  lemma {:induction false} PeakKept(r: Run, n: nat, o: Owner)
    requires IsRun(r) && n < |r.regs|
    ensures MaxOk(r.regs[n], o, Peak(r, n, o), Direct(r, n, o))
  {
    if n > 0 {
      PeakKept(r, n - 1, o);
      ApplyMaxOk(r.regs[n - 1], r.ops[n - 1], o, Peak(r, n - 1, o), Direct(r, n - 1, o)) by {
        assert StepAt(r, n - 1);
      }
      assert r.regs[n] == Apply(r.regs[n - 1], r.ops[n - 1]) by { assert StepAt(r, n - 1); }
    }
  }

  /** The maximum recorded for an owner is the largest length of its live list since the last restart of
      its call type exactly while that length fits a 32-bit signed integer and every number recorded
      directly since is at most that length or, for an owner that never had a list, the largest is 0. */
  lemma RecordedIsPeak(r: Run, n: nat, o: Owner)
    requires IsRun(r) && n < |r.regs|
    ensures var peak, direct := Peak(r, n, o), Direct(r, n, o);
            Recorded(r.regs[n], o) == peak <==>
              peak < 0x8000_0000 &&
              (direct.None? || (if Has(r.regs[n].live, o) then direct.value <= peak else direct.value == 0))
  {
    PeakKept(r, n, o);
  }

  /** The registry after `k` instances were made for one owner. */
  function Filled(o: Owner, k: nat): Registry {
    if k == 0 then Initial() else Apply(Filled(o, k - 1), Create(o, k - 1))
  }

  lemma {:induction false} FilledHolds(o: Owner, k: nat)
    ensures |ListOf(Filled(o, k).live, o)| == k && forall id :: id in Filled(o, k).idMap ==> id < k
  {
    if k > 0 {
      FilledHolds(o, k - 1);
    }
  }

  /** 2^31 instances of one owner: the recorded maximum is not their number. */
  lemma RecordedWrong(o: Owner) returns (r: Run)
    ensures IsRun(r) && |r.ops| == 0x8000_0000
    ensures |ListOf(r.regs[|r.ops|].live, o)| == 0x8000_0000 && Recorded(r.regs[|r.ops|], o) != Peak(r, |r.ops|, o)
  {
    var n := 0x8000_0000;
    r := Run(seq(n + 1, i requires 0 <= i => Filled(o, i)), seq(n, i requires 0 <= i => Create(o, i)));
    forall i | 0 <= i < |r.ops| ensures StepAt(r, i) {
      assert r.regs[i] == Filled(o, i) && r.regs[i + 1] == Filled(o, i + 1);
    }
    FilledHolds(o, n);
    PeakKept(r, n, o);
    RecordedIsPeak(r, n, o);
  }

  /** UpdateMaxInsNumberMap removes the maximum of an owner exactly if the owner never had a list, but was
      named in a direct call since the last update; with no such call it never removes one. */
  lemma NoKeyRemoved(r: Run, n: nat, ct: CallType, uid: int)
    requires IsRun(r) && n < |r.regs|
    ensures var reg, o := r.regs[n], Owner(ct, uid);
            && (HasMax(reg, o) <==> Has(reg.live, o) || Direct(r, n, o).Some?)
            && (HasMax(reg, o) && !HasMax(UpdateMax(reg, ct), o) <==>
                  Direct(r, n, o).Some? && !Has(reg.live, o) && ct in reg.live)
  {
    PeakKept(r, n, Owner(ct, uid));
  }

  /** A number recorded directly for a uid without instances: it stands although there were none, and the
      next update removes the key. */
  lemma DirectCallWrong() returns (r: Run)
    ensures IsRun(r) && r.ops == [Record(Owner(AvPlayer, 7), 5), Create(Owner(AvPlayer, 8), 1), UpdateMaxCall(AvPlayer)]
    ensures Recorded(r.regs[2], Owner(AvPlayer, 7)) == 5 && Peak(r, 2, Owner(AvPlayer, 7)) == 0
    ensures HasMax(r.regs[2], Owner(AvPlayer, 7)) && !HasMax(r.regs[3], Owner(AvPlayer, 7))
  {
    var o, o1 := Owner(AvPlayer, 7), Owner(AvPlayer, 8);
    var r1 := Apply(Initial(), Record(o, 5));
    var r2 := Apply(r1, Create(o1, 1));
    var r3 := Apply(r2, UpdateMaxCall(AvPlayer));
    r := Run([Initial(), r1, r2, r3], [Record(o, 5), Create(o1, 1), UpdateMaxCall(AvPlayer)]);
    forall i | 0 <= i < 3 ensures StepAt(r, i) {
    }
    PeakKept(r, 2, o);
  }

  // ----- the size of the report map -----

  ghost predicate ReportBounded(r: Registry) {
    !r.reachMax && forall ct :: ct in r.report ==> |r.report[ct]| < MAX_MAP_SIZE
  }

  lemma SetGrowsByOne(m: map<int, seq<Entry>>, uid: int, list: seq<Entry>)
    ensures |m[uid := list]| <= |m| + 1
  {
    assert m[uid := list].Keys == m.Keys + {uid};
  }

  lemma ReportStaysBounded(r: Registry, id: nat, fourHours: bool)
    requires ReportBounded(r)
    ensures ReportBounded(ReportCall(r, id, fourHours).0)
  {
    var (r1, found) := TakeSection(r, id);
    if found.Some? {
      PutStaysBounded(r1, found.value.0, found.value.1, fourHours);
    }
  }

  lemma PutStaysBounded(r: Registry, o: Owner, e: Entry, fourHours: bool)
    requires ReportBounded(r)
    ensures ReportBounded(TailSection(PutSection(r, o, e), fourHours))
  {
    SetGrowsByOne(Uids(r.report, o.ct), o.uid, ListOf(r.report, o) + [e]);
  }

  /** After every call each call type has fewer than MAX_MAP_SIZE uids in the report map, although one
      flag serves all call types: no call leaves it set. */
  lemma {:induction false} ReportMapBounded(r: Run, n: nat, ct: CallType)
    requires IsRun(r) && n < |r.regs|
    ensures ct in r.regs[n].report ==> |r.regs[n].report[ct]| < 100
    ensures ReportBounded(r.regs[n])
  {
    if n > 0 {
      assert StepAt(r, n - 1);
      ReportMapBounded(r, n - 1, ct);
      var op := r.ops[n - 1];
      if op.Report? {
        ReportStaysBounded(r.regs[n - 1], op.id, op.fourHours);
      }
    }
  }

  // ----- the class -----

  /** The next key of an iteration, in no particular order. */
  method Pick<T(==)>(s: set<T>) returns (x: T)
    requires s != {}
    ensures x in s
  {
    x :| x in s;
  }

  lemma RefreshIs(before: map<int, int>, lists: map<int, seq<Entry>>, lengths: map<int, int>, gone: set<int>)
    requires lengths.Keys == before.Keys
    requires forall uid :: uid in before && uid in lists ==> lengths[uid] == Int32(|lists[uid]|)
    requires forall uid :: uid in gone <==> uid in before && uid !in lists
    ensures lengths - gone == Refresh(before, lists)
  {
    var target, left := Refresh(before, lists), lengths - gone;
    forall uid ensures uid in left <==> uid in target {
      assert uid in lengths.Keys <==> uid in before.Keys;
    }
    assert forall uid :: uid in target ==> left[uid] == target[uid];
  }

  class MediaDfx {
    var idMap: map<nat, Owner>
    var mediaInfoMap: Lists
    var reportMediaInfoMap: Lists
    var mediaMaxInstanceNumberMap: map<CallType, map<int, int>>
    var reachMaxMapSize: bool
    var created: nat
    ghost var made: set<nat>
    ghost var sent: seq<Lists>     // the report lists sent so far

    ghost function Model(): Registry
      reads this
    {
      Registry(idMap, mediaInfoMap, reportMediaInfoMap, mediaMaxInstanceNumberMap, reachMaxMapSize, created, made)
    }

    constructor ()
      ensures Model() == Initial() && sent == []
    {
      idMap, mediaInfoMap, reportMediaInfoMap, mediaMaxInstanceNumberMap := map[], map[], map[], map[];
      reachMaxMapSize, created, made, sent := false, 0, {}, [];
    }

    method CreateMediaInfo(o: Owner, id: nat) returns (code: Code)
      modifies this`idMap, this`mediaInfoMap, this`mediaMaxInstanceNumberMap, this`created, this`made
      ensures Model() == CreateCall(old(Model()), o, id)
      ensures code == if id in old(idMap) then InvalidVal else Ok
    {
      if id in idMap {
        return InvalidVal;
      }
      idMap := idMap[id := o];
      made := made + {id};
      var list := ListOf(mediaInfoMap, o) + [Entry(id, Some(created), Some(map[]))];
      created := created + 1;
      mediaInfoMap := SetList(mediaInfoMap, o, list);
      GetMaxInstanceNumber(o, Int32(|list|));
      return Ok;
    }

    /** GetMaxInstanceNumber, which records a number. */
    method GetMaxInstanceNumber(o: Owner, n: int)
      modifies this`mediaMaxInstanceNumberMap
      ensures Model() == old(Model()).(max := RecordMax(old(mediaMaxInstanceNumberMap), o, n))
    {
      if o.ct in mediaMaxInstanceNumberMap {
        var inner := mediaMaxInstanceNumberMap[o.ct];
        if o.uid !in inner || inner[o.uid] < n {
          mediaMaxInstanceNumberMap := mediaMaxInstanceNumberMap[o.ct := inner[o.uid := n]];
        } else {
          assert inner[o.uid := inner[o.uid]] == inner;
          assert mediaMaxInstanceNumberMap[o.ct := inner] == mediaMaxInstanceNumberMap;
        }
      } else {
        var inner: map<int, int> := map[];
        mediaMaxInstanceNumberMap := mediaMaxInstanceNumberMap[o.ct := inner[o.uid := n]];
      }
    }

    method ValidateOrAddInstanceId(o: Owner, id: nat) returns (code: Code)
      modifies this`idMap
      ensures (Model(), code) == ValidateSection(old(Model()), o, id)
    {
      if id in idMap {
        if idMap[id] != o {
          return InvalidVal;
        }
      } else {
        idMap := idMap[id := o];
      }
      return Ok;
    }

    /** The loop over an instance list. */
    static method FindInstance(list: seq<Entry>, id: nat) returns (k: nat)
      ensures k == Find(list, id)
    {
      k := 0;
      while k < |list| && list[k].id != id
        invariant k <= |list| && Find(list, id) == k + Find(list[k..], id)
      {
        assert list[k..][1..] == list[k + 1..];
        k := k + 1;
      }
    }

    method AppendMediaInfo(meta: Meta, id: nat) returns (code: Code)
      modifies this`mediaInfoMap
      ensures (Model(), code) == AppendSection(old(Model()), id, meta)
    {
      if meta == map[] {
        return InvalidOperation;
      }
      if id !in idMap {
        return InvalidVal;
      }
      var o := idMap[id];
      if !Has(mediaInfoMap, o) {
        return InvalidOperation;
      }
      var list := ListOf(mediaInfoMap, o);
      var k := FindInstance(list, id);
      if k < |list| && list[k].meta.Some? {
        var e := list[k].(meta := Some(list[k].meta.value + meta));
        mediaInfoMap := SetList(mediaInfoMap, o, list[k := e]);
      }
      return Ok;
    }

    /** The first section of CollectReportMediaInfo. */
    method CollectTake(id: nat) returns (found: Option<(Owner, Entry)>)
      modifies this`idMap, this`mediaInfoMap, this`made
      ensures (Model(), found) == TakeSection(old(Model()), id)
    {
      if id !in idMap {
        return None;
      }
      var o := idMap[id];
      idMap := idMap - {id};
      made := made - {id};
      if !Has(mediaInfoMap, o) {
        return None;
      }
      var list := ListOf(mediaInfoMap, o);
      var k := FindInstance(list, id);
      if k < |list| {
        mediaInfoMap := SetList(mediaInfoMap, o, Remove(list, list[k]));
        return Some((o, list[k]));
      }
      return Some((o, NO_ENTRY));
    }

    /** The second section. */
    method CollectPut(o: Owner, e: Entry)
      modifies this`reportMediaInfoMap, this`reachMaxMapSize
      ensures Model() == PutSection(old(Model()), o, e)
    {
      reportMediaInfoMap := Push(reportMediaInfoMap, o, e);
      reachMaxMapSize := |reportMediaInfoMap[o.ct]| >= MAX_MAP_SIZE;
    }

    /** What ReportMediaInfo does after the collection. */
    method ReportIfDue(fourHours: bool) returns (code: Code)
      modifies this
      ensures Model() == TailSection(old(Model()), fourHours)
      ensures var due := old(reachMaxMapSize) || fourHours;
              && code == (if due && old(reportMediaInfoMap) == map[] then InvalidOperation else Ok)
              && reportMediaInfoMap == (if due then map[] else old(reportMediaInfoMap))
              && sent == old(sent) + if due && code == Ok then [old(reportMediaInfoMap)] else []
    {
      var report := reachMaxMapSize || fourHours;
      reachMaxMapSize := false;
      if !report {
        return Ok;
      }
      if reportMediaInfoMap == map[] {
        return InvalidOperation;
      }
      WriteStatistics();
      sent := sent + [reportMediaInfoMap];
      reportMediaInfoMap := map[];
      UpdateMaxInsNumberMap(AvPlayer);
      return Ok;
    }

    /** A report that collects nothing sends nothing. Otherwise the lists with the collected pair are sent and
        emptied exactly if four hours have passed or its call type then has 100 uids. */
    method ReportMediaInfo(id: nat, fourHours: bool) returns (code: Code)
      modifies this
      ensures (Model(), code) == ReportCall(old(Model()), id, fourHours)
      ensures match TakeSection(old(Model()), id).1 {
                case None =>
                  code == InvalidOperation && reportMediaInfoMap == old(reportMediaInfoMap) && sent == old(sent)
                case Some((o, e)) =>
                  var full := Push(old(reportMediaInfoMap), o, e);
                  code == Ok &&
                  if fourHours || |full[o.ct]| >= 100 then reportMediaInfoMap == map[] && sent == old(sent) + [full]
                  else reportMediaInfoMap == full && sent == old(sent)
              }
    {
      var found := CollectTake(id);
      if found.None? {
        return InvalidOperation;
      }
      CollectPut(found.value.0, found.value.1);
      code := ReportIfDue(fourHours);
    }

    /** The loop over the call types of the report: what it does to the maps. */
    method WriteStatistics()
      modifies this`mediaMaxInstanceNumberMap
      ensures mediaMaxInstanceNumberMap == WriteEvents(old(mediaMaxInstanceNumberMap), reportMediaInfoMap)
    {
      var todo := reportMediaInfoMap.Keys;
      ghost var before := mediaMaxInstanceNumberMap;
      while todo != {}
        invariant todo <= reportMediaInfoMap.Keys
        invariant forall ct :: ct in mediaMaxInstanceNumberMap <==> ct in before || Made(ct, todo)
        invariant forall ct :: ct in mediaMaxInstanceNumberMap ==>
                    mediaMaxInstanceNumberMap[ct] == if ct in before then before[ct] else map[]
        decreases |todo|
      {
        var ct := Pick(todo);
        todo := todo - {ct};
        if HasEvents(reportMediaInfoMap[ct]) && ct !in mediaMaxInstanceNumberMap {
          mediaMaxInstanceNumberMap := mediaMaxInstanceNumberMap[ct := map[]];
        }
      }
    }

    predicate Made(ct: CallType, todo: set<CallType>)
      reads this`reportMediaInfoMap
    {
      ct in reportMediaInfoMap && ct !in todo && HasEvents(reportMediaInfoMap[ct])
    }

    method UpdateMaxInsNumberMap(ct: CallType)
      modifies this`mediaMaxInstanceNumberMap
      ensures Model() == UpdateMax(old(Model()), ct)
    {
      if ct !in mediaInfoMap || ct !in mediaMaxInstanceNumberMap {
        return;
      }
      var infoMap := RefreshLengths(mediaMaxInstanceNumberMap[ct], mediaInfoMap[ct]);
      mediaMaxInstanceNumberMap := mediaMaxInstanceNumberMap[ct := infoMap];
    }

    /** Its two loops: known uids get the length of their list, then those without a list are removed. */
    static method RefreshLengths(before: map<int, int>, lists: map<int, seq<Entry>>) returns (infoMap: map<int, int>)
      ensures infoMap == Refresh(before, lists)
    {
      infoMap := before;
      var todo := infoMap.Keys;
      var keysToRemove := {};
      while todo != {}
        invariant infoMap.Keys == before.Keys && todo <= before.Keys
        invariant forall uid :: uid in before && uid !in todo && uid in lists ==> infoMap[uid] == Int32(|lists[uid]|)
        invariant forall uid :: uid in keysToRemove <==> uid in before && uid !in todo && uid !in lists
        decreases |todo|
      {
        var uid := Pick(todo);
        todo := todo - {uid};
        if uid in lists {
          infoMap := infoMap[uid := Int32(|lists[uid]|)];
        } else {
          infoMap := infoMap[uid := 0];
          keysToRemove := keysToRemove + {uid};
        }
      }
      RefreshIs(before, lists, infoMap, keysToRemove);
      infoMap := infoMap - keysToRemove;
    }

    /** The sizes of the lists of one call type. */
    static method CountUids(m: map<int, seq<Entry>>) returns (n: nat)
      ensures n == Sum(UidWeights(m, One()))
    {
      n := 0;
      var rest := m;
      while rest != map[]
        invariant n + Sum(UidWeights(rest, One())) == Sum(UidWeights(m, One()))
        decreases |rest|
      {
        var uid := Pick(rest.Keys);
        SumRemove(UidWeights(rest, One()), uid);
        WeightOne(rest[uid]);
        assert UidWeights(rest - {uid}, One()) == UidWeights(rest, One()) - {uid};
        n := n + |rest[uid]|;
        rest := rest - {uid};
      }
    }

    static method CountLists(m: Lists) returns (n: nat)
      ensures n == Weigh(m, One())
    {
      n := 0;
      var rest := m;
      while rest != map[]
        invariant n + Weigh(rest, One()) == Weigh(m, One())
        decreases |rest|
      {
        var ct := Pick(rest.Keys);
        var k := CountUids(rest[ct]);
        SumRemove(TypeWeights(rest, One()), ct);
        assert TypeWeights(rest - {ct}, One()) == TypeWeights(rest, One()) - {ct};
        n := n + k;
        rest := rest - {ct};
      }
    }

    /** The instances in the live and the report lists. */
    method GetMediaInfoContainInstanceNum() returns (n: nat)
      ensures n == Weigh(mediaInfoMap, One()) + Weigh(reportMediaInfoMap, One())
    {
      var live := CountLists(mediaInfoMap);
      var report := CountLists(reportMediaInfoMap);
      n := live + report;
    }
  }
}
