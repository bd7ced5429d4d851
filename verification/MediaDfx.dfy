/** The instance registry of services/utils/media_dfx.cpp: the owner index, the lists of live and
    reported media information, and the recorded maximum of instances, with the locked sections of
    the public functions, and the class that implements them.

    `serial` numbers the entries made by CreateMediaInfo and `made` holds the ids it registered; both
    are history. The pair a collection pushes when it finds no entry has id 0 and a null pointer.
 */
module MediaDfxModel {
  import opened Wrappers
  import opened Sums

  datatype CallType =
    | AvPlayer | AvRecorder | MetadataRetriever | ImageGenerater | AvDemuxer | AvMuxer | VideoDecoder
    | VideoEncoder | AudioDecoder | AudioEncoder | SoundPool | ScreenCaptruer | AvTranscoder

  const MAX_MAP_SIZE: nat := 100

  type Meta = map<string, string>
  datatype Entry = Entry(id: nat, serial: Option<nat>, meta: Option<Meta>)
  datatype Owner = Owner(ct: CallType, uid: int)
  type Lists = map<CallType, map<int, seq<Entry>>>
  datatype Code = Ok | InvalidVal | InvalidOperation

  datatype Registry = Registry(
    idMap: map<nat, Owner>,
    live: Lists,
    report: Lists,
    max: map<CallType, map<int, int>>,
    reachMax: bool,
    created: nat,
    made: set<nat>)

  const NO_ENTRY := Entry(0, None, None)

  function Initial(): Registry {
    Registry(map[], map[], map[], map[], false, 0, {})
  }

  predicate Has(m: Lists, o: Owner) {
    o.ct in m && o.uid in m[o.ct]
  }

  function ListOf(m: Lists, o: Owner): seq<Entry> {
    if Has(m, o) then m[o.ct][o.uid] else []
  }

  function Uids(m: Lists, ct: CallType): map<int, seq<Entry>> {
    if ct in m then m[ct] else map[]
  }

  /** `m[ct][uid] = list`, which makes the missing levels. */
  function SetList(m: Lists, o: Owner, list: seq<Entry>): Lists {
    m[o.ct := Uids(m, o.ct)[o.uid := list]]
  }

  function Push(m: Lists, o: Owner, e: Entry): Lists {
    SetList(m, o, ListOf(m, o) + [e])
  }

  lemma ListOfSetList(m: Lists, o: Owner, list: seq<Entry>, o1: Owner)
    ensures ListOf(SetList(m, o, list), o1) == if o1 == o then list else ListOf(m, o1)
    ensures Has(SetList(m, o, list), o1) <==> o1 == o || Has(m, o1)
  {
  }

  /** The position of the first entry with the id. */
  function Find(list: seq<Entry>, id: nat): (k: nat)
    ensures k <= |list|
    ensures forall j :: 0 <= j < k ==> list[j].id != id
    ensures k < |list| ==> list[k].id == id
  {
    if list == [] || list[0].id == id then 0 else 1 + Find(list[1..], id)
  }

  /** `list.remove`: every entry equal to the given one goes. */
  function Remove(list: seq<Entry>, e: Entry): seq<Entry> {
    if list == [] then []
    else (if list[0] == e then [] else [list[0]]) + Remove(list[1..], e)
  }

  // ----- locked sections -----

  /** CreateMediaInfo under `collectMut_`. The number is the length of the list it pushed to. */
  function CreateSection(r: Registry, o: Owner, id: nat): (Registry, Option<nat>) {
    if id in r.idMap then (r, None)
    else
      (r.(idMap := r.idMap[id := o],
          live := Push(r.live, o, Entry(id, Some(r.created), Some(map[]))),
          created := r.created + 1,
          made := r.made + {id}),
       Some(|ListOf(r.live, o)| + 1))
  }

  /** A conversion to a 32-bit signed integer. */
  function Int32(n: nat): int {
    var m := n % 0x1_0000_0000;
    if m < 0x8000_0000 then m else m - 0x1_0000_0000
  }

  /** GetMaxInstanceNumber. */
  function RecordMax(m: map<CallType, map<int, int>>, o: Owner, n: int): map<CallType, map<int, int>> {
    var inner: map<int, int> := if o.ct in m then m[o.ct] else map[];
    m[o.ct := inner[o.uid := if o.uid in inner && inner[o.uid] >= n then inner[o.uid] else n]]
  }

  /** ValidateOrAddInstanceId, the part of CreatePlaybackInfo, CreateStallingInfo and CreatePlayErrInfo
      that touches the registry. */
  function ValidateSection(r: Registry, o: Owner, id: nat): (Registry, Code) {
    if id !in r.idMap then (r.(idMap := r.idMap[id := o]), Ok)
    else if r.idMap[id] != o then (r, InvalidVal)
    else (r, Ok)
  }

  /** AppendMediaInfo; the null pointer is treated like the empty one. */
  function AppendSection(r: Registry, id: nat, meta: Meta): (Registry, Code) {
    if meta == map[] then (r, InvalidOperation)
    else if id !in r.idMap then (r, InvalidVal)
    else if !Has(r.live, r.idMap[id]) then (r, InvalidOperation)
    else
      var list := ListOf(r.live, r.idMap[id]);
      var k := Find(list, id);
      if k < |list| && list[k].meta.Some? then
        (r.(live := SetList(r.live, r.idMap[id], list[k := list[k].(meta := Some(list[k].meta.value + meta))])), Ok)
      else (r, Ok)
  }

  /** CollectReportMediaInfo under `collectMut_`: what it carries to the report lists. */
  function TakeSection(r: Registry, id: nat): (Registry, Option<(Owner, Entry)>) {
    if id !in r.idMap then (r, None)
    else
      var o := r.idMap[id];
      var r1 := r.(idMap := r.idMap - {id}, made := r.made - {id});
      if !Has(r.live, o) then (r1, None)
      else
        var list := ListOf(r.live, o);
        var k := Find(list, id);
        if k < |list| then (r1.(live := SetList(r.live, o, Remove(list, list[k]))), Some((o, list[k])))
        else (r1, Some((o, NO_ENTRY)))
  }

  /** CollectReportMediaInfo under `reportMut_`. */
  function PutSection(r: Registry, o: Owner, e: Entry): Registry {
    var report := Push(r.report, o, e);
    r.(report := report, reachMax := |report[o.ct]| >= MAX_MAP_SIZE)
  }

  function Refresh(inner: map<int, int>, lists: map<int, seq<Entry>>): map<int, int> {
    map uid | uid in inner && uid in lists :: Int32(|lists[uid]|)
  }

  /** UpdateMaxInsNumberMap: known uids get the length of their live list, unknown ones are dropped. */
  function UpdateMax(r: Registry, ct: CallType): Registry {
    if ct !in r.live || ct !in r.max then r
    else r.(max := r.max[ct := Refresh(r.max[ct], r.live[ct])])
  }

  predicate Flushes(r: Registry, fourHours: bool) {
    (r.reachMax || fourHours) && r.report != map[]
  }

  /** Some uid has an entry with data to report. */
  predicate HasEvents(uids: map<int, seq<Entry>>) {
    exists uid :: uid in uids && exists i :: 0 <= i < |uids[uid]| && uids[uid][i].meta.Some?
  }

  /** Writing the events looks the maxima of a call type up with `[]`, which makes the missing level. */
  function WriteEvents(max: map<CallType, map<int, int>>, report: Lists): map<CallType, map<int, int>> {
    max + map ct | ct in report && ct !in max && HasEvents(report[ct]) :: map[]
  }

  /** The rest of ReportMediaInfo under `reportMut_`, StatisticsEventReport included. */
  function TailSection(r: Registry, fourHours: bool): Registry {
    var r1 := r.(reachMax := false);
    if Flushes(r, fourHours) then UpdateMax(r1.(max := WriteEvents(r.max, r.report), report := map[]), AvPlayer)
    else r1
  }

  // ----- whole calls, one at a time -----

  function CreateCall(r: Registry, o: Owner, id: nat): Registry {
    var (r1, n) := CreateSection(r, o, id);
    if n.None? then r1 else r1.(max := RecordMax(r1.max, o, Int32(n.value)))
  }

  /** A report after its collection. */
  function AfterTake(r: Registry, found: Option<(Owner, Entry)>, fourHours: bool): Registry {
    if found.None? then r else TailSection(PutSection(r, found.value.0, found.value.1), fourHours)
  }

  function ReportCall(r: Registry, id: nat, fourHours: bool): (Registry, Code) {
    var (r1, found) := TakeSection(r, id);
    if found.None? then (r1, InvalidOperation)
    else
      var r2 := PutSection(r1, found.value.0, found.value.1);
      (AfterTake(r1, found, fourHours),
       if (r2.reachMax || fourHours) && r2.report == map[] then InvalidOperation else Ok)
  }

  // ----- weighing the entries in the lists -----

  datatype Tag = Tag(id: nat, serial: Option<nat>)

  /** A weight for each entry. Weight one counts the entries, the weight of a tag its occurrences. */
  type Weight = Tag -> nat

  function One(): Weight {
    (t: Tag) => 1
  }

  function Is(tag: Tag): Weight {
    (t: Tag) => if t == tag then 1 else 0
  }

  function TagOf(e: Entry): Tag {
    Tag(e.id, e.serial)
  }

  function ListWeight(list: seq<Entry>, f: Weight): nat {
    if list == [] then 0 else f(TagOf(list[0])) + ListWeight(list[1..], f)
  }

  ghost function UidWeights(m: map<int, seq<Entry>>, f: Weight): map<int, nat> {
    map uid | uid in m :: ListWeight(m[uid], f)
  }

  ghost function TypeWeights(m: Lists, f: Weight): map<CallType, nat> {
    map ct | ct in m :: Sum(UidWeights(m[ct], f))
  }

  /** The weight of all the entries in a set of lists. */
  ghost function Weigh(m: Lists, f: Weight): nat {
    Sum(TypeWeights(m, f))
  }

  lemma UidWeightsSet(m: map<int, seq<Entry>>, uid: int, list: seq<Entry>, f: Weight)
    ensures UidWeights(m[uid := list], f) == UidWeights(m, f)[uid := ListWeight(list, f)]
  {
  }

  lemma TypeWeightsSet(m: Lists, ct: CallType, uids: map<int, seq<Entry>>, f: Weight)
    ensures TypeWeights(m[ct := uids], f) == TypeWeights(m, f)[ct := Sum(UidWeights(uids, f))]
  {
  }

  /** Replacing one list replaces its weight in the weight of all of them. */
  lemma WeighSetList(m: Lists, o: Owner, list: seq<Entry>, f: Weight)
    ensures Weigh(SetList(m, o, list), f) + ListWeight(ListOf(m, o), f) == Weigh(m, f) + ListWeight(list, f)
  {
    var uids := Uids(m, o.ct);
    var before := if o.ct in m then TypeWeights(m, f)[o.ct] else 0;
    var after := Sum(UidWeights(uids[o.uid := list], f));
    assert after + ListWeight(ListOf(m, o), f) == before + ListWeight(list, f) by {
      assert UidWeights(uids, f) == map[] || o.ct in m;
      SumUpdate(UidWeights(uids, f), o.uid, ListWeight(list, f));
      UidWeightsSet(uids, o.uid, list, f);
    }
    assert Weigh(SetList(m, o, list), f) + before == Weigh(m, f) + after by {
      SumUpdate(TypeWeights(m, f), o.ct, after);
      TypeWeightsSet(m, o.ct, uids[o.uid := list], f);
    }
  }

  lemma {:induction false} WeightConcat(a: seq<Entry>, b: seq<Entry>, f: Weight)
    ensures ListWeight(a + b, f) == ListWeight(a, f) + ListWeight(b, f)
  {
    if a == [] {
      assert a + b == b;
    } else {
      WeightConcat(a[1..], b, f);
      assert (a + b)[1..] == a[1..] + b;
    }
  }

  /** The weight of a list, taken apart at `k`. */
  lemma WeightSplit(list: seq<Entry>, k: nat, f: Weight)
    requires k < |list|
    ensures ListWeight(list, f) == ListWeight(list[..k], f) + f(TagOf(list[k])) + ListWeight(list[k + 1..], f)
  {
    WeightConcat(list[..k], list[k..], f);
    assert list == list[..k] + list[k..];
  }

  lemma {:induction false} WeightOne(list: seq<Entry>)
    ensures ListWeight(list, One()) == |list|
  {
    if list != [] {
      WeightOne(list[1..]);
    }
  }

  lemma WeighPush(m: Lists, o: Owner, e: Entry, f: Weight)
    ensures Weigh(Push(m, o, e), f) == Weigh(m, f) + f(TagOf(e))
  {
    WeighSetList(m, o, ListOf(m, o) + [e], f);
    WeightConcat(ListOf(m, o), [e], f);
  }

  lemma WeighDrop(m: Lists, o: Owner, k: nat, f: Weight)
    requires k < |ListOf(m, o)|
    ensures var list := ListOf(m, o);
            Weigh(SetList(m, o, list[..k] + list[k + 1..]), f) + f(TagOf(list[k])) == Weigh(m, f)
  {
    var list := ListOf(m, o);
    WeighSetList(m, o, list[..k] + list[k + 1..], f);
    WeightConcat(list[..k], list[k + 1..], f);
    WeightSplit(list, k, f);
  }

  lemma WeighReplace(m: Lists, o: Owner, k: nat, e: Entry, f: Weight)
    requires k < |ListOf(m, o)| && TagOf(e) == TagOf(ListOf(m, o)[k])
    ensures Weigh(SetList(m, o, ListOf(m, o)[k := e]), f) == Weigh(m, f)
  {
    var list := ListOf(m, o);
    WeighSetList(m, o, list[k := e], f);
    WeightSplit(list, k, f);
    WeightSplit(list[k := e], k, f);
    assert list[k := e][..k] == list[..k] && list[k := e][k + 1..] == list[k + 1..];
  }

  lemma WeighEmpty(f: Weight)
    ensures Weigh(map[], f) == 0
  {
    assert TypeWeights(map[], f) == map[];
  }
}
