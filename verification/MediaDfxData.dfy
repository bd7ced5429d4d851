/** What the entry of an instance holds: for each key the value appended last.
 */
module MediaDfxData {
  import opened Wrappers
  import opened MediaDfxModel
  import opened MediaDfxRuns

  /** The value appended last for the key since the id was made by CreateMediaInfo. */
  function Latest(r: Run, n: nat, id: nat, key: string): Option<string>
    requires n <= |r.events| < |r.states|
  {
    if n == 0 then None else NextLatest(r.states[n - 1], r.events[n - 1], id, key, Latest(r, n - 1, id, key))
  }

  function NextLatest(s: State, e: Event, id: nat, key: string, latest: Option<string>): Option<string> {
    if MakesId(s, e, id) then None
    else if e.Append? && e.id == id && key in e.meta then Some(e.meta[key])
    else latest
  }

  function Lookup(meta: Option<Meta>, key: string): Option<string> {
    if meta.Some? && key in meta.value then Some(meta.value[key]) else None
  }

  predicate ListHolds(list: seq<Entry>, id: nat, key: string, value: Option<string>) {
    exists k :: 0 <= k < |list| && EntryHolds(list[k], id, key, value)
  }

  predicate EntryHolds(e: Entry, id: nat, key: string, value: Option<string>) {
    e.id == id && e.meta.Some? && Lookup(e.meta, key) == value
  }

  /** The entry of the id holds the value for the key. */
  predicate Holds(r: Registry, id: nat, key: string, value: Option<string>) {
    id in r.idMap && ListHolds(ListOf(r.live, r.idMap[id]), id, key, value)
  }

  predicate DistinctIds(list: seq<Entry>) {
    forall i, j :: 0 <= i < j < |list| ==> list[i].id != list[j].id
  }

  lemma FindOnly(list: seq<Entry>, id: nat, i: nat)
    requires i < |list| && list[i].id == id && DistinctIds(list)
    ensures Find(list, id) == i
  {
    if Find(list, id) < i {
      assert false;
    }
  }

  lemma PushHolds(list: seq<Entry>, e: Entry, id: nat, key: string, value: Option<string>)
    requires ListHolds(list, id, key, value) || EntryHolds(e, id, key, value)
    ensures ListHolds(list + [e], id, key, value)
  {
    if EntryHolds(e, id, key, value) {
      assert (list + [e])[|list|] == e;
    } else {
      var k :| 0 <= k < |list| && EntryHolds(list[k], id, key, value);
      assert (list + [e])[k] == list[k];
    }
  }

  lemma MergeHolds(list: seq<Entry>, to: nat, meta: Meta, id: nat, key: string, value: Option<string>)
    requires DistinctIds(list) && ListHolds(list, id, key, value)
    requires Find(list, to) < |list| && list[Find(list, to)].meta.Some?
    ensures var k := Find(list, to);
            ListHolds(list[k := list[k].(meta := Some(list[k].meta.value + meta))], id, key,
                      if id == to && key in meta then Some(meta[key]) else value)
  {
    var k := Find(list, to);
    var i :| 0 <= i < |list| && EntryHolds(list[i], id, key, value);
    FindOnly(list, id, i);
    var list1 := list[k := list[k].(meta := Some(list[k].meta.value + meta))];
    assert EntryHolds(list1[i], id, key, if id == to && key in meta then Some(meta[key]) else value);
  }

  lemma DropHolds(list: seq<Entry>, k: nat, id: nat, key: string, value: Option<string>)
    requires k < |list| && list[k].id != id && ListHolds(list, id, key, value)
    ensures ListHolds(list[..k] + list[k + 1..], id, key, value)
  {
    var i :| 0 <= i < |list| && EntryHolds(list[i], id, key, value);
    assert (list[..k] + list[k + 1..])[if i < k then i else i - 1] == list[i];
  }

  lemma CreateHolds(r: Registry, o: Owner, made: nat, id: nat, key: string, value: Option<string>)
    requires made !in r.idMap
    requires if id == made then value == None else Holds(r, id, key, value)
    ensures Holds(CreateSection(r, o, made).0, id, key, value)
  {
    var e := Entry(made, Some(r.created), Some(map[]));
    var list := ListOf(r.live, o);
    ListOfSetList(r.live, o, list + [e], if id == made then o else r.idMap[id]);
    if id == made || r.idMap[id] == o {
      PushHolds(list, e, id, key, value);
    }
  }

  /** An append to the id finds its entry. */
  lemma AppendFinds(r: Registry, to: nat, id: nat, key: string, value: Option<string>)
    requires IndexInv(r) && Holds(r, id, key, value) && to in r.idMap
    ensures DistinctIds(ListOf(r.live, r.idMap[id]))
    ensures id == to ==>
              var list := ListOf(r.live, r.idMap[id]);
              Has(r.live, r.idMap[id]) && Find(list, id) < |list| && list[Find(list, id)].meta.Some?
  {
    var list := ListOf(r.live, r.idMap[id]);
    assert ListOk(r, r.idMap[id]);
    var i :| 0 <= i < |list| && EntryHolds(list[i], id, key, value);
    FindOnly(list, id, i);
  }

  lemma AppendHolds(r: Registry, to: nat, meta: Meta, id: nat, key: string, value: Option<string>)
    requires IndexInv(r) && Holds(r, id, key, value)
    ensures Holds(AppendSection(r, to, meta).0, id, key, if id == to && key in meta then Some(meta[key]) else value)
  {
    if to in r.idMap && meta != map[] {
      AppendFinds(r, to, id, key, value);
      var o, o1 := r.idMap[to], r.idMap[id];
      var list := ListOf(r.live, o);
      var k := Find(list, to);
      if k < |list| && list[k].meta.Some? && Has(r.live, o) {
        ListOfSetList(r.live, o, list[k := list[k].(meta := Some(list[k].meta.value + meta))], o1);
        if o == o1 {
          MergeHolds(list, to, meta, id, key, value);
        }
      }
    }
  }

  lemma TakeHolds(r: Registry, taken: nat, id: nat, key: string, value: Option<string>)
    requires IndexInv(r) && id != taken && Holds(r, id, key, value)
    ensures Holds(TakeSection(r, taken).0, id, key, value)
  {
    TakeEffect(r, taken);
    if taken in r.made {
      var o := r.idMap[taken];
      var list := ListOf(r.live, o);
      var k := Find(list, taken);
      ListOfSetList(r.live, o, list[..k] + list[k + 1..], r.idMap[id]);
      if r.idMap[id] == o {
        DropHolds(list, k, id, key, value);
      }
    }
  }

  lemma ValidateHolds(r: Registry, o: Owner, validated: nat, id: nat, key: string, value: Option<string>)
    requires Holds(r, id, key, value)
    ensures Holds(ValidateSection(r, o, validated).0, id, key, value)
  {
  }

  predicate MakesId(s: State, e: Event, id: nat) {
    e.Create? && e.id == id && id !in s.reg.idMap
  }

  lemma MadeBefore(s: State, e: Event, id: nat)
    requires Enabled(s, e) && IndexInv(s.reg) && id in Next(s, e).reg.made
    ensures MakesId(s, e, id) || (id in s.reg.made && !Collects(e, id))
  {
    if e.Take? {
      TakeEffect(s.reg, e.id);
    }
  }

  lemma StepHolds(s: State, e: Event, id: nat, key: string, value: Option<string>)
    requires Enabled(s, e) && IndexInv(s.reg)
    requires if MakesId(s, e, id) then true else Holds(s.reg, id, key, value) && !Collects(e, id)
    ensures Holds(Next(s, e).reg, id, key, NextLatest(s, e, id, key, value))
  {
    match e
    case Create(o, made) =>
      if made !in s.reg.idMap {
        CreateHolds(s.reg, o, made, id, key, if id == made then None else value);
      }
    case Append(to, meta) => AppendHolds(s.reg, to, meta, id, key, value);
    case Take(_, taken) => TakeHolds(s.reg, taken, id, key, value);
    case Validate(o, validated) => ValidateHolds(s.reg, o, validated, id, key, value);
    case _ => assert Next(s, e).reg.live == s.reg.live;
  }

  lemma StepHoldsAt(r: Run, n: nat, id: nat, key: string, value: Option<string>)
    requires IsRun(r) && n < |r.events| && id in r.states[n + 1].reg.made
    requires id in r.states[n].reg.made ==> Holds(r.states[n].reg, id, key, value)
    ensures Holds(r.states[n + 1].reg, id, key, NextLatest(r.states[n], r.events[n], id, key, value))
  {
    assert StepAt(r, n);
    assert IndexInv(r.states[n].reg) by { Reachable(r, n, One()); }
    MadeBefore(r.states[n], r.events[n], id);
    StepHolds(r.states[n], r.events[n], id, key, value);
  }

  lemma {:induction false} RunHolds(r: Run, n: nat, id: nat, key: string)
    requires IsRun(r) && n < |r.states| && id in r.states[n].reg.made
    ensures Holds(r.states[n].reg, id, key, Latest(r, n, id, key))
  {
    if n > 0 {
      if id in r.states[n - 1].reg.made {
        RunHolds(r, n - 1, id, key);
      }
      StepHoldsAt(r, n - 1, id, key, Latest(r, n - 1, id, key));
    }
  }

  /** In every run the pair a collection takes for an id made by CreateMediaInfo holds, for every key, the value
      appended last since then, and no other keys. */
  lemma CollectedIsLatest(r: Run, n: nat, key: string)
    requires IsRun(r) && n < |r.events| && r.events[n].Take? && r.events[n].id in r.states[n].reg.made
    ensures var c, id := r.events[n].caller, r.events[n].id;
            && c in r.states[n + 1].taken && r.states[n + 1].taken[c].1.id == id
            && r.states[n + 1].taken[c].1.meta.Some?
            && Lookup(r.states[n + 1].taken[c].1.meta, key) == Latest(r, n, id, key)
  {
    var reg, id := r.states[n].reg, r.events[n].id;
    assert StepAt(r, n);
    Reachable(r, n, One());
    RunHolds(r, n, id, key);
    TakeEffect(reg, id);
    var o := reg.idMap[id];
    var list := ListOf(reg.live, o);
    assert ListOk(reg, o);
    var k :| 0 <= k < |list| && EntryHolds(list[k], id, key, Latest(r, n, id, key));
    FindOnly(list, id, k);
  }

  /** AppendMediaInfo answers Ok exactly for some data, a registered id and an owner that ever had an entry; an
      unknown id is an invalid value, unless there is no data. */
  lemma AppendAnswers(r: Run, n: nat, id: nat, meta: Meta)
    requires IsRun(r) && n < |r.states|
    ensures var reg := r.states[n].reg;
            var code := AppendSection(reg, id, meta).1;
            && (code == Ok <==> meta != map[] && id in reg.idMap && EverCreated(r, n, reg.idMap[id]))
            && (code == InvalidVal <==> meta != map[] && id !in reg.idMap)
  {
    var reg := r.states[n].reg;
    if id in reg.idMap {
      CreatedMeans(r, n, reg.idMap[id]);
    }
  }

  /** CreatePlaybackInfo and its kind: exactly an id that is free or belongs to the owner already is accepted, and
      afterwards belongs to the owner; no other id changes hands, no entry is made. */
  lemma ValidateAnswers(r: Registry, o: Owner, id: nat, id1: nat)
    ensures var (r1, code) := ValidateSection(r, o, id);
            && (code == Ok <==> (id in r.idMap ==> r.idMap[id] == o))
            && (code != Ok ==> code == InvalidVal && r1 == r)
            && (code == Ok ==> id in r1.idMap && r1.idMap[id] == o)
            && (id1 in r1.idMap <==> id1 in r.idMap || id1 == id)
            && (id1 in r.idMap ==> r1.idMap[id1] == r.idMap[id1])
            && r1.live == r.live && r1.made == r.made
  {
  }
}
