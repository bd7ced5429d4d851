/** Interleavings of the registry's locked sections by any number of callers. A collection is under
    way between its section under `collectMut_` and its section under `reportMut_`.
 */
module MediaDfxRuns {
  import opened Wrappers
  import opened Sums
  import opened MediaDfxModel

  datatype State = State(
    reg: Registry,
    taken: map<nat, (Owner, Entry)>,   // by caller: what it carries between its two sections
    flushed: seq<Lists>,               // the report lists sent so far
    madeTags: seq<Tag>,                // every entry CreateMediaInfo made, in order
    phantoms: seq<Tag>)                // the pairs pushed by collections that found no entry

  datatype Event =
    | Create(o: Owner, id: nat)
    | SetMax(o: Owner, n: int)         // GetMaxInstanceNumber
    | Validate(o: Owner, id: nat)
    | Append(id: nat, meta: Meta)
    | Take(caller: nat, id: nat)
    | Put(caller: nat)
    | Tail(fourHours: bool)
    | UpdateMaxCall(ct: CallType)

  predicate Enabled(s: State, e: Event) {
    match e
    case Take(c, _) => c !in s.taken
    case Put(c) => c in s.taken
    case _ => true
  }

  function Next(s: State, e: Event): State
    requires Enabled(s, e)
  {
    match e
    case Create(o, id) =>
      var (r, n) := CreateSection(s.reg, o, id);
      if n.None? then s
      else s.(reg := r, madeTags := s.madeTags + [Tag(id, Some(s.reg.created))])
    case SetMax(o, n) => s.(reg := s.reg.(max := RecordMax(s.reg.max, o, n)))
    case Validate(o, id) => s.(reg := ValidateSection(s.reg, o, id).0)
    case Append(id, meta) => s.(reg := AppendSection(s.reg, id, meta).0)
    case Take(c, id) =>
      var (r, found) := TakeSection(s.reg, id);
      if found.None? then s.(reg := r)
      else
        s.(reg := r, taken := s.taken[c := found.value],
           phantoms := s.phantoms + if found.value.1 == NO_ENTRY then [TagOf(NO_ENTRY)] else [])
    case Put(c) =>
      s.(reg := PutSection(s.reg, s.taken[c].0, s.taken[c].1), taken := s.taken - {c})
    case Tail(fourHours) =>
      s.(reg := TailSection(s.reg, fourHours),
         flushed := s.flushed + if Flushes(s.reg, fourHours) then [s.reg.report] else [])
    case UpdateMaxCall(ct) => s.(reg := UpdateMax(s.reg, ct))
  }

  datatype Run = Run(states: seq<State>, events: seq<Event>)

  predicate StepAt(r: Run, i: nat)
    requires i < |r.events| < |r.states|
  {
    Enabled(r.states[i], r.events[i]) && r.states[i + 1] == Next(r.states[i], r.events[i])
  }

  ghost predicate IsRun(r: Run) {
    && |r.states| == |r.events| + 1
    && r.states[0] == State(MediaDfxModel.Initial(), map[], [], [], [])
    && forall i :: 0 <= i < |r.events| ==> StepAt(r, i)
  }

  // ----- the owner index and the live lists agree -----

  predicate EntryOk(r: Registry, o: Owner, e: Entry) {
    && e.id in r.made && e.id in r.idMap && r.idMap[e.id] == o
    && e.serial.Some? && e.serial.value < r.created && e.meta.Some?
  }

  predicate ListOk(r: Registry, o: Owner) {
    var list := ListOf(r.live, o);
    && (forall i :: 0 <= i < |list| ==> EntryOk(r, o, list[i]))
    && (forall i, j :: 0 <= i < j < |list| ==> list[i].id != list[j].id)
  }

  /** The entry of an id is in the list of its owner. */
  predicate Listed(r: Registry, id: nat) {
    id in r.idMap && Find(ListOf(r.live, r.idMap[id]), id) < |ListOf(r.live, r.idMap[id])|
  }

  ghost predicate IndexInv(r: Registry) {
    && (forall o :: ListOk(r, o))
    && (forall id :: id in r.made ==> Listed(r, id))
  }

  lemma FindPresent(list: seq<Entry>, id: nat, i: nat)
    requires i < |list| && list[i].id == id
    ensures Find(list, id) < |list|
  {
  }

  /** Removing an entry whose id is unique removes just that one. */
  lemma {:induction false} RemoveUnique(list: seq<Entry>, k: nat)
    requires k < |list| && forall i, j :: 0 <= i < j < |list| ==> list[i].id != list[j].id
    ensures Remove(list, list[k]) == list[..k] + list[k + 1..]
  {
    if k == 0 {
      RemoveAbsent(list[1..], list[0]);
    } else {
      RemoveUnique(list[1..], k - 1);
      assert list[..k] == [list[0]] + list[1..][..k - 1];
    }
  }

  lemma {:induction false} RemoveAbsent(list: seq<Entry>, e: Entry)
    requires e !in list
    ensures Remove(list, e) == list
  {
    if list != [] {
      RemoveAbsent(list[1..], e);
    }
  }

  lemma CreateKeepsIndex(r: Registry, o: Owner, id: nat)
    requires IndexInv(r)
    ensures IndexInv(CreateSection(r, o, id).0)
  {
    var (r1, n) := CreateSection(r, o, id);
    if n.Some? {
      var e := Entry(id, Some(r.created), Some(map[]));
      forall o1 ensures ListOk(r1, o1) {
        ListOfSetList(r.live, o, ListOf(r.live, o) + [e], o1);
        assert ListOk(r, o1);
      }
      forall x | x in r1.made ensures Listed(r1, x) {
        var o1 := r1.idMap[x];
        ListOfSetList(r.live, o, ListOf(r.live, o) + [e], o1);
        var list := ListOf(r1.live, o1);
        if x == id {
          FindPresent(list, id, |list| - 1);
        } else {
          assert Listed(r, x);
          FindPresent(list, x, Find(ListOf(r.live, o1), x));
        }
      }
    }
  }

  lemma ValidateKeepsIndex(r: Registry, o: Owner, id: nat)
    requires IndexInv(r)
    ensures IndexInv(ValidateSection(r, o, id).0)
  {
    var r1 := ValidateSection(r, o, id).0;
    forall o1 ensures ListOk(r1, o1) { assert ListOk(r, o1); }
    forall x | x in r1.made ensures Listed(r1, x) { assert Listed(r, x); }
  }

  lemma AppendKeepsIndex(r: Registry, id: nat, meta: Meta)
    requires IndexInv(r)
    ensures IndexInv(AppendSection(r, id, meta).0)
  {
    var r1 := AppendSection(r, id, meta).0;
    if r1 != r {
      var o := r.idMap[id];
      var list := ListOf(r.live, o);
      var list1 := ListOf(r1.live, o);
      ListOfSetList(r.live, o, list1, o);
      assert forall i :: 0 <= i < |list| ==> list1[i].id == list[i].id && list1[i].serial == list[i].serial;
      forall o1 ensures ListOk(r1, o1) {
        ListOfSetList(r.live, o, list1, o1);
        assert ListOk(r, o1);
      }
      forall x | x in r1.made ensures Listed(r1, x) {
        assert Listed(r, x);
        ListOfSetList(r.live, o, list1, r.idMap[x]);
        FindPresent(ListOf(r1.live, r.idMap[x]), x, Find(ListOf(r.live, r.idMap[x]), x));
      }
    }
  }

  /** What a collection does to the lists: the entry of an id made by CreateMediaInfo leaves the list of
      its owner, and nothing else changes; a collection of any other id changes no list, and carries the
      empty pair exactly if the id is registered and its owner has a list. */
  lemma TakeEffect(r: Registry, id: nat)
    requires IndexInv(r)
    ensures var (r1, found) := TakeSection(r, id);
            && (id in r.made ==>
                  && id in r.idMap && found.Some? && found.value.0 == r.idMap[id]
                  && var list := ListOf(r.live, r.idMap[id]);
                     var k := Find(list, id);
                     && k < |list| && found.value.1 == list[k]
                     && r1.live == SetList(r.live, r.idMap[id], list[..k] + list[k + 1..]))
            && (id !in r.made ==>
                  && r1.live == r.live
                  && (found.Some? <==> id in r.idMap && Has(r.live, r.idMap[id]))
                  && (found.Some? ==> found.value == (r.idMap[id], NO_ENTRY)))
            && id !in r1.idMap && r1.made == r.made - {id}
  {
    if id in r.idMap {
      var o := r.idMap[id];
      var list := ListOf(r.live, o);
      var k := Find(list, id);
      assert ListOk(r, o);
      if id in r.made {
        assert Listed(r, id);
        RemoveUnique(list, k);
      } else {
        assert forall i :: 0 <= i < |list| ==> EntryOk(r, o, list[i]);
      }
    } else {
      assert id in r.made ==> Listed(r, id);
    }
  }

  lemma TakeKeepsIndex(r: Registry, id: nat)
    requires IndexInv(r)
    ensures IndexInv(TakeSection(r, id).0)
  {
    TakeEffect(r, id);
    if id in r.made {
      TakeMadeKeepsIndex(r, id);
    } else {
      var r1 := TakeSection(r, id).0;
      forall o1 ensures ListOk(r1, o1) {
        assert ListOk(r, o1);
        SameListOk(r, r1, o1, id);
      }
      forall x | x in r1.made ensures Listed(r1, x) { assert Listed(r, x); }
    }
  }

  lemma TakeMadeKeepsIndex(r: Registry, id: nat)
    requires IndexInv(r) && id in r.made
    ensures IndexInv(TakeSection(r, id).0)
  {
    var r1 := TakeSection(r, id).0;
    TakeEffect(r, id);
    var o := r.idMap[id];
    var list := ListOf(r.live, o);
    var k := Find(list, id);
    var list1 := list[..k] + list[k + 1..];
    forall o1 ensures ListOf(r1.live, o1) == if o1 == o then list1 else ListOf(r.live, o1) {
      ListOfSetList(r.live, o, list1, o1);
    }
    forall o1 ensures ListOk(r1, o1) {
      assert ListOk(r, o1);
      if o1 == o { DroppedListOk(r, r1, o, id, k); } else { SameListOk(r, r1, o1, id); }
    }
    forall x | x in r1.made ensures Listed(r1, x) {
      assert Listed(r, x);
      if r.idMap[x] == o {
        var i := Find(list, x);
        FindPresent(list1, x, if i < k then i else i - 1);
      }
    }
  }

  lemma SameListOk(r: Registry, r1: Registry, o: Owner, id: nat)
    requires ListOk(r, o) && r1.idMap == r.idMap - {id} && r1.made == r.made - {id} && r1.created == r.created
    requires ListOf(r1.live, o) == ListOf(r.live, o)
    requires id in r.made ==> id in r.idMap && r.idMap[id] != o
    ensures ListOk(r1, o)
  {
    var list := ListOf(r.live, o);
    forall i | 0 <= i < |list| ensures EntryOk(r1, o, list[i]) {
      assert EntryOk(r, o, list[i]);
    }
  }

  lemma DroppedListOk(r: Registry, r1: Registry, o: Owner, id: nat, k: nat)
    requires ListOk(r, o) && r1.idMap == r.idMap - {id} && r1.made == r.made - {id} && r1.created == r.created
    requires k < |ListOf(r.live, o)| && ListOf(r.live, o)[k].id == id
    requires ListOf(r1.live, o) == ListOf(r.live, o)[..k] + ListOf(r.live, o)[k + 1..]
    ensures ListOk(r1, o)
  {
    var list, list1 := ListOf(r.live, o), ListOf(r1.live, o);
    assert forall i :: 0 <= i < |list1| ==> list1[i] == list[if i < k then i else i + 1];
    forall i | 0 <= i < |list1| ensures EntryOk(r1, o, list1[i]) {
      assert EntryOk(r, o, list[if i < k then i else i + 1]);
    }
    forall i, j | 0 <= i < j < |list1| ensures list1[i].id != list1[j].id {
      assert list[if i < k then i else i + 1].id != list[if j < k then j else j + 1].id;
    }
  }

  lemma NextKeepsIndex(s: State, e: Event)
    requires Enabled(s, e) && IndexInv(s.reg)
    ensures IndexInv(Next(s, e).reg)
  {
    match e
    case Create(o, id) => CreateKeepsIndex(s.reg, o, id);
    case Validate(o, id) => ValidateKeepsIndex(s.reg, o, id);
    case Append(id, meta) => AppendKeepsIndex(s.reg, id, meta);
    case Take(_, id) => TakeKeepsIndex(s.reg, id);
    case _ => SameIndex(s.reg, Next(s, e).reg);
  }

  lemma SameIndex(r: Registry, r1: Registry)
    requires IndexInv(r)
    requires r1.idMap == r.idMap && r1.live == r.live && r1.created == r.created && r1.made == r.made
    ensures IndexInv(r1)
  {
    forall o ensures ListOk(r1, o) { assert ListOk(r, o); }
    forall id | id in r1.made ensures Listed(r1, id) { assert Listed(r, id); }
  }

  // ----- no entry is lost or duplicated -----

  function TagsWeight(tags: seq<Tag>, f: Weight): nat {
    if tags == [] then 0 else TagsWeight(tags[..|tags| - 1], f) + f(tags[|tags| - 1])
  }

  ghost function SentWeight(sent: seq<Lists>, f: Weight): nat {
    if sent == [] then 0 else SentWeight(sent[..|sent| - 1], f) + Weigh(sent[|sent| - 1], f)
  }

  /** The weight of the entries in flight between the two sections of a collection. */
  ghost function FlightWeight(taken: map<nat, (Owner, Entry)>, f: Weight): nat {
    Sum(TakenWeights(taken, f))
  }

  ghost function TakenWeights(taken: map<nat, (Owner, Entry)>, f: Weight): map<nat, nat> {
    map c | c in taken :: f(TagOf(taken[c].1))
  }

  /** Whatever the entries weigh, those that were made or pushed as phantoms weigh as much as those
      now live, in flight, pending in the report or sent. */
  ghost predicate Balanced(s: State, f: Weight) {
    Weigh(s.reg.live, f) + FlightWeight(s.taken, f) + Weigh(s.reg.report, f) + SentWeight(s.flushed, f)
      == TagsWeight(s.madeTags, f) + TagsWeight(s.phantoms, f)
  }

  predicate Numbered(s: State) {
    && |s.madeTags| == s.reg.created
    && (forall k :: 0 <= k < |s.madeTags| ==> s.madeTags[k].serial == Some(k))
    && (forall k :: 0 <= k < |s.phantoms| ==> s.phantoms[k] == TagOf(NO_ENTRY))
  }

  lemma TagsWeightPush(tags: seq<Tag>, t: Tag, f: Weight)
    ensures TagsWeight(tags + [t], f) == TagsWeight(tags, f) + f(t)
  {
    assert (tags + [t])[..|tags|] == tags;
  }

  lemma CreateBalances(s: State, o: Owner, id: nat, f: Weight)
    requires Balanced(s, f)
    ensures Balanced(Next(s, Create(o, id)), f)
  {
    var e := Entry(id, Some(s.reg.created), Some(map[]));
    WeighPush(s.reg.live, o, e, f);
    TagsWeightPush(s.madeTags, TagOf(e), f);
  }

  lemma AppendBalances(s: State, id: nat, meta: Meta, f: Weight)
    requires Balanced(s, f)
    ensures Balanced(Next(s, Append(id, meta)), f)
  {
    var r, r1 := s.reg, Next(s, Append(id, meta)).reg;
    if r1 != r {
      var list := ListOf(r.live, r.idMap[id]);
      var k := Find(list, id);
      WeighReplace(r.live, r.idMap[id], k, list[k].(meta := Some(list[k].meta.value + meta)), f);
    }
  }

  lemma FlightAdds(taken: map<nat, (Owner, Entry)>, c: nat, x: (Owner, Entry), f: Weight)
    requires c !in taken
    ensures FlightWeight(taken[c := x], f) == FlightWeight(taken, f) + f(TagOf(x.1))
  {
    SumUpdate(TakenWeights(taken, f), c, f(TagOf(x.1)));
    assert TakenWeights(taken[c := x], f) == TakenWeights(taken, f)[c := f(TagOf(x.1))];
  }

  /** The weight of what a collection takes is what the live lists lose, or that of a phantom. */
  lemma TakeWeight(r: Registry, id: nat, f: Weight)
    requires IndexInv(r)
    ensures var (r1, found) := TakeSection(r, id);
            && r1.report == r.report
            && (id in r.made ==> found.Some? && found.value.1 != NO_ENTRY)
            && (id in r.made ==> Weigh(r1.live, f) + f(TagOf(found.value.1)) == Weigh(r.live, f))
            && (id !in r.made ==> Weigh(r1.live, f) == Weigh(r.live, f))
            && (id !in r.made && found.Some? ==> found.value.1 == NO_ENTRY)
  {
    TakeEffect(r, id);
    if id in r.made {
      var o := r.idMap[id];
      var k := Find(ListOf(r.live, o), id);
      WeighDrop(r.live, o, k, f);
      assert ListOk(r, o);
      assert EntryOk(r, o, ListOf(r.live, o)[k]);
    }
  }

  lemma TakeBalances(s: State, c: nat, id: nat, f: Weight)
    requires Balanced(s, f) && IndexInv(s.reg) && c !in s.taken
    ensures Balanced(Next(s, Take(c, id)), f)
  {
    var s1 := Next(s, Take(c, id));
    var found := TakeSection(s.reg, id).1;
    TakeWeight(s.reg, id, f);
    if found.Some? {
      FlightAdds(s.taken, c, found.value, f);
      assert s1.taken == s.taken[c := found.value];
      if id in s.reg.made {
        assert s1.phantoms == s.phantoms + [] == s.phantoms;
      } else {
        TagsWeightPush(s.phantoms, TagOf(NO_ENTRY), f);
        assert s1.phantoms == s.phantoms + [TagOf(NO_ENTRY)];
      }
    }
  }

  lemma PutBalances(s: State, c: nat, f: Weight)
    requires Balanced(s, f) && c in s.taken
    ensures Balanced(Next(s, Put(c)), f)
  {
    var s1 := Next(s, Put(c));
    var (o, e) := s.taken[c];
    WeighPush(s.reg.report, o, e, f);
    SumRemove(TakenWeights(s.taken, f), c);
    assert TakenWeights(s.taken, f) - {c} == TakenWeights(s1.taken, f);
  }

  lemma SentWeightPush(sent: seq<Lists>, m: Lists, f: Weight)
    ensures SentWeight(sent + [m], f) == SentWeight(sent, f) + Weigh(m, f)
  {
    assert (sent + [m])[..|sent|] == sent;
  }

  lemma TailEffect(s: State, fourHours: bool)
    ensures var s1 := Next(s, Tail(fourHours));
            && s1.reg.live == s.reg.live && s1.taken == s.taken
            && s1.madeTags == s.madeTags && s1.phantoms == s.phantoms
            && if Flushes(s.reg, fourHours)
               then s1.reg.report == map[] && s1.flushed == s.flushed + [s.reg.report]
               else s1.reg.report == s.reg.report && s1.flushed == s.flushed
  {
  }

  lemma FlushBalances(s: State, s1: State, f: Weight)
    requires Balanced(s, f)
    requires s1.reg.live == s.reg.live && s1.taken == s.taken
    requires s1.madeTags == s.madeTags && s1.phantoms == s.phantoms
    requires s1.reg.report == map[] && s1.flushed == s.flushed + [s.reg.report]
    ensures Balanced(s1, f)
  {
    SentWeightPush(s.flushed, s.reg.report, f);
    WeighEmpty(f);
  }

  lemma TailBalances(s: State, fourHours: bool, f: Weight)
    requires Balanced(s, f)
    ensures Balanced(Next(s, Tail(fourHours)), f)
  {
    TailEffect(s, fourHours);
    if Flushes(s.reg, fourHours) {
      FlushBalances(s, Next(s, Tail(fourHours)), f);
    }
  }

  lemma NextBalances(s: State, e: Event, f: Weight)
    requires Enabled(s, e) && Balanced(s, f) && IndexInv(s.reg)
    ensures Balanced(Next(s, e), f)
  {
    match e
    case Create(o, id) => CreateBalances(s, o, id, f);
    case Append(id, meta) => AppendBalances(s, id, meta, f);
    case Take(c, id) => TakeBalances(s, c, id, f);
    case Put(c) => PutBalances(s, c, f);
    case Tail(fourHours) => TailBalances(s, fourHours, f);
    case _ =>
  }

  lemma NextNumbered(s: State, e: Event)
    requires Enabled(s, e) && Numbered(s)
    ensures Numbered(Next(s, e))
  {
  }

  lemma {:induction false} Reachable(r: Run, n: nat, f: Weight)
    requires IsRun(r) && n < |r.states|
    ensures IndexInv(r.states[n].reg) && Balanced(r.states[n], f) && Numbered(r.states[n])
  {
    if n > 0 {
      assert StepAt(r, n - 1);
      Reachable(r, n - 1, f);
      NextKeepsIndex(r.states[n - 1], r.events[n - 1]);
      NextBalances(r.states[n - 1], r.events[n - 1], f);
      NextNumbered(r.states[n - 1], r.events[n - 1]);
    } else {
      WeighEmpty(f);
      assert TakenWeights(map[], f) == map[];
    }
  }

  lemma {:induction false} OccursOnce(tags: seq<Tag>, k: nat)
    requires k < |tags| && forall i :: 0 <= i < |tags| ==> tags[i].serial == Some(i)
    ensures TagsWeight(tags, Is(tags[k])) == 1
  {
    var n := |tags| - 1;
    if k == n {
      OccursNever(tags[..n], tags[k]);
    } else {
      OccursOnce(tags[..n], k);
    }
  }

  lemma {:induction false} OccursNever(tags: seq<Tag>, t: Tag)
    requires t !in tags
    ensures TagsWeight(tags, Is(t)) == 0
  {
    if tags != [] {
      OccursNever(tags[..|tags| - 1], t);
    }
  }

  // ----- theorems over all runs -----

  /** Every entry CreateMediaInfo ever made is in exactly one place, exactly once: live, in flight,
      pending in the report or sent. */
  lemma EntryConserved(r: Run, n: nat, k: nat)
    requires IsRun(r) && n < |r.states| && k < |r.states[n].madeTags|
    ensures var s := r.states[n];
            var f := Is(s.madeTags[k]);
            Weigh(s.reg.live, f) + FlightWeight(s.taken, f) + Weigh(s.reg.report, f) + SentWeight(s.flushed, f) == 1
  {
    var s := r.states[n];
    var f := Is(s.madeTags[k]);
    Reachable(r, n, f);
    OccursOnce(s.madeTags, k);
    OccursNever(s.phantoms, s.madeTags[k]);
  }

  lemma {:induction false} TagsCount(tags: seq<Tag>)
    ensures TagsWeight(tags, One()) == |tags|
  {
    if tags != [] {
      TagsCount(tags[..|tags| - 1]);
    }
  }

  /** The number of entries anywhere is the number made plus the phantoms; a collection of an id made by
      CreateMediaInfo changes neither. */
  lemma EntriesCounted(r: Run, n: nat)
    requires IsRun(r) && n < |r.states|
    ensures var s := r.states[n];
            && Weigh(s.reg.live, One()) + FlightWeight(s.taken, One()) + Weigh(s.reg.report, One())
               + SentWeight(s.flushed, One()) == s.reg.created + |s.phantoms|
            && (n < |r.events| && r.events[n].Take? && r.events[n].id in s.reg.made ==>
                  r.states[n + 1].phantoms == s.phantoms && r.states[n + 1].reg.created == s.reg.created)
  {
    Reachable(r, n, One());
    TagsCount(r.states[n].madeTags);
    TagsCount(r.states[n].phantoms);
    if n < |r.events| && r.events[n].Take? {
      assert StepAt(r, n);
      TakeEffect(r.states[n].reg, r.events[n].id);
      if r.events[n].id in r.states[n].reg.made {
        assert ListOk(r.states[n].reg, r.states[n].reg.idMap[r.events[n].id]);
      }
    }
  }

  /** The id was registered by CreatePlaybackInfo or its kind, and has not been collected since. */
  ghost predicate OnlyValidated(r: Run, n: nat, id: nat)
    requires n <= |r.events| < |r.states|
  {
    exists k :: 0 <= k < n && r.events[k].Validate? && r.events[k].id == id && id !in r.states[k].reg.idMap &&
                forall j :: k < j < n ==> !Collects(r.events[j], id)
  }

  predicate Collects(e: Event, id: nat) {
    e.Take? && e.id == id
  }

  /** CreateMediaInfo once made an entry for the owner. */
  ghost predicate EverCreated(r: Run, n: nat, o: Owner)
    requires n <= |r.events| < |r.states|
  {
    exists k :: 0 <= k < n && r.events[k].Create? && r.events[k].o == o && r.events[k].id !in r.states[k].reg.idMap
  }

  /** The id is registered without an entry. */
  predicate Bare(r: Registry, id: nat) {
    id in r.idMap && id !in r.made
  }

  lemma TakeBare(r: Registry, taken: nat, id: nat)
    ensures Bare(TakeSection(r, taken).0, id) <==> Bare(r, id) && id != taken
  {
    var r1 := TakeSection(r, taken).0;
    assert taken in r.idMap ==> r1.idMap == r.idMap - {taken} && r1.made == r.made - {taken};
    assert taken !in r.idMap ==> r1 == r;
  }

  lemma CreateBare(r: Registry, o: Owner, made: nat, id: nat)
    requires IndexInv(r)
    ensures Bare(CreateSection(r, o, made).0, id) <==> Bare(r, id)
  {
  }

  lemma ValidateBare(r: Registry, o: Owner, validated: nat, id: nat)
    requires IndexInv(r)
    ensures Bare(ValidateSection(r, o, validated).0, id) <==> (id == validated && id !in r.idMap) || Bare(r, id)
  {
    assert id in r.made ==> Listed(r, id);
  }

  /** Which ids are registered without an entry after a step. */
  lemma StepValidated(s: State, e: Event, id: nat)
    requires Enabled(s, e) && IndexInv(s.reg)
    ensures Bare(Next(s, e).reg, id) <==>
            (e.Validate? && e.id == id && id !in s.reg.idMap) || (Bare(s.reg, id) && !Collects(e, id))
  {
    match e
    case Create(o, made) => CreateBare(s.reg, o, made, id);
    case Validate(o, validated) => ValidateBare(s.reg, o, validated, id);
    case Take(_, taken) => TakeBare(s.reg, taken, id);
    case _ =>
      var r1 := Next(s, e).reg;
      assert r1.idMap == s.reg.idMap && r1.made == s.reg.made;
  }

  lemma {:induction false} ValidatedMeans(r: Run, n: nat, id: nat)
    requires IsRun(r) && n < |r.states|
    ensures OnlyValidated(r, n, id) <==> Bare(r.states[n].reg, id)
  {
    if n > 0 {
      ValidatedMeans(r, n - 1, id);
      ValidatedStep(r, n, id);
      assert StepAt(r, n - 1);
      StepValidated(r.states[n - 1], r.events[n - 1], id) by { Reachable(r, n - 1, One()); }
    }
  }

  lemma ValidatedStep(r: Run, n: nat, id: nat)
    requires 0 < n <= |r.events| < |r.states|
    ensures var s, e := r.states[n - 1], r.events[n - 1];
            OnlyValidated(r, n, id) <==>
            (e.Validate? && e.id == id && id !in s.reg.idMap) || (OnlyValidated(r, n - 1, id) && !Collects(e, id))
  {
    if OnlyValidated(r, n - 1, id) && !Collects(r.events[n - 1], id) {
      var k :| 0 <= k < n - 1 && r.events[k].Validate? && r.events[k].id == id && id !in r.states[k].reg.idMap &&
               forall j :: k < j < n - 1 ==> !Collects(r.events[j], id);
      assert forall j :: k < j < n ==> !Collects(r.events[j], id);
    }
  }

  /** Which owners have a list after a step. */
  lemma StepCreated(s: State, e: Event, o: Owner)
    requires Enabled(s, e)
    ensures Has(Next(s, e).reg.live, o) <==>
            Has(s.reg.live, o) || (e.Create? && e.o == o && e.id !in s.reg.idMap)
  {
    match e
    case Create(o1, id) =>
      ListOfSetList(s.reg.live, o1, ListOf(s.reg.live, o1) + [Entry(id, Some(s.reg.created), Some(map[]))], o);
    case Append(id, meta) => AppendKeepsOwners(s.reg, id, meta, o);
    case Take(_, id) => TakeKeepsOwners(s.reg, id, o);
    case _ => assert Next(s, e).reg.live == s.reg.live;
  }

  lemma AppendKeepsOwners(r: Registry, id: nat, meta: Meta, o: Owner)
    ensures Has(AppendSection(r, id, meta).0.live, o) <==> Has(r.live, o)
  {
    var r1 := AppendSection(r, id, meta).0;
    if r1 != r {
      ListOfSetList(r.live, r.idMap[id], ListOf(r1.live, r.idMap[id]), o);
    }
  }

  lemma TakeKeepsOwners(r: Registry, id: nat, o: Owner)
    ensures Has(TakeSection(r, id).0.live, o) <==> Has(r.live, o)
  {
    if id in r.idMap && Has(r.live, r.idMap[id]) {
      var list := ListOf(r.live, r.idMap[id]);
      var k := Find(list, id);
      if k < |list| {
        ListOfSetList(r.live, r.idMap[id], Remove(list, list[k]), o);
      }
    }
  }

  lemma {:induction false} CreatedMeans(r: Run, n: nat, o: Owner)
    requires IsRun(r) && n < |r.states|
    ensures EverCreated(r, n, o) <==> Has(r.states[n].reg.live, o)
  {
    if n > 0 {
      CreatedMeans(r, n - 1, o);
      StepCreated(r.states[n - 1], r.events[n - 1], o) by { assert StepAt(r, n - 1); }
      assert r.states[n] == Next(r.states[n - 1], r.events[n - 1]) by { assert StepAt(r, n - 1); }
    }
  }

  /** A collection pushes an empty pair exactly if the id was registered only by CreatePlaybackInfo or its
      kind and its owner has ever had an entry; otherwise it pushes none. */
  lemma PhantomIff(r: Run, n: nat)
    requires IsRun(r) && n < |r.events| && r.events[n].Take?
    ensures var s, id := r.states[n], r.events[n].id;
            if OnlyValidated(r, n, id) && id in s.reg.idMap && EverCreated(r, n, s.reg.idMap[id])
            then r.states[n + 1].phantoms == s.phantoms + [TagOf(NO_ENTRY)]
            else r.states[n + 1].phantoms == s.phantoms
  {
    assert StepAt(r, n);
    Reachable(r, n, One());
    var reg, id := r.states[n].reg, r.events[n].id;
    TakeEffect(reg, id);
    ValidatedMeans(r, n, id);
    if id in reg.idMap {
      CreatedMeans(r, n, reg.idMap[id]);
    }
    if id in reg.made {
      assert ListOk(reg, reg.idMap[id]);
    }
  }

  lemma BeforePhantom(o: Owner) returns (r: Run)
    ensures IsRun(r) && r.events == [Create(o, 1), Validate(o, 2)]
    ensures var s := r.states[2];
            && s.taken == map[] && s.reg.report == map[] && s.phantoms == []
            && s.reg.idMap == map[1 := o, 2 := o] && Has(s.reg.live, o)
            && ListOf(s.reg.live, o) == [Entry(1, Some(0), Some(map[]))]
  {
    var s0 := State(MediaDfxModel.Initial(), map[], [], [], []);
    var s1 := Next(s0, Create(o, 1));
    var s2 := Next(s1, Validate(o, 2));
    r := Run([s0, s1, s2], [Create(o, 1), Validate(o, 2)]);
    forall i | 0 <= i < 2 ensures StepAt(r, i) {
    }
  }

  lemma PhantomTaken(s: State, o: Owner)
    requires s.taken == map[] && 2 in s.reg.idMap && s.reg.idMap[2] == o && Has(s.reg.live, o)
    requires Find(ListOf(s.reg.live, o), 2) == |ListOf(s.reg.live, o)|
    ensures var s1 := Next(s, Take(0, 2));
            && s1.taken == map[0 := (o, NO_ENTRY)] && s1.reg.report == s.reg.report
            && s1.phantoms == s.phantoms + [TagOf(NO_ENTRY)]
  {
  }

  lemma Extend(r: Run, e: Event) returns (r1: Run)
    requires IsRun(r) && Enabled(r.states[|r.events|], e)
    ensures IsRun(r1) && r1.events == r.events + [e]
    ensures r1.states[|r1.events|] == Next(r.states[|r.events|], e)
  {
    r1 := Run(r.states + [Next(r.states[|r.events|], e)], r.events + [e]);
    forall i | 0 <= i < |r1.events| ensures StepAt(r1, i) {
      assert i < |r.events| ==> StepAt(r, i);
    }
  }

  /** Such a collection: the report holds a pair with id 0 and no data. */
  lemma PhantomReported(o: Owner) returns (r: Run)
    ensures IsRun(r) && r.events == [Create(o, 1), Validate(o, 2), Take(0, 2), Put(0)]
    ensures ListOf(r.states[4].reg.report, o) == [Entry(0, None, None)] && r.states[4].phantoms == [Tag(0, None)]
  {
    r := BeforePhantom(o);
    var s2 := r.states[2];
    PhantomTaken(s2, o);
    r := Extend(r, Take(0, 2));
    CollectPuts(r.states[3], 0, o);
    assert ListOf(s2.reg.report, o) == [];
    r := Extend(r, Put(0));
  }

  /** An instance id occurs at most once over all live lists, and only in the list of its owner; the
      ids that occur are exactly those CreateMediaInfo registered and no collection has taken. */
  lemma IdsUnique(r: Run, n: nat, o: Owner, i: nat, o1: Owner, j: nat)
    requires IsRun(r) && n < |r.states|
    requires i < |ListOf(r.states[n].reg.live, o)| && j < |ListOf(r.states[n].reg.live, o1)|
    ensures var reg := r.states[n].reg;
            var id := ListOf(reg.live, o)[i].id;
            && id in reg.idMap && reg.idMap[id] == o && id in reg.made
            && (ListOf(reg.live, o1)[j].id == id ==> o1 == o && j == i)
  {
    Reachable(r, n, One());
    var reg := r.states[n].reg;
    assert ListOk(reg, o) && ListOk(reg, o1);
    assert EntryOk(reg, o, ListOf(reg.live, o)[i]) && EntryOk(reg, o1, ListOf(reg.live, o1)[j]);
  }

  /** The owner of a registered id does not change before it is collected. */
  lemma {:induction false} OwnerFixed(r: Run, m: nat, n: nat, id: nat)
    requires IsRun(r) && m <= n < |r.states| && id in r.states[m].reg.idMap
    requires forall k :: m <= k < n ==> !(r.events[k].Take? && r.events[k].id == id)
    ensures id in r.states[n].reg.idMap && r.states[n].reg.idMap[id] == r.states[m].reg.idMap[id]
  {
    if m < n {
      assert StepAt(r, n - 1);
      OwnerFixed(r, m, n - 1, id);
    }
  }

  /** The first section of a collection of a registered id: its one entry, with all its data, leaves
      the list of its owner; no other list changes. */
  lemma CollectTakes(r: Run, n: nat, o1: Owner) returns (k: nat)
    requires IsRun(r) && n < |r.events| && r.events[n].Take? && r.events[n].id in r.states[n].reg.made
    ensures var (s, s1, c, id) := (r.states[n], r.states[n + 1], r.events[n].caller, r.events[n].id);
            && id in s.reg.idMap
            && var o := s.reg.idMap[id];
               var list := ListOf(s.reg.live, o);
               && k < |list| && list[k].id == id
               && c in s1.taken && s1.taken[c] == (o, list[k])
               && ListOf(s1.reg.live, o) == list[..k] + list[k + 1..]
               && (o1 != o ==> ListOf(s1.reg.live, o1) == ListOf(s.reg.live, o1))
               && s1.reg.report == s.reg.report
  {
    assert StepAt(r, n);
    Reachable(r, n, One());
    var reg, id := r.states[n].reg, r.events[n].id;
    TakeEffect(reg, id);
    var o := reg.idMap[id];
    var list := ListOf(reg.live, o);
    k := Find(list, id);
    ListOfSetList(reg.live, o, list[..k] + list[k + 1..], o1);
    ListOfSetList(reg.live, o, list[..k] + list[k + 1..], o);
  }

  /** The second section: the entry arrives at the end of the report list of the same owner; no other
      list changes. */
  lemma CollectPuts(s: State, c: nat, o1: Owner)
    requires c in s.taken
    ensures var s1 := Next(s, Put(c));
            var (o, e) := s.taken[c];
            && ListOf(s1.reg.report, o) == ListOf(s.reg.report, o) + [e]
            && (o1 != o ==> ListOf(s1.reg.report, o1) == ListOf(s.reg.report, o1))
            && s1.reg.live == s.reg.live && s1.taken == s.taken - {c}
  {
    ListOfSetList(s.reg.report, s.taken[c].0, ListOf(s.reg.report, s.taken[c].0) + [s.taken[c].1], o1);
  }
}
