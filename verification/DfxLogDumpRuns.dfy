/** Runs of the log dump: any interleaving of producers, the probe that enables the log, the request to
    exit and the writing thread, whose file opens may fail.
 */
module DfxLogDumpRuns {
  import opened DfxLogDumpModel

  datatype Pc = Top | Waiting | Writing(batch: seq<string>, count: nat) | Exited

  /** A batch the thread took and whether its file could be opened. */
  datatype Batch = Batch(entries: seq<string>, isOpen: bool)

  /** `accepted`, `batches` and `gens` are history: the entries accepted, the batches dealt with, and
      the contents given to each file in the order the files were begun. */
  datatype State = State(
    l: Log,
    pc: Pc,
    accepted: seq<string>,
    batches: seq<Batch>,
    gens: seq<seq<string>>)

  datatype Event =
    | SaveCall(entry: string)
    | Probe(enable: bool)
    | RequestExit
    | ThreadWait
    | ThreadSwap
    | ThreadWrite(isOpen: bool)
    | ThreadExit

  predicate Enabled(s: State, e: Event) {
    match e
    case Probe(_) => s.pc.Waiting?
    case ThreadWait => s.pc.Top? && !s.l.isExit
    case ThreadSwap => s.pc.Waiting?
    case ThreadWrite(_) => s.pc.Writing?
    case ThreadExit => s.pc.Top? && s.l.isExit
    case _ => true
  }

  function NextGens(s: State, batch: seq<string>): seq<seq<string>> {
    if s.l.isNewFile || s.gens == [] then s.gens + [batch]
    else s.gens[..|s.gens| - 1] + [s.gens[|s.gens| - 1] + batch]
  }

  function Next(s: State, e: Event): State
    requires Enabled(s, e)
  {
    match e
    case SaveCall(entry) =>
      s.(l := Save(s.l, entry), accepted := if s.l.isEnable then s.accepted + [entry] else s.accepted)
    case Probe(enable) => s.(l := s.l.(isEnable := enable))
    case RequestExit => s.(l := s.l.(isExit := true))
    case ThreadWait => s.(pc := Waiting)
    case ThreadSwap => s.(l := Swap(s.l), pc := Writing(s.l.pending, s.l.lineCount))
    case ThreadWrite(isOpen) =>
      s.(l := Write(s.l, s.pc.batch, s.pc.count, isOpen), pc := Top,
         batches := s.batches + [Batch(s.pc.batch, isOpen)],
         gens := if isOpen then NextGens(s, s.pc.batch) else s.gens)
    case ThreadExit => s.(pc := Exited)
  }

  datatype Run = Run(states: seq<State>, events: seq<Event>)

  predicate StepAt(r: Run, i: nat)
    requires i < |r.events| < |r.states|
  {
    Enabled(r.states[i], r.events[i]) && r.states[i + 1] == Next(r.states[i], r.events[i])
  }

  ghost predicate IsRun(r: Run) {
    && |r.states| == |r.events| + 1 && r.states[0] == State(Initial(), Top, [], [], [])
    && forall i :: 0 <= i < |r.events| ==> StepAt(r, i)
  }

  // ----- where the entries are -----

  function InFlight(s: State): seq<string> {
    if s.pc.Writing? then s.pc.batch else []
  }

  /** The entries of all batches, and of those whose file was opened. */
  function Dealt(batches: seq<Batch>): seq<string> {
    if batches == [] then [] else Dealt(batches[..|batches| - 1]) + batches[|batches| - 1].entries
  }

  function Written(batches: seq<Batch>): seq<string> {
    if batches == [] then []
    else
      Written(batches[..|batches| - 1])
      + if batches[|batches| - 1].isOpen then batches[|batches| - 1].entries else []
  }

  predicate Accounted(s: State) {
    s.accepted == Dealt(s.batches) + InFlight(s) + s.l.pending
  }

  lemma DealtPush(batches: seq<Batch>, b: Batch)
    ensures Dealt(batches + [b]) == Dealt(batches) + b.entries
    ensures Written(batches + [b]) == Written(batches) + if b.isOpen then b.entries else []
  {
    assert (batches + [b])[..|batches|] == batches;
  }

  lemma NextAccounted(s: State, e: Event)
    requires Enabled(s, e) && Accounted(s)
    ensures Accounted(Next(s, e))
  {
    var before := Dealt(s.batches);
    match e
    case SaveCall(entry) =>
      assert before + InFlight(s) + s.l.pending + [entry] == before + InFlight(s) + (s.l.pending + [entry]);
    case ThreadWrite(isOpen) =>
      DealtPush(s.batches, Batch(s.pc.batch, isOpen));
      assert before + s.pc.batch + [] == before + s.pc.batch;
    case ThreadSwap =>
      assert before + [] == before;
    case _ =>
  }

  /** The thread ends only after a request to exit. */
  lemma {:induction false} ExitRequested(r: Run, n: nat) returns (k: nat)
    requires IsRun(r) && n < |r.states| && (r.states[n].l.isExit || r.states[n].pc.Exited?)
    ensures k < n && r.events[k].RequestExit?
  {
    assert StepAt(r, n - 1);
    if r.events[n - 1].RequestExit? {
      k := n - 1;
    } else {
      k := ExitRequested(r, n - 1);
    }
  }

  /** The latest probe found the log enabled. */
  predicate LogOn(r: Run, n: nat)
    requires n <= |r.events|
  {
    n > 0 && if r.events[n - 1].Probe? then r.events[n - 1].enable else LogOn(r, n - 1)
  }

  /** The entries saved while the log was on, in order. */
  function SavedWhileOn(r: Run, n: nat): seq<string>
    requires n <= |r.events|
  {
    if n == 0 then []
    else
      SavedWhileOn(r, n - 1) +
      if r.events[n - 1].SaveCall? && LogOn(r, n - 1) then [r.events[n - 1].entry] else []
  }

  /** Exactly the entries saved while the latest probe had found the log enabled are accepted. */
  lemma {:induction false} AcceptedWhileOn(r: Run, n: nat)
    requires IsRun(r) && n < |r.states|
    ensures r.states[n].l.isEnable == LogOn(r, n)
    ensures r.states[n].accepted == SavedWhileOn(r, n)
  {
    if n > 0 {
      assert StepAt(r, n - 1);
      AcceptedWhileOn(r, n - 1);
    }
  }

  /** Order and completeness, whether or not files open: all batches in order, then the batch in
      flight, then the pending text, are exactly the entries accepted, in order. */
  lemma {:induction false} EntriesInOrder(r: Run, n: nat)
    requires IsRun(r) && n < |r.states|
    ensures r.states[n].accepted
         == Dealt(r.states[n].batches) + InFlight(r.states[n]) + r.states[n].l.pending
  {
    if n > 0 {
      assert StepAt(r, n - 1);
      EntriesInOrder(r, n - 1);
      NextAccounted(r.states[n - 1], r.events[n - 1]);
    }
  }

  ghost predicate AllFailedEmpty(batches: seq<Batch>) {
    forall i :: 0 <= i < |batches| && !batches[i].isOpen ==> batches[i].entries == []
  }

  lemma {:induction false} WrittenIsDealt(batches: seq<Batch>)
    ensures |Written(batches)| <= |Dealt(batches)|
    ensures Written(batches) == Dealt(batches) <==> AllFailedEmpty(batches)
    ensures |Written(batches)| == |Dealt(batches)| <==> AllFailedEmpty(batches)
  {
    if batches != [] {
      var n := |batches| - 1;
      WrittenIsDealt(batches[..n]);
      assert AllFailedEmpty(batches) <==>
        AllFailedEmpty(batches[..n]) && (!batches[n].isOpen ==> batches[n].entries == []);
    }
  }

  /** A SaveLog that took effect. */
  predicate SavedAt(r: Run, k: nat)
    requires k < |r.events| < |r.states|
  {
    r.events[k].SaveCall? && r.states[k].l.isEnable
  }

  /** The step after the latest swap among the first `n`, 0 if there was none. */
  function SinceSwap(r: Run, n: nat): (k: nat)
    requires n <= |r.events| < |r.states|
    ensures k <= n && (k > 0 ==> r.events[k - 1].ThreadSwap?)
    ensures forall j :: k <= j < n ==> !r.events[j].ThreadSwap?
  {
    if n == 0 then 0 else if r.events[n - 1].ThreadSwap? then n else SinceSwap(r, n - 1)
  }

  /** The pending text is empty exactly if nothing was saved since the latest swap. */
  lemma {:induction false} PendingSinceSwap(r: Run, n: nat)
    requires IsRun(r) && n < |r.states|
    ensures r.states[n].l.pending == [] <==> forall k :: SinceSwap(r, n) <= k < n ==> !SavedAt(r, k)
  {
    if n > 0 {
      assert StepAt(r, n - 1);
      PendingSinceSwap(r, n - 1);
      if !r.events[n - 1].ThreadSwap? {
        assert SavedAt(r, n - 1) ==> r.states[n].l.pending != [];
      }
    }
  }

  /** While the thread lives, nothing accepted is lost exactly when every batch whose file could not be
      opened was empty. Once it has exited, everything accepted is in the files exactly when, besides,
      nothing was saved since its latest swap: the thread does not look at the text again before it
      exits. */
  lemma NothingLostIff(r: Run, n: nat)
    requires IsRun(r) && n < |r.states|
    ensures var s := r.states[n];
            && (s.accepted == Written(s.batches) + InFlight(s) + s.l.pending <==> AllFailedEmpty(s.batches))
            && (s.pc.Exited? ==>
                  (s.accepted == Written(s.batches) <==>
                     AllFailedEmpty(s.batches) && forall k :: SinceSwap(r, n) <= k < n ==> !SavedAt(r, k)))
  {
    var s := r.states[n];
    EntriesInOrder(r, n);
    WrittenIsDealt(s.batches);
    PendingSinceSwap(r, n);
  }

  lemma Extend(r: Run, e: Event) returns (r1: Run)
    requires IsRun(r) && Enabled(r.states[|r.events|], e)
    ensures IsRun(r1) && r1.events == r.events + [e]
    ensures r1.states[|r1.events|] == Next(r.states[|r.events|], e)
  {
    r1 := Run(r.states + [Next(r.states[|r.events|], e)], r.events + [e]);
    forall i | 0 <= i < |r1.events| ensures StepAt(r1, i) {
      assert i < |r.events| ==> StepAt(r, i);
    }
  }

  /** An entry lost although every file opened: it was saved while the last batch was being written, and
      the exit came before the next swap. */
  lemma LostByExit() returns (r: Run)
    ensures IsRun(r)
    ensures var s := r.states[|r.events|];
            s.pc.Exited? && s.accepted == ["x"] && Written(s.batches) == [] && AllOpened(s.batches)
  {
    r := Run([State(Initial(), Top, [], [], [])], []);
    r := Extend(r, ThreadWait);
    r := Extend(r, Probe(true));
    r := Extend(r, ThreadSwap);
    r := Extend(r, SaveCall("x"));
    r := Extend(r, RequestExit);
    r := Extend(r, ThreadWrite(true));
    assert r.states[|r.events|].batches == [Batch([], true)];
    r := Extend(r, ThreadExit);
  }

  /** An entry lost although nothing was saved after the last swap: its file did not open. */
  lemma LostByFailedOpen() returns (r: Run)
    ensures IsRun(r)
    ensures var s := r.states[|r.events|];
            s.pc.Exited? && s.accepted == ["x"] && Written(s.batches) == [] && s.l.pending == []
  {
    r := Run([State(Initial(), Top, [], [], [])], []);
    r := Extend(r, ThreadWait);
    r := Extend(r, Probe(true));
    r := Extend(r, SaveCall("x"));
    assert r.states[|r.events|].l.pending == ["x"] == r.states[|r.events|].accepted;
    r := Extend(r, ThreadSwap);
    r := Extend(r, ThreadWrite(false));
    assert r.states[|r.events|].batches == [Batch(["x"], false)];
    r := Extend(r, RequestExit);
    r := Extend(r, ThreadExit);
  }

  // ----- the files -----

  const SLOTS: nat := 101

  /** The file a generation is written to. */
  function Slot(g: nat): nat {
    g % SLOTS
  }

  lemma NextFileSlot(g: nat)
    ensures NextFile(Slot(g)) == Slot(g + 1) && Slot(g) <= FILE_MAX
  {
  }

  lemma SlotsApart(g: nat, h: nat)
    requires g < h < g + SLOTS
    ensures Slot(g) != Slot(h)
  {
    assert h - g == SLOTS * (h / SLOTS - g / SLOTS) + (h % SLOTS - g % SLOTS);
  }

  /** The generation the next write goes to. */
  function Current(s: State): nat {
    if s.l.isNewFile || s.gens == [] then |s.gens| else |s.gens| - 1
  }

  ghost predicate FilesOk(s: State) {
    && (!s.l.isNewFile ==> s.gens != [])
    && s.l.fileCount == Slot(Current(s))
    && forall g :: 0 <= g < |s.gens| && |s.gens| <= g + SLOTS ==>
         Slot(g) in s.l.disk && s.l.disk[Slot(g)] == s.gens[g]
  }

  lemma WriteFilesOk(s: State, isOpen: bool)
    requires FilesOk(s) && s.pc.Writing?
    ensures FilesOk(Next(s, ThreadWrite(isOpen)))
  {
    var s1 := Next(s, ThreadWrite(isOpen));
    if isOpen {
      var c := Current(s);
      NextFileSlot(c);
      assert s1.gens[c] == (if s.l.isNewFile then [] else s.gens[c]) + s.pc.batch;
      forall g | 0 <= g < |s1.gens| && |s1.gens| <= g + SLOTS
        ensures Slot(g) in s1.l.disk && s1.l.disk[Slot(g)] == s1.gens[g]
      {
        if g < c {
          SlotsApart(g, c);
          assert s1.gens[g] == s.gens[g];
        } else {
          assert s1.l.disk[Slot(c)] == s1.gens[c];
        }
      }
    }
  }

  function Concat(gens: seq<seq<string>>): seq<string> {
    if gens == [] then [] else Concat(gens[..|gens| - 1]) + gens[|gens| - 1]
  }

  lemma NextGensConcat(s: State, batch: seq<string>)
    ensures Concat(NextGens(s, batch)) == Concat(s.gens) + batch
  {
    var gens := NextGens(s, batch);
    if s.l.isNewFile || s.gens == [] {
      assert gens[..|s.gens|] == s.gens;
    } else {
      assert gens[..|gens| - 1] == s.gens[..|s.gens| - 1];
    }
  }

  /** The files on disk are the latest 101 generations, complete, in rotating slots; the generations in
      order are everything written. */
  lemma {:induction false} DiskHoldsLatest(r: Run, n: nat)
    requires IsRun(r) && n < |r.states|
    ensures FilesOk(r.states[n])
    ensures Concat(r.states[n].gens) == Written(r.states[n].batches)
    ensures r.states[n].l.fileCount <= FILE_MAX
  {
    if n > 0 {
      assert StepAt(r, n - 1);
      DiskHoldsLatest(r, n - 1);
      var s, e := r.states[n - 1], r.events[n - 1];
      if e.ThreadWrite? {
        WriteFilesOk(s, e.isOpen);
        NextGensConcat(s, s.pc.batch);
        DealtPush(s.batches, Batch(s.pc.batch, e.isOpen));
      }
    }
    NextFileSlot(Current(r.states[n]));
  }

  // ----- the line count and the rotation -----

  /** The entries in the file being filled. */
  function FileLines(s: State): nat {
    if s.l.isNewFile || s.gens == [] then 0 else |s.gens[|s.gens| - 1]|
  }

  predicate Rotating(s: State) {
    s.pc.Writing? && s.pc.count >= FILE_LINE_MAX
  }

  ghost predicate AllOpened(batches: seq<Batch>) {
    forall i :: 0 <= i < |batches| ==> batches[i].isOpen
  }

  ghost predicate CountsOk(s: State) {
    && (s.pc.Writing? ==> s.pc.count == FileLines(s) + |s.pc.batch|)
    && s.l.lineCount == |s.l.pending| + (if Rotating(s) then 0 else FileLines(s) + |InFlight(s)|)
    && FileLines(s) < FILE_LINE_MAX
    && FullFiles(s.gens, Current(s))
  }

  ghost predicate FullFiles(gens: seq<seq<string>>, n: nat) {
    n <= |gens| && forall g :: 0 <= g < n ==> |gens[g]| >= FILE_LINE_MAX
  }

  lemma WriteCountsOk(s: State)
    requires FilesOk(s) && CountsOk(s) && s.pc.Writing?
    ensures CountsOk(Next(s, ThreadWrite(true)))
  {
    var s1 := Next(s, ThreadWrite(true));
    var c := Current(s);
    assert |s1.gens| == c + 1 && |s1.gens[c]| == s.pc.count;
    assert forall g :: 0 <= g < c ==> s1.gens[g] == s.gens[g];
  }

  lemma NextCountsOk(s: State, e: Event)
    requires Enabled(s, e) && FilesOk(s) && CountsOk(s) && e != ThreadWrite(false)
    ensures CountsOk(Next(s, e))
  {
    match e
    case ThreadWrite(_) => WriteCountsOk(s);
    case _ => assert Next(s, e).gens == s.gens && Current(Next(s, e)) == Current(s);
  }

  lemma OpenedBefore(s: State, e: Event)
    requires Enabled(s, e) && AllOpened(Next(s, e).batches)
    ensures AllOpened(s.batches) && e != ThreadWrite(false)
  {
    var batches := Next(s, e).batches;
    assert s.batches <= batches;
    assert forall i :: 0 <= i < |s.batches| ==> s.batches[i] == batches[i];
    assert e.ThreadWrite? ==> batches[|s.batches|].isOpen == e.isOpen;
  }

  /** While files open: outside a rotating batch `lineCount_` is the number of entries in the current
      file, in flight and pending (inside one, of those pending alone); the flush that rotates is
      exactly the one that brings the file to FILE_LINE_MAX entries, so every finished file has at
      least that many and the current one fewer. */
  lemma {:induction false} LineCountExact(r: Run, n: nat)
    requires IsRun(r) && n < |r.states| && AllOpened(r.states[n].batches)
    ensures CountsOk(r.states[n])
  {
    if n > 0 {
      assert StepAt(r, n - 1);
      var s, e := r.states[n - 1], r.events[n - 1];
      OpenedBefore(s, e);
      LineCountExact(r, n - 1);
      DiskHoldsLatest(r, n - 1);
      NextCountsOk(s, e);
    }
  }

  /** A file is left for the next one exactly by a flush after which it holds FILE_LINE_MAX entries. */
  lemma RotatesExactlyWhenFull(r: Run, n: nat)
    requires IsRun(r) && n < |r.events| && r.events[n] == ThreadWrite(true) && AllOpened(r.states[n].batches)
    ensures var s, s1 := r.states[n], r.states[n + 1];
            && s.pc.Writing?
            && (s1.l.fileCount != s.l.fileCount <==> FileLines(s) + |s.pc.batch| >= 50_000)
            && (s1.l.isNewFile <==> FileLines(s) + |s.pc.batch| >= 50_000)
  {
    assert StepAt(r, n);
    LineCountExact(r, n);
    DiskHoldsLatest(r, n);
  }
}
