/** When the report lists are sent, and what is sent: over interleaved sections and over whole calls.
 */
module MediaDfxReports {
  import opened Wrappers
  import opened MediaDfxModel
  import opened MediaDfxRuns

  /** The latest second section of a collection left its call type with 100 uids or more, and no report has
      looked since. */
  predicate FullNoted(r: Run, n: nat)
    requires n <= |r.events| < |r.states|
  {
    n > 0 && !r.events[n - 1].Tail? &&
    if r.events[n - 1].Put? then LeavesFull(r, n - 1) else FullNoted(r, n - 1)
  }

  predicate LeavesFull(r: Run, i: nat)
    requires i < |r.events| < |r.states|
  {
    r.events[i].Put? &&
    var c := r.events[i].caller;
    c in r.states[i].taken && |Uids(r.states[i + 1].reg.report, r.states[i].taken[c].0.ct)| >= 100
  }

  lemma {:induction false} FlagMeans(r: Run, n: nat)
    requires IsRun(r) && n < |r.states|
    ensures r.states[n].reg.reachMax <==> FullNoted(r, n)
  {
    if n > 0 {
      assert StepAt(r, n - 1);
      FlagMeans(r, n - 1);
    }
  }

  /** The end of a report sends all that was collected since the lists were last sent, and empties the lists,
      if and only if four hours have passed or the latest collection filled up its call type and no report has
      looked since, and there is something to send; otherwise it changes and sends nothing. */
  lemma TailSends(r: Run, n: nat)
    requires IsRun(r) && n < |r.events| && r.events[n].Tail?
    ensures var s, s1 := r.states[n], r.states[n + 1];
            if (r.events[n].fourHours || FullNoted(r, n)) && s.reg.report != map[] then
              s1.reg.report == map[] && s1.flushed == s.flushed + [s.reg.report]
            else
              s1.reg.report == s.reg.report && s1.flushed == s.flushed
  {
    assert StepAt(r, n);
    FlagMeans(r, n);
  }

  /** Nothing else sends, and nothing but collections changes the report lists. */
  lemma OnlyTailSends(r: Run, n: nat)
    requires IsRun(r) && n < |r.events| && !r.events[n].Tail?
    ensures r.states[n + 1].flushed == r.states[n].flushed
    ensures !r.events[n].Put? ==> r.states[n + 1].reg.report == r.states[n].reg.report
  {
    assert StepAt(r, n);
  }

  /** A ReportMediaInfo that collected something and whose sections follow each other: the lists with the new
      pair are sent, just these, and emptied, if and only if four hours have passed or the call type of the
      pair then has 100 uids or more; otherwise the report lists gain just the pair and nothing is sent. */
  lemma ReportSends(r: Run, n: nat, c: nat, id: nat, fourHours: bool)
    requires IsRun(r) && n + 2 < |r.events| && c in r.states[n + 1].taken
    requires r.events[n] == Take(c, id) && r.events[n + 1] == Put(c) && r.events[n + 2] == Tail(fourHours)
    ensures var s, s3 := r.states[n], r.states[n + 3];
            var (o, e) := r.states[n + 1].taken[c];
            var full := Push(s.reg.report, o, e);
            if fourHours || |full[o.ct]| >= 100 then s3.reg.report == map[] && s3.flushed == s.flushed + [full]
            else s3.reg.report == full && s3.flushed == s.flushed
  {
    assert StepAt(r, n) && StepAt(r, n + 1);
    OnlyTailSends(r, n);
    OnlyTailSends(r, n + 1);
    TailSends(r, n + 2);
  }

  /** Some entry with data of the call type is in the lists. */
  ghost predicate DataFor(m: Lists, ct: CallType) {
    exists uid, k :: 0 <= k < |ListOf(m, Owner(ct, uid))| && ListOf(m, Owner(ct, uid))[k].meta.Some?
  }

  lemma DataIsEvents(m: Lists, ct: CallType)
    ensures DataFor(m, ct) <==> ct in m && HasEvents(m[ct])
  {
    if DataFor(m, ct) {
      var uid, k :| 0 <= k < |ListOf(m, Owner(ct, uid))| && ListOf(m, Owner(ct, uid))[k].meta.Some?;
      assert uid in m[ct] && m[ct][uid][k].meta.Some?;
    }
    if ct in m && HasEvents(m[ct]) {
      var uid :| uid in m[ct] && exists k :: 0 <= k < |m[ct][uid]| && m[ct][uid][k].meta.Some?;
      var k :| 0 <= k < |m[ct][uid]| && m[ct][uid][k].meta.Some?;
      assert ListOf(m, Owner(ct, uid))[k].meta.Some?;
    }
  }

  /** A report that is sent gives a level of recorded maxima to exactly those call types of which it sends an
      entry with data; one that is not sent leaves the maxima alone. Those of other call types than players
      never change. */
  lemma SentLevels(r: Run, n: nat, ct: CallType)
    requires IsRun(r) && n < |r.events| && r.events[n].Tail?
    ensures var s, s1 := r.states[n], r.states[n + 1];
            && (s1.flushed == s.flushed ==> s1.reg.max == s.reg.max)
            && (s1.flushed != s.flushed ==> (ct in s1.reg.max <==> ct in s.reg.max || DataFor(s.reg.report, ct)))
            && (ct != AvPlayer && ct in s.reg.max ==> ct in s1.reg.max && s1.reg.max[ct] == s.reg.max[ct])
  {
    assert StepAt(r, n);
    var s := r.states[n];
    DataIsEvents(s.reg.report, ct);
    TailEffect(s, r.events[n].fourHours);
  }
}
