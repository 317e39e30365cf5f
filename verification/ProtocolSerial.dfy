/** The promises of the append/read protocol over whole runs: snapshot reads, no missed
    conflict, serializability, no spurious conflict, bounded retries, no deadlock. */
module ProtocolSerial {
  import opened Domain
  import opened FileNames
  import opened Sequences
  import opened Log
  import opened IndexedRead
  import opened DecisionModel
  import opened Protocol
  import opened ProtocolSafety
  import opened ProtocolSnapshots

  // ----- running jobs one at a time -----

  /** What a job writes when it runs alone against a log; None when it writes nothing at all. */
  ghost function SerialBatch<S>(job: Job<S>, log: seq<EventRecord>): Option<seq<EventData>> {
    match job
    case AppendJob(batch, condition) =>
      if condition.Some? && Scan(log, condition.value.failIfEventsMatch, From(condition.value.afterSequencePosition)) != []
      then None else Some(batch)
    case ExecuteJob(decision, _) => decision.process(Fold(decision.state, Scan(log, decision.state.query, 0)))
    case ReadJob(_) => None
  }

  /** The log after running the committed jobs one after the other, each to the point it got to
      (short of its whole batch only if it crashed or is still writing). */
  ghost function SerialLog<S>(commits: seq<Commit<S>>): seq<EventRecord> {
    if commits == [] then []
    else
      var log := SerialLog(commits[..|commits| - 1]);
      var c := commits[|commits| - 1];
      var batch := SerialBatch(c.job, log);
      if batch.None? then log else log + Stamp(Take(batch.value, c.kept), |log|, c.stamp)
  }

  // ----- assumptions on the jobs -----

  /** Names come from the vocabulary and no query has a vacuous item. */
  ghost predicate JobOk<S(!new)>(v: Vocabulary, job: Job<S>) {
    match job
    case AppendJob(batch, condition) =>
      && CoversBatch(v, batch)
      && (condition.Some? ==> CoversQuery(v, condition.value.failIfEventsMatch)
                              && NonVacuous(condition.value.failIfEventsMatch))
    case ExecuteJob(decision, maxRetries) =>
      && 1 <= maxRetries
      && CoversQuery(v, decision.state.query) && NonVacuous(decision.state.query)
      && forall state: S :: decision.process(state).Some? ==> CoversBatch(v, decision.process(state).value)
    case ReadJob(query) => CoversQuery(v, query) && NonVacuous(query)
  }

  ghost predicate JobsOk<S(!new)>(v: Vocabulary, procs: map<nat, Process<S>>) {
    forall pid | pid in procs :: JobOk(v, procs[pid].job)
  }

  lemma StepKeepsJobs<S(!new)>(v: Vocabulary, s: State<S>, a: Action)
    requires JobsOk(v, s.procs)
    ensures JobsOk(v, Next(s, a).procs)
  {
    SameJobs(s, a);
  }

  lemma RequestCovered<S(!new)>(v: Vocabulary, job: Job<S>, view: Option<View>)
    requires JobOk(v, job) && RequestOf(job, view).Some?
    ensures CoversBatch(v, RequestOf(job, view).value.batch)
  {
  }

  lemma {:induction false} WrittenCovered<S(!new)>(v: Vocabulary, commits: seq<Commit<S>>)
    requires forall c | c in commits :: CoversBatch(v, c.request.batch)
    ensures CoversLog(v, WrittenLog(commits))
  {
    if commits != [] {
      WrittenCovered(v, commits[..|commits| - 1]);
      var c := commits[|commits| - 1];
      assert c in commits;
      var log := WrittenLog(commits[..|commits| - 1]);
      var block := Stamp(Take(c.request.batch, c.kept), |log|, c.stamp);
      forall r | r in block ensures Covers(v, r.event) {
        var i :| 0 <= i < |block| && block[i] == r;
        assert Take(c.request.batch, c.kept)[i] in c.request.batch;
      }
    }
  }

  lemma LogCovered<S(!new)>(v: Vocabulary, s: State<S>)
    requires Safe(s) && JobsOk(v, s.procs)
    ensures CoversLog(v, WrittenLog(s.commits))
  {
    forall c | c in s.commits ensures CoversBatch(v, c.request.batch) {
      assert EntryOk(s.procs, c);
      RequestCovered(v, c.job, c.view);
    }
    WrittenCovered(v, s.commits);
  }

  // ----- snapshot reads -----

  ghost predicate ViewOk(query: Query, view: View, log: seq<EventRecord>) {
    view.settledAtStart <= view.bound <= |log| && view.seen == Scan(log[..view.bound], query, 0)
  }

  lemma HitsRead(event: DomainEvent, query: Query)
    requires Conjunctive(query)
    ensures (forall i | 0 <= i < |FilesRead(query)| :: FilesRead(query)[i] in FilesOf(event))
            <==> Hits(FilesOf(event), query.items[0])
  {
    var item, files := query.items[0], FilesRead(query);
    var k := |item.eventTypes|;
    if item.eventTypes != [] {
      assert files[0] == FileOfType(item.eventTypes[0]) && item.eventTypes == [item.eventTypes[0]];
    }
    forall i | k <= i < |files| ensures files[i] == FileOfTag(item.tags[i - k]) && item.tags[i - k] in item.tags {}
    forall t | t in item.tags ensures FileOfTag(t) in files {
      var i :| 0 <= i < |item.tags| && item.tags[i] == t;
      assert files[k + i] == FileOfTag(t);
    }
  }

  lemma MeetBelow(log: seq<EventRecord>, files: seq<IndexFile>, got: seq<set<nat>>, bounds: seq<nat>, p: nat)
    requires |files| == |got| == |bounds| > 0
    requires forall i | 0 <= i < |got| :: bounds[i] <= |log| && got[i] == Below(log, files[i], bounds[i])
    ensures Least(bounds) <= |log|
    ensures p in Meet(got) <==>
            p < Least(bounds) && forall i | 0 <= i < |files| :: files[i] in FilesOf(log[p].event)
  {
    var least := Least(bounds);
    var j :| 0 <= j < |bounds| && bounds[j] == least;
    assert forall i | 0 <= i < |bounds| :: bounds[i] in bounds;
    if p in Meet(got) {
      assert p in got[j];
      forall i | 0 <= i < |files| ensures files[i] in FilesOf(log[p].event) { assert p in got[i]; }
    }
    if p < least && forall i | 0 <= i < |files| :: files[i] in FilesOf(log[p].event) {
      forall i | 0 <= i < |got| ensures p in got[i] {}
      assert p in got[0];
    }
  }

  /** Reading the files of a conjunctive query at different times yields a snapshot. */
  lemma FileReadIsSnapshot(
    v: Vocabulary, files: Files, log: seq<EventRecord>, query: Query, pc: Pc, settled: nat)
    requires FilesOk(files, log) && pc.Reading? && Conjunctive(query)
    requires ReadPrefixes(query, pc, log, settled) && |pc.got| == |FilesRead(query)|
    requires AliasFree(v) && CoversLog(v, log) && CoversQuery(v, query)
    ensures pc.lo <= Least(pc.bounds) <= |log|
    ensures Collect(files.events, query, Ascending(Meet(pc.got)), None) == Ok(Scan(log[..Least(pc.bounds)], query, 0))
  {
    var bound := Least(pc.bounds);
    assert bound in pc.bounds;
    var j :| 0 <= j < |pc.bounds| && pc.bounds[j] == bound;
    forall p: nat ensures p in Meet(pc.got) <==> p < bound && Matches(query, log[p]) {
      MeetBelow(log, FilesRead(query), pc.got, pc.bounds, p);
      if p < bound {
        assert log[p] in log;
        FilesTellMatch(v, log[p], query);
      }
    }
    CollectOfMatches(files.events, log, bound, query, Meet(pc.got));
  }

  /** On alias-free names an event matches a conjunctive query exactly if it is in all the files read. */
  lemma FilesTellMatch(v: Vocabulary, r: EventRecord, query: Query)
    requires AliasFree(v) && Covers(v, r.event) && CoversQuery(v, query) && Conjunctive(query)
    ensures (forall i | 0 <= i < |FilesRead(query)| :: FilesRead(query)[i] in FilesOf(r.event)) <==> Matches(query, r)
  {
    var item := query.items[0];
    HitsRead(r.event, query);
    if Hits(FilesOf(r.event), item) { HitsMatch(v, r.event, query, item); }
    if MatchesItem(item, r.event) { MatchesHit(r.event, item); }
    assert query.items == [item];
  }

  /** A read at one instant yields a snapshot too, even while an event is being indexed. */
  lemma AtomicReadIsSnapshot<S>(v: Vocabulary, s: State<S>, log: seq<EventRecord>, query: Query)
    requires FilesOk(s.files, log) && Settled(s.files.index, log, s.settled, InFlight(s))
    requires AliasFree(v) && CoversLog(v, log) && CoversQuery(v, query) && NonVacuous(query)
    ensures s.settled <= AtomicBound(s, query) <= |log|
    ensures ReadResult(s.files, query, None, None, false) == Ok(Scan(log[..AtomicBound(s, query)], query, 0))
  {
    NextIsLength(s.files.events, log);
    if query.items != [] && s.settled in QueryPositions(s.files, query, 0) {
      ResolvedTruly(v, s.files, log, query, s.settled);
    }
    forall p: nat ensures p in QueryPositions(s.files, query, 0) <==> p < AtomicBound(s, query) && Matches(query, log[p]) {
      AtomicPositions(v, s.files, log, s.settled, query, p);
    }
    ReadOfMatches(s.files, log, AtomicBound(s, query), query, None, None, false);
  }

  lemma AtomicPositions(v: Vocabulary, files: Files, log: seq<EventRecord>, settled: nat, query: Query, p: nat)
    requires FilesOk(files, log) && settled <= |log| <= settled + 1 && Complete(files.index, log, settled)
    requires AliasFree(v) && CoversLog(v, log) && CoversQuery(v, query) && NonVacuous(query)
    ensures p in QueryPositions(files, query, 0) <==>
            && p < |log| && Matches(query, log[p])
            && (p < settled || query.items == [] || settled in QueryPositions(files, query, 0))
  {
    if query.items == [] {
      assert p in files.events <==> p < |log|;
    } else if p in QueryPositions(files, query, 0) {
      ResolvedTruly(v, files, log, query, p);
    } else if p < settled && Matches(query, log[p]) {
      ResolvedWhenComplete(files, log, settled, query, p);
    }
  }

  lemma ResolvedWhenComplete(files: Files, log: seq<EventRecord>, n: nat, query: Query, p: nat)
    requires n <= |log| && Complete(files.index, log, n) && NonVacuous(query) && query.items != []
    requires p < n && Matches(query, log[p])
    ensures p in QueryPositions(files, query, 0)
  {
    var item :| item in query.items && MatchesItem(item, log[p].event);
    MatchesHit(log[p].event, item);
    HitsAreIndexed(files.index, log, n, item, p);
  }

  // ----- the invariant behind serializability -----

  ghost predicate ViewsOk<S>(procs: map<nat, Process<S>>, log: seq<EventRecord>) {
    forall pid | pid in procs && procs[pid].view.Some? ::
      IsReader(procs[pid].job) && ViewOk(QueryOf(procs[pid].job), procs[pid].view.value, log)
  }

  /** The conditions a check can be relied on for: those on non-vacuous items while no event is
      half-indexed, those without items always. */
  predicate Reliable(condition: AppendCondition, torn: bool) {
    if torn then condition.failIfEventsMatch == ALL else NonVacuous(condition.failIfEventsMatch)
  }

  ghost predicate EntryUnopposed<S>(c: Commit<S>, log: seq<EventRecord>, torn: bool) {
    c.request.condition.Some? && Reliable(c.request.condition.value, torn) ==>
      Scan(log, c.request.condition.value.failIfEventsMatch, From(c.request.condition.value.afterSequencePosition)) == []
  }

  /** A committed condition had nothing against it at the moment of the commit. */
  ghost predicate Unopposed<S>(commits: seq<Commit<S>>, torn: bool) {
    forall e | 0 <= e < |commits| :: EntryUnopposed(commits[e], LogBefore(commits, e), torn)
  }

  ghost predicate SerialEntry<S>(c: Commit<S>, log: seq<EventRecord>) {
    && SerialBatch(c.job, log) == Some(c.request.batch)
    && (c.job.ExecuteJob? ==> c.view.Some? && c.view.value.seen == Scan(log, c.job.decision.state.query, 0))
  }

  ghost predicate Serial<S>(commits: seq<Commit<S>>) {
    forall e | 0 <= e < |commits| :: SerialEntry(commits[e], LogBefore(commits, e))
  }

  ghost predicate Consistent<S>(s: State<S>) {
    !s.torn ==> ViewsOk(s.procs, WrittenLog(s.commits)) && Serial(s.commits)
  }

  lemma SerialIsWritten<S>(commits: seq<Commit<S>>)
    requires Serial(commits)
    ensures SerialLog(commits) == WrittenLog(commits)
  {
    if commits != [] {
      var front := commits[..|commits| - 1];
      forall e | 0 <= e < |front| ensures SerialEntry(front[e], LogBefore(front, e)) {
        assert front[..e] == commits[..e];
        assert SerialEntry(commits[e], LogBefore(commits, e));
      }
      SerialIsWritten(front);
      assert SerialEntry(commits[|front|], LogBefore(commits, |front|));
    }
  }

  lemma ViewsLonger<S>(procs: map<nat, Process<S>>, log: seq<EventRecord>, longer: seq<EventRecord>)
    requires ViewsOk(procs, log) && log <= longer
    ensures ViewsOk(procs, longer)
  {
    forall pid | pid in procs && procs[pid].view.Some?
      ensures IsReader(procs[pid].job) && ViewOk(QueryOf(procs[pid].job), procs[pid].view.value, longer)
    {
      var bound := procs[pid].view.value.bound;
      assert longer[..bound] == log[..bound];
    }
  }

  /** Without an event in flight the index agrees with the log in full. */
  lemma QuietIndexed<S>(s: State<S>, pid: nat)
    requires Safe(s) && Quiet(s) && !s.torn && pid in s.procs && s.procs[pid].pc.Scanned?
    ensures Indexed(s.files, WrittenLog(s.commits))
  {
    assert s.lock == Some(pid);
  }

  /** What a passed check guarantees: nothing in the log opposes the condition. */
  lemma CheckUnopposed<S>(s: State<S>, pid: nat, condition: AppendCondition)
    requires Safe(s) && Quiet(s) && pid in s.procs && s.procs[pid].pc.Scanned?
    requires Reliable(condition, s.torn) && ReadForCheck(s, Some(condition)) == Ok([])
    ensures Scan(WrittenLog(s.commits), condition.failIfEventsMatch, From(condition.afterSequencePosition)) == []
  {
    if s.torn {
      NothingMissedOfAll(s.files, WrittenLog(s.commits), condition);
    } else {
      QuietIndexed(s, pid);
      NoMissedConflict(s.files, WrittenLog(s.commits), condition);
    }
  }

  /** A passed check commits exactly what the job would write if it ran alone now. */
  lemma PassedCheckIsSerial<S(!new)>(v: Vocabulary, s: State<S>, pid: nat, stamp: nat)
    requires Safe(s) && Quiet(s) && Consistent(s) && JobsOk(v, s.procs) && !s.torn
    requires pid in s.procs && s.procs[pid].pc.Scanned? && RequestOf(s.procs[pid].job, s.procs[pid].view).Some?
    requires ReadForCheck(s, RequestOf(s.procs[pid].job, s.procs[pid].view).value.condition) == Ok([])
    ensures var p := s.procs[pid];
      SerialEntry(Commit(pid, p.job, p.view, RequestOf(p.job, p.view).value, stamp, 0), WrittenLog(s.commits))
  {
    var p, log := s.procs[pid], WrittenLog(s.commits);
    var c := Commit(pid, p.job, p.view, RequestOf(p.job, p.view).value, stamp, 0);
    assert JobOk(v, p.job);
    if c.request.condition.Some? { CheckUnopposed(s, pid, c.request.condition.value); }
    if p.job.ExecuteJob? {
      WrittenNumbered(s.commits);
      assert ViewOk(QueryOf(p.job), p.view.value, log);
      DecisionIsSerial(c, log);
    }
  }

  /** A decision nothing opposes has seen all there is to see. */
  lemma DecisionIsSerial<S>(c: Commit<S>, log: seq<EventRecord>)
    requires c.job.ExecuteJob? && c.view.Some? && RequestOf(c.job, c.view) == Some(c.request)
    requires Numbered(log) && ViewOk(c.job.decision.state.query, c.view.value, log)
    requires c.request.condition.Some?
    requires Scan(log, c.request.condition.value.failIfEventsMatch, From(c.request.condition.value.afterSequencePosition)) == []
    ensures SerialEntry(c, log)
  {
    var projection, view := c.job.decision.state, c.view.value;
    BuildOnScan(projection, log[..view.bound]);
    NothingMissed(log, projection.query, view.bound);
    assert log[..|log|] == log;
    BuildOnScan(projection, log);
  }

  lemma SerialGrows<S>(commits: seq<Commit<S>>, c: Commit<S>)
    requires Serial(commits) && SerialEntry(c, WrittenLog(commits))
    ensures Serial(commits + [c])
  {
    var more := commits + [c];
    WrittenSnoc(commits, c);
    forall e | 0 <= e < |more| ensures SerialEntry(more[e], LogBefore(more, e)) {
      if e < |commits| {
        assert more[..e] == commits[..e];
        assert SerialEntry(commits[e], LogBefore(commits, e));
      }
    }
  }

  lemma SerialKept<S>(commits: seq<Commit<S>>, kept: nat)
    requires Serial(commits) && commits != []
    ensures Serial(commits[|commits| - 1 := commits[|commits| - 1].(kept := kept)])
  {
    var last := |commits| - 1;
    var more := commits[last := commits[last].(kept := kept)];
    forall e | 0 <= e < |more| ensures SerialEntry(more[e], LogBefore(more, e)) {
      assert more[..e] == commits[..e];
      assert SerialEntry(commits[e], LogBefore(commits, e));
    }
  }

  lemma CheckConsistent<S(!new)>(v: Vocabulary, s: State<S>, pid: nat, stamp: nat, t: State<S>)
    requires Safe(s) && Quiet(s) && Consistent(s) && JobsOk(v, s.procs)
    requires pid in s.procs && s.procs[pid].pc.Scanned? && RequestOf(s.procs[pid].job, s.procs[pid].view).Some?
    requires t == DoCheck(s, pid, stamp)
    ensures Consistent(t)
  {
    var p := s.procs[pid];
    var request := RequestOf(p.job, p.view).value;
    CheckSucceeds(s, request.condition);
    if s.torn || ReadForCheck(s, request.condition) != Ok([]) {
      QuietlyConsistent(s, t.(commits := s.commits), pid);
    } else {
      PassedCheckIsSerial(v, s, pid, stamp);
      CommitConsistent(s, t, pid, Commit(pid, p.job, p.view, request, stamp, 0));
    }
  }

  lemma CommitConsistent<S>(s: State<S>, t: State<S>, pid: nat, c: Commit<S>)
    requires Consistent(s) && pid in s.procs && pid in t.procs && t.procs == s.procs[pid := t.procs[pid]]
    requires t.commits == s.commits + [c] && t.procs[pid].job == s.procs[pid].job && t.procs[pid].view == s.procs[pid].view
    requires SerialEntry(c, WrittenLog(s.commits)) && c.kept == 0 && !s.torn
    ensures Consistent(t)
  {
    SerialGrows(s.commits, c);
    EmptyEntry(s.commits, c);
  }

  lemma WriteEventConsistent<S>(s: State<S>, pid: nat)
    requires Safe(s) && Consistent(s) && pid in s.procs && AtEventWrite(s.commits, s.procs[pid].pc)
    ensures Consistent(WriteEvent(s, pid))
  {
    if !s.torn {
      var record := WriteEventGrows(s, pid);
      var t := WriteEvent(s, pid);
      SerialKept(s.commits, s.procs[pid].pc.done + 1);
      assert t.commits == s.commits[|s.commits| - 1 := s.commits[|s.commits| - 1].(kept := s.procs[pid].pc.done + 1)];
      ViewsLonger(s.procs, WrittenLog(s.commits), WrittenLog(t.commits));
      SameViews(s, t, pid, WrittenLog(t.commits));
    }
  }

  lemma SameViews<S>(s: State<S>, t: State<S>, pid: nat, log: seq<EventRecord>)
    requires ViewsOk(s.procs, log) && pid in s.procs && pid in t.procs && t.procs == s.procs[pid := t.procs[pid]]
    requires t.procs[pid].job == s.procs[pid].job && t.procs[pid].view == s.procs[pid].view
    ensures ViewsOk(t.procs, log)
  {
  }

  lemma ReadConsistent<S>(s: State<S>, pid: nat, r: Result<seq<EventRecord>>, bound: nat, lo: nat)
    requires Consistent(s) && pid in s.procs && IsReader(s.procs[pid].job)
    requires !s.torn ==> r.Ok? && ViewOk(QueryOf(s.procs[pid].job), View(r.value, bound, lo), WrittenLog(s.commits))
    ensures Consistent(s.(procs := s.procs[pid := AfterRead(s.procs[pid], r, bound, lo)]))
  {
  }

  lemma AtomicReadConsistent<S(!new)>(v: Vocabulary, s: State<S>, pid: nat)
    requires Safe(s) && Quiet(s) && Consistent(s) && JobsOk(v, s.procs) && AliasFree(v)
    requires pid in s.procs && CanReadAtomically(s.procs[pid])
    ensures Consistent(ReadAtomically(s, pid))
  {
    var query := QueryOf(s.procs[pid].job);
    if !s.torn {
      LogCovered(v, s);
      assert JobOk(v, s.procs[pid].job);
      AtomicReadIsSnapshot(v, s, WrittenLog(s.commits), query);
    }
    ReadConsistent(s, pid, ReadResult(s.files, query, None, None, false), AtomicBound(s, query), s.settled);
  }

  lemma FinishConsistent<S(!new)>(v: Vocabulary, s: State<S>, pid: nat)
    requires Safe(s) && Quiet(s) && Consistent(s) && JobsOk(v, s.procs) && AliasFree(v)
    requires pid in s.procs && CanFinish(s.procs[pid])
    ensures Consistent(Finish(s, pid))
  {
    var p := s.procs[pid];
    var query := QueryOf(p.job);
    if !s.torn {
      LogCovered(v, s);
      assert JobOk(v, p.job);
      FileReadIsSnapshot(v, s.files, WrittenLog(s.commits), query, p.pc, s.settled);
    }
    ReadConsistent(s, pid, Collect(s.files.events, query, Ascending(Meet(p.pc.got)), None), Least(p.pc.bounds), p.pc.lo);
  }

  /** Steps that change neither the history nor any view. */
  lemma QuietlyConsistent<S>(s: State<S>, t: State<S>, pid: nat)
    requires Consistent(s) && pid in s.procs && pid in t.procs && t.procs == s.procs[pid := t.procs[pid]]
    requires t.commits == s.commits && t.procs[pid].job == s.procs[pid].job && t.procs[pid].view == s.procs[pid].view
    requires s.torn ==> t.torn
    ensures Consistent(t)
  {
  }

  /** The steps that neither read nor extend the history. */
  lemma OtherConsistent<S>(s: State<S>, a: Action)
    requires Consistent(s) && Enabled(s, a)
    requires a.ReadIndexFile? || a.WriteIndexFile? || a.LoseIndexWrite? || a.Acquire? || a.ScanDirectory? || a.Release? || a.Crash?
    ensures Consistent(Next(s, a))
  {
    QuietlyConsistent(s, Next(s, a), a.pid);
  }

  lemma StepConsistent<S(!new)>(v: Vocabulary, s: State<S>, a: Action)
    requires Safe(s) && Quiet(s) && Consistent(s) && JobsOk(v, s.procs) && AliasFree(v)
    ensures Consistent(Next(s, a))
  {
    if Enabled(s, a) {
      match a
      case AtomicRead(pid) => AtomicReadConsistent(v, s, pid);
      case FinishRead(pid) => FinishConsistent(v, s, pid);
      case Check(pid, stamp) => CheckConsistent(v, s, pid, stamp, DoCheck(s, pid, stamp));
      case WriteEventFile(pid) => WriteEventConsistent(s, pid);
      case _ => OtherConsistent(s, a);
    }
  }

  lemma {:induction false} RunConsistent<S(!new)>(v: Vocabulary, s: State<S>, run: seq<Action>)
    requires Init(s) && JobsOk(v, s.procs) && AliasFree(v)
    ensures Consistent(After(s, run)) && JobsOk(v, After(s, run).procs)
  {
    if run != [] {
      var before := After(s, run[..|run| - 1]);
      RunSafe(s, run[..|run| - 1]);
      RunQuiet(s, run[..|run| - 1]);
      RunConsistent(v, s, run[..|run| - 1]);
      StepConsistent(v, before, run[|run| - 1]);
      StepKeepsJobs(v, before, run[|run| - 1]);
    }
  }
}
