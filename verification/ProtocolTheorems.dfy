/** Main results about the append/read protocol, over every run of any set of processes. */
module ProtocolTheorems {
  import opened Domain
  import opened FileNames
  import opened Sequences
  import opened Log
  import opened IndexedRead
  import opened DecisionModel
  import opened Protocol
  import opened ProtocolSafety
  import opened ProtocolSnapshots
  import opened ProtocolSerial

  // ----- dense immutable log, crashes included -----

  lemma StepGrows<S>(s: State<S>, a: Action)
    requires Safe(s)
    ensures WrittenLog(s.commits) <= WrittenLog(Next(s, a).commits)
  {
    if Enabled(s, a) {
      if a.WriteEventFile? {
        var record := WriteEventGrows(s, a.pid);
      } else if a.Check? && Next(s, a).commits != s.commits {
        var c := Next(s, a).commits[|s.commits|];
        assert Next(s, a).commits == s.commits + [c];
        WrittenSnoc(s.commits, c);
      }
    }
  }

  lemma {:induction false} RunGrows<S>(s: State<S>, run: seq<Action>, m: nat)
    requires Init(s) && m <= |run|
    ensures WrittenLog(After(s, run[..m]).commits) <= WrittenLog(After(s, run).commits)
  {
    if m == |run| {
      assert run[..m] == run;
    } else {
      var front := run[..|run| - 1];
      RunGrows(s, front, m);
      assert front[..m] == run[..m];
      RunSafe(s, front);
      StepGrows(After(s, front), run[|run| - 1]);
    }
  }

  /** Event files are numbered 0, 1, ..., n-1, and every indexed position has an event file
      whose event belongs in that index file. */
  ghost predicate DenseAndTruthful(files: Files) {
    && (forall p: nat :: p in files.events <==> p < NextPosition(files.events))
    && (forall p | p in files.events :: files.events[p].position == p)
    && (forall f, p | p in Positions(files.index, f) ::
          p in files.events && f in FilesOf(files.events[p].event))
    && (forall f :: Increasing(Positions(files.index, f)))
  }

  lemma FilesOkIsDense(files: Files, log: seq<EventRecord>)
    requires FilesOk(files, log)
    ensures DenseAndTruthful(files)
  {
    NextIsLength(files.events, log);
    forall f, p | p in Positions(files.index, f) ensures p in files.events && f in FilesOf(files.events[p].event) {
      PositionBelongs(files.index, log, f, p);
    }
  }

  ghost predicate Preserved(early: map<nat, EventRecord>, late: map<nat, EventRecord>) {
    forall p | p in early :: p in late && late[p] == early[p]
  }

  lemma PrefixPreserved(early: map<nat, EventRecord>, a: seq<EventRecord>, late: map<nat, EventRecord>, b: seq<EventRecord>)
    requires StoresLog(early, a) && StoresLog(late, b) && a <= b
    ensures Preserved(early, late)
  {
  }

  /** In every run, whatever crashes or loses writes: the log is dense and the index truthful,
      an event file once written is never changed or removed, and no read ever fails. */
  lemma DenseImmutableLog<S>(s: State<S>, run: seq<Action>, m: nat)
    requires Init(s) && m <= |run|
    ensures DenseAndTruthful(After(s, run).files)
    ensures Preserved(After(s, run[..m]).files.events, After(s, run).files.events)
    ensures forall pid | pid in After(s, run).procs :: After(s, run).procs[pid].pc != Done(Failed)
  {
    var early, late := After(s, run[..m]), After(s, run);
    RunSafe(s, run[..m]);
    RunSafe(s, run);
    RunGrows(s, run, m);
    FilesOkIsDense(late.files, WrittenLog(late.commits));
    PrefixPreserved(early.files.events, WrittenLog(early.commits), late.files.events, WrittenLog(late.commits));
    forall pid | pid in late.procs ensures late.procs[pid].pc != Done(Failed) {
      assert PcOk(late.commits, |WrittenLog(late.commits)|, late.procs[pid], pid);
    }
  }

  /** The whole batch of an entry lies in the event files, in order and without a gap. */
  ghost predicate Block(events: map<nat, EventRecord>, first: nat, batch: seq<EventData>, stamp: nat) {
    forall i | 0 <= i < |batch| :: first + i in events && StoredAs(events[first + i], batch[i], first + i, stamp)
  }

  /** The request of an append job is the one it was given; a decision's is the batch its process
      made of the state built from what it saw. */
  ghost predicate OwnRequest<S>(c: Commit<S>) {
    match c.job
    case AppendJob(batch, condition) => c.request == Request(batch, condition)
    case ExecuteJob(decision, _) =>
      c.view.Some? && decision.process(Build(decision.state, c.view.value.seen).state) == Some(c.request.batch)
    case ReadJob(_) => false
  }

  /** Every entry was stamped with the time its check was made at. */
  lemma {:induction false} StampsAreChecks<S>(s: State<S>, run: seq<Action>, e: nat)
    requires Init(s) && e < |After(s, run).commits|
    ensures Check(After(s, run).commits[e].pid, After(s, run).commits[e].stamp) in run
  {
    if run != [] {
      var front, last := run[..|run| - 1], run[|run| - 1];
      assert run == front + [last];
      StepStamps(After(s, front), last, e);
      if e < |After(s, front).commits| { StampsAreChecks(s, front, e); }
    }
  }

  lemma StepStamps<S>(s: State<S>, a: Action, e: nat)
    requires e < |Next(s, a).commits|
    ensures if e < |s.commits|
            then Next(s, a).commits[e].pid == s.commits[e].pid && Next(s, a).commits[e].stamp == s.commits[e].stamp
            else a == Check(Next(s, a).commits[e].pid, Next(s, a).commits[e].stamp)
  {
    TornStays(s, a);
    if Enabled(s, a) && a.Check? {
      CheckStamps(s, a.pid, a.stamp, e);
    } else if Enabled(s, a) && a.WriteEventFile? {
      assert Next(s, a) == WriteEvent(s, a.pid);
    }
  }

  lemma CheckStamps<S>(s: State<S>, pid: nat, stamp: nat, e: nat)
    requires pid in s.procs && s.procs[pid].pc.Scanned? && RequestOf(s.procs[pid].job, s.procs[pid].view).Some?
    requires e < |DoCheck(s, pid, stamp).commits|
    ensures var c := DoCheck(s, pid, stamp).commits[e];
      if e < |s.commits| then c == s.commits[e] else c.pid == pid && c.stamp == stamp
  {
  }

  /** A successful append left its whole batch, every field of it, as one contiguous block, in
      order, under the time of its check, crashes of other processes notwithstanding. */
  lemma SuccessIsContiguous<S>(s: State<S>, run: seq<Action>, t: State<S>, pid: nat)
    requires Init(s) && t == After(s, run)
    requires pid in t.procs && t.procs[pid].pc.Done? && t.procs[pid].pc.outcome.Committed?
    ensures var entry := t.procs[pid].pc.outcome.entry;
      && entry < |t.commits| && t.commits[entry].pid == pid && t.commits[entry].job == t.procs[pid].job
      && var c := t.commits[entry];
      && OwnRequest(c) && Check(pid, c.stamp) in run
      && Block(t.files.events, |LogBefore(t.commits, entry)|, c.request.batch, c.stamp)
  {
    RunSafe(s, run);
    var entry := t.procs[pid].pc.outcome.entry;
    EntryOfSuccess(t, WrittenLog(t.commits), pid);
    StampsAreChecks(s, run, entry);
    EntryBlock(t.commits, entry);
    BlockStored(t.files.events, WrittenLog(t.commits), LogBefore(t.commits, entry),
                t.commits[entry].request.batch, t.commits[entry].stamp);
  }

  lemma BlockStored(
    events: map<nat, EventRecord>, log: seq<EventRecord>, before: seq<EventRecord>, batch: seq<EventData>, stamp: nat)
    requires StoresLog(events, log) && before + Stamp(batch, |before|, stamp) <= log
    ensures Block(events, |before|, batch, stamp)
  {
    forall i | 0 <= i < |batch|
      ensures |before| + i in events && StoredAs(events[|before| + i], batch[i], |before| + i, stamp)
    {
      assert log[|before| + i] == (before + Stamp(batch, |before|, stamp))[|before| + i];
    }
  }

  lemma EntryOfSuccess<S>(t: State<S>, log: seq<EventRecord>, pid: nat)
    requires SafeWith(t, log) && pid in t.procs && t.procs[pid].pc.Done? && t.procs[pid].pc.outcome.Committed?
    ensures var entry := t.procs[pid].pc.outcome.entry;
      && WholeEntry(t.commits, entry, pid) && t.commits[entry].job == t.procs[pid].job
      && RequestOf(t.commits[entry].job, t.commits[entry].view) == Some(t.commits[entry].request)
  {
    assert PcOk(t.commits, |log|, t.procs[pid], pid);
    assert EntryOk(t.procs, t.commits[t.procs[pid].pc.outcome.entry]);
  }

  lemma EntryBlock<S>(commits: seq<Commit<S>>, entry: nat)
    requires entry < |commits| && commits[entry].kept == |commits[entry].request.batch|
    ensures var c := commits[entry]; var before := LogBefore(commits, entry);
      before + Stamp(c.request.batch, |before|, c.stamp) <= WrittenLog(commits)
  {
    var c := commits[entry];
    assert commits[..entry + 1] == commits[..entry] + [c];
    WrittenSnoc(commits[..entry], c);
    assert Take(c.request.batch, c.kept) == c.request.batch;
    WrittenPrefix(commits, entry + 1);
  }

  // ----- snapshot reads -----

  /** The moment a file-by-file read began: the process was ready, and `lo` events were settled. */
  ghost predicate BeganAt<S>(s: State<S>, run: seq<Action>, pid: nat, lo: nat, m: nat) {
    && m < |run| && Enabled(After(s, run[..m]), ReadIndexFile(pid))
    && After(s, run[..m]).procs[pid].pc.Ready? && After(s, run[..m]).settled == lo
  }

  lemma {:induction false} ReadBegan<S>(s: State<S>, run: seq<Action>, pid: nat)
    requires Init(s) && pid in After(s, run).procs && After(s, run).procs[pid].pc.Reading?
    ensures exists m: nat :: BeganAt(s, run, pid, After(s, run).procs[pid].pc.lo, m)
  {
    if run != [] {
      var n := |run| - 1;
      var front, a := run[..n], run[n];
      var before := After(s, front);
      ReadingSince(before, a, pid);
      if StartsReading(before, a, pid) {
        assert BeganAt(s, run, pid, before.settled, n);
      } else {
        ReadBegan(s, front, pid);
        var m: nat :| BeganAt(s, front, pid, before.procs[pid].pc.lo, m);
        BeganEarlier(s, front, run, pid, before.procs[pid].pc.lo, m);
      }
    }
  }

  ghost predicate StartsReading<S>(s: State<S>, a: Action, pid: nat) {
    a == ReadIndexFile(pid) && Enabled(s, a) && s.procs[pid].pc.Ready?
  }

  lemma ReadingSince<S>(s: State<S>, a: Action, pid: nat)
    requires pid in Next(s, a).procs && Next(s, a).procs[pid].pc.Reading?
    ensures pid in s.procs
    ensures if StartsReading(s, a, pid) then Next(s, a).procs[pid].pc.lo == s.settled
            else s.procs[pid].pc.Reading? && Next(s, a).procs[pid].pc.lo == s.procs[pid].pc.lo
  {
    SameJobs(s, a);
    if Enabled(s, a) && a.pid == pid && !a.ReadIndexFile? {
      OnlyFilesRead(s, a);
    }
  }

  lemma OnlyFilesRead<S>(s: State<S>, a: Action)
    requires Enabled(s, a) && !a.ReadIndexFile?
    ensures a.pid in Next(s, a).procs && !Next(s, a).procs[a.pid].pc.Reading?
  {
    match a
    case AtomicRead(pid) => assert !ReadAtomically(s, pid).procs[pid].pc.Reading?;
    case FinishRead(pid) => assert !Finish(s, pid).procs[pid].pc.Reading?;
    case Check(pid, stamp) => assert !DoCheck(s, pid, stamp).procs[pid].pc.Reading?;
    case _ =>
  }

  lemma BeganEarlier<S>(s: State<S>, front: seq<Action>, run: seq<Action>, pid: nat, lo: nat, m: nat)
    requires BeganAt(s, front, pid, lo, m) && front <= run
    ensures BeganAt(s, run, pid, lo, m)
  {
    assert front[..m] == run[..m];
  }

  /** Once an event is half-indexed, that stays so. */
  lemma {:induction false} TornForGood<S>(s: State<S>, run: seq<Action>, m: nat)
    requires m <= |run|
    ensures After(s, run[..m]).torn ==> After(s, run).torn
  {
    if m == |run| {
      assert run[..m] == run;
    } else {
      var front := run[..|run| - 1];
      TornForGood(s, front, m);
      assert front[..m] == run[..m];
      TornStays(After(s, front), run[|run| - 1]);
    }
  }

  /** While no event is half-indexed, all events are settled but for the one in flight. */
  lemma SettledBut<S>(s: State<S>, run: seq<Action>)
    requires Init(s) && !After(s, run).torn
    ensures var t := After(s, run); t.settled <= |WrittenLog(t.commits)| <= t.settled + 1
  {
    RunQuiet(s, run);
  }

  /** The view of a reading process is what a scan of some beginning of the log finds for what its
      own job asks. */
  ghost predicate Sees<S>(job: Job<S>, view: View, log: seq<EventRecord>) {
    && view.bound <= |log|
    && match job
       case ReadJob(query) => view.seen == Scan(log[..view.bound], query, 0)
       case ExecuteJob(decision, _) => view.seen == Scan(log[..view.bound], decision.state.query, 0)
       case AppendJob(_, _) => false
  }

  /** Which reads take their files one by one: those for one item, not vacuous, of one type at most;
      first the type's file, then those of the tags. All others are answered at one instant. */
  lemma ReadsFileByFile<S>(s: State<S>, pid: nat, query: Query)
    requires pid in s.procs && s.procs[pid].pc.Ready?
    requires s.procs[pid].job == ReadJob(query)
             || (s.procs[pid].job.ExecuteJob? && s.procs[pid].job.decision.state.query == query)
    ensures Enabled(s, AtomicRead(pid)) <==> !Enabled(s, ReadIndexFile(pid))
    ensures |query.items| != 1 || |query.items[0].eventTypes| > 1 || query.items[0] == QueryItem([], []) ==>
      Enabled(s, AtomicRead(pid))
    ensures forall t: string, tags | query == Query([QueryItem([t], tags)]) ::
      Enabled(s, ReadIndexFile(pid)) && ListsFiles(FilesRead(query), [FileOfType(t)], tags)
    ensures forall t: Tag, tags | query == Query([QueryItem([], [t] + tags)]) ::
      Enabled(s, ReadIndexFile(pid)) && ListsFiles(FilesRead(query), [], [t] + tags)
  {
    forall t: string, tags | query == Query([QueryItem([t], tags)])
      ensures Enabled(s, ReadIndexFile(pid)) && ListsFiles(FilesRead(query), [FileOfType(t)], tags)
    {
      assert Conjunctive(query);
    }
    forall t: Tag, tags | query == Query([QueryItem([], [t] + tags)])
      ensures Enabled(s, ReadIndexFile(pid)) && ListsFiles(FilesRead(query), [], [t] + tags)
    {
      assert Conjunctive(query);
    }
  }

  /** These files, and then one for each tag, in order. */
  ghost predicate ListsFiles(files: seq<IndexFile>, first: seq<IndexFile>, tags: seq<Tag>) {
    && |files| == |first| + |tags| && first <= files
    && forall i | 0 <= i < |tags| :: files[|first| + i] == FileOfTag(tags[i])
  }

  /** Snapshot reads at file granularity. A conjunctive query whose files are read one by one,
      with any appends in between, returns exactly the matching events below some bound; the
      bound is at least the log length when the read began, less an event then being indexed,
      and at most the log length when it ends. */
  lemma SnapshotRead<S(!new)>(v: Vocabulary, s: State<S>, run: seq<Action>, t: State<S>, pid: nat)
    returns (began: nat, bound: nat)
    requires Init(s) && JobsOk(v, s.procs) && AliasFree(v) && t == After(s, run)
    requires !t.torn && Enabled(t, FinishRead(pid))
    ensures BeganAt(s, run, pid, t.procs[pid].pc.lo, began)
    ensures After(s, run[..began]).settled <= bound
    ensures |WrittenLog(After(s, run[..began]).commits)| <= bound + 1
    ensures bound <= |WrittenLog(t.commits)|
    ensures StoresLog(t.files.events, WrittenLog(t.commits))
    ensures var view := Next(t, FinishRead(pid)).procs[pid].view;
      && view.Some? && Sees(t.procs[pid].job, view.value, WrittenLog(t.commits))
      && view.value.bound == bound && view.value.settledAtStart == t.procs[pid].pc.lo
  {
    RunSafe(s, run);
    RunQuiet(s, run);
    RunConsistent(v, s, run);
    FinishSees(v, t, pid);
    ReadBegan(s, run, pid);
    began :| BeganAt(s, run, pid, t.procs[pid].pc.lo, began);
    TornForGood(s, run, began);
    SettledBut(s, run[..began]);
    bound := Least(t.procs[pid].pc.bounds);
  }

  lemma FinishSees<S(!new)>(v: Vocabulary, t: State<S>, pid: nat)
    requires Safe(t) && Quiet(t) && JobsOk(v, t.procs) && AliasFree(v) && !t.torn
    requires pid in t.procs && CanFinish(t.procs[pid])
    ensures var pc := t.procs[pid].pc; var log := WrittenLog(t.commits);
      && pc.lo <= Least(pc.bounds) <= |log|
      && Finish(t, pid).procs[pid].view
      == Some(View(Scan(log[..Least(pc.bounds)], QueryOf(t.procs[pid].job), 0), Least(pc.bounds), pc.lo))
  {
    LogCovered(v, t);
    var p := t.procs[pid];
    assert JobOk(v, p.job);
    FileReadIsSnapshot(v, t.files, WrittenLog(t.commits), QueryOf(p.job), p.pc, t.settled);
  }

  /** Every view ever taken, by files or at one instant, is a snapshot of the log. */
  lemma EveryViewIsSnapshot<S(!new)>(v: Vocabulary, s: State<S>, run: seq<Action>, pid: nat)
    requires Init(s) && JobsOk(v, s.procs) && AliasFree(v)
    requires var t := After(s, run); !t.torn && pid in t.procs && t.procs[pid].view.Some?
    ensures var t := After(s, run); var log := WrittenLog(t.commits); var view := t.procs[pid].view.value;
      && Sees(t.procs[pid].job, view, log) && view.settledAtStart <= view.bound
  {
    RunSafe(s, run);
    RunConsistent(v, s, run);
  }

  // ----- serializability -----

  /** What an entry would be if its job ran alone on this log: an append job found nothing against
      its condition; a decision was taken on the state that all its events end in, applied in log
      order, and that state is the one its process was given. */
  ghost predicate RanAlone<S(!new)>(c: Commit<S>, log: seq<EventRecord>) {
    match c.job
    case AppendJob(batch, condition) =>
      && c.request.batch == batch
      && (condition.Some? ==>
            forall q: nat | From(condition.value.afterSequencePosition) <= q < |log| ::
              !Matches(condition.value.failIfEventsMatch, log[q]))
    case ExecuteJob(decision, _) =>
      && DecidedOn(decision, log, Some(c.request.batch))
      && c.view.Some? && c.view.value.seen == Scan(log, decision.state.query, 0)
      && EndsIn(decision.state, c.view.value.seen, Build(decision.state, c.view.value.seen).state)
    case ReadJob(_) => false
  }

  lemma SerialRanAlone<S(!new)>(c: Commit<S>, log: seq<EventRecord>)
    requires SerialEntry(c, log) && Numbered(log)
    ensures RanAlone(c, log)
  {
    match c.job
    case AppendJob(batch, condition) =>
      if condition.Some? {
        ScanEmpty(log, condition.value.failIfEventsMatch, From(condition.value.afterSequencePosition));
      }
    case ExecuteJob(decision, _) =>
      DecidedOnFold(decision, log, Some(c.request.batch));
      BuildAppliesInOrder(decision.state, log);
    case ReadJob(_) =>
  }

  lemma SerialIsWrittenTo<S>(commits: seq<Commit<S>>, e: nat)
    requires Serial(commits) && e <= |commits|
    ensures SerialLog(commits[..e]) == LogBefore(commits, e)
  {
    SerialFront(commits, e);
    SerialIsWritten(commits[..e]);
  }

  lemma EntryAppends<S>(commits: seq<Commit<S>>, e: nat)
    requires e < |commits| && commits[e].kept <= |commits[e].request.batch|
    ensures var c := commits[e];
      Appended(LogBefore(commits, e), c.request.batch[..c.kept], c.stamp, LogBefore(commits, e + 1))
  {
    var c := commits[e];
    assert commits[..e + 1] == commits[..e] + [c];
    WrittenSnoc(commits[..e], c);
    assert Take(c.request.batch, c.kept) == c.request.batch[..c.kept];
    AppendedIsStamped(LogBefore(commits, e), c.request.batch[..c.kept], c.stamp, LogBefore(commits, e + 1));
  }

  /** Behind the log of the entries before it, each entry adds what it got to of its own batch. */
  lemma SerialAppends<S>(commits: seq<Commit<S>>, e: nat)
    requires Serial(commits) && e < |commits| && commits[e].kept <= |commits[e].request.batch|
    ensures var c := commits[e];
      Appended(SerialLog(commits[..e]), c.request.batch[..c.kept], c.stamp, SerialLog(commits[..e + 1]))
  {
    SerialIsWrittenTo(commits, e);
    SerialIsWrittenTo(commits, e + 1);
    EntryAppends(commits, e);
  }

  /** Each entry is what its job alone would have made of the log before it, and the log is the
      entries' batches end to end. */
  ghost predicate OneAtATime<S(!new)>(commits: seq<Commit<S>>) {
    && SerialLog(commits[..0]) == []
    && forall e | 0 <= e < |commits| ::
         var c := commits[e];
         && RanAlone(c, SerialLog(commits[..e])) && c.kept <= |c.request.batch|
         && Appended(SerialLog(commits[..e]), c.request.batch[..c.kept], c.stamp, SerialLog(commits[..e + 1]))
  }

  lemma SerialOneAtATime<S(!new)>(commits: seq<Commit<S>>)
    requires Serial(commits) && Bounded(commits)
    ensures OneAtATime(commits)
  {
    forall e | 0 <= e < |commits|
      ensures RanAlone(commits[e], SerialLog(commits[..e]))
      ensures Appended(SerialLog(commits[..e]), commits[e].request.batch[..commits[e].kept], commits[e].stamp,
                       SerialLog(commits[..e + 1]))
    {
      SerialAppends(commits, e);
      assert SerialEntry(commits[e], LogBefore(commits, e));
      SerialIsWrittenTo(commits, e);
      WrittenNumbered(commits[..e]);
      SerialRanAlone(commits[e], SerialLog(commits[..e]));
    }
  }

  /** Serializability. At every moment of every run without a half-indexed event, the event
      files hold exactly the log that running the committed jobs one at a time would write, in
      commit order; each committed decision was taken on the state that all matching events just
      before its own end in, applied in log order; every success is one entry, and no process has
      two. */
  lemma Serializability<S(!new)>(v: Vocabulary, s: State<S>, run: seq<Action>)
    requires Init(s) && JobsOk(v, s.procs) && AliasFree(v) && !After(s, run).torn
    ensures var t := After(s, run);
      && StoresLog(t.files.events, SerialLog(t.commits))
      && OneAtATime(t.commits)
      && (forall pid | pid in t.procs && t.procs[pid].pc.Done? && t.procs[pid].pc.outcome.Committed? ::
            WholeEntry(t.commits, t.procs[pid].pc.outcome.entry, pid))
      && (forall d, e | 0 <= d < e < |t.commits| :: t.commits[d].pid != t.commits[e].pid)
  {
    var t := After(s, run);
    RunSafe(s, run);
    RunConsistent(v, s, run);
    SerialIsWritten(t.commits);
    EntriesBounded(t);
    SerialOneAtATime(t.commits);
    forall pid | pid in t.procs && t.procs[pid].pc.Done? && t.procs[pid].pc.outcome.Committed?
      ensures WholeEntry(t.commits, t.procs[pid].pc.outcome.entry, pid)
    {
      assert PcOk(t.commits, |WrittenLog(t.commits)|, t.procs[pid], pid);
    }
  }

  lemma SerialFront<S>(commits: seq<Commit<S>>, e: nat)
    requires Serial(commits) && e <= |commits|
    ensures Serial(commits[..e])
  {
    var front := commits[..e];
    forall d | 0 <= d < |front| ensures SerialEntry(front[d], LogBefore(front, d)) {
      assert front[..d] == commits[..d];
      assert SerialEntry(commits[d], LogBefore(commits, d));
    }
  }

  // ----- conflicts -----

  lemma UnopposedKept<S>(commits: seq<Commit<S>>, kept: nat, torn: bool)
    requires Unopposed(commits, torn) && commits != []
    ensures Unopposed(commits[|commits| - 1 := commits[|commits| - 1].(kept := kept)], torn)
  {
    var last := |commits| - 1;
    var more := commits[last := commits[last].(kept := kept)];
    forall e | 0 <= e < |more| ensures EntryUnopposed(more[e], LogBefore(more, e), torn) {
      assert more[..e] == commits[..e];
      assert EntryUnopposed(commits[e], LogBefore(commits, e), torn);
    }
  }

  lemma UnopposedGrows<S>(commits: seq<Commit<S>>, c: Commit<S>, torn: bool)
    requires Unopposed(commits, torn) && EntryUnopposed(c, WrittenLog(commits), torn)
    ensures Unopposed(commits + [c], torn)
  {
    var more := commits + [c];
    forall e | 0 <= e < |more| ensures EntryUnopposed(more[e], LogBefore(more, e), torn) {
      if e < |commits| {
        assert more[..e] == commits[..e];
        assert EntryUnopposed(commits[e], LogBefore(commits, e), torn);
      } else {
        assert more[..e] == commits;
      }
    }
  }

  /** What holds while events are whole holds in part when one is torn. */
  lemma UnopposedTorn<S>(commits: seq<Commit<S>>, before: bool, after: bool)
    requires Unopposed(commits, before) && (before ==> after)
    ensures Unopposed(commits, after)
  {
    forall e | 0 <= e < |commits| ensures EntryUnopposed(commits[e], LogBefore(commits, e), after) {
      assert EntryUnopposed(commits[e], LogBefore(commits, e), before);
    }
  }

  lemma CheckKeepsUnopposed<S>(s: State<S>, pid: nat, stamp: nat)
    requires Safe(s) && Quiet(s) && Unopposed(s.commits, s.torn) && pid in s.procs && s.procs[pid].pc.Scanned?
    requires RequestOf(s.procs[pid].job, s.procs[pid].view).Some?
    ensures Unopposed(DoCheck(s, pid, stamp).commits, s.torn)
  {
    var p := s.procs[pid];
    var request := RequestOf(p.job, p.view).value;
    CheckSucceeds(s, request.condition);
    if ReadForCheck(s, request.condition) == Ok([]) {
      if request.condition.Some? && Reliable(request.condition.value, s.torn) {
        CheckUnopposed(s, pid, request.condition.value);
      }
      UnopposedGrows(s.commits, Commit(pid, p.job, p.view, request, stamp, 0), s.torn);
    }
  }

  lemma TornStays<S>(s: State<S>, a: Action)
    ensures s.torn ==> Next(s, a).torn
    ensures !Enabled(s, a) || !(a.Check? || a.WriteEventFile?) ==> Next(s, a).commits == s.commits
    ensures a.Check? || a.WriteEventFile? ==> Next(s, a).torn == s.torn
  {
  }

  lemma StepUnopposed<S>(s: State<S>, a: Action)
    requires Safe(s) && Quiet(s) && Unopposed(s.commits, s.torn)
    ensures Unopposed(Next(s, a).commits, Next(s, a).torn)
  {
    TornStays(s, a);
    if Enabled(s, a) && a.WriteEventFile? {
      var record := WriteEventGrows(s, a.pid);
      UnopposedKept(s.commits, s.procs[a.pid].pc.done + 1, s.torn);
    } else if Enabled(s, a) && a.Check? {
      CheckKeepsUnopposed(s, a.pid, a.stamp);
    } else {
      UnopposedTorn(s.commits, s.torn, Next(s, a).torn);
    }
  }

  /** No missed conflict, whatever the names: every append that went ahead with a condition on
      non-vacuous items had no matching event after its position in the log it extended. Once
      an event was left half-indexed this is promised for conditions without items. */
  lemma {:induction false} NoConflictMissed<S>(s: State<S>, run: seq<Action>)
    requires Init(s)
    ensures Unopposed(After(s, run).commits, After(s, run).torn)
  {
    if run != [] {
      var front := run[..|run| - 1];
      RunSafe(s, front);
      RunQuiet(s, front);
      NoConflictMissed(s, front);
      StepUnopposed(After(s, front), run[|run| - 1]);
    }
  }

  /** No spurious conflict: a decision's check fails exactly when a matching event lies at or
      beyond the bound of the snapshot it decided on; and its own process wrote none of the log. */
  lemma NoSpuriousConflict<S(!new)>(v: Vocabulary, s: State<S>, run: seq<Action>, t: State<S>, pid: nat, stamp: nat)
    requires Init(s) && JobsOk(v, s.procs) && AliasFree(v) && t == After(s, run)
    requires !t.torn && Enabled(t, Check(pid, stamp)) && t.procs[pid].job.ExecuteJob?
    ensures t.procs[pid].view.Some?
    ensures Next(t, Check(pid, stamp)).procs[pid].pc == Unlocking(Conflict) <==>
            exists q: nat :: t.procs[pid].view.value.bound <= q < |WrittenLog(t.commits)|
                             && Matches(t.procs[pid].job.decision.state.query, WrittenLog(t.commits)[q])
    ensures forall e | 0 <= e < |t.commits| :: t.commits[e].pid != pid
  {
    RunSafe(s, run);
    RunQuiet(s, run);
    RunConsistent(v, s, run);
    var p, log := t.procs[pid], WrittenLog(t.commits);
    var condition := AppendCondition(QueryOf(p.job), LastPosition(p.view.value.seen));
    DecisionCondition(t, pid, log);
    CheckVerdict(t, pid, stamp, condition);
    CheckDetects(v, t, pid, condition);
    ConflictBeyond(log, QueryOf(p.job), p.view.value.bound);
    NotYetCommitted(t, log, pid);
  }

  lemma CheckVerdict<S>(t: State<S>, pid: nat, stamp: nat, condition: AppendCondition)
    requires Safe(t) && pid in t.procs && t.procs[pid].pc.Scanned?
    requires RequestOf(t.procs[pid].job, t.procs[pid].view).Some?
    requires RequestOf(t.procs[pid].job, t.procs[pid].view).value.condition == Some(condition)
    ensures DoCheck(t, pid, stamp).procs[pid].pc == Unlocking(Conflict) <==> Detects(t.files, condition)
  {
    CheckSucceeds(t, Some(condition));
  }

  lemma CheckDetects<S(!new)>(v: Vocabulary, t: State<S>, pid: nat, condition: AppendCondition)
    requires Safe(t) && Quiet(t) && !t.torn && JobsOk(v, t.procs) && AliasFree(v)
    requires pid in t.procs && t.procs[pid].pc.Scanned? && t.procs[pid].job.ExecuteJob?
    requires condition.failIfEventsMatch == QueryOf(t.procs[pid].job)
    ensures Detects(t.files, condition) <==>
            Scan(WrittenLog(t.commits), condition.failIfEventsMatch, From(condition.afterSequencePosition)) != []
  {
    LogCovered(v, t);
    QuietIndexed(t, pid);
    assert JobOk(v, t.procs[pid].job);
    DetectsExactly(v, t.files, WrittenLog(t.commits), condition);
  }

  /** The condition a decision asks for: its own query, after the last position it saw. */
  lemma DecisionCondition<S>(t: State<S>, pid: nat, log: seq<EventRecord>)
    requires Consistent(t) && !t.torn && log == WrittenLog(t.commits) && pid in t.procs
    requires t.procs[pid].job.ExecuteJob? && RequestOf(t.procs[pid].job, t.procs[pid].view).Some?
    ensures var p := t.procs[pid]; var query := QueryOf(p.job); var view := p.view.value;
      && view.bound <= |log| && view.seen == Scan(log[..view.bound], query, 0) && Numbered(log)
      && RequestOf(p.job, p.view).value.condition == Some(AppendCondition(query, LastPosition(view.seen)))
  {
    var p := t.procs[pid];
    WrittenNumbered(t.commits);
    assert ViewOk(QueryOf(p.job), p.view.value, log);
    BuildOnScan(p.job.decision.state, log[..p.view.value.bound]);
  }

  lemma NotYetCommitted<S>(t: State<S>, log: seq<EventRecord>, pid: nat)
    requires SafeWith(t, log) && pid in t.procs && !Entered(t.procs[pid].pc)
    ensures forall e | 0 <= e < |t.commits| :: t.commits[e].pid != pid
  {
    forall e | 0 <= e < |t.commits| ensures t.commits[e].pid != pid {
      assert EntryOk(t.procs, t.commits[e]);
    }
  }

  // ----- retries, deadlock, progress -----

  ghost predicate AttemptOk<S>(p: Process<S>) {
    && (p.job.ExecuteJob? ==> p.attempt < p.job.maxRetries)
    && (p.job.ExecuteJob? && p.pc == Done(Conflict) ==> p.attempt + 1 == p.job.maxRetries)
  }

  /** Every decision is allowed at least one attempt. */
  ghost predicate MayTry<S>(procs: map<nat, Process<S>>) {
    forall pid | pid in procs && procs[pid].job.ExecuteJob? :: 1 <= procs[pid].job.maxRetries
  }

  /** Bounded retry: a decision is never attempted more than `maxRetries` times, and it gives up
      with a conflict only after exactly that many attempts. */
  lemma {:induction false} BoundedRetry<S>(s: State<S>, run: seq<Action>, pid: nat)
    requires Init(s) && MayTry(s.procs) && pid in After(s, run).procs
    ensures AttemptOk(After(s, run).procs[pid])
  {
    if run == [] {
      assert s.procs[pid].attempt == 0;
    } else {
      var before := After(s, run[..|run| - 1]);
      assert pid in before.procs;
      BoundedRetry(s, run[..|run| - 1], pid);
      RunSafe(s, run[..|run| - 1]);
      StepAttempt(before, run[|run| - 1], pid);
    }
  }

  lemma StepAttempt<S>(s: State<S>, a: Action, pid: nat)
    requires Safe(s) && pid in s.procs && AttemptOk(s.procs[pid])
    ensures pid in Next(s, a).procs && AttemptOk(Next(s, a).procs[pid])
  {
    SameJobs(s, a);
    if Enabled(s, a) && a.pid == pid {
      if a.AtomicRead? || a.FinishRead? {
        AttemptReads(s, a);
      } else if a.Check? {
        AttemptChecks(s, pid, a.stamp);
      } else {
        AttemptMoves(s, a);
      }
    }
  }

  lemma AttemptChecks<S>(s: State<S>, pid: nat, stamp: nat)
    requires pid in s.procs && s.procs[pid].pc.Scanned? && RequestOf(s.procs[pid].job, s.procs[pid].view).Some?
    requires AttemptOk(s.procs[pid])
    ensures AttemptOk(DoCheck(s, pid, stamp).procs[pid])
  {
  }

  lemma AttemptMoves<S>(s: State<S>, a: Action)
    requires Enabled(s, a) && !a.AtomicRead? && !a.FinishRead? && !a.Check? && AttemptOk(s.procs[a.pid])
    ensures a.pid in Next(s, a).procs && AttemptOk(Next(s, a).procs[a.pid])
  {
  }

  lemma AttemptReads<S>(s: State<S>, a: Action)
    requires Enabled(s, a) && (a.AtomicRead? || a.FinishRead?) && AttemptOk(s.procs[a.pid])
    ensures AttemptOk(Next(s, a).procs[a.pid])
  {
    var p := s.procs[a.pid];
    if a.AtomicRead? {
      AttemptAfterRead(p, ReadResult(s.files, QueryOf(p.job), None, None, false), AtomicBound(s, QueryOf(p.job)), s.settled);
    } else {
      AttemptAfterRead(p, Collect(s.files.events, QueryOf(p.job), Ascending(Meet(p.pc.got)), None), Least(p.pc.bounds), p.pc.lo);
    }
  }

  lemma AttemptAfterRead<S>(p: Process<S>, r: Result<seq<EventRecord>>, bound: nat, lo: nat)
    requires AttemptOk(p)
    ensures AttemptOk(AfterRead(p, r, bound, lo))
  {
  }

  ghost predicate CanStep<S>(s: State<S>, pid: nat) {
    exists a: Action :: a.pid == pid && !a.Crash? && !a.LoseIndexWrite? && Enabled(s, a)
  }

  lemma HolderCanStep<S>(s: State<S>, pid: nat)
    requires Safe(s) && pid in s.procs && HoldsLock(s.procs[pid].pc)
    ensures CanStep(s, pid)
  {
    var p := s.procs[pid];
    assert PcOk(s.commits, |WrittenLog(s.commits)|, p, pid);
    match p.pc
    case Locked => assert Enabled(s, ScanDirectory(pid));
    case Scanned(_) => assert Enabled(s, Check(pid, 0));
    case Writing(_, _, _, step) =>
      assert if step == 0 then Enabled(s, WriteEventFile(pid)) else Enabled(s, WriteIndexFile(pid));
    case Unlocking(_) => assert Enabled(s, Release(pid));
  }

  /** Processes go their own ways: a step of one never takes a step away from another, except that
      who takes the lock keeps the others from taking it. */
  lemma StepsStayOpen<S>(s: State<S>, a: Action, b: Action)
    requires Enabled(s, a) && Enabled(s, b) && a.pid != b.pid
    ensures Enabled(Next(s, a), b) <==> !(a.Acquire? && b.Acquire?)
  {
    SameJobs(s, a);
    TornStays(s, a);
    if a.Check? {
      CheckedCommits(s, a.pid, a.stamp);
    } else if a.WriteEventFile? {
      assert Next(s, a) == WriteEvent(s, a.pid);
    }
    if b.Acquire? { LockLeft(s, a); }
  }

  lemma CheckedCommits<S>(s: State<S>, pid: nat, stamp: nat)
    requires pid in s.procs && s.procs[pid].pc.Scanned? && RequestOf(s.procs[pid].job, s.procs[pid].view).Some?
    ensures s.commits <= DoCheck(s, pid, stamp).commits
  {
  }

  lemma LockLeft<S>(s: State<S>, a: Action)
    requires Enabled(s, a) && s.lock == None
    ensures Next(s, a).lock == if a.Acquire? then Some(a.pid) else None
  {
  }

  /** A process may crash between any two of its steps, which frees its lock and changes no file. It
      leaves a half-indexed event exactly if an index file of an event of its own was next. */
  lemma CrashesAnywhere<S>(s: State<S>, pid: nat)
    requires Safe(s) && pid in s.procs && !s.procs[pid].pc.Done?
    ensures var t := Next(s, Crash(pid));
      && t.procs == s.procs[pid := s.procs[pid].(pc := Done(Crashed))] && t.lock != Some(pid)
      && t.files == s.files && t.commits == s.commits
      && (t.torn <==> s.torn || Enabled(s, WriteIndexFile(pid)))
  {
    assert Enabled(s, Crash(pid));
    assert PcOk(s.commits, |WrittenLog(s.commits)|, s.procs[pid], pid);
  }

  /** Any write of an index file may be lost: the process goes on as if it had been written. */
  lemma AnyIndexWriteMayBeLost<S>(s: State<S>, pid: nat)
    requires Enabled(s, WriteIndexFile(pid))
    ensures var t := Next(s, LoseIndexWrite(pid));
      t.procs == Next(s, WriteIndexFile(pid)).procs && t.files == s.files && t.torn
  {
    assert Enabled(s, LoseIndexWrite(pid));
  }

  /** No deadlock on the store lock: in every reachable state with an unfinished process, some
      unfinished process has a step that is neither a crash nor a lost write. */
  lemma NoDeadlock<S>(s: State<S>, run: seq<Action>, pid: nat)
    requires Init(s) && pid in After(s, run).procs && !After(s, run).procs[pid].pc.Done?
    ensures exists q :: q in After(s, run).procs && CanStep(After(s, run), q)
  {
    var t := After(s, run);
    RunSafe(s, run);
    var p := t.procs[pid];
    assert PcOk(t.commits, |WrittenLog(t.commits)|, p, pid);
    match p.pc
    case Ready =>
      assert if Conjunctive(QueryOf(p.job)) then Enabled(t, ReadIndexFile(pid)) else Enabled(t, AtomicRead(pid));
      assert CanStep(t, pid);
    case Reading(got, _, _) =>
      assert if |got| < |FilesRead(QueryOf(p.job))| then Enabled(t, ReadIndexFile(pid)) else Enabled(t, FinishRead(pid));
      assert CanStep(t, pid);
    case Queued =>
      if t.lock == None {
        assert Enabled(t, Acquire(pid));
        assert CanStep(t, pid);
      } else {
        HolderCanStep(t, t.lock.value);
      }
    case _ => HolderCanStep(t, pid);
  }
}
