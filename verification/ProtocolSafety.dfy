/** What every run keeps, crashes and failed writes included: a dense log that is never
    overwritten, whole contiguous batches for every success, and truthful index files. */
module ProtocolSafety {
  import opened Domain
  import opened FileNames
  import opened Sequences
  import opened Log
  import opened IndexedRead
  import opened Indices
  import opened Protocol

  // ----- commit histories -----

  ghost predicate Bounded<S>(commits: seq<Commit<S>>) {
    forall e | 0 <= e < |commits| :: commits[e].kept <= |commits[e].request.batch|
  }

  lemma {:induction false} WrittenNumbered<S>(commits: seq<Commit<S>>)
    ensures Numbered(WrittenLog(commits))
  {
    if commits != [] {
      WrittenNumbered(commits[..|commits| - 1]);
    }
  }

  lemma WrittenSnoc<S>(commits: seq<Commit<S>>, c: Commit<S>)
    ensures LogBefore(commits + [c], |commits|) == WrittenLog(commits)
    ensures WrittenLog(commits + [c])
         == WrittenLog(commits) + Stamp(Take(c.request.batch, c.kept), |WrittenLog(commits)|, c.stamp)
  {
    assert (commits + [c])[..|commits|] == commits;
  }

  /** Passing a check adds to the history but not to the log. */
  lemma EmptyEntry<S>(commits: seq<Commit<S>>, c: Commit<S>)
    requires c.kept == 0
    ensures WrittenLog(commits + [c]) == WrittenLog(commits)
  {
    WrittenSnoc(commits, c);
  }

  /** Writing one more event of the last entry extends the log by its record. */
  lemma WrittenNext<S>(commits: seq<Commit<S>>)
    requires commits != [] && Bounded(commits)
    requires commits[|commits| - 1].kept < |commits[|commits| - 1].request.batch|
    ensures var last := |commits| - 1; var c := commits[last];
      && var longer := commits[last := c.(kept := c.kept + 1)];
      && LogBefore(longer, last) == LogBefore(commits, last)
      && WrittenLog(longer)
      == WrittenLog(commits) + [Record(c.request.batch[c.kept], |WrittenLog(commits)|, c.stamp)]
  {
    var last := |commits| - 1;
    var c := commits[last];
    var longer := commits[last := c.(kept := c.kept + 1)];
    assert longer[..last] == commits[..last];
    var log := LogBefore(commits, last);
    assert Stamp(Take(c.request.batch, c.kept + 1), |log|, c.stamp)
        == Stamp(Take(c.request.batch, c.kept), |log|, c.stamp) + [Record(c.request.batch[c.kept], |log| + c.kept, c.stamp)];
  }

  /** The last record of the log is the last one kept of the last entry. */
  lemma WrittenLast<S>(commits: seq<Commit<S>>)
    requires commits != [] && Bounded(commits) && commits[|commits| - 1].kept > 0
    ensures var c := commits[|commits| - 1]; var log := WrittenLog(commits);
      && log != []
      && log[|log| - 1] == Record(c.request.batch[c.kept - 1], |log| - 1, c.stamp)
  {
  }

  /** Every earlier log is a prefix of every later one. */
  lemma {:induction false} WrittenPrefix<S>(commits: seq<Commit<S>>, e: nat)
    requires e <= |commits|
    ensures LogBefore(commits, e) <= WrittenLog(commits)
  {
    if e == |commits| {
      assert commits[..e] == commits;
    } else {
      var front := commits[..|commits| - 1];
      WrittenPrefix(front, e);
      assert front[..e] == commits[..e];
    }
  }

  // ----- the invariant -----

  predicate Entered(pc: Pc) {
    pc.Writing? || ((pc.Unlocking? || pc.Done?) && (pc.outcome.Committed? || pc.outcome == Crashed))
  }

  ghost predicate LockOk<S>(lock: Option<nat>, procs: map<nat, Process<S>>) {
    && (lock.Some? ==> lock.value in procs && HoldsLock(procs[lock.value].pc))
    && (forall pid | pid in procs && HoldsLock(procs[pid].pc) :: lock == Some(pid))
  }

  ghost predicate EntryOk<S>(procs: map<nat, Process<S>>, c: Commit<S>) {
    && c.kept <= |c.request.batch|
    && RequestOf(c.job, c.view) == Some(c.request)
    && c.pid in procs && procs[c.pid].job == c.job && Entered(procs[c.pid].pc)
  }

  ghost predicate EntriesOk<S>(commits: seq<Commit<S>>, procs: map<nat, Process<S>>) {
    && (forall e | 0 <= e < |commits| :: EntryOk(procs, commits[e]))
    && (forall d, e | 0 <= d < e < |commits| :: commits[d].pid != commits[e].pid)
  }

  /** `n` is the length of the log. */
  ghost predicate WritingOk<S>(commits: seq<Commit<S>>, n: nat, pc: Pc, pid: nat)
    requires pc.Writing?
  {
    && pc.entry + 1 == |commits|
    && var c := commits[pc.entry];
    && c.pid == pid && pc.done < |c.request.batch|
    && c.kept == pc.done + (if pc.step == 0 then 0 else 1)
    && n == pc.sequence + (if pc.step == 0 then 0 else 1)
    && pc.step <= |FilesOf(c.request.batch[pc.done].event)|
  }

  ghost predicate WholeEntry<S>(commits: seq<Commit<S>>, entry: nat, pid: nat) {
    && entry < |commits| && commits[entry].pid == pid
    && commits[entry].kept == |commits[entry].request.batch|
  }

  ghost predicate ReadingOk(query: Query, n: nat, pc: Pc)
    requires pc.Reading?
  {
    && Conjunctive(query)
    && 0 < |pc.got| == |pc.bounds| <= |FilesRead(query)|
    && forall i, k | 0 <= i < |pc.got| && k in pc.got[i] :: k < n
  }

  ghost predicate PcOk<S>(commits: seq<Commit<S>>, n: nat, p: Process<S>, pid: nat) {
    match p.pc
    case Ready => IsReader(p.job)
    case Reading(_, _, _) => IsReader(p.job) && ReadingOk(QueryOf(p.job), n, p.pc)
    case Queued => RequestOf(p.job, p.view).Some?
    case Locked => RequestOf(p.job, p.view).Some?
    case Scanned(next) => RequestOf(p.job, p.view).Some? && next == n
    case Writing(_, _, _, _) => WritingOk(commits, n, p.pc, pid)
    case Unlocking(outcome) =>
      outcome == Conflict || (outcome.Committed? && WholeEntry(commits, outcome.entry, pid))
    case Done(outcome) =>
      outcome != Failed && (outcome.Committed? ==> WholeEntry(commits, outcome.entry, pid))
  }

  ghost predicate ProcsOk<S>(commits: seq<Commit<S>>, n: nat, procs: map<nat, Process<S>>) {
    forall pid | pid in procs :: PcOk(commits, n, procs[pid], pid)
  }

  /** Everything but the link between the history and the log. */
  ghost predicate SafeWith<S>(s: State<S>, log: seq<EventRecord>) {
    && FilesOk(s.files, log)
    && LockOk(s.lock, s.procs)
    && EntriesOk(s.commits, s.procs)
    && ProcsOk(s.commits, |log|, s.procs)
  }

  ghost predicate Safe<S>(s: State<S>) {
    SafeWith(s, WrittenLog(s.commits))
  }

  // ----- preservation -----

  /** Steps that touch one process and perhaps the lock, but neither files nor history. */
  lemma LocalStep<S>(s: State<S>, t: State<S>, pid: nat, log: seq<EventRecord>)
    requires SafeWith(s, log) && pid in s.procs && pid in t.procs
    requires t.files == s.files && t.commits == s.commits
    requires t.procs == s.procs[pid := t.procs[pid]] && t.procs[pid].job == s.procs[pid].job
    requires PcOk(s.commits, |log|, t.procs[pid], pid)
    requires Entered(s.procs[pid].pc) ==> Entered(t.procs[pid].pc)
    requires HoldsLock(t.procs[pid].pc) <==> t.lock == Some(pid)
    requires t.lock != s.lock ==> s.lock == Some(pid) || s.lock == None
    requires t.lock != s.lock ==> t.lock == Some(pid) || t.lock == None
    ensures SafeWith(t, log)
  {
    forall q | q in t.procs && HoldsLock(t.procs[q].pc) ensures t.lock == Some(q) {
      if q != pid { assert s.lock == Some(q); }
    }
    EntriesKeep(s, t, pid);
    forall q | q in t.procs ensures PcOk(t.commits, |log|, t.procs[q], q) {
      assert q != pid ==> PcOk(s.commits, |log|, s.procs[q], q);
    }
  }

  lemma EntriesKeep<S>(s: State<S>, t: State<S>, pid: nat)
    requires EntriesOk(s.commits, s.procs) && pid in s.procs && pid in t.procs
    requires t.procs == s.procs[pid := t.procs[pid]] && t.procs[pid].job == s.procs[pid].job
    requires Entered(s.procs[pid].pc) ==> Entered(t.procs[pid].pc)
    requires |t.commits| == |s.commits|
    requires forall e | 0 <= e < |s.commits| ::
      t.commits[e] == s.commits[e].(kept := t.commits[e].kept) && t.commits[e].kept <= |t.commits[e].request.batch|
    ensures EntriesOk(t.commits, t.procs)
  {
    forall e | 0 <= e < |t.commits| ensures EntryOk(t.procs, t.commits[e]) {
      assert EntryOk(s.procs, s.commits[e]);
    }
    forall d, e | 0 <= d < e < |t.commits| ensures t.commits[d].pid != t.commits[e].pid {
      assert s.commits[d].pid != s.commits[e].pid;
    }
  }

  lemma EntriesGrow<S>(s: State<S>, t: State<S>, c: Commit<S>)
    requires EntriesOk(s.commits, s.procs) && t.commits == s.commits + [c]
    requires c.pid in s.procs && !Entered(s.procs[c.pid].pc) && c.pid in t.procs
    requires t.procs == s.procs[c.pid := t.procs[c.pid]] && EntryOk(t.procs, c)
    ensures EntriesOk(t.commits, t.procs)
  {
    forall e | 0 <= e < |s.commits| ensures s.commits[e].pid != c.pid && EntryOk(t.procs, t.commits[e]) {
      assert EntryOk(s.procs, s.commits[e]);
    }
  }

  /** Steps of the lock holder that change files or history: the others only see a longer log. */
  lemma HolderStep<S>(s: State<S>, t: State<S>, pid: nat, log: seq<EventRecord>, longer: seq<EventRecord>)
    requires SafeWith(s, log) && pid in s.procs && pid in t.procs
    requires HoldsLock(s.procs[pid].pc) && HoldsLock(t.procs[pid].pc)
    requires t.lock == s.lock && t.procs == s.procs[pid := t.procs[pid]]
    requires FilesOk(t.files, longer) && |log| <= |longer|
    requires |s.commits| <= |t.commits|
    requires forall e | 0 <= e < |s.commits| && s.commits[e].pid != pid :: t.commits[e] == s.commits[e]
    requires EntriesOk(t.commits, t.procs) && PcOk(t.commits, |longer|, t.procs[pid], pid)
    ensures SafeWith(t, longer)
  {
    forall q | q in t.procs ensures PcOk(t.commits, |longer|, t.procs[q], q) {
      if q != pid {
        assert !HoldsLock(s.procs[q].pc);
        assert PcOk(s.commits, |log|, s.procs[q], q);
      }
    }
  }

  lemma ReadAtomicallySafe<S>(s: State<S>, pid: nat)
    requires Safe(s) && pid in s.procs && CanReadAtomically(s.procs[pid])
    ensures Safe(ReadAtomically(s, pid))
  {
    var log := WrittenLog(s.commits);
    ReadSucceeds(s.files, log, QueryOf(s.procs[pid].job), None, None, false);
    LocalStep(s, ReadAtomically(s, pid), pid, log);
  }

  lemma ReadFileSafe<S>(s: State<S>, pid: nat)
    requires Safe(s) && pid in s.procs && CanReadFile(s.procs[pid])
    ensures Safe(ReadFile(s, pid))
  {
    var log := WrittenLog(s.commits);
    var p, q := s.procs[pid], ReadFile(s, pid).procs[pid];
    assert PcOk(s.commits, |log|, p, pid);
    var files := FilesRead(QueryOf(p.job));
    var before := if p.pc.Ready? then [] else p.pc.got;
    var now := Elements(Positions(s.files.index, files[|before|]));
    assert q.pc.got == before + [now];
    forall k | k in now ensures k < |log| {
      PositionBelongs(s.files.index, log, files[|before|], k);
    }
    forall i, k | 0 <= i < |q.pc.got| && k in q.pc.got[i] ensures k < |log| {
      if i < |before| { assert k in before[i]; }
    }
    LocalStep(s, ReadFile(s, pid), pid, log);
  }

  lemma FinishSafe<S>(s: State<S>, pid: nat)
    requires Safe(s) && pid in s.procs && CanFinish(s.procs[pid])
    ensures Safe(Finish(s, pid))
  {
    var log := WrittenLog(s.commits);
    var p := s.procs[pid];
    assert PcOk(s.commits, |log|, p, pid);
    CollectSucceeds(s.files.events, log, QueryOf(p.job), Meet(p.pc.got));
    LocalStep(s, Finish(s, pid), pid, log);
  }

  lemma CollectSucceeds(events: map<nat, EventRecord>, log: seq<EventRecord>, query: Query, positions: set<nat>)
    requires StoresLog(events, log) && forall n | n in positions :: n < |log|
    ensures Collect(events, query, Ascending(positions), None).Ok?
  {
    ReadFilesRecords(events, log, Ascending(positions));
    ReadMatchingSucceeds(events, query, Ascending(positions), None);
  }

  lemma CheckSafe<S>(s: State<S>, pid: nat, stamp: nat)
    requires Safe(s) && pid in s.procs && s.procs[pid].pc.Scanned?
    requires RequestOf(s.procs[pid].job, s.procs[pid].view).Some?
    ensures Safe(DoCheck(s, pid, stamp))
  {
    var p := s.procs[pid];
    assert PcOk(s.commits, |WrittenLog(s.commits)|, p, pid);
    var request := RequestOf(p.job, p.view).value;
    CheckSucceeds(s, request.condition);
    if ReadForCheck(s, request.condition).value != [] {
      LocalStep(s, DoCheck(s, pid, stamp), pid, WrittenLog(s.commits));
    } else {
      CheckPasses(s, pid, Commit(pid, p.job, p.view, request, stamp, 0), DoCheck(s, pid, stamp));
    }
  }

  lemma CheckPasses<S>(s: State<S>, pid: nat, c: Commit<S>, t: State<S>)
    requires Safe(s) && pid in s.procs && s.procs[pid].pc.Scanned?
    requires c.pid == pid && c.job == s.procs[pid].job && RequestOf(c.job, c.view) == Some(c.request) && c.kept == 0
    requires PcOk(s.commits, |WrittenLog(s.commits)|, s.procs[pid], pid)
    requires t == SetPc(s, pid, if c.request.batch == [] then Unlocking(Committed(|s.commits|))
                                else Writing(|s.commits|, s.procs[pid].pc.next, 0, 0))
                    .(commits := s.commits + [c])
    ensures Safe(t)
  {
    var log := WrittenLog(s.commits);
    EmptyEntry(s.commits, c);
    EntriesGrow(s, t, c);
    HolderStep(s, t, pid, log, log);
  }

  lemma CheckSucceeds<S>(s: State<S>, condition: Option<AppendCondition>)
    requires Safe(s)
    ensures ReadForCheck(s, condition).Ok?
  {
    if condition.Some? {
      ReadSucceeds(s.files, WrittenLog(s.commits), condition.value.failIfEventsMatch,
                   condition.value.afterSequencePosition, None, false);
    }
  }

  lemma EntriesBounded<S>(s: State<S>)
    requires EntriesOk(s.commits, s.procs)
    ensures Bounded(s.commits)
  {
    forall e | 0 <= e < |s.commits| ensures s.commits[e].kept <= |s.commits[e].request.batch| {
      assert EntryOk(s.procs, s.commits[e]);
    }
  }

  /** The record an event write adds goes to the end of the log. */
  lemma WriteEventGrows<S>(s: State<S>, pid: nat) returns (record: EventRecord)
    requires Safe(s) && pid in s.procs && AtEventWrite(s.commits, s.procs[pid].pc)
    ensures var pc := s.procs[pid].pc; var c := s.commits[pc.entry];
      && pc.entry + 1 == |s.commits| && c.pid == pid && c.kept == pc.done
      && record == Record(c.request.batch[pc.done], pc.sequence, c.stamp)
      && pc.sequence == |WrittenLog(s.commits)|
      && WrittenLog(WriteEvent(s, pid).commits) == WrittenLog(s.commits) + [record]
  {
    var pc, log := s.procs[pid].pc, WrittenLog(s.commits);
    EventWriteAt(s, pid, log);
    EntriesBounded(s);
    WrittenNext(s.commits);
    var c := s.commits[pc.entry];
    record := Record(c.request.batch[pc.done], pc.sequence, c.stamp);
    assert WriteEvent(s, pid).commits == s.commits[|s.commits| - 1 := c.(kept := c.kept + 1)];
  }

  /** Where an event write stands: the event is the next one of the last entry. */
  lemma EventWriteAt<S>(s: State<S>, pid: nat, log: seq<EventRecord>)
    requires SafeWith(s, log) && pid in s.procs && AtEventWrite(s.commits, s.procs[pid].pc)
    ensures var pc := s.procs[pid].pc; var c := s.commits[pc.entry];
      pc.entry + 1 == |s.commits| && c.pid == pid && c.kept == pc.done && pc.sequence == |log|
  {
    assert PcOk(s.commits, |log|, s.procs[pid], pid);
  }

  lemma WriteEventSafe<S>(s: State<S>, pid: nat)
    requires Safe(s) && pid in s.procs && AtEventWrite(s.commits, s.procs[pid].pc)
    ensures Safe(WriteEvent(s, pid))
  {
    var record := WriteEventGrows(s, pid);
    WriteEventWith(s, WriteEvent(s, pid), pid, WrittenLog(s.commits), record);
  }

  lemma WriteEventWith<S>(s: State<S>, t: State<S>, pid: nat, log: seq<EventRecord>, record: EventRecord)
    requires SafeWith(s, log) && pid in s.procs && AtEventWrite(s.commits, s.procs[pid].pc)
    requires record.position == s.procs[pid].pc.sequence == |log|
    requires var pc := s.procs[pid].pc; var c := s.commits[pc.entry];
      && record == Record(c.request.batch[pc.done], pc.sequence, c.stamp)
      && pc.entry + 1 == |s.commits| && c.pid == pid && c.kept == pc.done
    requires t == WriteEvent(s, pid)
    ensures SafeWith(t, log + [record])
  {
    StoreNext(s.files.events, log, record);
    TruthfulLonger(s.files.index, log, record);
    forall e | 0 <= e < |s.commits| ensures t.commits[e].kept <= |t.commits[e].request.batch| {
      assert EntryOk(s.procs, s.commits[e]);
    }
    EntriesKeep(s, t, pid);
    HolderStep(s, t, pid, log, log + [record]);
  }

  lemma TruthfulLonger(index: Index, log: seq<EventRecord>, r: EventRecord)
    requires Truthful(index, log)
    ensures Truthful(index, log + [r])
  {
    forall f, n | n in Positions(index, f) ensures Belongs(log + [r], f, n) {
      PositionBelongs(index, log, f, n);
    }
  }

  lemma IndexWriteEntry<S>(s: State<S>, pid: nat, log: seq<EventRecord>)
    requires SafeWith(s, log) && pid in s.procs && AtIndexWrite(s.commits, s.procs[pid].pc)
    ensures var pc := s.procs[pid].pc;
      && pc.entry + 1 == |s.commits| && |log| == pc.sequence + 1
      && s.commits[|s.commits| - 1].kept == pc.done + 1
    ensures Bounded(s.commits)
  {
    assert PcOk(s.commits, |log|, s.procs[pid], pid);
    EntriesBounded(s);
  }

  /** The newest event of a log is the one its last entry kept last. */
  ghost predicate EndsWith<S>(log: seq<EventRecord>, commits: seq<Commit<S>>) {
    && commits != [] && log != []
    && var c := commits[|commits| - 1];
    && 0 < c.kept <= |c.request.batch|
    && log[|log| - 1] == Record(c.request.batch[c.kept - 1], |log| - 1, c.stamp)
  }

  lemma WrittenEnds<S>(commits: seq<Commit<S>>)
    requires commits != [] && Bounded(commits) && commits[|commits| - 1].kept > 0
    ensures EndsWith(WrittenLog(commits), commits)
  {
    WrittenLast(commits);
  }

  lemma NewestEvent<S>(commits: seq<Commit<S>>, pc: Pc, log: seq<EventRecord>)
    requires AtIndexWrite(commits, pc) && pc.entry + 1 == |commits| && EndsWith(log, commits)
    requires commits[|commits| - 1].kept == pc.done + 1 && |log| == pc.sequence + 1
    ensures log[pc.sequence].event == EventAt(commits, pc)
  {
  }

  /** Where an index write stands: the event being indexed is the newest one. */
  lemma IndexWriteAt<S>(s: State<S>, pid: nat)
    requires Safe(s) && pid in s.procs && AtIndexWrite(s.commits, s.procs[pid].pc)
    ensures var pc := s.procs[pid].pc; var log := WrittenLog(s.commits);
      && pc.entry + 1 == |s.commits|
      && |log| == pc.sequence + 1
      && log[pc.sequence].event == EventAt(s.commits, pc)
  {
    IndexWriteEntry(s, pid, WrittenLog(s.commits));
    WrittenEnds(s.commits);
    NewestEvent(s.commits, s.procs[pid].pc, WrittenLog(s.commits));
  }

  lemma TruthfulAdd(index: Index, log: seq<EventRecord>, file: IndexFile, p: nat, more: Index)
    requires Ordered(index) && Truthful(index, log) && more == AddPosition(index, file, p)
    requires p < |log| && file in FilesOf(log[p].event)
    ensures Truthful(more, log)
  {
    forall f, n | n in Positions(more, f) ensures Belongs(log, f, n) {
      BelongsAfterAdding(index, log, file, p, f, n);
    }
  }

  lemma BelongsAfterAdding(index: Index, log: seq<EventRecord>, file: IndexFile, p: nat, f: IndexFile, n: nat)
    requires Ordered(index) && Truthful(index, log)
    requires p < |log| && file in FilesOf(log[p].event)
    requires n in Positions(AddPosition(index, file, p), f)
    ensures Belongs(log, f, n)
  {
    PositionAfterAdding(index, log, file, p, f, n);
  }

  lemma AfterIndexFileOk<S>(s: State<S>, pid: nat)
    requires Safe(s) && pid in s.procs && AtIndexWrite(s.commits, s.procs[pid].pc)
    ensures PcOk(s.commits, |WrittenLog(s.commits)|, s.procs[pid].(pc := AfterIndexFile(s.commits, s.procs[pid].pc)), pid)
  {
    assert PcOk(s.commits, |WrittenLog(s.commits)|, s.procs[pid], pid);
  }

  lemma WriteIndexSafe<S>(s: State<S>, pid: nat)
    requires Safe(s) && pid in s.procs && AtIndexWrite(s.commits, s.procs[pid].pc)
    ensures Safe(WriteIndex(s, pid))
  {
    var pc, log := s.procs[pid].pc, WrittenLog(s.commits);
    var t := WriteIndex(s, pid);
    IndexWriteAt(s, pid);
    AfterIndexFileOk(s, pid);
    AddPositionExact(s.files.index, FilesOf(EventAt(s.commits, pc))[pc.step - 1], pc.sequence);
    TruthfulAdd(s.files.index, log, FilesOf(EventAt(s.commits, pc))[pc.step - 1], pc.sequence, t.files.index);
    LocalStep(s, t.(files := s.files), pid, log);
  }

  lemma LoseIndexSafe<S>(s: State<S>, pid: nat)
    requires Safe(s) && pid in s.procs && AtIndexWrite(s.commits, s.procs[pid].pc)
    ensures Safe(LoseIndex(s, pid))
  {
    AfterIndexFileOk(s, pid);
    LocalStep(s, LoseIndex(s, pid), pid, WrittenLog(s.commits));
  }

  lemma LockingSafe<S>(s: State<S>, a: Action)
    requires Safe(s) && Enabled(s, a) && (a.Acquire? || a.ScanDirectory? || a.Release? || a.Crash?)
    ensures Safe(Next(s, a))
  {
    var log := WrittenLog(s.commits);
    assert PcOk(s.commits, |log|, s.procs[a.pid], a.pid);
    NextIsLength(s.files.events, log);
    LocalStep(s, Next(s, a), a.pid, log);
  }

  ghost predicate Replaces<S>(s: State<S>, t: State<S>, pid: nat) {
    && pid in s.procs && pid in t.procs
    && t.procs == s.procs[pid := t.procs[pid]] && t.procs[pid].job == s.procs[pid].job
  }

  lemma ReaderReplaces<S>(s: State<S>, a: Action)
    requires Enabled(s, a) && (a.AtomicRead? || a.ReadIndexFile? || a.FinishRead?)
    ensures Replaces(s, Next(s, a), a.pid)
  {
    match a
    case AtomicRead(pid) => assert ReadAtomically(s, pid).procs[pid].job == s.procs[pid].job;
    case ReadIndexFile(pid) => assert ReadFile(s, pid).procs[pid].job == s.procs[pid].job;
    case FinishRead(pid) => assert Finish(s, pid).procs[pid].job == s.procs[pid].job;
  }

  lemma HolderReplaces<S>(s: State<S>, a: Action)
    requires Enabled(s, a) && !a.AtomicRead? && !a.ReadIndexFile? && !a.FinishRead?
    ensures Replaces(s, Next(s, a), a.pid)
  {
  }

  /** A step replaces at most its own process, which keeps its job. */
  lemma SameJobs<S>(s: State<S>, a: Action)
    ensures Next(s, a).procs.Keys == s.procs.Keys
    ensures forall pid | pid in s.procs ::
      Next(s, a).procs[pid].job == s.procs[pid].job && (pid != a.pid ==> Next(s, a).procs[pid] == s.procs[pid])
  {
    if Enabled(s, a) {
      if a.AtomicRead? || a.ReadIndexFile? || a.FinishRead? {
        ReaderReplaces(s, a);
      } else {
        HolderReplaces(s, a);
      }
      ReplacedOne(s, Next(s, a), a.pid);
    }
  }

  lemma ReplacedOne<S>(s: State<S>, t: State<S>, pid: nat)
    requires Replaces(s, t, pid)
    ensures t.procs.Keys == s.procs.Keys
    ensures forall q | q in s.procs :: t.procs[q].job == s.procs[q].job && (q != pid ==> t.procs[q] == s.procs[q])
  {
  }

  lemma StepSafe<S>(s: State<S>, a: Action)
    requires Safe(s)
    ensures Safe(Next(s, a))
  {
    if Enabled(s, a) {
      match a
      case AtomicRead(pid) => ReadAtomicallySafe(s, pid);
      case ReadIndexFile(pid) => ReadFileSafe(s, pid);
      case FinishRead(pid) => FinishSafe(s, pid);
      case Check(pid, stamp) => CheckSafe(s, pid, stamp);
      case WriteEventFile(pid) => WriteEventSafe(s, pid);
      case WriteIndexFile(pid) => WriteIndexSafe(s, pid);
      case LoseIndexWrite(pid) => LoseIndexSafe(s, pid);
      case Acquire(_) => LockingSafe(s, a);
      case ScanDirectory(_) => LockingSafe(s, a);
      case Release(_) => LockingSafe(s, a);
      case Crash(_) => LockingSafe(s, a);
    }
  }

  lemma InitSafe<S>(s: State<S>)
    requires Init(s)
    ensures Safe(s)
  {
    assert WrittenLog(s.commits) == [];
    assert StoresLog(s.files.events, []) && Ordered(s.files.index) && Truthful(s.files.index, []);
  }

  lemma {:induction false} RunSafe<S>(s: State<S>, run: seq<Action>)
    requires Init(s)
    ensures Safe(After(s, run))
  {
    if run == [] {
      InitSafe(s);
    } else {
      RunSafe(s, run[..|run| - 1]);
      StepSafe(After(s, run[..|run| - 1]), run[|run| - 1]);
    }
  }
}
