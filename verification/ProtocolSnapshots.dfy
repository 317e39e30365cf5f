/** As long as no event is left half-indexed, what the index shows is always a prefix of the
    log; so the answer of an unlocked read is a snapshot. */
module ProtocolSnapshots {
  import opened Domain
  import opened FileNames
  import opened Sequences
  import opened Log
  import opened IndexedRead
  import opened Indices
  import opened Protocol
  import opened ProtocolSafety

  /** The step counter of an event whose indexing is under way. */
  ghost function InFlight<S>(s: State<S>): Option<nat> {
    if s.lock.Some? && s.lock.value in s.procs && s.procs[s.lock.value].pc.Writing? && s.procs[s.lock.value].pc.step > 0
    then Some(s.procs[s.lock.value].pc.step) else None
  }

  /** All events are fully indexed, except the newest one while it is being indexed. */
  ghost predicate Settled(index: Index, log: seq<EventRecord>, settled: nat, inFlight: Option<nat>) {
    && settled <= |log| && Complete(index, log, settled)
    && match inFlight
       case None => settled == |log|
       case Some(step) =>
         && settled + 1 == |log| && 0 < step <= |FilesOf(log[settled].event)|
         && forall f :: settled in Positions(index, f) <==> f in FilesOf(log[settled].event)[..step - 1]
  }

  /** Each file of a conjunctive read was seen at a time when it showed a prefix of the log. */
  ghost predicate ReadPrefixes(query: Query, pc: Pc, log: seq<EventRecord>, settled: nat)
    requires pc.Reading? && Conjunctive(query)
  {
    && |pc.bounds| == |pc.got| <= |FilesRead(query)| && pc.lo <= settled
    && forall i | 0 <= i < |pc.got| ::
         pc.lo <= pc.bounds[i] <= |log| && pc.got[i] == Below(log, FilesRead(query)[i], pc.bounds[i])
  }

  ghost predicate ReadersOk<S>(procs: map<nat, Process<S>>, log: seq<EventRecord>, settled: nat) {
    forall pid | pid in procs && procs[pid].pc.Reading? && IsReader(procs[pid].job) ::
      Conjunctive(QueryOf(procs[pid].job)) ==> ReadPrefixes(QueryOf(procs[pid].job), procs[pid].pc, log, settled)
  }

  ghost predicate QuietWith<S>(s: State<S>, log: seq<EventRecord>) {
    Settled(s.files.index, log, s.settled, InFlight(s)) && ReadersOk(s.procs, log, s.settled)
  }

  ghost predicate Quiet<S>(s: State<S>) {
    !s.torn ==> QuietWith(s, WrittenLog(s.commits))
  }

  /** What a file shows at any moment is a prefix of the log: its horizon. */
  lemma ShowsPrefix<S>(s: State<S>, log: seq<EventRecord>, file: IndexFile)
    requires FilesOk(s.files, log) && Settled(s.files.index, log, s.settled, InFlight(s))
    ensures s.settled <= Horizon(s, file) <= |log|
    ensures Elements(Positions(s.files.index, file)) == Below(log, file, Horizon(s, file))
  {
    var positions := Positions(s.files.index, file);
    forall p: nat ensures p in positions <==> p < |log| && p < Horizon(s, file) && file in FilesOf(log[p].event) {
      if p in positions { PositionBelongs(s.files.index, log, file, p); }
    }
    if s.settled in positions { PositionBelongs(s.files.index, log, file, s.settled); }
  }

  lemma ReadersLonger<S>(procs: map<nat, Process<S>>, log: seq<EventRecord>, longer: seq<EventRecord>, m: nat, n: nat)
    requires ReadersOk(procs, log, m) && log <= longer && m <= n
    ensures ReadersOk(procs, longer, n)
  {
    forall pid | pid in procs && procs[pid].pc.Reading? && IsReader(procs[pid].job) && Conjunctive(QueryOf(procs[pid].job))
      ensures ReadPrefixes(QueryOf(procs[pid].job), procs[pid].pc, longer, n)
    {
      var query, pc := QueryOf(procs[pid].job), procs[pid].pc;
      assert ReadPrefixes(query, pc, log, m);
      forall i | 0 <= i < |pc.got| ensures Below(longer, FilesRead(query)[i], pc.bounds[i]) == pc.got[i] {
        assert forall p: nat | p < pc.bounds[i] :: longer[p] == log[p];
      }
    }
  }

  lemma ReadersReplace<S>(procs: map<nat, Process<S>>, pid: nat, p: Process<S>, log: seq<EventRecord>, settled: nat)
    requires ReadersOk(procs, log, settled)
    requires p.pc.Reading? && IsReader(p.job) && Conjunctive(QueryOf(p.job)) ==> ReadPrefixes(QueryOf(p.job), p.pc, log, settled)
    ensures ReadersOk(procs[pid := p], log, settled)
  {
  }

  // ----- preservation -----

  lemma ReadFileQuiet<S>(s: State<S>, pid: nat)
    requires Safe(s) && Quiet(s) && pid in s.procs && CanReadFile(s.procs[pid])
    ensures Quiet(ReadFile(s, pid))
  {
    if !s.torn { ReadFileQuietWith(s, pid, WrittenLog(s.commits)); }
  }

  lemma ReadFileQuietWith<S>(s: State<S>, pid: nat, log: seq<EventRecord>)
    requires SafeWith(s, log) && QuietWith(s, log) && pid in s.procs && CanReadFile(s.procs[pid])
    ensures QuietWith(ReadFile(s, pid), log)
  {
    var t := ReadFile(s, pid);
    var p := s.procs[pid];
    assert PcOk(s.commits, |log|, p, pid);
    NotWriting(s, t, pid);
    ReadOneMore(s, log, QueryOf(p.job), if p.pc.Ready? then Reading([], [], s.settled) else p.pc, t.procs[pid].pc);
    ReadersReplace(s.procs, pid, t.procs[pid], log, s.settled);
  }

  lemma ReadOneMore<S>(s: State<S>, log: seq<EventRecord>, query: Query, before: Pc, after: Pc)
    requires FilesOk(s.files, log) && Settled(s.files.index, log, s.settled, InFlight(s))
    requires Conjunctive(query) && before.Reading? && ReadPrefixes(query, before, log, s.settled)
    requires |before.got| < |FilesRead(query)|
    requires var file := FilesRead(query)[|before.got|];
      after == Reading(before.got + [Elements(Positions(s.files.index, file))], before.bounds + [Horizon(s, file)], before.lo)
    ensures ReadPrefixes(query, after, log, s.settled)
  {
    ShowsPrefix(s, log, FilesRead(query)[|before.got|]);
  }

  /** A step of a process outside the writing phase leaves the event in flight alone. */
  lemma NotWriting<S>(s: State<S>, t: State<S>, pid: nat)
    requires pid in s.procs && pid in t.procs && t.procs == s.procs[pid := t.procs[pid]]
    requires LockOk(s.lock, s.procs)
    requires !s.procs[pid].pc.Writing? || s.procs[pid].pc.step == 0
    requires !t.procs[pid].pc.Writing? || t.procs[pid].pc.step == 0
    requires t.lock == s.lock || t.lock == Some(pid) || (t.lock == None && s.lock == Some(pid))
    requires t.lock != s.lock ==> s.lock == Some(pid) || s.lock == None
    ensures InFlight(t) == InFlight(s)
  {
  }

  /** Steps that change neither files nor the settled count nor an event in flight. */
  lemma StillQuiet<S>(s: State<S>, t: State<S>, pid: nat, log: seq<EventRecord>)
    requires LockOk(s.lock, s.procs) && QuietWith(s, log)
    requires pid in s.procs && pid in t.procs && t.procs == s.procs[pid := t.procs[pid]]
    requires t.files == s.files && t.settled == s.settled
    requires !s.procs[pid].pc.Writing? || s.procs[pid].pc.step == 0
    requires !t.procs[pid].pc.Writing? || t.procs[pid].pc.step == 0
    requires !t.procs[pid].pc.Reading?
    requires t.lock == s.lock || t.lock == Some(pid) || (t.lock == None && s.lock == Some(pid))
    requires t.lock != s.lock ==> s.lock == Some(pid) || s.lock == None
    ensures QuietWith(t, log)
  {
    NotWriting(s, t, pid);
    ReadersReplace(s.procs, pid, t.procs[pid], log, s.settled);
  }

  lemma CheckQuiet<S>(s: State<S>, pid: nat, stamp: nat)
    requires Safe(s) && Quiet(s) && pid in s.procs && s.procs[pid].pc.Scanned?
    requires RequestOf(s.procs[pid].job, s.procs[pid].view).Some?
    ensures Quiet(DoCheck(s, pid, stamp))
  {
    if !s.torn {
      var p := s.procs[pid];
      EmptyEntry(s.commits, Commit(pid, p.job, p.view, RequestOf(p.job, p.view).value, stamp, 0));
      CheckShape(s, pid, stamp);
      CheckedQuiet(s, DoCheck(s, pid, stamp), pid, WrittenLog(s.commits));
    }
  }

  /** A check leaves files and lock alone and moves its process to unlocking or to its first write. */
  ghost predicate Checked<S>(s: State<S>, t: State<S>, pid: nat) {
    && t.files == s.files && t.settled == s.settled && t.lock == s.lock && t.torn == s.torn
    && pid in s.procs && pid in t.procs && t.procs == s.procs[pid := t.procs[pid]]
    && t.procs[pid] == s.procs[pid].(pc := t.procs[pid].pc)
    && (t.procs[pid].pc.Unlocking? || (t.procs[pid].pc.Writing? && t.procs[pid].pc.step == 0))
  }

  lemma CheckShape<S>(s: State<S>, pid: nat, stamp: nat)
    requires pid in s.procs && s.procs[pid].pc.Scanned? && RequestOf(s.procs[pid].job, s.procs[pid].view).Some?
    ensures Checked(s, DoCheck(s, pid, stamp), pid)
  {
    var p := s.procs[pid];
    var request := RequestOf(p.job, p.view).value;
    var r := ReadForCheck(s, request.condition);
    MovedTo(s, pid, if r.Err? then Unlocking(Failed)
                    else if r.value != [] then Unlocking(Conflict)
                    else if request.batch == [] then Unlocking(Committed(|s.commits|))
                    else Writing(|s.commits|, p.pc.next, 0, 0), DoCheck(s, pid, stamp).commits);
  }

  lemma MovedTo<S>(s: State<S>, pid: nat, pc: Pc, commits: seq<Commit<S>>)
    requires pid in s.procs && (pc.Unlocking? || (pc.Writing? && pc.step == 0))
    ensures Checked(s, SetPc(s, pid, pc), pid) && Checked(s, SetPc(s, pid, pc).(commits := commits), pid)
  {
  }

  lemma CheckedQuiet<S>(s: State<S>, t: State<S>, pid: nat, log: seq<EventRecord>)
    requires SafeWith(s, log) && QuietWith(s, log) && Checked(s, t, pid) && s.procs[pid].pc.Scanned?
    ensures QuietWith(t, log)
  {
    StillQuiet(s, t, pid, log);
  }

  lemma WriteEventQuiet<S>(s: State<S>, pid: nat)
    requires Safe(s) && Quiet(s) && pid in s.procs && AtEventWrite(s.commits, s.procs[pid].pc)
    ensures Quiet(WriteEvent(s, pid))
  {
    if !s.torn {
      var log := WrittenLog(s.commits);
      var record := WriteEventGrows(s, pid);
      assert s.lock == Some(pid);
      StartsInFlight(s.files.index, log, record);
      ReadersLonger(s.procs, log, log + [record], s.settled, s.settled);
      ReadersReplace(s.procs, pid, WriteEvent(s, pid).procs[pid], log + [record], s.settled);
    }
  }

  lemma StartsInFlight(index: Index, log: seq<EventRecord>, record: EventRecord)
    requires Truthful(index, log) && Settled(index, log, |log|, None)
    ensures Settled(index, log + [record], |log|, Some(1))
  {
    var longer := log + [record];
    forall p: nat, f | p < |log| && f in FilesOf(longer[p].event) ensures p in Positions(index, f) {
      assert longer[p] == log[p];
    }
    forall f ensures |log| !in Positions(index, f) {
      assert !Belongs(log, f, |log|);
    }
  }

  lemma IndexesNext(index: Index, log: seq<EventRecord>, settled: nat, step: nat)
    requires Ordered(index) && Settled(index, log, settled, Some(step))
    ensures var files := FilesOf(log[settled].event);
      var more := AddPosition(index, files[step - 1], settled);
      if step < |files| then Settled(more, log, settled, Some(step + 1)) else Settled(more, log, settled + 1, None)
  {
    var files := FilesOf(log[settled].event);
    var more := AddPosition(index, files[step - 1], settled);
    AddPositionExact(index, files[step - 1], settled);
    assert files[..step] == files[..step - 1] + [files[step - 1]];
    KeepsComplete(index, more, log, settled);
    forall f ensures settled in Positions(more, f) <==> f in files[..step] {}
    if step == |files| {
      assert files[..step] == files;
      CompletesNext(more, log, settled);
    }
  }

  lemma KeepsComplete(index: Index, more: Index, log: seq<EventRecord>, n: nat)
    requires n <= |log| && Complete(index, log, n)
    requires forall f, p | p in Positions(index, f) :: p in Positions(more, f)
    ensures Complete(more, log, n)
  {
    forall p: nat, f | p < n && f in FilesOf(log[p].event) ensures p in Positions(more, f) {
      assert p in Positions(index, f);
    }
  }

  lemma CompletesNext(index: Index, log: seq<EventRecord>, n: nat)
    requires n < |log| && Complete(index, log, n)
    requires forall f | f in FilesOf(log[n].event) :: n in Positions(index, f)
    ensures Complete(index, log, n + 1)
  {
    forall p: nat, f | p < n + 1 && f in FilesOf(log[p].event) ensures p in Positions(index, f) {
      assert p == n || p < n;
    }
  }

  lemma WriteIndexQuiet<S>(s: State<S>, pid: nat)
    requires Safe(s) && Quiet(s) && pid in s.procs && AtIndexWrite(s.commits, s.procs[pid].pc)
    ensures Quiet(WriteIndex(s, pid))
  {
    if !s.torn {
      IndexWriteAt(s, pid);
      WriteIndexQuietWith(s, pid, WrittenLog(s.commits));
    }
  }

  lemma WriteIndexQuietWith<S>(s: State<S>, pid: nat, log: seq<EventRecord>)
    requires SafeWith(s, log) && QuietWith(s, log) && pid in s.procs && AtIndexWrite(s.commits, s.procs[pid].pc)
    requires |log| == s.procs[pid].pc.sequence + 1
    requires log[s.procs[pid].pc.sequence].event == EventAt(s.commits, s.procs[pid].pc)
    ensures QuietWith(WriteIndex(s, pid), log)
  {
    var pc, t := s.procs[pid].pc, WriteIndex(s, pid);
    assert s.lock == Some(pid);
    assert InFlight(s) == Some(pc.step) && s.settled == pc.sequence;
    IndexesNext(s.files.index, log, s.settled, pc.step);
    WriteIndexReaders(s, pid, log);
  }

  lemma WriteIndexReaders<S>(s: State<S>, pid: nat, log: seq<EventRecord>)
    requires ReadersOk(s.procs, log, s.settled) && pid in s.procs && AtIndexWrite(s.commits, s.procs[pid].pc)
    requires s.settled == s.procs[pid].pc.sequence
    ensures ReadersOk(WriteIndex(s, pid).procs, log, WriteIndex(s, pid).settled)
  {
    var t := WriteIndex(s, pid);
    ReadersLonger(s.procs, log, log, s.settled, t.settled);
    ReadersReplace(s.procs, pid, t.procs[pid], log, t.settled);
  }

  lemma ReadQuiet<S>(s: State<S>, t: State<S>, pid: nat, r: Result<seq<EventRecord>>, bound: nat, lo: nat)
    requires Safe(s) && Quiet(s) && pid in s.procs && !HoldsLock(s.procs[pid].pc)
    requires t == s.(procs := s.procs[pid := AfterRead(s.procs[pid], r, bound, lo)])
    ensures Quiet(t)
  {
    if !s.torn { StillQuiet(s, t, pid, WrittenLog(s.commits)); }
  }

  lemma LockingQuiet<S>(s: State<S>, a: Action)
    requires Safe(s) && Quiet(s) && Enabled(s, a) && (a.Acquire? || a.ScanDirectory? || a.Release?)
    ensures Quiet(Next(s, a))
  {
    if !s.torn { StillQuiet(s, Next(s, a), a.pid, WrittenLog(s.commits)); }
  }

  /** A crash between two events keeps the index whole; one within an event is recorded as torn. */
  lemma CrashQuiet<S>(s: State<S>, pid: nat)
    requires Safe(s) && Quiet(s) && pid in s.procs && !s.procs[pid].pc.Done?
    ensures Quiet(CrashNow(s, pid))
  {
    if !CrashNow(s, pid).torn { StillQuiet(s, CrashNow(s, pid), pid, WrittenLog(s.commits)); }
  }

  lemma ReadAtomicallyQuiet<S>(s: State<S>, pid: nat)
    requires Safe(s) && Quiet(s) && pid in s.procs && CanReadAtomically(s.procs[pid])
    ensures Quiet(ReadAtomically(s, pid))
  {
    var query := QueryOf(s.procs[pid].job);
    ReadQuiet(s, ReadAtomically(s, pid), pid, ReadResult(s.files, query, None, None, false), AtomicBound(s, query), s.settled);
  }

  lemma FinishQuiet<S>(s: State<S>, pid: nat)
    requires Safe(s) && Quiet(s) && pid in s.procs && CanFinish(s.procs[pid])
    ensures Quiet(Finish(s, pid))
  {
    var p := s.procs[pid];
    var r := Collect(s.files.events, QueryOf(p.job), Ascending(Meet(p.pc.got)), None);
    ReadQuiet(s, Finish(s, pid), pid, r, Least(p.pc.bounds), p.pc.lo);
  }

  lemma StepQuiet<S>(s: State<S>, a: Action)
    requires Safe(s) && Quiet(s)
    ensures Quiet(Next(s, a))
  {
    if Enabled(s, a) {
      match a
      case AtomicRead(pid) => ReadAtomicallyQuiet(s, pid);
      case ReadIndexFile(pid) => ReadFileQuiet(s, pid);
      case FinishRead(pid) => FinishQuiet(s, pid);
      case Check(pid, stamp) => CheckQuiet(s, pid, stamp);
      case WriteEventFile(pid) => WriteEventQuiet(s, pid);
      case WriteIndexFile(pid) => WriteIndexQuiet(s, pid);
      case LoseIndexWrite(_) =>
      case Acquire(_) => LockingQuiet(s, a);
      case ScanDirectory(_) => LockingQuiet(s, a);
      case Release(_) => LockingQuiet(s, a);
      case Crash(pid) => CrashQuiet(s, pid);
    }
  }

  lemma {:induction false} RunQuiet<S>(s: State<S>, run: seq<Action>)
    requires Init(s)
    ensures Quiet(After(s, run))
  {
    if run != [] {
      RunSafe(s, run[..|run| - 1]);
      RunQuiet(s, run[..|run| - 1]);
      StepQuiet(After(s, run[..|run| - 1]), run[|run| - 1]);
    }
  }
}
