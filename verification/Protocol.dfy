/** The store as a step machine. Any number of processes share the files and the global lock.
    Every index-file read of a conjunctive query, every event-file write and every index-file
    write is a step of its own; a process may crash (or fail a write) between any two steps,
    upon which its lock is free again. */
module Protocol {
  import opened Domain
  import opened FileNames
  import opened Sequences
  import opened Log
  import opened IndexedRead
  import opened Indices
  import opened DecisionModel

  datatype Job<!S> =
    | AppendJob(batch: seq<EventData>, condition: Option<AppendCondition>)
    | ExecuteJob(decision: Decision<S>, maxRetries: nat)
    | ReadJob(query: Query)

  /** What a read saw. `bound` and `settledAtStart` are history: the log length the answer is
      a snapshot of, and how many events were fully indexed when the read began. */
  datatype View = View(seen: seq<EventRecord>, bound: nat, settledAtStart: nat)

  datatype Request = Request(batch: seq<EventData>, condition: Option<AppendCondition>)

  /** `Committed` names the entry of the commit history. */
  datatype Outcome = Committed(entry: nat) | Conflict | Rejected | Seen | Failed | Crashed

  datatype Pc =
    | Ready
    | Reading(got: seq<set<nat>>, bounds: seq<nat>, lo: nat)
    | Queued
    | Locked
    | Scanned(next: nat)
    /** `step` 0: the event file of `batch[done]` is next; `step` k+1: k of its index files are written. */
    | Writing(entry: nat, sequence: nat, done: nat, step: nat)
    | Unlocking(outcome: Outcome)
    | Done(outcome: Outcome)

  datatype Process<!S> = Process(job: Job<S>, attempt: nat, view: Option<View>, pc: Pc)

  /** History: one entry for each append whose condition held, in the order of the global lock. */
  datatype Commit<!S> = Commit(
    pid: nat, job: Job<S>, view: Option<View>, request: Request, stamp: nat, kept: nat)

  /** `settled` counts the events whose indexing is finished; `torn` records that some event
      will never be fully indexed. Both are history. */
  datatype State<!S> = State(
    files: Files, lock: Option<nat>, procs: map<nat, Process<S>>,
    commits: seq<Commit<S>>, settled: nat, torn: bool)

  datatype Action =
    | AtomicRead(pid: nat)
    | ReadIndexFile(pid: nat)
    | FinishRead(pid: nat)
    | Acquire(pid: nat)
    | ScanDirectory(pid: nat)
    | Check(pid: nat, stamp: nat)
    | WriteEventFile(pid: nat)
    | WriteIndexFile(pid: nat)
    | LoseIndexWrite(pid: nat)
    | Release(pid: nat)
    | Crash(pid: nat)

  // ----- reading -----

  /** One item naming at most one type, so that the answer is an intersection of position files. */
  predicate Conjunctive(query: Query) {
    |query.items| == 1 && |query.items[0].eventTypes| <= 1 && !Vacuous(query.items[0])
  }

  /** The files a conjunctive query reads, in order. */
  function FilesRead(query: Query): (files: seq<IndexFile>)
    requires Conjunctive(query)
    ensures files != []
  {
    var item := query.items[0];
    (if item.eventTypes == [] then [] else [FileOfType(item.eventTypes[0])])
    + seq(|item.tags|, i requires 0 <= i < |item.tags| => FileOfTag(item.tags[i]))
  }

  function Meet(sets: seq<set<nat>>): set<nat>
    requires sets != []
  {
    set p | p in sets[0] && forall i | 0 <= i < |sets| :: p in sets[i]
  }

  function Least(ns: seq<nat>): (m: nat)
    requires ns != []
    ensures m in ns && forall n | n in ns :: m <= n
  {
    if |ns| == 1 then ns[0]
    else
      var rest := Least(ns[1..]);
      assert ns == [ns[0]] + ns[1..];
      if ns[0] <= rest then ns[0] else rest
  }

  predicate IsReader<S>(job: Job<S>) {
    !job.AppendJob?
  }

  function QueryOf<S>(job: Job<S>): Query
    requires IsReader(job)
  {
    if job.ExecuteJob? then job.decision.state.query else job.query
  }

  /** History: how much of the log a file shows right now. */
  ghost function Horizon<S>(s: State<S>, file: IndexFile): nat {
    if s.settled in Positions(s.files.index, file) then s.settled + 1 else s.settled
  }

  ghost function AtomicBound<S>(s: State<S>, query: Query): nat {
    if query.items == [] then NextPosition(s.files.events)
    else if s.settled in QueryPositions(s.files, query, 0) then s.settled + 1
    else s.settled
  }

  /** What the process asks the store to append: fixed for an append job, decided from the
      state folded over the view for a decision. */
  ghost function RequestOf<S>(job: Job<S>, view: Option<View>): Option<Request> {
    match job
    case AppendJob(batch, condition) => Some(Request(batch, condition))
    case ReadJob(_) => None
    case ExecuteJob(decision, _) =>
      if view.None? then None else
      var model := Build(decision.state, view.value.seen);
      var batch := decision.process(model.state);
      if batch.None? then None else Some(Request(batch.value, Some(model.appendCondition)))
  }

  ghost function AfterRead<S>(p: Process<S>, r: Result<seq<EventRecord>>, bound: nat, lo: nat): Process<S> {
    if r.Err? then p.(pc := Done(Failed))
    else
      var view := Some(View(r.value, bound, lo));
      p.(view := view,
         pc := if p.job.ReadJob? then Done(Seen)
               else if RequestOf(p.job, view).None? then Done(Rejected)
               else Queued)
  }

  // ----- steps -----

  predicate HoldsLock(pc: Pc) {
    pc.Locked? || pc.Scanned? || pc.Writing? || pc.Unlocking?
  }

  ghost function SetPc<S>(s: State<S>, pid: nat, pc: Pc): State<S>
    requires pid in s.procs
  {
    s.(procs := s.procs[pid := s.procs[pid].(pc := pc)])
  }

  /** A query that is not conjunctive is answered at one instant. */
  ghost predicate CanReadAtomically<S>(p: Process<S>) {
    p.pc.Ready? && IsReader(p.job) && !Conjunctive(QueryOf(p.job))
  }

  ghost function ReadAtomically<S>(s: State<S>, pid: nat): State<S>
    requires pid in s.procs && CanReadAtomically(s.procs[pid])
  {
    var p := s.procs[pid];
    var query := QueryOf(p.job);
    var r := ReadResult(s.files, query, None, None, false);
    s.(procs := s.procs[pid := AfterRead(p, r, AtomicBound(s, query), s.settled)])
  }

  ghost predicate CanReadFile<S>(p: Process<S>) {
    && IsReader(p.job) && Conjunctive(QueryOf(p.job))
    && (p.pc.Ready? || (p.pc.Reading? && |p.pc.got| < |FilesRead(QueryOf(p.job))|))
  }

  ghost function ReadFile<S>(s: State<S>, pid: nat): State<S>
    requires pid in s.procs && CanReadFile(s.procs[pid])
  {
    var p := s.procs[pid];
    var pc := if p.pc.Ready? then Reading([], [], s.settled) else p.pc;
    var file := FilesRead(QueryOf(p.job))[|pc.got|];
    SetPc(s, pid, Reading(pc.got + [Elements(Positions(s.files.index, file))], pc.bounds + [Horizon(s, file)], pc.lo))
  }

  ghost predicate CanFinish<S>(p: Process<S>) {
    && IsReader(p.job) && Conjunctive(QueryOf(p.job))
    && p.pc.Reading? && |p.pc.got| == |FilesRead(QueryOf(p.job))| == |p.pc.bounds|
  }

  /** The event files of the resolved positions are read; they never change once written. */
  ghost function Finish<S>(s: State<S>, pid: nat): State<S>
    requires pid in s.procs && CanFinish(s.procs[pid])
  {
    var p := s.procs[pid];
    var r := Collect(s.files.events, QueryOf(p.job), Ascending(Meet(p.pc.got)), None);
    s.(procs := s.procs[pid := AfterRead(p, r, Least(p.pc.bounds), p.pc.lo)])
  }

  ghost function ReadForCheck<S>(s: State<S>, condition: Option<AppendCondition>): Result<seq<EventRecord>> {
    if condition.None? then Ok([])
    else ReadResult(s.files, condition.value.failIfEventsMatch, condition.value.afterSequencePosition, None, false)
  }

  ghost function DoCheck<S>(s: State<S>, pid: nat, stamp: nat): State<S>
    requires pid in s.procs && s.procs[pid].pc.Scanned? && RequestOf(s.procs[pid].job, s.procs[pid].view).Some?
  {
    var p := s.procs[pid];
    var request := RequestOf(p.job, p.view).value;
    var r := ReadForCheck(s, request.condition);
    if r.Err? then SetPc(s, pid, Unlocking(Failed))
    else if r.value != [] then SetPc(s, pid, Unlocking(Conflict))
    else
      var entry := |s.commits|;
      SetPc(s, pid, if request.batch == [] then Unlocking(Committed(entry)) else Writing(entry, p.pc.next, 0, 0))
        .(commits := s.commits + [Commit(pid, p.job, p.view, request, stamp, 0)])
  }

  ghost predicate AtEventWrite<S>(commits: seq<Commit<S>>, pc: Pc) {
    pc.Writing? && pc.step == 0 && pc.entry < |commits| && pc.done < |commits[pc.entry].request.batch|
  }

  ghost function WriteEvent<S>(s: State<S>, pid: nat): State<S>
    requires pid in s.procs && AtEventWrite(s.commits, s.procs[pid].pc)
  {
    var pc := s.procs[pid].pc;
    var c := s.commits[pc.entry];
    var record := Record(c.request.batch[pc.done], pc.sequence, c.stamp);
    SetPc(s, pid, pc.(step := 1))
      .(files := s.files.(events := s.files.events[pc.sequence := record]),
        commits := s.commits[pc.entry := c.(kept := pc.done + 1)])
  }

  ghost predicate AtIndexWrite<S>(commits: seq<Commit<S>>, pc: Pc) {
    && pc.Writing? && pc.entry < |commits| && pc.done < |commits[pc.entry].request.batch|
    && 0 < pc.step <= |FilesOf(EventAt(commits, pc))|
  }

  ghost function EventAt<S>(commits: seq<Commit<S>>, pc: Pc): DomainEvent
    requires pc.Writing? && pc.entry < |commits| && pc.done < |commits[pc.entry].request.batch|
  {
    commits[pc.entry].request.batch[pc.done].event
  }

  /** The program counter after one index file has been dealt with. */
  ghost function AfterIndexFile<S>(commits: seq<Commit<S>>, pc: Pc): Pc
    requires AtIndexWrite(commits, pc)
  {
    if pc.step < |FilesOf(EventAt(commits, pc))| then pc.(step := pc.step + 1)
    else if pc.done + 1 < |commits[pc.entry].request.batch| then Writing(pc.entry, pc.sequence + 1, pc.done + 1, 0)
    else Unlocking(Committed(pc.entry))
  }

  ghost function WriteIndex<S>(s: State<S>, pid: nat): State<S>
    requires pid in s.procs && AtIndexWrite(s.commits, s.procs[pid].pc)
  {
    var pc := s.procs[pid].pc;
    var files := FilesOf(EventAt(s.commits, pc));
    SetPc(s, pid, AfterIndexFile(s.commits, pc))
      .(files := s.files.(index := AddPosition(s.files.index, files[pc.step - 1], pc.sequence)),
        settled := if pc.step == |files| then pc.sequence + 1 else s.settled)
  }

  /** A failed write of an index file goes unnoticed. */
  ghost function LoseIndex<S>(s: State<S>, pid: nat): State<S>
    requires pid in s.procs && AtIndexWrite(s.commits, s.procs[pid].pc)
  {
    SetPc(s, pid, AfterIndexFile(s.commits, s.procs[pid].pc)).(torn := true)
  }

  /** A decision that met a conflict starts over while attempts are left. */
  ghost function Unlock<S>(s: State<S>, pid: nat): State<S>
    requires pid in s.procs && s.procs[pid].pc.Unlocking?
  {
    var p := s.procs[pid];
    var retry := p.pc.outcome.Conflict? && p.job.ExecuteJob? && p.attempt + 1 < p.job.maxRetries;
    s.(lock := None,
       procs := s.procs[pid := if retry then p.(attempt := p.attempt + 1, pc := Ready) else p.(pc := Done(p.pc.outcome))])
  }

  ghost function CrashNow<S>(s: State<S>, pid: nat): State<S>
    requires pid in s.procs
  {
    var pc := s.procs[pid].pc;
    SetPc(s, pid, Done(Crashed))
      .(lock := if s.lock == Some(pid) then None else s.lock,
        torn := s.torn || (pc.Writing? && pc.step > 0))
  }

  ghost predicate Enabled<S>(s: State<S>, a: Action) {
    && a.pid in s.procs
    && var p := s.procs[a.pid];
    match a
    case AtomicRead(_) => CanReadAtomically(p)
    case ReadIndexFile(_) => CanReadFile(p)
    case FinishRead(_) => CanFinish(p)
    case Acquire(_) => p.pc.Queued? && s.lock == None
    case ScanDirectory(_) => p.pc.Locked?
    case Check(_, _) => p.pc.Scanned? && RequestOf(p.job, p.view).Some?
    case WriteEventFile(_) => AtEventWrite(s.commits, p.pc)
    case WriteIndexFile(_) => AtIndexWrite(s.commits, p.pc)
    case LoseIndexWrite(_) => AtIndexWrite(s.commits, p.pc)
    case Release(_) => p.pc.Unlocking?
    case Crash(_) => !p.pc.Done?
  }

  /** A step that is not enabled does nothing. */
  ghost function Next<S>(s: State<S>, a: Action): State<S> {
    if !Enabled(s, a) then s else
    match a
    case AtomicRead(pid) => ReadAtomically(s, pid)
    case ReadIndexFile(pid) => ReadFile(s, pid)
    case FinishRead(pid) => Finish(s, pid)
    case Acquire(pid) => SetPc(s, pid, Locked).(lock := Some(pid))
    case ScanDirectory(pid) => SetPc(s, pid, Scanned(NextPosition(s.files.events)))
    case Check(pid, stamp) => DoCheck(s, pid, stamp)
    case WriteEventFile(pid) => WriteEvent(s, pid)
    case WriteIndexFile(pid) => WriteIndex(s, pid)
    case LoseIndexWrite(pid) => LoseIndex(s, pid)
    case Release(pid) => Unlock(s, pid)
    case Crash(pid) => CrashNow(s, pid)
  }

  ghost function After<S>(s: State<S>, run: seq<Action>): State<S> {
    if run == [] then s else Next(After(s, run[..|run| - 1]), run[|run| - 1])
  }

  ghost predicate Init<S>(s: State<S>) {
    && s.files == EMPTY && s.lock == None && s.commits == [] && s.settled == 0 && !s.torn
    && forall pid | pid in s.procs ::
         var p := s.procs[pid];
         p.attempt == 0 && p.view == None && p.pc == (if p.job.AppendJob? then Queued else Ready)
  }

  // ----- the log a commit history writes -----

  ghost function WrittenLog<S>(commits: seq<Commit<S>>): seq<EventRecord> {
    if commits == [] then []
    else
      var log := WrittenLog(commits[..|commits| - 1]);
      var c := commits[|commits| - 1];
      log + Stamp(Take(c.request.batch, c.kept), |log|, c.stamp)
  }

  /** The log just before an entry's own events were written. */
  ghost function LogBefore<S>(commits: seq<Commit<S>>, entry: nat): seq<EventRecord>
    requires entry <= |commits|
  {
    WrittenLog(commits[..entry])
  }
}
