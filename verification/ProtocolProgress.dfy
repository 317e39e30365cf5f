/** Progress: every step brings its process nearer to its end, so no run goes on for ever. */
module ProtocolProgress {
  import opened Domain
  import opened FileNames
  import opened IndexedRead
  import opened Sequences
  import opened Protocol
  import opened ProtocolSafety
  import opened ProtocolSnapshots
  import opened ProtocolTheorems

  /** What a process still has to do, most significant first: attempts, phases of the attempt,
      events of the batch, files of the event. */
  datatype Work = Work(attempts: nat, phases: nat, events: nat, files: nat)

  predicate Less(a: Work, b: Work) {
    || a.attempts < b.attempts
    || (a.attempts == b.attempts && a.phases < b.phases)
    || (a.attempts == b.attempts && a.phases == b.phases && a.events < b.events)
    || (a.attempts == b.attempts && a.phases == b.phases && a.events == b.events && a.files < b.files)
  }

  function Phase(pc: Pc): nat {
    match pc
    case Ready => 7
    case Reading(_, _, _) => 6
    case Queued => 5
    case Locked => 4
    case Scanned(_) => 3
    case Writing(_, _, _, _) => 2
    case Unlocking(_) => 1
    case Done(_) => 0
  }

  function AttemptsLeft<S>(p: Process<S>): nat {
    if p.job.ExecuteJob? && p.attempt < p.job.maxRetries then p.job.maxRetries - p.attempt else 0
  }

  ghost predicate AtEvent<S>(commits: seq<Commit<S>>, pc: Pc) {
    && pc.Writing? && pc.entry < |commits| && pc.done < |commits[pc.entry].request.batch|
    && pc.step <= |FilesOf(EventAt(commits, pc))|
  }

  ghost function EventsLeft<S>(commits: seq<Commit<S>>, pc: Pc): nat {
    if AtEvent(commits, pc) then |commits[pc.entry].request.batch| - pc.done else 0
  }

  ghost function FilesLeft<S>(commits: seq<Commit<S>>, job: Job<S>, pc: Pc): nat {
    if AtEvent(commits, pc) then |FilesOf(EventAt(commits, pc))| + 1 - pc.step
    else if pc.Reading? && IsReader(job) && Conjunctive(QueryOf(job)) && |pc.got| < |FilesRead(QueryOf(job))|
    then |FilesRead(QueryOf(job))| - |pc.got|
    else 0
  }

  ghost function WorkLeft<S>(commits: seq<Commit<S>>, p: Process<S>): Work {
    Work(AttemptsLeft(p), Phase(p.pc), EventsLeft(commits, p.pc), FilesLeft(commits, p.job, p.pc))
  }

  lemma NextPhase<S>(before: seq<Commit<S>>, p: Process<S>, after: seq<Commit<S>>, q: Process<S>)
    requires q.job == p.job && q.attempt == p.attempt && Phase(q.pc) < Phase(p.pc)
    ensures Less(WorkLeft(after, q), WorkLeft(before, p))
  {
  }

  lemma ReadFileProgress<S>(s: State<S>, pid: nat)
    requires pid in s.procs && CanReadFile(s.procs[pid])
    ensures var t := ReadFile(s, pid); Less(WorkLeft(t.commits, t.procs[pid]), WorkLeft(s.commits, s.procs[pid]))
  {
    var t := ReadFile(s, pid);
    if s.procs[pid].pc.Ready? { NextPhase(s.commits, s.procs[pid], t.commits, t.procs[pid]); }
  }

  lemma AfterReadProgress<S>(commits: seq<Commit<S>>, p: Process<S>, r: Result<seq<EventRecord>>, bound: nat, lo: nat)
    requires p.pc.Ready? || p.pc.Reading?
    ensures Less(WorkLeft(commits, AfterRead(p, r, bound, lo)), WorkLeft(commits, p))
  {
    NextPhase(commits, p, commits, AfterRead(p, r, bound, lo));
  }

  lemma AtomicReadProgress<S>(s: State<S>, pid: nat)
    requires pid in s.procs && CanReadAtomically(s.procs[pid])
    ensures var t := ReadAtomically(s, pid); Less(WorkLeft(t.commits, t.procs[pid]), WorkLeft(s.commits, s.procs[pid]))
  {
    var p := s.procs[pid];
    AfterReadProgress(s.commits, p, ReadResult(s.files, QueryOf(p.job), None, None, false),
                      AtomicBound(s, QueryOf(p.job)), s.settled);
  }

  lemma FinishProgress<S>(s: State<S>, pid: nat)
    requires pid in s.procs && CanFinish(s.procs[pid])
    ensures var t := Finish(s, pid); Less(WorkLeft(t.commits, t.procs[pid]), WorkLeft(s.commits, s.procs[pid]))
  {
    var p := s.procs[pid];
    AfterReadProgress(s.commits, p, Collect(s.files.events, QueryOf(p.job), Ascending(Meet(p.pc.got)), None),
                      Least(p.pc.bounds), p.pc.lo);
  }

  lemma CheckProgress<S>(s: State<S>, t: State<S>, pid: nat)
    requires Checked(s, t, pid) && s.procs[pid].pc.Scanned?
    ensures Less(WorkLeft(t.commits, t.procs[pid]), WorkLeft(s.commits, s.procs[pid]))
  {
    NextPhase(s.commits, s.procs[pid], t.commits, t.procs[pid]);
  }

  lemma WriteEventProgress<S>(s: State<S>, pid: nat)
    requires pid in s.procs && AtEventWrite(s.commits, s.procs[pid].pc)
    ensures var t := WriteEvent(s, pid); Less(WorkLeft(t.commits, t.procs[pid]), WorkLeft(s.commits, s.procs[pid]))
  {
    var t := WriteEvent(s, pid);
    assert EventAt(t.commits, t.procs[pid].pc) == EventAt(s.commits, s.procs[pid].pc);
  }

  lemma IndexFileProgress<S>(commits: seq<Commit<S>>, p: Process<S>)
    requires AtIndexWrite(commits, p.pc)
    ensures Less(WorkLeft(commits, p.(pc := AfterIndexFile(commits, p.pc))), WorkLeft(commits, p))
  {
  }

  lemma LockProgress<S>(s: State<S>, a: Action)
    requires Enabled(s, a) && (a.Acquire? || a.ScanDirectory? || a.Release? || a.Crash?)
    ensures a.pid in Next(s, a).procs
    ensures Less(WorkLeft(Next(s, a).commits, Next(s, a).procs[a.pid]), WorkLeft(s.commits, s.procs[a.pid]))
  {
    var p, q := s.procs[a.pid], Next(s, a).procs[a.pid];
    if q.attempt == p.attempt {
      NextPhase(s.commits, p, Next(s, a).commits, q);
    }
  }

  /** The work of a process that is not writing does not depend on the history; nor does that
      of a process writing the events of an entry that keeps its request. */
  lemma OthersKeepWork<S>(s: State<S>, a: Action, q: nat)
    requires Safe(s) && Enabled(s, a) && q in s.procs && q != a.pid
    ensures q in Next(s, a).procs && WorkLeft(Next(s, a).commits, Next(s, a).procs[q]) == WorkLeft(s.commits, s.procs[q])
  {
    SameJobs(s, a);
    if s.procs[q].pc.Writing? {
      assert s.lock == Some(q) && !HoldsLock(s.procs[a.pid].pc);
      KeepsHistory(s, a);
    }
  }

  lemma KeepsHistory<S>(s: State<S>, a: Action)
    requires Enabled(s, a) && !HoldsLock(s.procs[a.pid].pc)
    ensures Next(s, a).commits == s.commits
  {
  }

  /** Every step of every run brings its own process nearer to its end, in a well-founded order,
      and leaves all other processes where they are. */
  lemma StepProgress<S>(s: State<S>, run: seq<Action>, t: State<S>, a: Action)
    requires Init(s) && t == After(s, run) && Enabled(t, a)
    ensures a.pid in Next(t, a).procs
    ensures Less(WorkLeft(Next(t, a).commits, Next(t, a).procs[a.pid]), WorkLeft(t.commits, t.procs[a.pid]))
    ensures forall q | q in t.procs && q != a.pid ::
      q in Next(t, a).procs && WorkLeft(Next(t, a).commits, Next(t, a).procs[q]) == WorkLeft(t.commits, t.procs[q])
  {
    RunSafe(s, run);
    SameJobs(t, a);
    forall q | q in t.procs && q != a.pid
      ensures WorkLeft(Next(t, a).commits, Next(t, a).procs[q]) == WorkLeft(t.commits, t.procs[q])
    {
      OthersKeepWork(t, a, q);
    }
    match a
    case AtomicRead(pid) => AtomicReadProgress(t, pid);
    case ReadIndexFile(pid) => ReadFileProgress(t, pid);
    case FinishRead(pid) => FinishProgress(t, pid);
    case WriteEventFile(pid) => WriteEventProgress(t, pid);
    case WriteIndexFile(pid) => IndexFileProgress(t.commits, t.procs[pid]);
    case LoseIndexWrite(pid) => IndexFileProgress(t.commits, t.procs[pid]);
    case Check(pid, stamp) =>
      CheckShape(t, pid, stamp);
      CheckProgress(t, DoCheck(t, pid, stamp), pid);
    case _ => LockProgress(t, a);
  }

  // ----- runs that never stop choosing actions -----

  function Choices(schedule: nat -> Action, n: nat): seq<Action> {
    seq(n, i requires 0 <= i < n => schedule(i))
  }

  /** The state after the first `n` actions of an endless schedule. */
  ghost function At<S>(s: State<S>, schedule: nat -> Action, n: nat): State<S> {
    After(s, Choices(schedule, n))
  }

  lemma AtNext<S>(s: State<S>, schedule: nat -> Action, n: nat)
    ensures At(s, schedule, n + 1) == Next(At(s, schedule, n), schedule(n))
  {
    var longer := Choices(schedule, n + 1);
    assert longer[..n] == Choices(schedule, n) && longer[n] == schedule(n);
  }

  ghost predicate Acts<S>(s: State<S>, schedule: nat -> Action, n: nat, pid: nat) {
    schedule(n).pid == pid && Enabled(At(s, schedule, n), schedule(n))
  }

  ghost function WorkAt<S>(s: State<S>, schedule: nat -> Action, n: nat, pid: nat): Work
    requires pid in At(s, schedule, n).procs
  {
    WorkLeft(At(s, schedule, n).commits, At(s, schedule, n).procs[pid])
  }

  lemma WorkNext<S>(s: State<S>, schedule: nat -> Action, n: nat, pid: nat)
    requires Init(s) && pid in At(s, schedule, n).procs
    ensures pid in At(s, schedule, n + 1).procs
    ensures Acts(s, schedule, n, pid) ==> Less(WorkAt(s, schedule, n + 1, pid), WorkAt(s, schedule, n, pid))
    ensures !Acts(s, schedule, n, pid) ==> WorkAt(s, schedule, n + 1, pid) == WorkAt(s, schedule, n, pid)
  {
    AtNext(s, schedule, n);
    if Enabled(At(s, schedule, n), schedule(n)) {
      StepProgress(s, Choices(schedule, n), At(s, schedule, n), schedule(n));
    }
  }

  lemma {:induction false} WorkOnlyShrinks<S>(s: State<S>, schedule: nat -> Action, n: nat, m: nat, pid: nat)
    requires Init(s) && n <= m && pid in At(s, schedule, n).procs
    ensures pid in At(s, schedule, m).procs
    ensures AtMost(WorkAt(s, schedule, m, pid), WorkAt(s, schedule, n, pid))
  {
    if n < m {
      WorkOnlyShrinks(s, schedule, n, m - 1, pid);
      WorkNotMore(s, schedule, m - 1, pid);
      AtMostTransitive(WorkAt(s, schedule, m, pid), WorkAt(s, schedule, m - 1, pid), WorkAt(s, schedule, n, pid));
    }
  }

  lemma WorkNotMore<S>(s: State<S>, schedule: nat -> Action, n: nat, pid: nat)
    requires Init(s) && pid in At(s, schedule, n).procs
    ensures pid in At(s, schedule, n + 1).procs
    ensures AtMost(WorkAt(s, schedule, n + 1, pid), WorkAt(s, schedule, n, pid))
  {
    WorkNext(s, schedule, n, pid);
  }

  predicate AtMost(a: Work, b: Work) {
    a == b || Less(a, b)
  }

  lemma AtMostTransitive(a: Work, b: Work, c: Work)
    requires AtMost(a, b) && AtMost(b, c)
    ensures AtMost(a, c)
    ensures Less(a, b) ==> Less(a, c)
  {
  }

  ghost predicate Rests<S>(s: State<S>, schedule: nat -> Action, m: nat, pid: nat) {
    forall n | m <= n :: !Acts(s, schedule, n, pid)
  }

  lemma RestsLater<S>(s: State<S>, schedule: nat -> Action, m: nat, n: nat, pid: nat)
    requires Rests(s, schedule, m, pid) && m <= n
    ensures Rests(s, schedule, n, pid)
  {
  }

  /** From some moment on a process takes no further step. */
  lemma {:induction false} ProcessRests<S>(s: State<S>, schedule: nat -> Action, n: nat, pid: nat, work: Work) returns (m: nat)
    requires Init(s) && pid in At(s, schedule, n).procs && work == WorkAt(s, schedule, n, pid)
    ensures n <= m && Rests(s, schedule, m, pid)
    decreases work.attempts, work.phases, work.events, work.files
  {
    if Rests(s, schedule, n, pid) {
      m := n;
    } else {
      var k :| n <= k && Acts(s, schedule, k, pid);
      WorkOnlyShrinks(s, schedule, n, k, pid);
      WorkNext(s, schedule, k, pid);
      AtMostTransitive(WorkAt(s, schedule, k + 1, pid), WorkAt(s, schedule, k, pid), work);
      m := ProcessRests(s, schedule, k + 1, pid, WorkAt(s, schedule, k + 1, pid));
    }
  }

  lemma {:induction false} AllRest<S>(s: State<S>, schedule: nat -> Action, pids: set<nat>) returns (m: nat)
    requires Init(s) && pids <= s.procs.Keys
    ensures forall pid | pid in pids :: Rests(s, schedule, m, pid)
    decreases |pids|
  {
    if pids == {} {
      m := 0;
    } else {
      var pid :| pid in pids;
      var rest := AllRest(s, schedule, pids - {pid});
      assert At(s, schedule, 0) == s;
      var own := ProcessRests(s, schedule, 0, pid, WorkAt(s, schedule, 0, pid));
      m := if rest <= own then own else rest;
      forall q | q in pids ensures Rests(s, schedule, m, q) {
        RestsLater(s, schedule, if q == pid then own else rest, m, q);
      }
    }
  }

  lemma {:induction false} SameProcesses<S>(s: State<S>, schedule: nat -> Action, n: nat)
    ensures At(s, schedule, n).procs.Keys == s.procs.Keys
  {
    if n > 0 {
      SameProcesses(s, schedule, n - 1);
      AtNext(s, schedule, n - 1);
      SameJobs(At(s, schedule, n - 1), schedule(n - 1));
    } else {
      assert Choices(schedule, 0) == [];
    }
  }

  /** Every run ends: whatever actions are chosen, for ever, from some moment on none of them is
      a step. */
  lemma EveryRunEnds<S>(s: State<S>, schedule: nat -> Action) returns (m: nat)
    requires Init(s)
    ensures forall n | m <= n :: !Enabled(At(s, schedule, n), schedule(n))
  {
    m := AllRest(s, schedule, s.procs.Keys);
    forall n | m <= n ensures !Enabled(At(s, schedule, n), schedule(n)) {
      SameProcesses(s, schedule, n);
      var pid := schedule(n).pid;
      assert pid in s.procs ==> Rests(s, schedule, m, pid) && !Acts(s, schedule, n, pid);
    }
  }

  /** ... and a run that cannot go on has finished every process. */
  lemma EndedIsFinished<S>(s: State<S>, run: seq<Action>)
    requires Init(s) && forall a :: !Enabled(After(s, run), a)
    ensures forall pid | pid in After(s, run).procs :: After(s, run).procs[pid].pc.Done?
  {
    forall pid | pid in After(s, run).procs ensures After(s, run).procs[pid].pc.Done? {
      if !After(s, run).procs[pid].pc.Done? {
        NoDeadlock(s, run, pid);
      }
    }
  }
}
