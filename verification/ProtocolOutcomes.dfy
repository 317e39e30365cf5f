/** What the outcome of a finished process tells, in every run, crashes and lost writes included. */
module ProtocolOutcomes {
  import opened Domain
  import opened FileNames
  import opened Sequences
  import opened Log
  import opened IndexedRead
  import opened DecisionModel
  import opened Protocol
  import opened ProtocolSafety
  import opened ProtocolSnapshots
  import opened ProtocolSerial
  import opened ProtocolTheorems

  /** The log holds an event the condition asks for, after its position. */
  ghost predicate Opposed(condition: AppendCondition, log: seq<EventRecord>) {
    exists q: nat :: From(condition.afterSequencePosition) <= q < |log| && Matches(condition.failIfEventsMatch, log[q])
  }

  /** An append job's own condition; a decision's asks for its query, after the last event it saw. */
  ghost predicate Guards<S>(job: Job<S>, view: Option<View>, condition: AppendCondition) {
    match job
    case AppendJob(_, own) => own == Some(condition)
    case ExecuteJob(decision, _) =>
      && view.Some?
      && condition.failIfEventsMatch == decision.state.query
      && condition.afterSequencePosition == LastPosition(Sort(view.value.seen, PositionOf))
    case ReadJob(_) => false
  }

  function Given(pc: Pc): Option<Outcome> {
    if pc.Unlocking? || pc.Done? then Some(pc.outcome) else None
  }

  /** The business rule turned the command down. */
  ghost predicate TurnedDown<S>(job: Job<S>, view: Option<View>) {
    job.ExecuteJob? && view.Some? && job.decision.process(Build(job.decision.state, view.value.seen).state).None?
  }

  ghost predicate MetConflict<S>(job: Job<S>, view: Option<View>, log: seq<EventRecord>) {
    exists condition :: Guards(job, view, condition) && Opposed(condition, log)
  }

  ghost predicate OutcomeOk<S>(p: Process<S>, log: seq<EventRecord>) {
    && (Given(p.pc) == Some(Conflict) ==> MetConflict(p.job, p.view, log))
    && (Given(p.pc) == Some(Rejected) ==> TurnedDown(p.job, p.view))
    && (Given(p.pc) == Some(Seen) ==> p.job.ReadJob? && p.view.Some?)
    && (Given(p.pc).Some? && Given(p.pc).value.Committed? ==> !p.job.ReadJob?)
  }

  lemma OutcomeLonger<S>(p: Process<S>, log: seq<EventRecord>, longer: seq<EventRecord>)
    requires OutcomeOk(p, log) && log <= longer
    ensures OutcomeOk(p, longer)
  {
    if Given(p.pc) == Some(Conflict) {
      var condition :| Guards(p.job, p.view, condition) && Opposed(condition, log);
      var q: nat :| From(condition.afterSequencePosition) <= q < |log| && Matches(condition.failIfEventsMatch, log[q]);
      assert longer[q] == log[q];
      assert Opposed(condition, longer);
    }
  }

  /** A condition that reports a conflict has one, even while index entries are missing. */
  lemma DetectsTruly(v: Vocabulary, files: Files, log: seq<EventRecord>, condition: AppendCondition)
    requires FilesOk(files, log) && AliasFree(v) && CoversLog(v, log) && CoversQuery(v, condition.failIfEventsMatch)
    requires Detects(files, condition)
    ensures Opposed(condition, log)
  {
    var query, lo := condition.failIfEventsMatch, From(condition.afterSequencePosition);
    NothingFound(files, query, condition.afterSequencePosition);
    var p: nat :| p in QueryPositions(files, query, lo);
    FoundMatches(v, files, log, query, lo, p);
  }

  lemma NothingFound(files: Files, query: Query, start: Option<nat>)
    ensures QueryPositions(files, query, From(start)) == {} ==> ReadResult(files, query, start, None, false) == Ok([])
  {
    if QueryPositions(files, query, From(start)) == {} {
      assert Ascending(QueryPositions(files, query, From(start))) == [];
    }
  }

  lemma FoundMatches(v: Vocabulary, files: Files, log: seq<EventRecord>, query: Query, lo: nat, p: nat)
    requires FilesOk(files, log) && AliasFree(v) && CoversLog(v, log) && CoversQuery(v, query)
    requires p in QueryPositions(files, query, lo)
    ensures lo <= p < |log| && Matches(query, log[p])
  {
    if query.items != [] {
      var item :| item in query.items && p in ItemPositions(files.index, item);
      assert p in QueryPositions(files, query, 0);
      ResolvedTruly(v, files, log, query, p);
    }
  }

  lemma RequestGuards<S>(job: Job<S>, view: Option<View>)
    requires RequestOf(job, view).Some? && RequestOf(job, view).value.condition.Some?
    ensures Guards(job, view, RequestOf(job, view).value.condition.value)
  {
  }

  lemma CheckOutcome<S(!new)>(v: Vocabulary, s: State<S>, pid: nat, stamp: nat)
    requires Safe(s) && JobsOk(v, s.procs) && AliasFree(v)
    requires pid in s.procs && s.procs[pid].pc.Scanned? && RequestOf(s.procs[pid].job, s.procs[pid].view).Some?
    ensures OutcomeOk(DoCheck(s, pid, stamp).procs[pid], WrittenLog(s.commits))
  {
    var p, log := s.procs[pid], WrittenLog(s.commits);
    var request := RequestOf(p.job, p.view).value;
    CheckSucceeds(s, request.condition);
    CheckGives(s, pid, stamp);
    if DoCheck(s, pid, stamp).procs[pid].pc == Unlocking(Conflict) {
      var condition := request.condition.value;
      LogCovered(v, s);
      assert JobOk(v, p.job);
      RequestGuards(p.job, p.view);
      DetectsTruly(v, s.files, log, condition);
      assert MetConflict(p.job, p.view, log);
    }
  }

  /** What a check leads to. */
  lemma CheckGives<S>(s: State<S>, pid: nat, stamp: nat)
    requires Safe(s) && pid in s.procs && s.procs[pid].pc.Scanned? && RequestOf(s.procs[pid].job, s.procs[pid].view).Some?
    ensures var p, q := s.procs[pid], DoCheck(s, pid, stamp).procs[pid];
      && q == p.(pc := q.pc) && !p.job.ReadJob?
      && (q.pc == Unlocking(Conflict) || q.pc.Writing? || (q.pc.Unlocking? && q.pc.outcome.Committed?))
    ensures DoCheck(s, pid, stamp).procs[pid].pc == Unlocking(Conflict) ==>
      var condition := RequestOf(s.procs[pid].job, s.procs[pid].view).value.condition;
      condition.Some? && Detects(s.files, condition.value)
  {
    CheckSucceeds(s, RequestOf(s.procs[pid].job, s.procs[pid].view).value.condition);
  }

  lemma ReadOutcome<S>(p: Process<S>, r: Result<seq<EventRecord>>, bound: nat, lo: nat, log: seq<EventRecord>)
    requires IsReader(p.job) && r.Ok?
    ensures OutcomeOk(AfterRead(p, r, bound, lo), log)
  {
  }

  lemma ReadStepOutcome<S>(s: State<S>, a: Action)
    requires Safe(s) && Enabled(s, a) && (a.AtomicRead? || a.FinishRead?)
    ensures a.pid in Next(s, a).procs && OutcomeOk(Next(s, a).procs[a.pid], WrittenLog(s.commits))
  {
    var p, log := s.procs[a.pid], WrittenLog(s.commits);
    if a.AtomicRead? {
      ReadSucceeds(s.files, log, QueryOf(p.job), None, None, false);
      ReadOutcome(p, ReadResult(s.files, QueryOf(p.job), None, None, false), AtomicBound(s, QueryOf(p.job)), s.settled, log);
    } else {
      assert PcOk(s.commits, |log|, p, a.pid);
      MeetWithin(p.pc.got, |log|);
      CollectSucceeds(s.files.events, log, QueryOf(p.job), Meet(p.pc.got));
      ReadOutcome(p, Collect(s.files.events, QueryOf(p.job), Ascending(Meet(p.pc.got)), None), Least(p.pc.bounds), p.pc.lo, log);
    }
  }

  lemma MeetWithin(got: seq<set<nat>>, n: nat)
    requires got != [] && forall i, k | 0 <= i < |got| && k in got[i] :: k < n
    ensures forall k | k in Meet(got) :: k < n
  {
  }

  /** Steps of a process that neither read nor check keep what its outcome tells. */
  lemma MoveOutcome<S>(s: State<S>, a: Action, log: seq<EventRecord>)
    requires Safe(s) && Enabled(s, a) && !a.AtomicRead? && !a.FinishRead? && !a.Check?
    requires OutcomeOk(s.procs[a.pid], log)
    ensures a.pid in Next(s, a).procs && OutcomeOk(Next(s, a).procs[a.pid], log)
  {
    if a.WriteIndexFile? || a.LoseIndexWrite? {
      IndexWriteOutcome(s, a, log);
    } else {
      PlainMoveOutcome(s, a, log);
    }
  }

  lemma IndexWriteOutcome<S>(s: State<S>, a: Action, log: seq<EventRecord>)
    requires Safe(s) && Enabled(s, a) && (a.WriteIndexFile? || a.LoseIndexWrite?)
    ensures a.pid in Next(s, a).procs && OutcomeOk(Next(s, a).procs[a.pid], log)
  {
    var p := s.procs[a.pid];
    WriterNoReader(s, WrittenLog(s.commits), a.pid);
    IndexWriteGoesOn(s, a);
    assert Given(AfterIndexFile(s.commits, p.pc)).None? || Given(AfterIndexFile(s.commits, p.pc)).value.Committed?;
    assert Next(s, a).procs[a.pid].job == p.job;
  }

  lemma PlainMoveOutcome<S>(s: State<S>, a: Action, log: seq<EventRecord>)
    requires Enabled(s, a) && !a.AtomicRead? && !a.FinishRead? && !a.Check? && !a.WriteIndexFile? && !a.LoseIndexWrite?
    requires OutcomeOk(s.procs[a.pid], log)
    ensures a.pid in Next(s, a).procs && OutcomeOk(Next(s, a).procs[a.pid], log)
  {
  }

  lemma WriterNoReader<S>(s: State<S>, log: seq<EventRecord>, pid: nat)
    requires SafeWith(s, log) && pid in s.procs && s.procs[pid].pc.Writing?
    ensures !s.procs[pid].job.ReadJob?
  {
    assert PcOk(s.commits, |log|, s.procs[pid], pid);
    assert EntryOk(s.procs, s.commits[s.procs[pid].pc.entry]);
  }

  lemma StepOutcome<S(!new)>(v: Vocabulary, s: State<S>, a: Action, pid: nat)
    requires Safe(s) && JobsOk(v, s.procs) && AliasFree(v)
    requires pid in s.procs && OutcomeOk(s.procs[pid], WrittenLog(s.commits))
    ensures pid in Next(s, a).procs && OutcomeOk(Next(s, a).procs[pid], WrittenLog(Next(s, a).commits))
  {
    var log := WrittenLog(s.commits);
    SameJobs(s, a);
    StepGrows(s, a);
    if Enabled(s, a) && a.pid == pid {
      if a.AtomicRead? || a.FinishRead? {
        ReadStepOutcome(s, a);
      } else if a.Check? {
        CheckOutcome(v, s, pid, a.stamp);
      } else {
        MoveOutcome(s, a, log);
      }
    }
    OutcomeLonger(Next(s, a).procs[pid], log, WrittenLog(Next(s, a).commits));
  }

  lemma {:induction false} RunOutcomes<S(!new)>(v: Vocabulary, s: State<S>, run: seq<Action>, pid: nat)
    requires Init(s) && JobsOk(v, s.procs) && AliasFree(v) && pid in After(s, run).procs
    ensures OutcomeOk(After(s, run).procs[pid], WrittenLog(After(s, run).commits))
  {
    if run != [] {
      var front := run[..|run| - 1];
      SameJobs(After(s, front), run[|run| - 1]);
      RunOutcomes(v, s, front, pid);
      RunSafe(s, front);
      RunKeepsJobs(v, s, front);
      StepOutcome(v, After(s, front), run[|run| - 1], pid);
    }
  }

  lemma {:induction false} RunKeepsJobs<S(!new)>(v: Vocabulary, s: State<S>, run: seq<Action>)
    requires JobsOk(v, s.procs)
    ensures JobsOk(v, After(s, run).procs)
  {
    if run != [] {
      RunKeepsJobs(v, s, run[..|run| - 1]);
      StepKeepsJobs(v, After(s, run[..|run| - 1]), run[|run| - 1]);
    }
  }

  /** Nobody ends as crashed but those that crashed. */
  lemma {:induction false} CrashedCrashed<S>(s: State<S>, run: seq<Action>, pid: nat)
    requires Init(s) && pid in After(s, run).procs && After(s, run).procs[pid].pc == Done(Crashed)
    ensures Crash(pid) in run
  {
    if run == [] {
      assert false;
    } else {
      var front, a := run[..|run| - 1], run[|run| - 1];
      assert run == front + [a];
      SameJobs(After(s, front), a);
      RunSafe(s, front);
      if After(s, front).procs[pid].pc == Done(Crashed) {
        CrashedCrashed(s, front, pid);
      } else {
        CrashesNow(After(s, front), a, pid);
      }
    }
  }

  lemma CrashesNow<S>(s: State<S>, a: Action, pid: nat)
    requires Safe(s) && pid in s.procs && s.procs[pid].pc != Done(Crashed)
    requires pid in Next(s, a).procs && Next(s, a).procs[pid].pc == Done(Crashed)
    ensures a == Crash(pid)
  {
    SameJobs(s, a);
    if Enabled(s, a) && !a.Crash? {
      if a.WriteIndexFile? || a.LoseIndexWrite? { IndexWriteGoesOn(s, a); } else { GoesOn(s, a); }
    }
  }

  lemma IndexWriteGoesOn<S>(s: State<S>, a: Action)
    requires Enabled(s, a) && (a.WriteIndexFile? || a.LoseIndexWrite?)
    ensures a.pid in Next(s, a).procs && Next(s, a).procs[a.pid].pc == AfterIndexFile(s.commits, s.procs[a.pid].pc)
    ensures Given(AfterIndexFile(s.commits, s.procs[a.pid].pc)) != Some(Crashed)
  {
  }

  lemma GoesOn<S>(s: State<S>, a: Action)
    requires Safe(s) && Enabled(s, a) && !a.Crash? && !a.WriteIndexFile? && !a.LoseIndexWrite?
    ensures a.pid in Next(s, a).procs && Next(s, a).procs[a.pid].pc != Done(Crashed)
  {
    assert PcOk(s.commits, |WrittenLog(s.commits)|, s.procs[a.pid], a.pid);
    if a.Check? { CheckGives(s, a.pid, a.stamp); }
  }

  /** What a finished process tells. A conflict was met: the log holds an event its condition asks
      for, after its position. A rejection is the business rule's, on what was seen. Only reads
      end as seen and only appends and decisions commit. Nothing fails, and only a crash crashes. */
  lemma OutcomesMean<S(!new)>(v: Vocabulary, s: State<S>, run: seq<Action>, t: State<S>, pid: nat)
    requires Init(s) && JobsOk(v, s.procs) && AliasFree(v) && t == After(s, run)
    requires pid in t.procs && t.procs[pid].pc.Done?
    ensures var p, log := t.procs[pid], WrittenLog(t.commits);
      match p.pc.outcome
      case Committed(entry) => !p.job.ReadJob? && WholeEntry(t.commits, entry, pid)
      case Conflict => MetConflict(p.job, p.view, log)
      case Rejected => TurnedDown(p.job, p.view)
      case Seen => p.job.ReadJob? && p.view.Some?
      case Failed => false
      case Crashed => Crash(pid) in run
  {
    RunOutcomes(v, s, run, pid);
    RunSafe(s, run);
    assert PcOk(t.commits, |WrittenLog(t.commits)|, t.procs[pid], pid);
    if t.procs[pid].pc.outcome.Crashed? { CrashedCrashed(s, run, pid); }
  }

  /** In runs without a half-indexed event a rejection was decided on the state that all the
      decision's events in some beginning of the log, applied in order, end in. */
  lemma RejectedOnSnapshot<S(!new)>(v: Vocabulary, s: State<S>, run: seq<Action>, t: State<S>, pid: nat) returns (bound: nat)
    requires Init(s) && JobsOk(v, s.procs) && AliasFree(v) && t == After(s, run) && !t.torn
    requires pid in t.procs && t.procs[pid].pc == Done(Rejected)
    ensures t.procs[pid].job.ExecuteJob? && bound <= |WrittenLog(t.commits)|
    ensures DecidedOn(t.procs[pid].job.decision, WrittenLog(t.commits)[..bound], None)
  {
    OutcomesMean(v, s, run, t, pid);
    EveryViewIsSnapshot(v, s, run, pid);
    var p := t.procs[pid];
    bound := p.view.value.bound;
    WrittenNumbered(t.commits);
    var below := WrittenLog(t.commits)[..bound];
    BuildOnScan(p.job.decision.state, below);
    DecidedOnFold(p.job.decision, below, None);
  }
}
