/** Batches as readers see them: a batch that was finished when a read began is seen whole. */
module WholeBatches {
  import opened Domain
  import opened FileNames
  import opened Sequences
  import opened Log
  import opened IndexedRead
  import opened Protocol
  import opened ProtocolSafety
  import opened ProtocolSnapshots
  import opened ProtocolSerial
  import opened ProtocolTheorems

  /** The entry's whole batch is written and indexed, as far as its process will ever do so. */
  ghost predicate Finished<S>(s: State<S>, e: nat) {
    && e < |s.commits| && s.commits[e].kept == |s.commits[e].request.batch|
    && s.commits[e].pid in s.procs && !s.procs[s.commits[e].pid].pc.Writing?
  }

  /** Where the entry's block ends in the log. */
  ghost function EndOf<S>(commits: seq<Commit<S>>, e: nat): nat
    requires e < |commits|
  {
    |LogBefore(commits, e)| + |commits[e].request.batch|
  }

  /** Whoever is writing is writing the last entry. */
  lemma WriterIsLast<S>(s: State<S>, log: seq<EventRecord>, pid: nat, e: nat)
    requires SafeWith(s, log) && pid in s.procs && s.procs[pid].pc.Writing? && Finished(s, e)
    ensures e < |s.commits| - 1 && s.commits[|s.commits| - 1].pid == pid
    ensures s.commits[|s.commits| - 1].kept == s.procs[pid].pc.done + (if s.procs[pid].pc.step == 0 then 0 else 1)
  {
    assert PcOk(s.commits, |log|, s.procs[pid], pid);
  }

  /** A process whose entry is finished does not write again. */
  lemma NoMoreWriting<S>(s: State<S>, a: Action, pid: nat)
    requires Enabled(s, a) && a.pid == pid && Entered(s.procs[pid].pc) && !s.procs[pid].pc.Writing?
    ensures pid in Next(s, a).procs && !Next(s, a).procs[pid].pc.Writing? && Next(s, a).commits == s.commits
  {
  }

  lemma StepKeepsFinished<S>(s: State<S>, a: Action, e: nat)
    requires Safe(s) && Finished(s, e)
    ensures Finished(Next(s, a), e) && Next(s, a).commits[..e + 1] == s.commits[..e + 1]
  {
    assert EntryOk(s.procs, s.commits[e]);
    if Enabled(s, a) {
      if a.pid == s.commits[e].pid {
        NoMoreWriting(s, a, a.pid);
      } else {
        SameJobs(s, a);
        OthersKeepEntry(s, a, e);
      }
      FinishedStill(s, Next(s, a), e);
    }
  }

  lemma FinishedStill<S>(s: State<S>, t: State<S>, e: nat)
    requires Finished(s, e) && e < |t.commits| && t.commits[..e + 1] == s.commits[..e + 1]
    requires s.commits[e].pid in t.procs && !t.procs[s.commits[e].pid].pc.Writing?
    ensures Finished(t, e)
  {
    assert t.commits[e] == t.commits[..e + 1][e] == s.commits[..e + 1][e] == s.commits[e];
  }

  lemma OthersKeepEntry<S>(s: State<S>, a: Action, e: nat)
    requires Safe(s) && Finished(s, e) && Enabled(s, a)
    ensures e < |Next(s, a).commits| && Next(s, a).commits[..e + 1] == s.commits[..e + 1]
  {
    TornStays(s, a);
    if a.WriteEventFile? {
      WriterIsLast(s, WrittenLog(s.commits), a.pid, e);
    } else if a.Check? {
      CheckedCommits(s, a.pid, a.stamp);
    }
  }

  lemma {:induction false} RunKeepsFinished<S>(s: State<S>, run: seq<Action>, m: nat, e: nat)
    requires Init(s) && m <= |run| && Finished(After(s, run[..m]), e)
    ensures Finished(After(s, run), e) && After(s, run).commits[..e + 1] == After(s, run[..m]).commits[..e + 1]
  {
    if m == |run| {
      assert run[..m] == run;
    } else {
      var front := run[..|run| - 1];
      assert front[..m] == run[..m];
      RunKeepsFinished(s, front, m, e);
      RunSafe(s, front);
      StepKeepsFinished(After(s, front), run[|run| - 1], e);
    }
  }

  lemma EndWithin<S>(commits: seq<Commit<S>>, e: nat, f: nat)
    requires e < f <= |commits| && commits[e].kept == |commits[e].request.batch|
    ensures EndOf(commits, e) <= |LogBefore(commits, f)|
  {
    EntryBlock(commits[..f], e);
    assert commits[..f][..e] == commits[..e];
  }

  /** A success is a finished batch. */
  lemma SuccessIsFinished<S>(s: State<S>, run: seq<Action>, t: State<S>, pid: nat)
    requires Init(s) && t == After(s, run)
    requires pid in t.procs && t.procs[pid].pc.Done? && t.procs[pid].pc.outcome.Committed?
    ensures Finished(t, t.procs[pid].pc.outcome.entry)
  {
    RunSafe(s, run);
    EntryOfSuccess(t, WrittenLog(t.commits), pid);
  }

  /** Finished batches are settled. */
  lemma FinishedIsSettled<S>(s: State<S>, log: seq<EventRecord>, e: nat)
    requires SafeWith(s, log) && log == WrittenLog(s.commits) && QuietWith(s, log) && Finished(s, e)
    ensures EndOf(s.commits, e) <= s.settled
  {
    SettledOrInFlight(s, log);
    if InFlight(s).Some? {
      WriterIsLast(s, log, s.lock.value, e);
      EntryBounded(s, log);
      EndsBeforeLast(s.commits, e);
    } else {
      EndsWithLog(s.commits, e);
    }
  }

  lemma EndsBeforeLast<S>(commits: seq<Commit<S>>, e: nat)
    requires e < |commits| - 1 && commits[e].kept == |commits[e].request.batch|
    requires 0 < commits[|commits| - 1].kept <= |commits[|commits| - 1].request.batch|
    ensures EndOf(commits, e) < |WrittenLog(commits)|
  {
    EndWithin(commits, e, |commits| - 1);
    LastKept(commits);
  }

  lemma EndsWithLog<S>(commits: seq<Commit<S>>, e: nat)
    requires e < |commits| && commits[e].kept == |commits[e].request.batch|
    ensures EndOf(commits, e) <= |WrittenLog(commits)|
  {
    assert commits[..|commits|] == commits;
    EndWithin(commits, e, |commits|);
  }

  lemma SettledOrInFlight<S>(s: State<S>, log: seq<EventRecord>)
    requires QuietWith(s, log)
    ensures InFlight(s).None? ==> s.settled == |log|
    ensures InFlight(s).Some? ==>
      && s.settled + 1 == |log| && s.lock.Some? && s.lock.value in s.procs
      && s.procs[s.lock.value].pc.Writing? && s.procs[s.lock.value].pc.step > 0
  {
  }

  lemma EntryBounded<S>(s: State<S>, log: seq<EventRecord>)
    requires SafeWith(s, log) && s.commits != []
    ensures var c := s.commits[|s.commits| - 1]; c.kept <= |c.request.batch|
  {
    assert EntryOk(s.procs, s.commits[|s.commits| - 1]);
  }

  lemma LastKept<S>(commits: seq<Commit<S>>)
    requires commits != [] && commits[|commits| - 1].kept > 0
    requires commits[|commits| - 1].kept <= |commits[|commits| - 1].request.batch|
    ensures |LogBefore(commits, |commits| - 1)| < |WrittenLog(commits)|
  {
  }

  /** Every batch finished at an earlier moment lies below the bound. */
  ghost predicate SeesWhole<S>(early: State<S>, late: State<S>, bound: nat) {
    forall e: nat | Finished(early, e) :: e < |late.commits| && EndOf(late.commits, e) <= bound
  }

  lemma SettledSeesWhole<S>(s: State<S>, run: seq<Action>, m: nat, bound: nat)
    requires Init(s) && m <= |run| && !After(s, run[..m]).torn && After(s, run[..m]).settled <= bound
    ensures SeesWhole(After(s, run[..m]), After(s, run), bound)
  {
    var early, late := After(s, run[..m]), After(s, run);
    RunSafe(s, run[..m]);
    RunQuiet(s, run[..m]);
    forall e: nat | Finished(early, e) ensures e < |late.commits| && EndOf(late.commits, e) <= bound {
      FinishedIsSettled(early, WrittenLog(early.commits), e);
      RunKeepsFinished(s, run, m, e);
      SameEnd(early.commits, late.commits, e);
    }
  }

  lemma SameEnd<S>(a: seq<Commit<S>>, b: seq<Commit<S>>, e: nat)
    requires e < |a| && e < |b| && a[..e + 1] == b[..e + 1]
    ensures EndOf(a, e) == EndOf(b, e)
  {
    assert a[..e] == a[..e + 1][..e] && b[..e] == b[..e + 1][..e];
    assert a[e] == a[..e + 1][e] && b[e] == b[..e + 1][e];
  }

  /** Whole batches for reads at file granularity: what was finished when the read began is in
      the snapshot whole. A snapshot can end inside a batch only if that batch was being written
      while the read was under way, or was cut short by a crash. */
  lemma BatchesSeenWhole<S(!new)>(v: Vocabulary, s: State<S>, run: seq<Action>, t: State<S>, pid: nat) returns (began: nat)
    requires Init(s) && JobsOk(v, s.procs) && AliasFree(v) && t == After(s, run)
    requires !t.torn && Enabled(t, FinishRead(pid))
    ensures BeganAt(s, run, pid, t.procs[pid].pc.lo, began)
    ensures Next(t, FinishRead(pid)).procs[pid].view.Some?
    ensures SeesWhole(After(s, run[..began]), t, Next(t, FinishRead(pid)).procs[pid].view.value.bound)
  {
    var bound;
    began, bound := SnapshotRead(v, s, run, t, pid);
    TornForGood(s, run, began);
    SettledSeesWhole(s, run, began, bound);
  }

  /** The same for reads at one instant: everything finished by then is in the snapshot whole. */
  lemma BatchesSeenWholeAtOnce<S(!new)>(v: Vocabulary, s: State<S>, run: seq<Action>, t: State<S>, pid: nat)
    requires Init(s) && JobsOk(v, s.procs) && AliasFree(v) && t == After(s, run)
    requires !t.torn && Enabled(t, AtomicRead(pid))
    ensures Next(t, AtomicRead(pid)).procs[pid].view.Some?
    ensures SeesWhole(t, t, Next(t, AtomicRead(pid)).procs[pid].view.value.bound)
  {
    RunSafe(s, run);
    RunQuiet(s, run);
    RunConsistent(v, s, run);
    AtomicSees(v, t, pid);
    assert run[..|run|] == run;
    SettledSeesWhole(s, run, |run|, AtomicBound(t, QueryOf(t.procs[pid].job)));
  }

  lemma AtomicSees<S(!new)>(v: Vocabulary, t: State<S>, pid: nat)
    requires Safe(t) && Quiet(t) && JobsOk(v, t.procs) && AliasFree(v) && !t.torn
    requires pid in t.procs && CanReadAtomically(t.procs[pid])
    ensures ReadAtomically(t, pid).procs[pid].view.Some?
    ensures ReadAtomically(t, pid).procs[pid].view.value.bound == AtomicBound(t, QueryOf(t.procs[pid].job))
    ensures t.settled <= AtomicBound(t, QueryOf(t.procs[pid].job))
  {
    LogCovered(v, t);
    assert JobOk(v, t.procs[pid].job);
    AtomicReadIsSnapshot(v, t, WrittenLog(t.commits), QueryOf(t.procs[pid].job));
  }
}
