/** All locks of the system together: projection locks, the store lock, the locks of the
    position files. Operations are the sequences of lock actions their code performs. */
module Locks {
  import opened FileNames

  datatype Lock = ProjectionLock(name: string) | StoreLock | IndexLock(file: IndexFile)

  datatype Op = Acquire(lock: Lock) | Free(lock: Lock) | Work

  function Rank(lock: Lock): nat {
    match lock
    case ProjectionLock(_) => 0
    case StoreLock => 1
    case IndexLock(_) => 2
  }

  // ----- the operations -----

  /** `add_position_async` on each of some files in turn. */
  function AddPositions(files: seq<IndexFile>): seq<Op> {
    if files == [] then []
    else [Acquire(IndexLock(files[0])), Work, Free(IndexLock(files[0]))] + AddPositions(files[1..])
  }

  /** The events an append got to, each with its index files; empty when the condition fails or
      the first write does, shorter than the batch when a later write fails. */
  function Writes(events: seq<seq<IndexFile>>): seq<Op> {
    if events == [] then [] else [Work] + AddPositions(events[0]) + Writes(events[1..])
  }

  function Append(events: seq<seq<IndexFile>>): seq<Op> {
    [Acquire(StoreLock), Work] + Writes(events) + [Free(StoreLock)]
  }

  /** `add_tags`: no store lock, one index lock at a time, then the event file. */
  function AddTags(events: seq<seq<IndexFile>>): seq<Op> {
    if events == [] then [] else AddPositions(events[0]) + [Work] + AddTags(events[1..])
  }

  function Working(n: nat): seq<Op> {
    seq(n, i => Work)
  }

  function Rebuild(name: string, n: nat): seq<Op> {
    [Acquire(ProjectionLock(name))] + Working(n) + [Free(ProjectionLock(name))]
  }

  // ----- which locks, and around what -----

  /** The locks taken, in order. */
  function Acquired(todo: seq<Op>): seq<Lock> {
    if todo == [] then []
    else (if todo[0].Acquire? then [todo[0].lock] else []) + Acquired(todo[1..])
  }

  /** The locks of all files of all events, in order. */
  function LocksOf(events: seq<seq<IndexFile>>): seq<Lock> {
    if events == [] then [] else FileLocks(events[0]) + LocksOf(events[1..])
  }

  function FileLocks(files: seq<IndexFile>): (locks: seq<Lock>)
    ensures |locks| == |files|
  {
    seq(|files|, i requires 0 <= i < |files| => IndexLock(files[i]))
  }

  /** The lock is taken first, freed last, and neither in between. */
  ghost predicate Around(l: Lock, todo: seq<Op>) {
    && |todo| >= 2 && todo[0] == Acquire(l) && todo[|todo| - 1] == Free(l)
    && forall i | 0 < i < |todo| - 1 :: todo[i] != Acquire(l) && todo[i] != Free(l)
  }

  lemma {:induction false} AcquiredJoins(a: seq<Op>, b: seq<Op>)
    ensures Acquired(a + b) == Acquired(a) + Acquired(b)
  {
    if a == [] {
      assert a + b == b;
    } else {
      AcquiredJoins(a[1..], b);
      assert (a + b)[1..] == a[1..] + b;
    }
  }

  lemma AcquiredOne(op: Op)
    ensures Acquired([op]) == if op.Acquire? then [op.lock] else []
  {
    assert [op][1..] == [];
  }

  lemma {:induction false} AddPositionsLocks(files: seq<IndexFile>)
    ensures Acquired(AddPositions(files)) == FileLocks(files)
    ensures forall op | op in AddPositions(files) :: op.Work? || op.lock.IndexLock?
  {
    if files != [] {
      var l := IndexLock(files[0]);
      AddPositionsLocks(files[1..]);
      AcquiredJoins([Acquire(l), Work, Free(l)], AddPositions(files[1..]));
      AcquiredJoins([Acquire(l)], [Work, Free(l)]);
      AcquiredJoins([Work], [Free(l)]);
      AcquiredOne(Acquire(l));
      AcquiredOne(Work);
      AcquiredOne(Free(l));
      assert [Acquire(l), Work, Free(l)] == [Acquire(l)] + [Work, Free(l)] && [Work, Free(l)] == [Work] + [Free(l)];
      assert FileLocks(files) == [l] + FileLocks(files[1..]);
    }
  }

  lemma {:induction false} WritesLocks(events: seq<seq<IndexFile>>)
    ensures Acquired(Writes(events)) == LocksOf(events)
    ensures forall op | op in Writes(events) :: op.Work? || op.lock.IndexLock?
  {
    if events != [] {
      WritesLocks(events[1..]);
      AddPositionsLocks(events[0]);
      AcquiredOne(Work);
      AcquiredJoins([Work] + AddPositions(events[0]), Writes(events[1..]));
      AcquiredJoins([Work], AddPositions(events[0]));
    }
  }

  /** An append holds the store lock around everything it does, and within it takes the lock of
      each index file of each event in turn. */
  lemma AppendHolds(events: seq<seq<IndexFile>>)
    ensures Around(StoreLock, Append(events))
    ensures Acquired(Append(events)) == [StoreLock] + LocksOf(events)
  {
    WritesLocks(events);
    AcquiredJoins([Acquire(StoreLock), Work] + Writes(events), [Free(StoreLock)]);
    AcquiredJoins([Acquire(StoreLock), Work], Writes(events));
    AcquiredJoins([Acquire(StoreLock)], [Work]);
    assert [Acquire(StoreLock), Work] == [Acquire(StoreLock)] + [Work];
    AcquiredOne(Acquire(StoreLock));
    AcquiredOne(Work);
    AcquiredOne(Free(StoreLock));
    var ops := Append(events);
    forall i | 0 < i < |ops| - 1 ensures ops[i] != Acquire(StoreLock) && ops[i] != Free(StoreLock) {
      if i >= 2 {
        assert ops[i] == Writes(events)[i - 2] && Writes(events)[i - 2] in Writes(events);
      }
    }
  }

  /** A tag migration takes the file locks alone. */
  lemma {:induction false} AddTagsLocks(events: seq<seq<IndexFile>>)
    ensures Acquired(AddTags(events)) == LocksOf(events)
  {
    if events != [] {
      AddTagsLocks(events[1..]);
      AddPositionsLocks(events[0]);
      AcquiredOne(Work);
      AcquiredJoins(AddPositions(events[0]) + [Work], AddTags(events[1..]));
      AcquiredJoins(AddPositions(events[0]), [Work]);
    }
  }

  /** A rebuild holds its projection's lock around everything it does, and no other. */
  lemma RebuildHolds(name: string, n: nat)
    ensures Around(ProjectionLock(name), Rebuild(name, n)) && |Rebuild(name, n)| == n + 2
    ensures forall op | op in Rebuild(name, n) :: op.Work? || op.lock == ProjectionLock(name)
  {
  }

  // ----- discipline -----

  /** Every lock taken ranks above all locks held, only held locks are freed, none is kept. */
  ghost predicate Fits(held: set<Lock>, todo: seq<Op>)
    decreases |todo|
  {
    if todo == [] then held == {}
    else match todo[0]
      case Acquire(l) => (forall h | h in held :: Rank(h) < Rank(l)) && Fits(held + {l}, todo[1..])
      case Free(l) => l in held && Fits(held - {l}, todo[1..])
      case Work => Fits(held, todo[1..])
  }

  lemma FitsAcquire(held: set<Lock>, l: Lock, rest: seq<Op>)
    requires Fits(held + {l}, rest) && forall h | h in held :: Rank(h) < Rank(l)
    ensures Fits(held, [Acquire(l)] + rest)
  {
    assert ([Acquire(l)] + rest)[1..] == rest;
  }

  lemma FitsFree(held: set<Lock>, l: Lock, rest: seq<Op>)
    requires Fits(held, rest) && l !in held
    ensures Fits(held + {l}, [Free(l)] + rest)
  {
    assert ([Free(l)] + rest)[1..] == rest && held + {l} - {l} == held;
  }

  lemma FitsWork(held: set<Lock>, rest: seq<Op>)
    requires Fits(held, rest)
    ensures Fits(held, [Work] + rest)
  {
    assert ([Work] + rest)[1..] == rest;
  }

  lemma Regroup(first: seq<Op>, middle: seq<Op>, rest: seq<Op>)
    ensures first + middle + rest == first + (middle + rest)
  {
  }

  lemma Unfold3(a: Op, b: Op, c: Op, rest: seq<Op>)
    ensures [a, b, c] + rest == [a] + ([b] + ([c] + rest))
  {
  }

  lemma {:induction false} AddPositionsFit(held: set<Lock>, files: seq<IndexFile>, rest: seq<Op>)
    requires Fits(held, rest) && forall h | h in held :: Rank(h) < 2
    ensures Fits(held, AddPositions(files) + rest)
  {
    if files == [] {
      assert AddPositions(files) + rest == rest;
    } else {
      var l := IndexLock(files[0]);
      var tail := AddPositions(files[1..]) + rest;
      AddPositionsFit(held, files[1..], rest);
      FitsFree(held, l, tail);
      FitsWork(held + {l}, [Free(l)] + tail);
      FitsAcquire(held, l, [Work] + ([Free(l)] + tail));
      Regroup([Acquire(l), Work, Free(l)], AddPositions(files[1..]), rest);
      Unfold3(Acquire(l), Work, Free(l), tail);
    }
  }

  lemma {:induction false} WritesFit(events: seq<seq<IndexFile>>, rest: seq<Op>)
    requires Fits({StoreLock}, rest)
    ensures Fits({StoreLock}, Writes(events) + rest)
  {
    if events == [] {
      assert Writes(events) + rest == rest;
    } else {
      var tail := Writes(events[1..]) + rest;
      WritesFit(events[1..], rest);
      AddPositionsFit({StoreLock}, events[0], tail);
      FitsWork({StoreLock}, AddPositions(events[0]) + tail);
      var positions := AddPositions(events[0]);
      Regroup([Work] + positions, Writes(events[1..]), rest);
      Regroup([Work], positions, tail);
    }
  }

  lemma FitsLast(l: Lock)
    ensures Fits({l}, [Free(l)])
  {
    FitsFree({}, l, []);
    assert [Free(l)] + [] == [Free(l)] && {} + {l} == {l};
  }

  lemma AppendFits(events: seq<seq<IndexFile>>)
    ensures Fits({}, Append(events))
  {
    FitsLast(StoreLock);
    WritesFit(events, [Free(StoreLock)]);
    var tail := Writes(events) + [Free(StoreLock)];
    FitsWork({StoreLock}, tail);
    assert {} + {StoreLock} == {StoreLock};
    FitsAcquire({}, StoreLock, [Work] + tail);
    assert Append(events) == [Acquire(StoreLock)] + ([Work] + tail);
  }

  lemma {:induction false} AddTagsFits(events: seq<seq<IndexFile>>)
    ensures Fits({}, AddTags(events))
  {
    if events != [] {
      AddTagsFits(events[1..]);
      FitsWork({}, AddTags(events[1..]));
      AddPositionsFit({}, events[0], [Work] + AddTags(events[1..]));
      Regroup(AddPositions(events[0]), [Work], AddTags(events[1..]));
    }
  }

  lemma {:induction false} WorkingFits(held: set<Lock>, n: nat, rest: seq<Op>)
    requires Fits(held, rest)
    ensures Fits(held, Working(n) + rest)
  {
    if n == 0 {
      assert Working(n) + rest == rest;
    } else {
      WorkingFits(held, n - 1, rest);
      FitsWork(held, Working(n - 1) + rest);
      assert Working(n) + rest == [Work] + (Working(n - 1) + rest);
    }
  }

  lemma RebuildFits(name: string, n: nat)
    ensures Fits({}, Rebuild(name, n))
  {
    var l := ProjectionLock(name);
    FitsLast(l);
    WorkingFits({l}, n, [Free(l)]);
    assert {} + {l} == {l};
    FitsAcquire({}, l, Working(n) + [Free(l)]);
    assert Rebuild(name, n) == [Acquire(l)] + (Working(n) + [Free(l)]);
  }

  // ----- processes -----

  datatype Process = Process(held: set<Lock>, todo: seq<Op>)

  type System = map<nat, Process>

  ghost predicate IsFree(s: System, lock: Lock) {
    forall pid | pid in s :: lock !in s[pid].held
  }

  ghost predicate CanStep(s: System, pid: nat) {
    && pid in s && s[pid].todo != []
    && (s[pid].todo[0].Acquire? ==> IsFree(s, s[pid].todo[0].lock))
  }

  ghost function Step(s: System, pid: nat): System {
    if !CanStep(s, pid) then s else
    var p := s[pid];
    var held := match p.todo[0]
      case Acquire(l) => p.held + {l}
      case Free(l) => p.held - {l}
      case Work => p.held;
    s[pid := Process(held, p.todo[1..])]
  }

  ghost function After(s: System, schedule: seq<nat>): System {
    if schedule == [] then s else Step(After(s, schedule[..|schedule| - 1]), schedule[|schedule| - 1])
  }

  ghost predicate IsOperation(todo: seq<Op>) {
    || (exists events :: todo == Append(events))
    || (exists events :: todo == AddTags(events))
    || (exists name, n: nat :: todo == Rebuild(name, n))
  }

  ghost predicate Init(s: System) {
    forall pid | pid in s :: s[pid].held == {} && IsOperation(s[pid].todo)
  }

  ghost predicate Disciplined(s: System) {
    && (forall pid | pid in s :: Fits(s[pid].held, s[pid].todo))
    && (forall p, q | p in s && q in s && p != q :: s[p].held !! s[q].held)
  }

  lemma OperationFits(todo: seq<Op>)
    requires IsOperation(todo)
    ensures Fits({}, todo)
  {
    if events :| todo == Append(events) { AppendFits(events); }
    else if events :| todo == AddTags(events) { AddTagsFits(events); }
    else {
      var name, n: nat :| todo == Rebuild(name, n);
      RebuildFits(name, n);
    }
  }

  lemma {:induction false} RunDisciplined(s: System, schedule: seq<nat>)
    requires Init(s)
    ensures Disciplined(After(s, schedule))
  {
    if schedule == [] {
      forall pid | pid in s ensures Fits(s[pid].held, s[pid].todo) { OperationFits(s[pid].todo); }
    } else {
      RunDisciplined(s, schedule[..|schedule| - 1]);
      StepDisciplined(After(s, schedule[..|schedule| - 1]), schedule[|schedule| - 1]);
    }
  }

  lemma StepDisciplined(s: System, pid: nat)
    requires Disciplined(s)
    ensures Disciplined(Step(s, pid))
  {
    if CanStep(s, pid) {
      assert Fits(s[pid].held, s[pid].todo);
    }
  }

  /** No lock is ever held by two. */
  lemma LocksExclude(s: System, schedule: seq<nat>, p: nat, q: nat, l: Lock)
    requires Init(s) && p in After(s, schedule) && q in After(s, schedule)
    requires l in After(s, schedule)[p].held && l in After(s, schedule)[q].held
    ensures p == q
  {
    RunDisciplined(s, schedule);
  }

  /** A step takes the next operation off its process and leaves the others where they are; after
      taking a lock the process has it. */
  lemma StepsOn(s: System, pid: nat)
    requires CanStep(s, pid)
    ensures pid in Step(s, pid) && Step(s, pid)[pid].todo == s[pid].todo[1..]
    ensures forall q | q in s && q != pid :: q in Step(s, pid) && Step(s, pid)[q] == s[q]
    ensures s[pid].todo[0].Acquire? ==> Step(s, pid)[pid].held == s[pid].held + {s[pid].todo[0].lock}
    ensures s[pid].todo[0].Free? ==> Step(s, pid)[pid].held == s[pid].held - {s[pid].todo[0].lock}
  {
  }

  /** From any unfinished process, following who holds the lock it waits for leads to one that
      can step: each hop climbs the lock order. */
  lemma {:induction false} FindStepper(s: System, pid: nat) returns (q: nat)
    requires Disciplined(s) && pid in s && s[pid].todo != []
    ensures CanStep(s, q)
    decreases if s[pid].todo[0].Acquire? then 3 - Rank(s[pid].todo[0].lock) else 0
  {
    if CanStep(s, pid) {
      q := pid;
    } else {
      var lock := s[pid].todo[0].lock;
      var holder :| holder in s && lock in s[holder].held;
      assert Fits(s[holder].held, s[holder].todo);
      q := FindStepper(s, holder);
    }
  }

  /** Deadlock freedom: in every reachable state of any mix of appends, tag migrations and
      rebuilds, if some process is unfinished then some process can step; and a finished process
      holds nothing, whether its operation succeeded or not. */
  lemma DeadlockFree(s: System, schedule: seq<nat>)
    requires Init(s)
    ensures (exists pid :: pid in After(s, schedule) && After(s, schedule)[pid].todo != [])
            ==> exists q :: CanStep(After(s, schedule), q)
    ensures forall pid | pid in After(s, schedule) && After(s, schedule)[pid].todo == [] :: After(s, schedule)[pid].held == {}
  {
    RunDisciplined(s, schedule);
    var t := After(s, schedule);
    if pid :| pid in t && t[pid].todo != [] {
      var q := FindStepper(t, pid);
    }
    forall pid | pid in t && t[pid].todo == [] ensures t[pid].held == {} {
      assert Fits(t[pid].held, t[pid].todo);
    }
  }
}
