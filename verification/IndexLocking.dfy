/** Concurrent updates of position files. Each update is four separate steps: take the file's
    lock, read the file, write it back with the position sorted in, free the lock. */
module IndexLocking {
  import opened FileNames
  import opened Sequences
  import opened Log
  import opened IndexedRead
  import opened Indices

  datatype Stage = Waiting | Holding | Loaded(positions: seq<nat>) | Stored | Finished

  /** One call of `add_position_async`. */
  datatype Writer = Writer(file: IndexFile, position: nat, stage: Stage)

  datatype State = State(index: Index, locks: map<IndexFile, nat>, writers: map<nat, Writer>)

  ghost function At(s: State, pid: nat, stage: Stage): State
    requires pid in s.writers
  {
    s.(writers := s.writers[pid := s.writers[pid].(stage := stage)])
  }

  /** The next step of one writer; nothing happens while its lock is taken or it has finished. */
  ghost function Step(s: State, pid: nat): State {
    if pid !in s.writers then s else
    var w := s.writers[pid];
    match w.stage
    case Waiting => if w.file in s.locks then s else At(s, pid, Holding).(locks := s.locks[w.file := pid])
    case Holding => At(s, pid, Loaded(Positions(s.index, w.file)))
    case Loaded(positions) =>
      var t := At(s, pid, Stored);
      if w.position in positions then t else t.(index := s.index[w.file := WithPosition(positions, w.position)])
    case Stored => At(s, pid, Finished).(locks := s.locks - {w.file})
    case Finished => s
  }

  ghost function After(s: State, schedule: seq<nat>): State {
    if schedule == [] then s else Step(After(s, schedule[..|schedule| - 1]), schedule[|schedule| - 1])
  }

  ghost predicate Init(s: State) {
    Ordered(s.index) && s.locks == map[] && forall pid | pid in s.writers :: s.writers[pid].stage == Waiting
  }

  predicate HasLock(stage: Stage) { stage.Holding? || stage.Loaded? || stage.Stored? }

  predicate HasWritten(stage: Stage) { stage.Stored? || stage.Finished? }

  /** Some writer has added the position to the file. */
  ghost predicate Added(s: State, file: IndexFile, position: nat) {
    exists pid :: pid in s.writers && HasWritten(s.writers[pid].stage)
                  && s.writers[pid].file == file && s.writers[pid].position == position
  }

  /** Each file holds exactly what it held at first and what has been added to it since. */
  ghost predicate Exact(first: Index, s: State) {
    && Ordered(s.index)
    && forall f, p :: p in Positions(s.index, f) <==> p in Positions(first, f) || Added(s, f, p)
  }

  ghost predicate Exclusive(s: State) {
    forall pid | pid in s.writers ::
      var w := s.writers[pid];
      && (HasLock(w.stage) ==> w.file in s.locks && s.locks[w.file] == pid)
      && (w.stage.Loaded? ==> w.stage.positions == Positions(s.index, w.file))
  }

  ghost predicate LocksHeld(s: State) {
    forall f | f in s.locks :: s.locks[f] in s.writers && s.writers[s.locks[f]].file == f && HasLock(s.writers[s.locks[f]].stage)
  }

  lemma StoreAdds(s: State, pid: nat, f: IndexFile, p: nat)
    requires pid in s.writers && s.writers[pid].stage.Loaded?
    ensures Added(Step(s, pid), f, p) <==>
            Added(s, f, p) || (f == s.writers[pid].file && p == s.writers[pid].position)
  {
    var w, t := s.writers[pid], Step(s, pid);
    assert t.writers[pid].file == w.file && t.writers[pid].position == w.position && t.writers[pid].stage.Stored?;
    if q :| q in s.writers && HasWritten(s.writers[q].stage) && s.writers[q].file == f && s.writers[q].position == p {
      assert t.writers[q] == s.writers[q];
    }
    if q :| q in t.writers && HasWritten(t.writers[q].stage) && t.writers[q].file == f && t.writers[q].position == p {
      assert q != pid ==> s.writers[q] == t.writers[q];
    }
  }

  lemma StoreExact(first: Index, s: State, pid: nat)
    requires Exact(first, s) && Exclusive(s) && pid in s.writers && s.writers[pid].stage.Loaded?
    ensures Exact(first, Step(s, pid))
  {
    var w, t := s.writers[pid], Step(s, pid);
    assert t.index == AddPosition(s.index, w.file, w.position);
    AddPositionExact(s.index, w.file, w.position);
    forall f, p ensures p in Positions(t.index, f) <==> p in Positions(first, f) || Added(t, f, p) {
      StoreAdds(s, pid, f, p);
      assert p in Positions(s.index, f) <==> p in Positions(first, f) || Added(s, f, p);
    }
  }

  lemma OtherAdds(s: State, pid: nat, f: IndexFile, p: nat)
    requires pid in s.writers && !s.writers[pid].stage.Loaded?
    ensures Added(Step(s, pid), f, p) <==> Added(s, f, p)
  {
    var t := Step(s, pid);
    assert t.writers.Keys == s.writers.Keys;
    forall q | q in s.writers ensures SameWriter(s.writers[q], t.writers[q]) {}
  }

  predicate SameWriter(a: Writer, b: Writer) {
    a.file == b.file && a.position == b.position && (HasWritten(a.stage) <==> HasWritten(b.stage))
  }

  lemma OtherExact(first: Index, s: State, pid: nat)
    requires Exact(first, s) && pid in s.writers && !s.writers[pid].stage.Loaded?
    ensures Exact(first, Step(s, pid))
  {
    forall f, p ensures Added(Step(s, pid), f, p) <==> Added(s, f, p) {
      OtherAdds(s, pid, f, p);
    }
  }

  lemma TakeOrFree(s: State, pid: nat)
    requires Exclusive(s) && LocksHeld(s) && pid in s.writers
    requires s.writers[pid].stage.Waiting? || s.writers[pid].stage.Stored? || s.writers[pid].stage.Finished?
    ensures Exclusive(Step(s, pid)) && LocksHeld(Step(s, pid))
  {
  }

  lemma LoadOrStore(s: State, pid: nat)
    requires Exclusive(s) && LocksHeld(s) && pid in s.writers
    requires s.writers[pid].stage.Holding? || s.writers[pid].stage.Loaded?
    ensures Exclusive(Step(s, pid)) && LocksHeld(Step(s, pid))
  {
    var t, w := Step(s, pid), s.writers[pid];
    assert s.locks[w.file] == pid;
    forall q | q in t.writers && q != pid && t.writers[q].stage.Loaded?
      ensures t.writers[q].stage.positions == Positions(t.index, t.writers[q].file)
    {
      assert s.locks[s.writers[q].file] == q;
      assert s.writers[q].file != w.file;
    }
  }

  lemma StepLocks(s: State, pid: nat)
    requires Exclusive(s) && LocksHeld(s)
    ensures Exclusive(Step(s, pid)) && LocksHeld(Step(s, pid))
  {
    if pid in s.writers {
      if s.writers[pid].stage.Holding? || s.writers[pid].stage.Loaded? { LoadOrStore(s, pid); } else { TakeOrFree(s, pid); }
    }
  }

  /** No update is lost: under every interleaving each file stays strictly increasing and holds
      exactly its first content and the positions added so far; once every writer has finished
      that is every position handed in. */
  lemma {:induction false} NoLostUpdate(s: State, schedule: seq<nat>)
    requires Init(s)
    ensures Exact(s.index, After(s, schedule))
    ensures Exclusive(After(s, schedule)) && LocksHeld(After(s, schedule))
  {
    if schedule == [] {
      assert forall f, p :: !Added(s, f, p);
    } else {
      var front, pid := schedule[..|schedule| - 1], schedule[|schedule| - 1];
      NoLostUpdate(s, front);
      var before := After(s, front);
      StepLocks(before, pid);
      if pid in before.writers {
        if before.writers[pid].stage.Loaded? { StoreExact(s.index, before, pid); } else { OtherExact(s.index, before, pid); }
      }
    }
  }

  /** Finished writers left their position, and nothing appears that nobody handed in. */
  lemma FinishedWritersCount(s: State, schedule: seq<nat>, file: IndexFile, p: nat)
    requires Init(s) && forall pid | pid in After(s, schedule).writers :: After(s, schedule).writers[pid].stage.Finished?
    ensures Increasing(Positions(After(s, schedule).index, file))
    ensures p in Positions(After(s, schedule).index, file) <==>
            p in Positions(s.index, file)
            || exists pid :: pid in After(s, schedule).writers
                 && After(s, schedule).writers[pid].file == file && After(s, schedule).writers[pid].position == p
  {
    NoLostUpdate(s, schedule);
    var t := After(s, schedule);
    if pid :| pid in t.writers && t.writers[pid].file == file && t.writers[pid].position == p {
      assert Added(t, file, p);
    }
  }

  function StepsLeft(stage: Stage): nat {
    match stage
    case Waiting => 4
    case Holding => 3
    case Loaded(_) => 2
    case Stored => 1
    case Finished => 0
  }

  /** Writers never wait for each other in a circle: whoever waits waits for a writer that can go
      on, and a step that can be taken brings its writer nearer to its end. */
  lemma SomeWriterGoesOn(s: State, schedule: seq<nat>, pid: nat) returns (next: nat)
    requires Init(s) && pid in After(s, schedule).writers && !After(s, schedule).writers[pid].stage.Finished?
    ensures var t := After(s, schedule);
      && next in t.writers && next in Step(t, next).writers
      && t.writers[next].file == t.writers[pid].file
      && StepsLeft(Step(t, next).writers[next].stage) + 1 == StepsLeft(t.writers[next].stage)
  {
    NoLostUpdate(s, schedule);
    var t := After(s, schedule);
    var w := t.writers[pid];
    next := if w.stage.Waiting? && w.file in t.locks then t.locks[w.file] else pid;
  }
}
