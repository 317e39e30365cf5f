/** A decision that meets nobody, step by step, from the empty store to its commit. */
module LoneDecision {
  import opened Domain
  import opened FileNames
  import opened Sequences
  import opened Log
  import opened IndexedRead
  import opened Indices
  import opened DecisionModel
  import opened Protocol
  import opened ProtocolSerial
  import opened TornRun

  /** It asks for everything and, on its initial state, wants to append this one event. */
  ghost predicate Appends<S>(d: Decision<S>, data: EventData) {
    d.state.query == ALL && d.process(d.state.initialState) == Some([data]) && data.event.tags == []
  }

  ghost function Alone<S>(d: Decision<S>): State<S> {
    State(EMPTY, None, map[0 := Process(ExecuteJob(d, 1), 0, None, Ready)], [], 0, false)
  }

  function ToEventFile(): seq<Action> {
    [Acquire(0), ScanDirectory(0), Check(0, 0), WriteEventFile(0)]
  }

  function WholeRun(): seq<Action> {
    [AtomicRead(0)] + ToEventFile() + [WriteIndexFile(0), Release(0)]
  }

  lemma ReadsNothing<S>(d: Decision<S>, data: EventData)
    requires Appends(d, data)
    ensures Next(Alone(d), AtomicRead(0))
         == Alone(d).(procs := map[0 := Process(ExecuteJob(d, 1), 0, Some(View([], 0, 0)), Queued)])
    ensures RequestOf(ExecuteJob(d, 1), Some(View([], 0, 0))) == Some(Request([data], Some(AppendCondition(ALL, None))))
  {
    NothingStored(None);
    var empty: seq<EventRecord> := [];
    assert Sort(empty, PositionOf) == [];
    assert Build(d.state, empty).state == d.state.initialState;
  }

  lemma NothingStored(start: Option<nat>)
    ensures ReadResult(EMPTY, ALL, start, None, false) == Ok([]) && NextPosition(EMPTY.events) == 0
  {
    assert QueryPositions(EMPTY, ALL, From(start)) == {};
    assert Ascending({}) == [];
  }

  /** The event file is written; its one index file comes next. */
  lemma WritesIt<S>(d: Decision<S>, data: EventData, s: State<S>)
    requires Appends(d, data)
    requires s == Alone(d).(procs := map[0 := Process(ExecuteJob(d, 1), 0, Some(View([], 0, 0)), Queued)])
    ensures var t := After(s, ToEventFile());
      && t.files == Files(map[0 := Record(data, 0, 0)], map[]) && t.lock == Some(0) && !t.torn
      && t.procs == map[0 := Process(ExecuteJob(d, 1), 0, Some(View([], 0, 0)), Writing(0, 0, 0, 1))]
      && |t.commits| == 1 && t.commits[0].request.batch == [data]
  {
    ReadsNothing(d, data);
    NothingStored(None);
    assert ReadForCheck(s, Some(AppendCondition(ALL, None))) == Ok([]);
    WritesOne(s, 0, data, Some(AppendCondition(ALL, None)), 0);
  }

  /** The index file is written and the lock is freed. */
  lemma Finishes<S>(d: Decision<S>, data: EventData, s: State<S>)
    requires data.event.tags == []
    requires s.files == Files(map[0 := Record(data, 0, 0)], map[]) && s.lock == Some(0) && !s.torn
    requires s.procs == map[0 := Process(ExecuteJob(d, 1), 0, Some(View([], 0, 0)), Writing(0, 0, 0, 1))]
    requires |s.commits| == 1 && s.commits[0].request.batch == [data]
    ensures var t := Next(Next(s, WriteIndexFile(0)), Release(0));
      && t.procs[0].pc == Done(Committed(0)) && t.lock == None && !t.torn
      && t.files == Files(map[0 := Record(data, 0, 0)], map[FileOfType(data.event.eventType) := [0]])
  {
    var files := FilesOf(data.event);
    assert files == [FileOfType(data.event.eventType)];
    OnePosition();
    assert EventAt(s.commits, s.procs[0].pc) == data.event;
    var indexed := Next(s, WriteIndexFile(0));
    assert indexed == WriteIndex(s, 0);
    assert indexed.procs[0].pc == Unlocking(Committed(0));
    assert indexed.files.index == map[files[0] := [0]];
  }

  lemma OnePosition()
    ensures WithPosition([], 0) == [0]
  {
    assert [] + [0] == [0] && [0][1..] == [];
  }

  lemma InParts<S>(s: State<S>)
    ensures After(s, WholeRun())
         == Next(Next(After(Next(s, AtomicRead(0)), ToEventFile()), WriteIndexFile(0)), Release(0))
  {
    var read := Next(s, AtomicRead(0));
    var written := After(read, ToEventFile());
    AfterOne(s, AtomicRead(0), ToEventFile() + [WriteIndexFile(0), Release(0)]);
    AfterTwo(read, ToEventFile(), [WriteIndexFile(0), Release(0)]);
    AfterOne(written, WriteIndexFile(0), [Release(0)]);
    AfterOne(Next(written, WriteIndexFile(0)), Release(0), []);
    assert [WriteIndexFile(0)] + [Release(0)] == [WriteIndexFile(0), Release(0)] && [Release(0)] + [] == [Release(0)];
    assert WholeRun() == [AtomicRead(0)] + (ToEventFile() + [WriteIndexFile(0), Release(0)]);
  }

  lemma StartsAlone<S(!new)>(d: Decision<S>, data: EventData, v: Vocabulary)
    requires Appends(d, data)
    requires forall state: S :: d.process(state).Some? ==> CoversBatch(v, d.process(state).value)
    ensures Init(Alone(d)) && JobsOk(v, Alone(d).procs)
  {
    assert JobOk(v, ExecuteJob(d, 1));
  }

  lemma FromReading<S>(d: Decision<S>, data: EventData, read: State<S>, t: State<S>)
    requires Appends(d, data)
    requires read == Alone(d).(procs := map[0 := Process(ExecuteJob(d, 1), 0, Some(View([], 0, 0)), Queued)])
    requires t == Next(Next(After(read, ToEventFile()), WriteIndexFile(0)), Release(0))
    ensures 0 in t.procs && t.procs[0].pc == Done(Committed(0)) && t.lock == None && !t.torn
    ensures t.files == Files(map[0 := Record(data, 0, 0)], map[FileOfType(data.event.eventType) := [0]])
  {
    WritesIt(d, data, read);
    Finishes(d, data, After(read, ToEventFile()));
  }

  /** The promises about decisions are not empty: from the empty store the lone decision reads,
      decides, checks, writes its event and its index entry, and succeeds. */
  lemma LoneDecisionCommits<S(!new)>(d: Decision<S>, data: EventData, v: Vocabulary, t: State<S>)
    requires Appends(d, data) && t == After(Alone(d), WholeRun())
    requires forall state: S :: d.process(state).Some? ==> CoversBatch(v, d.process(state).value)
    ensures Init(Alone(d)) && JobsOk(v, Alone(d).procs)
    ensures 0 in t.procs && t.procs[0].pc == Done(Committed(0)) && t.lock == None && !t.torn
    ensures t.files == Files(map[0 := Record(data, 0, 0)], map[FileOfType(data.event.eventType) := [0]])
  {
    StartsAlone(d, data, v);
    ReadsNothing(d, data);
    InParts(Alone(d));
    FromReading(d, data, Next(Alone(d), AtomicRead(0)), t);
  }
}
