/** A crash inside an event, step by step: what serializability cannot promise after it. */
module TornRun {
  import opened Domain
  import opened FileNames
  import opened Log
  import opened MissingEntries
  import opened Protocol
  import opened ProtocolSerial

  /** Appends one event whatever is there. */
  function Writer(d: EventData): Process<()> {
    Process(AppendJob([d], None), 0, None, Queued)
  }

  /** Appends the event unless one of its type is there. */
  function Guarded(d: EventData): Process<()> {
    Process(AppendJob([d], Some(AppendCondition(Asking(d.event, 0), None))), 0, None, Queued)
  }

  ghost function Start(d: EventData): State<()> {
    State(EMPTY, None, map[0 := Writer(d), 1 := Guarded(d)], [], 0, false)
  }

  /** The writer crashes between its event file and the first index file; the guarded append
      follows. */
  function CrashedWrite(): seq<Action> {
    [Acquire(0), ScanDirectory(0), Check(0, 0), WriteEventFile(0), Crash(0)]
  }

  function GuardedWrite(): seq<Action> {
    [Acquire(1), ScanDirectory(1), Check(1, 0), WriteEventFile(1)]
  }

  lemma AfterTwo<S>(s: State<S>, a: seq<Action>, b: seq<Action>)
    ensures After(s, a + b) == After(After(s, a), b)
  {
    if b == [] {
      assert a + b == a;
    } else {
      var front := b[..|b| - 1];
      AfterTwo(s, a, front);
      assert (a + b)[..|a + b| - 1] == a + front;
    }
  }

  lemma AfterOne<S>(s: State<S>, a: Action, rest: seq<Action>)
    ensures After(s, [a] + rest) == After(Next(s, a), rest)
  {
    AfterTwo(s, [a], rest);
    assert [a][..0] == [];
    assert After(s, [a]) == Next(After(s, []), a);
  }

  lemma AfterFour<S>(s: State<S>, a: Action, b: Action, c: Action, d: Action)
    ensures After(s, [a, b, c, d]) == Next(Next(Next(Next(s, a), b), c), d)
  {
    assert [a, b, c, d] == [a] + [b, c, d] && [b, c, d] == [b] + [c, d] && [c, d] == [c] + [d] && [d] == [d] + [];
    AfterOne(s, a, [b, c, d]);
    AfterOne(Next(s, a), b, [c, d]);
    AfterOne(Next(Next(s, a), b), c, [d]);
    AfterOne(Next(Next(Next(s, a), b), c), d, []);
  }

  lemma LocksAndScans<S>(s: State<S>, pid: nat)
    requires pid in s.procs && s.procs[pid].pc == Queued && s.lock == None
    ensures Next(Next(s, Acquire(pid)), ScanDirectory(pid))
         == SetPc(s, pid, Scanned(NextPosition(s.files.events))).(lock := Some(pid))
  {
    var locked := Next(s, Acquire(pid));
    assert locked == SetPc(s, pid, Locked).(lock := Some(pid));
    assert locked.procs[pid := locked.procs[pid].(pc := Scanned(NextPosition(s.files.events)))]
        == s.procs[pid := s.procs[pid].(pc := Scanned(NextPosition(s.files.events)))];
  }

  lemma Passes<S>(s: State<S>, pid: nat, d: EventData, condition: Option<AppendCondition>, n: nat)
    requires pid in s.procs && s.procs[pid].pc == Scanned(n)
    requires RequestOf(s.procs[pid].job, s.procs[pid].view) == Some(Request([d], condition))
    requires ReadForCheck(s, condition) == Ok([])
    ensures Next(s, Check(pid, 0)) == SetPc(s, pid, Writing(|s.commits|, n, 0, 0))
      .(commits := s.commits + [Commit(pid, s.procs[pid].job, s.procs[pid].view, Request([d], condition), 0, 0)])
  {
    assert Next(s, Check(pid, 0)) == DoCheck(s, pid, 0);
    assert [d] != [];
  }

  lemma WritesEventFile<S>(s: State<S>, pid: nat, d: EventData, n: nat, earlier: seq<Commit<S>>, c: Commit<S>)
    requires pid in s.procs && s.procs[pid].pc == Writing(|earlier|, n, 0, 0) && s.commits == earlier + [c]
    requires c.request.batch == [d] && c.stamp == 0
    ensures Next(s, WriteEventFile(pid)) == SetPc(s, pid, Writing(|earlier|, n, 0, 1))
      .(files := s.files.(events := s.files.events[n := Record(d, n, 0)]), commits := earlier + [c.(kept := 1)])
  {
    assert s.commits[|earlier|] == c;
    assert (earlier + [c])[|earlier| := c.(kept := 1)] == earlier + [c.(kept := 1)];
  }

  /** Taking the lock, scanning, passing the check and writing the event file, seen as one. */
  lemma WritesOne<S>(s: State<S>, pid: nat, d: EventData, condition: Option<AppendCondition>, n: nat)
    requires pid in s.procs && s.procs[pid].pc == Queued
    requires RequestOf(s.procs[pid].job, s.procs[pid].view) == Some(Request([d], condition))
    requires s.lock == None && NextPosition(s.files.events) == n && ReadForCheck(s, condition) == Ok([])
    ensures var entry := Commit(pid, s.procs[pid].job, s.procs[pid].view, Request([d], condition), 0, 1);
      After(s, [Acquire(pid), ScanDirectory(pid), Check(pid, 0), WriteEventFile(pid)])
      == SetPc(s, pid, Writing(|s.commits|, n, 0, 1))
           .(files := s.files.(events := s.files.events[n := Record(d, n, 0)]),
             lock := Some(pid), commits := s.commits + [entry])
  {
    AfterFour(s, Acquire(pid), ScanDirectory(pid), Check(pid, 0), WriteEventFile(pid));
    var scanned := SetPc(s, pid, Scanned(n)).(lock := Some(pid));
    LocksAndScans(s, pid);
    assert ReadForCheck(scanned, condition) == ReadForCheck(s, condition);
    Passes(scanned, pid, d, condition, n);
    var c := Commit(pid, s.procs[pid].job, s.procs[pid].view, Request([d], condition), 0, 0);
    var passed := SetPc(scanned, pid, Writing(|s.commits|, n, 0, 0)).(commits := s.commits + [c]);
    WritesEventFile(passed, pid, d, n, s.commits, c);
    SetTwice(s, scanned, pid, Writing(|s.commits|, n, 0, 0));
    SetTwice(s, passed, pid, Writing(|s.commits|, n, 0, 1));
  }

  lemma SetTwice<S>(s: State<S>, t: State<S>, pid: nat, pc: Pc)
    requires pid in s.procs && pid in t.procs && t.procs == s.procs[pid := s.procs[pid].(pc := t.procs[pid].pc)]
    ensures SetPc(t, pid, pc).procs == SetPc(s, pid, pc).procs
  {
  }

  /** After the crash: the event is in the log, no index file knows it. */
  lemma Crashed(d: EventData)
    ensures var t := After(Start(d), CrashedWrite());
      && t.files == Files(map[0 := Record(d, 0, 0)], map[]) && t.lock == None && t.torn
      && t.procs.Keys == {0, 1} && t.procs[1] == Guarded(d)
      && t.commits == [Commit(0, Writer(d).job, None, Request([d], None), 0, 1)]
  {
    var s := Start(d);
    WritesOne(s, 0, d, None, 0);
    var written := After(s, [Acquire(0), ScanDirectory(0), Check(0, 0), WriteEventFile(0)]);
    AfterTwo(s, [Acquire(0), ScanDirectory(0), Check(0, 0), WriteEventFile(0)], [Crash(0)]);
    AfterOne(written, Crash(0), []);
    assert CrashedWrite() == [Acquire(0), ScanDirectory(0), Check(0, 0), WriteEventFile(0)] + [Crash(0)];
    assert [Crash(0)] + [] == [Crash(0)];
    assert After(s, CrashedWrite()) == CrashNow(written, 0);
  }

  lemma StartsWell(d: EventData)
    requires d.event.tags == []
    ensures var v := Vocabulary(iset{d.event.eventType}, iset{});
      Init(Start(d)) && JobsOk(v, Start(d).procs) && AliasFree(v)
  {
    var v := Vocabulary(iset{d.event.eventType}, iset{});
    AskingCovered(v, d.event, 0);
    AskingMatches(d.event, 0, Record(d, 0, 0));
    assert JobOk(v, Writer(d).job) && JobOk(v, Guarded(d).job);
  }

  /** Serializability ends with the first half-indexed event: the guarded append commits against
      an event of its own type, and the files hold a log that no serial run of the two writes. */
  lemma TornRunIsNotSerial(d: EventData)
    requires d.event.tags == []
    ensures var v := Vocabulary(iset{d.event.eventType}, iset{});
      Init(Start(d)) && JobsOk(v, Start(d).procs) && AliasFree(v)
    ensures var t := After(Start(d), CrashedWrite() + GuardedWrite()); t.torn && NotSerial(t)
  {
    StartsWell(d);
    Crashed(d);
    GuardedGoesAhead(d, After(Start(d), CrashedWrite()));
    AfterTwo(Start(d), CrashedWrite(), GuardedWrite());
  }

  lemma GuardedGoesAhead(d: EventData, s: State<()>)
    requires s.files == Files(map[0 := Record(d, 0, 0)], map[]) && s.lock == None && s.torn
    requires 1 in s.procs && s.procs[1] == Guarded(d)
    requires s.commits == [Commit(0, Writer(d).job, None, Request([d], None), 0, 1)]
    ensures After(s, GuardedWrite()).torn && NotSerial(After(s, GuardedWrite()))
  {
    var condition := AppendCondition(Asking(d.event, 0), None);
    UnindexedEventUnnoticed(Record(d, 0, 0));
    NextIsLength(s.files.events, [Record(d, 0, 0)]);
    assert ReadForCheck(s, Some(condition)) == Ok([]);
    WritesOne(s, 1, d, Some(condition), 1);
    TwoCommits(d, After(s, GuardedWrite()));
  }

  /** The last commit went ahead against its condition, and the files hold what was written but
      not what the committed jobs write one after the other. */
  ghost predicate NotSerial<S>(t: State<S>) {
    && t.commits != []
    && var e := |t.commits| - 1;
    && !SerialEntry(t.commits[e], LogBefore(t.commits, e)) && !EntryUnopposed(t.commits[e], LogBefore(t.commits, e), false)
    && StoresLog(t.files.events, WrittenLog(t.commits)) && !StoresLog(t.files.events, SerialLog(t.commits))
  }

  lemma TwoCommits(d: EventData, t: State<()>)
    requires var condition := AppendCondition(Asking(d.event, 0), None);
      t.commits == [Commit(0, Writer(d).job, None, Request([d], None), 0, 1),
                    Commit(1, Guarded(d).job, None, Request([d], Some(condition)), 0, 1)]
    requires t.files.events == map[0 := Record(d, 0, 0), 1 := Record(d, 1, 0)]
    requires Scan([Record(d, 0, 0)], Asking(d.event, 0), 0) == [Record(d, 0, 0)]
    ensures NotSerial(t)
  {
    var r0, r1 := Record(d, 0, 0), Record(d, 1, 0);
    var first, second := t.commits[0], t.commits[1];
    AskingMatches(d.event, 0, r0);
    assert t.commits[..1] == [first] && [first][..0] == [];
    assert WrittenLog([first]) == [] + Stamp([d], 0, 0) == [r0];
    assert SerialLog([first]) == [] + Stamp([d], 0, 0) == [r0];
    assert Stamp([d], 1, 0) == [r1];
    assert WrittenLog(t.commits) == [r0, r1];
    assert SerialBatch(second.job, [r0]) == None;
    assert SerialLog(t.commits) == [r0];
    assert 1 in t.files.events;
  }
}
