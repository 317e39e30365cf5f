/** A sequence of events processed in batches, exactly when that is the same as processing it at once. */
module Batches {
  import opened Domain
  import opened Log
  import opened Projections

  /** One batch of the sequence: the events from index `lo` up to index `hi`. */
  datatype Cut = Cut(lo: nat, hi: nat)

  function Slice(events: seq<EventRecord>, c: Cut): seq<EventRecord> {
    if c.lo <= c.hi <= |events| then events[c.lo..c.hi] else []
  }

  function ProcessCuts<S>(d: Definition<S>, s: Stored<S>, events: seq<EventRecord>, cuts: seq<Cut>): Stored<S> {
    if cuts == [] then s
    else ProcessBatch(d, ProcessCuts(d, s, events, cuts[..|cuts| - 1]), Slice(events, cuts[|cuts| - 1]))
  }

  /** How far a list of batches has come. */
  function Reached(cuts: seq<Cut>): nat {
    if cuts == [] then 0 else Further(Reached(cuts[..|cuts| - 1]), cuts[|cuts| - 1])
  }

  function Further(reached: nat, c: Cut): nat {
    if c.hi > reached then c.hi else reached
  }

  /** Consecutive batches of a sequence of length `n`: each starts no later than where the
      earlier ones ended. */
  predicate Consecutive(cuts: seq<Cut>, n: nat) {
    cuts == [] ||
    var front, c := cuts[..|cuts| - 1], cuts[|cuts| - 1];
    Consecutive(front, n) && c.lo <= Reached(front) && c.lo <= c.hi <= n
  }

  /** The batches that hold any event. */
  function Busy(cuts: seq<Cut>): seq<Cut> {
    if cuts == [] then []
    else
      var c := cuts[|cuts| - 1];
      Busy(cuts[..|cuts| - 1]) + if c.lo < c.hi then [c] else []
  }

  /** A checkpoint that makes events be skipped. One at position zero, which a rebuild writes
      before it starts, does not: it stands for nothing processed, like none at all. */
  predicate AboveZero(saved: Option<Checkpoint>) {
    Resume(saved).lastPosition > 0
  }

  /** The checkpoint left by the first batch counts: there was one above zero before, or the batch
      ends above position zero, or no other batch follows. */
  predicate Anchored(saved: Option<Checkpoint>, events: seq<EventRecord>, cuts: seq<Cut>) {
    AboveZero(saved) || |Busy(cuts)| <= 1 || !EndsAtZero(events, Busy(cuts)[0].hi)
  }

  predicate EndsAtZero(events: seq<EventRecord>, hi: nat) {
    0 < hi <= |events| && events[hi - 1].position == 0
  }

  lemma {:induction false} BusyFits(cuts: seq<Cut>, n: nat)
    requires Consecutive(cuts, n)
    ensures Busy(cuts) == [] <==> Reached(cuts) == 0
    ensures Busy(cuts) != [] ==> 0 < Busy(cuts)[0].hi <= Reached(cuts) <= n
    ensures |Busy(cuts)| == 1 ==> Reached(cuts) == Busy(cuts)[0].hi
  {
    if cuts != [] {
      BusyFits(cuts[..|cuts| - 1], n);
    }
  }

  lemma NothingProcessed<S>(d: Definition<S>, s: Stored<S>)
    ensures ProcessBatch(d, s, []) == s
  {
  }

  lemma CutsSnoc<S>(d: Definition<S>, s: Stored<S>, events: seq<EventRecord>, cuts: seq<Cut>)
    requires cuts != [] && Consecutive(cuts, |events|)
    ensures var front, c := cuts[..|cuts| - 1], cuts[|cuts| - 1];
      && Consecutive(front, |events|) && c.lo <= Reached(front) && c.lo <= c.hi <= |events|
      && ProcessCuts(d, s, events, cuts) == ProcessBatch(d, ProcessCuts(d, s, events, front), events[c.lo..c.hi])
      && Reached(cuts) == Further(Reached(front), c)
      && Busy(cuts) == Busy(front) + (if c.lo < c.hi then [c] else [])
  {
  }

  /** Where a run stands when its checkpoint lets it be resumed. */
  ghost predicate Resumable(saved: Option<Checkpoint>, events: seq<EventRecord>, reached: nat) {
    0 < reached <= |events| && (AboveZero(saved) || events[reached - 1].position > 0)
  }

  lemma AdvanceReaches<S>(d: Definition<S>, p: Progress<S>, e: EventRecord)
    ensures var last := Advance(d, p, e).checkpoint.lastPosition;
      && p.checkpoint.lastPosition <= last && e.position <= last
      && (p.checkpoint.lastPosition == 0 || p.checkpoint.lastPosition < e.position ==> last == e.position)
  {
  }

  /** A checkpoint never falls, and it passes every event of a run. */
  lemma {:induction false} RunReaches<S>(d: Definition<S>, p: Progress<S>, events: seq<EventRecord>)
    requires Ascending(events) && events != []
    ensures var last := Run(d, p, events).checkpoint.lastPosition;
      && p.checkpoint.lastPosition <= last && events[|events| - 1].position <= last
      && (p.checkpoint.lastPosition == 0 ==> last == events[|events| - 1].position)
  {
    var front, e := events[..|events| - 1], events[|events| - 1];
    AscendingFront(events);
    RunSnoc(d, p, front, e);
    AdvanceReaches(d, Run(d, p, front), e);
    if front == [] {
      RunNothing(d, p);
    } else {
      RunReaches(d, p, front);
    }
  }

  lemma RunNothing<S>(d: Definition<S>, p: Progress<S>)
    ensures Run(d, p, []) == p
  {
  }

  /** After a resumable run the checkpoint is saved and has passed every event of it. */
  lemma ReachesBeyondZero<S>(d: Definition<S>, s: Stored<S>, events: seq<EventRecord>, reached: nat)
    requires Ascending(events) && Resumable(s.saved, events, reached)
    ensures var p := Run(d, Progress(s.contents, Resume(s.saved)), events[..reached]);
      && p.checkpoint.lastPosition > 0 && events[reached - 1].position <= p.checkpoint.lastPosition
      && ProcessBatch(d, s, events[..reached]) == Stored(p.contents, Some(p.checkpoint))
  {
    var seen := events[..reached];
    assert seen[|seen| - 1] == events[reached - 1];
    RunReaches(d, Progress(s.contents, Resume(s.saved)), seen);
  }

  /** Of a further batch only the part not seen yet has an effect. */
  lemma SeenIsSkipped<S>(d: Definition<S>, s: Stored<S>, events: seq<EventRecord>, reached: nat, c: Cut)
    requires Ascending(events) && 0 < reached <= |events| && c.lo <= reached && c.lo <= c.hi <= |events|
    requires s.saved.Some? && s.saved.value.lastPosition > 0
    requires events[reached - 1].position <= s.saved.value.lastPosition
    ensures ProcessBatch(d, s, events[c.lo..c.hi])
         == ProcessBatch(d, s, if c.hi <= reached then [] else events[reached..c.hi])
  {
    var p := Progress(s.contents, s.saved.value);
    if c.hi <= reached {
      OldEvents(events, c.lo, c.hi, reached);
      RunSkips(d, p, events[c.lo..c.hi]);
      RunNothing(d, p);
    } else {
      var again, next := events[c.lo..reached], events[reached..c.hi];
      assert events[c.lo..c.hi] == again + next;
      OldEvents(events, c.lo, reached, reached);
      RunSkips(d, p, again);
      RunSplit(d, p, again, next);
    }
  }

  lemma OldEvents(events: seq<EventRecord>, lo: nat, hi: nat, reached: nat)
    requires Ascending(events) && lo <= hi <= reached <= |events| && reached > 0
    ensures forall e | e in events[lo..hi] :: e.position <= events[reached - 1].position
  {
    forall e | e in events[lo..hi] ensures e.position <= events[reached - 1].position {
      var i :| lo <= i < hi && events[i] == e;
      assert i < reached - 1 ==> events[i].position < events[reached - 1].position;
    }
  }

  /** A resumable run can be taken up where it ended. */
  lemma TakenUp<S>(d: Definition<S>, s: Stored<S>, events: seq<EventRecord>, reached: nat, hi: nat)
    requires Ascending(events) && Resumable(s.saved, events, reached) && reached < hi <= |events|
    ensures ProcessBatch(d, ProcessBatch(d, s, events[..reached]), events[reached..hi])
         == ProcessBatch(d, s, events[..hi])
  {
    assert events[..hi] == events[..reached] + events[reached..hi];
    ReachesBeyondZero(d, s, events, reached);
    RunSplit(d, Progress(s.contents, Resume(s.saved)), events[..reached], events[reached..hi]);
    ResumableLater(s.saved, events, reached, hi);
    ReachesBeyondZero(d, s, events, hi);
  }

  /** A further batch, wherever it starts, only adds the part not seen yet. */
  lemma OneMore<S>(d: Definition<S>, s: Stored<S>, events: seq<EventRecord>, reached: nat, c: Cut)
    requires Ascending(events) && Resumable(s.saved, events, reached)
    requires c.lo <= reached && c.lo <= c.hi <= |events|
    ensures ProcessBatch(d, ProcessBatch(d, s, events[..reached]), events[c.lo..c.hi])
         == ProcessBatch(d, s, events[..Further(reached, c)])
  {
    var t := ProcessBatch(d, s, events[..reached]);
    ReachesBeyondZero(d, s, events, reached);
    SeenIsSkipped(d, t, events, reached, c);
    if c.hi <= reached {
      NothingProcessed(d, t);
    } else {
      TakenUp(d, s, events, reached, c.hi);
    }
  }

  lemma ResumableLater(saved: Option<Checkpoint>, events: seq<EventRecord>, reached: nat, later: nat)
    requires Ascending(events) && Resumable(saved, events, reached) && reached <= later <= |events|
    ensures Resumable(saved, events, later)
  {
    assert reached < later ==> events[reached - 1].position < events[later - 1].position;
  }

  /** Batches may be empty, overlap and repeat at will: if the first one is anchored,
      processing batch by batch is processing everything reached in one go. */
  lemma {:induction false} IncrementalIsOneShot<S>(
    d: Definition<S>, s: Stored<S>, events: seq<EventRecord>, cuts: seq<Cut>)
    requires Ascending(events) && Consecutive(cuts, |events|) && Anchored(s.saved, events, cuts)
    ensures Reached(cuts) <= |events|
    ensures ProcessCuts(d, s, events, cuts) == ProcessBatch(d, s, events[..Reached(cuts)])
  {
    BusyFits(cuts, |events|);
    if cuts == [] {
      NothingProcessed(d, s);
    } else {
      var front := cuts[..|cuts| - 1];
      CutsSnoc(d, s, events, cuts);
      BusyFits(front, |events|);
      IncrementalIsOneShot(d, s, events, front);
      OneMoreCut(d, s, events, Reached(front), cuts[|cuts| - 1], Busy(front));
    }
  }

  lemma OneMoreCut<S>(
    d: Definition<S>, s: Stored<S>, events: seq<EventRecord>, reached: nat, c: Cut, busy: seq<Cut>)
    requires Ascending(events) && reached <= |events| && c.lo <= reached && c.lo <= c.hi <= |events|
    requires busy == [] <==> reached == 0
    requires busy != [] ==> 0 < busy[0].hi <= reached
    requires busy != [] && c.lo < c.hi ==> AboveZero(s.saved) || !EndsAtZero(events, busy[0].hi)
    ensures ProcessBatch(d, ProcessBatch(d, s, events[..reached]), events[c.lo..c.hi])
         == ProcessBatch(d, s, events[..Further(reached, c)])
  {
    if reached == 0 {
      NothingProcessed(d, s);
      assert events[..reached] == [] && events[c.lo..c.hi] == events[..c.hi];
    } else if c.lo == c.hi {
      NothingProcessed(d, ProcessBatch(d, s, events[..reached]));
    } else {
      if !AboveZero(s.saved) { ResumableLater(s.saved, events, busy[0].hi, reached); }
      OneMore(d, s, events, reached, c);
    }
  }

  /** Position zero is not a checkpoint: a batch that ends there is processed again by the next
      batch that contains it, and every event of it counts twice. */
  lemma ZeroIsReplayed<S>(d: Definition<S>, s: Stored<S>, e: EventRecord)
    requires e.position == 0 && !AboveZero(s.saved)
    ensures var once := ProcessBatch(d, s, [e]);
      && once == Stored(ApplyTo(d, s.contents, e), s.saved)
      && ProcessBatch(d, once, [e]) == Stored(ApplyTo(d, ApplyTo(d, s.contents, e), e), s.saved)
  {
    ZeroApplied(d, Progress(s.contents, Resume(s.saved)), e);
    ZeroApplied(d, Progress(ApplyTo(d, s.contents, e), Resume(s.saved)), e);
  }

  lemma ZeroApplied<S>(d: Definition<S>, p: Progress<S>, e: EventRecord)
    requires e.position == 0 && p.checkpoint.lastPosition == 0
    ensures Run(d, p, [e]).contents == ApplyTo(d, p.contents, e) && Run(d, p, [e]).checkpoint.lastPosition == 0
  {
    assert [e][..0] == [];
    assert Run(d, p, [e]) == Advance(d, Run(d, p, []), e);
  }

  // ----- and only then -----

  function Increment(n: Option<int>, e: EventRecord): Option<int> {
    Some(if n.Some? then n.value + 1 else 1)
  }

  /** The projection that counts its events under one key. */
  function Tally(): Definition<int> {
    Definition(ALL, e => Some(""), Increment)
  }

  function Counted(c: Contents<int>): int {
    if "" in c then c[""] else 0
  }

  lemma TallyStep(p: Progress<int>, e: EventRecord)
    requires p.checkpoint.lastPosition == 0 || p.checkpoint.lastPosition < e.position
    ensures var q := Advance(Tally(), p, e);
      && Counted(q.contents) == Counted(p.contents) + 1
      && q.checkpoint == Checkpoint(e.position, p.checkpoint.totalEvents + 1)
  {
  }

  /** Both counters of the tally advance by the number of events that are new. */
  lemma {:induction false} TallyRun(p: Progress<int>, events: seq<EventRecord>)
    requires Ascending(events) && events != []
    requires p.checkpoint.lastPosition == 0 || p.checkpoint.lastPosition < events[0].position
    ensures var q := Run(Tally(), p, events);
      && Counted(q.contents) == Counted(p.contents) + |events|
      && q.checkpoint == Checkpoint(events[|events| - 1].position, p.checkpoint.totalEvents + |events|)
  {
    var front, e := events[..|events| - 1], events[|events| - 1];
    AscendingFront(events);
    RunSnoc(Tally(), p, front, e);
    if front == [] {
      RunNothing(Tally(), p);
      TallyStep(p, e);
    } else {
      TallyRun(p, front);
      assert front[|front| - 1].position < e.position;
      TallyStep(Run(Tally(), p, front), e);
    }
  }

  lemma TallyBatch(s: Stored<int>, events: seq<EventRecord>, lo: nat, hi: nat)
    requires Ascending(events) && lo < hi <= |events|
    requires Resume(s.saved).lastPosition == 0 || Resume(s.saved).lastPosition < events[lo].position
    ensures var t := ProcessBatch(Tally(), s, events[lo..hi]);
      && Counted(t.contents) == Counted(s.contents) + hi - lo
      && t.saved == Saved(s.saved, Checkpoint(events[hi - 1].position, Resume(s.saved).totalEvents + hi - lo))
  {
    var batch := events[lo..hi];
    assert batch[0] == events[lo] && batch[|batch| - 1] == events[hi - 1];
    TallyRun(Progress(s.contents, Resume(s.saved)), batch);
  }

  /** From `start` the tally has reached event `n` and saved its position, unless that is zero. */
  ghost predicate Kept(start: Stored<int>, s: Stored<int>, events: seq<EventRecord>, n: nat) {
    && 0 < n <= |events| && Counted(s.contents) > Counted(start.contents)
    && (n == 1 ==> s.saved == start.saved)
    && (n > 1 ==> s.saved.Some? && s.saved.value.lastPosition == events[n - 1].position)
  }

  /** Event zero was counted twice by the projection, or left out of the total. */
  ghost predicate Off(start: Stored<int>, s: Stored<int>, n: nat) {
    || Counted(s.contents) > Counted(start.contents) + n
    || (n > 1 && Resume(s.saved).totalEvents < Resume(start.saved).totalEvents + n)
  }

  lemma OffAfterZero(start: Stored<int>, s: Stored<int>, events: seq<EventRecord>, c: Cut)
    requires !AboveZero(start.saved) && Ascending(events) && Kept(start, s, events, 1) && events[0].position == 0
    requires c.lo <= 1 && c.lo < c.hi <= |events|
    ensures var t := ProcessBatch(Tally(), s, events[c.lo..c.hi]);
      Kept(start, t, events, Further(1, c)) && Off(start, t, Further(1, c))
  {
    TallyBatch(s, events, c.lo, c.hi);
    assert c.hi > 1 ==> events[0].position < events[c.hi - 1].position;
  }

  lemma StillOff(start: Stored<int>, s: Stored<int>, events: seq<EventRecord>, n: nat, c: Cut)
    requires Ascending(events) && Kept(start, s, events, n) && Off(start, s, n) && n > 1 && events[0].position == 0
    requires c.lo <= n && c.lo <= c.hi <= |events|
    ensures var t := ProcessBatch(Tally(), s, events[c.lo..c.hi]);
      Kept(start, t, events, Further(n, c)) && Off(start, t, Further(n, c))
  {
    assert events[0].position < events[n - 1].position;
    SeenIsSkipped(Tally(), s, events, n, c);
    if c.hi <= n {
      NothingProcessed(Tally(), s);
    } else {
      TallyBatch(s, events, n, c.hi);
    }
  }

  /** After a first batch that ended at position zero, any further one throws the tally off. */
  lemma {:induction false} TallyAdrift(start: Stored<int>, events: seq<EventRecord>, cuts: seq<Cut>)
    requires !AboveZero(start.saved) && Ascending(events) && Consecutive(cuts, |events|) && Busy(cuts) != []
    requires EndsAtZero(events, Busy(cuts)[0].hi)
    ensures var s := ProcessCuts(Tally(), start, events, cuts);
      && Kept(start, s, events, Reached(cuts))
      && (if |Busy(cuts)| == 1 then Reached(cuts) == 1 else Off(start, s, Reached(cuts)))
  {
    var front, c := cuts[..|cuts| - 1], cuts[|cuts| - 1];
    CutsSnoc(Tally(), start, events, cuts);
    BusyFits(cuts, |events|);
    BusyFits(front, |events|);
    FirstIsZero(events, Busy(cuts)[0].hi);
    if Busy(front) == [] {
      IncrementalIsOneShot(Tally(), start, events, front);
      assert events[..0] == [];
      NothingProcessed(Tally(), start);
      TallyBatch(start, events, 0, 1);
    } else {
      TallyAdrift(start, events, front);
      AdriftMore(start, ProcessCuts(Tally(), start, events, front), events, Reached(front), c, |Busy(front)|);
    }
  }

  lemma AdriftMore(start: Stored<int>, s: Stored<int>, events: seq<EventRecord>, n: nat, c: Cut, busy: nat)
    requires !AboveZero(start.saved) && Ascending(events) && Kept(start, s, events, n) && events[0].position == 0
    requires if busy == 1 then n == 1 else Off(start, s, n)
    requires c.lo <= n && c.lo <= c.hi <= |events|
    ensures var t := ProcessBatch(Tally(), s, events[c.lo..c.hi]); var m := Further(n, c);
      && Kept(start, t, events, m)
      && (if c.lo == c.hi && busy == 1 then m == 1 else Off(start, t, m))
  {
    if c.lo == c.hi {
      NothingProcessed(Tally(), s);
    } else if n == 1 {
      OffAfterZero(start, s, events, c);
    } else {
      StillOff(start, s, events, n, c);
    }
  }

  lemma FirstIsZero(events: seq<EventRecord>, hi: nat)
    requires Ascending(events) && EndsAtZero(events, hi)
    ensures hi == 1 && events[0].position == 0
  {
    assert forall j | 0 < j < |events| :: events[0].position < events[j].position;
  }

  lemma TallyAtOnce(start: Stored<int>, events: seq<EventRecord>, n: nat)
    requires !AboveZero(start.saved) && Ascending(events) && 0 < n <= |events|
    ensures !Off(start, ProcessBatch(Tally(), start, events[..n]), n)
  {
    assert events[0..n] == events[..n];
    TallyBatch(start, events, 0, n);
    assert n > 1 ==> events[0].position < events[n - 1].position;
  }

  /** Exactly when batches add up, for every start and every way of cutting: counting batch by batch
      gives the same counts as counting at once if and only if the first batch is anchored. */
  lemma CountsExactlyIfAnchored(start: Stored<int>, events: seq<EventRecord>, cuts: seq<Cut>)
    requires Ascending(events) && Consecutive(cuts, |events|)
    ensures Reached(cuts) <= |events|
    ensures Anchored(start.saved, events, cuts) <==>
            ProcessCuts(Tally(), start, events, cuts)
            == ProcessBatch(Tally(), start, events[..Reached(cuts)])
  {
    BusyFits(cuts, |events|);
    if Anchored(start.saved, events, cuts) {
      IncrementalIsOneShot(Tally(), start, events, cuts);
    } else {
      TallyAdrift(start, events, cuts);
      TallyAtOnce(start, events, Reached(cuts));
    }
  }

  // ----- batches after a rebuild -----

  /** The cleared store with the checkpoint a rebuild writes first. */
  function Cleared<S>(): Stored<S> {
    Stored(map[], Some(START))
  }

  lemma CutsOf<S>(d: Definition<S>, s: Stored<S>, events: seq<EventRecord>, front: seq<Cut>, last: Cut)
    ensures ProcessCuts(d, s, events, front + [last])
         == ProcessBatch(d, ProcessCuts(d, s, events, front), Slice(events, last))
  {
    assert (front + [last])[..|front|] == front;
  }

  lemma Regrouped(first: Cut, cuts: seq<Cut>)
    requires cuts != []
    ensures [first] + cuts == ([first] + cuts[..|cuts| - 1]) + [cuts[|cuts| - 1]]
    ensures cuts == cuts[..|cuts| - 1] + [cuts[|cuts| - 1]]
  {
  }

  lemma {:induction false} CutsCons<S>(
    d: Definition<S>, s: Stored<S>, t: Stored<S>, events: seq<EventRecord>, first: Cut, cuts: seq<Cut>)
    requires t == ProcessBatch(d, s, Slice(events, first))
    ensures ProcessCuts(d, s, events, [first] + cuts) == ProcessCuts(d, t, events, cuts)
  {
    if cuts == [] {
      CutsOf(d, s, events, [], first);
      assert [] + [first] == [first] + cuts;
    } else {
      CutsCons(d, s, t, events, first, cuts[..|cuts| - 1]);
      Regrouped(first, cuts);
      CutsOf(d, s, events, [first] + cuts[..|cuts| - 1], cuts[|cuts| - 1]);
      CutsOf(d, t, events, cuts[..|cuts| - 1], cuts[|cuts| - 1]);
    }
  }

  lemma {:induction false} BusyCons(first: Cut, cuts: seq<Cut>)
    ensures Busy([first] + cuts) == (if first.lo < first.hi then [first] else []) + Busy(cuts)
  {
    var all := [first] + cuts;
    if cuts == [] {
      assert all[..0] == [];
    } else {
      BusyCons(first, cuts[..|cuts| - 1]);
      assert all[..|all| - 1] == [first] + cuts[..|cuts| - 1];
    }
  }

  /** A rebuild over the first `n` events followed by any batches is a rebuild over everything
      reached, for every projection, if the rebuild as the first batch is anchored. */
  lemma RebuildThenBatches<S>(d: Definition<S>, log: seq<EventRecord>, n: nat, cuts: seq<Cut>)
    requires Numbered(log) && n <= |log| && Consecutive([Cut(0, n)] + cuts, |log|)
    requires Anchored(Some(START), log, [Cut(0, n)] + cuts)
    ensures Reached([Cut(0, n)] + cuts) <= |log|
    ensures ProcessCuts(d, ProcessBatch(d, Cleared(), log[..n]), log, cuts)
         == ProcessBatch(d, Cleared(), log[..Reached([Cut(0, n)] + cuts)])
  {
    assert Slice(log, Cut(0, n)) == log[..n];
    CutsCons(d, Cleared(), ProcessBatch(d, Cleared(), log[..n]), log, Cut(0, n), cuts);
    IncrementalIsOneShot(d, Cleared(), log, [Cut(0, n)] + cuts);
  }

  /** In terms of the rebuild: it is unsafe to go on only after a log of exactly one event, or of
      none if the next batch holds exactly the first event and yet another follows. */
  lemma {:induction false} AnchoredAfterRebuild(log: seq<EventRecord>, n: nat, cuts: seq<Cut>)
    requires Numbered(log) && n <= |log| && Consecutive([Cut(0, n)] + cuts, |log|)
    ensures Anchored(Some(START), log, [Cut(0, n)] + cuts) <==>
            if n > 0 then n > 1 || Busy(cuts) == [] else |Busy(cuts)| <= 1 || Busy(cuts)[0].hi != 1
  {
    var busy := Busy([Cut(0, n)] + cuts);
    BusyCons(Cut(0, n), cuts);
    BusyFits([Cut(0, n)] + cuts, |log|);
    assert [] + Busy(cuts) == Busy(cuts);
    assert busy != [] ==> log[busy[0].hi - 1].position == busy[0].hi - 1;
  }

  /** Exactly when counting can go on after a rebuild. */
  lemma CountsAfterRebuild(log: seq<EventRecord>, n: nat, cuts: seq<Cut>)
    requires Numbered(log) && 0 < n <= |log| && Consecutive([Cut(0, n)] + cuts, |log|)
    ensures Reached([Cut(0, n)] + cuts) <= |log|
    ensures ProcessCuts(Tally(), ProcessBatch(Tally(), Cleared(), log[..n]), log, cuts)
         == ProcessBatch(Tally(), Cleared(), log[..Reached([Cut(0, n)] + cuts)])
      <==> n > 1 || Busy(cuts) == []
  {
    assert Slice(log, Cut(0, n)) == log[..n];
    CutsCons(Tally(), Cleared(), ProcessBatch(Tally(), Cleared(), log[..n]), log, Cut(0, n), cuts);
    AnchoredAfterRebuild(log, n, cuts);
    CountsExactlyIfAnchored(Cleared(), log, [Cut(0, n)] + cuts);
  }
}
