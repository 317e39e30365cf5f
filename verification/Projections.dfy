/** Projections as checkpointed folds: what a run of events does to the keyed states, cut into
    batches or all at once. */
module Projections {
  import opened Domain
  import opened Log

  /** The fold of one projection; `apply` answering None deletes the instance. */
  datatype Definition<!S> = Definition(
    query: Query, keySelector: EventRecord -> Option<string>, apply: (Option<S>, EventRecord) -> Option<S>)

  type Contents<S> = map<string, S>

  datatype Checkpoint = Checkpoint(lastPosition: nat, totalEvents: nat)

  datatype Progress<S> = Progress(contents: Contents<S>, checkpoint: Checkpoint)

  function Lookup<S>(c: Contents<S>, key: string): Option<S> {
    if key in c then Some(c[key]) else None
  }

  function Put<S>(c: Contents<S>, key: string, state: Option<S>): Contents<S> {
    if state.Some? then c[key := state.value] else c - {key}
  }

  /** The key whose instance an event updates, if it updates one. */
  function Target<S>(d: Definition<S>, e: EventRecord): Option<string> {
    if Matches(d.query, e) then d.keySelector(e) else None
  }

  function ApplyTo<S>(d: Definition<S>, c: Contents<S>, e: EventRecord): Contents<S> {
    var key := Target(d, e);
    if key.None? then c else Put(c, key.value, d.apply(Lookup(c, key.value), e))
  }

  /** Events at or before a checkpoint above zero are skipped; all others move it, and the
      matching ones are counted. */
  function Advance<S>(d: Definition<S>, p: Progress<S>, e: EventRecord): Progress<S> {
    if e.position <= p.checkpoint.lastPosition && p.checkpoint.lastPosition > 0 then p
    else Progress(ApplyTo(d, p.contents, e),
                  Checkpoint(e.position, p.checkpoint.totalEvents + if Matches(d.query, e) then 1 else 0))
  }

  function Run<S>(d: Definition<S>, p: Progress<S>, events: seq<EventRecord>): Progress<S> {
    if events == [] then p else Advance(d, Run(d, p, events[..|events| - 1]), events[|events| - 1])
  }

  const START := Checkpoint(0, 0)

  function Resume(saved: Option<Checkpoint>): Checkpoint {
    if saved.Some? then saved.value else START
  }

  /** A checkpoint at position zero is not saved. */
  function Saved(saved: Option<Checkpoint>, reached: Checkpoint): Option<Checkpoint> {
    if reached.lastPosition > 0 then Some(reached) else saved
  }

  // ----- the meaning of a fold, key by key -----

  /** The fold of `apply` over the events that select this key. */
  function FoldKey<S>(d: Definition<S>, events: seq<EventRecord>, key: string): Option<S> {
    if events == [] then None
    else
      var before, e := FoldKey(d, events[..|events| - 1], key), events[|events| - 1];
      if Target(d, e) == Some(key) then d.apply(before, e) else before
  }

  /** The instance of a key after each event: none at first; an event that the query selects and
      the key selector assigns to the key makes `apply` of it, any other leaves it. */
  ghost predicate IsKeyTrace<S>(d: Definition<S>, events: seq<EventRecord>, key: string, states: seq<Option<S>>) {
    && |states| == |events| + 1 && states[0] == None
    && forall i | 0 <= i < |events| ::
         states[i + 1] == if Matches(d.query, events[i]) && d.keySelector(events[i]) == Some(key)
                          then d.apply(states[i], events[i]) else states[i]
  }

  /** The fold of a key is where the events taken in turn, the first one first, leave its instance. */
  lemma {:induction false} FoldKeyTrace<S>(d: Definition<S>, events: seq<EventRecord>, key: string)
    returns (states: seq<Option<S>>)
    ensures IsKeyTrace(d, events, key, states) && states[|events|] == FoldKey(d, events, key)
  {
    if events == [] {
      states := [None];
    } else {
      states := FoldKeyTrace(d, events[..|events| - 1], key);
      states := states + [FoldKey(d, events, key)];
    }
  }

  lemma {:induction false} KeyTraceUnique<S>(
    d: Definition<S>, events: seq<EventRecord>, key: string, a: seq<Option<S>>, b: seq<Option<S>>, i: nat)
    requires IsKeyTrace(d, events, key, a) && IsKeyTrace(d, events, key, b) && i <= |events|
    ensures a[i] == b[i]
  {
    if i > 0 { KeyTraceUnique(d, events, key, a, b, i - 1); }
  }

  lemma FoldSnoc<S>(d: Definition<S>, front: seq<EventRecord>, e: EventRecord, key: string)
    ensures FoldKey(d, front + [e], key)
         == if Target(d, e) == Some(key) then d.apply(FoldKey(d, front, key), e) else FoldKey(d, front, key)
  {
    assert (front + [e])[..|front|] == front;
  }

  lemma RunSnoc<S>(d: Definition<S>, p: Progress<S>, front: seq<EventRecord>, e: EventRecord)
    ensures Run(d, p, front + [e]) == Advance(d, Run(d, p, front), e)
  {
    assert (front + [e])[..|front|] == front;
  }

  ghost predicate Ascending(events: seq<EventRecord>) {
    forall i, j | 0 <= i < j < |events| :: events[i].position < events[j].position
  }

  function LastOr0(events: seq<EventRecord>): nat {
    if events == [] then 0 else events[|events| - 1].position
  }

  lemma AdvanceNew<S>(d: Definition<S>, p: Progress<S>, e: EventRecord)
    requires p.checkpoint.lastPosition == 0 || p.checkpoint.lastPosition < e.position
    ensures Advance(d, p, e).contents == ApplyTo(d, p.contents, e)
    ensures Advance(d, p, e).checkpoint
         == Checkpoint(e.position, p.checkpoint.totalEvents + if Matches(d.query, e) then 1 else 0)
  {
  }

  lemma AscendingFront(events: seq<EventRecord>)
    requires Ascending(events) && events != []
    ensures var front, e := events[..|events| - 1], events[|events| - 1];
      events == front + [e] && Ascending(front) && (LastOr0(front) == 0 || LastOr0(front) < e.position)
  {
    var front := events[..|events| - 1];
    assert front != [] ==> front[|front| - 1].position < events[|events| - 1].position;
  }

  /** Running ascending events from an empty store counts the matching ones and leaves the
      checkpoint at the last. */
  lemma {:induction false} RunCheckpoint<S>(d: Definition<S>, events: seq<EventRecord>)
    requires Ascending(events)
    ensures Run(d, Progress(map[], START), events).checkpoint == Checkpoint(LastOr0(events), |Filter(events, d.query)|)
  {
    if events != [] {
      var front, e := events[..|events| - 1], events[|events| - 1];
      AscendingFront(events);
      RunCheckpoint(d, front);
      RunSnoc(d, Progress(map[], START), front, e);
      AdvanceNew(d, Run(d, Progress(map[], START), front), e);
      FilterSnoc(front, e, d.query);
    }
  }

  /** ... and folds each key on its own. */
  lemma {:induction false} RunContents<S>(d: Definition<S>, events: seq<EventRecord>, key: string)
    requires Ascending(events)
    ensures Lookup(Run(d, Progress(map[], START), events).contents, key) == FoldKey(d, events, key)
  {
    if events != [] {
      var front, e := events[..|events| - 1], events[|events| - 1];
      AscendingFront(events);
      RunContents(d, front, key);
      RunCheckpoint(d, front);
      var p := Run(d, Progress(map[], START), front);
      RunSnoc(d, Progress(map[], START), front, e);
      AdvanceNew(d, p, e);
      FoldSnoc(d, front, e, key);
    }
  }

  lemma RunIsFold<S>(d: Definition<S>, events: seq<EventRecord>)
    requires Ascending(events)
    ensures forall key :: Lookup(Run(d, Progress(map[], START), events).contents, key) == FoldKey(d, events, key)
    ensures Run(d, Progress(map[], START), events).checkpoint == Checkpoint(LastOr0(events), |Filter(events, d.query)|)
  {
    RunCheckpoint(d, events);
    forall key ensures Lookup(Run(d, Progress(map[], START), events).contents, key) == FoldKey(d, events, key) {
      RunContents(d, events, key);
    }
  }

  // ----- batches -----

  /** Everything at or before a checkpoint above zero is skipped. */
  lemma {:induction false} RunSkips<S>(d: Definition<S>, p: Progress<S>, events: seq<EventRecord>)
    requires p.checkpoint.lastPosition > 0
    requires forall e | e in events :: e.position <= p.checkpoint.lastPosition
    ensures Run(d, p, events) == p
  {
    if events != [] {
      var front, e := events[..|events| - 1], events[|events| - 1];
      assert e in events;
      RunSkips(d, p, front);
    }
  }

  lemma {:induction false} RunSplit<S>(d: Definition<S>, p: Progress<S>, a: seq<EventRecord>, b: seq<EventRecord>)
    ensures Run(d, p, a + b) == Run(d, Run(d, p, a), b)
  {
    if b == [] {
      assert a + b == a;
    } else {
      RunSplit(d, p, a, b[..|b| - 1]);
      assert (a + b)[..|a + b| - 1] == a + b[..|b| - 1];
    }
  }

  /** The store and the saved checkpoint after a batch. */
  datatype Stored<S> = Stored(contents: Contents<S>, saved: Option<Checkpoint>)

  function ProcessBatch<S>(d: Definition<S>, s: Stored<S>, batch: seq<EventRecord>): Stored<S> {
    var p := Run(d, Progress(s.contents, Resume(s.saved)), batch);
    Stored(p.contents, Saved(s.saved, p.checkpoint))
  }

  // ----- the grouped fold without a store -----

  function Unfiltered<S>(d: Definition<S>): Definition<S> {
    d.(query := ALL)
  }

  lemma KeptStep<S>(d: Definition<S>, front: seq<EventRecord>, kept: seq<EventRecord>, e: EventRecord, key: string)
    requires FoldKey(Unfiltered(d), kept, key) == FoldKey(d, front, key)
    ensures FoldKey(Unfiltered(d), kept + (if Matches(d.query, e) then [e] else []), key) == FoldKey(d, front + [e], key)
  {
    FoldSnoc(d, front, e, key);
    FoldSnoc(Unfiltered(d), kept, e, key);
    assert kept + [] == kept;
  }

  /** Filtering first and then folding everything is folding what matches. */
  lemma {:induction false} FoldFiltered<S>(d: Definition<S>, events: seq<EventRecord>, key: string)
    ensures FoldKey(Unfiltered(d), Filter(events, d.query), key) == FoldKey(d, events, key)
  {
    if events != [] {
      var front, e := events[..|events| - 1], events[|events| - 1];
      assert events == front + [e];
      FoldFiltered(d, front, key);
      FilterSnoc(front, e, d.query);
      KeptStep(d, front, Filter(front, d.query), e, key);
    }
  }
}
