/** Driving a projection from the event store: checkpointed batches, rebuilds, and the grouped
    fold that needs no store. */
module ProjectionRunner {
  import opened Domain
  import opened FileNames
  import opened Log
  import opened IndexedRead
  import opened DecisionModel
  import opened Projections
  import opened ProjectionStore
  import opened Batches
  import EventStore
  import Keys

  class ProjectionRunner<S> {
    const definition: Definition<S>
    const store: StorageBackendProjectionStore<S>
    var checkpoint: Option<Checkpoint>

    constructor (definition: Definition<S>, store: StorageBackendProjectionStore<S>)
      ensures this.definition == definition && this.store == store && checkpoint == None
    {
      this.definition, this.store, checkpoint := definition, store, None;
    }

    function State(): Stored<S>
      reads this, store
    {
      Stored(ContentsOf(store.states), checkpoint)
    }

    /** Loads the state the event selects, applies the event, saves or deletes. */
    method ApplyEvent(event: EventRecord, now: nat)
      requires store.Valid()
      modifies store
      ensures store.Valid() && store.skipIndexWrites == old(store.skipIndexWrites)
      ensures Matches(definition.query, event) ==>
        ContentsOf(store.states) == ApplyTo(definition, old(ContentsOf(store.states)), event)
    {
      var key := definition.keySelector(event);
      if key.Some? {
        var current := store.Get(key.value);
        ghost var before := ContentsOf(store.states);
        var state := definition.apply(current, event);
        if state.Some? {
          store.Save(key.value, state.value, now);
        } else {
          store.Delete(key.value);
        }
        assert ContentsOf(store.states) == Put(before, key.value, state);
      }
    }

    method ProcessEvents(events: seq<EventRecord>, now: nat) returns (position: nat)
      requires store.Valid()
      modifies this, store
      ensures store.Valid() && store.skipIndexWrites == old(store.skipIndexWrites)
      ensures State() == ProcessBatch(definition, old(State()), events)
      ensures position == Run(definition, Progress(old(State()).contents, Resume(old(checkpoint))), events).checkpoint.lastPosition
    {
      ghost var start := Progress(ContentsOf(store.states), Resume(checkpoint));
      var reached := Resume(checkpoint);
      for i := 0 to |events|
        invariant store.Valid() && store.skipIndexWrites == old(store.skipIndexWrites) && checkpoint == old(checkpoint)
        invariant Progress(ContentsOf(store.states), reached) == Run(definition, start, events[..i])
      {
        assert events[..i + 1][..i] == events[..i];
        var event := events[i];
        if event.position <= reached.lastPosition && reached.lastPosition > 0 {
          continue;
        }
        if !Matches(definition.query, event) {
          reached := reached.(lastPosition := event.position);
          continue;
        }
        ApplyEvent(event, now);
        reached := Checkpoint(event.position, reached.totalEvents + 1);
      }
      assert events[..|events|] == events;
      if reached.lastPosition > 0 {
        checkpoint := Some(reached);
      }
      position := reached.lastPosition;
    }

    /** From any earlier content, agreeing or not: afterwards every key holds the fold of its
        events, all indices agree, and the checkpoint stands at the last event of the log. */
    method Rebuild(events: EventStore.MarmosaStore, now: nat) returns (result: Result<nat>)
      requires events.Valid() && |events.log| <= U64_MAX + 1
      modifies this, store
      ensures store.Valid() && !store.skipIndexWrites && store.MetadataAgrees()
      ensures forall key :: store.Get(key) == FoldKey(definition, events.log, key)
      ensures checkpoint == Some(RebuiltCheckpoint(definition, events.log))
      ensures result == Ok(RebuiltCheckpoint(definition, events.log).lastPosition)
    {
      store.Clear();
      checkpoint := Some(START);
      store.SetBatchMode(true);
      var read := ReadLog(events);
      RebuildBatch(definition, read);
      var position := Replay(read, now);
      return Ok(position);
    }

    method ReadLog(events: EventStore.MarmosaStore) returns (log: seq<EventRecord>)
      requires events.Valid() && |events.log| <= U64_MAX + 1
      ensures log == events.log && Numbered(log)
    {
      ReadAll(events.files, events.log);
      var read := events.Read(ALL, None, None, None);
      log := read.value;
    }

    /** Processes events in batch mode and then rebuilds the metadata index. */
    method Replay(events: seq<EventRecord>, now: nat) returns (position: nat)
      requires store.Valid() && store.states == map[] && checkpoint == Some(START)
      modifies this, store
      ensures store.Valid() && !store.skipIndexWrites && store.MetadataAgrees()
      ensures var s := ProcessBatch(definition, Stored(map[], Some(START)), events);
        (forall key :: store.Get(key) == Lookup(s.contents, key)) && checkpoint == s.saved
      ensures position == Run(definition, Progress(map[], START), events).checkpoint.lastPosition
    {
      assert State() == Stored(map[], Some(START));
      position := ProcessEvents(events, now);
      ghost var contents := ContentsOf(store.states);
      store.SetBatchMode(false);
      store.RebuildMetadataIndex();
      assert forall key :: store.Get(key) == Lookup(contents, key);
    }
  }

  lemma ReadAll(files: Files, log: seq<EventRecord>)
    requires Indexed(files, log)
    ensures ReadResult(files, ALL, None, None, false) == Ok(log)
    ensures Projections.Ascending(log)
  {
    ReadOfMatches(files, log, |log|, ALL, None, None, false);
    assert log[..|log|] == log;
    ScanAll(log);
  }

  /** What processing the whole log on a cleared store gives. */
  lemma RebuildBatch<S>(d: Definition<S>, log: seq<EventRecord>)
    requires Numbered(log)
    ensures var s := ProcessBatch(d, Stored(map[], Some(START)), log);
      && (forall key :: Lookup(s.contents, key) == FoldKey(d, log, key))
      && s.saved == Some(RebuiltCheckpoint(d, log))
    ensures Run(d, Progress(map[], START), log).checkpoint.lastPosition == RebuiltCheckpoint(d, log).lastPosition
  {
    RunIsFold(d, log);
  }

  /** The last position of the log; with nothing above position zero the cleared checkpoint stays. */
  function RebuiltCheckpoint<S>(d: Definition<S>, log: seq<EventRecord>): Checkpoint {
    if |log| <= 1 then START else Checkpoint(|log| - 1, |Filter(log, d.query)|)
  }

  /** What a rebuild leaves is the whole log as one batch on the cleared store. */
  lemma RebuiltIsOneBatch<S>(d: Definition<S>, log: seq<EventRecord>, rebuilt: Stored<S>)
    requires Numbered(log) && rebuilt.saved == Some(RebuiltCheckpoint(d, log))
    requires forall key :: Lookup(rebuilt.contents, key) == FoldKey(d, log, key)
    ensures rebuilt == ProcessBatch(d, Cleared(), log)
  {
    var s := ProcessBatch(d, Cleared(), log);
    RebuildBatch(d, log);
    SameLookups(rebuilt.contents, s.contents);
  }

  lemma SameLookups<S>(a: Contents<S>, b: Contents<S>)
    requires forall key :: Lookup(a, key) == Lookup(b, key)
    ensures a == b
  {
    forall key ensures key in a <==> key in b {
      assert Lookup(a, key) == Lookup(b, key);
    }
    forall key | key in a ensures a[key] == b[key] {
      assert Lookup(a, key) == Lookup(b, key);
    }
  }

  /** A rebuild and then batches, whatever they are cut into, leave what a rebuild of everything
      reached would leave; but not for a rebuild that stopped after exactly one event, or before
      the first where the next batch holds just that one. */
  lemma RebuildThenBatchesIsRebuild<S>(d: Definition<S>, log: seq<EventRecord>, n: nat, cuts: seq<Cut>, rebuilt: Stored<S>)
    requires Numbered(log) && n <= |log| && Consecutive([Cut(0, n)] + cuts, |log|)
    requires rebuilt.saved == Some(RebuiltCheckpoint(d, log[..n]))
    requires forall key :: Lookup(rebuilt.contents, key) == FoldKey(d, log[..n], key)
    requires if n > 0 then n > 1 || Busy(cuts) == [] else |Busy(cuts)| <= 1 || Busy(cuts)[0].hi != 1
    ensures Reached([Cut(0, n)] + cuts) <= |log|
    ensures var t := ProcessCuts(d, rebuilt, log, cuts); var all := log[..Reached([Cut(0, n)] + cuts)];
      (forall key :: Lookup(t.contents, key) == FoldKey(d, all, key)) && t.saved == Some(RebuiltCheckpoint(d, all))
  {
    AnchoredAfterRebuild(log, n, cuts);
    RebuiltIsOneBatch(d, log[..n], rebuilt);
    RebuildThenBatches(d, log, n, cuts);
    RebuildBatch(d, log[..Reached([Cut(0, n)] + cuts)]);
  }

  /** Hands the batches to the projection one after the other. */
  method ProcessInBatches<S>(runner: ProjectionRunner<S>, events: seq<EventRecord>, cuts: seq<Cut>, now: nat)
    requires runner.store.Valid()
    modifies runner, runner.store
    ensures runner.store.Valid()
    ensures runner.State() == ProcessCuts(runner.definition, old(runner.State()), events, cuts)
  {
    for i := 0 to |cuts|
      invariant runner.store.Valid()
      invariant runner.State() == ProcessCuts(runner.definition, old(runner.State()), events, cuts[..i])
    {
      assert cuts[..i + 1][..i] == cuts[..i];
      var _ := runner.ProcessEvents(Slice(events, cuts[i]), now);
    }
    assert cuts[..|cuts|] == cuts;
  }

  // ----- the grouped fold -----

  /** The states of some contents by ascending key. */
  function InKeyOrder<S>(c: Contents<S>): seq<S> {
    var keys := Keys.Sorted(c.Keys);
    seq(|keys|, i requires 0 <= i < |keys| => assert keys[i] in keys; c[keys[i]])
  }

  /** The states of exactly the keys there are, each once, by ascending key. */
  ghost predicate ListsInOrder<S>(c: Contents<S>, keys: seq<string>, states: seq<S>) {
    && Keys.Ascends(keys) && |states| == |keys| && (forall k :: k in keys <==> k in c)
    && forall i | 0 <= i < |keys| :: keys[i] in c && states[i] == c[keys[i]]
  }

  lemma InOrder<S>(c: Contents<S>)
    ensures ListsInOrder(c, Keys.Sorted(c.Keys), InKeyOrder(c))
  {
    var keys := Keys.Sorted(c.Keys);
    assert forall i | 0 <= i < |keys| :: keys[i] in keys;
  }

  /** The states by key after applying `apply` to every event in turn. */
  function Grouped<S>(d: Definition<S>, events: seq<EventRecord>): Contents<S> {
    if events == [] then map[] else ApplyTo(d, Grouped(d, events[..|events| - 1]), events[|events| - 1])
  }

  /** Grouping folds each key on its own. */
  lemma {:induction false} GroupedIsFold<S>(d: Definition<S>, events: seq<EventRecord>, key: string)
    ensures Lookup(Grouped(d, events), key) == FoldKey(d, events, key)
  {
    if events != [] {
      GroupedIsFold(d, events[..|events| - 1], key);
    }
  }

  function Surviving<S>(groups: map<string, Option<S>>): Contents<S> {
    map key | key in groups && groups[key].Some? :: groups[key].value
  }

  /** `build_projections`: groups the events by key, folds each group, keeps the surviving
      states in key order. Every event is applied; there is no query. */
  method BuildProjections<S>(
    events: seq<EventRecord>, keySelector: EventRecord -> Option<string>,
    apply: (Option<S>, EventRecord) -> Option<S>) returns (states: seq<S>)
    ensures exists keys :: ListsInOrder(Grouped(Definition(ALL, keySelector, apply), events), keys, states)
  {
    ghost var d := Definition(ALL, keySelector, apply);
    var groups: map<string, Option<S>> := map[];
    for i := 0 to |events|
      invariant Surviving(groups) == Grouped(d, events[..i])
    {
      assert events[..i + 1][..i] == events[..i];
      var key := keySelector(events[i]);
      if key.Some? {
        ghost var before := groups;
        var current := if key.value in groups then groups[key.value] else None;
        groups := groups - {key.value};
        var state := apply(current, events[i]);
        groups := groups[key.value := state];
        assert current == Lookup(Surviving(before), key.value);
        assert Surviving(groups) == Put(Surviving(before), key.value, state);
      }
    }
    assert events[..|events|] == events;
    states := InKeyOrder(Surviving(groups));
    InOrder(Surviving(groups));
  }

  /** A rebuild and the grouped fold of the matching events give the same state for every key,
      and so the same list of states. */
  lemma RebuildIsGroupedFold<S>(d: Definition<S>, log: seq<EventRecord>, rebuilt: Contents<S>)
    requires forall key :: Lookup(rebuilt, key) == FoldKey(d, log, key)
    ensures rebuilt == Grouped(Unfiltered(d), Filter(log, d.query))
  {
    var grouped := Grouped(Unfiltered(d), Filter(log, d.query));
    forall key ensures Lookup(rebuilt, key) == Lookup(grouped, key) {
      GroupedIsFold(Unfiltered(d), Filter(log, d.query), key);
      FoldFiltered(d, log, key);
    }
    SameLookups(rebuilt, grouped);
  }
}
