/** The retry loops around decisions, run against a store that other writers use between a
    decision's read and its append. The other writers are a schedule: `others[k]` is the batch
    somebody appends during attempt k. */
module Execute {
  import opened Domain
  import opened FileNames
  import opened Sequences
  import opened Log
  import opened IndexedRead
  import opened EventStore
  import opened DecisionModel

  /** Retries an operation while it reports a failed append condition; attempt k has the outcome
      `operation(k)`. The result is the first outcome of another kind, or the last attempt's. */
  method ExecuteDecision<R>(maxRetries: nat, operation: nat -> Result<R>) returns (result: Result<R>, attempts: nat)
    requires 1 <= maxRetries
    ensures 1 <= attempts <= maxRetries && result == operation(attempts - 1)
    ensures forall k: nat | k < attempts - 1 :: operation(k) == Err(AppendConditionFailed)
    ensures attempts < maxRetries ==> result != Err(AppendConditionFailed)
  {
    var attempt := 0;
    while true
      invariant attempt < maxRetries
      invariant forall k: nat | k < attempt :: operation(k) == Err(AppendConditionFailed)
      decreases maxRetries - attempt
    {
      result := operation(attempt);
      if result != Err(AppendConditionFailed) || attempt >= maxRetries - 1 {
        return result, attempt + 1;
      }
      attempt := attempt + 1;
    }
  }

  function Total(batches: seq<seq<EventData>>): nat {
    if batches == [] then 0 else |batches[0]| + Total(batches[1..])
  }

  /** The batch appended by others during attempt k. */
  function Other(others: seq<seq<EventData>>, k: nat): seq<EventData> {
    if k < |others| then others[k] else []
  }

  /** Others interfered in each of the first `n` attempts. */
  ghost predicate InterferedUpTo(query: Query, others: seq<seq<EventData>>, n: nat) {
    forall k: nat | k < n :: Interferes(query, Other(others, k))
  }

  /** Somebody else's batch contains an event the query selects. */
  predicate Interferes(query: Query, batch: seq<EventData>) {
    exists e | e in batch :: query.items == [] || exists item | item in query.items :: MatchesItem(item, e.event)
  }

  ghost predicate CoversDecision<S(!new)>(v: Vocabulary, decision: Decision<S>) {
    && CoversQuery(v, decision.state.query) && NonVacuous(decision.state.query)
    && forall state: S :: decision.process(state).Some? ==> CoversBatch(v, decision.process(state).value)
  }

  /** No decision of it appends more than `room` events. */
  ghost predicate NeedsAtMost<S(!new)>(decision: Decision<S>, room: nat) {
    forall state: S :: decision.process(state).Some? ==> |decision.process(state).value| <= room
  }

  lemma StampMatches(log: seq<EventRecord>, query: Query, batch: seq<EventData>, now: nat)
    ensures (exists i: nat :: i < |batch| && Matches(query, Stamp(batch, |log|, now)[i])) <==> Interferes(query, batch)
  {
    var block := Stamp(batch, |log|, now);
    forall i: nat | i < |batch| && Matches(query, block[i]) ensures Interferes(query, batch) {
      assert batch[i] in batch && block[i].event == batch[i].event;
    }
    forall e | e in batch && (query.items == [] || exists item | item in query.items :: MatchesItem(item, e.event))
      ensures exists i: nat :: i < |batch| && Matches(query, block[i])
    {
      var i: nat :| i < |batch| && batch[i] == e;
      assert Matches(query, block[i]);
    }
  }

  /** After a read of the whole log, somebody else's batch opposes the append condition exactly
      if it interferes. */
  lemma InterferenceFound(log: seq<EventRecord>, query: Query, batch: seq<EventData>, now: nat)
    requires Numbered(log)
    ensures var longer := log + Stamp(batch, |log|, now);
      Scan(longer, query, From(LastPosition(Scan(log, query, 0)))) != [] <==> Interferes(query, batch)
  {
    var longer := log + Stamp(batch, |log|, now);
    assert longer[..|log|] == log;
    ConflictBeyond(longer, query, |log|);
    StampMatches(log, query, batch, now);
    forall i: nat | i < |batch| ensures longer[|log| + i] == Stamp(batch, |log|, now)[i] {}
    if q: nat :| |log| <= q < |longer| && Matches(query, longer[q]) {
      assert Matches(query, Stamp(batch, |log|, now)[q - |log|]);
    }
  }

  /** One attempt: read, apply the events in log order and decide, let somebody else append `other`,
      then append conditionally. */
  method Attempt<S(!new)>(
    store: MarmosaStore, decision: Decision<S>, other: seq<EventData>, now: nat, ghost v: Vocabulary, ghost room: nat)
    returns (result: Result<seq<EventData>>, ghost before: seq<EventRecord>)
    requires store.Valid() && |store.log| + |other| + room <= U64_MAX && NeedsAtMost(decision, room)
    requires AliasFree(v) && CoversLog(v, store.log) && CoversDecision(v, decision) && CoversBatch(v, other)
    modifies store
    ensures store.Valid()
    ensures result.Err? && result.error == ArgumentError ==>
      && store.log == old(store.log)
      && DecidedOn(decision, store.log, None)
    ensures result.Err? && result.error != ArgumentError ==>
      && result.error == AppendConditionFailed && Interferes(decision.state.query, other)
      && Appended(old(store.log), other, now, store.log) && CoversLog(v, store.log)
    ensures result.Ok? ==>
      && !Interferes(decision.state.query, other)
      && Appended(old(store.log), other, now, before)
      && Appended(before, result.value, now, store.log)
      && DecidedOn(decision, before, Some(result.value))
  {
    before := store.log;
    var query := decision.state.query;
    ghost var start := store.log;
    ReadRefinesScan(v, store.files, start, query, None, None, false);
    var events := store.Read(query, None, None, None);
    var model := Build(decision.state, events.value);
    BuildOnScan(decision.state, start);
    var batch := decision.process(model.state);
    DecidedOnFold(decision, start, batch);
    if batch.None? {
      return Err(ArgumentError), before;
    }

    // somebody else's turn
    var _ := store.Append(other, None, now);
    before := store.log;
    InterferenceFound(start, query, other, now);
    CoversAppended(v, start, other, now);
    DetectsExactly(v, store.files, before, model.appendCondition);

    var appended := store.Append(batch.value, Some(model.appendCondition), now);
    if appended.Err? {
      return Err(appended.error), before;
    }
    NothingMissedAppended(start, before, query);
    DecidedOnFold(decision, before, batch);
    return Ok(batch.value), before;
  }

  /** Reads, folds, decides and appends, again after a conflict while attempts are left. On
      success the decision was taken on exactly the log its events extend, `before`; it gives up with a
      conflict exactly when others interfered in each of the `maxRetries` attempts. */
  method ExecuteAsync<S(!new)>(
    store: MarmosaStore, decision: Decision<S>, maxRetries: nat,
    others: seq<seq<EventData>>, now: nat, ghost v: Vocabulary, ghost room: nat)
    returns (result: Result<seq<EventData>>, attempts: nat, ghost before: seq<EventRecord>)
    requires store.Valid() && |store.log| + Total(others) + room <= U64_MAX && NeedsAtMost(decision, room)
    requires 1 <= maxRetries
    requires AliasFree(v) && CoversLog(v, store.log) && CoversDecision(v, decision)
    requires forall batch | batch in others :: CoversBatch(v, batch)
    modifies store
    ensures store.Valid() && old(store.log) <= store.log
    ensures 1 <= attempts <= maxRetries
    ensures InterferedUpTo(decision.state.query, others, attempts - 1)
    ensures result.Ok? ==>
      && !Interferes(decision.state.query, Other(others, attempts - 1))
      && old(store.log) <= before && Appended(before, result.value, now, store.log)
      && DecidedOn(decision, before, Some(result.value))
    ensures result == Err(AppendConditionFailed) ==>
      attempts == maxRetries && InterferedUpTo(decision.state.query, others, maxRetries)
    ensures result.Err? && result.error != AppendConditionFailed ==>
      && result.error == ArgumentError
      && DecidedOn(decision, store.log, None)
  {
    var attempt := 0;
    before := store.log;
    AllTotal(others);
    while true
      invariant store.Valid() && old(store.log) <= store.log && CoversLog(v, store.log)
      invariant |store.log| + TotalFrom(others, attempt) + room <= U64_MAX
      invariant attempt < maxRetries
      invariant InterferedUpTo(decision.state.query, others, attempt)
      decreases maxRetries - attempt
    {
      NextOther(others, attempt, v);
      result, before := Attempt(store, decision, Other(others, attempt), now, v, room);
      if result.Ok? {
        return result, attempt + 1, before;
      }
      if result.error != AppendConditionFailed || attempt >= maxRetries - 1 {
        Interfered(decision.state.query, others, attempt, result);
        return result, attempt + 1, before;
      }
      Interfered(decision.state.query, others, attempt, result);
      attempt := attempt + 1;
    }
  }

  function Least(a: nat, b: nat): nat { if a <= b then a else b }

  /** What others append from attempt k on. */
  function TotalFrom(others: seq<seq<EventData>>, k: nat): nat {
    Total(others[Least(k, |others|)..])
  }

  lemma AllTotal(others: seq<seq<EventData>>)
    ensures TotalFrom(others, 0) == Total(others)
  {
    assert others[0..] == others;
  }

  lemma NextOther(others: seq<seq<EventData>>, k: nat, v: Vocabulary)
    requires forall batch | batch in others :: CoversBatch(v, batch)
    ensures TotalFrom(others, k) == |Other(others, k)| + TotalFrom(others, k + 1)
    ensures CoversBatch(v, Other(others, k))
  {
    TotalStep(others, k);
  }

  lemma Interfered<R>(query: Query, others: seq<seq<EventData>>, n: nat, result: Result<R>)
    requires InterferedUpTo(query, others, n)
    requires result == Err(AppendConditionFailed) ==> Interferes(query, Other(others, n))
    ensures result == Err(AppendConditionFailed) ==> InterferedUpTo(query, others, n + 1)
  {
  }

  lemma TotalStep(others: seq<seq<EventData>>, k: nat)
    ensures Total(others[Least(k, |others|)..]) == |Other(others, k)| + Total(others[Least(k + 1, |others|)..])
  {
    if k < |others| {
      assert others[k..][1..] == others[k + 1..];
    }
  }

  lemma CoversAppended(v: Vocabulary, log: seq<EventRecord>, batch: seq<EventData>, now: nat)
    requires CoversLog(v, log) && CoversBatch(v, batch)
    ensures CoversLog(v, log + Stamp(batch, |log|, now))
  {
    var block := Stamp(batch, |log|, now);
    forall r | r in block ensures Covers(v, r.event) {
      var i :| 0 <= i < |block| && block[i] == r;
      assert batch[i] in batch;
    }
  }

  lemma NothingMissedAppended(start: seq<EventRecord>, before: seq<EventRecord>, query: Query)
    requires start <= before && Numbered(before)
    requires Scan(before, query, From(LastPosition(Scan(start, query, 0)))) == []
    ensures Scan(before, query, 0) == Scan(start, query, 0)
  {
    assert before[..|start|] == start;
    NothingMissed(before, query, |start|);
  }

  /** Several projections from one composite read. When all or none of the queries ask for
      everything, each state is what its own read would have given: its own events applied in
      log order. */
  method BuildNaryAsync<S(!new)>(store: MarmosaStore, projections: seq<Projection<S>>, ghost v: Vocabulary)
    returns (result: Result<(seq<S>, AppendCondition)>)
    requires store.Valid() && |store.log| <= U64_MAX + 1
    requires AliasFree(v) && CoversLog(v, store.log)
    requires forall i | 0 <= i < |projections| :: CoversQuery(v, projections[i].query) && NonVacuous(projections[i].query)
    ensures result == Err(ArgumentError) <==> projections == []
    ensures result.Ok? <==> projections != []
    ensures result.Ok? && !Mixed(projections) ==>
      && |result.value.0| == |projections|
      && (forall i | 0 <= i < |projections| ::
            && result.value.0[i] == Build(projections[i], Scan(store.log, projections[i].query, 0)).state
            && EndsIn(projections[i], Scan(store.log, projections[i].query, 0), result.value.0[i]))
      && result.value.1.failIfEventsMatch == UnionQuery(projections)
      && result.value.1.afterSequencePosition == LastPosition(Scan(store.log, UnionQuery(projections), 0))
  {
    if projections == [] {
      return Err(ArgumentError);
    }
    var items: seq<QueryItem> := [];
    for i := 0 to |projections|
      invariant items == CompositeQuery(projections[..i]).items
    {
      assert projections[..i + 1][..i] == projections[..i];
      items := items + projections[i].query.items;
    }
    assert projections[..|projections|] == projections;
    CompositeMembers(projections);
    ReadRefinesScan(v, store.files, store.log, Query(items), None, None, false);
    var events := store.Read(Query(items), None, None, None);
    var states, condition := BuildNary(projections, events.value);
    if !Mixed(projections) {
      forall i | 0 <= i < |projections|
        ensures states[i] == Build(projections[i], Scan(store.log, projections[i].query, 0)).state
        ensures EndsIn(projections[i], Scan(store.log, projections[i].query, 0), states[i])
      {
        CompositeReadIsUnary(projections, store.log, i);
      }
      UnionScanIsComposite(projections, store.log);
      ScanExact(store.log, Query(items), 0);
      SortIdentity(events.value, PositionOf);
    }
    return Ok((states, condition));
  }
}
