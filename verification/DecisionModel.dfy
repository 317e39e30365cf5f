/** Decision projections: deterministic folds over the events a query selects, and the
    append condition that guards the decision taken on the result. */
module DecisionModel {
  import opened Domain
  import opened Sequences
  import opened Log

  datatype Projection<!S> = Projection(initialState: S, query: Query, apply: (S, EventRecord) -> S)

  /** `process` answers None when a business rule rejects the command. */
  datatype Decision<!S> = Decision(state: Projection<S>, process: S -> Option<seq<EventData>>)

  datatype Model<!S> = Model(state: S, appendCondition: AppendCondition)

  /** The left fold of `apply`. */
  function Fold<S>(p: Projection<S>, events: seq<EventRecord>): S {
    if events == [] then p.initialState
    else p.apply(Fold(p, events[..|events| - 1]), events[|events| - 1])
  }

  /** The states one after the other: the initial one, and after each event what `apply` makes of
      the state before it. */
  ghost predicate IsTrace<S>(p: Projection<S>, events: seq<EventRecord>, states: seq<S>) {
    && |states| == |events| + 1 && states[0] == p.initialState
    && forall i | 0 <= i < |events| :: states[i + 1] == p.apply(states[i], events[i])
  }

  /** Applying the events in turn, the first one first, ends in this state. */
  ghost predicate EndsIn<S(!new)>(p: Projection<S>, events: seq<EventRecord>, state: S) {
    exists states :: IsTrace(p, events, states) && states[|events|] == state
  }

  lemma {:induction false} FoldTrace<S>(p: Projection<S>, events: seq<EventRecord>) returns (states: seq<S>)
    ensures IsTrace(p, events, states) && states[|events|] == Fold(p, events)
  {
    if events == [] {
      states := [p.initialState];
    } else {
      states := FoldTrace(p, events[..|events| - 1]);
      states := states + [Fold(p, events)];
    }
  }

  lemma {:induction false} TraceUnique<S>(p: Projection<S>, events: seq<EventRecord>, a: seq<S>, b: seq<S>, i: nat)
    requires IsTrace(p, events, a) && IsTrace(p, events, b) && i <= |events|
    ensures a[i] == b[i]
  {
    if i > 0 { TraceUnique(p, events, a, b, i - 1); }
  }

  /** The fold is where the events applied in turn end, and nowhere else. */
  lemma FoldEnds<S(!new)>(p: Projection<S>, events: seq<EventRecord>, state: S)
    ensures EndsIn(p, events, state) <==> state == Fold(p, events)
  {
    var trace := FoldTrace(p, events);
    if EndsIn(p, events, state) {
      var states :| IsTrace(p, events, states) && states[|events|] == state;
      TraceUnique(p, events, states, trace, |events|);
    }
  }

  /** The decision has this outcome on the state in which all events of the log that its query
      selects, applied in log order, end. */
  ghost predicate DecidedOn<S(!new)>(d: Decision<S>, log: seq<EventRecord>, outcome: Option<seq<EventData>>) {
    exists state :: EndsIn(d.state, Scan(log, d.state.query, 0), state) && d.process(state) == outcome
  }

  lemma DecidedOnFold<S(!new)>(d: Decision<S>, log: seq<EventRecord>, outcome: Option<seq<EventData>>)
    ensures DecidedOn(d, log, outcome) <==> outcome == d.process(Fold(d.state, Scan(log, d.state.query, 0)))
  {
    var scan := Scan(log, d.state.query, 0);
    FoldEnds(d.state, scan, Fold(d.state, scan));
    if DecidedOn(d, log, outcome) {
      var state :| EndsIn(d.state, scan, state) && d.process(state) == outcome;
      FoldEnds(d.state, scan, state);
    }
  }

  function PositionOf(r: EventRecord): nat { r.position }

  function LastPosition(events: seq<EventRecord>): Option<nat> {
    if events == [] then None else Some(events[|events| - 1].position)
  }

  /** `build_decision_model_from_events`: sort by position, fold, guard with the last position. */
  function Build<S>(p: Projection<S>, events: seq<EventRecord>): Model<S> {
    var sorted := Sort(events, PositionOf);
    Model(Fold(p, sorted), AppendCondition(p.query, LastPosition(sorted)))
  }

  /** Sorting leaves a scan of the log as it is. */
  lemma ScanIsSorted(log: seq<EventRecord>, query: Query)
    requires Numbered(log)
    ensures Sort(Scan(log, query, 0), PositionOf) == Scan(log, query, 0)
  {
    ScanExact(log, query, 0);
    SortIdentity(Scan(log, query, 0), PositionOf);
  }

  /** On a scan of the log the model is the fold over the scan itself. */
  lemma BuildOnScan<S>(p: Projection<S>, log: seq<EventRecord>)
    requires Numbered(log)
    ensures Build(p, Scan(log, p.query, 0)).state == Fold(p, Scan(log, p.query, 0))
    ensures Build(p, Scan(log, p.query, 0)).appendCondition
         == AppendCondition(p.query, LastPosition(Scan(log, p.query, 0)))
  {
    ScanIsSorted(log, p.query);
  }

  /** ... the state in which the events, applied one after the other in log order, end. */
  lemma BuildAppliesInOrder<S(!new)>(p: Projection<S>, log: seq<EventRecord>)
    requires Numbered(log)
    ensures EndsIn(p, Scan(log, p.query, 0), Build(p, Scan(log, p.query, 0)).state)
  {
    BuildOnScan(p, log);
    FoldEnds(p, Scan(log, p.query, 0), Fold(p, Scan(log, p.query, 0)));
  }

  /** The projection that keeps every event it is given, in the order it is given them. */
  function Recorder(query: Query): Projection<seq<EventRecord>> {
    Projection([], query, (kept: seq<EventRecord>, e: EventRecord) => kept + [e])
  }

  lemma {:induction false} RecorderKeeps(p: Projection<seq<EventRecord>>, events: seq<EventRecord>)
    requires p.initialState == [] && forall kept, e :: p.apply(kept, e) == kept + [e]
    ensures Fold(p, events) == events
  {
    if events != [] {
      RecorderKeeps(p, events[..|events| - 1]);
      assert events == events[..|events| - 1] + [events[|events| - 1]];
    }
  }

  /** A model that records what it is built from records exactly the scan, in order. */
  lemma RecordsScan(log: seq<EventRecord>, query: Query)
    requires Numbered(log)
    ensures Build(Recorder(query), Scan(log, query, 0)).state == Scan(log, query, 0)
  {
    ScanIsSorted(log, query);
    RecorderKeeps(Recorder(query), Scan(log, query, 0));
  }

  /** The heart of optimistic concurrency: if a model was built from the matches below some
      bound and nothing after its last position matches now, it saw everything that matches now. */
  lemma NothingMissed(log: seq<EventRecord>, query: Query, bound: nat)
    requires Numbered(log) && bound <= |log|
    requires Scan(log, query, From(LastPosition(Scan(log[..bound], query, 0)))) == []
    ensures Scan(log, query, 0) == Scan(log[..bound], query, 0)
  {
    var seen := Scan(log[..bound], query, 0);
    var after := From(LastPosition(seen));
    ScanExact(log[..bound], query, 0);
    if seen != [] {
      assert seen[|seen| - 1] in seen;
    }
    ScanEmpty(log, query, after);
    ScanPrefix(log, query, 0, bound) by {
      forall p | bound <= p < |log| ensures !Matches(query, log[p]) {
        assert after <= bound;
      }
    }
  }

  /** Something matches after the last event seen exactly if something matches beyond the bound. */
  lemma ConflictBeyond(log: seq<EventRecord>, query: Query, bound: nat)
    requires Numbered(log) && bound <= |log|
    ensures Scan(log, query, From(LastPosition(Scan(log[..bound], query, 0)))) != [] <==>
            exists q: nat :: bound <= q < |log| && Matches(query, log[q])
  {
    var seen := Scan(log[..bound], query, 0);
    var after := From(LastPosition(seen));
    ScanExact(log[..bound], query, 0);
    if seen != [] { assert seen[|seen| - 1] in seen; }
    ScanEmpty(log, query, after);
    forall q: nat | q < bound && Matches(query, log[q]) ensures q < after {
      assert log[..bound][q] in seen;
    }
    assert after <= bound;
  }

  // ----- several projections at once -----

  function AddItems(known: seq<QueryItem>, items: seq<QueryItem>): seq<QueryItem> {
    if items == [] then known
    else
      var before, item := AddItems(known, items[..|items| - 1]), items[|items| - 1];
      if item in before then before else before + [item]
  }

  function MergedItems<S>(projections: seq<Projection<S>>): seq<QueryItem> {
    if projections == [] then []
    else AddItems(MergedItems(projections[..|projections| - 1]), projections[|projections| - 1].query.items)
  }

  /** The query the append condition of several projections uses. */
  function UnionQuery<S>(projections: seq<Projection<S>>): Query {
    if exists i | 0 <= i < |projections| :: projections[i].query.items == [] then ALL
    else Query(MergedItems(projections))
  }

  function NaryState<S>(p: Projection<S>, events: seq<EventRecord>): S {
    Fold(p, Filter(Sort(events, PositionOf), p.query))
  }

  /** Collects the distinct items of all queries, or gives up on items at the first query that
      asks for everything. */
  method CollectItems<S>(projections: seq<Projection<S>>) returns (query: Query)
    ensures query == UnionQuery(projections)
  {
    var allItems: seq<QueryItem> := [];
    var isAll := false;
    var i := 0;
    while i < |projections|
      invariant 0 <= i <= |projections|
      invariant !isAll
      invariant forall k | 0 <= k < i :: projections[k].query.items != []
      invariant allItems == MergedItems(projections[..i])
    {
      var items := projections[i].query.items;
      if items == [] {
        isAll := true;
        break;
      }
      MergedNext(projections, i);
      ghost var known := allItems;
      for j := 0 to |items|
        invariant allItems == AddItems(known, items[..j])
      {
        assert items[..j + 1][..j] == items[..j];
        if items[j] !in allItems {
          allItems := allItems + [items[j]];
        }
      }
      assert items[..|items|] == items;
      i := i + 1;
    }
    assert projections[..|projections|] == projections;
    query := if isAll then ALL else Query(allItems);
  }

  lemma MergedNext<S>(projections: seq<Projection<S>>, i: nat)
    requires i < |projections|
    ensures MergedItems(projections[..i + 1]) == AddItems(MergedItems(projections[..i]), projections[i].query.items)
  {
    assert projections[..i + 1][..i] == projections[..i];
  }

  /** Applies to every projection its own events, by ascending position, and guards all of them
      with one condition. */
  method BuildNary<S(!new)>(projections: seq<Projection<S>>, events: seq<EventRecord>)
    returns (states: seq<S>, condition: AppendCondition)
    ensures |states| == |projections|
    ensures forall i | 0 <= i < |projections| :: states[i] == NaryState(projections[i], events)
    ensures forall i | 0 <= i < |projections| ::
      EndsIn(projections[i], Filter(Sort(events, PositionOf), projections[i].query), states[i])
    ensures condition == AppendCondition(UnionQuery(projections), LastPosition(Sort(events, PositionOf)))
  {
    var query := CollectItems(projections);
    var sorted := Sort(events, PositionOf);
    states := [];
    for k := 0 to |projections|
      invariant |states| == k
      invariant forall m | 0 <= m < k :: states[m] == NaryState(projections[m], events)
    {
      var state := FoldMatching(projections[k], sorted);
      states := states + [state];
    }
    forall i | 0 <= i < |projections| ensures EndsIn(projections[i], Filter(sorted, projections[i].query), states[i]) {
      FoldEnds(projections[i], Filter(sorted, projections[i].query), states[i]);
    }
    condition := AppendCondition(query, LastPosition(sorted));
  }

  /** The fold that skips the events a projection did not ask for. */
  method FoldMatching<S>(p: Projection<S>, sorted: seq<EventRecord>) returns (state: S)
    ensures state == Fold(p, Filter(sorted, p.query))
  {
    state := p.initialState;
    for i := 0 to |sorted|
      invariant state == Fold(p, Filter(sorted[..i], p.query))
    {
      FilterSnoc(sorted[..i], sorted[i], p.query);
      assert sorted[..i + 1] == sorted[..i] + [sorted[i]];
      if Matches(p.query, sorted[i]) {
        var kept := Filter(sorted[..i], p.query) + [sorted[i]];
        assert kept[..|kept| - 1] == Filter(sorted[..i], p.query);
        state := p.apply(state, sorted[i]);
      } else {
        assert Filter(sorted[..i], p.query) + [] == Filter(sorted[..i], p.query);
      }
    }
    assert sorted[..|sorted|] == sorted;
  }

  lemma FilterFromHead(s: seq<EventRecord>, query: Query)
    requires SortedBy(s, PositionOf)
    ensures forall e | e in Filter(s, query) :: s[0].position <= e.position
  {
    FilterMembers(s, query);
    forall e | e in s ensures s[0].position <= e.position {
      var i :| 0 <= i < |s| && s[i] == e;
      assert PositionOf(s[0]) <= PositionOf(s[i]);
    }
  }

  lemma InsertFirst(x: EventRecord, s: seq<EventRecord>)
    requires forall e | e in s :: x.position <= e.position
    ensures Insert(x, s, PositionOf) == [x] + s
  {
    if s != [] { assert s[0] in s; }
  }

  lemma InsertLater(x: EventRecord, first: EventRecord, rest: seq<EventRecord>)
    requires first.position < x.position
    ensures Insert(x, [first] + rest, PositionOf) == [first] + Insert(x, rest, PositionOf)
  {
    assert ([first] + rest)[1..] == rest;
  }

  /** Inserting `x` and then filtering, or filtering and then inserting it where it is wanted. */
  ghost predicate Commutes(x: EventRecord, s: seq<EventRecord>, query: Query) {
    Filter(Insert(x, s, PositionOf), query)
      == if Matches(query, x) then Insert(x, Filter(s, query), PositionOf) else Filter(s, query)
  }

  lemma CommutesFirst(x: EventRecord, s: seq<EventRecord>, query: Query)
    requires SortedBy(s, PositionOf)
    requires s == [] || x.position <= s[0].position
    ensures Commutes(x, s, query)
  {
    FilterFromHead(s, query);
    InsertFirst(x, Filter(s, query));
    FilterCons(x, s, query);
  }

  lemma CommutesLater(x: EventRecord, first: EventRecord, rest: seq<EventRecord>, query: Query)
    requires first.position < x.position
    requires Commutes(x, rest, query)
    ensures Commutes(x, [first] + rest, query)
  {
    InsertLater(x, first, rest);
    FilterCons(first, Insert(x, rest, PositionOf), query);
    FilterCons(first, rest, query);
    var kept, inserted := Filter(rest, query), Filter(Insert(x, rest, PositionOf), query);
    if !Matches(query, first) {
      assert [] + kept == kept && [] + inserted == inserted;
    } else if Matches(query, x) {
      InsertLater(x, first, kept);
    }
  }

  lemma {:induction false} FilterInsert(x: EventRecord, s: seq<EventRecord>, query: Query)
    requires SortedBy(s, PositionOf)
    ensures Commutes(x, s, query)
  {
    if s == [] || x.position <= s[0].position {
      CommutesFirst(x, s, query);
    } else {
      assert s == [s[0]] + s[1..];
      TailSorted(s, PositionOf);
      FilterInsert(x, s[1..], query);
      CommutesLater(x, s[0], s[1..], query);
    }
  }

  /** Sorting commutes with filtering. */
  lemma {:induction false} SortFilter(events: seq<EventRecord>, query: Query)
    ensures Sort(Filter(events, query), PositionOf) == Filter(Sort(events, PositionOf), query)
  {
    if events != [] {
      SortFilter(events[1..], query);
      SortSorts(events[1..], PositionOf);
      FilterInsert(events[0], Sort(events[1..], PositionOf), query);
      var kept := Filter(events, query);
      if Matches(query, events[0]) {
        assert kept[1..] == Filter(events[1..], query);
      } else {
        assert kept == Filter(events[1..], query);
      }
    }
  }

  /** Each of several states is the unary model built from that projection's own events. */
  lemma NaryIsUnary<S>(p: Projection<S>, events: seq<EventRecord>)
    ensures NaryState(p, events) == Build(p, Filter(events, p.query)).state
  {
    SortFilter(events, p.query);
  }

  /** With distinct positions the order in which the events arrive does not matter. */
  lemma NaryOrderIndependent<S>(p: Projection<S>, a: seq<EventRecord>, b: seq<EventRecord>)
    requires multiset(a) == multiset(b) && DistinctKeys(a, PositionOf)
    ensures NaryState(p, a) == NaryState(p, b)
    ensures Build(p, a) == Build(p, b)
    ensures LastPosition(Sort(a, PositionOf)) == LastPosition(Sort(b, PositionOf))
  {
    SortOrderIndependent(a, b, PositionOf);
  }

  lemma {:induction false} AddItemsMembers(known: seq<QueryItem>, items: seq<QueryItem>)
    ensures forall item :: item in AddItems(known, items) <==> item in known || item in items
  {
    if items != [] {
      AddItemsMembers(known, items[..|items| - 1]);
      assert items == items[..|items| - 1] + [items[|items| - 1]];
    }
  }

  /** The index is the first at which its item appears, and the item was not known before. */
  ghost predicate FirstUnknown(known: seq<QueryItem>, items: seq<QueryItem>, i: nat) {
    i < |items| && items[i] !in known && items[i] !in items[..i]
  }

  /** Exactly which items are added, and in which order: each one not known, where it first appears. */
  lemma {:induction false} AddItemsExactly(known: seq<QueryItem>, items: seq<QueryItem>) returns (picked: seq<nat>)
    ensures Increasing(picked) && forall i: nat :: i in picked <==> FirstUnknown(known, items, i)
    ensures forall i | i in picked :: i < |items|
    ensures AddItems(known, items) == known + Picked(items, picked)
  {
    picked := [];
    if items != [] {
      var last := |items| - 1;
      var before := AddItemsExactly(known, items[..last]);
      forall i: nat ensures i in before <==> i < last && FirstUnknown(known, items, i) {
        if i < last { assert items[..last][..i] == items[..i]; }
      }
      AddItemsMembers(known, items[..last]);
      PickedOfFront(items, last, before);
      if FirstUnknown(known, items, last) {
        PushLarger(before, last);
        picked := before + [last];
        PickedSnoc(items, before, last);
      } else {
        picked := before;
      }
    }
  }

  lemma {:induction false} AddItemsTwice(known: seq<QueryItem>, a: seq<QueryItem>, b: seq<QueryItem>)
    ensures AddItems(AddItems(known, a), b) == AddItems(known, a + b)
  {
    if b == [] {
      assert a + b == a;
    } else {
      AddItemsTwice(known, a, b[..|b| - 1]);
      assert (a + b)[..|a + b| - 1] == a + b[..|b| - 1];
    }
  }

  /** The union query names the items of all queries end to end, each where it first appears. */
  lemma {:induction false} MergedIsComposite<S>(projections: seq<Projection<S>>)
    ensures MergedItems(projections) == AddItems([], CompositeQuery(projections).items)
  {
    if projections != [] {
      var front := projections[..|projections| - 1];
      MergedIsComposite(front);
      AddItemsTwice([], CompositeQuery(front).items, projections[|projections| - 1].query.items);
    }
  }

  /** ... and so none of them twice. */
  lemma UnionQueryExactly<S>(projections: seq<Projection<S>>) returns (picked: seq<nat>)
    requires forall i | 0 <= i < |projections| :: projections[i].query.items != []
    ensures var items := CompositeQuery(projections).items;
      && Increasing(picked) && (forall i: nat :: i in picked <==> FirstUnknown([], items, i))
      && (forall i | i in picked :: i < |items|)
      && UnionQuery(projections).items == Picked(items, picked)
  {
    MergedIsComposite(projections);
    picked := AddItemsExactly([], CompositeQuery(projections).items);
    assert [] + Picked(CompositeQuery(projections).items, picked) == Picked(CompositeQuery(projections).items, picked);
  }

  lemma {:induction false} MergedItemsMembers<S>(projections: seq<Projection<S>>)
    ensures forall item :: item in MergedItems(projections) <==>
                           exists i | 0 <= i < |projections| :: item in projections[i].query.items
  {
    if projections != [] {
      var last := |projections| - 1;
      MergedItemsMembers(projections[..last]);
      AddItemsMembers(MergedItems(projections[..last]), projections[last].query.items);
      forall item ensures item in MergedItems(projections) <==>
                          exists i | 0 <= i < |projections| :: item in projections[i].query.items
      {
        if i :| 0 <= i < |projections| && item in projections[i].query.items {
          if i < last { assert item in projections[..last][i].query.items; }
        }
        if item in MergedItems(projections[..last]) {
          var i :| 0 <= i < last && item in projections[..last][i].query.items;
          assert item in projections[i].query.items;
        }
      }
    }
  }

  /** The union query selects an event exactly if some projection does. */
  lemma UnionMatches<S>(projections: seq<Projection<S>>, r: EventRecord)
    requires projections != []
    ensures Matches(UnionQuery(projections), r) <==>
            exists i | 0 <= i < |projections| :: Matches(projections[i].query, r)
  {
    if i :| 0 <= i < |projections| && projections[i].query.items == [] {
      assert Matches(projections[i].query, r);
    } else {
      MergedItemsMembers(projections);
      var merged := MergedItems(projections);
      assert merged != [] by { assert projections[0].query.items[0] in merged; }
      if Matches(Query(merged), r) {
        var item :| item in merged && MatchesItem(item, r.event);
        var i :| 0 <= i < |projections| && item in projections[i].query.items;
        assert Matches(projections[i].query, r);
      }
    }
  }

  // ----- the composite read through the store -----

  /** The query the store is asked: all items of all projections, end to end. */
  function CompositeQuery<S>(projections: seq<Projection<S>>): Query {
    if projections == [] then Query([])
    else Query(CompositeQuery(projections[..|projections| - 1]).items + projections[|projections| - 1].query.items)
  }

  lemma {:induction false} CompositeMembers<S>(projections: seq<Projection<S>>)
    ensures forall item :: item in CompositeQuery(projections).items <==>
                           exists i | 0 <= i < |projections| :: item in projections[i].query.items
  {
    if projections != [] {
      var last := |projections| - 1;
      CompositeMembers(projections[..last]);
      forall item ensures item in CompositeQuery(projections).items <==>
                          exists i | 0 <= i < |projections| :: item in projections[i].query.items
      {
        if i :| 0 <= i < |projections| && item in projections[i].query.items {
          if i < last { assert item in projections[..last][i].query.items; }
        }
        if item in CompositeQuery(projections[..last]).items {
          var i :| 0 <= i < last && item in projections[..last][i].query.items;
          assert item in projections[i].query.items;
        }
      }
    }
  }

  /** Some projections ask for everything while others name items. */
  predicate Mixed<S>(projections: seq<Projection<S>>) {
    && (exists i | 0 <= i < |projections| :: projections[i].query.items == [])
    && (exists i | 0 <= i < |projections| :: projections[i].query.items != [])
  }

  lemma CompositeMatches<S>(projections: seq<Projection<S>>, r: EventRecord)
    ensures Matches(CompositeQuery(projections), r) <==>
            || (forall i | 0 <= i < |projections| :: projections[i].query.items == [])
            || exists i, item | 0 <= i < |projections| && item in projections[i].query.items :: MatchesItem(item, r.event)
  {
    CompositeMembers(projections);
    var items := CompositeQuery(projections).items;
    if i :| 0 <= i < |projections| && projections[i].query.items != [] {
      assert projections[i].query.items[0] in items;
    }
    assert items != [] ==> items[0] in items;
  }

  /** Exactly which events the composite read loses: those no item names, when the list is mixed. */
  lemma CompositeLoses<S>(projections: seq<Projection<S>>, r: EventRecord)
    requires projections != []
    ensures Matches(UnionQuery(projections), r) && !Matches(CompositeQuery(projections), r) <==>
            Mixed(projections)
            && forall i, item | 0 <= i < |projections| && item in projections[i].query.items :: !MatchesItem(item, r.event)
  {
    CompositeMatches(projections, r);
    UnionMatches(projections, r);
  }

  /** A type name that none of the items mentions. */
  function LongerThanAll(items: seq<QueryItem>): nat {
    if items == [] then 0 else LongerThanAll(items[1..]) + TypeLength(items[0].eventTypes)
  }

  function TypeLength(types: seq<string>): nat {
    if types == [] then 0 else |types[0]| + TypeLength(types[1..])
  }

  lemma {:induction false} TypeLengthBounds(types: seq<string>)
    ensures forall t | t in types :: |t| <= TypeLength(types)
  {
    if types != [] { TypeLengthBounds(types[1..]); }
  }

  lemma {:induction false} LongerThanAllBounds(items: seq<QueryItem>)
    ensures forall item, t | item in items && t in item.eventTypes :: |t| <= LongerThanAll(items)
  {
    if items != [] {
      LongerThanAllBounds(items[1..]);
      TypeLengthBounds(items[0].eventTypes);
      forall item, t | item in items && t in item.eventTypes ensures |t| <= LongerThanAll(items) {
        if item != items[0] { assert item in items[1..]; }
      }
    }
  }

  /** Some event matches none of finitely many non-vacuous items. */
  lemma UnmatchedEvent(items: seq<QueryItem>, position: nat) returns (r: EventRecord)
    requires forall item | item in items :: !Vacuous(item)
    ensures r.position == position && r.event.tags == [] && |r.event.eventType| > LongerThanAll(items)
    ensures forall item | item in items :: !MatchesItem(item, r.event)
  {
    var unused := seq(LongerThanAll(items) + 1, i => 'x');
    r := EventRecord(position, "", DomainEvent(unused, "", []), None, 0);
    LongerThanAllBounds(items);
    forall item | item in items ensures !MatchesItem(item, r.event) {
      if item.tags != [] { assert item.tags[0] in item.tags; }
      forall t | t in item.eventTypes ensures |t| < |unused| {}
    }
  }

  /** Through the store, several projections see all of their events on every log if and only
      if all of them or none of them ask for everything. */
  lemma CompositeCompleteIff<S(!new)>(projections: seq<Projection<S>>)
    requires projections != [] && forall i | 0 <= i < |projections| :: NonVacuous(projections[i].query)
    ensures (forall r :: Matches(UnionQuery(projections), r) ==> Matches(CompositeQuery(projections), r))
            <==> !Mixed(projections)
  {
    forall r: EventRecord
      ensures !Mixed(projections) && Matches(UnionQuery(projections), r) ==> Matches(CompositeQuery(projections), r)
    {
      CompositeLoses(projections, r);
    }
    if Mixed(projections) {
      CompositeMembers(projections);
      var r := UnmatchedEvent(CompositeQuery(projections).items, 0);
      CompositeLoses(projections, r);
    }
  }

  lemma {:induction false} FilterScan(log: seq<EventRecord>, wide: Query, query: Query)
    requires forall r | r in log && Matches(query, r) :: Matches(wide, r)
    ensures Filter(Scan(log, wide, 0), query) == Scan(log, query, 0)
  {
    if log != [] {
      var last := |log| - 1;
      FilterScan(log[..last], wide, query);
      assert log[last] in log;
      var front := Scan(log[..last], wide, 0);
      FilterSnoc(front, log[last], query);
      assert front + [] == front && Filter(front, query) + [] == Filter(front, query);
    }
  }

  /** On one composite read of the log, each state is the unary model built from that
      projection's own read, provided all or none of the queries ask for everything: its own
      events applied in log order. */
  lemma CompositeReadIsUnary<S(!new)>(projections: seq<Projection<S>>, log: seq<EventRecord>, i: nat)
    requires Numbered(log) && i < |projections| && !Mixed(projections)
    ensures NaryState(projections[i], Scan(log, CompositeQuery(projections), 0))
         == Build(projections[i], Scan(log, projections[i].query, 0)).state
    ensures EndsIn(projections[i], Scan(log, projections[i].query, 0),
                   NaryState(projections[i], Scan(log, CompositeQuery(projections), 0)))
  {
    var p, wide := projections[i], CompositeQuery(projections);
    forall r | r in log && Matches(p.query, r) ensures Matches(wide, r) {
      UnionMatches(projections, r);
      CompositeLoses(projections, r);
    }
    NaryIsUnary(p, Scan(log, wide, 0));
    FilterScan(log, wide, p.query);
    BuildAppliesInOrder(p, log);
  }

  lemma {:induction false} ScanSame(log: seq<EventRecord>, a: Query, b: Query)
    requires forall r :: Matches(a, r) <==> Matches(b, r)
    ensures Scan(log, a, 0) == Scan(log, b, 0)
  {
    if log != [] { ScanSame(log[..|log| - 1], a, b); }
  }

  lemma UnionScanIsComposite<S>(projections: seq<Projection<S>>, log: seq<EventRecord>)
    requires projections != [] && !Mixed(projections)
    ensures Scan(log, CompositeQuery(projections), 0) == Scan(log, UnionQuery(projections), 0)
  {
    forall r ensures Matches(CompositeQuery(projections), r) <==> Matches(UnionQuery(projections), r) {
      CompositeLoses(projections, r);
      CompositeMatches(projections, r);
      UnionMatches(projections, r);
      assert projections[0].query.items == [] ==> Matches(projections[0].query, r);
    }
    ScanSame(log, CompositeQuery(projections), UnionQuery(projections));
  }

  /** Optimistic concurrency for several projections: if they were built from one composite read
      up to some bound, none or all of them asking for everything, and nothing opposes their common
      condition now, then each state is where all its matches now, applied in log order, end. */
  lemma NaryMissedNothing<S(!new)>(projections: seq<Projection<S>>, log: seq<EventRecord>, bound: nat, i: nat)
    requires Numbered(log) && bound <= |log| && i < |projections| && !Mixed(projections)
    requires var seen := Scan(log[..bound], CompositeQuery(projections), 0);
      Scan(log, UnionQuery(projections), From(LastPosition(seen))) == []
    ensures EndsIn(projections[i], Scan(log, projections[i].query, 0),
                   NaryState(projections[i], Scan(log[..bound], CompositeQuery(projections), 0)))
  {
    UnionScanIsComposite(projections, log[..bound]);
    UnionScanIsComposite(projections, log);
    NothingMissed(log, UnionQuery(projections), bound);
    CompositeReadIsUnary(projections, log, i);
  }

  /** On a mixed list the condition asks for everything after the last event the composite read
      saw: it fails with nobody interfering exactly if the newest event is one the read lost. */
  lemma MixedFailsAlone<S>(projections: seq<Projection<S>>, log: seq<EventRecord>)
    requires Numbered(log) && Mixed(projections)
    ensures Scan(log, UnionQuery(projections), From(LastPosition(Scan(log, CompositeQuery(projections), 0)))) != []
            <==> log != [] && !Matches(CompositeQuery(projections), log[|log| - 1])
  {
    assert UnionQuery(projections) == ALL;
    SeenToTheEnd(log, CompositeQuery(projections));
    AnythingBeyond(log, From(LastPosition(Scan(log, CompositeQuery(projections), 0))));
  }

  lemma AnythingBeyond(log: seq<EventRecord>, lo: nat)
    requires Numbered(log)
    ensures Scan(log, ALL, lo) != [] <==> lo < |log|
  {
    ScanEmpty(log, ALL, lo);
    assert lo < |log| ==> Matches(ALL, log[lo]);
  }

  /** A scan ends at the newest event exactly if that one matches. */
  lemma SeenToTheEnd(log: seq<EventRecord>, query: Query)
    requires Numbered(log)
    ensures var next := From(LastPosition(Scan(log, query, 0)));
      next <= |log| && (next == |log| <==> log == [] || Matches(query, log[|log| - 1]))
  {
    var seen := Scan(log, query, 0);
    ScanExact(log, query, 0);
    if seen != [] { assert seen[|seen| - 1] in seen; }
    if log != [] && Matches(query, log[|log| - 1]) {
      assert log[|log| - 1] in seen;
      LastIsLargest(seen, log[|log| - 1]);
    }
  }

  function Counting(query: Query): Projection<int> {
    Projection(0, query, (n: int, e: EventRecord) => n + 1)
  }

  lemma CountsOne(query: Query, r: EventRecord)
    ensures NaryState(Counting(query), []) == 0 && Build(Counting(query), [r]).state == 1
  {
    NothingFolded(Counting(query));
    OneFolded(Counting(query), r);
    assert Counting(query).apply(0, r) == 1;
  }

  /** An event of type "B" in a log read for a projection that asks for everything next to one
      that asks for type "A". */
  lemma CompositeSkips(everything: Projection<int>, some: Projection<int>, r: EventRecord)
    requires everything.query == ALL && some.query == Query([QueryItem(["A"], [])])
    requires r.event == DomainEvent("B", "", [])
    ensures Scan([r], CompositeQuery([everything, some]), 0) == [] && Scan([r], ALL, 0) == [r]
  {
    CompositeOfTwo(everything, some);
    assert ALL.items + some.query.items == some.query.items;
    ScanOfOne(r, some.query);
    ScanOfOne(r, ALL);
  }

  /** The mixed case on a concrete log: the projection that asks for everything misses the event. */
  lemma MixedListLosesEvents()
    ensures var everything := Counting(ALL);
      var some := Counting(Query([QueryItem(["A"], [])]));
      var log := [EventRecord(0, "", DomainEvent("B", "", []), None, 0)];
      && NaryState(everything, Scan(log, CompositeQuery([everything, some]), 0)) == 0
      && Build(everything, Scan(log, ALL, 0)).state == 1
  {
    var r := EventRecord(0, "", DomainEvent("B", "", []), None, 0);
    CompositeSkips(Counting(ALL), Counting(Query([QueryItem(["A"], [])])), r);
    CountsOne(ALL, r);
  }

  lemma NothingFolded<S>(p: Projection<S>)
    ensures NaryState(p, []) == p.initialState
  {
  }

  lemma OneFolded<S>(p: Projection<S>, r: EventRecord)
    ensures Build(p, [r]).state == p.apply(p.initialState, r)
  {
    SortIdentity([r], PositionOf);
    FoldOfOne(p, r);
  }

  lemma CompositeOfTwo<S>(a: Projection<S>, b: Projection<S>)
    ensures CompositeQuery([a, b]) == Query(a.query.items + b.query.items)
  {
    assert [a, b][..1] == [a] && [a][..0] == [];
    assert CompositeQuery([a]).items == [] + a.query.items == a.query.items;
  }

  lemma ScanOfOne(r: EventRecord, query: Query)
    ensures Scan([r], query, 0) == if Matches(query, r) then [r] else []
  {
    assert [r][..0] == [];
    assert Scan([r], query, 0) == Scan([], query, 0) + (if Matches(query, r) then [r] else []);
  }

  lemma FoldOfOne<S>(p: Projection<S>, r: EventRecord)
    ensures Fold(p, [r]) == p.apply(p.initialState, r)
  {
    assert [r][..0] == [];
  }
}
