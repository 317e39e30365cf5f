/** The indexed read path as functions of the stored files, and its refinement of the scan. */
module IndexedRead {
  import opened Domain
  import opened FileNames
  import opened Sequences
  import opened Log

  type Index = map<IndexFile, seq<nat>>

  /** Union over the item's types. */
  function TypePositions(index: Index, types: seq<string>): set<nat> {
    set t, p | t in types && p in Positions(index, FileOfType(t)) :: p
  }

  /** Intersection over the item's tags. */
  function TagPositions(index: Index, tags: seq<Tag>): set<nat>
    requires tags != []
  {
    set p | p in Positions(index, FileOfTag(tags[0]))
            && forall t | t in tags :: p in Positions(index, FileOfTag(t))
  }

  function ItemPositions(index: Index, item: QueryItem): set<nat> {
    if item.eventTypes != [] && item.tags != [] then
      TypePositions(index, item.eventTypes) * TagPositions(index, item.tags)
    else if item.eventTypes != [] then TypePositions(index, item.eventTypes)
    else if item.tags != [] then TagPositions(index, item.tags)
    else {}
  }

  /** Union over the items, or the whole directory for the query without items. */
  function QueryPositions(files: Files, query: Query, lo: nat): set<nat> {
    if query.items == [] then set p | p in files.events && lo <= p
    else set item, p | item in query.items && p in ItemPositions(files.index, item) && lo <= p :: p
  }

  /** Reads one event file per position; a missing file fails the read. */
  function ReadFiles(events: map<nat, EventRecord>, ps: seq<nat>): Result<seq<EventRecord>> {
    if ps == [] then Ok([])
    else if ps[0] !in events then Err(NotFound)
    else
      var rest := ReadFiles(events, ps[1..]);
      if rest.Err? then rest else Ok([events[ps[0]]] + rest.value)
  }

  /** The sequential path: keep the matching records, stop once `max` have been found. */
  function ReadMatching(events: map<nat, EventRecord>, query: Query, ps: seq<nat>, max: Option<nat>)
    : Result<seq<EventRecord>>
  {
    if ps == [] then Ok([])
    else if ps[0] !in events then Err(NotFound)
    else if !Matches(query, events[ps[0]]) then ReadMatching(events, query, ps[1..], max)
    else if max.Some? && max.value <= 1 then Ok([events[ps[0]]])
    else
      var rest := ReadMatching(events, query, ps[1..], if max.Some? then Some(max.value - 1) else None);
      if rest.Err? then rest else Ok([events[ps[0]]] + rest.value)
  }

  /** The parallel path for more than ten index-resolved positions, the sequential one otherwise. */
  function Collect(events: map<nat, EventRecord>, query: Query, ps: seq<nat>, max: Option<nat>)
    : Result<seq<EventRecord>>
  {
    if query.items != [] && |ps| > 10 then ReadFiles(events, ps)
    else ReadMatching(events, query, ps, max)
  }

  // ----- what the two paths return, whatever is missing -----

  predicate AllThere(events: map<nat, EventRecord>, ps: seq<nat>) {
    forall p | p in ps :: p in events
  }

  ghost function Fetched(events: map<nat, EventRecord>, ps: seq<nat>): (records: seq<EventRecord>)
    requires AllThere(events, ps)
    ensures |records| == |ps|
  {
    seq(|ps|, i requires 0 <= i < |ps| => assert ps[i] in ps; events[ps[i]])
  }

  /** The parallel path succeeds exactly if no file is missing, with all records in order. */
  lemma {:induction false} ReadFilesExactly(events: map<nat, EventRecord>, ps: seq<nat>)
    ensures ReadFiles(events, ps) == if AllThere(events, ps) then Ok(Fetched(events, ps)) else Err(NotFound)
  {
    if ps != [] {
      ReadFilesExactly(events, ps[1..]);
      assert ps == [ps[0]] + ps[1..];
      if AllThere(events, ps) {
        assert ps[0] in ps;
        assert Fetched(events, ps) == [events[ps[0]]] + Fetched(events, ps[1..]);
      }
    }
  }

  /** What the sequential path makes of the matching records it gets to: it returns as soon as the
      limit is reached, at one record at least, and fails only if a missing file comes first. */
  function Stopping(kept: seq<EventRecord>, max: Option<nat>, missing: bool): Result<seq<EventRecord>> {
    var limit := AtLeastOne(max);
    if limit.Some? && limit.value <= |kept| then Ok(kept[..limit.value])
    else if missing then Err(NotFound)
    else Ok(kept)
  }

  lemma StoppingCons(r: EventRecord, kept: seq<EventRecord>, max: Option<nat>, missing: bool)
    requires max.Some? ==> max.value >= 2
    ensures var less := if max.Some? then Some(max.value - 1) else None;
      Stopping([r] + kept, max, missing)
      == if Stopping(kept, less, missing).Err? then Err(NotFound) else Ok([r] + Stopping(kept, less, missing).value)
  {
    if max.Some? && max.value <= |kept| + 1 {
      assert ([r] + kept)[..max.value] == [r] + kept[..max.value - 1];
    }
  }

  /** The sequential path over files of which the first `n` are there and the next, if there is one,
      is missing. */
  lemma {:induction false} ReadMatchingExactly(
    events: map<nat, EventRecord>, query: Query, ps: seq<nat>, max: Option<nat>, n: nat)
    requires n <= |ps| && AllThere(events, ps[..n]) && (n < |ps| ==> ps[n] !in events)
    ensures ReadMatching(events, query, ps, max) == Stopping(Filter(Fetched(events, ps[..n]), query), max, n < |ps|)
  {
    if n > 0 {
      var p, rest := ps[0], ps[1..];
      assert ps[..n] == [p] + rest[..n - 1] && p in ps[..n];
      assert forall q | q in rest[..n - 1] :: q in ps[..n];
      var less := if max.Some? && max.value >= 2 then Some(max.value - 1) else None;
      FetchedCons(events, p, rest[..n - 1]);
      var tail := Filter(Fetched(events, rest[..n - 1]), query);
      FilterCons(events[p], Fetched(events, rest[..n - 1]), query);
      if !Matches(query, events[p]) {
        ReadMatchingExactly(events, query, rest, max, n - 1);
        assert [] + tail == tail;
      } else if max.Some? && max.value <= 1 {
        assert ([events[p]] + tail)[..1] == [events[p]];
      } else {
        ReadMatchingExactly(events, query, rest, less, n - 1);
        StoppingCons(events[p], tail, max, n < |ps|);
      }
    }
  }

  lemma FetchedCons(events: map<nat, EventRecord>, p: nat, ps: seq<nat>)
    requires p in events && AllThere(events, ps)
    ensures Fetched(events, [p] + ps) == [events[p]] + Fetched(events, ps)
  {
  }

  function Directed(ps: seq<nat>, descending: bool): (r: seq<nat>)
    ensures |r| == |ps| && forall p :: p in r <==> p in ps
  {
    if descending then
      assert forall p | p in ps :: p in Reverse(ps) by {
        forall p | p in ps ensures p in Reverse(ps) {
          var i :| 0 <= i < |ps| && ps[i] == p;
          assert Reverse(ps)[|ps| - 1 - i] == p;
        }
      }
      Reverse(ps)
    else ps
  }

  /** Index-resolved positions are truncated before any event file is read. */
  function Chosen(query: Query, ps: seq<nat>, max: Option<nat>, descending: bool): seq<nat> {
    var directed := Directed(ps, descending);
    if query.items != [] then Limit(directed, max) else directed
  }

  /** What `read_internal` returns. */
  function ReadResult(files: Files, query: Query, start: Option<nat>, max: Option<nat>, descending: bool)
    : Result<seq<EventRecord>>
  {
    var ps := Ascending(QueryPositions(files, query, From(start)));
    Collect(files.events, query, Chosen(query, ps, max, descending), max)
  }

  // ----- what the index says about an event -----

  /** The event's files answer the item. */
  predicate Hits(files: seq<IndexFile>, item: QueryItem) {
    && !Vacuous(item)
    && (item.eventTypes == [] || exists t | t in item.eventTypes :: FileOfType(t) in files)
    && (forall t | t in item.tags :: FileOfTag(t) in files)
  }

  lemma IndexedPositionsHit(index: Index, log: seq<EventRecord>, item: QueryItem, p: nat)
    requires Truthful(index, log) && p in ItemPositions(index, item)
    ensures p < |log| && Hits(FilesOf(log[p].event), item)
  {
    if item.eventTypes != [] {
      assert p in TypePositions(index, item.eventTypes);
      var t :| t in item.eventTypes && p in Positions(index, FileOfType(t));
      assert FileOfType(t) in FilesOf(log[p].event);
    }
    if item.tags != [] {
      assert p in TagPositions(index, item.tags);
      forall t | t in item.tags ensures p < |log| && FileOfTag(t) in FilesOf(log[p].event) {
        PositionBelongs(index, log, FileOfTag(t), p);
      }
      assert item.tags[0] in item.tags;
    }
  }

  lemma PositionBelongs(index: Index, log: seq<EventRecord>, file: IndexFile, p: nat)
    requires Truthful(index, log) && p in Positions(index, file)
    ensures p < |log| && file in FilesOf(log[p].event)
  {
  }

  lemma HitsAreIndexed(index: Index, log: seq<EventRecord>, n: nat, item: QueryItem, p: nat)
    requires n <= |log| && Complete(index, log, n) && p < n && Hits(FilesOf(log[p].event), item)
    ensures p in ItemPositions(index, item)
  {
    if item.eventTypes != [] {
      var t :| t in item.eventTypes && FileOfType(t) in FilesOf(log[p].event);
      assert p in Positions(index, FileOfType(t));
      assert p in TypePositions(index, item.eventTypes);
    }
    if item.tags != [] {
      forall t | t in item.tags ensures p in Positions(index, FileOfTag(t)) {}
      assert item.tags[0] in item.tags;
      assert p in TagPositions(index, item.tags);
    }
  }

  /** Names never hide a match, even when they collide. */
  lemma MatchesHit(event: DomainEvent, item: QueryItem)
    requires MatchesItem(item, event) && !Vacuous(item)
    ensures Hits(FilesOf(event), item)
  {
    if item.eventTypes != [] {
      FilesOfMembers(event, FileOfType(event.eventType));
      assert event.eventType in item.eventTypes;
    }
    forall t | t in item.tags ensures FileOfTag(t) in FilesOf(event) {
      FilesOfMembers(event, FileOfTag(t));
    }
  }

  /** Without collisions the names tell exactly which events match. */
  lemma HitsMatch(v: Vocabulary, event: DomainEvent, query: Query, item: QueryItem)
    requires AliasFree(v) && Covers(v, event) && CoversQuery(v, query) && item in query.items
    requires Hits(FilesOf(event), item)
    ensures MatchesItem(item, event)
  {
    if item.eventTypes != [] {
      var t :| t in item.eventTypes && FileOfType(t) in FilesOf(event);
      FilesOfMembers(event, FileOfType(t));
      assert t in v.types && event.eventType in v.types;
      assert t == event.eventType;
    }
    forall t | t in item.tags ensures t in event.tags {
      FilesOfMembers(event, FileOfTag(t));
      var u :| u in event.tags && FileOfTag(t) == FileOfTag(u);
      assert t in v.tags && u in v.tags;
      assert t == u;
    }
  }

  // ----- reading resolved positions -----

  lemma {:induction false} ReadFilesRecords(events: map<nat, EventRecord>, log: seq<EventRecord>, ps: seq<nat>)
    requires StoresLog(events, log) && forall p | p in ps :: p < |log|
    ensures ReadFiles(events, ps) == Ok(Records(log, ps))
  {
    if ps != [] {
      assert ps[0] in ps && ps[0] in events;
      forall p | p in ps[1..] ensures p < |log| { assert p in ps; }
      ReadFilesRecords(events, log, ps[1..]);
      assert Records(log, ps) == [log[ps[0]]] + Records(log, ps[1..]);
    }
  }

  /** The limit the sequential path applies: it stops only after a record was pushed. */
  function AtLeastOne(max: Option<nat>): Option<nat> {
    if max == Some(0) then Some(1) else max
  }

  lemma TakeCons(r: EventRecord, tail: seq<EventRecord>, n: nat)
    requires n > 0
    ensures Take([r] + tail, n) == [r] + Take(tail, n - 1)
  {
  }

  lemma {:induction false} ReadMatchingRecords(
    events: map<nat, EventRecord>, log: seq<EventRecord>, query: Query, ps: seq<nat>, max: Option<nat>)
    requires StoresLog(events, log) && forall p | p in ps :: p < |log| && Matches(query, log[p])
    ensures ReadMatching(events, query, ps, max) == Ok(Limit(Records(log, ps), AtLeastOne(max)))
  {
    if ps != [] {
      assert ps[0] in ps && ps[0] in events;
      forall p | p in ps[1..] ensures p < |log| && Matches(query, log[p]) { assert p in ps; }
      assert Records(log, ps) == [log[ps[0]]] + Records(log, ps[1..]);
      if max.Some? && max.value <= 1 {
        assert Take(Records(log, ps), 1) == [log[ps[0]]];
      } else {
        var less := if max.Some? then Some(max.value - 1) else None;
        ReadMatchingRecords(events, log, query, ps[1..], less);
        if max.Some? { TakeCons(log[ps[0]], Records(log, ps[1..]), max.value); }
      }
    }
  }

  lemma DirectedRecords(log: seq<EventRecord>, ps: seq<nat>, descending: bool)
    requires forall p | p in ps :: p < |log|
    ensures Records(log, Directed(ps, descending)) == Ordering(Records(log, ps), descending)
  {
  }

  lemma LimitRecords(log: seq<EventRecord>, ps: seq<nat>, max: Option<nat>)
    requires forall p | p in ps :: p < |log|
    ensures forall p | p in Limit(ps, max) :: p in ps
    ensures Records(log, Limit(ps, max)) == Limit(Records(log, ps), max)
  {
  }

  function EffectiveMax(query: Query, max: Option<nat>): Option<nat> {
    if query.items == [] then AtLeastOne(max) else max
  }

  lemma CollectRecords(
    events: map<nat, EventRecord>, log: seq<EventRecord>, query: Query, ps: seq<nat>, max: Option<nat>, descending: bool)
    requires StoresLog(events, log) && forall p | p in ps :: p < |log| && Matches(query, log[p])
    ensures Collect(events, query, Chosen(query, ps, max, descending), max)
         == Ok(Limit(Ordering(Records(log, ps), descending), EffectiveMax(query, max)))
  {
    var directed := Directed(ps, descending);
    DirectedRecords(log, ps, descending);
    LimitRecords(log, directed, max);
    var chosen := Chosen(query, ps, max, descending);
    if query.items != [] && |chosen| > 10 {
      ReadFilesRecords(events, log, chosen);
    } else {
      ReadMatchingRecords(events, log, query, chosen, max);
    }
  }

  /** What is read when exactly the matching positions of a log prefix are resolved. */
  lemma ReadOfMatches(
    files: Files, log: seq<EventRecord>, n: nat, query: Query, start: Option<nat>, max: Option<nat>, descending: bool)
    requires StoresLog(files.events, log) && n <= |log|
    requires forall p: nat :: p in QueryPositions(files, query, From(start)) <==>
                              From(start) <= p < n && Matches(query, log[p])
    ensures ReadResult(files, query, start, max, descending)
         == Ok(Expected(log[..n], query, start, EffectiveMax(query, max), descending))
  {
    var ps := Ascending(QueryPositions(files, query, From(start)));
    RecordsAreScan(log[..n], query, From(start), ps);
    RecordsOfPrefix(log, n, ps);
    CollectRecords(files.events, log, query, ps, max, descending);
  }

  /** The same for an unlimited ascending read of an explicitly given position set. */
  lemma CollectOfMatches(
    events: map<nat, EventRecord>, log: seq<EventRecord>, n: nat, query: Query, positions: set<nat>)
    requires StoresLog(events, log) && n <= |log|
    requires forall p: nat :: p in positions <==> p < n && Matches(query, log[p])
    ensures Collect(events, query, Ascending(positions), None) == Ok(Scan(log[..n], query, 0))
  {
    var ps := Ascending(positions);
    RecordsAreScan(log[..n], query, 0, ps);
    RecordsOfPrefix(log, n, ps);
    CollectRecords(events, log, query, ps, None, false);
  }

  // ----- refinement -----

  lemma ResolvedExactly(v: Vocabulary, files: Files, log: seq<EventRecord>, query: Query, lo: nat, p: nat)
    requires Indexed(files, log)
    requires AliasFree(v) && CoversLog(v, log) && CoversQuery(v, query) && NonVacuous(query)
    ensures p in QueryPositions(files, query, lo) <==> lo <= p < |log| && Matches(query, log[p])
  {
    if query.items != [] {
      if p in QueryPositions(files, query, lo) {
        var item :| item in query.items && p in ItemPositions(files.index, item) && lo <= p;
        IndexedPositionsHit(files.index, log, item, p);
        assert log[p] in log;
        HitsMatch(v, log[p].event, query, item);
      }
      if lo <= p < |log| && Matches(query, log[p]) {
        var item :| item in query.items && MatchesItem(item, log[p].event);
        MatchesHit(log[p].event, item);
        HitsAreIndexed(files.index, log, |log|, item, p);
      }
    }
  }

  /** Resolved positions match, even while entries are missing. */
  lemma ResolvedTruly(v: Vocabulary, files: Files, log: seq<EventRecord>, query: Query, p: nat)
    requires Truthful(files.index, log) && query.items != [] && p in QueryPositions(files, query, 0)
    requires AliasFree(v) && CoversLog(v, log) && CoversQuery(v, query)
    ensures p < |log| && Matches(query, log[p])
  {
    var item :| item in query.items && p in ItemPositions(files.index, item);
    IndexedPositionsHit(files.index, log, item, p);
    assert log[p] in log;
    HitsMatch(v, log[p].event, query, item);
  }

  /** The indexed read is the scan, for every start, limit and direction and on both paths,
      except that a limit of zero on the query without items still yields one event. */
  lemma ReadRefinesScan(
    v: Vocabulary, files: Files, log: seq<EventRecord>,
    query: Query, start: Option<nat>, max: Option<nat>, descending: bool)
    requires Indexed(files, log)
    requires AliasFree(v) && CoversLog(v, log) && CoversQuery(v, query) && NonVacuous(query)
    ensures ReadResult(files, query, start, max, descending) == Ok(Expected(log, query, start, max, descending))
            <==> !(query.items == [] && max == Some(0) && From(start) < |log|)
  {
    forall p: nat
      ensures p in QueryPositions(files, query, From(start)) <==> From(start) <= p < |log| && Matches(query, log[p])
    {
      ResolvedExactly(v, files, log, query, From(start), p);
    }
    ReadOfMatches(files, log, |log|, query, start, max, descending);
    assert log[..|log|] == log;
    ZeroLimit(log, query, start, max, descending);
  }

  /** Where the limit applied differs from the limit asked for. */
  lemma ZeroLimit(log: seq<EventRecord>, query: Query, start: Option<nat>, max: Option<nat>, descending: bool)
    requires Numbered(log)
    ensures Expected(log, query, start, EffectiveMax(query, max), descending) == Expected(log, query, start, max, descending)
            <==> !(query.items == [] && max == Some(0) && From(start) < |log|)
  {
    var scan := Scan(log, query, From(start));
    ScanEmpty(log, query, From(start));
    assert |Ordering(scan, descending)| == |scan|;
    if query.items == [] && From(start) < |log| {
      assert Matches(query, log[From(start)]);
    }
  }

  /** A read never fails: every indexed position has an event file, colliding names or not,
      and even while entries are still missing. */
  lemma ReadSucceeds(
    files: Files, log: seq<EventRecord>, query: Query, start: Option<nat>, max: Option<nat>, descending: bool)
    requires StoresLog(files.events, log) && Truthful(files.index, log)
    ensures ReadResult(files, query, start, max, descending).Ok?
  {
    var ps := Ascending(QueryPositions(files, query, From(start)));
    forall p | p in ps ensures p < |log| {
      if query.items != [] {
        var item :| item in query.items && p in ItemPositions(files.index, item);
        IndexedPositionsHit(files.index, log, item, p);
      }
    }
    var directed := Directed(ps, descending);
    LimitRecords(log, directed, max);
    var chosen := Chosen(query, ps, max, descending);
    ReadFilesRecords(files.events, log, chosen);
    ReadMatchingSucceeds(files.events, query, chosen, max);
  }

  lemma {:induction false} ReadMatchingSucceeds(
    events: map<nat, EventRecord>, query: Query, ps: seq<nat>, max: Option<nat>)
    requires forall p | p in ps :: p in events
    ensures ReadMatching(events, query, ps, max).Ok?
  {
    if ps != [] {
      assert ps[0] in ps;
      ReadMatchingSucceeds(events, query, ps[1..], max);
      ReadMatchingSucceeds(events, query, ps[1..], if max.Some? && max.value > 1 then Some(max.value - 1) else None);
    }
  }

  predicate StoredAmong(events: map<nat, EventRecord>, ps: seq<nat>, r: EventRecord) {
    exists p | p in ps :: p in events && r == events[p]
  }

  lemma AmongTail(events: map<nat, EventRecord>, ps: seq<nat>, r: EventRecord)
    requires ps != [] && (StoredAmong(events, ps[1..], r) || (ps[0] in events && r == events[ps[0]]))
    ensures StoredAmong(events, ps, r)
  {
    assert ps[0] in ps && forall p | p in ps[1..] :: p in ps;
  }

  lemma {:induction false} ReadFilesWithin(events: map<nat, EventRecord>, ps: seq<nat>, r: EventRecord)
    requires ReadFiles(events, ps).Ok? && r in ReadFiles(events, ps).value
    ensures StoredAmong(events, ps, r)
  {
    if r in ReadFiles(events, ps[1..]).value { ReadFilesWithin(events, ps[1..], r); }
    AmongTail(events, ps, r);
  }

  lemma {:induction false} ReadMatchingWithin(
    events: map<nat, EventRecord>, query: Query, ps: seq<nat>, max: Option<nat>, r: EventRecord)
    requires ReadMatching(events, query, ps, max).Ok? && r in ReadMatching(events, query, ps, max).value
    ensures StoredAmong(events, ps, r)
  {
    var less := if max.Some? && max.value > 1 then Some(max.value - 1) else None;
    if !Matches(query, events[ps[0]]) {
      ReadMatchingWithin(events, query, ps[1..], max, r);
    } else if r != events[ps[0]] {
      ReadMatchingWithin(events, query, ps[1..], less, r);
    }
    AmongTail(events, ps, r);
  }

  lemma CollectWithin(events: map<nat, EventRecord>, query: Query, ps: seq<nat>, max: Option<nat>, r: EventRecord)
    requires Collect(events, query, ps, max).Ok? && r in Collect(events, query, ps, max).value
    ensures StoredAmong(events, ps, r)
  {
    if query.items != [] && |ps| > 10 {
      ReadFilesWithin(events, ps, r);
    } else {
      ReadMatchingWithin(events, query, ps, max, r);
    }
  }

  lemma AfterHead(events: map<nat, EventRecord>, log: seq<EventRecord>, ps: seq<nat>, rest: seq<EventRecord>)
    requires StoresLog(events, log) && Increasing(ps) && ps != [] && ps[0] in events
    requires ByPosition(rest) && forall r | r in rest :: StoredAmong(events, ps[1..], r)
    ensures ByPosition([events[ps[0]]] + rest)
  {
    forall r | r in rest ensures ps[0] < r.position {
      var p :| p in ps[1..] && p in events && r == events[p];
    }
    assert forall j | 0 <= j < |rest| :: rest[j] in rest;
  }

  lemma {:induction false} ReadFilesAscends(events: map<nat, EventRecord>, log: seq<EventRecord>, ps: seq<nat>)
    requires StoresLog(events, log) && Increasing(ps) && ReadFiles(events, ps).Ok?
    ensures ByPosition(ReadFiles(events, ps).value)
  {
    if ps != [] {
      ReadFilesAscends(events, log, ps[1..]);
      var rest := ReadFiles(events, ps[1..]).value;
      forall r | r in rest ensures StoredAmong(events, ps[1..], r) { ReadFilesWithin(events, ps[1..], r); }
      AfterHead(events, log, ps, rest);
    }
  }

  lemma {:induction false} ReadMatchingAscends(events: map<nat, EventRecord>, log: seq<EventRecord>, query: Query, ps: seq<nat>)
    requires StoresLog(events, log) && Increasing(ps) && ReadMatching(events, query, ps, None).Ok?
    ensures ByPosition(ReadMatching(events, query, ps, None).value)
  {
    if ps != [] {
      ReadMatchingAscends(events, log, query, ps[1..]);
      var rest := ReadMatching(events, query, ps[1..], None).value;
      forall r | r in rest ensures StoredAmong(events, ps[1..], r) { ReadMatchingWithin(events, query, ps[1..], None, r); }
      AfterHead(events, log, ps, rest);
    }
  }

  lemma ReadAscends(files: Files, log: seq<EventRecord>, query: Query, start: Option<nat>)
    requires FilesOk(files, log)
    ensures ReadResult(files, query, start, None, false).Ok? && ByPosition(ReadResult(files, query, start, None, false).value)
  {
    var ps := Ascending(QueryPositions(files, query, From(start)));
    ReadSucceeds(files, log, query, start, None, false);
    if query.items != [] && |ps| > 10 {
      ReadFilesAscends(files.events, log, ps);
    } else {
      ReadMatchingAscends(files.events, log, query, ps);
    }
  }

  /** Only stored events from a position on. */
  ghost predicate Within(records: seq<EventRecord>, log: seq<EventRecord>, lo: nat) {
    forall r | r in records :: lo <= r.position < |log| && log[r.position] == r
  }

  /** Whatever the names, a read only returns stored events from the start on. */
  lemma ReadWithin(
    files: Files, log: seq<EventRecord>, query: Query, start: Option<nat>, max: Option<nat>, descending: bool)
    requires FilesOk(files, log)
    ensures ReadResult(files, query, start, max, descending).Ok?
    ensures Within(ReadResult(files, query, start, max, descending).value, log, From(start))
  {
    var ps := Ascending(QueryPositions(files, query, From(start)));
    var chosen := Chosen(query, ps, max, descending);
    var read := ReadResult(files, query, start, max, descending);
    ReadSucceeds(files, log, query, start, max, descending);
    forall r | r in read.value ensures From(start) <= r.position < |log| && log[r.position] == r {
      CollectWithin(files.events, query, chosen, max, r);
      var p :| p in chosen && p in files.events && r == files.events[p];
      ChosenAmong(query, ps, max, descending, p);
    }
  }

  lemma ChosenAmong(query: Query, ps: seq<nat>, max: Option<nat>, descending: bool, p: nat)
    requires p in Chosen(query, ps, max, descending)
    ensures p in ps
  {
    assert p in Directed(ps, descending);
  }

  // ----- colliding names and vacuous items -----

  /** Is any event reported at all? This is the test of an append condition. */
  predicate Detects(files: Files, condition: AppendCondition) {
    ReadResult(files, condition.failIfEventsMatch, condition.afterSequencePosition, None, false) != Ok([])
  }

  lemma {:induction false} ReadMatchingFinds(
    events: map<nat, EventRecord>, query: Query, ps: seq<nat>, p: nat)
    requires p in ps && p in events && Matches(query, events[p])
    ensures ReadMatching(events, query, ps, None) != Ok([])
  {
    if ps[0] in events && !Matches(query, events[ps[0]]) {
      assert p in ps[1..];
      ReadMatchingFinds(events, query, ps[1..], p);
    }
  }

  /** A conflict is never missed, whatever the names: positions over-approximate matches and
      the only filtering there is keeps every match. */
  lemma NoMissedConflict(files: Files, log: seq<EventRecord>, condition: AppendCondition)
    requires Indexed(files, log) && NonVacuous(condition.failIfEventsMatch)
    requires !Detects(files, condition)
    ensures Scan(log, condition.failIfEventsMatch, From(condition.afterSequencePosition)) == []
  {
    var query, lo := condition.failIfEventsMatch, From(condition.afterSequencePosition);
    var ps := Ascending(QueryPositions(files, query, lo));
    forall p: nat | lo <= p < |log| && Matches(query, log[p]) ensures false {
      MatchResolved(files, log, query, lo, p);
      CollectFinds(files.events, query, ps, p);
    }
    ScanEmpty(log, query, lo);
  }

  /** A condition without items looks into the event directory: whatever the index lacks, it
      misses nothing. */
  lemma NothingMissedOfAll(files: Files, log: seq<EventRecord>, condition: AppendCondition)
    requires StoresLog(files.events, log) && condition.failIfEventsMatch == ALL
    requires !Detects(files, condition)
    ensures Scan(log, ALL, From(condition.afterSequencePosition)) == []
  {
    var lo := From(condition.afterSequencePosition);
    if lo < |log| {
      CollectFinds(files.events, ALL, Ascending(QueryPositions(files, ALL, lo)), lo);
    } else {
      ScanNothing(log, ALL, lo);
    }
  }

  /** Every match is among the resolved positions, colliding names or not. */
  lemma MatchResolved(files: Files, log: seq<EventRecord>, query: Query, lo: nat, p: nat)
    requires Indexed(files, log) && NonVacuous(query) && lo <= p < |log| && Matches(query, log[p])
    ensures p in QueryPositions(files, query, lo) && p in files.events && files.events[p] == log[p]
  {
    if query.items != [] {
      var item :| item in query.items && MatchesItem(item, log[p].event);
      MatchesHit(log[p].event, item);
      HitsAreIndexed(files.index, log, |log|, item, p);
    }
  }

  lemma CollectFinds(events: map<nat, EventRecord>, query: Query, ps: seq<nat>, p: nat)
    requires p in ps && p in events && Matches(query, events[p])
    ensures Collect(events, query, ps, None) != Ok([])
  {
    ReadMatchingFinds(events, query, ps, p);
  }

  /** Without collisions a conflict is detected exactly when there is one. */
  lemma DetectsExactly(v: Vocabulary, files: Files, log: seq<EventRecord>, condition: AppendCondition)
    requires Indexed(files, log) && NonVacuous(condition.failIfEventsMatch)
    requires AliasFree(v) && CoversLog(v, log) && CoversQuery(v, condition.failIfEventsMatch)
    ensures Detects(files, condition) <==>
            Scan(log, condition.failIfEventsMatch, From(condition.afterSequencePosition)) != []
  {
    ReadRefinesScan(v, files, log, condition.failIfEventsMatch, condition.afterSequencePosition, None, false);
  }

  /** The items the index can answer. */
  function Answerable(items: seq<QueryItem>): (r: seq<QueryItem>)
    ensures forall item :: item in r <==> item in items && !Vacuous(item)
  {
    if items == [] then []
    else (if Vacuous(items[0]) then [] else [items[0]]) + Answerable(items[1..])
  }

  /** A vacuous item matches every event but contributes no position: the index resolves the
      query as if the item were not there. */
  lemma VacuousItemsResolveToNothing(files: Files, query: Query, lo: nat)
    requires query.items != []
    ensures QueryPositions(files, query, lo) ==
            if Answerable(query.items) == [] then {} else QueryPositions(files, Query(Answerable(query.items)), lo)
  {
    var rest := Query(Answerable(query.items));
    forall p ensures p in QueryPositions(files, query, lo) <==>
                     rest.items != [] && p in QueryPositions(files, rest, lo)
    {
      if p in QueryPositions(files, query, lo) {
        var item :| item in query.items && p in ItemPositions(files.index, item) && lo <= p;
        assert item in rest.items;
      }
    }
  }
}
