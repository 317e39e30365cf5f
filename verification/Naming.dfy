/** What colliding file names do to reads: exactly which vocabularies are always read right. */
module Naming {
  import opened Domain
  import opened FileNames
  import opened Sequences
  import opened Log
  import opened IndexedRead
  import opened Indices

  /** Sharing its files with the item, the event is resolved although it does not match. */
  predicate Misnamed(item: QueryItem, event: DomainEvent) {
    Hits(FilesOf(event), item) && !MatchesItem(item, event)
  }

  lemma MisnamedPositions(files: Files, log: seq<EventRecord>, event: DomainEvent, item: QueryItem, p: nat)
    requires Indexed(files, log) && (forall r | r in log :: r.event == event) && Misnamed(item, event)
    ensures p in QueryPositions(files, Query([item]), 0) <==> p < |log|
  {
    var query := Query([item]);
    assert item in query.items;
    if p < |log| {
      assert log[p] in log;
      HitsAreIndexed(files.index, log, |log|, item, p);
    }
    if p in ItemPositions(files.index, item) {
      IndexedPositionsHit(files.index, log, item, p);
    }
  }

  lemma NoneMatches(log: seq<EventRecord>, event: DomainEvent, item: QueryItem)
    requires Numbered(log) && (forall r | r in log :: r.event == event) && !MatchesItem(item, event)
    ensures Scan(log, Query([item]), 0) == []
    ensures forall p: nat | p < |log| :: !Matches(Query([item]), log[p])
  {
    forall p: nat | p < |log| ensures !Matches(Query([item]), log[p]) { assert log[p] in log; }
    ScanEmpty(log, Query([item]), 0);
  }

  /** Any collision at all, of types or of tags: with at most ten candidates the read drops the
      events that only share a file, with more than ten it returns them all. */
  lemma MisreadDependsOnCount(files: Files, log: seq<EventRecord>, event: DomainEvent, item: QueryItem)
    requires Indexed(files, log) && (forall r | r in log :: r.event == event) && Misnamed(item, event)
    ensures Scan(log, Query([item]), 0) == []
    ensures ReadResult(files, Query([item]), None, None, false) == Ok(if |log| > 10 then log else [])
  {
    var query := Query([item]);
    NoneMatches(log, event, item);
    forall p: nat ensures p in QueryPositions(files, query, 0) <==> p < |log| {
      MisnamedPositions(files, log, event, item, p);
    }
    CollectUnmatched(files.events, log, query, Ascending(QueryPositions(files, query, 0)));
  }

  /** Reading all positions of a log for a query that matches none of its events. */
  lemma CollectUnmatched(events: map<nat, EventRecord>, log: seq<EventRecord>, query: Query, ps: seq<nat>)
    requires StoresLog(events, log) && query.items != [] && forall p: nat | p < |log| :: !Matches(query, log[p])
    requires Increasing(ps) && forall p: nat :: p in ps <==> p < |log|
    ensures Collect(events, query, ps, None) == Ok(if |log| > 10 then log else [])
  {
    AllPositions(log, ps);
    if |ps| > 10 {
      ReadFilesRecords(events, log, ps);
    } else {
      NothingKept(events, query, ps);
    }
  }

  lemma AllPositions(log: seq<EventRecord>, ps: seq<nat>)
    requires Increasing(ps) && forall p: nat :: p in ps <==> p < |log|
    ensures |ps| == |log| && Records(log, ps) == log
  {
    RecordsAreScan(log, ALL, 0, ps);
    ScanAll(log);
  }

  lemma {:induction false} NothingKept(events: map<nat, EventRecord>, query: Query, ps: seq<nat>)
    requires forall p | p in ps :: p in events && !Matches(query, events[p])
    ensures ReadMatching(events, query, ps, None) == Ok([])
  {
    if ps != [] {
      assert ps[0] in ps;
      NothingKept(events, query, ps[1..]);
    }
  }

  /** The case of two letter cases: asking for type "A" where only type "a" was ever stored. */
  lemma CollisionDependsOnCount(files: Files, log: seq<EventRecord>)
    requires Indexed(files, log) && forall r | r in log :: r.event == DomainEvent("a", "", [])
    ensures var query := Query([QueryItem(["A"], [])]);
      && Scan(log, query, 0) == []
      && ReadResult(files, query, None, None, false) == Ok(if |log| > 10 then log else [])
  {
    var event := DomainEvent("a", "", []);
    NamesCollide();
    SharedType("A", event);
    MisreadDependsOnCount(files, log, event, QueryItem(["A"], []));
  }

  /** The position a read of one event looks at: the first candidate in its direction. */
  function Foremost(ps: seq<nat>, descending: bool): nat
    requires ps != []
  {
    if descending then ps[|ps| - 1] else ps[0]
  }

  /** A read of one event looks at one candidate only and returns it if it matches; if a foreign
      event is foremost, it returns nothing, whatever matches behind it. */
  lemma ReadOfOneLooksAtOne(files: Files, log: seq<EventRecord>, query: Query, start: Option<nat>, descending: bool)
    requires FilesOk(files, log) && query.items != [] && QueryPositions(files, query, From(start)) != {}
    ensures var ps := Ascending(QueryPositions(files, query, From(start)));
      && ps != [] && Foremost(ps, descending) < |log|
      && var r := log[Foremost(ps, descending)];
      && ReadResult(files, query, start, Some(1), descending) == Ok(if Matches(query, r) then [r] else [])
  {
    var ps := Ascending(QueryPositions(files, query, From(start)));
    assert ps != [];
    var p := Foremost(ps, descending);
    assert p in ps;
    ResolvedIsStored(files, log, query, From(start), p);
    ChosenOne(query, ps, descending);
    CollectOne(files.events, query, p);
  }

  lemma ResolvedIsStored(files: Files, log: seq<EventRecord>, query: Query, lo: nat, p: nat)
    requires FilesOk(files, log) && query.items != [] && p in QueryPositions(files, query, lo)
    ensures p < |log| && p in files.events && files.events[p] == log[p]
  {
    var item :| item in query.items && p in ItemPositions(files.index, item);
    IndexedPositionsHit(files.index, log, item, p);
  }

  lemma ChosenOne(query: Query, ps: seq<nat>, descending: bool)
    requires query.items != [] && ps != []
    ensures Chosen(query, ps, Some(1), descending) == [Foremost(ps, descending)]
  {
  }

  lemma CollectOne(events: map<nat, EventRecord>, query: Query, p: nat)
    requires p in events
    ensures Collect(events, query, [p], Some(1)) == Ok(if Matches(query, events[p]) then [events[p]] else [])
  {
    assert [p][1..] == [];
    assert ReadMatching(events, query, [], Some(1)) == Ok([]);
  }

  /** Two events suffice: a match is lost behind a foreign event that shares its files, in either
      direction; so a page of one can be empty before the end, and the last event not be found. */
  lemma LimitedReadLosesMatch(files: Files, log: seq<EventRecord>, item: QueryItem, descending: bool)
    requires Indexed(files, log) && |log| == 2
    requires var foreign := if descending then 1 else 0;
      Misnamed(item, log[foreign].event) && MatchesItem(item, log[1 - foreign].event)
    ensures ReadResult(files, Query([item]), None, Some(1), descending) == Ok([])
    ensures Scan(log, Query([item]), 0) == [log[if descending then 0 else 1]]
  {
    if descending { LostBehind(files, log, item, 1, 0, true); } else { LostBehind(files, log, item, 0, 1, false); }
  }

  lemma LostBehind(files: Files, log: seq<EventRecord>, item: QueryItem, foreign: nat, own: nat, descending: bool)
    requires Indexed(files, log) && |log| == 2 && foreign == (if descending then 1 else 0) && own == 1 - foreign
    requires Misnamed(item, log[foreign].event) && MatchesItem(item, log[own].event)
    ensures ReadResult(files, Query([item]), None, Some(1), descending) == Ok([])
    ensures Scan(log, Query([item]), 0) == [log[own]]
  {
    OneItemMatches(item, log[foreign]);
    OneItemMatches(item, log[own]);
    MatchesHit(log[own].event, item);
    TwoCandidates(files, log, item);
    LooksAtForeign(files, log, Query([item]), foreign, descending);
    OneOfTwo(log, Query([item]), own);
  }

  lemma LooksAtForeign(files: Files, log: seq<EventRecord>, query: Query, foreign: nat, descending: bool)
    requires FilesOk(files, log) && |log| == 2 && query.items != [] && foreign == (if descending then 1 else 0)
    requires QueryPositions(files, query, From(None)) != {} && Ascending(QueryPositions(files, query, From(None))) == [0, 1]
    requires !Matches(query, log[foreign])
    ensures ReadResult(files, query, None, Some(1), descending) == Ok([])
  {
    ReadOfOneLooksAtOne(files, log, query, None, descending);
    assert Foremost([0, 1], descending) == foreign;
  }

  lemma TwoCandidates(files: Files, log: seq<EventRecord>, item: QueryItem)
    requires Indexed(files, log) && |log| == 2
    requires Hits(FilesOf(log[0].event), item) && Hits(FilesOf(log[1].event), item)
    ensures QueryPositions(files, Query([item]), 0) != {}
    ensures Ascending(QueryPositions(files, Query([item]), 0)) == [0, 1]
  {
    var query := Query([item]);
    assert item in query.items;
    forall p: nat ensures p in QueryPositions(files, query, 0) <==> p < 2 {
      if p < 2 { HitsAreIndexed(files.index, log, 2, item, p); }
      if p in ItemPositions(files.index, item) { IndexedPositionsHit(files.index, log, item, p); }
    }
    BothCandidates(QueryPositions(files, query, 0));
  }

  lemma BothCandidates(s: set<nat>)
    requires forall p: nat :: p in s <==> p < 2
    ensures s != {} && Ascending(s) == [0, 1]
  {
    assert 0 in s;
    IncreasingUnique(Ascending(s), [0, 1]);
  }

  lemma OneOfTwo(log: seq<EventRecord>, query: Query, k: nat)
    requires |log| == 2 && k < 2 && Matches(query, log[k]) && !Matches(query, log[1 - k])
    ensures Scan(log, query, 0) == [log[k]]
  {
    assert log[..1] == [log[0]] && [log[0]][..0] == [];
    assert Scan([], query, 0) == [];
    assert Scan(log[..1], query, 0) == if k == 0 then [log[0]] else [];
  }

  lemma SharedType(t: string, event: DomainEvent)
    requires t != event.eventType && FileOfType(t) == FileOfType(event.eventType)
    ensures Misnamed(QueryItem([t], []), event)
  {
    assert FilesOf(event)[0] == FileOfType(t);
    assert t in [t];
  }

  lemma SharedTag(t: Tag, event: DomainEvent)
    requires |event.tags| == 1 && t != event.tags[0] && FileOfTag(t) == FileOfTag(event.tags[0])
    ensures Misnamed(QueryItem([], [t]), event)
  {
    assert FilesOf(event)[1] == FileOfTag(t);
    assert t in [t];
  }

  // ----- stores that show it -----

  function Copies(event: DomainEvent, n: nat): seq<EventRecord> {
    seq(n, i requires 0 <= i < n => EventRecord(i, "", event, None, 0))
  }

  lemma {:induction false} CopiesStored(event: DomainEvent, n: nat) returns (files: Files)
    ensures Indexed(files, Copies(event, n))
  {
    if n == 0 {
      files := EMPTY;
    } else {
      var r := EventRecord(n - 1, "", event, None, 0);
      var before := CopiesStored(event, n - 1);
      IndexNext(before, Copies(event, n - 1), r);
      assert Copies(event, n) == Copies(event, n - 1) + [r];
      files := Files(before.events[n - 1 := r], AddToAll(before.index, FilesOf(event), n - 1));
    }
  }

  lemma CopiesCovered(v: Vocabulary, event: DomainEvent, n: nat)
    requires Covers(v, event)
    ensures CoversLog(v, Copies(event, n)) && |Copies(event, n)| == n
    ensures forall r | r in Copies(event, n) :: r.event == event
  {
    forall r | r in Copies(event, n) ensures r.event == event {
      var i :| 0 <= i < n && Copies(event, n)[i] == r;
    }
  }

  /** The read is the scan, but for the limit of zero on the query without items. */
  ghost predicate ReadRight(
    files: Files, log: seq<EventRecord>, query: Query, start: Option<nat>, max: Option<nat>, descending: bool)
  {
    (ReadResult(files, query, start, max, descending) == Ok(Expected(log, query, start, max, descending)))
    <==> !(query.items == [] && max == Some(0) && From(start) < |log|)
  }

  /** Every read of names from the vocabulary, from every store of them, is right. */
  ghost predicate AlwaysReadRight(v: Vocabulary) {
    forall files, log, query, start, max, descending |
      Indexed(files, log) && CoversLog(v, log) && CoversQuery(v, query) && NonVacuous(query) ::
      ReadRight(files, log, query, start, max, descending)
  }

  lemma NotTheScan(files: Files, log: seq<EventRecord>, query: Query)
    requires query.items != [] && log != [] && Scan(log, query, 0) == []
    requires ReadResult(files, query, None, None, false) == Ok(log)
    ensures !ReadRight(files, log, query, None, None, false)
  {
  }

  lemma HitsNothingVacuous(files: seq<IndexFile>, item: QueryItem)
    requires Hits(files, item)
    ensures NonVacuous(Query([item]))
  {
  }

  lemma OneRead(v: Vocabulary, files: Files, log: seq<EventRecord>, query: Query)
    requires AlwaysReadRight(v)
    requires Indexed(files, log) && CoversLog(v, log) && CoversQuery(v, query) && NonVacuous(query)
    ensures ReadRight(files, log, query, None, None, false)
  {
  }

  /** A misnamed event stored eleven times is a read gone wrong. */
  lemma MisnamedMisread(v: Vocabulary, event: DomainEvent, item: QueryItem)
    requires Covers(v, event) && CoversQuery(v, Query([item])) && Misnamed(item, event)
    ensures !AlwaysReadRight(v)
  {
    var log, query := Copies(event, 11), Query([item]);
    var files := CopiesStored(event, 11);
    CopiesCovered(v, event, 11);
    MisreadDependsOnCount(files, log, event, item);
    NotTheScan(files, log, query);
    HitsNothingVacuous(FilesOf(event), item);
    if AlwaysReadRight(v) {
      OneRead(v, files, log, query);
    }
  }

  lemma NoEventsReadRight(
    files: Files, query: Query, start: Option<nat>, max: Option<nat>, descending: bool)
    requires Indexed(files, [])
    ensures ReadRight(files, [], query, start, max, descending)
  {
    forall p: nat ensures p !in QueryPositions(files, query, From(start)) {
      if query.items != [] && p in QueryPositions(files, query, From(start)) {
        var item :| item in query.items && p in ItemPositions(files.index, item);
        IndexedPositionsHit(files.index, [], item, p);
      }
    }
    ReadOfMatches(files, [], 0, query, start, max, descending);
  }

  /** Exactly when names do no harm: every store and query of a vocabulary is read right if and
      only if no two of its names share a file, or it has no type and so no event at all. */
  lemma AlwaysRightIffAliasFree(v: Vocabulary)
    ensures AlwaysReadRight(v) <==> AliasFree(v) || v.types == iset{}
  {
    if AliasFree(v) {
      forall files, log, query, start, max, descending |
        Indexed(files, log) && CoversLog(v, log) && CoversQuery(v, query) && NonVacuous(query)
        ensures ReadRight(files, log, query, start, max, descending)
      {
        ReadRefinesScan(v, files, log, query, start, max, descending);
      }
    } else if v.types == iset{} {
      forall files, log, query, start, max, descending |
        Indexed(files, log) && CoversLog(v, log) && CoversQuery(v, query) && NonVacuous(query)
        ensures ReadRight(files, log, query, start, max, descending)
      {
        if log != [] { EventsHaveTypes(v, log); }
        NoEventsReadRight(files, query, start, max, descending);
      }
    } else {
      AliasMisread(v);
    }
  }

  lemma EventsHaveTypes(v: Vocabulary, log: seq<EventRecord>)
    requires CoversLog(v, log) && log != []
    ensures v.types != iset{}
  {
    assert log[0] in log;
  }

  lemma AliasMisread(v: Vocabulary)
    requires !AliasFree(v) && v.types != iset{}
    ensures !AlwaysReadRight(v)
  {
    if a, b :| a in v.types && b in v.types && FileOfType(a) == FileOfType(b) && a != b {
      var event := DomainEvent(a, "", []);
      SharedType(b, event);
      MisnamedMisread(v, event, QueryItem([b], []));
    } else {
      var a, b :| a in v.tags && b in v.tags && FileOfTag(a) == FileOfTag(b) && a != b;
      var t :| t in v.types;
      var event := DomainEvent(t, "", [a]);
      SharedTag(b, event);
      MisnamedMisread(v, event, QueryItem([], [b]));
    }
  }
}
