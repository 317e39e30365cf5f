/** Queries with a vacuous item: on some log each of them is answered wrong. */
module VacuousItems {
  import opened Domain
  import opened FileNames
  import opened Log
  import opened IndexedRead
  import opened Indices
  import opened DecisionModel
  import opened Naming

  /** One event stored and indexed in an otherwise empty store. */
  function Single(r: EventRecord): Files {
    Files(map[0 := r], AddToAll(map[], FilesOf(r.event), 0))
  }

  lemma SingleIndexed(r: EventRecord)
    requires r.position == 0
    ensures Indexed(Single(r), [r])
  {
    IndexNext(EMPTY, [], r);
    assert [] + [r] == [r];
    assert EMPTY.events[0 := r] == map[0 := r];
  }

  lemma UnmatchedNotHit(items: seq<QueryItem>) returns (r: EventRecord)
    requires forall item | item in items :: !Vacuous(item)
    ensures r.position == 0 && r.event.tags == [] && forall item | item in items :: !Hits(FilesOf(r.event), item)
    ensures forall item, t | item in items && t in item.eventTypes :: |t| < |r.event.eventType|
  {
    r := UnmatchedEvent(items, 0);
    LongerThanAllBounds(items);
    forall item | item in items ensures !Hits(FilesOf(r.event), item) {
      assert FilesOf(r.event) == [FileOfType(r.event.eventType)];
      if item.tags != [] { assert item.tags[0] in item.tags; }
      forall t | t in item.eventTypes ensures FileOfType(t) !in FilesOf(r.event) {
        assert |Sanitize(t)| == |t| && |Sanitize(r.event.eventType)| == |r.event.eventType|;
      }
    }
  }

  /** The names in a query. */
  ghost function NamesOf(query: Query): Vocabulary {
    Vocabulary(iset item, t | item in query.items && t in item.eventTypes :: t,
               iset item, t | item in query.items && t in item.tags :: t)
  }

  /** The names in a query and one type more. */
  ghost function WithType(v: Vocabulary, t: string): Vocabulary {
    v.(types := v.types + iset{t})
  }

  /** A longer type shares no file with shorter ones. */
  lemma LongerTypeIsAliasFree(v: Vocabulary, t: string)
    requires AliasFree(v) && forall u | u in v.types :: |u| < |t|
    ensures AliasFree(WithType(v, t))
  {
    forall a | a in v.types ensures FileOfType(a) != FileOfType(t) {
      assert |Sanitize(a)| == |a| && |Sanitize(t)| == |t|;
    }
  }

  /** For every query with a vacuous item there is a store, of names that do not collide with the
      query's own, from which it reads nothing where it should read everything. */
  lemma VacuousItemFails(query: Query) returns (files: Files, log: seq<EventRecord>, v: Vocabulary)
    requires !NonVacuous(query) && AliasFree(NamesOf(query))
    ensures Indexed(files, log) && AliasFree(v) && CoversLog(v, log) && CoversQuery(v, query)
    ensures ReadResult(files, query, None, None, false) == Ok([])
    ensures Scan(log, query, 0) == log && log != []
  {
    var r := UnmatchedNotHit(Answerable(query.items));
    files, log, v := Single(r), [r], WithType(NamesOf(query), r.event.eventType);
    SingleIndexed(r);
    VacuousMatchesAll(query, r);
    NothingResolved(files, log, query);
    LongerTypeIsAliasFree(NamesOf(query), r.event.eventType);
  }

  /** The query is read right from every store whose names do not collide. */
  ghost predicate RightFromEveryStore(query: Query) {
    forall v, files, log, start, max, descending |
      Indexed(files, log) && AliasFree(v) && CoversLog(v, log) && CoversQuery(v, query) ::
      ReadRight(files, log, query, start, max, descending)
  }

  /** Exactly when a query is answered right: if and only if none of its items is vacuous. */
  lemma RightIffNonVacuous(query: Query)
    requires AliasFree(NamesOf(query))
    ensures RightFromEveryStore(query) <==> NonVacuous(query)
  {
    if NonVacuous(query) {
      forall v, files, log, start, max, descending |
        Indexed(files, log) && AliasFree(v) && CoversLog(v, log) && CoversQuery(v, query)
        ensures ReadRight(files, log, query, start, max, descending)
      {
        ReadRefinesScan(v, files, log, query, start, max, descending);
      }
    } else {
      var files, log, v := VacuousItemFails(query);
      NothingForEverything(files, log, query);
      if RightFromEveryStore(query) {
        OneReading(v, files, log, query);
      }
    }
  }

  lemma OneReading(v: Vocabulary, files: Files, log: seq<EventRecord>, query: Query)
    requires RightFromEveryStore(query)
    requires Indexed(files, log) && AliasFree(v) && CoversLog(v, log) && CoversQuery(v, query)
    ensures ReadRight(files, log, query, None, None, false)
  {
  }

  lemma NothingForEverything(files: Files, log: seq<EventRecord>, query: Query)
    requires query.items != [] && log != [] && Scan(log, query, 0) == log
    requires ReadResult(files, query, None, None, false) == Ok([])
    ensures !ReadRight(files, log, query, None, None, false)
  {
  }

  lemma VacuousMatchesAll(query: Query, r: EventRecord)
    requires !NonVacuous(query)
    ensures Scan([r], query, 0) == [r]
  {
    var vacuous :| vacuous in query.items && Vacuous(vacuous);
    assert MatchesItem(vacuous, r.event);
    ScanOfOne(r, query);
  }

  lemma NothingResolved(files: Files, log: seq<EventRecord>, query: Query)
    requires Truthful(files.index, log) && query.items != []
    requires forall p: nat, item | p < |log| && item in Answerable(query.items) :: !Hits(FilesOf(log[p].event), item)
    ensures ReadResult(files, query, None, None, false) == Ok([])
  {
    VacuousItemsResolveToNothing(files, query, 0);
    forall item, p | item in Answerable(query.items) && p in ItemPositions(files.index, item) ensures false {
      IndexedPositionsHit(files.index, log, item, p);
    }
    assert QueryPositions(files, query, 0) == {};
  }
}
