/** What index entries that were never written do to reads and to append conditions. */
module MissingEntries {
  import opened Domain
  import opened FileNames
  import opened Sequences
  import opened Log
  import opened IndexedRead
  import opened DecisionModel
  import opened Naming

  /** Every query of names from the vocabulary is read right from these files. */
  ghost predicate EveryQueryRight(v: Vocabulary, files: Files, log: seq<EventRecord>) {
    forall query, start, max, descending | CoversQuery(v, query) && NonVacuous(query) ::
      ReadRight(files, log, query, start, max, descending)
  }

  /** The query for the events in one type's or one tag's file. */
  function Asking(event: DomainEvent, i: nat): Query
    requires i < |FilesOf(event)|
  {
    if i == 0 then Query([QueryItem([event.eventType], [])]) else Query([QueryItem([], [event.tags[i - 1]])])
  }

  lemma AskingReadsOneFile(files: Files, event: DomainEvent, i: nat, p: nat)
    requires i < |FilesOf(event)|
    ensures p in QueryPositions(files, Asking(event, i), 0) <==> p in Positions(files.index, FilesOf(event)[i])
  {
    var query := Asking(event, i);
    var item := query.items[0];
    assert query.items == [item] && item in query.items;
    assert p in ItemPositions(files.index, item) <==> p in Positions(files.index, FilesOf(event)[i]) by {
      if i == 0 {
        OneType(files.index, event.eventType, p);
      } else {
        OneTag(files.index, event.tags[i - 1], p);
      }
    }
  }

  lemma OneType(index: Index, t: string, p: nat)
    ensures p in ItemPositions(index, QueryItem([t], [])) <==> p in Positions(index, FileOfType(t))
  {
    assert t in [t];
  }

  lemma OneTag(index: Index, t: Tag, p: nat)
    ensures p in ItemPositions(index, QueryItem([], [t])) <==> p in Positions(index, FileOfTag(t))
  {
    assert t in [t];
  }

  lemma AskingMatches(event: DomainEvent, i: nat, r: EventRecord)
    requires i < |FilesOf(event)| && r.event == event
    ensures Matches(Asking(event, i), r) && NonVacuous(Asking(event, i)) && Asking(event, i).items != []
  {
    assert Asking(event, i).items[0] in Asking(event, i).items;
    assert MatchesItem(Asking(event, i).items[0], event);
  }

  lemma AskingCovered(v: Vocabulary, event: DomainEvent, i: nat)
    requires i < |FilesOf(event)| && Covers(v, event)
    ensures CoversQuery(v, Asking(event, i))
  {
  }

  /** A matching event whose position is not resolved is not in the answer. */
  lemma UnresolvedIsMissed(files: Files, log: seq<EventRecord>, query: Query, p: nat)
    requires StoresLog(files.events, log) && p < |log| && Matches(query, log[p]) && query.items != []
    requires forall q | q in QueryPositions(files, query, 0) :: q < |log| && Matches(query, log[q])
    requires p !in QueryPositions(files, query, 0)
    ensures !ReadRight(files, log, query, None, None, false)
  {
    var ps := Ascending(QueryPositions(files, query, 0));
    CollectRecords(files.events, log, query, ps, None, false);
    ScanExact(log, query, 0);
    assert log[p] in Scan(log, query, 0);
    assert log[p] !in Records(log, ps);
  }

  lemma MissingEntryMisread(v: Vocabulary, files: Files, log: seq<EventRecord>, p: nat, i: nat)
    requires FilesOk(files, log) && AliasFree(v) && CoversLog(v, log)
    requires p < |log| && i < |FilesOf(log[p].event)| && p !in Positions(files.index, FilesOf(log[p].event)[i])
    ensures !EveryQueryRight(v, files, log)
  {
    var query := Asking(log[p].event, i);
    assert log[p] in log;
    AskingCovered(v, log[p].event, i);
    AskingMatches(log[p].event, i, log[p]);
    AskingReadsOneFile(files, log[p].event, i, p);
    forall q | q in QueryPositions(files, query, 0) ensures q < |log| && Matches(query, log[q]) {
      ResolvedTruly(v, files, log, query, q);
    }
    UnresolvedIsMissed(files, log, query, p);
  }

  /** Exactly when the files answer right: on alias-free names every query is read right if and
      only if no event lacks an index entry. */
  lemma EveryQueryRightIffComplete(v: Vocabulary, files: Files, log: seq<EventRecord>)
    requires FilesOk(files, log) && AliasFree(v) && CoversLog(v, log)
    ensures EveryQueryRight(v, files, log) <==> Complete(files.index, log, |log|)
  {
    if Complete(files.index, log, |log|) {
      forall query, start, max, descending | CoversQuery(v, query) && NonVacuous(query)
        ensures ReadRight(files, log, query, start, max, descending)
      {
        ReadRefinesScan(v, files, log, query, start, max, descending);
      }
    } else {
      var p: nat, f :| p < |log| && f in FilesOf(log[p].event) && p !in Positions(files.index, f);
      var i :| 0 <= i < |FilesOf(log[p].event)| && FilesOf(log[p].event)[i] == f;
      MissingEntryMisread(v, files, log, p, i);
    }
  }

  // ----- decisions taken alone -----

  /** A decision on the query that runs alone on these files: what it reads, and whether its own
      append condition then lets it commit. */
  ghost function SeenAlone(files: Files, query: Query): Result<seq<EventRecord>> {
    ReadResult(files, query, None, None, false)
  }

  ghost predicate CommitsAlone(files: Files, query: Query) {
    SeenAlone(files, query).Ok? && !Detects(files, AppendCondition(query, LastPosition(SeenAlone(files, query).value)))
  }

  /** It is serial if it does not commit at all or has seen every match. */
  ghost predicate SerialAlone(files: Files, log: seq<EventRecord>, query: Query) {
    CommitsAlone(files, query) ==> SeenAlone(files, query).value == Scan(log, query, 0)
  }

  ghost predicate AllSerialAlone(v: Vocabulary, files: Files, log: seq<EventRecord>) {
    forall query | CoversQuery(v, query) && NonVacuous(query) :: SerialAlone(files, log, query)
  }

  /** Nothing is resolved beyond the last event of a read. */
  lemma NothingBeyondRead(files: Files, log: seq<EventRecord>, query: Query)
    requires StoresLog(files.events, log) && query.items != []
    requires forall q | q in QueryPositions(files, query, 0) :: q < |log| && Matches(query, log[q])
    ensures CommitsAlone(files, query)
  {
    var ps := Ascending(QueryPositions(files, query, 0));
    CollectRecords(files.events, log, query, ps, None, false);
    var seen := Records(log, ps);
    assert SeenAlone(files, query) == Ok(seen);
    var lo := From(LastPosition(seen));
    forall q ensures q !in QueryPositions(files, query, lo) {
      if q in QueryPositions(files, query, lo) {
        assert q in QueryPositions(files, query, 0) && q in ps;
        LastIsLast(ps, q);
      }
    }
    assert Ascending(QueryPositions(files, query, lo)) == [];
  }

  lemma LastIsLast(ps: seq<nat>, q: nat)
    requires Increasing(ps) && q in ps
    ensures q <= ps[|ps| - 1]
  {
  }

  lemma MissingEntryUnserial(v: Vocabulary, files: Files, log: seq<EventRecord>, p: nat, i: nat)
    requires FilesOk(files, log) && AliasFree(v) && CoversLog(v, log)
    requires p < |log| && i < |FilesOf(log[p].event)| && p !in Positions(files.index, FilesOf(log[p].event)[i])
    ensures !AllSerialAlone(v, files, log)
  {
    var query := Asking(log[p].event, i);
    assert log[p] in log;
    AskingCovered(v, log[p].event, i);
    AskingMatches(log[p].event, i, log[p]);
    AskingReadsOneFile(files, log[p].event, i, p);
    forall q | q in QueryPositions(files, query, 0) ensures q < |log| && Matches(query, log[q]) {
      ResolvedTruly(v, files, log, query, q);
    }
    UnresolvedIsMissed(files, log, query, p);
    NothingBeyondRead(files, log, query);
    assert !SerialAlone(files, log, query);
  }

  /** Exactly when decisions can be trusted: on alias-free names every decision that runs alone
      either sees every match or is stopped by its condition, if and only if no event lacks an
      index entry. */
  lemma AllSerialAloneIffComplete(v: Vocabulary, files: Files, log: seq<EventRecord>)
    requires FilesOk(files, log) && AliasFree(v) && CoversLog(v, log)
    ensures AllSerialAlone(v, files, log) <==> Complete(files.index, log, |log|)
  {
    if Complete(files.index, log, |log|) {
      forall query | CoversQuery(v, query) && NonVacuous(query) ensures SerialAlone(files, log, query) {
        ReadRefinesScan(v, files, log, query, None, None, false);
      }
    } else {
      var p: nat, f :| p < |log| && f in FilesOf(log[p].event) && p !in Positions(files.index, f);
      var i :| 0 <= i < |FilesOf(log[p].event)| && FilesOf(log[p].event)[i] == f;
      MissingEntryUnserial(v, files, log, p, i);
    }
  }

  /** An event whose type entry was never written is in the log, and a condition that asks for it
      by that type does not notice it; a condition without items does. */
  lemma UnindexedEventUnnoticed(r: EventRecord)
    requires r.position == 0
    ensures var files := Files(map[0 := r], map[]);
      && FilesOk(files, [r])
      && Scan([r], Asking(r.event, 0), 0) == [r]
      && !Detects(files, AppendCondition(Asking(r.event, 0), None))
      && Detects(files, AppendCondition(ALL, None))
  {
    var files, query := Files(map[0 := r], map[]), Asking(r.event, 0);
    AskingMatches(r.event, 0, r);
    assert Scan([r], query, 0) == Scan([], query, 0) + [r] by { assert [r][..0] == []; }
    forall p ensures p !in QueryPositions(files, query, 0) {
      if p in QueryPositions(files, query, 0) { AskingReadsOneFile(files, r.event, 0, p); }
    }
    assert QueryPositions(files, query, 0) == {};
    CollectFinds(files.events, ALL, Ascending(QueryPositions(files, ALL, 0)), 0);
  }
}
