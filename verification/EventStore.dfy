/** The file-backed event store, as one object over its stored files. */
module EventStore {
  import opened Domain
  import opened FileNames
  import opened Sequences
  import opened Log
  import opened IndexedRead
  import opened Indices

  datatype ReadOption = ReadOption(bits: nat)

  const DESCENDING := ReadOption(1)

  predicate IsDescending(options: Option<seq<ReadOption>>) {
    options.Some? && DESCENDING in options.value
  }

  class MarmosaStore {
    var files: Files
    ghost var log: seq<EventRecord>

    ghost predicate Valid()
      reads this
    {
      Indexed(files, log)
    }

    constructor ()
      ensures Valid() && log == []
    {
      files, log := EMPTY, [];
    }

    /** The paths in the event directory, in no particular order. */
    method ReadDir() returns (paths: seq<string>, ghost order: seq<nat>)
      ensures |paths| == |order| && forall i | 0 <= i < |order| :: paths[i] == EventPath(order[i])
      ensures forall p: nat :: p in order <==> p in files.events
      ensures DistinctKeys(order, Itself)
    {
      var rest := files.events.Keys;
      paths, order := [], [];
      while rest != {}
        invariant |paths| == |order| && forall i | 0 <= i < |order| :: paths[i] == EventPath(order[i])
        invariant forall p: nat :: p in order || p in rest <==> p in files.events
        invariant forall p | p in order :: p !in rest
        invariant DistinctKeys(order, Itself)
        decreases rest
      {
        var p :| p in rest;
        paths, order := paths + [EventPath(p)], order + [p];
        rest := rest - {p};
      }
    }

    /** The position the next event gets, recovered from the paths of the event files. */
    method NextSequence() returns (sequence: nat)
      requires forall p | p in files.events :: p <= U64_MAX
      ensures sequence == NextPosition(files.events)
    {
      var parsed := ParseDirectory();
      var max := Largest(parsed);
      LargestParsed(files.events, parsed, max);
      sequence := if max.Some? then max.value + 1 else 0;
    }

    method GetAllPositions(start: Option<nat>) returns (positions: seq<nat>)
      requires forall p | p in files.events :: p <= U64_MAX
      ensures positions == Ascending(QueryPositions(files, ALL, From(start)))
    {
      var parsed := ParseDirectory();
      var sorted := Sort(parsed, Itself);
      SortSorts(parsed, Itself);
      PermutedIncreasing(parsed, sorted);
      SortMembers(parsed, Itself);
      positions := Retain(sorted, From(start));
      IncreasingUnique(positions, Ascending(QueryPositions(files, ALL, From(start))));
    }

    method ParsePath(path: string, ghost position: nat) returns (parsed: Option<nat>)
      requires path == EventPath(position) && position <= U64_MAX
      ensures parsed == Some(position)
    {
      PathRoundTrip(position);
      parsed := ParseEventPath(path);
    }

    method ParsePaths(paths: seq<string>, ghost order: seq<nat>) returns (parsed: seq<nat>)
      requires |paths| == |order|
      requires forall i | 0 <= i < |order| :: paths[i] == EventPath(order[i]) && order[i] <= U64_MAX
      ensures parsed == order
    {
      parsed := [];
      for i := 0 to |paths|
        invariant |parsed| == i && forall k | 0 <= k < i :: parsed[k] == order[k]
      {
        var position := ParsePath(paths[i], order[i]);
        if position.Some? {
          parsed := parsed + [position.value];
        }
      }
    }

    method ParseDirectory() returns (parsed: seq<nat>)
      requires forall p | p in files.events :: p <= U64_MAX
      ensures DistinctKeys(parsed, Itself) && forall p: nat :: p in parsed <==> p in files.events
    {
      var paths, order := ReadDir();
      forall i | 0 <= i < |order| ensures order[i] <= U64_MAX {
        assert order[i] in order;
      }
      parsed := ParsePaths(paths, order);
    }

    method Retain(sorted: seq<nat>, lo: nat) returns (positions: seq<nat>)
      requires Increasing(sorted)
      ensures Increasing(positions) && forall p: nat :: p in positions <==> p in sorted && lo <= p
    {
      positions := [];
      for i := 0 to |sorted|
        invariant Increasing(positions)
        invariant forall p: nat :: p in positions <==> p in sorted[..i] && lo <= p
      {
        assert sorted[..i + 1] == sorted[..i] + [sorted[i]];
        forall p | p in positions ensures p < sorted[i] {
          var k :| 0 <= k < i && sorted[..i][k] == p;
        }
        PushLarger(positions, sorted[i]);
        if lo <= sorted[i] {
          positions := positions + [sorted[i]];
        }
      }
      assert sorted[..|sorted|] == sorted;
    }

    method GetPositionsByEventTypes(types: seq<string>) returns (positions: seq<nat>)
      ensures positions == Ascending(TypePositions(files.index, types))
    {
      var all: seq<nat> := [];
      for i := 0 to |types|
        invariant forall p: nat :: p in all <==> exists t | t in types[..i] :: p in Positions(files.index, FileOfType(t))
      {
        assert types[..i + 1] == types[..i] + [types[i]];
        all := all + Positions(files.index, FileOfType(types[i]));
      }
      assert types[..|types|] == types;
      UnionOfTypes(files.index, types, all);
      positions := Dedup(Sort(all, Itself));
    }

    method GetPositionsByAllTags(tags: seq<Tag>) returns (positions: Option<set<nat>>)
      ensures positions == if tags == [] then None else Some(TagPositions(files.index, tags))
    {
      positions := None;
      for i := 0 to |tags|
        invariant positions == if i == 0 then None else Some(TagPositions(files.index, tags[..i]))
      {
        var front, longer := tags[..i], tags[..i + 1];
        assert longer == front + [tags[i]];
        var found := Elements(Positions(files.index, FileOfTag(tags[i])));
        positions := Some(if positions.None? then found else positions.value * found);
        assert positions.value == TagPositions(files.index, longer);
      }
      assert tags[..|tags|] == tags;
    }

    method GetPositionsForQueryItem(item: QueryItem) returns (positions: set<nat>)
      ensures positions == ItemPositions(files.index, item)
    {
      var byType: Option<set<nat>> := None;
      if item.eventTypes != [] {
        var found := GetPositionsByEventTypes(item.eventTypes);
        byType := Some(Elements(found));
        assert byType.value == TypePositions(files.index, item.eventTypes);
      }
      var byTag := GetPositionsByAllTags(item.tags);
      if byType.Some? && byTag.Some? {
        positions := byType.value * byTag.value;
      } else if byType.Some? {
        positions := byType.value;
      } else if byTag.Some? {
        positions := byTag.value;
      } else {
        positions := {};
      }
    }

    method GetPositionsForQuery(query: Query, start: Option<nat>) returns (positions: seq<nat>)
      requires forall p | p in files.events :: p <= U64_MAX
      ensures positions == Ascending(QueryPositions(files, query, From(start)))
    {
      if query.items == [] {
        positions := GetAllPositions(start);
        return;
      }
      var all: set<nat> := {};
      for i := 0 to |query.items|
        invariant forall p: nat :: p in all <==> exists item | item in query.items[..i] :: p in ItemPositions(files.index, item)
      {
        assert query.items[..i + 1] == query.items[..i] + [query.items[i]];
        var found := GetPositionsForQueryItem(query.items[i]);
        all := all + found;
      }
      assert query.items[..|query.items|] == query.items;
      var result := set p | p in all && From(start) <= p;
      assert result == QueryPositions(files, query, From(start));
      positions := Ascending(result);
    }

    method ReadInternal(query: Query, start: Option<nat>, max: Option<nat>, options: Option<seq<ReadOption>>)
      returns (result: Result<seq<EventRecord>>)
      requires forall p | p in files.events :: p <= U64_MAX
      ensures result == ReadResult(files, query, start, max, IsDescending(options))
    {
      var positions := GetPositionsForQuery(query, start);
      if positions == [] {
        return Ok([]);
      }
      positions := Directed(positions, IsDescending(options));
      if query.items != [] && max.Some? {
        positions := Take(positions, max.value);
      }
      if query.items != [] && |positions| > 10 {
        result := ReadAllFiles(positions);
      } else {
        result := ReadSequentially(query, positions, max);
      }
    }

    /** All reads are started before any outcome is looked at; the first failure wins. */
    method ReadAllFiles(positions: seq<nat>) returns (result: Result<seq<EventRecord>>)
      ensures result == ReadFiles(files.events, positions)
    {
      var outcomes: seq<Option<EventRecord>> := [];
      for i := 0 to |positions|
        invariant |outcomes| == i
        invariant forall k | 0 <= k < i ::
          outcomes[k] == if positions[k] in files.events then Some(files.events[positions[k]]) else None
      {
        outcomes := outcomes + [if positions[i] in files.events then Some(files.events[positions[i]]) else None];
      }
      var records: seq<EventRecord> := [];
      assert positions[0..] == positions;
      PrependNothing(ReadFiles(files.events, positions));
      for i := 0 to |outcomes|
        invariant ReadFiles(files.events, positions) == Prepend(records, ReadFiles(files.events, positions[i..]))
      {
        assert positions[i..][1..] == positions[i + 1..];
        if outcomes[i].None? {
          return Err(NotFound);
        }
        PrependAssociative(records, outcomes[i].value, ReadFiles(files.events, positions[i + 1..]));
        records := records + [outcomes[i].value];
      }
      assert positions[|positions|..] == [] && records + [] == records;
      return Ok(records);
    }

    method ReadSequentially(query: Query, positions: seq<nat>, max: Option<nat>)
      returns (result: Result<seq<EventRecord>>)
      ensures result == ReadMatching(files.events, query, positions, max)
    {
      var records: seq<EventRecord> := [];
      assert positions[0..] == positions;
      PrependNothing(ReadMatching(files.events, query, positions, max));
      for i := 0 to |positions|
        invariant max.Some? && records != [] ==> |records| < max.value
        invariant ReadMatching(files.events, query, positions, max)
               == Prepend(records, ReadMatching(files.events, query, positions[i..], Less(max, |records|)))
      {
        assert positions[i..][1..] == positions[i + 1..];
        if positions[i] !in files.events {
          return Err(NotFound);
        }
        var record := files.events[positions[i]];
        if Matches(query, record) {
          PrependAssociative(records, record,
            ReadMatching(files.events, query, positions[i + 1..], Less(max, |records| + 1)));
          records := records + [record];
          if max.Some? && |records| >= max.value {
            return Ok(records);
          }
        }
      }
      assert positions[|positions|..] == [] && records + [] == records;
      return Ok(records);
    }

    method AddEventToIndices(record: EventRecord)
      modifies this`files
      ensures files == old(files).(index := AddToAll(old(files).index, FilesOf(record.event), record.position))
    {
      var names := FilesOf(record.event);
      for i := 0 to |names|
        invariant files.events == old(files).events
        invariant files.index == AddToAll(old(files).index, names[..i], record.position)
      {
        AddToAllNext(old(files).index, names, i, record.position);
        files := files.(index := AddPosition(files.index, names[i], record.position));
      }
      assert names[..|names|] == names;
    }

    /** Appends a batch as one contiguous block behind the log, unless the condition finds a
        conflict. The position after the batch, which the code computes, must be a `u64`. */
    method Append(batch: seq<EventData>, condition: Option<AppendCondition>, now: nat) returns (result: Result<()>)
      requires Valid() && |log| + |batch| <= U64_MAX
      modifies this
      ensures Valid()
      ensures result.Ok? <==> condition.None? || !Detects(old(files), condition.value)
      ensures result.Ok? ==> log == old(log) + Stamp(batch, |old(log)|, now) && Appended(old(log), batch, now, log)
      ensures result.Err? ==> result.error == AppendConditionFailed && files == old(files) && log == old(log)
    {
      var sequence := NextSequence();
      NextIsLength(files.events, log);
      if condition.Some? {
        var query, after := condition.value.failIfEventsMatch, condition.value.afterSequencePosition;
        var current := ReadInternal(query, after, None, None);
        if current != Ok([]) {
          var error := if current.Err? then current.error else AppendConditionFailed;
          ReadSucceeds(files, log, query, after, None, false);
          return Err(error);
        }
      }
      WriteBatch(batch, sequence, now);
      AppendedIsStamped(old(log), batch, now, log);
      return Ok(());
    }

    /** The event file is written before its index entries. */
    method WriteEvent(record: EventRecord)
      requires Valid() && record.position == |log|
      modifies this
      ensures Valid() && log == old(log) + [record]
    {
      IndexNext(files, log, record);
      files := files.(events := files.events[record.position := record]);
      AddEventToIndices(record);
      log := log + [record];
    }

    method WriteBatch(batch: seq<EventData>, first: nat, now: nat)
      requires Valid() && first == |log| && |log| + |batch| <= U64_MAX
      modifies this
      ensures Valid()
      ensures log == old(log) + Stamp(batch, first, now) && Appended(old(log), batch, now, log)
    {
      var sequence := first;
      for i := 0 to |batch|
        invariant Valid() && sequence == first + i
        invariant log == old(log) + Stamp(batch[..i], first, now)
      {
        WriteEvent(Record(batch[i], sequence, now));
        StampNext(batch, i, first, now);
        sequence := sequence + 1;
      }
      assert batch[..|batch|] == batch;
      AppendedIsStamped(old(log), batch, now, log);
    }

    method Read(query: Query, start: Option<nat>, max: Option<nat>, options: Option<seq<ReadOption>>)
      returns (result: Result<seq<EventRecord>>)
      requires forall p | p in files.events :: p <= U64_MAX
      ensures result == ReadResult(files, query, start, max, IsDescending(options))
    {
      result := ReadInternal(query, start, max, options);
    }

    /** A stored event, and never a failure. With names that do not collide and no vacuous item
        it is the matching event with the largest position, if there is one. */
    method ReadLast(query: Query, ghost v: Vocabulary) returns (last: Result<Option<EventRecord>>)
      requires Valid() && |log| <= U64_MAX + 1
      ensures last.Ok? && (last.value.Some? ==> last.value.value in log)
      ensures AliasFree(v) && CoversLog(v, log) && CoversQuery(v, query) && NonVacuous(query) ==>
        IsNewest(log, query, last.value)
    {
      ReadWithin(files, log, query, None, Some(1), true);
      if AliasFree(v) && CoversLog(v, log) && CoversQuery(v, query) && NonVacuous(query) {
        NewestIsRead(files, log, query, v);
      }
      var events := Read(query, None, Some(1), Some([DESCENDING]));
      if events.value == [] {
        last := Ok(None);
      } else {
        assert events.value[0] in events.value;
        last := Ok(Some(events.value[0]));
      }
    }
  }

  /** Whatever was handed in comes back: reading everything after the old log returns the batch, in
      order, in every field. */
  lemma AppendedIsRead(files: Files, before: seq<EventRecord>, batch: seq<EventData>, now: nat, log: seq<EventRecord>,
                       start: Option<nat>)
    requires Indexed(files, log) && Appended(before, batch, now, log) && From(start) == |before|
    ensures var read := ReadResult(files, ALL, start, None, false);
      && read.Ok? && |read.value| == |batch|
      && forall i | 0 <= i < |batch| :: StoredAs(read.value[i], batch[i], |before| + i, now)
  {
    ReadAfter(files, log, start);
    assert forall i | 0 <= i < |batch| :: log[|before|..][i] == log[|before| + i];
  }

  lemma ReadAfter(files: Files, log: seq<EventRecord>, start: Option<nat>)
    requires Indexed(files, log) && From(start) <= |log|
    ensures ReadResult(files, ALL, start, None, false) == Ok(log[From(start)..])
  {
    ReadOfMatches(files, log, |log|, ALL, start, None, false);
    assert log[..|log|] == log;
    ScanFrom(log, From(start));
  }

  /** Everything from a position on. */
  lemma ScanFrom(log: seq<EventRecord>, n: nat)
    requires n <= |log|
    ensures Scan(log, ALL, n) == log[n..]
  {
    ScanSplit(log, ALL, 0, n);
    ScanAll(log);
    ScanAll(log[..n]);
    assert log == log[..n] + log[n..];
  }

  /** Whether a read descends: if the option is among those given, wherever it stands. */
  lemma DescendingIff(a: seq<ReadOption>, b: seq<ReadOption>, o: ReadOption)
    ensures !IsDescending(None) && !IsDescending(Some([]))
    ensures IsDescending(Some([o])) <==> o.bits == 1
    ensures IsDescending(Some(a + b)) <==> IsDescending(Some(a)) || IsDescending(Some(b))
  {
  }

  lemma NewestIsRead(files: Files, log: seq<EventRecord>, query: Query, v: Vocabulary)
    requires Indexed(files, log)
    requires AliasFree(v) && CoversLog(v, log) && CoversQuery(v, query) && NonVacuous(query)
    ensures var read := ReadResult(files, query, None, Some(1), true);
      read.Ok? && IsNewest(log, query, if read.value == [] then None else Some(read.value[0]))
  {
    ReadRefinesScan(v, files, log, query, None, Some(1), true);
    NewestOfScan(log, query);
  }

  /** The matching event after which none matches; nothing if none matches at all. */
  ghost predicate IsNewest(log: seq<EventRecord>, query: Query, last: Option<EventRecord>) {
    match last
    case None => forall p: nat | p < |log| :: !Matches(query, log[p])
    case Some(r) =>
      r in log && Matches(query, r) && forall p: nat | r.position < p < |log| :: !Matches(query, log[p])
  }

  lemma UnionOfTypes(index: Index, types: seq<string>, all: seq<nat>)
    requires forall p: nat :: p in all <==> exists t | t in types :: p in Positions(index, FileOfType(t))
    ensures Dedup(Sort(all, Itself)) == Ascending(TypePositions(index, types))
  {
    SortDedup(all);
    assert Elements(all) == TypePositions(index, types);
  }

  /** A descending read of one event yields the newest match. */
  lemma NewestOfScan(log: seq<EventRecord>, query: Query)
    requires Numbered(log)
    ensures var newest := Expected(log, query, None, Some(1), true);
      |newest| <= 1 && IsNewest(log, query, if newest == [] then None else Some(newest[0]))
  {
    NewestIsLast(log, query);
    LastFirst(Scan(log, query, 0));
  }

  lemma LastFirst(records: seq<EventRecord>)
    ensures Limit(Ordering(records, true), Some(1)) == if records == [] then [] else [records[|records| - 1]]
  {
  }

  lemma NewestIsLast(log: seq<EventRecord>, query: Query)
    requires Numbered(log)
    ensures var scan := Scan(log, query, 0);
      IsNewest(log, query, if scan == [] then None else Some(scan[|scan| - 1]))
  {
    var scan := Scan(log, query, 0);
    ScanExact(log, query, 0);
    ScanEmpty(log, query, 0);
    if scan != [] {
      var newest := scan[|scan| - 1];
      assert newest in scan;
      forall p: nat | p < |log| && Matches(query, log[p]) ensures p <= newest.position {
        assert log[p] in scan;
        LastIsLargest(scan, log[p]);
      }
    }
  }

  ghost function Prepend(records: seq<EventRecord>, rest: Result<seq<EventRecord>>): Result<seq<EventRecord>> {
    if rest.Err? then rest else Ok(records + rest.value)
  }

  lemma PrependNothing(rest: Result<seq<EventRecord>>)
    ensures Prepend([], rest) == rest
  {
    if rest.Ok? {
      assert [] + rest.value == rest.value;
    }
  }

  lemma PrependAssociative(records: seq<EventRecord>, r: EventRecord, rest: Result<seq<EventRecord>>)
    ensures Prepend(records, Prepend([r], rest)) == Prepend(records + [r], rest)
  {
    if rest.Ok? {
      assert records + ([r] + rest.value) == records + [r] + rest.value;
    }
  }

  ghost function Less(max: Option<nat>, n: nat): Option<nat> {
    if max.Some? && n <= max.value then Some(max.value - n) else max
  }
}
