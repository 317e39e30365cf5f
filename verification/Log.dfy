/** The event log, its linear scan, and the files (event files and index files) that store it. */
module Log {
  import opened Domain
  import opened FileNames
  import opened Sequences

  datatype Files = Files(events: map<nat, EventRecord>, index: map<IndexFile, seq<nat>>)

  const EMPTY := Files(map[], map[])

  /** The content of an index file; a missing file reads as no positions. */
  function Positions(index: map<IndexFile, seq<nat>>, file: IndexFile): seq<nat> {
    if file in index then index[file] else []
  }

  /** What the directory scan of an append computes: one past the largest position. */
  function NextPosition(events: map<nat, EventRecord>): nat {
    if events.Keys == {} then 0 else Max(events.Keys) + 1
  }

  /** The largest of some positions. */
  method Largest(parsed: seq<nat>) returns (max: Option<nat>)
    ensures max.None? <==> parsed == []
    ensures max.Some? ==> max.value in parsed && forall p | p in parsed :: p <= max.value
  {
    max := None;
    for i := 0 to |parsed|
      invariant max.None? <==> i == 0
      invariant max.Some? ==> max.value in parsed && forall k | 0 <= k < i :: parsed[k] <= max.value
    {
      if max.None? || max.value < parsed[i] {
        max := Some(parsed[i]);
      }
    }
  }

  lemma LargestParsed(events: map<nat, EventRecord>, parsed: seq<nat>, max: Option<nat>)
    requires forall p: nat :: p in parsed <==> p in events
    requires max.None? <==> parsed == []
    requires max.Some? ==> max.value in parsed && forall p | p in parsed :: p <= max.value
    ensures NextPosition(events) == if max.Some? then max.value + 1 else 0
  {
    if max.Some? {
      assert max.value in events.Keys;
      assert Max(events.Keys) in parsed;
    } else {
      assert forall p: nat {:trigger p in events.Keys} :: p !in events.Keys;
    }
  }

  /** The event files are exactly the log: positions 0, 1, ..., n-1. */
  ghost predicate StoresLog(events: map<nat, EventRecord>, log: seq<EventRecord>) {
    && (forall p: nat :: p in events <==> p < |log|)
    && (forall p: nat | p < |log| :: events[p] == log[p] && log[p].position == p)
  }

  lemma NextIsLength(events: map<nat, EventRecord>, log: seq<EventRecord>)
    requires StoresLog(events, log)
    ensures NextPosition(events) == |log|
  {
    if |log| > 0 {
      assert |log| - 1 in events;
    }
  }

  lemma StoreNext(events: map<nat, EventRecord>, log: seq<EventRecord>, r: EventRecord)
    requires StoresLog(events, log) && r.position == |log|
    ensures r.position !in events
    ensures StoresLog(events[r.position := r], log + [r])
  {
  }

  lemma StampNext(batch: seq<EventData>, i: nat, first: nat, now: nat)
    requires i < |batch|
    ensures Stamp(batch[..i + 1], first, now) == Stamp(batch[..i], first, now) + [Record(batch[i], first + i, now)]
  {
  }

  lemma LongerByOne(log: seq<EventRecord>, batch: seq<EventData>, i: nat, now: nat)
    requires i < |batch|
    ensures |log + Stamp(batch[..i], |log|, now)| == |log| + i
    ensures log + Stamp(batch[..i + 1], |log|, now)
         == log + Stamp(batch[..i], |log|, now) + [Record(batch[i], |log| + i, now)]
  {
    StampNext(batch, i, |log|, now);
  }

  // ----- index agreement -----

  ghost predicate Ordered(index: map<IndexFile, seq<nat>>) {
    forall f | f in index :: Increasing(index[f])
  }

  predicate Belongs(log: seq<EventRecord>, file: IndexFile, p: nat) {
    p < |log| && file in FilesOf(log[p].event)
  }

  /** Every indexed position has an event that belongs in that file. */
  ghost predicate Truthful(index: map<IndexFile, seq<nat>>, log: seq<EventRecord>) {
    forall f, p | p in Positions(index, f) :: Belongs(log, f, p)
  }

  /** The events below `n` are in all of their files. */
  ghost predicate Complete(index: map<IndexFile, seq<nat>>, log: seq<EventRecord>, n: nat)
    requires n <= |log|
  {
    forall p: nat, f | p < n && f in FilesOf(log[p].event) :: p in Positions(index, f)
  }

  /** Agreement but for entries that may still be missing. */
  ghost predicate FilesOk(files: Files, log: seq<EventRecord>) {
    StoresLog(files.events, log) && Ordered(files.index) && Truthful(files.index, log)
  }

  ghost predicate Indexed(files: Files, log: seq<EventRecord>) {
    FilesOk(files, log) && Complete(files.index, log, |log|)
  }

  /** The positions below `n` whose event belongs in `file`. */
  ghost function Below(log: seq<EventRecord>, file: IndexFile, n: nat): set<nat>
    requires n <= |log|
  {
    set p: nat | p < n && file in FilesOf(log[p].event)
  }

  // ----- linear scan -----

  /** All matching events at position `lo` or later, in log order. */
  function Scan(log: seq<EventRecord>, query: Query, lo: nat): seq<EventRecord> {
    if log == [] then []
    else
      var last := |log| - 1;
      Scan(log[..last], query, lo) + (if lo <= last && Matches(query, log[last]) then [log[last]] else [])
  }

  /** The events a query keeps, in the given order. */
  function Filter(events: seq<EventRecord>, query: Query): seq<EventRecord> {
    if events == [] then []
    else (if Matches(query, events[0]) then [events[0]] else []) + Filter(events[1..], query)
  }

  lemma {:induction false} FilterSnoc(events: seq<EventRecord>, e: EventRecord, query: Query)
    ensures Filter(events + [e], query) == Filter(events, query) + (if Matches(query, e) then [e] else [])
  {
    if events != [] {
      FilterSnoc(events[1..], e, query);
      assert (events + [e])[1..] == events[1..] + [e];
    }
  }

  lemma {:induction false} FilterMembers(events: seq<EventRecord>, query: Query)
    ensures forall e :: e in Filter(events, query) <==> e in events && Matches(query, e)
  {
    if events != [] { FilterMembers(events[1..], query); }
  }

  lemma FilterCons(first: EventRecord, rest: seq<EventRecord>, query: Query)
    ensures Filter([first] + rest, query) == (if Matches(query, first) then [first] else []) + Filter(rest, query)
  {
    assert ([first] + rest)[1..] == rest;
  }

  function Ordering(records: seq<EventRecord>, descending: bool): seq<EventRecord> {
    if descending then Reverse(records) else records
  }

  function Limit<T>(s: seq<T>, max: Option<nat>): seq<T> {
    if max.Some? then Take(s, max.value) else s
  }

  /** The simple meaning of a read: scan, order, limit. */
  function Expected(log: seq<EventRecord>, query: Query, start: Option<nat>, max: Option<nat>, descending: bool)
    : seq<EventRecord>
  {
    Limit(Ordering(Scan(log, query, From(start)), descending), max)
  }

  ghost predicate Numbered(log: seq<EventRecord>) {
    forall p: nat | p < |log| :: log[p].position == p
  }

  /** A scan returns exactly the matching records, each once, by ascending position. */
  lemma {:induction false} ScanExact(log: seq<EventRecord>, query: Query, lo: nat)
    requires Numbered(log)
    ensures forall r :: r in Scan(log, query, lo) <==>
              lo <= r.position < |log| && log[r.position] == r && Matches(query, r)
    ensures ByPosition(Scan(log, query, lo))
  {
    if log != [] {
      ScanExact(log[..|log| - 1], query, lo);
    }
  }

  /** Events by ascending position, each once. */
  ghost predicate ByPosition(records: seq<EventRecord>) {
    forall i, j | 0 <= i < j < |records| :: records[i].position < records[j].position
  }

  lemma LastIsLargest(events: seq<EventRecord>, r: EventRecord)
    requires ByPosition(events) && r in events
    ensures r.position <= events[|events| - 1].position
  {
  }

  /** Whether the scan is empty. */
  lemma ScanEmpty(log: seq<EventRecord>, query: Query, lo: nat)
    requires Numbered(log)
    ensures Scan(log, query, lo) == [] <==> forall p: nat | lo <= p < |log| :: !Matches(query, log[p])
  {
    ScanExact(log, query, lo);
    forall p: nat | lo <= p < |log| && Matches(query, log[p]) ensures Scan(log, query, lo) != [] {
      assert log[p] in Scan(log, query, lo);
    }
    if Scan(log, query, lo) != [] {
      assert Scan(log, query, lo)[0] in Scan(log, query, lo);
    }
  }

  /** Events that do not match can be cut off the end. */
  lemma {:induction false} ScanPrefix(log: seq<EventRecord>, query: Query, lo: nat, n: nat)
    requires n <= |log| && forall p | n <= p < |log| && lo <= p :: !Matches(query, log[p])
    ensures Scan(log, query, lo) == Scan(log[..n], query, lo)
  {
    if n < |log| {
      var front := log[..|log| - 1];
      ScanPrefix(front, query, lo, n);
      assert front[..n] == log[..n];
    } else {
      assert log[..n] == log;
    }
  }

  /** Scanning in two pieces. */
  lemma {:induction false} ScanSplit(log: seq<EventRecord>, query: Query, lo: nat, n: nat)
    requires lo <= n <= |log|
    ensures Scan(log, query, lo) == Scan(log[..n], query, lo) + Scan(log, query, n)
  {
    if n == |log| {
      assert log[..n] == log;
      ScanNothing(log, query, n);
    } else {
      var front := log[..|log| - 1];
      ScanSplit(front, query, lo, n);
      assert front[..n] == log[..n];
    }
  }

  lemma {:induction false} ScanNothing(log: seq<EventRecord>, query: Query, lo: nat)
    requires |log| <= lo
    ensures Scan(log, query, lo) == []
  {
    if log != [] { ScanNothing(log[..|log| - 1], query, lo); }
  }

  lemma {:induction false} ScanAll(log: seq<EventRecord>)
    ensures Scan(log, ALL, 0) == log
  {
    if log != [] {
      ScanAll(log[..|log| - 1]);
      assert log == log[..|log| - 1] + [log[|log| - 1]];
    }
  }

  // ----- from position sets to records -----

  function Records(log: seq<EventRecord>, ps: seq<nat>): (r: seq<EventRecord>)
    requires forall p | p in ps :: p < |log|
    ensures |r| == |ps|
  {
    seq(|ps|, i requires 0 <= i < |ps| => assert ps[i] in ps; log[ps[i]])
  }

  /** Reading the matching positions in ascending order is the scan. */
  lemma {:induction false} RecordsAreScan(log: seq<EventRecord>, query: Query, lo: nat, ps: seq<nat>)
    requires Increasing(ps)
    requires forall p: nat :: p in ps <==> lo <= p < |log| && Matches(query, log[p])
    ensures Records(log, ps) == Scan(log, query, lo)
  {
    assert ps != [] ==> ps[0] in ps;
    if log != [] {
      var last := |log| - 1;
      if lo <= last && Matches(query, log[last]) {
        var rest := SplitLast(ps, last);
        RecordsAreScan(log[..last], query, lo, rest);
        RecordsOfPrefix(log, last, rest);
        assert Records(log, ps) == Records(log, rest) + [log[last]];
      } else {
        RecordsAreScan(log[..last], query, lo, ps);
        RecordsOfPrefix(log, last, ps);
      }
    }
  }

  lemma RecordsOfPrefix(log: seq<EventRecord>, n: nat, ps: seq<nat>)
    requires n <= |log| && forall p | p in ps :: p < n
    ensures Records(log, ps) == Records(log[..n], ps)
  {
    assert forall i | 0 <= i < |ps| :: ps[i] in ps;
  }

  lemma SplitLast(ps: seq<nat>, m: nat) returns (rest: seq<nat>)
    requires Increasing(ps) && m in ps && forall p | p in ps :: p <= m
    ensures ps == rest + [m] && Increasing(rest)
    ensures forall p: nat :: p in rest <==> p in ps && p != m
  {
    assert ps[|ps| - 1] in ps;
    rest := ps[..|ps| - 1];
    assert ps == rest + [m];
  }
}
