/** Unlocked reads that unite several position files: exactly when the answer is a snapshot. */
module UnionReads {
  import opened Domain
  import opened FileNames
  import opened Sequences
  import opened Log
  import opened IndexedRead
  import opened DecisionModel

  function FilesOfTypes(types: seq<string>): (files: seq<IndexFile>)
    ensures |files| == |types|
  {
    seq(|types|, i requires 0 <= i < |types| => FileOfType(types[i]))
  }

  /** One item naming all the types. */
  function OneItem(types: seq<string>): Query {
    Query([QueryItem(types, [])])
  }

  /** One item for each type. */
  function ItemPerType(types: seq<string>): (query: Query)
    ensures |query.items| == |types|
  {
    Query(seq(|types|, i requires 0 <= i < |types| => QueryItem([types[i]], [])))
  }

  /** Both queries read the same files and unite them. */
  lemma BothUniteFiles(files: Files, types: seq<string>, p: nat)
    requires types != []
    ensures p in QueryPositions(files, OneItem(types), 0) <==>
            exists i | 0 <= i < |types| :: p in Positions(files.index, FilesOfTypes(types)[i])
    ensures p in QueryPositions(files, ItemPerType(types), 0) <==>
            exists i | 0 <= i < |types| :: p in Positions(files.index, FilesOfTypes(types)[i])
  {
    var all, each := OneItem(types), ItemPerType(types);
    assert all.items[0] in all.items;
    if i :| 0 <= i < |types| && p in Positions(files.index, FilesOfTypes(types)[i]) {
      assert types[i] in types && each.items[i] in each.items;
      assert each.items[i].eventTypes[0] in each.items[i].eventTypes;
      assert p in ItemPositions(files.index, all.items[0]) && p in ItemPositions(files.index, each.items[i]);
    }
    if p in QueryPositions(files, all, 0) {
      var t :| t in types && p in Positions(files.index, FileOfType(t));
      var i :| 0 <= i < |types| && types[i] == t;
      assert FilesOfTypes(types)[i] == FileOfType(t);
    }
    if p in QueryPositions(files, each, 0) {
      var item :| item in each.items && p in ItemPositions(files.index, item);
      var i :| 0 <= i < |types| && each.items[i] == item;
      assert p in Positions(files.index, FilesOfTypes(types)[i]);
    }
  }

  // ----- reading file by file -----

  /** When the files of one item were read, first those of its types, then those of its tags: how
      much of the log each showed then. */
  datatype ItemTimes = ItemTimes(types: seq<nat>, tags: seq<nat>)

  function InTurn(t: ItemTimes): seq<nat> {
    t.types + t.tags
  }

  /** The files are read one after the other, item by item, while the log grows. */
  ghost predicate Times(log: seq<EventRecord>, items: seq<QueryItem>, times: seq<ItemTimes>) {
    && |times| == |items|
    && (forall i | 0 <= i < |items| ::
          |times[i].types| == |items[i].eventTypes| && |times[i].tags| == |items[i].tags|)
    && (forall i, n | 0 <= i < |items| && n in InTurn(times[i]) :: n <= |log|)
    && (forall i, k, l | 0 <= i < |items| && 0 <= k <= l < |InTurn(times[i])| :: InTurn(times[i])[k] <= InTurn(times[i])[l])
    && (forall i, j, m, n | 0 <= i < j < |items| && m in InTurn(times[i]) && n in InTurn(times[j]) :: m <= n)
  }

  /** What the index told about one item: the union over its types' files met with all its tags'. */
  predicate ShownBy(log: seq<EventRecord>, item: QueryItem, t: ItemTimes, p: nat)
    requires |t.types| == |item.eventTypes| && |t.tags| == |item.tags|
  {
    && p < |log| && !Vacuous(item)
    && (item.eventTypes == []
        || exists k | 0 <= k < |t.types| :: p < t.types[k] && FileOfType(item.eventTypes[k]) in FilesOf(log[p].event))
    && (forall k | 0 <= k < |t.tags| :: p < t.tags[k] && FileOfTag(item.tags[k]) in FilesOf(log[p].event))
  }

  ghost function Seen(log: seq<EventRecord>, items: seq<QueryItem>, times: seq<ItemTimes>): set<nat>
    requires Times(log, items, times)
  {
    set i, p: nat | p < |log| && 0 <= i < |items| && ShownBy(log, items[i], times[i], p) :: p
  }

  /** What the index tells at one moment. */
  ghost function SeenAt(log: seq<EventRecord>, items: seq<QueryItem>, n: nat): set<nat>
    requires n <= |log|
  {
    set item, p: nat | p < n && item in items && Hits(FilesOf(log[p].event), item) :: p
  }

  ghost predicate IsSnapshot(log: seq<EventRecord>, items: seq<QueryItem>, seen: set<nat>) {
    exists n: nat :: n <= |log| && seen == SeenAt(log, items, n)
  }

  ghost predicate AlwaysSnapshot(items: seq<QueryItem>) {
    forall log, times | Times(log, items, times) :: IsSnapshot(log, items, Seen(log, items, times))
  }

  /** Read at one moment, the query resolves to just that. */
  lemma ResolvedAtOnce(files: Files, log: seq<EventRecord>, query: Query, n: nat)
    requires n <= |log| && query.items != []
    requires forall f, p :: p in Positions(files.index, f) <==> p in Below(log, f, n)
    ensures QueryPositions(files, query, 0) == SeenAt(log, query.items, n)
  {
    forall p ensures p in QueryPositions(files, query, 0) <==> p in SeenAt(log, query.items, n) {
      if p in QueryPositions(files, query, 0) {
        var item :| item in query.items && p in ItemPositions(files.index, item);
        IndexedPositionsHit(files.index, log[..n], item, p);
      }
      if p in SeenAt(log, query.items, n) {
        var item :| item in query.items && Hits(FilesOf(log[p].event), item);
        HitsAreIndexed(files.index, log, n, item, p);
      }
    }
  }

  /** Read while nothing is appended, what the items show is what the index tells then. */
  lemma ShownAtOnce(log: seq<EventRecord>, items: seq<QueryItem>, times: seq<ItemTimes>, n: nat)
    requires Times(log, items, times) && n <= |log|
    requires forall i, m | 0 <= i < |items| && m in InTurn(times[i]) :: m == n
    ensures Seen(log, items, times) == SeenAt(log, items, n)
  {
    forall p: nat ensures p in Seen(log, items, times) <==> p in SeenAt(log, items, n) {
      forall i: nat | i < |items| && p < |log|
        ensures ShownBy(log, items[i], times[i], p) <==> p < n && Hits(FilesOf(log[p].event), items[i])
      {
        AllAt(times[i], n) by {
          assert forall m | m in InTurn(times[i]) :: m == n;
        }
        ShownByOnce(log, items[i], times[i], p, n);
      }
      if p in SeenAt(log, items, n) {
        var item :| item in items && Hits(FilesOf(log[p].event), item);
        var i: nat :| i < |items| && items[i] == item;
        assert ShownBy(log, items[i], times[i], p);
      }
      if p in Seen(log, items, times) {
        var i: nat :| i < |items| && ShownBy(log, items[i], times[i], p);
        assert items[i] in items;
      }
    }
  }

  lemma AllAt(t: ItemTimes, n: nat)
    requires forall m | m in InTurn(t) :: m == n
    ensures (forall k | 0 <= k < |t.types| :: t.types[k] == n) && (forall k | 0 <= k < |t.tags| :: t.tags[k] == n)
  {
    assert forall k | 0 <= k < |t.types| :: InTurn(t)[k] == t.types[k] && t.types[k] in InTurn(t);
    assert forall k | 0 <= k < |t.tags| :: InTurn(t)[|t.types| + k] == t.tags[k] && t.tags[k] in InTurn(t);
  }

  lemma ShownByOnce(log: seq<EventRecord>, item: QueryItem, t: ItemTimes, p: nat, n: nat)
    requires |t.types| == |item.eventTypes| && |t.tags| == |item.tags| && p < |log|
    requires (forall k | 0 <= k < |t.types| :: t.types[k] == n) && (forall k | 0 <= k < |t.tags| :: t.tags[k] == n)
    ensures ShownBy(log, item, t, p) <==> p < n && Hits(FilesOf(log[p].event), item)
  {
    var files := FilesOf(log[p].event);
    if p < n && Hits(files, item) {
      if item.eventTypes != [] {
        var u :| u in item.eventTypes && FileOfType(u) in files;
        var k :| 0 <= k < |item.eventTypes| && item.eventTypes[k] == u;
        assert p < t.types[k];
      }
      assert forall k | 0 <= k < |t.tags| :: item.tags[k] in item.tags;
    }
    if ShownBy(log, item, t, p) {
      assert forall k | 0 <= k < |t.types| :: item.eventTypes[k] in item.eventTypes;
      forall u | u in item.tags ensures p < n && FileOfTag(u) in files {
        var k :| 0 <= k < |item.tags| && item.tags[k] == u;
        assert p < t.tags[k];
      }
    }
  }

  // ----- one way of answering an item -----

  /** A type if the item names any, and all its tags. */
  datatype Part = Part(eventType: Option<string>, tags: seq<Tag>)

  predicate PartOf(part: Part, item: QueryItem) {
    && part.tags == item.tags
    && (if part.eventType.Some? then part.eventType.value in item.eventTypes else item.eventTypes == [])
  }

  predicate InPart(file: IndexFile, part: Part) {
    || (part.eventType.Some? && file == FileOfType(part.eventType.value))
    || exists t | t in part.tags :: file == FileOfTag(t)
  }

  /** The last part read: the last item with its last type. */
  function LastPart(items: seq<QueryItem>): Part
    requires items != []
  {
    var item := items[|items| - 1];
    Part(if item.eventTypes == [] then None else Some(item.eventTypes[|item.eventTypes| - 1]), item.tags)
  }

  /** Whatever answers some part answers the last one too. */
  ghost predicate LastSubsumes(items: seq<QueryItem>)
    requires items != []
  {
    forall item, part, file | item in items && PartOf(part, item) && InPart(file, LastPart(items)) :: InPart(file, part)
  }

  ghost predicate HitsPart(event: DomainEvent, part: Part) {
    forall file | InPart(file, part) :: file in FilesOf(event)
  }

  lemma HitsSomePart(event: DomainEvent, item: QueryItem) returns (part: Part)
    requires Hits(FilesOf(event), item)
    ensures PartOf(part, item) && HitsPart(event, part)
  {
    if item.eventTypes == [] {
      part := Part(None, item.tags);
    } else {
      var t :| t in item.eventTypes && FileOfType(t) in FilesOf(event);
      part := Part(Some(t), item.tags);
    }
  }

  lemma PartHits(event: DomainEvent, part: Part, item: QueryItem)
    requires PartOf(part, item) && HitsPart(event, part) && !Vacuous(item)
    ensures Hits(FilesOf(event), item)
  {
    forall t | t in item.tags ensures FileOfTag(t) in FilesOf(event) {
      assert InPart(FileOfTag(t), part);
    }
    if part.eventType.Some? {
      assert InPart(FileOfType(part.eventType.value), part);
    }
  }

  // ----- the last part decides -----

  /** How far the first file of the last part was shown; the others were read later. */
  function Deciding(items: seq<QueryItem>, times: seq<ItemTimes>): nat
    requires items != [] && |times| == |items| && !Vacuous(items[|items| - 1])
    requires |times[|items| - 1].types| == |items[|items| - 1].eventTypes|
    requires |times[|items| - 1].tags| == |items[|items| - 1].tags|
  {
    var t := times[|items| - 1];
    if t.types != [] then t.types[|t.types| - 1] else t.tags[0]
  }

  /** Whatever an item showed was shown before the last part was read. */
  lemma ShownBefore(log: seq<EventRecord>, items: seq<QueryItem>, times: seq<ItemTimes>, i: nat, p: nat)
    requires items != [] && !Vacuous(items[|items| - 1]) && Times(log, items, times)
    requires i < |items| && ShownBy(log, items[i], times[i], p)
    ensures p < Deciding(items, times) && Hits(FilesOf(log[p].event), items[i])
  {
    var item, t, last := items[i], times[i], |items| - 1;
    assert InTurn(times[last])[if times[last].types != [] then |times[last].types| - 1 else 0] == Deciding(items, times);
    assert Deciding(items, times) in InTurn(times[last]);
    if item.eventTypes != [] {
      var k :| 0 <= k < |t.types| && p < t.types[k] && FileOfType(item.eventTypes[k]) in FilesOf(log[p].event);
      assert InTurn(t)[k] == t.types[k] && t.types[k] in InTurn(t) && item.eventTypes[k] in item.eventTypes;
    } else {
      assert InTurn(t)[0] == t.tags[0] && t.tags[0] in InTurn(t);
    }
    forall u | u in item.tags ensures FileOfTag(u) in FilesOf(log[p].event) {
      var k :| 0 <= k < |item.tags| && item.tags[k] == u;
      assert p < t.tags[k];
    }
  }

  /** Whatever answers the last part and was there when it was read is shown. */
  lemma LastShows(log: seq<EventRecord>, items: seq<QueryItem>, times: seq<ItemTimes>, p: nat)
    requires items != [] && !Vacuous(items[|items| - 1]) && Times(log, items, times)
    requires p < Deciding(items, times) && p < |log| && HitsPart(log[p].event, LastPart(items))
    ensures ShownBy(log, items[|items| - 1], times[|items| - 1], p)
  {
    var last := |items| - 1;
    var item, t := items[last], times[last];
    forall k | 0 <= k < |t.tags| ensures p < t.tags[k] && FileOfTag(item.tags[k]) in FilesOf(log[p].event) {
      assert item.tags[k] in item.tags && InPart(FileOfTag(item.tags[k]), LastPart(items));
      assert InTurn(t)[|t.types| + k] == t.tags[k];
      assert InTurn(t)[if t.types != [] then |t.types| - 1 else 0] == Deciding(items, times);
    }
    if item.eventTypes != [] {
      assert InPart(FileOfType(item.eventTypes[|t.types| - 1]), LastPart(items));
    }
  }

  lemma SubsumingIsSnapshot(log: seq<EventRecord>, items: seq<QueryItem>, times: seq<ItemTimes>)
    requires items != [] && (forall item | item in items :: !Vacuous(item)) && LastSubsumes(items)
    requires Times(log, items, times)
    ensures IsSnapshot(log, items, Seen(log, items, times))
  {
    var n := Deciding(items, times);
    DecidingWithin(log, items, times);
    forall p ensures p in Seen(log, items, times) <==> p in SeenAt(log, items, n) {
      if p in Seen(log, items, times) {
        var i :| 0 <= i < |items| && ShownBy(log, items[i], times[i], p);
        ShownBefore(log, items, times, i, p);
        assert items[i] in items;
      }
      if p in SeenAt(log, items, n) {
        var item :| item in items && Hits(FilesOf(log[p].event), item);
        var part := HitsSomePart(log[p].event, item);
        LastShows(log, items, times, p);
      }
    }
    assert Seen(log, items, times) == SeenAt(log, items, n);
  }

  lemma DecidingWithin(log: seq<EventRecord>, items: seq<QueryItem>, times: seq<ItemTimes>)
    requires items != [] && !Vacuous(items[|items| - 1]) && Times(log, items, times)
    ensures Deciding(items, times) <= |log|
  {
    var t := times[|items| - 1];
    assert InTurn(t)[if t.types != [] then |t.types| - 1 else 0] == Deciding(items, times);
    assert Deciding(items, times) in InTurn(t);
  }

  // ----- and nothing else does -----

  function AllZero(n: nat): seq<nat> {
    seq(n, i => 0)
  }

  function Early(item: QueryItem): (t: ItemTimes)
    ensures |t.types| == |item.eventTypes| && |t.tags| == |item.tags|
  {
    ItemTimes(AllZero(|item.eventTypes|), AllZero(|item.tags|))
  }

  /** Everything is read early but the last part, which is read late. */
  function LateLast(items: seq<QueryItem>): (times: seq<ItemTimes>)
    requires items != []
    ensures |times| == |items|
  {
    var last := items[|items| - 1];
    seq(|items| - 1, i requires 0 <= i < |items| - 1 => Early(items[i]))
    + [ItemTimes(if last.eventTypes == [] then [] else AllZero(|last.eventTypes| - 1) + [2], seq(|last.tags|, i => 2))]
  }

  function EventOf(t: string, position: nat): EventRecord {
    EventRecord(position, "", DomainEvent(t, "", []), None, 0)
  }

  /** An event in exactly the files of a part, but for a type of its own if the part has none. */
  function Answering(part: Part, own: string, position: nat): EventRecord {
    EventRecord(position, "", DomainEvent(if part.eventType.Some? then part.eventType.value else own, "", part.tags), None, 0)
  }

  lemma AnsweringFiles(part: Part, own: string, position: nat)
    ensures HitsPart(Answering(part, own, position).event, part)
    ensures forall f | f in FilesOf(Answering(part, own, position).event) :: InPart(f, part) || f == FileOfType(own)
  {
    var event := Answering(part, own, position).event;
    forall f ensures f in FilesOf(event) <==> f == FileOfType(event.eventType) || exists t :: t in event.tags && f == FileOfTag(t) {
      FilesOfMembers(event, f);
    }
  }

  /** A type whose file is in no given part. */
  function OwnType(part: Part): string {
    seq(if part.eventType.Some? then |part.eventType.value| + 1 else 0, i => 'x')
  }

  lemma OwnTypeIsForeign(part: Part)
    ensures !InPart(FileOfType(OwnType(part)), part)
  {
    if part.eventType.Some? {
      assert |Sanitize(OwnType(part))| == |OwnType(part)| && |Sanitize(part.eventType.value)| == |part.eventType.value|;
    }
  }

  lemma LateLastIsTimes(log: seq<EventRecord>, items: seq<QueryItem>)
    requires items != [] && |log| == 2
    ensures Times(log, items, LateLast(items))
  {
    var times := LateLast(items);
    forall i, n | 0 <= i < |items| && n in InTurn(times[i]) ensures n == 0 || (n == 2 && i == |items| - 1) {
      var k :| 0 <= k < |InTurn(times[i])| && InTurn(times[i])[k] == n;
    }
  }

  /** Of two events, one that misses a file of the last part and one that answers it, only the
      second is seen. */
  lemma OnlyLastSeen(log: seq<EventRecord>, items: seq<QueryItem>, file: IndexFile)
    requires items != [] && (forall item | item in items :: !Vacuous(item)) && |log| == 2
    requires InPart(file, LastPart(items)) && file !in FilesOf(log[0].event) && HitsPart(log[1].event, LastPart(items))
    ensures Times(log, items, LateLast(items)) && Seen(log, items, LateLast(items)) == {1}
  {
    var times, last := LateLast(items), |items| - 1;
    LateLastIsTimes(log, items);
    assert items[last] in items;
    LastShows(log, items, times, 1);
    forall i | 0 <= i < |items| ensures !ShownBy(log, items[i], times[i], 0) {
      assert items[i] in items;
      if i == last {
        NotShownByLast(log, items, file);
      } else {
        assert times[i] == Early(items[i]);
        EarlyShowsNothing(log, items[i]);
      }
    }
    OnlyOne(log, items, times);
  }

  lemma EarlyShowsNothing(log: seq<EventRecord>, item: QueryItem)
    requires !Vacuous(item)
    ensures !ShownBy(log, item, Early(item), 0)
  {
    assert item.eventTypes == [] ==> Early(item).tags[0] == 0;
  }

  lemma OnlyOne(log: seq<EventRecord>, items: seq<QueryItem>, times: seq<ItemTimes>)
    requires items != [] && |log| == 2 && Times(log, items, times)
    requires ShownBy(log, items[|items| - 1], times[|items| - 1], 1)
    requires forall i | 0 <= i < |items| :: !ShownBy(log, items[i], times[i], 0)
    ensures Seen(log, items, times) == {1}
  {
  }

  lemma NotShownByLast(log: seq<EventRecord>, items: seq<QueryItem>, file: IndexFile)
    requires items != [] && |log| == 2 && !Vacuous(items[|items| - 1])
    requires InPart(file, LastPart(items)) && file !in FilesOf(log[0].event)
    ensures LateLastFits(items) && !ShownBy(log, items[|items| - 1], LateLast(items)[|items| - 1], 0)
  {
    var item, t := items[|items| - 1], LateLast(items)[|items| - 1];
    if u :| u in item.tags && file == FileOfTag(u) {
      var k :| 0 <= k < |item.tags| && item.tags[k] == u;
      assert FileOfTag(item.tags[k]) !in FilesOf(log[0].event);
    } else {
      assert file == FileOfType(item.eventTypes[|item.eventTypes| - 1]);
    }
  }

  predicate LateLastFits(items: seq<QueryItem>)
    requires items != []
  {
    var item, t := items[|items| - 1], LateLast(items)[|items| - 1];
    |t.types| == |item.eventTypes| && |t.tags| == |item.tags|
  }

  lemma UnsubsumedIsNone(items: seq<QueryItem>, item: QueryItem, part: Part, file: IndexFile)
    requires items != [] && (forall other | other in items :: !Vacuous(other))
    requires item in items && PartOf(part, item) && InPart(file, LastPart(items)) && !InPart(file, part)
    ensures !AlwaysSnapshot(items)
  {
    var own := OwnType(LastPart(items));
    var log := [Answering(part, own, 0), Answering(LastPart(items), own, 1)];
    OwnTypeIsForeign(LastPart(items));
    AnsweringFiles(part, own, 0);
    AnsweringFiles(LastPart(items), own, 1);
    OnlyLastSeen(log, items, file);
    PartHits(log[0].event, part, item);
    forall n: nat | n <= |log| ensures SeenAt(log, items, n) != {1} {
      assert n > 0 ==> 0 in SeenAt(log, items, n);
    }
    assert !IsSnapshot(log, items, Seen(log, items, LateLast(items)));
  }

  /** Exactly when an unlocked read is a snapshot, whatever is appended between its file reads: if
      and only if all files of the last part read, the last item with its last type, are among
      the files of every other part. */
  lemma AlwaysSnapshotIffLastSubsumes(items: seq<QueryItem>)
    requires items != [] && forall item | item in items :: !Vacuous(item)
    ensures AlwaysSnapshot(items) <==> LastSubsumes(items)
  {
    if LastSubsumes(items) {
      forall log, times | Times(log, items, times) ensures IsSnapshot(log, items, Seen(log, items, times)) {
        SubsumingIsSnapshot(log, items, times);
      }
    } else {
      var item, part, file :| item in items && PartOf(part, item) && InPart(file, LastPart(items)) && !InPart(file, part);
      UnsubsumedIsNone(items, item, part, file);
    }
  }

  /** For a single item, tags or none: if and only if all of its types share one file. So an item
      with at most one type is always answered by a snapshot. */
  lemma AlwaysSnapshotIffOneFile(item: QueryItem)
    requires !Vacuous(item)
    ensures AlwaysSnapshot([item]) <==>
            forall s, t | s in item.eventTypes && t in item.eventTypes :: FileOfType(s) == FileOfType(t)
  {
    AlwaysSnapshotIffLastSubsumes([item]);
    if item.eventTypes != [] {
      var last := item.eventTypes[|item.eventTypes| - 1];
      assert LastPart([item]) == Part(Some(last), item.tags);
      assert InPart(FileOfType(last), LastPart([item]));
      if LastSubsumes([item]) {
        forall t | t in item.eventTypes ensures FileOfType(t) == FileOfType(last) {
          assert PartOf(Part(Some(t), item.tags), item) && item in [item];
          assert InPart(FileOfType(last), Part(Some(t), item.tags));
        }
      }
    }
  }

  /** What the reader of two types is told, in one item or in two, if an event of each was appended
      between its file reads: the later event without the earlier one, which no moment's log
      answers; and a condition built on that does not notice. */
  lemma UnionReadIsNoSnapshot(t: string, u: string, query: Query)
    requires FileOfType(t) != FileOfType(u) && (query == OneItem([t, u]) || query == ItemPerType([t, u]))
    ensures var log := [EventOf(t, 0), EventOf(u, 1)];
      && Times(log, query.items, LateLast(query.items))
      && Collect(map[0 := log[0], 1 := log[1]], query, Ascending(Seen(log, query.items, LateLast(query.items))), None)
      == Ok([log[1]])
      && Scan(log, query, 0) == log
      && (forall n: nat | n <= 2 :: Scan(log[..n], query, 0) != [log[1]])
      && Scan(log, query, From(LastPosition([log[1]]))) == []
  {
    var a, b := EventOf(t, 0), EventOf(u, 1);
    OnlySecondSeen(t, u, query.items);
    TypeMatches([t, u], 0, a, query);
    TypeMatches([t, u], 1, b, query);
    TwoEvents(a, b, query);
    OnlyThisRead(map[0 := a, 1 := b], query, b);
  }

  lemma OnlySecondSeen(t: string, u: string, items: seq<QueryItem>)
    requires FileOfType(t) != FileOfType(u) && items != [] && LastPart(items) == Part(Some(u), [])
    requires forall item | item in items :: !Vacuous(item)
    ensures var log := [EventOf(t, 0), EventOf(u, 1)];
      Times(log, items, LateLast(items)) && Seen(log, items, LateLast(items)) == {1}
  {
    var a, b := EventOf(t, 0), EventOf(u, 1);
    assert FilesOf(a.event) == [FileOfType(t)] && FilesOf(b.event) == [FileOfType(u)];
    OnlyLastSeen([a, b], items, FileOfType(u));
  }

  lemma TypeMatches(types: seq<string>, i: nat, r: EventRecord, query: Query)
    requires i < |types| && r.event.eventType == types[i] && (query == OneItem(types) || query == ItemPerType(types))
    ensures Matches(query, r)
  {
    var k := if query == OneItem(types) then 0 else i;
    assert query.items[k] in query.items && types[i] in types;
    assert MatchesItem(query.items[k], r.event);
  }

  lemma OnlyThisRead(events: map<nat, EventRecord>, query: Query, r: EventRecord)
    requires r.position in events && events[r.position] == r && Matches(query, r)
    ensures Collect(events, query, Ascending({r.position}), None) == Ok([r])
  {
    var ps := Ascending({r.position});
    assert |ps| == 1 && ps[0] in ps;
    assert ps == [r.position] && ps[1..] == [];
    assert ReadMatching(events, query, [], None) == Ok([]);
    assert [r] + [] == [r];
    assert ReadMatching(events, query, ps, None) == Ok([r]);
  }

  lemma TwoEvents(a: EventRecord, b: EventRecord, query: Query)
    requires a.position == 0 && b.position == 1 && Matches(query, a) && Matches(query, b)
    ensures Scan([a, b], query, 0) == [a, b] && a != b
    ensures forall n: nat | n <= 2 :: Scan([a, b][..n], query, 0) != [b]
    ensures Scan([a, b], query, From(LastPosition([b]))) == []
  {
    var log := [a, b];
    assert log[..2] == log && log[..1] == [a] && log[..0] == [];
    ScanOfOne(a, query);
    assert Scan(log, query, 0) == [a] + [b];
    assert Scan([], query, 0) == [] && [a] != [b] by { assert [a][0] != [b][0]; }
    forall n: nat | n <= 2 ensures Scan(log[..n], query, 0) != [b] {
      assert n == 0 || n == 1 || n == 2;
    }
    ScanNothing(log, query, 2);
  }
}
