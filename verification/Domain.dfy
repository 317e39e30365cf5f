/** The event, query and append-condition types, and the matching rule that every
    faster path is measured against. */
module Domain {
  datatype Option<+T> = None | Some(value: T)

  datatype Error = IoError | NotFound | AppendConditionFailed | ArgumentError

  datatype Result<+T> = Ok(value: T) | Err(error: Error)

  datatype Tag = Tag(key: string, value: string)

  datatype DomainEvent = DomainEvent(eventType: string, data: string, tags: seq<Tag>)

  datatype EventData = EventData(eventId: string, event: DomainEvent, metadata: Option<string>)

  datatype EventRecord = EventRecord(
    position: nat, eventId: string, event: DomainEvent, metadata: Option<string>, timestamp: nat)

  datatype QueryItem = QueryItem(eventTypes: seq<string>, tags: seq<Tag>)

  /** No items means "everything". */
  datatype Query = Query(items: seq<QueryItem>)

  datatype AppendCondition = AppendCondition(failIfEventsMatch: Query, afterSequencePosition: Option<nat>)

  const ALL := Query([])

  predicate MatchesItem(item: QueryItem, event: DomainEvent) {
    && (item.eventTypes == [] || event.eventType in item.eventTypes)
    && (forall t | t in item.tags :: t in event.tags)
  }

  predicate Matches(query: Query, record: EventRecord) {
    query.items == [] || exists item | item in query.items :: MatchesItem(item, record.event)
  }

  /** An item that names neither a type nor a tag. */
  predicate Vacuous(item: QueryItem) {
    item.eventTypes == [] && item.tags == []
  }

  predicate NonVacuous(query: Query) {
    forall item | item in query.items :: !Vacuous(item)
  }

  /** The record that stores one event of a batch. */
  function Record(data: EventData, position: nat, timestamp: nat): EventRecord {
    EventRecord(position, data.eventId, data.event, data.metadata, timestamp)
  }

  /** The records of a batch written from position `first` on. */
  function Stamp(batch: seq<EventData>, first: nat, timestamp: nat): (records: seq<EventRecord>)
    ensures |records| == |batch|
  {
    seq(|batch|, i requires 0 <= i < |batch| => Record(batch[i], first + i, timestamp))
  }

  /** The record holds what was handed in, field by field, at this position and time. */
  predicate StoredAs(r: EventRecord, data: EventData, position: nat, timestamp: nat) {
    && r.eventId == data.eventId && r.event == data.event && r.metadata == data.metadata
    && r.position == position && r.timestamp == timestamp
  }

  /** The log grew by exactly the batch: what was there is still there, and behind it lies what was
      handed in, in order. */
  ghost predicate Appended(before: seq<EventRecord>, batch: seq<EventData>, timestamp: nat, after: seq<EventRecord>) {
    && before <= after && |after| == |before| + |batch|
    && forall i | 0 <= i < |batch| :: StoredAs(after[|before| + i], batch[i], |before| + i, timestamp)
  }

  lemma AppendedIsStamped(before: seq<EventRecord>, batch: seq<EventData>, timestamp: nat, after: seq<EventRecord>)
    ensures Appended(before, batch, timestamp, after) <==> after == before + Stamp(batch, |before|, timestamp)
  {
    var block := Stamp(batch, |before|, timestamp);
    if Appended(before, batch, timestamp, after) {
      assert forall i | 0 <= i < |batch| :: after[|before| + i] == block[i];
      assert after == before + block;
    }
    if after == before + block {
      forall i | 0 <= i < |batch| ensures StoredAs(after[|before| + i], batch[i], |before| + i, timestamp) {
        assert after[|before| + i] == block[i];
      }
    }
  }

  /** The matching rule on the cases the tests promise: no item, types, tags, both, several items. */
  lemma MatchingCases(r: EventRecord, a: string, b: string, s: Tag, t: Tag)
    requires a != b && s != t
    ensures Matches(ALL, r)
    ensures Matches(Query([QueryItem([], [])]), r)
    ensures Matches(Query([QueryItem([a], [])]), r) <==> r.event.eventType == a
    ensures Matches(Query([QueryItem([a, b], [])]), r) <==> r.event.eventType == a || r.event.eventType == b
    ensures Matches(Query([QueryItem([], [t])]), r) <==> t in r.event.tags
    ensures Matches(Query([QueryItem([], [s, t])]), r) <==> s in r.event.tags && t in r.event.tags
    ensures Matches(Query([QueryItem([a], [t])]), r) <==> r.event.eventType == a && t in r.event.tags
    ensures Matches(Query([QueryItem([a], [s]), QueryItem([b], [t])]), r) <==>
      (r.event.eventType == a && s in r.event.tags) || (r.event.eventType == b && t in r.event.tags)
  {
    OneItemMatches(QueryItem([], []), r);
    OneItemMatches(QueryItem([a], []), r);
    OneItemMatches(QueryItem([a, b], []), r);
    OneItemMatches(QueryItem([], [t]), r);
    OneItemMatches(QueryItem([], [s, t]), r);
    OneItemMatches(QueryItem([a], [t]), r);
    var x, y := QueryItem([a], [s]), QueryItem([b], [t]);
    assert x in [x, y] && y in [x, y];
    TagsOf(s, t);
  }

  lemma OneItemMatches(item: QueryItem, r: EventRecord)
    ensures Matches(Query([item]), r) <==> MatchesItem(item, r.event)
  {
    assert item in [item];
  }

  lemma TagsOf(s: Tag, t: Tag)
    ensures s in [s] && t in [t] && s in [s, t] && t in [s, t]
  {
  }

  /** The first position a read looks at: `start_position` is exclusive. */
  function From(start: Option<nat>): nat {
    if start.Some? then start.value + 1 else 0
  }
}
