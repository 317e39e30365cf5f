/** Additive tag migration on stored events. */
module Maintenance {
  import opened Domain
  import opened FileNames
  import opened Sequences
  import opened Log
  import opened IndexedRead
  import opened Indices
  import opened EventStore

  datatype AddTagsResult = AddTagsResult(tagsAdded: nat, eventsProcessed: nat)

  predicate HasKey(tags: seq<Tag>, key: string) {
    exists t | t in tags :: t.key == key
  }

  /** The tags after offering `more` one by one: a tag is added only if its key is new. */
  function MergeTags(tags: seq<Tag>, more: seq<Tag>): seq<Tag> {
    if more == [] then tags
    else
      var before, t := MergeTags(tags, more[..|more| - 1]), more[|more| - 1];
      if HasKey(before, t.key) then before else before + [t]
  }

  /** Old tags stay where they are, every offered key is there afterwards, and whatever was
      added was offered under a key the event did not have. */
  lemma {:induction false} MergeTagsAdds(tags: seq<Tag>, more: seq<Tag>)
    ensures tags <= MergeTags(tags, more)
    ensures forall t | t in more :: HasKey(MergeTags(tags, more), t.key)
    ensures forall t | t in MergeTags(tags, more)[|tags|..] :: t in more && !HasKey(tags, t.key)
  {
    if more != [] {
      var front, last := more[..|more| - 1], more[|more| - 1];
      var before, result := MergeTags(tags, front), MergeTags(tags, more);
      MergeTagsAdds(tags, front);
      assert more == front + [last];
      assert result == before || result == before + [last];
      forall t | t in more ensures HasKey(result, t.key) {
        if t in front {
          var u :| u in before && u.key == t.key;
          assert u in result;
        } else if !HasKey(before, last.key) {
          assert last in result;
        }
      }
      forall t | t in result[|tags|..] ensures t in more && !HasKey(tags, t.key) {
        assert forall u | u in tags :: u in before;
        if t !in before[|tags|..] {
          assert t == last && !HasKey(before, last.key);
        }
      }
    }
  }

  /** The offer at this index is the first of its key, and the event has no tag of that key. */
  ghost predicate FirstOfNewKey(tags: seq<Tag>, more: seq<Tag>, i: nat) {
    i < |more| && !HasKey(tags, more[i].key) && !HasKey(more[..i], more[i].key)
  }

  /** Exactly which of the tags offered are added, and in which order: of each new key the first. */
  lemma {:induction false} MergeTagsExactly(tags: seq<Tag>, more: seq<Tag>) returns (picked: seq<nat>)
    ensures Increasing(picked) && forall i: nat :: i in picked <==> FirstOfNewKey(tags, more, i)
    ensures forall i | i in picked :: i < |more|
    ensures MergeTags(tags, more) == tags + Picked(more, picked)
  {
    picked := [];
    if more != [] {
      var last := |more| - 1;
      var before := MergeTagsExactly(tags, more[..last]);
      forall i: nat ensures i in before <==> i < last && FirstOfNewKey(tags, more, i) {
        if i < last { assert more[..last][..i] == more[..i]; }
      }
      KeysAfterMerge(tags, more[..last], more[last].key);
      PickedOfFront(more, last, before);
      picked := before;
      if FirstOfNewKey(tags, more, last) {
        PushLarger(before, last);
        picked := before + [last];
        PickedSnoc(more, before, last);
      }
    }
  }

  function Retagged(r: EventRecord, tags: seq<Tag>): EventRecord {
    r.(event := r.event.(tags := tags))
  }

  /** The same event in everything but its tags. */
  predicate SameButTags(a: EventRecord, b: EventRecord) {
    && a.position == b.position && a.eventId == b.eventId && a.metadata == b.metadata && a.timestamp == b.timestamp
    && a.event.eventType == b.event.eventType && a.event.data == b.event.data
  }

  /** An event once it has been offered what the factory makes of it. */
  function Offered(r: EventRecord, factory: EventRecord -> seq<Tag>): EventRecord {
    Retagged(r, MergeTags(r.event.tags, factory(r)))
  }

  /** The record of one event after migration. */
  function Migrated(r: EventRecord, eventType: string, factory: EventRecord -> seq<Tag>): EventRecord {
    if r.event.eventType == eventType then Offered(r, factory) else r
  }

  /** Migration only ever adds: events of other types stay as they are, old tags stay in place,
      every key the factory offered is present, nothing else of the event changes. */
  lemma MigrationIsAdditive(r: EventRecord, eventType: string, factory: EventRecord -> seq<Tag>)
    ensures var after := Migrated(r, eventType, factory);
      && (r.event.eventType != eventType ==> after == r)
      && r.event.tags <= after.event.tags
      && SameButTags(after, r)
      && (r.event.eventType == eventType ==> forall t | t in factory(r) :: HasKey(after.event.tags, t.key))
      && (forall t | t in after.event.tags[|r.event.tags|..] :: t in factory(r) && !HasKey(r.event.tags, t.key))
  {
    MergeTagsAdds(r.event.tags, factory(r));
  }

  function MigratedLog(log: seq<EventRecord>, eventType: string, factory: EventRecord -> seq<Tag>): seq<EventRecord> {
    seq(|log|, i requires 0 <= i < |log| => Migrated(log[i], eventType, factory))
  }

  /** The total growth of the tag lists of some events. */
  function Growth(events: seq<EventRecord>, factory: EventRecord -> seq<Tag>): nat {
    if events == [] then 0
    else
      var r := events[|events| - 1];
      MergeTagsAdds(r.event.tags, factory(r));
      Growth(events[..|events| - 1], factory) + |Offered(r, factory).event.tags| - |r.event.tags|
  }

  lemma TagFiles(r: EventRecord, t: Tag)
    ensures forall f :: f in FilesOf(Retagged(r, r.event.tags + [t]).event) <==>
                        f in FilesOf(r.event) || f == FileOfTag(t)
  {
    assert FilesOf(Retagged(r, r.event.tags + [t]).event) == FilesOf(r.event) + [FileOfTag(t)];
  }

  lemma TaggedPosition(index: Index, log: seq<EventRecord>, p: nat, t: Tag, after: seq<EventRecord>, f: IndexFile, q: nat)
    requires Ordered(index) && Truthful(index, log) && p < |log|
    requires after == log[p := Retagged(log[p], log[p].event.tags + [t])]
    requires q in Positions(AddPosition(index, FileOfTag(t), p), f)
    ensures Belongs(after, f, q)
  {
    PositionAfterAdding(index, log, FileOfTag(t), p, f, q);
    TagFiles(log[p], t);
  }

  lemma TagKeepsTruthful(
    index: Index, log: seq<EventRecord>, p: nat, t: Tag, after: seq<EventRecord>, more: Index)
    requires Ordered(index) && Truthful(index, log) && p < |log|
    requires after == log[p := Retagged(log[p], log[p].event.tags + [t])]
    requires more == AddPosition(index, FileOfTag(t), p)
    ensures Truthful(more, after)
  {
    forall f, q | q in Positions(more, f) ensures Belongs(after, f, q) {
      TaggedPosition(index, log, p, t, after, f, q);
    }
  }

  lemma TagKeepsComplete(
    index: Index, log: seq<EventRecord>, p: nat, t: Tag, after: seq<EventRecord>, more: Index)
    requires Ordered(index) && Complete(index, log, |log|) && p < |log|
    requires after == log[p := Retagged(log[p], log[p].event.tags + [t])]
    requires more == AddPosition(index, FileOfTag(t), p)
    ensures Complete(more, after, |log|)
  {
    AddPositionExact(index, FileOfTag(t), p);
    TagFiles(log[p], t);
    forall q: nat, f | q < |after| && f in FilesOf(after[q].event) ensures q in Positions(more, f) {
      if f in FilesOf(log[q].event) { assert q in Positions(index, f); }
    }
  }

  /** Adding one tag to an event and its position to that tag's file keeps agreement. */
  lemma TagKeepsIndexed(files: Files, log: seq<EventRecord>, p: nat, t: Tag)
    requires Indexed(files, log) && p < |log|
    ensures var r := Retagged(log[p], log[p].event.tags + [t]);
      Indexed(Files(files.events[p := r], AddPosition(files.index, FileOfTag(t), p)), log[p := r])
  {
    AddPositionExact(files.index, FileOfTag(t), p);
    var r := Retagged(log[p], log[p].event.tags + [t]);
    var more := AddPosition(files.index, FileOfTag(t), p);
    TagKeepsTruthful(files.index, log, p, t, log[p := r], more);
    TagKeepsComplete(files.index, log, p, t, log[p := r], more);
    StoreReplaced(files.events, log, p, r);
  }

  lemma StoreReplaced(events: map<nat, EventRecord>, log: seq<EventRecord>, p: nat, r: EventRecord)
    requires StoresLog(events, log) && p < |log| && r.position == p
    ensures StoresLog(events[p := r], log[p := r])
  {
  }

  lemma Overwritten(events: map<nat, EventRecord>, log: seq<EventRecord>, p: nat, a: EventRecord, b: EventRecord)
    requires p < |log|
    ensures events[p := a][p := b] == events[p := b] && log[p := a][p := b] == log[p := b] && log[p := a][p] == a
  {
  }

  /** Offers `newTags` to one stored event: its new positions first, then its event file. */
  method MigrateEvent(store: MarmosaStore, record: EventRecord, newTags: seq<Tag>) returns (added: nat)
    requires store.Valid() && record.position < |store.log| && store.log[record.position] == record
    modifies store
    ensures store.Valid()
    ensures var tags := MergeTags(record.event.tags, newTags);
      && store.log == old(store.log)[record.position := Retagged(record, tags)]
      && added == |tags| - |record.event.tags|
  {
    var p := record.position;
    var current := record;
    added := 0;
    assert store.files.events[p := record] == store.files.events && store.log[p := record] == store.log;
    for i := 0 to |newTags|
      invariant store.log == old(store.log) && store.files.events == old(store.files).events
      invariant current == Retagged(record, MergeTags(record.event.tags, newTags[..i]))
      invariant added == |current.event.tags| - |record.event.tags|
      invariant Indexed(Files(store.files.events[p := current], store.files.index), store.log[p := current])
    {
      assert newTags[..i + 1][..i] == newTags[..i];
      var tag := newTags[i];
      if !HasKey(current.event.tags, tag.key) {
        TagKeepsIndexed(Files(store.files.events[p := current], store.files.index), store.log[p := current], p, tag);
        Overwritten(store.files.events, store.log, p, current, Retagged(current, current.event.tags + [tag]));
        current := Retagged(current, current.event.tags + [tag]);
        added := added + 1;
        store.files := store.files.(index := AddPosition(store.files.index, FileOfTag(tag), p));
      }
    }
    assert newTags[..|newTags|] == newTags;
    if added > 0 {
      store.files := store.files.(events := store.files.events[p := current]);
    } else {
      MergeTagsAdds(record.event.tags, newTags);
      assert current == record;
    }
    store.log := store.log[p := current];
  }

  /** Exactly the events read so far have been offered their tags; the rest of the log is as it was. */
  ghost predicate PartlyMigrated(
    now: seq<EventRecord>, log: seq<EventRecord>, done: seq<EventRecord>, factory: EventRecord -> seq<Tag>)
  {
    && |now| == |log|
    && forall p: nat | p < |log| :: now[p] == if log[p] in done then Offered(log[p], factory) else log[p]
  }

  lemma MigratedNext(
    now: seq<EventRecord>, log: seq<EventRecord>, done: seq<EventRecord>, record: EventRecord, factory: EventRecord -> seq<Tag>)
    requires PartlyMigrated(now, log, done, factory) && Numbered(log)
    requires record.position < |log| && log[record.position] == record && record !in done
    ensures now[record.position] == record
    ensures PartlyMigrated(now[record.position := Offered(record, factory)], log, done + [record], factory)
  {
  }

  /** Migrates one more of the events read. */
  method MigrateNext(store: MarmosaStore, record: EventRecord, factory: EventRecord -> seq<Tag>,
                     ghost log: seq<EventRecord>, ghost done: seq<EventRecord>) returns (added: nat)
    requires store.Valid() && PartlyMigrated(store.log, log, done, factory) && Numbered(log)
    requires record.position < |log| && log[record.position] == record && record !in done
    modifies store
    ensures store.Valid() && PartlyMigrated(store.log, log, done + [record], factory)
    ensures added == |Offered(record, factory).event.tags| - |record.event.tags|
    ensures TotalTags(store.log) == TotalTags(old(store.log)) + added
  {
    MigratedNext(store.log, log, done, record, factory);
    TotalReplaced(store.log, record.position, Offered(record, factory));
    added := MigrateEvent(store, record, factory(record));
  }

  /** Migrates the events read, each of them once. */
  method MigrateAll(store: MarmosaStore, events: seq<EventRecord>, factory: EventRecord -> seq<Tag>)
    returns (tagsAdded: nat)
    requires store.Valid() && Within(events, store.log, 0) && ByPosition(events)
    modifies store
    ensures store.Valid() && PartlyMigrated(store.log, old(store.log), events, factory)
    ensures tagsAdded == Growth(events, factory)
    ensures TotalTags(store.log) == TotalTags(old(store.log)) + tagsAdded
  {
    ghost var log := store.log;
    tagsAdded := 0;
    for i := 0 to |events|
      invariant store.Valid() && PartlyMigrated(store.log, log, events[..i], factory)
      invariant tagsAdded == Growth(events[..i], factory)
      invariant TotalTags(store.log) == TotalTags(log) + tagsAdded
    {
      StoredOnce(events, log, i);
      GrowthNext(events, i, factory);
      var added := MigrateNext(store, events[i], factory, log, events[..i]);
      tagsAdded := tagsAdded + added;
    }
    assert events[..|events|] == events;
  }

  lemma GrowthNext(events: seq<EventRecord>, i: nat, factory: EventRecord -> seq<Tag>)
    requires i < |events|
    ensures events[..i + 1] == events[..i] + [events[i]]
    ensures Growth(events[..i + 1], factory)
         == Growth(events[..i], factory) + |Offered(events[i], factory).event.tags| - |events[i].event.tags|
  {
    assert events[..i + 1][..i] == events[..i];
  }

  /** Adds derived tags to all events a read of the type returns. Run alone it changes no other
      event, keeps each old tag list as a prefix, keeps full index agreement and counts exactly
      what it added. With names that do not collide these are the events of the type. */
  method AddTags(store: MarmosaStore, eventType: string, factory: EventRecord -> seq<Tag>, ghost v: Vocabulary)
    returns (result: Result<AddTagsResult>)
    requires store.Valid() && |store.log| <= U64_MAX + 1
    modifies store
    ensures store.Valid()
    ensures eventType == "" ==> result == Err(IoError) && store.log == old(store.log)
    ensures eventType != "" ==>
      var read := ReadResult(old(store.files), OfType(eventType), None, None, false);
      && read.Ok? && PartlyMigrated(store.log, old(store.log), read.value, factory)
      && result == Ok(AddTagsResult(Growth(read.value, factory), |read.value|))
    ensures result.Ok? ==> TotalTags(store.log) == TotalTags(old(store.log)) + result.value.tagsAdded
    ensures eventType != "" && AliasFree(v) && CoversLog(v, old(store.log)) && eventType in v.types ==>
      && store.log == MigratedLog(old(store.log), eventType, factory)
      && var scanned := Scan(old(store.log), OfType(eventType), 0);
      result == Ok(AddTagsResult(Growth(scanned, factory), |scanned|))
  {
    if eventType == "" {
      return Err(IoError);
    }
    ghost var log := store.log;
    ReadAscends(store.files, log, OfType(eventType), None);
    ReadWithin(store.files, log, OfType(eventType), None, None, false);
    var read := store.Read(OfType(eventType), None, None, None);
    if AliasFree(v) && CoversLog(v, log) && eventType in v.types {
      ReadRefinesScan(v, store.files, log, OfType(eventType), None, None, false);
    }
    var tagsAdded := MigrateAll(store, read.value, factory);
    if read.value == Scan(log, OfType(eventType), 0) {
      MigratedWhole(store.log, log, eventType, factory);
    }
    return Ok(AddTagsResult(tagsAdded, |read.value|));
  }

  /** How many tags the events of a log have in all. */
  function TotalTags(log: seq<EventRecord>): nat {
    if log == [] then 0 else TotalTags(log[..|log| - 1]) + |log[|log| - 1].event.tags|
  }

  lemma {:induction false} TotalReplaced(log: seq<EventRecord>, p: nat, r: EventRecord)
    requires p < |log|
    ensures TotalTags(log[p := r]) == TotalTags(log) - |log[p].event.tags| + |r.event.tags|
  {
    var last := |log| - 1;
    if p < last {
      TotalReplaced(log[..last], p, r);
      assert log[p := r][..last] == log[..last][p := r];
    } else {
      assert log[p := r][..last] == log[..last];
    }
  }

  lemma MigratedWhole(now: seq<EventRecord>, log: seq<EventRecord>, eventType: string, factory: EventRecord -> seq<Tag>)
    requires Numbered(log) && PartlyMigrated(now, log, Scan(log, OfType(eventType), 0), factory)
    ensures now == MigratedLog(log, eventType, factory)
  {
    ScanTypes(log, eventType);
    assert forall p: nat | p < |log| :: log[p] in log;
  }

  function OfType(eventType: string): Query {
    Query([QueryItem([eventType], [])])
  }

  lemma StoredOnce(events: seq<EventRecord>, log: seq<EventRecord>, i: nat)
    requires Within(events, log, 0) && ByPosition(events) && i < |events|
    ensures events[i].position < |log| && log[events[i].position] == events[i] && events[i] !in events[..i]
  {
    assert events[i] in events;
  }

  lemma ScanTypes(log: seq<EventRecord>, eventType: string)
    requires Numbered(log)
    ensures forall r | r in log :: r in Scan(log, OfType(eventType), 0) <==> r.event.eventType == eventType
  {
    ScanExact(log, OfType(eventType), 0);
    forall r | r in log ensures Matches(OfType(eventType), r) <==> r.event.eventType == eventType {
      var item := QueryItem([eventType], []);
      assert item in OfType(eventType).items;
    }
    forall r | r in log ensures log[r.position] == r && r.position < |log| {
      var i: nat :| i < |log| && log[i] == r;
    }
  }

  // ----- a decision that does not see a tag arrive -----

  /** An append condition looks only beyond its position: retagging an event before that goes
      unnoticed, whether or not the event matches now. */
  lemma {:induction false} RetaggingUnnoticed(log: seq<EventRecord>, p: nat, tags: seq<Tag>, query: Query, lo: nat)
    requires p < |log| && p < lo
    ensures Scan(log[p := Retagged(log[p], tags)], query, lo) == Scan(log, query, lo)
  {
    var last, after := |log| - 1, log[p := Retagged(log[p], tags)];
    if p < last {
      RetaggingUnnoticed(log[..last], p, tags, query, lo);
      assert after[..last] == log[..last][p := Retagged(log[p], tags)];
    } else {
      assert after[..last] == log[..last];
    }
  }

  /** An untagged event and a tagged one: a decision on the tag sees the second only; the first
      gains the tag; the condition after the second stays silent although the decision missed it. */
  lemma TagArrivesUnseen(t: Tag, untagged: EventRecord, tagged: EventRecord)
    requires untagged.position == 0 && untagged.event.tags == [] && tagged.position == 1 && tagged.event.tags == [t]
    ensures var log, query := [untagged, tagged], Query([QueryItem([], [t])]);
      var after := log[0 := Retagged(untagged, [t])];
      && Scan(log, query, 0) == [tagged] && Scan(after, query, 0) == after
      && Scan(after, query, From(Some(tagged.position))) == []
  {
    var query, gained := Query([QueryItem([], [t])]), Retagged(untagged, [t]);
    AskedByTag(t, untagged);
    AskedByTag(t, tagged);
    AskedByTag(t, gained);
    ScanOfTwo(untagged, tagged, query);
    ScanOfTwo(gained, tagged, query);
    assert [untagged, tagged][0 := gained] == [gained, tagged];
    ScanNothing([gained, tagged], query, 2);
  }

  lemma AskedByTag(t: Tag, r: EventRecord)
    ensures Matches(Query([QueryItem([], [t])]), r) <==> t in r.event.tags
  {
    var item := QueryItem([], [t]);
    assert item in Query([item]).items && t in item.tags;
  }

  lemma ScanOfTwo(a: EventRecord, b: EventRecord, query: Query)
    ensures Scan([a, b], query, 0) == (if Matches(query, a) then [a] else []) + (if Matches(query, b) then [b] else [])
  {
    assert [a, b][..1] == [a] && [a][..0] == [];
    assert Scan([a], query, 0) == Scan([], query, 0) + (if Matches(query, a) then [a] else []);
  }

  // ----- tags added and events processed -----

  /** Two tags offered under different keys the event does not have. */
  predicate OffersTwo(tags: seq<Tag>, more: seq<Tag>) {
    exists i, j | 0 <= i < j < |more| ::
      more[i].key != more[j].key && !HasKey(tags, more[i].key) && !HasKey(tags, more[j].key)
  }

  predicate AllKnown(tags: seq<Tag>, more: seq<Tag>) {
    forall t | t in more :: HasKey(tags, t.key)
  }

  /** Some tag is offered under a new key other than this one. */
  predicate OffersOther(tags: seq<Tag>, more: seq<Tag>, key: string) {
    exists t | t in more :: t.key != key && !HasKey(tags, t.key)
  }

  predicate OffersKey(more: seq<Tag>, key: string) {
    exists t | t in more :: t.key == key
  }

  /** An offer grows the tag list by at most one exactly if it is not of two new keys: it adds
      nothing if all keys are known, and one tag if all new ones share a key. */
  lemma {:induction false} GrowsByOneUnlessTwo(tags: seq<Tag>, more: seq<Tag>)
    ensures |MergeTags(tags, more)| <= |tags| + 1 <==> !OffersTwo(tags, more)
    ensures |MergeTags(tags, more)| == |tags| <==> AllKnown(tags, more)
    ensures |tags| <= |MergeTags(tags, more)|
  {
    if more != [] {
      var front, last := more[..|more| - 1], more[|more| - 1];
      assert more == front + [last];
      GrowsByOneUnlessTwo(tags, front);
      KeysAfterMerge(tags, front, last.key);
      TwoOrLast(tags, front, last);
      NewKeys(tags, front, last.key);
      assert AllKnown(tags, more) <==> AllKnown(tags, front) && HasKey(tags, last.key);
    }
  }

  /** How the new keys of an offer relate to one key. */
  lemma NewKeys(tags: seq<Tag>, more: seq<Tag>, key: string)
    ensures !HasKey(tags, key) && OffersKey(more, key) && OffersOther(tags, more, key) ==> OffersTwo(tags, more)
    ensures !OffersKey(more, key) ==> (AllKnown(tags, more) <==> !OffersOther(tags, more, key))
    ensures AllKnown(tags, more) ==> !OffersTwo(tags, more)
    ensures !HasKey(tags, key) && OffersKey(more, key) ==> !AllKnown(tags, more)
  {
    assert forall i | 0 <= i < |more| :: more[i] in more;
    if !HasKey(tags, key) && OffersKey(more, key) && OffersOther(tags, more, key) {
      var t :| t in more && t.key == key;
      var u :| u in more && u.key != key && !HasKey(tags, u.key);
      var i :| 0 <= i < |more| && more[i] == t;
      var j :| 0 <= j < |more| && more[j] == u;
      assert i < j || j < i;
    }
  }

  /** A key is there after an offer if it was there before or was offered. */
  lemma KeysAfterMerge(tags: seq<Tag>, more: seq<Tag>, key: string)
    ensures HasKey(MergeTags(tags, more), key) <==> HasKey(tags, key) || OffersKey(more, key)
  {
    MergeTagsAdds(tags, more);
    var merged := MergeTags(tags, more);
    assert forall u | u in tags :: u in merged;
    if t :| t in merged && t.key == key {
      assert merged == tags + merged[|tags|..];
      assert t in tags || t in merged[|tags|..];
    }
  }

  lemma TwoOrLast(tags: seq<Tag>, front: seq<Tag>, last: Tag)
    ensures OffersTwo(tags, front + [last]) <==>
            OffersTwo(tags, front)
            || (!HasKey(tags, last.key) && OffersOther(tags, front, last.key))
  {
    var more := front + [last];
    if i, j :| 0 <= i < j < |front| && front[i].key != front[j].key && !HasKey(tags, front[i].key) && !HasKey(tags, front[j].key) {
      assert more[i] == front[i] && more[j] == front[j];
    }
    if !HasKey(tags, last.key) {
      if t :| t in front && t.key != last.key && !HasKey(tags, t.key) {
        var i :| 0 <= i < |front| && front[i] == t;
        assert more[i] == t && more[|front|] == last;
      }
    }
    if i, j :| 0 <= i < j < |more| && more[i].key != more[j].key && !HasKey(tags, more[i].key) && !HasKey(tags, more[j].key) {
      assert front[i] in front;
      if j < |front| { assert front[i].key != front[j].key; }
    }
  }

  /** The factory offers some event of the type two new keys. */
  ghost predicate CanOfferTwo(eventType: string, factory: EventRecord -> seq<Tag>) {
    exists r: EventRecord :: r.event.eventType == eventType && OffersTwo(r.event.tags, factory(r))
  }

  lemma {:induction false} GrowthBounded(events: seq<EventRecord>, eventType: string, factory: EventRecord -> seq<Tag>)
    requires !CanOfferTwo(eventType, factory) && forall r | r in events :: r.event.eventType == eventType
    ensures Growth(events, factory) <= |events|
  {
    if events != [] {
      var r := events[|events| - 1];
      assert r in events;
      GrowthBounded(events[..|events| - 1], eventType, factory);
      GrowsByOneUnlessTwo(r.event.tags, factory(r));
    }
  }

  /** Events of another type. */
  function Others(eventType: string, n: nat): seq<EventRecord> {
    seq(n, i requires 0 <= i < n => EventRecord(i, "", DomainEvent(eventType + "x", "", []), None, 0))
  }

  lemma OthersUnscanned(eventType: string, n: nat)
    ensures Numbered(Others(eventType, n)) && Scan(Others(eventType, n), OfType(eventType), 0) == []
  {
    var log := Others(eventType, n);
    forall p: nat | p < n ensures !Matches(OfType(eventType), log[p]) {
      assert |log[p].event.eventType| == |eventType| + 1;
    }
    ScanEmpty(log, OfType(eventType), 0);
  }

  /** A log that ends with the event, with events of another type before it. */
  function EndingWith(r: EventRecord): seq<EventRecord> {
    Others(r.event.eventType, r.position) + [r]
  }

  lemma OnlyLastOfType(r: EventRecord)
    ensures Numbered(EndingWith(r)) && Scan(EndingWith(r), OfType(r.event.eventType), 0) == [r]
  {
    var front, query := Others(r.event.eventType, r.position), OfType(r.event.eventType);
    var item := QueryItem([r.event.eventType], []);
    OthersUnscanned(r.event.eventType, r.position);
    assert item in query.items && MatchesItem(item, r.event);
    assert EndingWith(r)[..r.position] == front && EndingWith(r)[r.position] == r;
    assert Scan(EndingWith(r), query, 0) == Scan(front, query, 0) + [r];
  }

  /** Exactly when at least as many events are processed as tags are added, on every log: if and
      only if the factory never offers an event of the type two new keys. */
  lemma ProcessedCoversAdded(eventType: string, factory: EventRecord -> seq<Tag>)
    ensures (forall log | Numbered(log) ::
               Growth(Scan(log, OfType(eventType), 0), factory) <= |Scan(log, OfType(eventType), 0)|)
            <==> !CanOfferTwo(eventType, factory)
  {
    if !CanOfferTwo(eventType, factory) {
      forall log | Numbered(log)
        ensures Growth(Scan(log, OfType(eventType), 0), factory) <= |Scan(log, OfType(eventType), 0)|
      {
        ScannedOfType(log, eventType);
        GrowthBounded(Scan(log, OfType(eventType), 0), eventType, factory);
      }
    } else {
      var r: EventRecord :| r.event.eventType == eventType && OffersTwo(r.event.tags, factory(r));
      OnlyLastOfType(r);
      GrowsByOneUnlessTwo(r.event.tags, factory(r));
      GrowthOfOne(r, factory);
      assert Numbered(EndingWith(r)) && Scan(EndingWith(r), OfType(eventType), 0) == [r];
    }
  }

  lemma ScannedOfType(log: seq<EventRecord>, eventType: string)
    requires Numbered(log)
    ensures forall r | r in Scan(log, OfType(eventType), 0) :: r.event.eventType == eventType
  {
    ScanExact(log, OfType(eventType), 0);
  }

  lemma GrowthOfOne(r: EventRecord, factory: EventRecord -> seq<Tag>)
    ensures Growth([r], factory) == |Offered(r, factory).event.tags| - |r.event.tags|
  {
    assert [r][..0] == [];
  }

  /** One event, two tags: a factory that adds a region and a year to an untagged event. */
  lemma MoreTagsThanEvents()
    ensures var r := EventRecord(0, "", DomainEvent("A", "", []), None, 0);
      Growth([r], (e: EventRecord) => [Tag("region", "eu"), Tag("year", "2024")]) == 2
  {
    var r := EventRecord(0, "", DomainEvent("A", "", []), None, 0);
    var factory := (e: EventRecord) => [Tag("region", "eu"), Tag("year", "2024")];
    GrowthOfOne(r, factory);
    var region, year := Tag("region", "eu"), Tag("year", "2024");
    assert [region, year][..1] == [region] && [region][..0] == [];
    assert MergeTags([], [region]) == [] + [region] == [region];
    assert region.key != year.key && !HasKey([region], year.key);
    assert MergeTags([], [region, year]) == [region] + [year];
  }
}
