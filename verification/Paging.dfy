/** Cursor paging: reading on from the last position seen, page by page, while the log grows. */
module Paging {
  import opened Domain
  import opened FileNames
  import opened Log
  import opened IndexedRead
  import opened EventStore
  import opened DecisionModel
  import opened Execute

  /** One page: at most `limit` matching events after the cursor. */
  function Page(log: seq<EventRecord>, query: Query, cursor: Option<nat>, limit: nat): seq<EventRecord> {
    Expected(log, query, cursor, Some(limit), false)
  }

  function Onward(cursor: Option<nat>, page: seq<EventRecord>): Option<nat> {
    if page == [] then cursor else LastPosition(page)
  }

  /** A page takes the front of what is left, without a gap. */
  lemma PageSplits(log: seq<EventRecord>, query: Query, cursor: Option<nat>, limit: nat)
    requires Numbered(log) && From(cursor) <= |log| && 1 <= limit
    ensures var page := Page(log, query, cursor, limit); var next := From(Onward(cursor, page));
      && From(cursor) <= next <= |log|
      && (page != [] ==> From(cursor) < next)
      && page == Scan(log[..next], query, From(cursor))
      && (page == [] ==> Scan(log, query, From(cursor)) == [])
  {
    var all, page := Scan(log, query, From(cursor)), Page(log, query, cursor, limit);
    assert page == if limit < |all| then all[..limit] else all;
    if page == [] {
      ScanNothing(log[..From(cursor)], query, From(cursor));
    } else {
      FrontOfScan(log, query, From(cursor), |page|);
      assert page == all[..|page|] && page[|page| - 1] == all[|page| - 1];
    }
  }

  /** The first `k` events of a scan are the scan up to the last of them. */
  lemma FrontOfScan(log: seq<EventRecord>, query: Query, lo: nat, k: nat)
    requires Numbered(log) && lo <= |log| && 0 < k <= |Scan(log, query, lo)|
    ensures var next := Scan(log, query, lo)[k - 1].position + 1;
      lo < next <= |log| && Scan(log, query, lo)[..k] == Scan(log[..next], query, lo)
  {
    var all := Scan(log, query, lo);
    var next := all[k - 1].position + 1;
    ScanExact(log, query, lo);
    assert all[k - 1] in all;
    ScanSplit(log, query, lo, next);
    ScanExact(log[..next], query, lo);
    ScanExact(log, query, next);
    SplitPoint(all, Scan(log[..next], query, lo), Scan(log, query, next), k, next);
  }

  /** Two prefixes of an ascending list that end at the same position are the same. */
  lemma SplitPoint(all: seq<EventRecord>, front: seq<EventRecord>, rest: seq<EventRecord>, k: nat, next: nat)
    requires all == front + rest && 0 < k <= |all| && all[k - 1].position + 1 == next
    requires forall i, j | 0 <= i < j < |all| :: all[i].position < all[j].position
    requires forall r | r in front :: r.position < next
    requires forall r | r in rest :: next <= r.position
    ensures front == all[..k]
  {
    assert forall i | 0 <= i < |front| :: all[i] == front[i] && front[i] in front;
    assert forall i | |front| <= i < |all| :: all[i] == rest[i - |front|] && rest[i - |front|] in rest;
    assert k < |all| ==> all[k - 1].position < all[k].position;
  }

  /** Adding a page to everything up to the cursor gives everything up to the next cursor. */
  lemma PageExtends(log: seq<EventRecord>, query: Query, cursor: Option<nat>, limit: nat)
    requires Numbered(log) && From(cursor) <= |log| && 1 <= limit
    ensures var page := Page(log, query, cursor, limit); var next := From(Onward(cursor, page));
      && From(cursor) <= next <= |log| && (page != [] ==> From(cursor) < next)
      && Scan(log[..From(cursor)], query, 0) + page == Scan(log[..next], query, 0)
      && (page == [] ==> Scan(log[..From(cursor)], query, 0) == Scan(log, query, 0))
  {
    var page := Page(log, query, cursor, limit);
    var next := From(Onward(cursor, page));
    PageSplits(log, query, cursor, limit);
    ScanSplit(log[..next], query, 0, From(cursor));
    assert log[..next][..From(cursor)] == log[..From(cursor)];
    ScanSplit(log, query, 0, From(cursor));
    assert Scan(log[..From(cursor)], query, 0) + [] == Scan(log[..From(cursor)], query, 0);
  }

  /** A page read at some moment: the log it saw and the limit it used. */
  datatype Turn = Turn(log: seq<EventRecord>, limit: nat)

  function Collected(turns: seq<Turn>, query: Query): (seq<EventRecord>, Option<nat>) {
    if turns == [] then ([], None)
    else
      var (before, cursor) := Collected(turns[..|turns| - 1], query);
      var turn := turns[|turns| - 1];
      var page := Page(turn.log, query, cursor, turn.limit);
      (before + page, Onward(cursor, page))
  }

  ghost predicate Growing(turns: seq<Turn>) {
    && (forall i | 0 <= i < |turns| :: Numbered(turns[i].log) && 1 <= turns[i].limit)
    && (forall i, j | 0 <= i <= j < |turns| :: turns[i].log <= turns[j].log)
  }

  /** With any appends between the pages and any limits, the pages so far are exactly the
      matching events up to the cursor: ascending, none twice, none left out. Once a page comes
      back empty they are everything matching in the log it saw, so in particular everything
      that was there when paging began. */
  lemma {:induction false} PagesAreScan(turns: seq<Turn>, query: Query)
    requires Growing(turns) && turns != []
    ensures var (events, cursor) := Collected(turns, query); var log := turns[|turns| - 1].log;
      && From(cursor) <= |log|
      && events == Scan(log[..From(cursor)], query, 0)
      && (Page(log, query, cursor, 1) == [] ==> events == Scan(log, query, 0))
      && turns[0].log <= log
  {
    var n := |turns| - 1;
    var log := turns[n].log;
    var (before, cursor) := Collected(turns[..n], query);
    if n > 0 {
      var earlier := turns[n - 1].log;
      PagesAreScan(turns[..n], query);
      assert earlier <= log && turns[0].log <= log;
      assert earlier[..From(cursor)] == log[..From(cursor)];
    }
    PageExtends(log, query, cursor, turns[n].limit);
    PageExtends(log, query, Onward(cursor, Page(log, query, cursor, turns[n].limit)), 1);
  }

  /** The names of a store and a query do not collide, and no item is vacuous. */
  ghost predicate Clean(v: Vocabulary, log: seq<EventRecord>, query: Query) {
    AliasFree(v) && CoversLog(v, log) && CoversQuery(v, query) && NonVacuous(query)
  }

  /** With clean names the pages so far are everything matching up to the cursor. */
  ghost predicate Paged(v: Vocabulary, log: seq<EventRecord>, query: Query, cursor: Option<nat>, events: seq<EventRecord>) {
    From(cursor) <= |log| && (Clean(v, log, query) ==> events == Scan(log[..From(cursor)], query, 0))
  }

  /** What a page read from the store promises. */
  ghost predicate PageOf(
    v: Vocabulary, log: seq<EventRecord>, query: Query, cursor: Option<nat>, limit: nat, page: seq<EventRecord>)
  {
    && (page != [] ==> From(cursor) <= page[|page| - 1].position < |log|)
    && (Clean(v, log, query) ==> page == Page(log, query, cursor, limit))
  }

  lemma PagedOn(
    v: Vocabulary, log: seq<EventRecord>, query: Query, cursor: Option<nat>, limit: nat,
    events: seq<EventRecord>, page: seq<EventRecord>)
    requires Numbered(log) && 1 <= limit
    requires Paged(v, log, query, cursor, events) && PageOf(v, log, query, cursor, limit, page)
    ensures Paged(v, log, query, Onward(cursor, page), events + page)
    ensures page != [] ==> From(cursor) < From(Onward(cursor, page))
    ensures page == [] && Clean(v, log, query) ==> events == Scan(log, query, 0)
  {
    PageExtends(log, query, cursor, limit);
  }

  lemma PagedLonger(
    v: Vocabulary, log: seq<EventRecord>, query: Query, cursor: Option<nat>, events: seq<EventRecord>,
    longer: seq<EventRecord>)
    requires Paged(v, log, query, cursor, events) && log <= longer
    ensures Paged(v, longer, query, cursor, events)
  {
    assert longer[..From(cursor)] == log[..From(cursor)];
    assert forall r | r in log :: r in longer;
  }

  /** Somebody else's turn. */
  method AppendOther(store: MarmosaStore, batch: seq<EventData>, now: nat, ghost v: Vocabulary)
    requires store.Valid() && |store.log| + |batch| <= U64_MAX && CoversBatch(v, batch)
    modifies store
    ensures store.Valid() && old(store.log) <= store.log && |store.log| == |old(store.log)| + |batch|
    ensures CoversLog(v, old(store.log)) ==> CoversLog(v, store.log)
  {
    CoversMore(v, store.log, batch, now);
    var _ := store.Append(batch, None, now);
  }

  /** Paging through the store while others append, `others[k]` after page k. Whatever the names,
      it ends. With clean names it gives the full ascending read of the log it ends on, and so
      everything that was there at the start; on a log that stays as it is, the full read of that. */
  method ReadPages(
    store: MarmosaStore, query: Query, limit: nat, others: seq<seq<EventData>>, now: nat, ghost v: Vocabulary)
    returns (events: seq<EventRecord>)
    requires store.Valid() && |store.log| + Total(others) <= U64_MAX && 1 <= limit
    requires forall batch | batch in others :: CoversBatch(v, batch)
    modifies store
    ensures store.Valid() && old(store.log) <= store.log
    ensures others == [] ==> store.log == old(store.log)
    ensures Clean(v, old(store.log), query) ==> events == Scan(store.log, query, 0)
  {
    events := [];
    var cursor: Option<nat> := None;
    var turn := 0;
    while true
      invariant store.Valid() && old(store.log) <= store.log && turn <= |others|
      invariant others == [] ==> store.log == old(store.log)
      invariant |store.log| + Total(others[turn..]) <= U64_MAX
      invariant Clean(v, old(store.log), query) ==> Clean(v, store.log, query)
      invariant Paged(v, store.log, query, cursor, events)
      decreases |others| - turn, |store.log| - From(cursor)
    {
      var page := ReadPage(store, query, cursor, limit, v);
      PagedOn(v, store.log, query, cursor, limit, events, page);
      if page == [] {
        return;
      }
      events, cursor := events + page, Some(page[|page| - 1].position);
      if turn < |others| {
        ghost var before := store.log;
        TotalStep(others, turn);
        AppendOther(store, others[turn], now, v);
        PagedLonger(v, before, query, cursor, events, store.log);
        turn := turn + 1;
      }
    }
  }

  lemma CoversMore(v: Vocabulary, log: seq<EventRecord>, batch: seq<EventData>, now: nat)
    requires CoversBatch(v, batch)
    ensures CoversLog(v, log) ==> CoversLog(v, log + Stamp(batch, |log|, now))
  {
    if CoversLog(v, log) { CoversAppended(v, log, batch, now); }
  }

  method ReadPage(store: MarmosaStore, query: Query, cursor: Option<nat>, limit: nat, ghost v: Vocabulary)
    returns (page: seq<EventRecord>)
    requires store.Valid() && |store.log| <= U64_MAX + 1 && 1 <= limit
    ensures PageOf(v, store.log, query, cursor, limit, page)
  {
    PageIsRead(store.files, store.log, query, cursor, limit, v);
    var read := store.Read(query, cursor, Some(limit), None);
    page := read.value;
  }

  lemma PageIsRead(files: Files, log: seq<EventRecord>, query: Query, cursor: Option<nat>, limit: nat, v: Vocabulary)
    requires Indexed(files, log) && 1 <= limit
    ensures var read := ReadResult(files, query, cursor, Some(limit), false);
      read.Ok? && PageOf(v, log, query, cursor, limit, read.value)
  {
    var read := ReadResult(files, query, cursor, Some(limit), false);
    ReadWithin(files, log, query, cursor, Some(limit), false);
    assert read.value != [] ==> read.value[|read.value| - 1] in read.value;
    if Clean(v, log, query) {
      CleanPage(files, log, query, cursor, limit, v);
    }
  }

  lemma CleanPage(files: Files, log: seq<EventRecord>, query: Query, cursor: Option<nat>, limit: nat, v: Vocabulary)
    requires Indexed(files, log) && 1 <= limit && Clean(v, log, query)
    ensures ReadResult(files, query, cursor, Some(limit), false) == Ok(Page(log, query, cursor, limit))
  {
    ReadRefinesScan(v, files, log, query, cursor, Some(limit), false);
  }
}
