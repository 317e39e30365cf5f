/** Updates of the position files. */
module Indices {
  import opened Domain
  import opened FileNames
  import opened Sequences
  import opened Log
  import opened IndexedRead

  /** One position file after `add_position_async`: absent positions are pushed and sorted in. */
  function WithPosition(positions: seq<nat>, p: nat): seq<nat> {
    if p in positions then positions else Sort(positions + [p], Itself)
  }

  function AddPosition(index: Index, file: IndexFile, p: nat): Index {
    if p in Positions(index, file) then index
    else index[file := WithPosition(Positions(index, file), p)]
  }

  function AddToAll(index: Index, files: seq<IndexFile>, p: nat): Index {
    if files == [] then index
    else AddPosition(AddToAll(index, files[..|files| - 1], p), files[|files| - 1], p)
  }

  lemma AddToAllNext(index: Index, files: seq<IndexFile>, i: nat, p: nat)
    requires i < |files|
    ensures AddToAll(index, files[..i + 1], p) == AddPosition(AddToAll(index, files[..i], p), files[i], p)
  {
    assert files[..i + 1][..i] == files[..i];
  }

  lemma AddPositionExact(index: Index, file: IndexFile, p: nat)
    requires Ordered(index)
    ensures Ordered(AddPosition(index, file, p))
    ensures forall f, x :: x in Positions(AddPosition(index, file, p), f) <==>
                           x in Positions(index, f) || (f == file && x == p)
  {
    if p !in Positions(index, file) {
      PushSorted(Positions(index, file), p);
    }
  }

  lemma {:induction false} AddToAllExact(index: Index, files: seq<IndexFile>, p: nat)
    requires Ordered(index)
    ensures Ordered(AddToAll(index, files, p))
    ensures forall f, x :: x in Positions(AddToAll(index, files, p), f) <==>
                           x in Positions(index, f) || (f in files && x == p)
  {
    if files != [] {
      var front, last := files[..|files| - 1], files[|files| - 1];
      assert files == front + [last];
      AddToAllExact(index, front, p);
      AddPositionExact(AddToAll(index, front, p), last, p);
    }
  }

  /** A position in a file after the addition was there before or is the added one. */
  lemma PositionAfterAdding(index: Index, log: seq<EventRecord>, file: IndexFile, n: nat, f: IndexFile, p: nat)
    requires Ordered(index) && Truthful(index, log)
    requires p in Positions(AddPosition(index, file, n), f)
    ensures (p < |log| && f in FilesOf(log[p].event)) || (p == n && f == file)
  {
    AddPositionExact(index, file, n);
    if p in Positions(index, f) { PositionBelongs(index, log, f, p); }
  }

  /** A position in a file after the additions was there before or is the added one. */
  lemma AddedPosition(index: Index, log: seq<EventRecord>, files: seq<IndexFile>, n: nat, f: IndexFile, p: nat)
    requires Ordered(index) && Truthful(index, log)
    requires p in Positions(AddToAll(index, files, n), f)
    ensures (p < |log| && f in FilesOf(log[p].event)) || (p == n && f in files)
  {
    AddToAllExact(index, files, n);
    if p in Positions(index, f) { PositionBelongs(index, log, f, p); }
  }

  lemma AddedIsTruthful(index: Index, log: seq<EventRecord>, r: EventRecord, added: Index)
    requires Ordered(index) && Truthful(index, log)
    requires added == AddToAll(index, FilesOf(r.event), |log|)
    ensures Truthful(added, log + [r])
  {
    forall f, p | p in Positions(added, f) ensures Belongs(log + [r], f, p) {
      AddedPosition(index, log, FilesOf(r.event), |log|, f, p);
    }
  }

  lemma AddedIsComplete(index: Index, log: seq<EventRecord>, r: EventRecord, added: Index)
    requires Ordered(index) && Complete(index, log, |log|)
    requires added == AddToAll(index, FilesOf(r.event), |log|)
    ensures Complete(added, log + [r], |log| + 1)
  {
    var longer := log + [r];
    AddToAllExact(index, FilesOf(r.event), |log|);
    forall p: nat, f | p < |longer| && f in FilesOf(longer[p].event) ensures p in Positions(added, f) {
      if p < |log| { assert p in Positions(index, f); }
    }
  }

  /** Storing one more event in its event file and all of its position files keeps agreement. */
  lemma IndexNext(files: Files, log: seq<EventRecord>, r: EventRecord)
    requires Indexed(files, log) && r.position == |log|
    ensures Indexed(Files(files.events[|log| := r], AddToAll(files.index, FilesOf(r.event), |log|)), log + [r])
  {
    StoreNext(files.events, log, r);
    AddToAllExact(files.index, FilesOf(r.event), |log|);
    AddedIsTruthful(files.index, log, r, AddToAll(files.index, FilesOf(r.event), |log|));
    AddedIsComplete(files.index, log, r, AddToAll(files.index, FilesOf(r.event), |log|));
  }
}
