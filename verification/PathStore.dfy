/** The writing side of the store carried out on the path map itself, locks included: what the
    typed files say is what is on disk. */
module PathStore {
  import opened Domain
  import opened FileNames
  import opened Sequences
  import opened Log
  import opened Indices
  import opened Storage

  const GLOBAL_LOCK := "global_store"

  function LockOf(file: IndexFile): string {
    (if file.TypeFile? then "event_type_lock:" else "tag_lock:") + IndexPath(file)
  }

  lemma IndexLocksAreOthers(file: IndexFile)
    ensures LockOf(file) != GLOBAL_LOCK
  {
    assert LockOf(file)[0] != GLOBAL_LOCK[0];
  }

  /** No two position files share a lock. */
  lemma LocksDistinct(f: IndexFile, g: IndexFile)
    requires LockOf(f) == LockOf(g)
    ensures f == g
  {
    assert LockOf(f)[0] == (if f.TypeFile? then 'e' else 't');
    assert LockOf(g)[0] == (if g.TypeFile? then 'e' else 't');
    var prefix := if f.TypeFile? then "event_type_lock:" else "tag_lock:";
    assert LockOf(f)[|prefix|..] == IndexPath(f) && LockOf(g)[|prefix|..] == IndexPath(g);
    IndexPathsDistinct(f, g);
  }

  /** The positions some paths parse to; paths that do not parse are skipped. */
  method ParseAll(paths: seq<string>) returns (parsed: seq<nat>)
    ensures forall p: nat :: p in parsed <==> exists path | path in paths :: ParseEventPath(path) == Some(p)
  {
    parsed := [];
    for i := 0 to |paths|
      invariant forall p: nat :: p in parsed <==> exists path | path in paths[..i] :: ParseEventPath(path) == Some(p)
    {
      assert paths[..i + 1] == paths[..i] + [paths[i]];
      var position := ParseEventPath(paths[i]);
      if position.Some? {
        parsed := parsed + [position.value];
      }
    }
    assert paths[..|paths|] == paths;
  }

  /** Lists the event directory, parses the paths and takes the position after the largest. */
  method NextSequence(storage: InMemoryStorage<Content>, ghost files: Files) returns (sequence: nat)
    requires Represents(storage.files, files) && forall p | p in files.events :: p <= U64_MAX
    ensures sequence == NextPosition(files.events)
  {
    var paths := storage.ReadDir("Events");
    var parsed := ParseAll(paths);
    ListedPositions(storage.files, files, paths, parsed);
    var max := Largest(parsed);
    LargestParsed(files.events, parsed, max);
    sequence := if max.Some? then max.value + 1 else 0;
  }

  lemma ListedPositions(disk: map<string, Content>, files: Files, paths: seq<string>, parsed: seq<nat>)
    requires Represents(disk, files) && forall p | p in files.events :: p <= U64_MAX
    requires forall path :: path in paths <==> path in disk && Child("Events", path)
    requires forall p: nat :: p in parsed <==> exists path | path in paths :: ParseEventPath(path) == Some(p)
    ensures forall p: nat :: p in parsed <==> p in files.events
  {
    ListingIsEvents(disk, files);
  }

  /** Adds a position to one file under the file's lock: reads, pushes, sorts and writes back; a
      missing file reads as empty, a position already there is not written again. */
  method AddPositionAt(storage: InMemoryStorage<Content>, file: IndexFile, position: nat, ghost files: Files)
    requires Represents(storage.files, files) && LockOf(file) !in storage.locks
    modifies storage
    ensures Represents(storage.files, files.(index := AddPosition(files.index, file, position)))
    ensures storage.locks == old(storage.locks)
  {
    var taken := storage.TryAcquire(LockOf(file));
    ReadsAgree(storage.files, files, 0, file);
    var read := storage.ReadFile(IndexPath(file));
    var positions := if read.Ok? && read.value.IndexContent? then read.value.positions else [];
    assert positions == Positions(files.index, file);
    if position !in positions {
      IndexWriteRepresents(storage.files, files, file, WithPosition(positions, position));
      storage.WriteFile(IndexPath(file), IndexContent(Sort(positions + [position], Itself)));
    }
    storage.Release(LockOf(file));
  }

  /** The files once a position is in the first `i` of some index files. */
  function InFirst(files: Files, names: seq<IndexFile>, i: nat, position: nat): Files
    requires i <= |names|
  {
    files.(index := AddToAll(files.index, names[..i], position))
  }

  method AddNextPosition(
    storage: InMemoryStorage<Content>, names: seq<IndexFile>, i: nat, position: nat, ghost files: Files)
    requires i < |names| && Represents(storage.files, InFirst(files, names, i, position))
    requires storage.locks == {GLOBAL_LOCK}
    modifies storage
    ensures Represents(storage.files, InFirst(files, names, i + 1, position)) && storage.locks == {GLOBAL_LOCK}
  {
    IndexLocksAreOthers(names[i]);
    AddToAllNext(files.index, names, i, position);
    AddPositionAt(storage, names[i], position, InFirst(files, names, i, position));
  }

  /** Enters a position in each of the event's index files. */
  method IndexEvent(storage: InMemoryStorage<Content>, record: EventRecord, ghost files: Files)
    requires Represents(storage.files, files) && storage.locks == {GLOBAL_LOCK}
    modifies storage
    ensures Represents(storage.files, files.(index := AddToAll(files.index, FilesOf(record.event), record.position)))
    ensures storage.locks == {GLOBAL_LOCK}
  {
    var names := FilesOf(record.event);
    assert InFirst(files, names, 0, record.position) == files;
    for i := 0 to |names|
      invariant Represents(storage.files, InFirst(files, names, i, record.position)) && storage.locks == {GLOBAL_LOCK}
    {
      AddNextPosition(storage, names, i, record.position, files);
    }
    assert names[..|names|] == names;
  }

  /** The event file first, then its index files. */
  method StoreEvent(storage: InMemoryStorage<Content>, record: EventRecord, ghost files: Files)
    requires Represents(storage.files, files) && storage.locks == {GLOBAL_LOCK}
    modifies storage
    ensures Represents(storage.files, Files(files.events[record.position := record],
                                            AddToAll(files.index, FilesOf(record.event), record.position)))
    ensures storage.locks == {GLOBAL_LOCK}
  {
    EventWriteRepresents(storage.files, files, record.position, record);
    storage.WriteFile(EventPath(record.position), EventContent(record));
    IndexEvent(storage, record, files.(events := files.events[record.position := record]));
  }

  /** One turn of the append loop. */
  method StoreNextEvent(
    storage: InMemoryStorage<Content>, record: EventRecord, ghost files: Files, ghost log: seq<EventRecord>)
    returns (ghost after: Files)
    requires Represents(storage.files, files) && Indexed(files, log) && record.position == |log|
    requires storage.locks == {GLOBAL_LOCK}
    modifies storage
    ensures Represents(storage.files, after) && Indexed(after, log + [record])
    ensures storage.locks == {GLOBAL_LOCK}
  {
    IndexNext(files, log, record);
    StoreEvent(storage, record, files);
    after := Files(files.events[record.position := record], AddToAll(files.index, FilesOf(record.event), record.position));
  }

  method WriteAll(
    storage: InMemoryStorage<Content>, batch: seq<EventData>, first: nat, now: nat, ghost files: Files, ghost log: seq<EventRecord>)
    returns (ghost after: Files)
    requires Represents(storage.files, files) && Indexed(files, log) && first == |log|
    requires storage.locks == {GLOBAL_LOCK}
    modifies storage
    ensures Represents(storage.files, after) && Indexed(after, log + Stamp(batch, |log|, now))
    ensures storage.locks == {GLOBAL_LOCK}
  {
    after := files;
    var sequence := first;
    ghost var longer := log;
    assert log + Stamp(batch[..0], |log|, now) == log;
    for i := 0 to |batch|
      invariant sequence == first + i && storage.locks == {GLOBAL_LOCK}
      invariant longer == log + Stamp(batch[..i], |log|, now)
      invariant Represents(storage.files, after) && Indexed(after, longer)
    {
      LongerByOne(log, batch, i, now);
      var record := Record(batch[i], sequence, now);
      after := StoreNextEvent(storage, record, after, longer);
      longer := longer + [record];
      sequence := sequence + 1;
    }
    assert batch[..|batch|] == batch;
  }

  /** An append without a condition, under the global lock: the paths then hold exactly the files
      of the longer log, every lock is free again. */
  method AppendAll(
    storage: InMemoryStorage<Content>, batch: seq<EventData>, now: nat, ghost files: Files, ghost log: seq<EventRecord>)
    returns (ghost after: Files, ghost longer: seq<EventRecord>)
    requires Represents(storage.files, files) && Indexed(files, log) && storage.locks == {}
    requires |log| + |batch| <= U64_MAX
    modifies storage
    ensures Represents(storage.files, after) && Indexed(after, longer) && Appended(log, batch, now, longer)
    ensures storage.locks == {}
  {
    var taken := storage.TryAcquire(GLOBAL_LOCK);
    var sequence := NextSequence(storage, files);
    NextIsLength(files.events, log);
    after := WriteAll(storage, batch, sequence, now, files, log);
    longer := log + Stamp(batch, |log|, now);
    AppendedIsStamped(log, batch, now, longer);
    storage.Release(GLOBAL_LOCK);
  }
}
