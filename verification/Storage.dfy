/** The storage the stores run on: one map from path strings to contents, directories that exist
    only as path prefixes, and a set of named locks. */
module Storage {
  import opened Domain
  import opened FileNames
  import opened Log
  import Keys

  // ----- paths -----

  function Prefix(path: string): string {
    if path != [] && path[|path| - 1] == '/' then path else path + "/"
  }

  /** Directly in the directory, not further down. */
  predicate Child(path: string, file: string) {
    Prefix(path) <= file && '/' !in file[|Prefix(path)|..]
  }

  /** The directory itself or anywhere below it. */
  predicate Under(path: string, file: string) {
    Prefix(path) <= file || file == path
  }

  /** What lies directly in a directory, written with or without a closing slash: one more name. */
  lemma ChildIff(path: string, file: string)
    requires path == [] || path[|path| - 1] != '/'
    ensures Child(path, file) <==> exists name :: '/' !in name && file == path + "/" + name
    ensures Child(path + "/", file) <==> Child(path, file)
  {
    assert Prefix(path) == path + "/" == Prefix(path + "/");
    if Child(path, file) {
      assert file == path + "/" + file[|path| + 1..];
    }
    if name :| '/' !in name && file == path + "/" + name {
      assert file[|path| + 1..] == name;
    }
  }

  /** What lies at or below a directory: the path itself, or anything after one more slash. */
  lemma UnderIff(path: string, file: string)
    requires path == [] || path[|path| - 1] != '/'
    ensures Under(path, file) <==> file == path || exists rest :: file == path + "/" + rest
  {
    assert Prefix(path) == path + "/";
    if Prefix(path) <= file {
      assert file == path + "/" + file[|path| + 1..];
    }
  }

  class InMemoryStorage<T> {
    var files: map<string, T>
    var locks: set<string>

    constructor ()
      ensures files == map[] && locks == {}
    {
      files, locks := map[], {};
    }

    method ReadFile(path: string) returns (data: Result<T>)
      ensures data == if path in files then Ok(files[path]) else Err(NotFound)
    {
      data := if path in files then Ok(files[path]) else Err(NotFound);
    }

    method WriteFile(path: string, data: T)
      modifies this`files
      ensures files == old(files)[path := data]
    {
      files := files[path := data];
    }

    /** Removes the files under the path, one collected key after the other, and no others. */
    method DeleteDirAll(path: string)
      modifies this`files
      ensures files == map f | f in old(files) && !Under(path, f) :: old(files)[f]
    {
      ghost var before := files;
      var doomed := set f | f in files && Under(path, f);
      while doomed != {}
        invariant forall f :: f in doomed <==> f in files && Under(path, f)
        invariant files.Keys <= before.Keys && forall f | f in files :: files[f] == before[f]
        invariant forall f | f in before && !Under(path, f) :: f in files
        decreases doomed
      {
        var f :| f in doomed;
        files := files - {f};
        doomed := doomed - {f};
      }
      assert forall f | f in files :: Under(path, f) <==> f in doomed;
    }

    /** The full paths of the files directly in the directory, each once, in ascending order. */
    method ReadDir(path: string) returns (result: seq<string>)
      ensures forall f :: f in result <==> f in files && Child(path, f)
      ensures Keys.Ascends(result)
    {
      var keys := Keys.Sorted(files.Keys);
      result := [];
      for i := 0 to |keys|
        invariant forall f :: f in result <==> f in keys[..i] && Child(path, f)
        invariant Keys.Ascends(result)
      {
        assert keys[..i + 1] == keys[..i] + [keys[i]];
        Keys.EarlierPrecede(keys, i);
        if Child(path, keys[i]) {
          Keys.AscendsOn(result, keys[i]);
          result := result + [keys[i]];
        }
      }
      assert keys[..|keys|] == keys;
    }

    /** One turn of the loop that acquires a lock: it ends the loop if the lock was free. */
    method TryAcquire(lock: string) returns (taken: bool)
      modifies this`locks
      ensures taken <==> lock !in old(locks)
      ensures locks == old(locks) + {lock}
    {
      taken := lock !in locks;
      locks := locks + {lock};
    }

    method Release(lock: string)
      modifies this`locks
      ensures locks == old(locks) - {lock}
    {
      locks := locks - {lock};
    }
  }

  // ----- the files of an event store among the paths -----

  datatype Content = EventContent(record: EventRecord) | IndexContent(positions: seq<nat>)

  /** The path map holds the event files and the position files, and nothing else. */
  ghost predicate Represents(disk: map<string, Content>, files: Files) {
    && (forall p | p in files.events :: EventPath(p) in disk && disk[EventPath(p)] == EventContent(files.events[p]))
    && (forall f | f in files.index :: IndexPath(f) in disk && disk[IndexPath(f)] == IndexContent(files.index[f]))
    && (forall path | path in disk :: IsEventPath(files, path) || IsIndexPath(files, path))
  }

  ghost predicate IsEventPath(files: Files, path: string) {
    exists p :: p in files.events && path == EventPath(p)
  }

  ghost predicate IsIndexPath(files: Files, path: string) {
    exists f :: f in files.index && path == IndexPath(f)
  }

  /** No two positions share a path, at any width. */
  lemma EventPathsDistinct(p: nat, q: nat)
    requires EventPath(p) == EventPath(q)
    ensures p == q
  {
    assert EventPath(p)[|"Events/"|..] == EventFileName(p) && EventPath(q)[|"Events/"|..] == EventFileName(q);
    var name := EventFileName(p);
    assert name[..|name| - |SUFFIX|] == Padded(p) && name[..|name| - |SUFFIX|] == Padded(q);
    PaddedValue(p);
    PaddedValue(q);
  }

  lemma IndexPathsDistinct(f: IndexFile, g: IndexFile)
    requires IndexPath(f) == IndexPath(g)
    ensures f == g
  {
    var path := IndexPath(f);
    assert path[8] == (if f.TypeFile? then 'E' else 'T');
    assert path[8] == (if g.TypeFile? then 'E' else 'T');
    var directory := if f.TypeFile? then "Indices/EventTypes/" else "Indices/Tags/";
    assert path[|directory|..|path| - |SUFFIX|] == f.name;
    assert path[|directory|..|path| - |SUFFIX|] == g.name;
  }

  lemma KindsDistinct(p: nat, f: IndexFile)
    ensures EventPath(p) != IndexPath(f)
  {
    assert EventPath(p)[0] == 'E' && IndexPath(f)[0] == 'I';
  }

  /** Reading a path is looking the file up: the same content, or missing on both sides. */
  lemma ReadsAgree(disk: map<string, Content>, files: Files, p: nat, f: IndexFile)
    requires Represents(disk, files)
    ensures EventPath(p) in disk <==> p in files.events
    ensures p in files.events ==> disk[EventPath(p)] == EventContent(files.events[p])
    ensures IndexPath(f) in disk <==> f in files.index
    ensures f in files.index ==> disk[IndexPath(f)] == IndexContent(files.index[f])
  {
    KindsDistinct(p, f);
    if EventPath(p) in disk {
      if q :| q in files.events && EventPath(p) == EventPath(q) {
        EventPathsDistinct(p, q);
      } else {
        var g :| g in files.index && EventPath(p) == IndexPath(g);
        KindsDistinct(p, g);
      }
    }
    if IndexPath(f) in disk {
      if g :| g in files.index && IndexPath(f) == IndexPath(g) {
        IndexPathsDistinct(f, g);
      } else {
        var q :| q in files.events && IndexPath(f) == EventPath(q);
        KindsDistinct(q, f);
      }
    }
  }

  /** A write to one event file changes that file and no other. */
  lemma EventWriteRepresents(disk: map<string, Content>, files: Files, p: nat, r: EventRecord)
    requires Represents(disk, files)
    ensures Represents(disk[EventPath(p) := EventContent(r)], files.(events := files.events[p := r]))
  {
    var later, after := disk[EventPath(p) := EventContent(r)], files.(events := files.events[p := r]);
    forall q | q in after.events ensures EventPath(q) in later && later[EventPath(q)] == EventContent(after.events[q]) {
      if q != p && EventPath(q) == EventPath(p) { EventPathsDistinct(q, p); }
    }
    forall f | f in after.index ensures IndexPath(f) in later && later[IndexPath(f)] == IndexContent(after.index[f]) {
      KindsDistinct(p, f);
    }
    forall path | path in later ensures IsEventPath(after, path) || IsIndexPath(after, path) {
      if path == EventPath(p) {
        assert p in after.events;
      } else if IsEventPath(files, path) {
        var q :| q in files.events && path == EventPath(q);
        assert q in after.events;
      }
    }
  }

  /** ... and so does a write to a position file. */
  lemma IndexWriteRepresents(disk: map<string, Content>, files: Files, f: IndexFile, positions: seq<nat>)
    requires Represents(disk, files)
    ensures Represents(disk[IndexPath(f) := IndexContent(positions)], files.(index := files.index[f := positions]))
  {
    var later, after := disk[IndexPath(f) := IndexContent(positions)], files.(index := files.index[f := positions]);
    forall g | g in after.index ensures IndexPath(g) in later && later[IndexPath(g)] == IndexContent(after.index[g]) {
      if g != f && IndexPath(g) == IndexPath(f) { IndexPathsDistinct(g, f); }
    }
    forall q | q in after.events ensures EventPath(q) in later && later[EventPath(q)] == EventContent(after.events[q]) {
      KindsDistinct(q, f);
    }
    forall path | path in later ensures IsEventPath(after, path) || IsIndexPath(after, path) {
      if path == IndexPath(f) {
        assert f in after.index;
      } else if IsIndexPath(files, path) {
        var g :| g in files.index && path == IndexPath(g);
        assert g in after.index;
      }
    }
  }

  lemma EventIsChild(p: nat)
    ensures Child("Events", EventPath(p))
  {
    NoSlash(p);
    assert Prefix("Events") == "Events/";
    assert EventPath(p)[|"Events/"|..] == EventFileName(p);
  }

  lemma IndexIsNoChild(f: IndexFile)
    ensures !Child("Events", IndexPath(f))
  {
    assert Prefix("Events") == "Events/";
    assert IndexPath(f)[0] == 'I' && "Events/"[0] == 'E';
  }

  /** Listing the event directory finds exactly the event files, and the paths found parse back
      to exactly the positions stored. */
  lemma ListingIsEvents(disk: map<string, Content>, files: Files)
    requires Represents(disk, files) && forall p | p in files.events :: p <= U64_MAX
    ensures forall path :: path in disk && Child("Events", path) <==> IsEventPath(files, path)
    ensures forall p: nat :: p in files.events <==>
      exists path :: path in disk && Child("Events", path) && ParseEventPath(path) == Some(p)
  {
    forall path ensures path in disk && Child("Events", path) <==> IsEventPath(files, path) {
      if path in disk && Child("Events", path) && IsIndexPath(files, path) {
        var f :| f in files.index && path == IndexPath(f);
        IndexIsNoChild(f);
      }
      if IsEventPath(files, path) {
        var p :| p in files.events && path == EventPath(p);
        EventIsChild(p);
      }
    }
    forall p: nat
      ensures p in files.events <==> exists path :: path in disk && Child("Events", path) && ParseEventPath(path) == Some(p)
    {
      ParsedPositions(disk, files, p);
    }
  }

  lemma ParsedPositions(disk: map<string, Content>, files: Files, p: nat)
    requires Represents(disk, files) && forall q | q in files.events :: q <= U64_MAX
    requires forall path :: path in disk && Child("Events", path) <==> IsEventPath(files, path)
    ensures p in files.events <==> exists path :: path in disk && Child("Events", path) && ParseEventPath(path) == Some(p)
  {
    if p in files.events {
      PathRoundTrip(p);
      assert IsEventPath(files, EventPath(p));
    }
    if path :| path in disk && Child("Events", path) && ParseEventPath(path) == Some(p) {
      assert IsEventPath(files, path);
      var q :| q in files.events && path == EventPath(q);
      PathRoundTrip(q);
    }
  }
}
