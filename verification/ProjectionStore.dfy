/** The stored side of projections: state files with their metadata, the tag directories and
    the metadata index, kept in agreement through save, delete, clear and batch mode. */
module ProjectionStore {
  import opened Domain
  import opened FileNames
  import opened Projections
  import Keys

  /** `size_in_bytes` is not kept. */
  datatype Metadata = Metadata(createdAt: nat, lastUpdatedAt: nat, version: nat)

  datatype Wrapper<S> = Wrapper(data: S, metadata: Metadata)

  type States<S> = map<string, Wrapper<S>>

  /** The empty file `Indices/{tagKey}/{tagValue}/{key}.json`. */
  datatype TagEntry = TagEntry(tagKey: string, tagValue: string, key: string)

  function EntryFor(t: Tag, key: string): TagEntry {
    TagEntry(Lower(t.key), Lower(t.value), key)
  }

  /** The state carries the tag, up to lower case. */
  predicate Carries<S>(provider: S -> seq<Tag>, state: S, tagKey: string, tagValue: string) {
    exists t | t in provider(state) :: Lower(t.key) == tagKey && Lower(t.value) == tagValue
  }

  /** One of the tags is this one, up to letter case in key and value. */
  ghost predicate HasTag(tags: seq<Tag>, tag: Tag) {
    exists t | t in tags :: SameText(t.key, tag.key) && SameText(t.value, tag.value)
  }

  lemma CarriesHas<S>(provider: S -> seq<Tag>, state: S, tag: Tag)
    ensures Carries(provider, state, Lower(tag.key), Lower(tag.value)) <==> HasTag(provider(state), tag)
  {
    forall t | t in provider(state)
      ensures Lower(t.key) == Lower(tag.key) <==> SameText(t.key, tag.key)
      ensures Lower(t.value) == Lower(tag.value) <==> SameText(t.value, tag.value)
    {
      LowerIff(t.key, tag.key);
      LowerIff(t.value, tag.value);
    }
  }

  function NextMetadata(known: map<string, Metadata>, key: string, now: nat): Metadata {
    if key in known then Metadata(known[key].createdAt, now, known[key].version + 1)
    else Metadata(now, now, 1)
  }

  function MetadataOf<S>(states: States<S>): map<string, Metadata> {
    map k | k in states :: states[k].metadata
  }

  function ContentsOf<S>(states: States<S>): Contents<S> {
    map k | k in states :: states[k].data
  }

  /** What a save leaves: a new version of the key, everything else as it was. */
  function Saving<S>(states: States<S>, key: string, state: S, now: nat): States<S> {
    states[key := Wrapper(state, NextMetadata(MetadataOf(states), key, now))]
  }

  ghost predicate TagsAgree<S>(provider: Option<S -> seq<Tag>>, states: States<S>, tagFiles: set<TagEntry>) {
    forall e :: e in tagFiles <==>
      && e.key in states && provider.Some?
      && Carries(provider.value, states[e.key].data, e.tagKey, e.tagValue)
  }

  class StorageBackendProjectionStore<S> {
    const tagProvider: Option<S -> seq<Tag>>
    var states: States<S>
    var tagFiles: set<TagEntry>
    var metadataIndex: Option<map<string, Metadata>>
    var skipIndexWrites: bool

    /** Outside batch mode the index holds exactly the metadata of the state files. */
    ghost predicate MetadataAgrees()
      reads this
    {
      Index() == MetadataOf(states)
    }

    ghost predicate Valid()
      reads this
    {
      TagsAgree(tagProvider, states, tagFiles) && (!skipIndexWrites ==> MetadataAgrees())
    }

    /** A missing index file reads as an empty index. */
    function Index(): map<string, Metadata>
      reads this
    {
      if metadataIndex.Some? then metadataIndex.value else map[]
    }

    constructor (tagProvider: Option<S -> seq<Tag>>)
      ensures Valid() && states == map[] && !skipIndexWrites && this.tagProvider == tagProvider
    {
      this.tagProvider := tagProvider;
      states, tagFiles, metadataIndex, skipIndexWrites := map[], {}, None, false;
    }

    function Get(key: string): Option<S>
      reads this
    {
      if key in states then Some(states[key].data) else None
    }

    /** Removes the index files of the tags the stored state carries. */
    method RemoveOldTags(key: string)
      requires Valid()
      modifies this`tagFiles
      ensures forall e :: e in tagFiles <==> e in old(tagFiles) && e.key != key
    {
      var stored := Get(key);
      if tagProvider.Some? && stored.Some? {
        var oldTags := tagProvider.value(stored.value);
        for i := 0 to |oldTags|
          invariant forall e :: e in tagFiles <==>
            e in old(tagFiles) && !exists t | t in oldTags[..i] :: e == EntryFor(t, key)
        {
          assert oldTags[..i + 1] == oldTags[..i] + [oldTags[i]];
          tagFiles := tagFiles - {EntryFor(oldTags[i], key)};
        }
        assert oldTags[..|oldTags|] == oldTags;
      }
    }

    method WriteTags(key: string, state: S)
      modifies this`tagFiles
      ensures forall e :: e in tagFiles <==>
        e in old(tagFiles)
        || (tagProvider.Some? && e.key == key && Carries(tagProvider.value, state, e.tagKey, e.tagValue))
    {
      if tagProvider.Some? {
        var newTags := tagProvider.value(state);
        for i := 0 to |newTags|
          invariant forall e :: e in tagFiles <==> e in old(tagFiles) || exists t | t in newTags[..i] :: e == EntryFor(t, key)
        {
          assert newTags[..i + 1] == newTags[..i] + [newTags[i]];
          tagFiles := tagFiles + {EntryFor(newTags[i], key)};
        }
        assert newTags[..|newTags|] == newTags;
      }
    }

    method Save(key: string, state: S, now: nat)
      requires Valid()
      modifies this
      ensures Valid() && states == Saving(old(states), key, state, now)
      ensures skipIndexWrites == old(skipIndexWrites)
    {
      RemoveOldTags(key);
      var metadata;
      if skipIndexWrites {
        metadata := if key in states
                    then Metadata(states[key].metadata.createdAt, now, states[key].metadata.version + 1)
                    else Metadata(now, now, 1);
      } else {
        metadata := NextMetadata(Index(), key, now);
      }
      states := states[key := Wrapper(state, metadata)];
      if !skipIndexWrites {
        metadataIndex := Some(Index()[key := metadata]);
      }
      WriteTags(key, state);
    }

    method Delete(key: string)
      requires Valid()
      modifies this
      ensures Valid() && states == old(states) - {key}
      ensures skipIndexWrites == old(skipIndexWrites)
    {
      RemoveOldTags(key);
      if !skipIndexWrites && metadataIndex.Some? && key in metadataIndex.value {
        metadataIndex := Some(metadataIndex.value - {key});
      }
      states := states - {key};
    }

    /** Needs no agreement to start from: it removes the whole projection directory. */
    method Clear()
      modifies this
      ensures Valid() && states == map[] && skipIndexWrites == old(skipIndexWrites)
    {
      states, tagFiles, metadataIndex := map[], {}, None;
    }

    method SetBatchMode(enabled: bool)
      modifies this`skipIndexWrites
      ensures skipIndexWrites == enabled
    {
      skipIndexWrites := enabled;
    }

    /** Rebuilds the index from the state files, whatever it held. */
    method RebuildMetadataIndex()
      requires TagsAgree(tagProvider, states, tagFiles)
      modifies this`metadataIndex
      ensures Valid() && MetadataAgrees()
    {
      var index: map<string, Metadata> := map[];
      var files := states.Keys;
      while files != {}
        invariant files <= states.Keys
        invariant index == map k | k in states && k !in files :: states[k].metadata
        decreases files
      {
        var key :| key in files;
        index := index[key := states[key].metadata];
        files := files - {key};
      }
      metadataIndex := Some(index);
    }

    /** The keys in one tag directory, in no particular order. */
    method ReadTagDirectory(tag: Tag) returns (keys: seq<string>)
      ensures forall k :: k in keys <==> EntryFor(tag, k) in tagFiles
      ensures forall i, j | 0 <= i < j < |keys| :: keys[i] != keys[j]
    {
      keys := [];
      var rest := tagFiles;
      while rest != {}
        invariant rest <= tagFiles
        invariant forall k :: k in keys <==> EntryFor(tag, k) in tagFiles && EntryFor(tag, k) !in rest
        invariant forall i, j | 0 <= i < j < |keys| :: keys[i] != keys[j]
        decreases rest
      {
        var e :| e in rest;
        rest := rest - {e};
        if e.tagKey == Lower(tag.key) && e.tagValue == Lower(tag.value) {
          assert e == EntryFor(tag, e.key);
          keys := keys + [e.key];
        }
      }
    }

    method Load(keys: seq<string>) returns (results: seq<S>)
      requires forall k | k in keys :: k in states
      ensures |results| == |keys| && forall i | 0 <= i < |keys| :: results[i] == states[keys[i]].data
    {
      results := [];
      for i := 0 to |keys|
        invariant |results| == i && forall k | 0 <= k < i :: results[k] == states[keys[k]].data
      {
        var state := Get(keys[i]);
        if state.Some? {
          results := results + [state.value];
        }
      }
    }

    /** The results are the states of exactly the keys that carry the tags, each key once. */
    ghost predicate Lists(keys: seq<string>, results: seq<S>, tags: seq<Tag>)
      reads this
    {
      && |results| == |keys| && (forall i, j | 0 <= i < j < |keys| :: keys[i] != keys[j])
      && (forall k :: k in keys <==> k in states && CarriesAll(k, tags))
      && forall i | 0 <= i < |keys| :: keys[i] in states && results[i] == states[keys[i]].data
    }

    /** The states carrying the tag, each once, as a scan over all states would find them. */
    method QueryByTag(tag: Tag) returns (results: seq<S>)
      requires Valid()
      ensures exists keys :: Lists(keys, results, [tag])
    {
      var keys := ReadTagDirectory(tag);
      CarriesEntries([tag]);
      assert tag in [tag];
      results := Load(keys);
      assert forall i | 0 <= i < |keys| :: keys[i] in keys;
      assert Lists(keys, results, [tag]);
    }

    /** The state of the key has each of the tags, up to letter case. */
    ghost predicate CarriesAll(key: string, tags: seq<Tag>)
      requires key in states
      reads this
    {
      tagProvider.Some? && forall t | t in tags :: HasTag(tagProvider.value(states[key].data), t)
    }

    lemma CarriesEntries(tags: seq<Tag>)
      requires Valid() && tags != []
      ensures forall k :: (forall t | t in tags :: EntryFor(t, k) in tagFiles) <==> k in states && CarriesAll(k, tags)
    {
      assert tags[0] in tags;
      forall k, t ensures EntryFor(t, k) in tagFiles <==>
        k in states && tagProvider.Some? && HasTag(tagProvider.value(states[k].data), t)
      {
        if k in states && tagProvider.Some? { CarriesHas(tagProvider.value, states[k].data, t); }
      }
      forall k ensures (forall t | t in tags :: EntryFor(t, k) in tagFiles) <==> k in states && CarriesAll(k, tags) {
        if forall t | t in tags :: EntryFor(t, k) in tagFiles { assert EntryFor(tags[0], k) in tagFiles; }
      }
    }

    /** The keys found in the directories of all tags; it stops at the first empty intersection. */
    method CandidateKeys(tags: seq<Tag>) returns (candidates: set<string>)
      requires Valid() && tags != []
      ensures forall k :: k in candidates <==> forall t | t in tags :: EntryFor(t, k) in tagFiles
    {
      candidates := {};
      for i := 0 to |tags|
        invariant i > 0 ==> forall k :: k in candidates <==> forall t | t in tags[..i] :: EntryFor(t, k) in tagFiles
      {
        assert tags[..i + 1] == tags[..i] + [tags[i]];
        var found := ReadTagDirectory(tags[i]);
        var here := set k | k in found;
        candidates := if i == 0 then here else candidates * here;
        if candidates == {} {
          assert tags[..i + 1] <= tags;
          assert forall t | t in tags[..i + 1] :: t in tags;
          return;
        }
      }
      assert tags[..|tags|] == tags;
    }

    /** The states carrying every tag, each once, by ascending key; nothing for an empty list. */
    method QueryByTags(tags: seq<Tag>) returns (results: seq<S>)
      requires Valid()
      ensures tags == [] ==> results == []
      ensures tags != [] ==> exists keys :: Lists(keys, results, tags) && Keys.Ascends(keys)
    {
      if tags == [] {
        return [];
      }
      var candidates := CandidateKeys(tags);
      CarriesEntries(tags);
      var keys := Keys.Sorted(candidates);
      assert forall i | 0 <= i < |keys| :: keys[i] in keys;
      results := Load(keys);
      assert Lists(keys, results, tags);
    }
  }

  // ----- runs of store operations -----

  /** `EndBatch` is leaving batch mode followed by the rebuild of the metadata index. */
  datatype Op<S> = SaveOp(key: string, state: S, now: nat) | DeleteOp(key: string) | ClearOp | BeginBatch | EndBatch

  function StatesAfter<S>(ops: seq<Op<S>>): States<S> {
    if ops == [] then map[]
    else
      var states := StatesAfter(ops[..|ops| - 1]);
      match ops[|ops| - 1]
      case SaveOp(key, state, now) => Saving(states, key, state, now)
      case DeleteOp(key) => states - {key}
      case ClearOp => map[]
      case _ => states
  }

  datatype Saved<S> = Saved(state: S, time: nat)

  /** The saves of a key since its last delete or the last clear. */
  function SavesSince<S>(ops: seq<Op<S>>, key: string): seq<Saved<S>> {
    if ops == [] then []
    else
      var before := SavesSince(ops[..|ops| - 1], key);
      match ops[|ops| - 1]
      case SaveOp(k, state, now) => if k == key then before + [Saved(state, now)] else before
      case DeleteOp(k) => if k == key then [] else before
      case ClearOp => []
      case _ => before
  }

  /** A key is there exactly if it was saved since its last delete or clear; it holds the state
      saved last, its version is the number of those saves, in batch mode or not, and its times are
      those of the first and the last of them. */
  lemma {:induction false} VersionCountsSaves<S>(ops: seq<Op<S>>, key: string)
    ensures key in StatesAfter(ops) <==> SavesSince(ops, key) != []
    ensures key in StatesAfter(ops) ==>
      var saves := SavesSince(ops, key); var last := saves[|saves| - 1];
      && StatesAfter(ops)[key].data == last.state
      && StatesAfter(ops)[key].metadata.version == |saves|
      && StatesAfter(ops)[key].metadata.createdAt == saves[0].time
      && StatesAfter(ops)[key].metadata.lastUpdatedAt == last.time
  {
    if ops != [] {
      VersionCountsSaves(ops[..|ops| - 1], key);
    }
  }

  /** Performs a run of operations on an empty store. Whenever batch mode is off the metadata
      index agrees with the state files; tag directories always do. */
  method Perform<S>(provider: Option<S -> seq<Tag>>, ops: seq<Op<S>>) returns (store: StorageBackendProjectionStore<S>)
    ensures fresh(store) && store.Valid() && store.tagProvider == provider
    ensures store.states == StatesAfter(ops)
    ensures !store.skipIndexWrites ==> store.Index() == MetadataOf(StatesAfter(ops))
  {
    store := new StorageBackendProjectionStore(provider);
    for i := 0 to |ops|
      invariant fresh(store) && store.Valid() && store.tagProvider == provider
      invariant store.states == StatesAfter(ops[..i])
    {
      assert ops[..i + 1][..i] == ops[..i];
      match ops[i]
      case SaveOp(key, state, now) => store.Save(key, state, now);
      case DeleteOp(key) => store.Delete(key);
      case ClearOp => store.Clear();
      case BeginBatch => store.SetBatchMode(true);
      case EndBatch =>
        store.SetBatchMode(false);
        store.RebuildMetadataIndex();
    }
    assert ops[..|ops|] == ops;
  }
}
