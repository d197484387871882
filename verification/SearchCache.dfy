/**
  The command line's reads as steps among the writers and readers of the search
  cache: what it loads or streams is current, and what it writes is a cache
  publication.
*/
module SearchCache {
  import opened Wrappers
  import opened SearchCli
  import Revision = SearchRevision
  import Snapshots = SearchSnapshots

  /** A stamp as a full signature; versions and path are those of the program and the database file. */
  function SignatureOf(program: Signature, stamp: (string, nat)): Signature {
    program.(databaseId := stamp.0, contentRevision := stamp.1)
  }

  /** The cache file as the command line finds it; `list` is the order in which the statements give the records. */
  ghost function FileOf<R>(cache: Option<Snapshots.Cache>, program: Signature, list: Revision.Projection -> seq<R>): CacheFile<R> {
    if cache.None? then Missing else Body(SignatureOf(program, cache.value.stamp), list(cache.value.records), true)
  }

  /** The loader reads the snapshot of this reader, and its cache is the world's. */
  ghost predicate Mirrors<R>(loader: Loader<R>, w: Snapshots.World, reader: nat, under: Snapshots.UnderRoots,
                             program: Signature, list: Revision.Projection -> seq<R>)
    reads loader
  {
    reader in w.readers && w.readers[reader].state.Some? &&
    loader.library.signature == SignatureOf(program, w.readers[reader].state.value) &&
    loader.library.Records() == list(Revision.Project(w.readers[reader].tables, under)) &&
    loader.cache == FileOf(w.cache, program, list)
  }

  /** Writer and reader of the cache both found their triggers in place. */
  ghost predicate BothComplete(w: Snapshots.World, reader: nat) {
    reader in w.readers && Revision.Complete(w.readers[reader]) && (w.cache.Some? ==> w.cache.value.complete)
  }

  /** After any run a hit is sound: the hypothesis under which the two loads are current. */
  lemma HitIsSound<R>(loader: Loader<R>, start: Snapshots.World, events: seq<Snapshots.Event>, reader: nat,
                      under: Snapshots.UnderRoots, program: Signature, list: Revision.Projection -> seq<R>)
    requires Snapshots.Initial(start) && Snapshots.Possible(start, events, under)
    requires var w := Snapshots.Run(start, events, under);
             Mirrors(loader, w, reader, under, program, list) && BothComplete(w, reader)
    ensures loader.CacheSound()
  {
    var w := Snapshots.Run(start, events, under);
    if loader.Hit() {
      assert w.cache.Some? && SignatureOf(program, w.cache.value.stamp) == loader.library.signature;
      assert w.readers[reader].state == Some(w.cache.value.stamp);
      Snapshots.CacheHitIsCurrent(start, events, under, reader);
    }
  }

  /**
    Loading after any run: an index that is filled holds the projection of the
    snapshot, and the cache file is afterwards that of the world, with this
    reader's publication if the load rebuilt and could write.
  */
  method LoadIndexAfter<R>(loader: Loader<R>, ghost start: Snapshots.World, ghost events: seq<Snapshots.Event>,
                           ghost reader: nat, ghost under: Snapshots.UnderRoots, ghost program: Signature,
                           ghost list: Revision.Projection -> seq<R>, forceRefresh: bool, writable: bool)
    returns (result: LoadResult)
    requires Snapshots.Initial(start) && Snapshots.Possible(start, events, under)
    requires var w := Snapshots.Run(start, events, under);
             Mirrors(loader, w, reader, under, program, list) && BothComplete(w, reader)
    modifies loader
    ensures var w := Snapshots.Run(start, events, under);
            (result.ok ==> loader.index == list(Revision.Project(w.readers[reader].tables, under))) &&
            loader.cache == FileOf(if result.rebuilt && writable
                                   then Snapshots.Step(w, Snapshots.CachePublished(reader), under).cache
                                   else w.cache, program, list)
  {
    HitIsSound(loader, start, events, reader, under, program, list);
    result := loader.LoadIndex(forceRefresh, writable);
  }

  /** The same for streaming: a complete stream is the projection of the snapshot. */
  method StreamRecordsAfter<R>(loader: Loader<R>, ghost start: Snapshots.World, ghost events: seq<Snapshots.Event>,
                               ghost reader: nat, ghost under: Snapshots.UnderRoots, ghost program: Signature,
                               ghost list: Revision.Projection -> seq<R>, forceRefresh: bool, writable: bool)
    returns (result: LoadResult)
    requires Snapshots.Initial(start) && Snapshots.Possible(start, events, under)
    requires var w := Snapshots.Run(start, events, under);
             Mirrors(loader, w, reader, under, program, list) && BothComplete(w, reader)
    modifies loader
    ensures var w := Snapshots.Run(start, events, under);
            (result.ok ==> loader.sunk == old(loader.sunk) + list(Revision.Project(w.readers[reader].tables, under))) &&
            loader.cache == FileOf(if result.rebuilt && writable
                                   then Snapshots.Step(w, Snapshots.CachePublished(reader), under).cache
                                   else w.cache, program, list)
  {
    HitIsSound(loader, start, events, reader, under, program, list);
    result := loader.StreamRecords(forceRefresh, writable);
  }
}
