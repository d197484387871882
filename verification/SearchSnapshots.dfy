/**
  Writers, readers and cache writes interleaved.  A reader accepts a cache whose
  stamp equals that of its own snapshot.
*/
module SearchSnapshots {
  import opened Wrappers
  import opened SearchRevision

  /**
    The cache file: the stamp it was written with, its records, and whether the
    snapshot it was written from had every trigger, as its writer could test.
  */
  datatype Cache = Cache(stamp: (string, nat), records: Projection, complete: bool)

  /**
    The database, the read snapshots begun, the cache file, the ids handed out so
    far, and for every stamp of a complete store the rows it stood for.
  */
  datatype World = World(store: Store, readers: map<nat, Store>, cache: Option<Cache>, issued: set<string>,
                         history: map<(string, nat), Tables>)

  datatype Event =
    | Wrote(write: Write)
    | TriggersLost(lost: set<Trigger>)
    | IdentityLost
    | Opened(freshId: string)
    | SnapshotBegun(reader: nat)
    | CachePublished(reader: nat)
    | CacheRemoved
    | Closed(reader: nat)

  type UnderRoots = (Value, set<Value>) -> bool

  /** A new identity is one never handed out before. */
  ghost predicate Enabled(w: World, e: Event) {
    (e.Opened? ==> e.freshId != "" && e.freshId !in w.issued) && (e.CachePublished? ==> e.reader in w.readers)
  }

  /** Remembers the rows a stamp stands for, the first time it is current. */
  ghost function Remember(w: World): World {
    if Complete(w.store) && w.store.state.value !in w.history
    then w.(history := w.history[w.store.state.value := w.store.tables])
    else w
  }

  ghost function Published(s: Store, under: UnderRoots): Cache
    requires s.state.Some?
  {
    Cache(s.state.value, Project(s.tables, under), Complete(s))
  }

  /** Opening a connection ensures the triggers; a snapshot begins on any open connection, without ensuring them. */
  ghost function Step(w: World, e: Event, under: UnderRoots): World
    requires Enabled(w, e)
  {
    match e
    case Wrote(write) => Remember(w.(store := Apply(w.store, write)))
    case TriggersLost(lost) => w.(store := w.store.(triggers := w.store.triggers - lost))
    case IdentityLost => w.(store := w.store.(state := None))
    case Opened(freshId) => Remember(w.(store := Ensured(w.store, freshId), issued := w.issued + {freshId}))
    case SnapshotBegun(reader) => w.(readers := w.readers[reader := w.store])
    case CachePublished(reader) =>
      var s := w.readers[reader];
      if s.state.None? then w else w.(cache := Some(Published(s, under)))
    case CacheRemoved => w.(cache := None)
    case Closed(reader) => w.(readers := w.readers - {reader})
  }

  ghost predicate Initial(w: World) {
    w.readers == map[] && w.cache == None && (w.store.state.Some? ==> w.store.state.value.0 in w.issued) &&
    w.history == if Complete(w.store) then map[w.store.state.value := w.store.tables] else map[]
  }

  ghost predicate Possible(w: World, events: seq<Event>, under: UnderRoots)
    decreases |events|
  {
    events == [] || (Enabled(w, events[0]) && Possible(Step(w, events[0], under), events[1..], under))
  }

  ghost function Run(w: World, events: seq<Event>, under: UnderRoots): World
    requires Possible(w, events, under)
    decreases |events|
  {
    if events == [] then w else Run(Step(w, events[0], under), events[1..], under)
  }

  // ---- what every step keeps ---------------------------------------------------

  /** A complete store holds, as far as tracked columns go, the rows remembered for its stamp. */
  ghost predicate Remembered(history: map<(string, nat), Tables>, s: Store) {
    Complete(s) ==> s.state.value in history && SameTracked(history[s.state.value], s.tables)
  }

  ghost predicate CacheRemembered(w: World, under: UnderRoots) {
    w.cache.Some? && w.cache.value.complete ==>
      w.cache.value.stamp in w.history && w.cache.value.records == Project(w.history[w.cache.value.stamp], under)
  }

  /** Remembered stamps were issued, and the current store is not behind any of its own. */
  ghost predicate Ordered(w: World) {
    (forall stamp :: stamp in w.history ==> stamp.0 in w.issued) &&
    (forall stamp :: stamp in w.history && Complete(w.store) && stamp.0 == w.store.state.value.0 ==>
       stamp.1 <= w.store.state.value.1) &&
    (w.store.state.Some? ==> w.store.state.value.0 in w.issued)
  }

  ghost predicate Invariant(w: World, under: UnderRoots) {
    Remembered(w.history, w.store) && (forall r :: r in w.readers ==> Remembered(w.history, w.readers[r])) &&
    CacheRemembered(w, under) && Ordered(w)
  }

  /** Remembering keeps the invariant for a store whose stamp is new or still stands for its rows. */
  lemma RememberKeeps(w: World, under: UnderRoots)
    requires Complete(w.store) && w.store.state.value in w.history ==> Remembered(w.history, w.store)
    requires forall r :: r in w.readers ==> Remembered(w.history, w.readers[r])
    requires CacheRemembered(w, under) && Ordered(w)
    ensures Invariant(Remember(w), under)
  {
  }

  lemma WriteKeeps(w: World, write: Write, under: UnderRoots)
    requires Invariant(w, under)
    ensures Invariant(Remember(w.(store := Apply(w.store, write))), under)
  {
    if Touches(w.store.tables, write) && Complete(w.store) && !Fires(w.store, write) {
      SilentWriteIsUntracked(w.store, write);
    }
    RememberKeeps(w.(store := Apply(w.store, write)), under);
  }

  lemma OpenKeeps(w: World, freshId: string, under: UnderRoots)
    requires Invariant(w, under) && freshId != "" && freshId !in w.issued
    ensures Invariant(Step(w, Opened(freshId), under), under)
  {
    RememberKeeps(w.(store := Ensured(w.store, freshId), issued := w.issued + {freshId}), under);
  }

  lemma PublishKeeps(w: World, reader: nat, under: UnderRoots)
    requires Invariant(w, under) && reader in w.readers
    ensures Invariant(Step(w, CachePublished(reader), under), under)
  {
    var s := w.readers[reader];
    if Complete(s) {
      ProjectionSeesTracked(w.history[s.state.value], s.tables, under);
    }
  }

  lemma StepKeeps(w: World, e: Event, under: UnderRoots)
    requires Invariant(w, under) && Enabled(w, e)
    ensures Invariant(Step(w, e, under), under)
  {
    match e
    case Wrote(write) => WriteKeeps(w, write, under);
    case TriggersLost(_) =>
    case IdentityLost =>
    case Opened(freshId) => OpenKeeps(w, freshId, under);
    case SnapshotBegun(_) =>
    case CachePublished(reader) => PublishKeeps(w, reader, under);
    case CacheRemoved =>
    case Closed(_) =>
  }

  lemma {:induction false} RunKeeps(w: World, events: seq<Event>, under: UnderRoots)
    requires Invariant(w, under) && Possible(w, events, under)
    ensures Invariant(Run(w, events, under), under)
    decreases |events|
  {
    if events != [] {
      StepKeeps(w, events[0], under);
      RunKeeps(Step(w, events[0], under), events[1..], under);
    }
  }

  lemma InitialKeeps(w: World, under: UnderRoots)
    requires Initial(w)
    ensures Invariant(w, under)
  {
  }

  // ---- when a hit is current -----------------------------------------------------

  /** The cache carries the stamp of the reader's snapshot. */
  predicate Hits(w: World, reader: nat) {
    reader in w.readers && w.cache.Some? && w.readers[reader].state == Some(w.cache.value.stamp)
  }

  ghost predicate IsCurrent(w: World, reader: nat, under: UnderRoots)
    requires Hits(w, reader)
  {
    w.cache.value.records == Project(w.readers[reader].tables, under)
  }

  /**
    After any run, whoever wrote the cache and whenever the reader's snapshot
    began: if both snapshots have their triggers and the stamps are equal, the
    cached records are exactly the projection of the reader's snapshot.
  */
  lemma CacheHitIsCurrent(start: World, events: seq<Event>, under: UnderRoots, reader: nat)
    requires Initial(start) && Possible(start, events, under)
    requires var w := Run(start, events, under);
             Hits(w, reader) && w.cache.value.complete && Complete(w.readers[reader])
    ensures IsCurrent(Run(start, events, under), reader, under)
  {
    InitialKeeps(start, under);
    RunKeeps(start, events, under);
    var w := Run(start, events, under);
    ProjectionSeesTracked(w.history[w.cache.value.stamp], w.readers[reader].tables, under);
  }

  /** Every hit is current in every run, among hits where writer and reader find their triggers as given. */
  ghost predicate Guaranteed(writer: bool, reader: bool, under: UnderRoots) {
    forall start: World, events: seq<Event>, r: nat ::
      Initial(start) && Possible(start, events, under) && Hits(Run(start, events, under), r) &&
      Run(start, events, under).cache.value.complete == writer &&
      Complete(Run(start, events, under).readers[r]) == reader ==>
        IsCurrent(Run(start, events, under), r, under)
  }

  /** Both conditions are needed: the guarantee holds exactly when writer and reader both have their triggers. */
  lemma GuaranteeIsExact(writer: bool, reader: bool, under: UnderRoots)
    ensures Guaranteed(writer, reader, under) <==> writer && reader
  {
    if writer && reader {
      forall start, events, r | Initial(start) && Possible(start, events, under) && Hits(Run(start, events, under), r) &&
          Run(start, events, under).cache.value.complete && Complete(Run(start, events, under).readers[r])
        ensures IsCurrent(Run(start, events, under), r, under)
      {
        CacheHitIsCurrent(start, events, under, r);
      }
    } else if writer {
      ReaderWithoutTriggers(under);
    } else if reader {
      WriterWithoutTriggers(under);
    } else {
      BothWithoutTriggers(under);
    }
  }

  // ---- the failing runs -----------------------------------------------------------

  const LOST: set<Trigger> := {("mpd_tracks", Insert)}

  const NEW_ROW := InsertRow("mpd_tracks", 0, map[])

  /** An empty library with every trigger; without them; and then with a row no trigger noticed. */
  const OPEN := Store(map[], ALL_TRIGGERS, Some(("id", 0)))

  const BARE := Store(map[], ALL_TRIGGERS - LOST, Some(("id", 0)))

  const GROWN := Store(map["mpd_tracks" := map[0 := map[]]], ALL_TRIGGERS - LOST, Some(("id", 0)))

  const BEGIN := World(OPEN, map[], None, {"id"}, map[("id", 0) := map[]])

  lemma Stores()
    ensures Complete(OPEN) && !Complete(BARE) && !Complete(GROWN) && Initial(BEGIN)
    ensures Apply(BARE, NEW_ROW) == GROWN
  {
    assert ("mpd_tracks", Insert) in ALL_TRIGGERS;
    assert ("mpd_tracks", Insert) !in BARE.triggers;
  }

  lemma ProjectionsDiffer(under: UnderRoots)
    ensures Project(GROWN.tables, under) != Project(OPEN.tables, under)
  {
    assert 0 in MpdRecords(GROWN.tables) && 0 !in MpdRecords(OPEN.tables);
  }

  /** States that follow one another by the events are a run. */
  lemma {:induction false} RunAlong(w: seq<World>, e: seq<Event>, under: UnderRoots)
    requires |w| == |e| + 1
    requires forall i :: 0 <= i < |e| ==> Enabled(w[i], e[i]) && w[i + 1] == Step(w[i], e[i], under)
    ensures Possible(w[0], e, under) && Run(w[0], e, under) == w[|e|]
    decreases |e|
  {
    if e != [] {
      RunAlong(w[1..], e[1..], under);
    }
  }

  const READER_BARE := [SnapshotBegun(0), CachePublished(0), TriggersLost(LOST), Wrote(NEW_ROW), SnapshotBegun(1)]

  /**
    A cache is written; the triggers are lost and a row goes unnoticed; a
    connection that was open all along begins its snapshot.  Its stamp is the
    cache's, and the cached records are not its own.
  */
  lemma ReaderWithoutTriggers(under: UnderRoots)
    ensures Possible(BEGIN, READER_BARE, under) && Initial(BEGIN)
    ensures var w := Run(BEGIN, READER_BARE, under);
            Hits(w, 1) && w.cache.value.complete && !Complete(w.readers[1]) && !IsCurrent(w, 1, under)
  {
    Stores();
    ProjectionsDiffer(under);
    var w1 := BEGIN.(readers := map[0 := OPEN]);
    var w2 := w1.(cache := Some(Published(OPEN, under)));
    var w3 := w2.(store := BARE);
    var w4 := w3.(store := GROWN);
    var w5 := w4.(readers := map[0 := OPEN, 1 := GROWN]);
    RunAlong([BEGIN, w1, w2, w3, w4, w5], READER_BARE, under);
  }

  const WRITER_BARE := [SnapshotBegun(0), TriggersLost(LOST), Wrote(NEW_ROW), SnapshotBegun(1), CachePublished(1)]

  /** A cache written from a snapshot without triggers carries the stamp of an older, complete snapshot. */
  lemma WriterWithoutTriggers(under: UnderRoots)
    ensures Possible(BEGIN, WRITER_BARE, under) && Initial(BEGIN)
    ensures var w := Run(BEGIN, WRITER_BARE, under);
            Hits(w, 0) && !w.cache.value.complete && Complete(w.readers[0]) && !IsCurrent(w, 0, under)
  {
    Stores();
    ProjectionsDiffer(under);
    var w1 := BEGIN.(readers := map[0 := OPEN]);
    var w2 := w1.(store := BARE);
    var w3 := w2.(store := GROWN);
    var w4 := w3.(readers := map[0 := OPEN, 1 := GROWN]);
    var w5 := w4.(cache := Some(Published(GROWN, under)));
    RunAlong([BEGIN, w1, w2, w3, w4, w5], WRITER_BARE, under);
  }

  const BOTH_BARE := [TriggersLost(LOST), SnapshotBegun(0), CachePublished(0), Wrote(NEW_ROW), SnapshotBegun(1)]

  lemma BothWithoutTriggers(under: UnderRoots)
    ensures Possible(BEGIN, BOTH_BARE, under) && Initial(BEGIN)
    ensures var w := Run(BEGIN, BOTH_BARE, under);
            Hits(w, 1) && !w.cache.value.complete && !Complete(w.readers[1]) && !IsCurrent(w, 1, under)
  {
    Stores();
    ProjectionsDiffer(under);
    var w1 := BEGIN.(store := BARE);
    var w2 := w1.(readers := map[0 := BARE]);
    var w3 := w2.(cache := Some(Published(BARE, under)));
    var w4 := w3.(store := GROWN);
    var w5 := w4.(readers := map[0 := BARE, 1 := GROWN]);
    RunAlong([BEGIN, w1, w2, w3, w4, w5], BOTH_BARE, under);
  }
}
