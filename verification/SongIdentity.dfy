/**
  Which tracks are copies of one song.

  The frontier search looks rows up by path, recording id and fallback key, and
  expands content groups, until nothing new turns up.  It is proved to collect
  exactly the rows connected to the start in the whole library.
*/
module SongIdentity {
  import opened Wrappers
  import opened Reachability
  import opened Text

  type Path = string

  datatype Row = Row(path: Path, artist: string, title: string, mbid: string, missing: bool)

  /** A field with case folded and white space folded to single blanks. */
  type Folded = s: string | '\n' !in s

  /**
    The tables the search reads: the track rows, the fallback-key index, and the
    content groups of the feature store (empty while the store is closed).
  */
  datatype Library = Library(rows: seq<Row>, keys: map<Path, string>, groups: map<Path, int>, fold: string -> Folded)
  {
    function SongKey(artist: string, title: string): (key: string)
      ensures key != ""
    {
      "at:" + fold(artist) + "\n" + fold(title)
    }

    /** The same song by name: equal artist and equal title, as folded. */
    predicate SameName(artist: string, title: string, otherArtist: string, otherTitle: string) {
      fold(artist) == fold(otherArtist) && fold(title) == fold(otherTitle)
    }

    /** Paths are unique and the index holds the key of every row. */
    ghost predicate Valid() {
      (forall i, j :: 0 <= i < j < |rows| ==> rows[i].path != rows[j].path) &&
      (forall r :: r in rows ==> r.path != "" && r.path in keys && keys[r.path] == SongKey(r.artist, r.title))
    }

    predicate Visible(r: Row) {
      r in rows && !r.missing
    }

    function GroupOf(path: Path): int {
      if path in groups then groups[path] else -1
    }

    function PathsInGroup(group: int): set<Path> {
      if group < 0 then {} else set p | p in groups && groups[p] == group
    }

    /** Two rows are copies: same content group, same recording, or same name without recordings. */
    predicate Copies(a: Row, b: Row) {
      (a.path in groups && b.path in groups && groups[a.path] >= 0 && groups[a.path] == groups[b.path]) ||
      (a.mbid != "" && a.mbid == b.mbid) ||
      (a.mbid == "" && b.mbid == "" && SameName(a.artist, a.title, b.artist, b.title))
    }

    ghost function Linked(): (Row, Row) -> bool {
      (a, b) => Visible(a) && Visible(b) && Copies(a, b)
    }
  }

  /** Fallback keys are equal exactly for the same name. */
  lemma SongKeyIsName(lib: Library, artist: string, title: string, otherArtist: string, otherTitle: string)
    ensures lib.SongKey(artist, title) == lib.SongKey(otherArtist, otherTitle) <==>
            lib.SameName(artist, title, otherArtist, otherTitle)
  {
    var a, t, b, u := lib.fold(artist), lib.fold(title), lib.fold(otherArtist), lib.fold(otherTitle);
    if lib.SongKey(artist, title) == lib.SongKey(otherArtist, otherTitle) {
      assert a + "\n" + t == lib.SongKey(artist, title)[3..];
      assert b + "\n" + u == lib.SongKey(otherArtist, otherTitle)[3..];
      CutAtSeparator(a, t, b, u, '\n');
    }
  }

  lemma PathIsUnique(lib: Library, a: Row, b: Row)
    requires lib.Valid() && a in lib.rows && b in lib.rows && a.path == b.path
    ensures a == b
  {
  }

  // ---- row lookup ------------------------------------------------------------

  datatype Column = ByPath | ByRecording | ByFallback

  /** The value a lookup column compares, or None where the extra predicate excludes the row. */
  function ColumnValue(lib: Library, column: Column, r: Row): Option<string> {
    match column
    case ByPath => Some(r.path)
    case ByRecording => Some(r.mbid)
    case ByFallback =>
      if r.mbid == "" && r.path in lib.keys then Some(lib.keys[r.path]) else None
  }

  predicate Matches(lib: Library, column: Column, values: seq<string>, r: Row) {
    lib.Visible(r) && ColumnValue(lib, column, r).Some? &&
    ColumnValue(lib, column, r).value != "" && ColumnValue(lib, column, r).value in values
  }

  /** Empty values and duplicates dropped. */
  function Distinct(values: seq<string>): (r: seq<string>)
    ensures forall v :: v in r <==> v in values && v != ""
  {
    if values == [] then [] else
      var rest := Distinct(values[..|values| - 1]);
      var last := values[|values| - 1];
      assert forall v :: v in values <==> v in values[..|values| - 1] || v == last;
      if last == "" || last in rest then rest else rest + [last]
  }

  const CHUNK := 500

  /** One query: appends the matching rows not seen before, in table order. */
  method QueryChunk(lib: Library, column: Column, chunk: seq<string>, before: seq<Row>) returns (rows: seq<Row>)
    requires lib.Valid()
    ensures forall r :: r in rows <==> r in before || (r.path !in Paths(before) && Matches(lib, column, chunk, r))
  {
    rows := before;
    for i := 0 to |lib.rows|
      invariant forall r :: r in rows <==>
                  r in before || (r in lib.rows[..i] && r.path !in Paths(before) && Matches(lib, column, chunk, r))
    {
      var r := lib.rows[i];
      assert lib.rows[..i + 1] == lib.rows[..i] + [r];
      if Matches(lib, column, chunk, r) && r.path !in Paths(rows) {
        rows := rows + [r];
      }
    }
    assert lib.rows[..|lib.rows|] == lib.rows;
  }

  function Paths(rows: seq<Row>): set<Path> {
    set r | r in rows :: r.path
  }

  /** The chunked lookup of one column. */
  method AppendMatches(lib: Library, column: Column, values: seq<string>, before: seq<Row>) returns (rows: seq<Row>)
    requires lib.Valid() && forall r :: r in before ==> lib.Visible(r)
    ensures forall r :: r in rows <==> r in before || Matches(lib, column, values, r)
  {
    rows := before;
    var wanted := Distinct(values);
    var start := 0;
    while start < |wanted|
      invariant start <= |wanted|
      invariant forall r :: r in rows <==> r in before || Matches(lib, column, wanted[..start], r)
    {
      var count := if |wanted| - start < CHUNK then |wanted| - start else CHUNK;
      var was := rows;
      rows := QueryChunk(lib, column, wanted[start..start + count], was);
      assert wanted[..start + count] == wanted[..start] + wanted[start..start + count];
      forall r | Matches(lib, column, wanted[start..start + count], r) ensures r in rows {
        if r.path in Paths(was) {
          var q :| q in was && q.path == r.path;
          PathIsUnique(lib, q, r);
        }
      }
      start := start + count;
    }
    assert wanted[..|wanted|] == wanted;
  }

  /** The row's path or recording is listed, or, without a recording, its indexed fallback key is. */
  predicate HasKey(lib: Library, paths: seq<string>, mbids: seq<string>, fallbacks: seq<string>, r: Row) {
    (r.path != "" && r.path in paths) || (r.mbid != "" && r.mbid in mbids) ||
    (r.mbid == "" && r.path in lib.keys && lib.keys[r.path] != "" && lib.keys[r.path] in fallbacks)
  }

  /** The rows that carry one of the keys, whatever the size of the key lists. */
  method TrackMatchRows(lib: Library, paths: seq<string>, mbids: seq<string>, fallbacks: seq<string>)
    returns (rows: seq<Row>)
    requires lib.Valid()
    ensures forall r :: r in rows <==>
              Matches(lib, ByPath, paths, r) || Matches(lib, ByRecording, mbids, r) || Matches(lib, ByFallback, fallbacks, r)
    ensures forall r :: r in rows <==> r in lib.rows && !r.missing && HasKey(lib, paths, mbids, fallbacks, r)
  {
    rows := AppendMatches(lib, ByPath, paths, []);
    rows := AppendMatches(lib, ByRecording, mbids, rows);
    rows := AppendMatches(lib, ByFallback, fallbacks, rows);
  }

  // ---- the frontier ----------------------------------------------------------

  datatype TrackIdentity = TrackIdentity(path: Path, artist: string, title: string, mbid: string, group: int)

  /** The identity carries what the row and the content groups say. */
  predicate Identifies(lib: Library, t: TrackIdentity, r: Row) {
    t.path == r.path && t.artist == r.artist && t.title == r.title && t.mbid == r.mbid &&
    if r.path in lib.groups then t.group == lib.groups[r.path] else t.group == -1
  }

  function IdentityOf(lib: Library, r: Row): (t: TrackIdentity)
    ensures Identifies(lib, t, r)
  {
    TrackIdentity(r.path, r.artist, r.title, r.mbid, lib.GroupOf(r.path))
  }

  /** A worklist: what is still to be looked up, and everything ever put on it. */
  datatype Agenda = Agenda(pending: seq<string>, scheduled: set<string>)

  function Schedule(value: string, a: Agenda): Agenda {
    if value != "" && value !in a.scheduled
    then Agenda(a.pending + [value], a.scheduled + {value})
    else a
  }

  /** `after` is `before` with the values put on it. */
  ghost predicate Extends(before: Agenda, after: Agenda, values: set<string>) {
    after.scheduled == before.scheduled + (values - {""}) &&
    forall v :: v in after.pending <==> v in before.pending || (v in after.scheduled && v !in before.scheduled)
  }

  datatype Frontier = Frontier(paths: Agenda, mbids: Agenda, fallbacks: Agenda,
                               identities: map<Path, TrackIdentity>, expanded: set<int>)

  /** r is connected to the visible row at path. */
  ghost predicate Connected(lib: Library, path: Path, r: Row) {
    lib.Visible(r) && exists s :: lib.Visible(s) && s.path == path && Reaches(lib.Linked(), s, r)
  }

  /** r carries one of the keys. */
  ghost predicate Carries(lib: Library, paths: set<string>, mbids: set<string>, fallbacks: set<string>, r: Row) {
    r.path in paths ||
    (r.mbid != "" && r.mbid in mbids) ||
    (r.mbid == "" && lib.SongKey(r.artist, r.title) in fallbacks)
  }

  ghost predicate Scheduled(lib: Library, f: Frontier, r: Row) {
    Carries(lib, f.paths.scheduled, f.mbids.scheduled, f.fallbacks.scheduled, r)
  }

  function Done(a: Agenda): set<string> {
    a.scheduled - set v | v in a.pending
  }

  /** r carries a key that has been looked up. */
  ghost predicate LookedUp(lib: Library, f: Frontier, r: Row) {
    Carries(lib, Done(f.paths), Done(f.mbids), Done(f.fallbacks), r)
  }

  /** Everything scheduled or collected is connected to the start. */
  ghost predicate Sound(lib: Library, path: Path, f: Frontier) {
    (forall r :: lib.Visible(r) && Scheduled(lib, f, r) ==> Connected(lib, path, r)) &&
    forall p :: p in f.identities ==>
      exists r :: Connected(lib, path, r) && r.path == p && f.identities[p] == IdentityOf(lib, r)
  }

  /** The keys and the group of a collected row are scheduled. */
  ghost predicate Spread(lib: Library, f: Frontier, r: Row) {
    (if r.mbid != "" then r.mbid in f.mbids.scheduled
     else lib.SongKey(r.artist, r.title) in f.fallbacks.scheduled) &&
    (lib.GroupOf(r.path) >= 0 ==> lib.GroupOf(r.path) in f.expanded)
  }

  ghost predicate Propagated(lib: Library, f: Frontier) {
    (forall r :: lib.Visible(r) && r.path in f.identities ==> Spread(lib, f, r)) &&
    forall g :: g in f.expanded ==> lib.PathsInGroup(g) - {""} <= f.paths.scheduled
  }

  /** Every looked-up row is collected, or waits in the batch at hand. */
  ghost predicate Complete(lib: Library, f: Frontier, batch: seq<Row>) {
    forall r :: lib.Visible(r) && LookedUp(lib, f, r) ==> r.path in f.identities || r in batch
  }

  /** What is pending has been scheduled. */
  ghost predicate Tidy(a: Agenda) {
    forall v :: v in a.pending ==> v in a.scheduled
  }

  ghost predicate Invariant(lib: Library, path: Path, f: Frontier, batch: seq<Row>) {
    Sound(lib, path, f) && Propagated(lib, f) && Complete(lib, f, batch) && Bounded(lib, path, f) &&
    Tidy(f.paths) && Tidy(f.mbids) && Tidy(f.fallbacks)
  }

  method ScheduleAll(values: set<string>, before: Agenda) returns (after: Agenda)
    ensures Extends(before, after, values)
  {
    after := before;
    var open := values;
    while open != {}
      invariant open <= values && Extends(before, after, values - open)
      decreases open
    {
      var v :| v in open;
      after := Schedule(v, after);
      assert values - (open - {v}) == (values - open) + {v};
      open := open - {v};
    }
    assert values - open == values;
  }

  /** What collecting one new row does to the frontier. */
  ghost predicate Visits(lib: Library, before: Frontier, r: Row, after: Frontier) {
    var group := lib.GroupOf(r.path);
    after.identities == before.identities[r.path := IdentityOf(lib, r)] &&
    Extends(before.mbids, after.mbids, if r.mbid != "" then {r.mbid} else {}) &&
    Extends(before.fallbacks, after.fallbacks, if r.mbid == "" then {lib.SongKey(r.artist, r.title)} else {}) &&
    Extends(before.paths, after.paths, if group in before.expanded then {} else lib.PathsInGroup(group)) &&
    after.expanded == before.expanded + if group >= 0 then {group} else {}
  }

  /** The body of the row loop. */
  method VisitRow(lib: Library, before: Frontier, r: Row) returns (after: Frontier)
    ensures Visits(lib, before, r, after)
  {
    var group := lib.GroupOf(r.path);
    after := before.(identities := before.identities[r.path := IdentityOf(lib, r)]);
    if r.mbid != "" {
      after := after.(mbids := Schedule(r.mbid, after.mbids));
    } else {
      after := after.(fallbacks := Schedule(lib.SongKey(r.artist, r.title), after.fallbacks));
    }
    if group >= 0 && group !in after.expanded {
      var paths := ScheduleAll(lib.PathsInGroup(group), after.paths);
      after := after.(expanded := after.expanded + {group}, paths := paths);
    }
  }

  /** A visible row carrying a key of a connected row, or a path of its group, is connected. */
  lemma CopyIsConnected(lib: Library, path: Path, r: Row, q: Row)
    requires Connected(lib, path, r) && lib.Visible(q) && lib.Copies(r, q)
    ensures Connected(lib, path, q)
  {
    var s :| lib.Visible(s) && s.path == path && Reaches(lib.Linked(), s, r);
    ReachesFurther(lib.Linked(), s, r, q);
  }

  lemma VisitKeepsSound(lib: Library, path: Path, before: Frontier, r: Row, after: Frontier)
    requires lib.Valid() && Sound(lib, path, before) && Connected(lib, path, r) && Visits(lib, before, r, after)
    ensures Sound(lib, path, after)
  {
    forall q | lib.Visible(q) && Scheduled(lib, after, q) ensures Connected(lib, path, q) {
      if !Scheduled(lib, before, q) {
        SongKeyIsName(lib, r.artist, r.title, q.artist, q.title);
        CopyIsConnected(lib, path, r, q);
      }
    }
    forall p | p in after.identities
      ensures exists q :: Connected(lib, path, q) && q.path == p && after.identities[p] == IdentityOf(lib, q)
    {
      if p == r.path {
        assert Connected(lib, path, r);
      } else {
        assert p in before.identities;
      }
    }
  }

  lemma VisitKeepsPropagated(lib: Library, before: Frontier, r: Row, after: Frontier)
    requires lib.Valid() && lib.Visible(r) && Propagated(lib, before) && Visits(lib, before, r, after)
    ensures Propagated(lib, after)
  {
    forall q | lib.Visible(q) && q.path in after.identities ensures Spread(lib, after, q) {
      if q.path == r.path {
        PathIsUnique(lib, q, r);
      } else {
        assert Spread(lib, before, q);
      }
    }
  }

  lemma VisitKeepsComplete(lib: Library, before: Frontier, r: Row, after: Frontier, batch: seq<Row>)
    requires Complete(lib, before, [r] + batch) && Visits(lib, before, r, after)
    ensures Complete(lib, after, batch)
  {
    forall q | lib.Visible(q) && LookedUp(lib, after, q) ensures q.path in after.identities || q in batch {
      assert LookedUp(lib, before, q);
    }
  }

  /** Everything the search can ever schedule. */
  ghost function AllPaths(lib: Library, path: Path): set<string> {
    Paths(lib.rows) + lib.groups.Keys + {path}
  }

  ghost function AllMbids(lib: Library): set<string> {
    set r | r in lib.rows :: r.mbid
  }

  ghost function AllFallbacks(lib: Library): set<string> {
    set r | r in lib.rows :: lib.SongKey(r.artist, r.title)
  }

  ghost predicate Bounded(lib: Library, path: Path, f: Frontier) {
    f.paths.scheduled <= AllPaths(lib, path) && f.mbids.scheduled <= AllMbids(lib) &&
    f.fallbacks.scheduled <= AllFallbacks(lib)
  }

  /** How much is still unscheduled. */
  ghost function Unscheduled(lib: Library, path: Path, f: Frontier): nat {
    |AllPaths(lib, path) - f.paths.scheduled| + |AllMbids(lib) - f.mbids.scheduled| +
    |AllFallbacks(lib) - f.fallbacks.scheduled|
  }

  ghost predicate Grows(before: Frontier, after: Frontier) {
    before.paths.scheduled <= after.paths.scheduled && before.mbids.scheduled <= after.mbids.scheduled &&
    before.fallbacks.scheduled <= after.fallbacks.scheduled
  }

  ghost predicate Pending(f: Frontier) {
    f.paths.pending != [] || f.mbids.pending != [] || f.fallbacks.pending != []
  }

  lemma FewerUnscheduled(all: set<string>, before: set<string>, after: set<string>)
    requires before <= after <= all
    ensures |all - after| <= |all - before| && (after != before ==> |all - after| < |all - before|)
  {
    assert (after - before) + (all - after) == all - before;
    if after != before {
      assert after - before != {};
    }
  }

  lemma VisitKeepsInvariant(lib: Library, path: Path, before: Frontier, r: Row, after: Frontier, batch: seq<Row>)
    requires lib.Valid() && Invariant(lib, path, before, [r] + batch) && Connected(lib, path, r)
    requires Visits(lib, before, r, after)
    ensures Invariant(lib, path, after, batch) && Grows(before, after)
  {
    VisitKeepsSound(lib, path, before, r, after);
    VisitKeepsPropagated(lib, before, r, after);
    VisitKeepsComplete(lib, before, r, after, batch);
  }

  lemma SkipKeepsInvariant(lib: Library, path: Path, f: Frontier, r: Row, batch: seq<Row>)
    requires lib.Valid() && Invariant(lib, path, f, [r] + batch) && r.path in f.identities
    ensures Invariant(lib, path, f, batch)
  {
    forall q | lib.Visible(q) && LookedUp(lib, f, q) ensures q.path in f.identities || q in batch {
    }
  }

  /** The loop over one batch of rows. */
  method CollectRows(lib: Library, path: Path, before: Frontier, rows: seq<Row>) returns (f: Frontier)
    requires lib.Valid() && Invariant(lib, path, before, rows)
    requires forall r :: r in rows ==> Connected(lib, path, r)
    requires !Pending(before)
    ensures Invariant(lib, path, f, []) && Grows(before, f)
    ensures f.paths.scheduled == before.paths.scheduled ==> f.paths.pending == []
    ensures f.mbids.scheduled == before.mbids.scheduled ==> f.mbids.pending == []
    ensures f.fallbacks.scheduled == before.fallbacks.scheduled ==> f.fallbacks.pending == []
  {
    f := before;
    for i := 0 to |rows|
      invariant Invariant(lib, path, f, rows[i..]) && Grows(before, f)
      invariant forall v :: v in f.paths.pending ==> v !in before.paths.scheduled
      invariant forall v :: v in f.mbids.pending ==> v !in before.mbids.scheduled
      invariant forall v :: v in f.fallbacks.pending ==> v !in before.fallbacks.scheduled
    {
      var r := rows[i];
      assert rows[i..] == [r] + rows[i + 1..];
      if r.path in f.identities {
        SkipKeepsInvariant(lib, path, f, r, rows[i + 1..]);
      } else {
        ghost var was := f;
        f := VisitRow(lib, f, r);
        VisitKeepsInvariant(lib, path, was, r, f, rows[i + 1..]);
      }
    }
    assert rows[|rows|..] == [];
    assert f.paths.pending != [] ==> f.paths.pending[0] in f.paths.pending;
    assert f.mbids.pending != [] ==> f.mbids.pending[0] in f.mbids.pending;
    assert f.fallbacks.pending != [] ==> f.fallbacks.pending[0] in f.fallbacks.pending;
  }

  function Emptied(f: Frontier): Frontier {
    f.(paths := f.paths.(pending := []), mbids := f.mbids.(pending := []), fallbacks := f.fallbacks.(pending := []))
  }

  ghost predicate Found(lib: Library, f: Frontier, rows: seq<Row>) {
    forall r :: r in rows <==>
      Matches(lib, ByPath, f.paths.pending, r) || Matches(lib, ByRecording, f.mbids.pending, r) ||
      Matches(lib, ByFallback, f.fallbacks.pending, r)
  }

  lemma FoundIsScheduled(lib: Library, f: Frontier, rows: seq<Row>, r: Row)
    requires lib.Valid() && Tidy(f.paths) && Tidy(f.mbids) && Tidy(f.fallbacks) && Found(lib, f, rows) && r in rows
    ensures lib.Visible(r) && Scheduled(lib, f, r)
  {
  }

  lemma LookupCompletes(lib: Library, f: Frontier, rows: seq<Row>, r: Row)
    requires lib.Valid() && Complete(lib, f, []) && Found(lib, f, rows)
    requires lib.Visible(r) && LookedUp(lib, Emptied(f), r)
    ensures r.path in f.identities || r in rows
  {
    if !LookedUp(lib, f, r) {
      assert Matches(lib, ByPath, f.paths.pending, r) || Matches(lib, ByRecording, f.mbids.pending, r) ||
             Matches(lib, ByFallback, f.fallbacks.pending, r);
    }
  }

  lemma EmptiedKeepsSound(lib: Library, path: Path, f: Frontier)
    requires Sound(lib, path, f) && Propagated(lib, f)
    ensures Sound(lib, path, Emptied(f)) && Propagated(lib, Emptied(f))
  {
    assert forall r :: Scheduled(lib, f, r) <==> Scheduled(lib, Emptied(f), r);
    assert forall r :: Spread(lib, f, r) <==> Spread(lib, Emptied(f), r);
  }

  /** Taking the worklists and looking their keys up keeps the invariant, with the found rows as the batch. */
  lemma LookupKeepsInvariant(lib: Library, path: Path, f: Frontier, rows: seq<Row>)
    requires lib.Valid() && Invariant(lib, path, f, []) && Found(lib, f, rows)
    ensures Invariant(lib, path, Emptied(f), rows)
    ensures forall r :: r in rows ==> Connected(lib, path, r)
  {
    EmptiedKeepsSound(lib, path, f);
    forall r | r in rows ensures Connected(lib, path, r) {
      FoundIsScheduled(lib, f, rows, r);
    }
    forall r | lib.Visible(r) && LookedUp(lib, Emptied(f), r) ensures r.path in f.identities || r in rows {
      LookupCompletes(lib, f, rows, r);
    }
  }

  /** With nothing pending, a copy of a collected row is collected. */
  lemma CollectedIsClosed(lib: Library, f: Frontier, a: Row, b: Row)
    requires lib.Valid() && Propagated(lib, f) && Complete(lib, f, []) && !Pending(f)
    requires lib.Visible(a) && lib.Visible(b) && lib.Copies(a, b) && a.path in f.identities
    ensures b.path in f.identities
  {
    assert Spread(lib, f, a);
    if lib.GroupOf(a.path) >= 0 && lib.GroupOf(a.path) == lib.GroupOf(b.path) {
      assert b.path in lib.PathsInGroup(lib.GroupOf(a.path)) - {""};
    }
    assert Scheduled(lib, f, b);
    assert LookedUp(lib, f, b);
  }

  lemma SearchIsComplete(lib: Library, path: Path, f: Frontier, r: Row)
    requires lib.Valid() && Invariant(lib, path, f, []) && !Pending(f) && path in f.paths.scheduled
    requires Connected(lib, path, r)
    ensures r.path in f.identities
  {
    var s :| lib.Visible(s) && s.path == path && Reaches(lib.Linked(), s, r);
    assert LookedUp(lib, f, s);
    var inside := set q | q in lib.rows && lib.Visible(q) && q.path in f.identities;
    forall x, y | x in inside && lib.Linked()(x, y) ensures y in inside {
      CollectedIsClosed(lib, f, x, y);
    }
    ReachedIsInside(lib.Linked(), inside, s, r);
  }

  /** The identities collected are exactly those of the rows connected to the row at path. */
  ghost predicate IsComponent(lib: Library, path: Path, identities: map<Path, TrackIdentity>) {
    (forall r :: Connected(lib, path, r) ==> r.path in identities) &&
    forall p :: p in identities ==>
      exists r :: Connected(lib, path, r) && r.path == p && identities[p] == IdentityOf(lib, r)
  }

  /** Only the start itself is scheduled. */
  function AtStart(path: Path): Frontier {
    Frontier(Agenda([path], {path}), Agenda([], {}), Agenda([], {}), map[], {})
  }

  lemma StartIsSound(lib: Library, path: Path)
    requires path != ""
    ensures Sound(lib, path, AtStart(path))
  {
    forall r | lib.Visible(r) && Scheduled(lib, AtStart(path), r) ensures Connected(lib, path, r) {
      assert r.path == path;
      ReachesSelf(lib.Linked(), r);
    }
  }

  lemma NothingLookedUp(lib: Library, path: Path, r: Row)
    requires path != ""
    ensures !LookedUp(lib, AtStart(path), r)
  {
    assert Done(AtStart(path).paths) == {};
  }

  lemma SearchStarts(lib: Library, path: Path)
    requires lib.Valid() && path != ""
    ensures Invariant(lib, path, AtStart(path), [])
  {
    StartIsSound(lib, path);
    forall r ensures !LookedUp(lib, AtStart(path), r) {
      NothingLookedUp(lib, path, r);
    }
  }

  /** One round of the search. */
  method SearchRound(lib: Library, path: Path, before: Frontier) returns (f: Frontier)
    requires lib.Valid() && Invariant(lib, path, before, [])
    ensures Invariant(lib, path, f, []) && Grows(before, f)
    ensures Unscheduled(lib, path, f) < Unscheduled(lib, path, before) ||
            (Unscheduled(lib, path, f) == Unscheduled(lib, path, before) && !Pending(f))
  {
    var rows := TrackMatchRows(lib, before.paths.pending, before.mbids.pending, before.fallbacks.pending);
    LookupKeepsInvariant(lib, path, before, rows);
    f := CollectRows(lib, path, Emptied(before), rows);
    FewerUnscheduled(AllPaths(lib, path), before.paths.scheduled, f.paths.scheduled);
    FewerUnscheduled(AllMbids(lib), before.mbids.scheduled, f.mbids.scheduled);
    FewerUnscheduled(AllFallbacks(lib), before.fallbacks.scheduled, f.fallbacks.scheduled);
  }

  /** The frontier search. */
  method CollectIdentities(lib: Library, path: Path) returns (identities: map<Path, TrackIdentity>)
    requires lib.Valid() && path != ""
    ensures IsComponent(lib, path, identities)
  {
    var f := AtStart(path);
    SearchStarts(lib, path);
    while f.paths.pending != [] || f.mbids.pending != [] || f.fallbacks.pending != []
      invariant Invariant(lib, path, f, []) && path in f.paths.scheduled
      decreases Unscheduled(lib, path, f), Pending(f)
    {
      f := SearchRound(lib, path, f);
    }
    identities := f.identities;
    forall r | Connected(lib, path, r) ensures r.path in identities {
      SearchIsComplete(lib, path, f, r);
    }
  }
}
