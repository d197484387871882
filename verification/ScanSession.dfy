/**
  Artist and album ids during a scan.  Within a scan session the store memoises
  the ids it has looked up or inserted; the memo is proved to answer exactly what
  the query it replaces would answer, through rollbacks and session boundaries.
*/
module ScanSession {
  import opened Ordering
  import opened Text
  import opened Wrappers

  type Id = nat

  datatype Album = Album(title: string, artistId: Id)

  /** The name an artist is stored under. */
  function SafeName(name: string): (safe: string)
    ensures safe != "" && if IsBlank(name) then safe == "[unknown]" else IsTrimmed(name, safe)
  {
    TrimIs(name);
    if Trim(name) == "" then "[unknown]" else Trim(name)
  }

  function SafeTitle(title: string): (safe: string)
    ensures safe != "" && if IsBlank(title) then safe == "[unknown album]" else IsTrimmed(title, safe)
  {
    TrimIs(title);
    if Trim(title) == "" then "[unknown album]" else Trim(title)
  }

  function Holders<R(==)>(rows: map<Id, R>, x: R): set<Id> {
    set id | id in rows && rows[id] == x
  }

  /** The first id in order whose row is x: what the SELECT returns. */
  function Select<R(==)>(rows: map<Id, R>, x: R): Option<Id> {
    if Holders(rows, x) == {} then None else Some(Least(Holders(rows, x)))
  }

  /** The id an INSERT assigns. */
  function NextId<R>(rows: map<Id, R>): (id: Id)
    ensures id !in rows && id > 0 && forall k :: k in rows ==> k < id
    ensures if rows == map[] then id == 1 else id - 1 in rows
  {
    var q := Ascending(rows.Keys);
    if q == [] then 1 else
      assert forall k :: k in rows ==> k in q;
      assert q[|q| - 1] in q;
      q[|q| - 1] + 1
  }

  ghost predicate KeysUnique<R>(rows: map<Id, R>) {
    forall a, b :: a in rows && b in rows && rows[a] == rows[b] ==> a == b
  }

  lemma SelectInserted<R>(rows: map<Id, R>, x: R, y: R)
    requires Select(rows, x) == None
    ensures Select(rows[NextId(rows) := x], y) == if y == x then Some(NextId(rows)) else Select(rows, y)
    ensures KeysUnique(rows) ==> KeysUnique(rows[NextId(rows) := x])
  {
    var id := NextId(rows);
    var after := rows[id := x];
    forall k | k in rows ensures rows[k] != x {
      assert k !in Holders(rows, x);
    }
    if y == x {
      assert Holders(after, y) == {id};
    } else {
      assert Holders(after, y) == Holders(rows, y);
    }
    forall a, b | KeysUnique(rows) && a in after && b in after && after[a] == after[b] ensures a == b {
      assert a != id && b != id ==> rows[a] == rows[b];
    }
  }

  /** An insertion is found under its own key and hides nothing else. */
  lemma SelectAfterInsert<R>(rows: map<Id, R>, x: R)
    requires Select(rows, x) == None
    ensures forall y :: Select(rows[NextId(rows) := x], y) == if y == x then Some(NextId(rows)) else Select(rows, y)
    ensures KeysUnique(rows) ==> KeysUnique(rows[NextId(rows) := x])
  {
    forall y ensures Select(rows[NextId(rows) := x], y) == if y == x then Some(NextId(rows)) else Select(rows, y) {
      SelectInserted(rows, x, y);
    }
    SelectInserted(rows, x, x);
  }

  // ---- select or insert -------------------------------------------------------

  /** Which of the two statements would fail if run. */
  datatype Statements = Statements(selectFails: bool, insertFails: bool)

  /** The insert is run only for a key that no row has. */
  predicate StatementFails<R(==)>(rows: map<Id, R>, x: R, statements: Statements) {
    statements.selectFails || (statements.insertFails && Select(rows, x).None?)
  }

  /** A remembered key runs no statement. */
  predicate UpsertFails<R(==)>(rows: map<Id, R>, x: R, memo: map<string, Id>, key: string, statements: Statements) {
    key !in memo && StatementFails(rows, x, statements)
  }

  /** The id is the selected row's, or that of one row added; selecting again finds it. */
  predicate Upserted<R(==)>(before: map<Id, R>, x: R, id: Id, after: map<Id, R>) {
    Select(after, x) == Some(id) &&
    match Select(before, x)
    case Some(k) => id == k && after == before
    case None => id == NextId(before) && after == before[id := x]
  }

  // ---- the cache keys --------------------------------------------------------

  const UNIT_SEPARATOR := 31 as char

  function AlbumCacheKey(artistId: Id, title: string): string {
    Digits(artistId) + [UNIT_SEPARATOR] + title
  }

  /** Different albums never share a cache key, even when a title holds the separator. */
  lemma AlbumCacheKeyInjective(a: Id, s: string, b: Id, t: string)
    requires AlbumCacheKey(a, s) == AlbumCacheKey(b, t)
    ensures a == b && s == t
  {
    assert UNIT_SEPARATOR !in Digits(a) && UNIT_SEPARATOR !in Digits(b);
    CutAtSeparator(Digits(a), s, Digits(b), t, UNIT_SEPARATOR);
    DigitsInjective(a, b);
  }

  // ---- the database ----------------------------------------------------------

  datatype Tables = Tables(artists: map<Id, string>, albums: map<Id, Album>)

  class Database {
    var artists: map<Id, string>
    var albums: map<Id, Album>
    var artistIdCache: map<string, Id>
    var albumIdCache: map<string, Id>
    var scanSession: bool
    var saved: Option<Tables>

    /** Every memoised id is what the query would return now. */
    ghost predicate Valid()
      reads this
    {
      (forall name :: name in artistIdCache ==> Select(artists, name) == Some(artistIdCache[name])) &&
      (forall artistId, title :: AlbumCacheKey(artistId, title) in albumIdCache ==>
         Select(albums, Album(title, artistId)) == Some(albumIdCache[AlbumCacheKey(artistId, title)])) &&
      (forall key :: key in albumIdCache ==> exists artistId, title :: key == AlbumCacheKey(artistId, title)) &&
      (!scanSession ==> artistIdCache == map[] && albumIdCache == map[])
    }

    /** Names are unique, and titles per artist; also in what a rollback would restore. */
    ghost predicate Unique()
      reads this
    {
      KeysUnique(artists) && KeysUnique(albums) &&
      (saved.Some? ==> KeysUnique(saved.value.artists) && KeysUnique(saved.value.albums))
    }

    constructor (artists: map<Id, string>, albums: map<Id, Album>)
      ensures Valid() && this.artists == artists && this.albums == albums && saved == None && !scanSession
    {
      this.artists, this.albums := artists, albums;
      artistIdCache, albumIdCache, scanSession, saved := map[], map[], false, None;
    }

    method BeginTransaction() returns (ok: bool)
      requires Valid()
      modifies this`saved
      ensures Valid() && (old(Unique()) ==> Unique())
      ensures ok == old(saved).None? && saved == Some(if ok then Tables(artists, albums) else old(saved).value)
    {
      if saved.Some? {
        return false;
      }
      saved := Some(Tables(artists, albums));
      ok := true;
    }

    /** Restores the tables and, because remembered ids may be gone with them, forgets every id. */
    method RollbackTransaction() returns (ok: bool)
      requires Valid()
      modifies this
      ensures Valid() && (old(Unique()) ==> Unique()) && scanSession == old(scanSession)
      ensures ok == old(saved).Some? && saved == None
      ensures ok ==> artists == old(saved).value.artists && albums == old(saved).value.albums
      ensures !ok ==> artists == old(artists) && albums == old(albums)
    {
      artistIdCache := map[];
      albumIdCache := map[];
      if saved.None? {
        return false;
      }
      artists, albums := saved.value.artists, saved.value.albums;
      saved := None;
      ok := true;
    }

    method CommitTransaction() returns (ok: bool)
      requires Valid()
      modifies this`saved
      ensures Valid() && (old(Unique()) ==> Unique())
      ensures ok == old(saved).Some? && saved == None
    {
      ok := saved.Some?;
      saved := None;
    }

    method BeginScanSession()
      requires Valid()
      modifies this`scanSession, this`artistIdCache, this`albumIdCache
      ensures Valid() && scanSession && (old(Unique()) ==> Unique())
    {
      scanSession := true;
      artistIdCache := map[];
      albumIdCache := map[];
    }

    method EndScanSession()
      requires Valid()
      modifies this`scanSession, this`artistIdCache, this`albumIdCache
      ensures Valid() && !scanSession && (old(Unique()) ==> Unique())
    {
      scanSession := false;
      artistIdCache := map[];
      albumIdCache := map[];
    }

    /**
      The id of an artist, inserted if no row has the name.  Short of a failing
      statement, the result and the tables are the same with and without a scan
      session.  A remembered name runs no statement; a failure gives 0 and
      neither stores nor remembers anything.
    */
    method UpsertArtist(name: string, statements: Statements) returns (id: Id)
      requires Valid()
      modifies this`artists, this`artistIdCache
      ensures Valid() && (old(Unique()) ==> Unique())
      ensures UpsertFails(old(artists), SafeName(name), old(artistIdCache), SafeName(name), statements) ==>
                id == 0 && artists == old(artists) && artistIdCache == old(artistIdCache)
      ensures !UpsertFails(old(artists), SafeName(name), old(artistIdCache), SafeName(name), statements) ==>
                Upserted(old(artists), SafeName(name), id, artists)
    {
      var safeName := SafeName(name);
      if scanSession {
        if safeName in artistIdCache {
          return artistIdCache[safeName];
        }
      }
      var found := SelectOrInsertArtist(safeName, statements);
      if found.None? {
        return 0;
      }
      id := found.value;
      if scanSession {
        artistIdCache := artistIdCache[safeName := id];
      }
    }

    method SelectOrInsertArtist(safeName: string, statements: Statements) returns (id: Option<Id>)
      requires Valid()
      modifies this`artists
      ensures Valid() && (old(Unique()) ==> Unique())
      ensures id.None? <==> StatementFails(old(artists), safeName, statements)
      ensures id.None? ==> artists == old(artists)
      ensures id.Some? ==> Upserted(old(artists), safeName, id.value, artists)
    {
      if statements.selectFails {
        return None;
      }
      var found := Select(artists, safeName);
      if found.Some? {
        return found;
      }
      if statements.insertFails {
        return None;
      }
      id := Some(NextId(artists));
      SelectAfterInsert(artists, safeName);
      artists := artists[id.value := safeName];
    }

    /** The id of an album, inserted if the artist has none with the title. */
    method UpsertAlbum(title: string, artistId: Id, statements: Statements) returns (id: Id)
      requires Valid()
      modifies this`albums, this`albumIdCache
      ensures Valid() && (old(Unique()) ==> Unique())
      ensures
        var album, key := Album(SafeTitle(title), artistId), AlbumCacheKey(artistId, SafeTitle(title));
        UpsertFails(old(albums), album, old(albumIdCache), key, statements) ==>
          id == 0 && albums == old(albums) && albumIdCache == old(albumIdCache)
      ensures
        var album, key := Album(SafeTitle(title), artistId), AlbumCacheKey(artistId, SafeTitle(title));
        !UpsertFails(old(albums), album, old(albumIdCache), key, statements) ==>
          Upserted(old(albums), album, id, albums)
    {
      var album := Album(SafeTitle(title), artistId);
      var cacheKey := AlbumCacheKey(artistId, album.title);
      if scanSession && cacheKey in albumIdCache {
        return albumIdCache[cacheKey];
      }
      var found := SelectOrInsertAlbum(album, statements);
      if found.None? {
        return 0;
      }
      id := found.value;
      if scanSession {
        forall a, t | AlbumCacheKey(a, t) == cacheKey ensures a == artistId && t == album.title {
          AlbumCacheKeyInjective(a, t, artistId, album.title);
        }
        albumIdCache := albumIdCache[cacheKey := id];
      }
    }

    method SelectOrInsertAlbum(album: Album, statements: Statements) returns (id: Option<Id>)
      requires Valid()
      modifies this`albums
      ensures Valid() && (old(Unique()) ==> Unique())
      ensures id.None? <==> StatementFails(old(albums), album, statements)
      ensures id.None? ==> albums == old(albums)
      ensures id.Some? ==> Upserted(old(albums), album, id.value, albums)
    {
      if statements.selectFails {
        return None;
      }
      var found := Select(albums, album);
      if found.Some? {
        return found;
      }
      if statements.insertFails {
        return None;
      }
      id := Some(NextId(albums));
      SelectAfterInsert(albums, album);
      albums := albums[id.value := album];
    }
  }
}
