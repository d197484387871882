/**
  Version 17 of the library schema: artist and album rows that share a practical
  key collapse onto the oldest row of their group.  References move first, then
  the duplicates are deleted one by one, in whatever order the store visits them.
*/
module LibraryMigration {
  import opened Ordering
  import opened Wrappers

  type Id = nat

  datatype Artist = Artist(name: string, other: string)

  datatype Album = Album(title: string, artistId: Option<Id>, other: string)

  // ---- groups of rows with one key -------------------------------------------

  /** Ids of the rows that share the key of row id. */
  function Group<R, K(==)>(rows: map<Id, R>, key: R -> K, id: Id): (group: set<Id>)
    requires id in rows
    ensures id in group
  {
    set k | k in rows && key(rows[k]) == key(rows[id])
  }

  predicate HasOlder<R, K(==)>(rows: map<Id, R>, key: R -> K, id: Id) {
    id in rows && exists k :: k in rows && k < id && key(rows[k]) == key(rows[id])
  }

  /** The id a reference is moved to: the oldest row of its group, unless it already names it or names nothing. */
  function Kept<R, K(==)>(rows: map<Id, R>, key: R -> K, id: Id): Id {
    if HasOlder(rows, key, id) then Least(Group(rows, key, id)) else id
  }

  function KeptRef<R, K(==)>(rows: map<Id, R>, key: R -> K, ref: Option<Id>): Option<Id> {
    if ref.Some? then Some(Kept(rows, key, ref.value)) else None
  }

  /** The oldest row of every group. */
  function KeepOldest<R, K(==)>(rows: map<Id, R>, key: R -> K): map<Id, R> {
    map id | id in rows && !HasOlder(rows, key, id) :: rows[id]
  }

  lemma KeptIsOldest<R, K>(rows: map<Id, R>, key: R -> K, id: Id)
    requires id in rows
    ensures Kept(rows, key, id) in KeepOldest(rows, key)
    ensures key(rows[Kept(rows, key, id)]) == key(rows[id])
    ensures Kept(rows, key, Kept(rows, key, id)) == Kept(rows, key, id)
  {
    var least := Least(Group(rows, key, id));
    if HasOlder(rows, key, id) {
      assert forall k :: k in rows && key(rows[k]) == key(rows[least]) ==> k in Group(rows, key, id);
    }
  }

  /** Deletes, in any order of visits, every row that still has an older row with its key. */
  method DeleteDuplicates<R, K(==)>(rows: map<Id, R>, key: R -> K, order: seq<Id>) returns (left: map<Id, R>)
    requires forall id :: id in rows ==> id in order
    ensures left == KeepOldest(rows, key)
  {
    left := rows;
    for i := 0 to |order|
      invariant left.Keys <= rows.Keys && forall id :: id in left ==> left[id] == rows[id]
      invariant KeepOldest(rows, key).Keys <= left.Keys
      invariant forall k :: 0 <= k < i && order[k] in left ==> order[k] in KeepOldest(rows, key)
    {
      var id := order[i];
      if HasOlder(left, key, id) {
        left := left - {id};
      } else if id in left && HasOlder(rows, key, id) {
        OlderStillThere(rows, key, left, id);
      }
    }
    assert forall id :: id in left ==> id in order;
  }

  /** While only rows with older ones have gone, a row left that had an older one still has. */
  lemma OlderStillThere<R, K>(rows: map<Id, R>, key: R -> K, left: map<Id, R>, id: Id)
    requires left.Keys <= rows.Keys && forall k :: k in left ==> left[k] == rows[k]
    requires KeepOldest(rows, key).Keys <= left.Keys
    requires id in left && HasOlder(rows, key, id)
    ensures HasOlder(left, key, id)
  {
    KeptIsOldest(rows, key, id);
    assert Least(Group(rows, key, id)) in left;
  }

  // ---- the tables ------------------------------------------------------------

  datatype Tables = Tables(artists: map<Id, Artist>, albums: map<Id, Album>,
                           trackAlbums: map<Id, Option<Id>>, artworkAlbums: map<Id, Option<Id>>)

  function ArtistKey(): Artist -> string {
    (a: Artist) => a.name
  }

  function AlbumKey(): Album -> (string, Option<Id>) {
    (a: Album) => (a.title, a.artistId)
  }

  function MovedAlbums(t: Tables): map<Id, Album> {
    map id | id in t.albums :: t.albums[id].(artistId := KeptRef(t.artists, ArtistKey(), t.albums[id].artistId))
  }

  function MovedRefs(albums: map<Id, Album>, refs: map<Id, Option<Id>>): map<Id, Option<Id>> {
    map id | id in refs :: KeptRef(albums, AlbumKey(), refs[id])
  }

  /** The tables after the migration. */
  function Collapsed(t: Tables): Tables {
    var albums := MovedAlbums(t);
    Tables(KeepOldest(t.artists, ArtistKey()), KeepOldest(albums, AlbumKey()),
           MovedRefs(albums, t.trackAlbums), MovedRefs(albums, t.artworkAlbums))
  }

  /** What a reference to an artist means: its name, if the row exists. */
  function ArtistName(artists: map<Id, Artist>, ref: Option<Id>): Option<string> {
    if ref.Some? && ref.value in artists then Some(artists[ref.value].name) else None
  }

  /** What a reference to an album means: its title and its artist's name. */
  function AlbumMeaning(t: Tables, ref: Option<Id>): Option<(string, Option<string>)> {
    if ref.Some? && ref.value in t.albums
    then Some((t.albums[ref.value].title, ArtistName(t.artists, t.albums[ref.value].artistId)))
    else None
  }

  ghost predicate Resolves<R>(rows: map<Id, R>, ref: Option<Id>) {
    ref.Some? ==> ref.value in rows
  }

  /** No reference dangles. */
  ghost predicate Referential(t: Tables) {
    (forall id :: id in t.albums ==> Resolves(t.artists, t.albums[id].artistId)) &&
    (forall id :: id in t.trackAlbums ==> Resolves(t.albums, t.trackAlbums[id])) &&
    (forall id :: id in t.artworkAlbums ==> Resolves(t.albums, t.artworkAlbums[id]))
  }

  lemma ArtistNameKept(artists: map<Id, Artist>, ref: Option<Id>)
    ensures ArtistName(KeepOldest(artists, ArtistKey()), KeptRef(artists, ArtistKey(), ref)) == ArtistName(artists, ref)
  {
    if ref.Some? && ref.value in artists {
      KeptIsOldest(artists, ArtistKey(), ref.value);
    }
  }

  /** Whatever a track or artwork row referred to, it still refers to, dangling references included. */
  lemma MeaningKept(t: Tables, ref: Option<Id>)
    ensures AlbumMeaning(Collapsed(t), KeptRef(MovedAlbums(t), AlbumKey(), ref)) == AlbumMeaning(t, ref)
  {
    if ref.Some? && ref.value in t.albums {
      var albums := MovedAlbums(t);
      KeptIsOldest(albums, AlbumKey(), ref.value);
      ArtistNameKept(t.artists, t.albums[ref.value].artistId);
    }
  }

  /** The column of references keeps its rows, and each reference keeps its meaning; none is dropped or made up. */
  ghost predicate RefsKept(before: Tables, after: Tables, was: map<Id, Option<Id>>, now: map<Id, Option<Id>>) {
    now.Keys == was.Keys &&
    forall id :: id in was ==>
      (now[id].None? <==> was[id].None?) && AlbumMeaning(after, now[id]) == AlbumMeaning(before, was[id])
  }

  /** A row that survives keeps every column but an album's reference to its artist, which keeps its meaning. */
  ghost predicate RowsKept(before: Tables, after: Tables) {
    after.artists.Keys <= before.artists.Keys && after.albums.Keys <= before.albums.Keys &&
    (forall id :: id in after.artists ==> after.artists[id] == before.artists[id]) &&
    (forall id :: id in after.albums ==>
       after.albums[id].title == before.albums[id].title && after.albums[id].other == before.albums[id].other &&
       (after.albums[id].artistId.None? <==> before.albums[id].artistId.None?) &&
       ArtistName(after.artists, after.albums[id].artistId) == ArtistName(before.artists, before.albums[id].artistId))
  }

  lemma MovedRefsKept(t: Tables, refs: map<Id, Option<Id>>)
    ensures RefsKept(t, Collapsed(t), refs, MovedRefs(MovedAlbums(t), refs))
  {
    forall id | id in refs
      ensures AlbumMeaning(Collapsed(t), MovedRefs(MovedAlbums(t), refs)[id]) == AlbumMeaning(t, refs[id])
    {
      MeaningKept(t, refs[id]);
    }
  }

  /** Every row of the migrated tables stands for what it stood for. */
  lemma MigrationKeeps(t: Tables)
    ensures RefsKept(t, Collapsed(t), t.trackAlbums, Collapsed(t).trackAlbums)
    ensures RefsKept(t, Collapsed(t), t.artworkAlbums, Collapsed(t).artworkAlbums)
    ensures RowsKept(t, Collapsed(t))
  {
    MovedRefsKept(t, t.trackAlbums);
    MovedRefsKept(t, t.artworkAlbums);
    forall id | id in Collapsed(t).albums
      ensures ArtistName(Collapsed(t).artists, Collapsed(t).albums[id].artistId) ==
              ArtistName(t.artists, t.albums[id].artistId)
    {
      ArtistNameKept(t.artists, t.albums[id].artistId);
    }
  }

  function ArtistNames(artists: map<Id, Artist>): set<string> {
    set id | id in artists :: artists[id].name
  }

  /** No artist name is lost or invented. */
  lemma ArtistNamesKept(t: Tables)
    ensures ArtistNames(Collapsed(t).artists) == ArtistNames(t.artists)
  {
    var left := KeepOldest(t.artists, ArtistKey());
    forall name | name in ArtistNames(t.artists) ensures name in ArtistNames(left) {
      var id :| id in t.artists && t.artists[id].name == name;
      KeptIsOldest(t.artists, ArtistKey(), id);
      assert left[Kept(t.artists, ArtistKey(), id)].name == name;
    }
  }

  /** Every album still exists under its title and artist name, and none is invented. */
  lemma AlbumsKept(t: Tables, id: Id)
    requires id in t.albums
    ensures id in Collapsed(t).albums ==> AlbumMeaning(Collapsed(t), Some(id)) == AlbumMeaning(t, Some(id))
    ensures Kept(MovedAlbums(t), AlbumKey(), id) in Collapsed(t).albums
    ensures AlbumMeaning(Collapsed(t), Some(Kept(MovedAlbums(t), AlbumKey(), id))) == AlbumMeaning(t, Some(id))
  {
    KeptIsOldest(MovedAlbums(t), AlbumKey(), id);
    MeaningKept(t, Some(id));
  }

  lemma ReferencesKept(t: Tables)
    requires Referential(t)
    ensures Referential(Collapsed(t))
  {
    var albums, after := MovedAlbums(t), Collapsed(t);
    forall id | id in after.albums ensures Resolves(after.artists, after.albums[id].artistId) {
      if t.albums[id].artistId.Some? {
        KeptIsOldest(t.artists, ArtistKey(), t.albums[id].artistId.value);
      }
    }
    forall ref: Option<Id> | Resolves(t.albums, ref) ensures Resolves(after.albums, KeptRef(albums, AlbumKey(), ref)) {
      if ref.Some? {
        KeptIsOldest(albums, AlbumKey(), ref.value);
      }
    }
  }

  /** Names are unique afterwards, and so are titles per artist id. */
  lemma KeysAreUnique(t: Tables, a: Id, b: Id)
    ensures a in Collapsed(t).artists && b in Collapsed(t).artists &&
            Collapsed(t).artists[a].name == Collapsed(t).artists[b].name
            ==> a == b
    ensures a in Collapsed(t).albums && b in Collapsed(t).albums &&
            AlbumKey()(Collapsed(t).albums[a]) == AlbumKey()(Collapsed(t).albums[b])
            ==> a == b
  {
  }

  /** Without dangling references, titles are unique per artist name. */
  lemma MeaningsAreUnique(t: Tables, a: Id, b: Id)
    requires Referential(t) && a in Collapsed(t).albums && b in Collapsed(t).albums
    requires AlbumMeaning(Collapsed(t), Some(a)) == AlbumMeaning(Collapsed(t), Some(b))
    ensures a == b
  {
    var after := Collapsed(t);
    ReferencesKept(t);
    assert Resolves(after.artists, after.albums[a].artistId) && Resolves(after.artists, after.albums[b].artistId);
    if after.albums[a].artistId.Some? && after.albums[b].artistId.Some? {
      KeysAreUnique(t, after.albums[a].artistId.value, after.albums[b].artistId.value);
    }
    KeysAreUnique(t, a, b);
  }

  /** The rows deleted are referenced by nothing any more, so no foreign key blocks their deletion. */
  lemma DeletedRowsAreUnreferenced(t: Tables)
    ensures forall id, k :: id in t.trackAlbums && k in t.albums && k !in Collapsed(t).albums ==>
              Collapsed(t).trackAlbums[id] != Some(k)
    ensures forall id, k :: id in t.artworkAlbums && k in t.albums && k !in Collapsed(t).albums ==>
              Collapsed(t).artworkAlbums[id] != Some(k)
    ensures forall id, k :: id in t.albums && k in t.artists && k !in Collapsed(t).artists ==>
              MovedAlbums(t)[id].artistId != Some(k)
  {
    var albums := MovedAlbums(t);
    forall ref: Option<Id>, k | k in albums && k !in KeepOldest(albums, AlbumKey())
      ensures KeptRef(albums, AlbumKey(), ref) != Some(k)
    {
      if ref.Some? && ref.value in albums {
        KeptIsOldest(albums, AlbumKey(), ref.value);
      }
    }
    forall ref: Option<Id>, k | k in t.artists && k !in KeepOldest(t.artists, ArtistKey())
      ensures KeptRef(t.artists, ArtistKey(), ref) != Some(k)
    {
      if ref.Some? && ref.value in t.artists {
        KeptIsOldest(t.artists, ArtistKey(), ref.value);
      }
    }
  }

  /** The statements applied to their own result change nothing. */
  lemma CollapsedIsStable(t: Tables)
    ensures Collapsed(Collapsed(t)) == Collapsed(t)
  {
    var once := Collapsed(t);
    assert forall id :: !HasOlder(once.artists, ArtistKey(), id);
    assert MovedAlbums(once) == once.albums;
    assert forall id :: !HasOlder(once.albums, AlbumKey(), id);
    assert KeepOldest(once.artists, ArtistKey()) == once.artists;
    assert KeepOldest(once.albums, AlbumKey()) == once.albums;
  }

  /** Names are unique, and titles per artist id. */
  ghost predicate Unrepeated(t: Tables) {
    (forall a, b :: a in t.artists && b in t.artists && t.artists[a].name == t.artists[b].name ==> a == b) &&
    (forall a, b :: a in t.albums && b in t.albums && AlbumKey()(t.albums[a]) == AlbumKey()(t.albums[b]) ==> a == b)
  }

  lemma CollapsedIsUnrepeated(t: Tables)
    ensures Unrepeated(Collapsed(t))
  {
    forall a, b | a in Collapsed(t).artists && b in Collapsed(t).artists &&
        Collapsed(t).artists[a].name == Collapsed(t).artists[b].name
      ensures a == b
    {
      KeysAreUnique(t, a, b);
    }
    forall a, b | a in Collapsed(t).albums && b in Collapsed(t).albums &&
        AlbumKey()(Collapsed(t).albums[a]) == AlbumKey()(Collapsed(t).albums[b])
      ensures a == b
    {
      KeysAreUnique(t, a, b);
    }
  }

  /** The references name one artist row, or rows of one name. */
  predicate SameArtist(artists: map<Id, Artist>, a: Option<Id>, b: Option<Id>) {
    a == b ||
    (a.Some? && b.Some? && a.value in artists && b.value in artists && artists[a.value].name == artists[b.value].name)
  }

  predicate SameAlbum(artists: map<Id, Artist>, a: Album, b: Album) {
    a.title == b.title && SameArtist(artists, a.artistId, b.artistId)
  }

  /** Of the rows that are one artist, or one album, exactly the least id survives. */
  ghost predicate OldestSurvive(before: Tables, after: Tables) {
    (forall id :: id in after.artists <==>
       id in before.artists &&
       forall k :: k in before.artists && before.artists[k].name == before.artists[id].name ==> id <= k) &&
    (forall id :: id in after.albums <==>
       id in before.albums &&
       forall k :: k in before.albums && SameAlbum(before.artists, before.albums[k], before.albums[id]) ==> id <= k)
  }

  lemma SameArtistIsKept(artists: map<Id, Artist>, a: Option<Id>, b: Option<Id>)
    ensures KeptRef(artists, ArtistKey(), a) == KeptRef(artists, ArtistKey(), b) <==> SameArtist(artists, a, b)
  {
    if a.Some? && a.value in artists {
      KeptIsOldest(artists, ArtistKey(), a.value);
    }
    if b.Some? && b.value in artists {
      KeptIsOldest(artists, ArtistKey(), b.value);
    }
    if SameArtist(artists, a, b) && a != b {
      var kept, other := Kept(artists, ArtistKey(), a.value), Kept(artists, ArtistKey(), b.value);
      assert !HasOlder(artists, ArtistKey(), kept) && !HasOlder(artists, ArtistKey(), other);
    }
  }

  lemma OldestLeft(t: Tables)
    ensures OldestSurvive(t, Collapsed(t))
  {
    forall id, k | id in t.albums && k in t.albums
      ensures AlbumKey()(MovedAlbums(t)[id]) == AlbumKey()(MovedAlbums(t)[k]) <==>
              SameAlbum(t.artists, t.albums[k], t.albums[id])
    {
      SameArtistIsKept(t.artists, t.albums[k].artistId, t.albums[id].artistId);
    }
  }

  /** Every album is left under its title and artist name. */
  ghost predicate KeepsAlbums(before: Tables, after: Tables) {
    forall id :: id in before.albums ==>
      exists k :: k in after.albums && AlbumMeaning(after, Some(k)) == AlbumMeaning(before, Some(id))
  }

  lemma AllAlbumsKept(t: Tables)
    ensures KeepsAlbums(t, Collapsed(t))
  {
    forall id | id in t.albums
      ensures exists k :: k in Collapsed(t).albums && AlbumMeaning(Collapsed(t), Some(k)) == AlbumMeaning(t, Some(id))
    {
      AlbumsKept(t, id);
    }
  }

  // ---- the database ----------------------------------------------------------

  class Database {
    var artists: map<Id, Artist>
    var albums: map<Id, Album>
    var trackAlbums: map<Id, Option<Id>>
    var artworkAlbums: map<Id, Option<Id>>
    var migrations: set<nat>

    function Rows(): Tables
      reads this
    {
      Tables(artists, albums, trackAlbums, artworkAlbums)
    }

    /** The block of the migration for version 17; the two orders are the visits of the two deletions. */
    method MigrateTo17(albumVisits: seq<Id>, artistVisits: seq<Id>)
      requires forall id :: id in albums ==> id in albumVisits
      requires forall id :: id in artists ==> id in artistVisits
      modifies this
      ensures Rows() == if 17 in old(migrations) then old(Rows()) else Collapsed(old(Rows()))
      ensures RefsKept(old(Rows()), Rows(), old(trackAlbums), trackAlbums)
      ensures RefsKept(old(Rows()), Rows(), old(artworkAlbums), artworkAlbums)
      ensures RowsKept(old(Rows()), Rows())
      ensures 17 !in old(migrations) ==>
        OldestSurvive(old(Rows()), Rows()) && Unrepeated(Rows()) &&
        ArtistNames(artists) == ArtistNames(old(artists)) && KeepsAlbums(old(Rows()), Rows())
      ensures migrations == old(migrations) + {17}
    {
      ghost var before := Rows();
      if 17 in migrations {
        return;
      }
      MigrationKeeps(before);
      CollapsedIsUnrepeated(before);
      OldestLeft(before);
      ArtistNamesKept(before);
      AllAlbumsKept(before);
      Collapse(albumVisits, artistVisits);
      migrations := migrations + {17};
    }

    /** Moves the references, and then deletes the duplicates. */
    method Collapse(albumVisits: seq<Id>, artistVisits: seq<Id>)
      requires forall id :: id in albums ==> id in albumVisits
      requires forall id :: id in artists ==> id in artistVisits
      modifies this`artists, this`albums, this`trackAlbums, this`artworkAlbums
      ensures Rows() == Collapsed(old(Rows()))
    {
      albums := MovedAlbums(Rows());
      trackAlbums := MovedRefs(albums, trackAlbums);
      artworkAlbums := MovedRefs(albums, artworkAlbums);
      albums := DeleteDuplicates(albums, AlbumKey(), albumVisits);
      artists := DeleteDuplicates(artists, ArtistKey(), artistVisits);
    }
  }
}
