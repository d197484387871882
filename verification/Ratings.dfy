/**
  User ratings and their write-back to file tags: the stores and their guarded
  operations.  A rating is a user row and a pending row; the scanned rating is a
  column of the track.  The effective rating is a function of the three.
*/
module Ratings {
  import opened Wrappers

  type Path = string

  const UNSET := -1

  function Normalized(value: int): int {
    if value < 0 then UNSET else ((if value > 100 then 100 else value) + 5) / 10 * 10
  }

  predicate IsStored(value: int) {
    value == UNSET || (0 <= value <= 100 && value % 10 == 0)
  }

  /** Normalising gives a storable value, the nearest one (a tie goes up), and changes no storable value. */
  lemma NormalizedIsNearest(value: int)
    ensures IsStored(Normalized(value))
    ensures IsStored(value) ==> Normalized(value) == value
    ensures 0 <= value <= 100 ==> value - 5 < Normalized(value) <= value + 5
    ensures (value < 0 ==> Normalized(value) == UNSET) && (value > 100 ==> Normalized(value) == 100)
  {
  }

  // ---- the effective rating, in its two forms -----------------------------------

  const OVERLAY: set<string> := {"pending", "failed", "blocked_no_writable_path"}

  predicate OverlayActive(status: string) {
    status == "pending" || status == "failed" || status == "blocked_no_writable_path"
  }

  /** The C++ form; absence is UNSET, and an absent status is the empty string. */
  function Resolve(scanned: int, hasUser: bool, user: int, status: string): int {
    if OverlayActive(status) && hasUser then user
    else if scanned >= 0 then scanned
    else if hasUser then user
    else UNSET
  }

  /** The SQL form, over nullable columns. */
  function ResolveSql(scanned: Option<int>, user: Option<int>, status: Option<string>): Option<int> {
    if status.Some? && status.value in OVERLAY && user.Some? then user
    else if scanned.Some? then scanned
    else user
  }

  function OrUnset(value: Option<int>): int {
    if value.Some? then value.value else UNSET
  }

  /**
    The two forms agree except where a negative scanned rating is stored instead
    of NULL, no overlay applies, and the fallback is another value.
  */
  lemma FormsAgree(scanned: Option<int>, user: Option<int>, status: Option<string>)
    ensures
      var cpp := Resolve(OrUnset(scanned), user.Some?, OrUnset(user), if status.Some? then status.value else "");
      OrUnset(ResolveSql(scanned, user, status)) == cpp <==>
      (scanned.None? || scanned.value >= 0 || scanned.value == OrUnset(user) ||
       (user.Some? && status.Some? && status.value in OVERLAY))
  {
    assert "" != "pending" && "" != "failed" && "" != "blocked_no_writable_path";
  }

  // ---- the tables ----------------------------------------------------------------

  datatype Pending = Pending(rating: int, status: string)

  /** One row per track path; scanned holds the rating column of the tracks table. */
  datatype Tables = Tables(user: map<Path, int>, pending: map<Path, Pending>, scanned: map<Path, Option<int>>)

  const NO_TABLES := Tables(map[], map[], map[])

  function Lookup<V>(m: map<Path, V>, path: Path): Option<V> {
    if path in m then Some(m[path]) else None
  }

  function EffectiveOf(t: Tables, path: Path): int
    requires path in t.scanned
  {
    var user := Lookup(t.user, path);
    Resolve(OrUnset(t.scanned[path]), user.Some?, OrUnset(user), if path in t.pending then t.pending[path].status else "")
  }

  const ALLOWED: set<string> := {"pending", "synced", "blocked_no_writable_path", "failed"}

  function UserSet(t: Tables, path: Path, rating: int): Tables {
    if rating < 0 then t else t.(user := t.user[path := Normalized(rating)])
  }

  function UserCleared(t: Tables, path: Path): Tables {
    t.(user := t.user - {path})
  }

  function PendingSet(t: Tables, path: Path, rating: int, status: string): Tables {
    if rating < 0 || status !in ALLOWED then t
    else t.(pending := t.pending[path := Pending(Normalized(rating), status)])
  }

  /** Deletes the row only if it still holds the expected rating; a negative one deletes any. */
  function PendingCleared(t: Tables, path: Path, expected: int): Tables {
    if path in t.pending && (expected < 0 || t.pending[path].rating == expected) then t.(pending := t.pending - {path})
    else t
  }

  /** Records a failure only for a rating the user still has, and never over another rating's row. */
  function FailureRecorded(t: Tables, path: Path, expected: int, status: string): Tables {
    if path !in t.user || t.user[path] != expected then t
    else if path in t.pending && t.pending[path].rating != expected then t
    else t.(pending := t.pending[path := Pending(expected, status)])
  }

  function ScannedUpdated(t: Tables, path: Path, rating: int): Tables {
    if rating < 0 || path !in t.scanned then t else t.(scanned := t.scanned[path := Some(Normalized(rating))])
  }

  function Upserted(t: Tables, path: Path, reading: int): Tables {
    t.(scanned := t.scanned[path := if reading >= 0 then Some(reading) else None])
  }

  function Pruned(t: Tables, path: Path): Tables {
    t.(scanned := t.scanned - {path})
  }

  predicate WriteWanted(t: Tables, path: Path, desired: int, pendingOnly: bool) {
    desired >= 0 && path in t.scanned && (if path in t.user then t.user[path] == desired else !pendingOnly)
  }

  // ---- what the statements keep ----------------------------------------------------

  /** A pending row carries the user's rating. */
  predicate PendingMatches(t: Tables, path: Path) {
    path in t.pending ==> path in t.user && t.user[path] == t.pending[path].rating
  }

  /** A pending row keeps the user's rating in front of the scanned one. */
  predicate OverlayOn(t: Tables, path: Path) {
    path in t.user && path in t.pending && OverlayActive(t.pending[path].status)
  }

  /** The track is in the library and shows this rating. */
  predicate Shows(t: Tables, path: Path, rating: int) {
    path in t.scanned && EffectiveOf(t, path) == rating
  }

  /** Every stored rating is a storable one. */
  ghost predicate WellStored(t: Tables) {
    (forall p :: p in t.user ==> IsStored(t.user[p]) && t.user[p] >= 0) &&
    (forall p :: p in t.scanned && t.scanned[p].Some? ==> t.scanned[p].value >= 0)
  }

  /** The other tracks show what they showed. */
  ghost predicate OthersShow(before: Tables, after: Tables, path: Path) {
    before.scanned.Keys == after.scanned.Keys &&
    forall p :: p != path && p in before.scanned ==> EffectiveOf(after, p) == EffectiveOf(before, p)
  }

  /**
    A write the worker may start, carried through with nothing in between, makes
    the track show the rating, and leaves no pending row for it behind.
  */
  lemma WantedWriteShows(t: Tables, path: Path, desired: int, pendingOnly: bool)
    requires WriteWanted(t, path, desired, pendingOnly) && IsStored(desired) && PendingMatches(t, path)
    ensures var after := PendingCleared(ScannedUpdated(t, path, desired), path, desired);
            Shows(after, path, desired) && path !in after.pending
  {
  }

  /** The rating columns of the database, changed by one statement at a time. */
  class Database {
    var user: map<Path, int>
    var pending: map<Path, Pending>
    var scanned: map<Path, Option<int>>

    function State(): Tables
      reads this
    {
      Tables(user, pending, scanned)
    }

    constructor ()
      ensures State() == NO_TABLES
    {
      user, pending, scanned := map[], map[], map[];
    }

    /** A pending overlay shows the new rating at once; otherwise the scanned rating stays in front. */
    method SetUserTrackRating(path: Path, rating: int) returns (ok: bool)
      modifies this
      ensures ok <==> rating >= 0
      ensures State() == UserSet(old(State()), path, rating)
      ensures user == (if ok then old(user)[path := Normalized(rating)] else old(user)) &&
              pending == old(pending) && scanned == old(scanned)
      ensures ok && path in scanned && (OverlayOn(State(), path) || scanned[path].None?) ==>
        Shows(State(), path, Normalized(rating))
      ensures ok && path in scanned && !OverlayOn(State(), path) && scanned[path].Some? && scanned[path].value >= 0 ==>
        Shows(State(), path, scanned[path].value)
      ensures OthersShow(old(State()), State(), path) && (old(WellStored(State())) ==> WellStored(State()))
    {
      var normalized := Normalized(rating);
      if !IsStored(normalized) || normalized < 0 {
        return false;
      }
      user := user[path := normalized];
      ok := true;
    }

    /** The track falls back to its scanned rating. */
    method ClearUserTrackRating(path: Path)
      modifies this
      ensures State() == UserCleared(old(State()), path)
      ensures user == old(user) - {path} && pending == old(pending) && scanned == old(scanned)
      ensures old(WellStored(State())) && path in scanned ==> Shows(State(), path, OrUnset(scanned[path]))
      ensures OthersShow(old(State()), State(), path) && (old(WellStored(State())) ==> WellStored(State()))
    {
      user := user - {path};
    }

    /** With the user row of the same rating, an overlaid pending row makes the track show it. */
    method SetPendingTrackRatingWrite(path: Path, rating: int, status: string) returns (ok: bool)
      modifies this
      ensures ok <==> rating >= 0 && status in ALLOWED
      ensures State() == PendingSet(old(State()), path, rating, status)
      ensures pending == (if ok then old(pending)[path := Pending(Normalized(rating), status)] else old(pending)) &&
              user == old(user) && scanned == old(scanned)
      ensures ok && path in user && user[path] == Normalized(rating) ==>
        PendingMatches(State(), path) &&
        (status in OVERLAY && path in scanned ==> Shows(State(), path, Normalized(rating)))
      ensures OthersShow(old(State()), State(), path)
    {
      var normalized := Normalized(rating);
      if !IsStored(normalized) || normalized < 0 || status !in ALLOWED {
        return false;
      }
      pending := pending[path := Pending(normalized, status)];
      ok := true;
    }

    /** Only the row of the expected rating goes; a row for another rating goes on showing the user's rating. */
    method ClearPendingTrackRatingWrite(path: Path, expectedRating: int := -1)
      modifies this
      ensures State() == PendingCleared(old(State()), path, expectedRating)
      ensures path in pending <==>
        path in old(pending) && expectedRating >= 0 && old(pending)[path].rating != expectedRating
      ensures path in pending ==> State() == old(State())
      ensures pending - {path} == old(pending) - {path} && user == old(user) && scanned == old(scanned)
      ensures forall p :: old(PendingMatches(State(), p)) ==> PendingMatches(State(), p)
      ensures OthersShow(old(State()), State(), path)
    {
      if path in pending && (expectedRating < 0 || pending[path].rating == expectedRating) {
        pending := pending - {path};
      }
    }

    /**
      A failure never puts another rating's row aside, never pairs a pending row
      with another user rating, and leaves the user's own rating on show.
    */
    method RecordRatingWriteFailure(path: Path, expectedRating: int, status: string)
      modifies this
      ensures State() == FailureRecorded(old(State()), path, expectedRating, status)
      ensures pending - {path} == old(pending) - {path} && user == old(user) && scanned == old(scanned)
      ensures
        if path in user && user[path] == expectedRating &&
           (path !in old(pending) || old(pending)[path].rating == expectedRating)
        then path in pending && pending[path] == Pending(expectedRating, status)
        else pending == old(pending)
      ensures forall p :: old(PendingMatches(State(), p)) ==> PendingMatches(State(), p)
      ensures path in old(pending) ==> path in pending && pending[path].rating == old(pending)[path].rating
      ensures old(path in user && user[path] == expectedRating && PendingMatches(State(), path)) && status in OVERLAY ==>
        OverlayOn(State(), path) && (path in scanned ==> Shows(State(), path, expectedRating))
      ensures OthersShow(old(State()), State(), path)
    {
      if path in user && user[path] == expectedRating {
        if path !in pending {
          pending := pending[path := Pending(expectedRating, status)];
        } else if pending[path].rating == expectedRating {
          pending := pending[path := pending[path].(status := status)];
        }
      }
    }

    /** The re-read rating shows, unless an overlay hides it; then the track shows what it showed. */
    method UpdateScannedTrackRating(path: Path, rating: int) returns (ok: bool)
      modifies this
      ensures ok <==> rating >= 0 && path in old(scanned)
      ensures State() == ScannedUpdated(old(State()), path, rating)
      ensures scanned == (if ok then old(scanned)[path := Some(Normalized(rating))] else old(scanned)) &&
              user == old(user) && pending == old(pending)
      ensures ok ==> Shows(State(), path, if old(OverlayOn(State(), path)) then user[path] else Normalized(rating))
      ensures OthersShow(old(State()), State(), path) && (old(WellStored(State())) ==> WellStored(State()))
    {
      var normalized := Normalized(rating);
      if !IsStored(normalized) || normalized < 0 {
        return false;
      }
      ok := path in scanned;
      if ok {
        scanned := scanned[path := Some(normalized)];
      }
    }

    /**
      What the worker checks before writing `desired`: such a write, carried
      through undisturbed, will show and leave nothing pending; and a write for a
      rating the user no longer has is refused.
    */
    method MayWrite(path: Path, desired: int, pendingOnly: bool) returns (may: bool)
      ensures may == WriteWanted(State(), path, desired, pendingOnly)
      ensures may && IsStored(desired) && PendingMatches(State(), path) ==>
        Shows(PendingCleared(ScannedUpdated(State(), path, desired), path, desired), path, desired)
      ensures may <==>
        desired >= 0 && path in scanned && (path in user ==> user[path] == desired) && (pendingOnly ==> path in user)
    {
      if desired < 0 {
        return false;
      }
      var found, hasUser := path in scanned, path in user;
      if !found || (hasUser && user[path] != desired) || (!hasUser && pendingOnly) {
        return false;
      }
      may := true;
    }

    /** The work list of a pending-writes sync: each path with the rating of its pending row. */
    method TracksWithPendingRatingWrites() returns (wanted: map<Path, int>)
      ensures forall p :: p in wanted <==> p in pending && p in scanned && OverlayActive(pending[p].status)
      ensures forall p :: p in wanted ==> wanted[p] == pending[p].rating
    {
      wanted := map p | p in pending && p in scanned && pending[p].status in OVERLAY :: pending[p].rating;
    }
  }
}
