/**
  The component of a track among collected tracks, and the whole query: the
  narrow search over the collected rows is proved to return all of them.
*/
module SongComponents {
  import opened Wrappers
  import opened Reachability
  import opened SongIdentity

  // ---- the narrow component search -------------------------------------------

  /** The copy relation on collected identities. */
  predicate SameSong(lib: Library, a: TrackIdentity, b: TrackIdentity) {
    (a.group >= 0 && a.group == b.group) ||
    (a.mbid != "" && a.mbid == b.mbid) ||
    (a.mbid == "" && b.mbid == "" && lib.SameName(a.artist, a.title, b.artist, b.title))
  }

  ghost function SameAt(lib: Library, tracks: seq<TrackIdentity>): (int, int) -> bool {
    (i, j) => 0 <= i < |tracks| && 0 <= j < |tracks| && SameSong(lib, tracks[i], tracks[j])
  }

  /** What the search has queued, and the shared values whose holders it has queued. */
  datatype Visit = Visit(pending: seq<nat>, groups: set<int>, mbids: set<string>, fallbacks: set<string>)

  function Enqueue(pending: seq<nat>, indices: seq<nat>): (after: seq<nat>)
    ensures forall i :: i in after <==> i in pending || i in indices
    ensures pending <= after
    decreases |indices|
  {
    if indices == [] then pending else
      var i := indices[0];
      assert forall k :: k in indices <==> k == i || k in indices[1..];
      Enqueue(if i in pending then pending else pending + [i], indices[1..])
  }

  ghost predicate NoRepeats(s: seq<nat>) {
    forall i, j :: 0 <= i < j < |s| ==> s[i] != s[j]
  }

  lemma {:induction false} EnqueueKeepsDistinct(pending: seq<nat>, indices: seq<nat>)
    requires NoRepeats(pending)
    ensures NoRepeats(Enqueue(pending, indices))
    decreases |indices|
  {
    if indices != [] {
      EnqueueKeepsDistinct(if indices[0] in pending then pending else pending + [indices[0]], indices[1..]);
    }
  }

  /** The positions, in order, of the tracks that share a value. */
  function Holders(tracks: seq<TrackIdentity>, share: TrackIdentity -> bool): (indices: seq<nat>)
    ensures forall i :: i in indices <==> 0 <= i < |tracks| && share(tracks[i])
  {
    if tracks == [] then [] else
      var rest := Holders(tracks[..|tracks| - 1], share);
      if share(tracks[|tracks| - 1]) then rest + [|tracks| - 1] else rest
  }

  /** Every queued track is reached from the target. */
  ghost predicate AllReached(lib: Library, tracks: seq<TrackIdentity>, target: int, pending: seq<nat>) {
    forall i :: i in pending ==> i < |tracks| && Reaches<int>(SameAt(lib, tracks), target, i)
  }

  ghost predicate HasGroup(t: TrackIdentity, groups: set<int>) {
    t.group >= 0 && t.group in groups
  }

  ghost predicate HasRecording(t: TrackIdentity, mbids: set<string>) {
    t.mbid != "" && t.mbid in mbids
  }

  ghost predicate HasFallback(lib: Library, t: TrackIdentity, fallbacks: set<string>) {
    t.mbid == "" && lib.SongKey(t.artist, t.title) in fallbacks
  }

  /** Every recorded value has all its holders queued. */
  ghost predicate HoldersQueued(lib: Library, tracks: seq<TrackIdentity>, v: Visit) {
    forall i :: 0 <= i < |tracks| &&
      (HasGroup(tracks[i], v.groups) || HasRecording(tracks[i], v.mbids) || HasFallback(lib, tracks[i], v.fallbacks))
      ==> i in v.pending
  }

  ghost predicate VisitSound(lib: Library, tracks: seq<TrackIdentity>, target: int, v: Visit) {
    NoRepeats(v.pending) && target in v.pending && AllReached(lib, tracks, target, v.pending) &&
    HoldersQueued(lib, tracks, v)
  }

  /** The values of track i are recorded. */
  ghost predicate Recorded(lib: Library, v: Visit, t: TrackIdentity) {
    (t.group >= 0 ==> t.group in v.groups) &&
    (if t.mbid != "" then t.mbid in v.mbids else lib.SongKey(t.artist, t.title) in v.fallbacks)
  }

  ghost predicate VisitGrows(before: Visit, v: Visit) {
    before.pending <= v.pending && before.groups <= v.groups && before.mbids <= v.mbids &&
    before.fallbacks <= v.fallbacks
  }

  lemma EnqueueKeepsReached(lib: Library, tracks: seq<TrackIdentity>, target: int, pending: seq<nat>, i: nat, indices: seq<nat>)
    requires NoRepeats(pending) && i in pending && AllReached(lib, tracks, target, pending)
    requires forall k :: k in indices ==> k < |tracks| && SameSong(lib, tracks[i], tracks[k])
    ensures NoRepeats(Enqueue(pending, indices)) && AllReached(lib, tracks, target, Enqueue(pending, indices))
  {
    EnqueueKeepsDistinct(pending, indices);
    forall k | k in indices ensures Reaches<int>(SameAt(lib, tracks), target, k) {
      ReachesFurther<int>(SameAt(lib, tracks), target, i, k);
    }
  }

  method VisitGroup(lib: Library, tracks: seq<TrackIdentity>, ghost target: int, before: Visit, i: nat) returns (v: Visit)
    requires VisitSound(lib, tracks, target, before) && i in before.pending
    ensures VisitSound(lib, tracks, target, v) && VisitGrows(before, v)
    ensures v.mbids == before.mbids && v.fallbacks == before.fallbacks
    ensures tracks[i].group >= 0 ==> tracks[i].group in v.groups
  {
    v := before;
    var group := tracks[i].group;
    if group >= 0 && group !in v.groups {
      var holders := Holders(tracks, (t: TrackIdentity) => t.group == group);
      EnqueueKeepsReached(lib, tracks, target, v.pending, i, holders);
      v := v.(groups := v.groups + {group}, pending := Enqueue(v.pending, holders));
    }
  }

  method VisitRecording(lib: Library, tracks: seq<TrackIdentity>, ghost target: int, before: Visit, i: nat) returns (v: Visit)
    requires VisitSound(lib, tracks, target, before) && i in before.pending && tracks[i].mbid != ""
    ensures VisitSound(lib, tracks, target, v) && VisitGrows(before, v)
    ensures v.groups == before.groups && tracks[i].mbid in v.mbids
  {
    v := before;
    var mbid := tracks[i].mbid;
    if mbid !in v.mbids {
      var holders := Holders(tracks, (t: TrackIdentity) => t.mbid == mbid);
      EnqueueKeepsReached(lib, tracks, target, v.pending, i, holders);
      v := v.(mbids := v.mbids + {mbid}, pending := Enqueue(v.pending, holders));
    }
  }

  method VisitFallback(lib: Library, tracks: seq<TrackIdentity>, ghost target: int, before: Visit, i: nat) returns (v: Visit)
    requires VisitSound(lib, tracks, target, before) && i in before.pending && tracks[i].mbid == ""
    ensures VisitSound(lib, tracks, target, v) && VisitGrows(before, v)
    ensures v.groups == before.groups && lib.SongKey(tracks[i].artist, tracks[i].title) in v.fallbacks
  {
    v := before;
    var fallback := lib.SongKey(tracks[i].artist, tracks[i].title);
    if fallback !in v.fallbacks {
      var holders := Holders(tracks, (t: TrackIdentity) => t.mbid == "" && lib.SongKey(t.artist, t.title) == fallback);
      forall k | k in holders ensures k < |tracks| && SameSong(lib, tracks[i], tracks[k]) {
        SongKeyIsName(lib, tracks[i].artist, tracks[i].title, tracks[k].artist, tracks[k].title);
      }
      EnqueueKeepsReached(lib, tracks, target, v.pending, i, holders);
      v := v.(fallbacks := v.fallbacks + {fallback}, pending := Enqueue(v.pending, holders));
    }
  }

  /** Processing one queued track. */
  method VisitTrack(lib: Library, tracks: seq<TrackIdentity>, ghost target: int, before: Visit, i: nat) returns (v: Visit)
    requires VisitSound(lib, tracks, target, before) && i in before.pending
    ensures VisitSound(lib, tracks, target, v) && VisitGrows(before, v) && i < |tracks|
    ensures Recorded(lib, v, tracks[i])
  {
    v := VisitGroup(lib, tracks, target, before, i);
    if tracks[i].mbid != "" {
      v := VisitRecording(lib, tracks, target, v, i);
    } else {
      v := VisitFallback(lib, tracks, target, v, i);
    }
  }

  function Range(n: nat): (r: set<int>)
    ensures forall i :: i in r <==> 0 <= i < n
    ensures |r| == n
  {
    if n == 0 then {} else Range(n - 1) + {n - 1}
  }

  lemma {:induction false} DistinctInside(s: seq<nat>, all: set<int>)
    requires NoRepeats(s) && forall i :: i in s ==> i in all
    ensures |s| <= |all|
    decreases |s|
  {
    if s != [] {
      DistinctInside(s[..|s| - 1], all - {s[|s| - 1]});
    }
  }

  /** The positions reached from the target among the given tracks. */
  method ConnectedPositions(lib: Library, tracks: seq<TrackIdentity>, target: nat) returns (visited: set<int>)
    requires target < |tracks|
    ensures forall i :: i in visited <==> 0 <= i < |tracks| && Reaches<int>(SameAt(lib, tracks), target, i)
  {
    var v := Visit([target], {}, {}, {});
    ReachesSelf<int>(SameAt(lib, tracks), target);
    assert v.pending[0] == target;
    assert AllReached(lib, tracks, target, v.pending);
    var cursor := 0;
    while cursor < |v.pending|
      invariant cursor <= |v.pending| && VisitSound(lib, tracks, target, v)
      invariant forall k :: 0 <= k < cursor ==> v.pending[k] < |tracks| && Recorded(lib, v, tracks[v.pending[k]])
      decreases |tracks| - cursor
    {
      DistinctInside(v.pending, Range(|tracks|));
      v := VisitTrack(lib, tracks, target, v, v.pending[cursor]);
      cursor := cursor + 1;
    }
    visited := set i | i in v.pending;
    forall i: int, j: int | i in visited && SameAt(lib, tracks)(i, j) ensures j in visited {
      var k :| 0 <= k < |v.pending| && v.pending[k] == i;
      assert Recorded(lib, v, tracks[v.pending[k]]);
    }
    forall i | 0 <= i < |tracks| && Reaches<int>(SameAt(lib, tracks), target, i) ensures i in visited {
      ReachedIsInside<int>(SameAt(lib, tracks), visited, target, i);
    }
  }

  /** The paths of the component of the target within the given tracks. */
  method PathsConnectedToTrack(lib: Library, tracks: seq<TrackIdentity>, targetPath: Path) returns (paths: set<Path>)
    requires forall i, j :: 0 <= i < j < |tracks| ==> tracks[i].path != tracks[j].path
    ensures forall p :: p in paths <==> p != "" && targetPath != "" && NarrowResult(lib, tracks, targetPath, p)
  {
    paths := {};
    if targetPath == "" || !exists i :: 0 <= i < |tracks| && tracks[i].path == targetPath {
      return;
    }
    var target :| 0 <= target < |tracks| && tracks[target].path == targetPath;
    var visited := ConnectedPositions(lib, tracks, target);
    paths := set i | i in visited && tracks[i].path != "" :: tracks[i].path;
  }

  // ---- the whole query -------------------------------------------------------

  method Values(identities: map<Path, TrackIdentity>) returns (tracks: seq<TrackIdentity>)
    requires forall p :: p in identities ==> identities[p].path == p
    ensures forall i, j :: 0 <= i < j < |tracks| ==> tracks[i].path != tracks[j].path
    ensures Lists(tracks, identities)
  {
    tracks := [];
    var open := identities.Keys;
    while open != {}
      invariant open <= identities.Keys
      invariant forall i, j :: 0 <= i < j < |tracks| ==> tracks[i].path != tracks[j].path
      invariant forall t :: t in tracks <==> t.path in identities.Keys - open && identities[t.path] == t
      decreases open
    {
      var p :| p in open;
      forall i | 0 <= i < |tracks| ensures tracks[i].path != p {
        assert tracks[i] in tracks;
      }
      tracks := tracks + [identities[p]];
      open := open - {p};
    }
  }

  lemma IdentityListed(lib: Library, path: Path, identities: map<Path, TrackIdentity>, tracks: seq<TrackIdentity>, r: Row)
    returns (j: nat)
    requires lib.Valid() && IsComponent(lib, path, identities) && Lists(tracks, identities)
    requires Connected(lib, path, r)
    ensures j < |tracks| && tracks[j] == IdentityOf(lib, r)
  {
    assert IdentityOf(lib, r) in tracks;
    j :| j < |tracks| && tracks[j] == IdentityOf(lib, r);
  }

  lemma ReachedToo(lib: Library, tracks: seq<TrackIdentity>, target: nat, t: TrackIdentity, j: nat)
    requires exists i: nat :: i < |tracks| && tracks[i] == t && Reaches<int>(SameAt(lib, tracks), target, i)
    requires j < |tracks| && SameSong(lib, t, tracks[j])
    ensures Reaches<int>(SameAt(lib, tracks), target, j)
  {
    var i: nat :| i < |tracks| && tracks[i] == t && Reaches<int>(SameAt(lib, tracks), target, i);
    ReachesFurther<int>(SameAt(lib, tracks), target, i, j);
  }

  /** A copy of a row the narrow search reaches is reached. */
  lemma NarrowStep(lib: Library, path: Path, identities: map<Path, TrackIdentity>, tracks: seq<TrackIdentity>,
                   target: nat, x: Row, y: Row)
    requires lib.Valid() && IsComponent(lib, path, identities) && Lists(tracks, identities)
    requires Connected(lib, path, x) && lib.Visible(y) && lib.Copies(x, y) && ReachedAs(lib, tracks, target, x)
    ensures Connected(lib, path, y) && ReachedAs(lib, tracks, target, y)
  {
    CopyIsConnected(lib, path, x, y);
    var j := IdentityListed(lib, path, identities, tracks, y);
    ReachedToo(lib, tracks, target, IdentityOf(lib, x), j);
  }

  /** Within the collected identities the narrow search reaches every one of them. */
  lemma NarrowSearchKeepsAll(lib: Library, path: Path, identities: map<Path, TrackIdentity>,
                             tracks: seq<TrackIdentity>, target: nat, s: Row, r: Row)
    requires lib.Valid() && IsComponent(lib, path, identities) && Lists(tracks, identities)
    requires lib.Visible(s) && s.path == path && target < |tracks| && tracks[target] == IdentityOf(lib, s)
    requires Connected(lib, path, r)
    ensures ReachedAs(lib, tracks, target, r)
  {
    var q :| lib.Visible(q) && q.path == path && Reaches(lib.Linked(), q, r);
    PathIsUnique(lib, q, s);
    var inside := set x | x in lib.rows && Connected(lib, path, x) && ReachedAs(lib, tracks, target, x);
    ReachesSelf(lib.Linked(), s);
    ReachesSelf<int>(SameAt(lib, tracks), target);
    assert Connected(lib, path, s) && ReachedAs(lib, tracks, target, s);
    forall x, y | x in inside && lib.Linked()(x, y) ensures y in inside {
      NarrowStep(lib, path, identities, tracks, target, x, y);
    }
    ReachedIsInside(lib.Linked(), inside, s, r);
  }

  ghost predicate Lists(tracks: seq<TrackIdentity>, identities: map<Path, TrackIdentity>) {
    forall t :: t in tracks <==> t.path in identities && identities[t.path] == t
  }

  ghost predicate ReachedAs(lib: Library, tracks: seq<TrackIdentity>, target: nat, r: Row) {
    exists j: nat :: j < |tracks| && tracks[j] == IdentityOf(lib, r) && Reaches<int>(SameAt(lib, tracks), target, j)
  }

  /**
    All copies of the song at trackPath: exactly the paths of the visible rows
    connected to it in the whole library, or the path alone when no visible row has it.
  */
  method PathsForSongKeyOfTrack(lib: Library, trackPath: Path) returns (paths: set<Path>)
    requires lib.Valid()
    ensures trackPath == "" ==> paths == {}
    ensures trackPath != "" && (exists s :: lib.Visible(s) && s.path == trackPath) ==>
              forall p :: p in paths <==> exists r :: Connected(lib, trackPath, r) && r.path == p
    ensures trackPath != "" && !(exists s :: lib.Visible(s) && s.path == trackPath) ==> paths == {trackPath}
    ensures forall p :: p in paths && p != trackPath ==> exists r :: r in lib.rows && !r.missing && r.path == p
  {
    if trackPath == "" {
      return {};
    }
    var identities := CollectIdentities(lib, trackPath);
    var tracks := Values(identities);
    paths := PathsConnectedToTrack(lib, tracks, trackPath);
    if s :| lib.Visible(s) && s.path == trackPath {
      StartIsKept(lib, trackPath, identities, tracks, paths, s);
    } else {
      assert forall t :: t in tracks ==> t.path in identities;
    }
    if paths == {} {
      paths := {trackPath};
    }
  }

  ghost predicate NarrowResult(lib: Library, tracks: seq<TrackIdentity>, path: Path, p: Path) {
    exists i, j :: 0 <= i < |tracks| && 0 <= j < |tracks| && tracks[i].path == path &&
      tracks[j].path == p && Reaches<int>(SameAt(lib, tracks), i, j)
  }

  lemma StartIsKept(lib: Library, path: Path, identities: map<Path, TrackIdentity>, tracks: seq<TrackIdentity>,
                    paths: set<Path>, s: Row)
    requires lib.Valid() && path != "" && IsComponent(lib, path, identities)
    requires Lists(tracks, identities)
    requires forall p :: p in paths <==> p != "" && NarrowResult(lib, tracks, path, p)
    requires lib.Visible(s) && s.path == path
    ensures path in paths
    ensures forall p :: p in paths <==> exists r :: Connected(lib, path, r) && r.path == p
  {
    ReachesSelf(lib.Linked(), s);
    assert Connected(lib, path, s);
    var target := IdentityListed(lib, path, identities, tracks, s);
    forall r | Connected(lib, path, r) ensures r.path in paths {
      ConnectedIsKept(lib, path, identities, tracks, target, s, r);
    }
    forall p | p in paths ensures exists r :: Connected(lib, path, r) && r.path == p {
      var j: nat :| j < |tracks| && tracks[j].path == p;
      assert tracks[j] in tracks;
    }
  }

  lemma ConnectedIsKept(lib: Library, path: Path, identities: map<Path, TrackIdentity>, tracks: seq<TrackIdentity>,
                        target: nat, s: Row, r: Row)
    requires lib.Valid() && IsComponent(lib, path, identities) && Lists(tracks, identities)
    requires lib.Visible(s) && s.path == path && target < |tracks| && tracks[target] == IdentityOf(lib, s)
    requires Connected(lib, path, r)
    ensures r.path != "" && NarrowResult(lib, tracks, path, r.path)
  {
    NarrowSearchKeepsAll(lib, path, identities, tracks, target, s, r);
  }
}
