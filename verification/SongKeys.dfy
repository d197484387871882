/**
  The song keys of a whole library.  Disjoint sets are merged over shared
  groups, recordings and fallback keys, and each set is named after its
  least members: two tracks have the same key exactly when they are connected.
*/
module SongKeys {
  import opened Reachability
  import opened SongIdentity
  import opened SongComponents
  import opened Text
  import opened UnionFind
  import opened Wrappers

  /** A value two tracks can share. */
  datatype Shared = Group(id: int) | Recording(mbid: string) | Fallback(key: string)

  predicate Has(lib: Library, t: TrackIdentity, v: Shared) {
    match v
    case Group(id) => id >= 0 && t.group == id
    case Recording(mbid) => mbid != "" && t.mbid == mbid
    case Fallback(key) => t.mbid == "" && lib.SongKey(t.artist, t.title) == key
  }

  lemma SharingIsSame(lib: Library, a: TrackIdentity, b: TrackIdentity, v: Shared)
    requires Has(lib, a, v) && Has(lib, b, v)
    ensures SameSong(lib, a, b)
  {
    SongKeyIsName(lib, a.artist, a.title, b.artist, b.title);
  }

  lemma SameShares(lib: Library, a: TrackIdentity, b: TrackIdentity) returns (v: Shared)
    requires SameSong(lib, a, b)
    ensures Has(lib, a, v) && Has(lib, b, v)
  {
    v := if a.group >= 0 && a.group == b.group then Group(a.group)
         else if a.mbid != "" then Recording(a.mbid)
         else Fallback(lib.SongKey(a.artist, a.title));
  }

  ghost predicate Linked(lib: Library, tracks: seq<TrackIdentity>, i: int, j: int) {
    Reaches<int>(SameAt(lib, tracks), i, j)
  }

  lemma LinkedSymmetric(lib: Library, tracks: seq<TrackIdentity>, i: int, j: int)
    requires Linked(lib, tracks, i, j)
    ensures Linked(lib, tracks, j, i)
  {
    ReachesSymmetric<int>(SameAt(lib, tracks), i, j);
  }

  lemma LinkedTransitive(lib: Library, tracks: seq<TrackIdentity>, i: int, j: int, k: int)
    requires Linked(lib, tracks, i, j) && Linked(lib, tracks, j, k)
    ensures Linked(lib, tracks, i, k)
  {
    ReachesTransitive<int>(SameAt(lib, tracks), i, j, k);
  }

  lemma LinkedByValue(lib: Library, tracks: seq<TrackIdentity>, i: nat, j: nat, v: Shared)
    requires i < |tracks| && j < |tracks| && Has(lib, tracks[i], v) && Has(lib, tracks[j], v)
    ensures Linked(lib, tracks, i, j)
  {
    SharingIsSame(lib, tracks[i], tracks[j], v);
    ReachesSelf<int>(SameAt(lib, tracks), i);
    ReachesFurther<int>(SameAt(lib, tracks), i, i, j);
  }

  // ---- merging -----------------------------------------------------------------

  /** Only linked tracks are in one set. */
  ghost predicate Sound(lib: Library, tracks: seq<TrackIdentity>, parent: seq<nat>, rank: seq<nat>) {
    |parent| == |tracks| && WellRanked(parent, rank) &&
    forall i, j :: 0 <= i < |tracks| && 0 <= j < |tracks| && Together(parent, rank, i, j) ==> Linked(lib, tracks, i, j)
  }

  /** The first track seen with each value: the three tables of the source in one. */
  type Firsts = map<Shared, nat>

  ghost predicate FirstsHave(lib: Library, tracks: seq<TrackIdentity>, first: Firsts) {
    forall v :: v in first ==> first[v] < |tracks| && Has(lib, tracks[first[v]], v)
  }

  /** The first n tracks are in the sets of the first tracks with their values. */
  ghost predicate Covered(lib: Library, tracks: seq<TrackIdentity>, first: Firsts, parent: seq<nat>, rank: seq<nat>, n: nat) {
    n <= |tracks| == |parent| && WellRanked(parent, rank) && FirstsHave(lib, tracks, first) &&
    forall k, v :: 0 <= k < n && Has(lib, tracks[k], v) ==> v in first && Together(parent, rank, k, first[v])
  }

  ghost predicate Coarser(parent: seq<nat>, rank: seq<nat>, linked: seq<nat>, ranks: seq<nat>) {
    |parent| == |linked| && WellRanked(parent, rank) && WellRanked(linked, ranks) &&
    forall i, j :: 0 <= i < |parent| && 0 <= j < |parent| && Together(parent, rank, i, j) ==> Together(linked, ranks, i, j)
  }

  lemma MergeIsSound(lib: Library, tracks: seq<TrackIdentity>, parent: seq<nat>, rank: seq<nat>, a: nat, b: nat,
                     linked: seq<nat>, ranks: seq<nat>)
    requires Sound(lib, tracks, parent, rank) && Merged(parent, rank, a, b, linked, ranks)
    requires Linked(lib, tracks, a, b)
    ensures Sound(lib, tracks, linked, ranks)
  {
    forall i, j | 0 <= i < |tracks| && 0 <= j < |tracks| && Together(linked, ranks, i, j)
      ensures Linked(lib, tracks, i, j)
    {
      if Together(parent, rank, i, a) && Together(parent, rank, j, b) {
        LinkedAcross(lib, tracks, i, a, b, j);
      } else if Together(parent, rank, i, b) && Together(parent, rank, j, a) {
        LinkedSymmetric(lib, tracks, a, b);
        LinkedAcross(lib, tracks, i, b, a, j);
      }
    }
  }

  lemma LinkedAcross(lib: Library, tracks: seq<TrackIdentity>, i: int, a: int, b: int, j: int)
    requires Linked(lib, tracks, i, a) && Linked(lib, tracks, a, b) && Linked(lib, tracks, j, b)
    ensures Linked(lib, tracks, i, j)
  {
    LinkedSymmetric(lib, tracks, j, b);
    LinkedTransitive(lib, tracks, i, a, b);
    LinkedTransitive(lib, tracks, i, b, j);
  }

  lemma MergeIsCoarser(parent: seq<nat>, rank: seq<nat>, a: nat, b: nat, linked: seq<nat>, ranks: seq<nat>)
    requires Merged(parent, rank, a, b, linked, ranks)
    ensures Coarser(parent, rank, linked, ranks) && Together(linked, ranks, a, b)
  {
    assert Together(parent, rank, a, a) && Together(parent, rank, b, b);
  }

  /** Merges the track with the first one that has the value, or is the first. */
  method NoteValue(lib: Library, tracks: seq<TrackIdentity>, unions: UnionFind, before: Firsts, v: Shared, index: nat)
    returns (first: Firsts)
    requires unions.Valid() && Sound(lib, tracks, unions.parent, unions.rank) && FirstsHave(lib, tracks, before)
    requires index < |tracks| && Has(lib, tracks[index], v)
    modifies unions
    ensures unions.Valid() && Sound(lib, tracks, unions.parent, unions.rank) && FirstsHave(lib, tracks, first)
    ensures Coarser(old(unions.parent), old(unions.rank), unions.parent, unions.rank)
    ensures before.Keys + {v} == first.Keys && forall w :: w in before ==> first[w] == before[w]
    ensures Together(unions.parent, unions.rank, index, first[v])
  {
    first := before;
    if v !in before {
      first := before[v := index];
    } else {
      LinkedByValue(lib, tracks, before[v], index, v);
      unions.Unite(before[v], index);
      MergeIsSound(lib, tracks, old(unions.parent), old(unions.rank), before[v], index, unions.parent, unions.rank);
      MergeIsCoarser(old(unions.parent), old(unions.rank), before[v], index, unions.parent, unions.rank);
    }
  }

  lemma CoveredFurther(lib: Library, tracks: seq<TrackIdentity>, before: Firsts, parent: seq<nat>, rank: seq<nat>,
                       first: Firsts, linked: seq<nat>, ranks: seq<nat>, n: nat)
    requires Covered(lib, tracks, before, parent, rank, n) && Coarser(parent, rank, linked, ranks)
    requires FirstsHave(lib, tracks, first) && before.Keys <= first.Keys
    requires forall v :: v in before ==> first[v] == before[v]
    ensures Covered(lib, tracks, first, linked, ranks, n)
  {
  }

  /** The value besides the group. */
  function NameValue(lib: Library, t: TrackIdentity): (v: Shared)
    ensures Has(lib, t, v) && forall w :: Has(lib, t, w) <==> w == v || (t.group >= 0 && w == Group(t.group))
  {
    if t.mbid != "" then Recording(t.mbid) else Fallback(lib.SongKey(t.artist, t.title))
  }

  /** The index is in the set of the first track with the value. */
  ghost predicate Joined(first: Firsts, parent: seq<nat>, rank: seq<nat>, index: nat, v: Shared) {
    WellRanked(parent, rank) && index < |parent| && v in first && first[v] < |parent| &&
    Together(parent, rank, index, first[v])
  }

  lemma JoinedFurther(before: Firsts, parent: seq<nat>, rank: seq<nat>, first: Firsts, linked: seq<nat>, ranks: seq<nat>,
                      index: nat, v: Shared)
    requires Joined(before, parent, rank, index, v) && Coarser(parent, rank, linked, ranks)
    requires v in first && first[v] == before[v]
    ensures Joined(first, linked, ranks, index, v)
  {
  }

  lemma CoveredOneMore(lib: Library, tracks: seq<TrackIdentity>, first: Firsts, parent: seq<nat>, rank: seq<nat>, index: nat)
    requires index < |tracks| && Covered(lib, tracks, first, parent, rank, index)
    requires Joined(first, parent, rank, index, NameValue(lib, tracks[index]))
    requires tracks[index].group >= 0 ==> Joined(first, parent, rank, index, Group(tracks[index].group))
    ensures Covered(lib, tracks, first, parent, rank, index + 1)
  {
  }

  method NoteGroup(lib: Library, tracks: seq<TrackIdentity>, unions: UnionFind, before: Firsts, index: nat)
    returns (first: Firsts)
    requires unions.Valid() && Sound(lib, tracks, unions.parent, unions.rank)
    requires index < |tracks| && Covered(lib, tracks, before, unions.parent, unions.rank, index)
    modifies unions
    ensures unions.Valid() && Sound(lib, tracks, unions.parent, unions.rank)
    ensures Covered(lib, tracks, first, unions.parent, unions.rank, index)
    ensures tracks[index].group >= 0 ==> Joined(first, unions.parent, unions.rank, index, Group(tracks[index].group))
  {
    first := before;
    if tracks[index].group >= 0 {
      first := NoteValue(lib, tracks, unions, before, Group(tracks[index].group), index);
      CoveredFurther(lib, tracks, before, old(unions.parent), old(unions.rank), first, unions.parent, unions.rank, index);
    }
  }

  method NoteTrack(lib: Library, tracks: seq<TrackIdentity>, unions: UnionFind, before: Firsts, index: nat)
    returns (first: Firsts)
    requires unions.Valid() && Sound(lib, tracks, unions.parent, unions.rank)
    requires index < |tracks| && Covered(lib, tracks, before, unions.parent, unions.rank, index)
    modifies unions
    ensures unions.Valid() && Sound(lib, tracks, unions.parent, unions.rank)
    ensures Covered(lib, tracks, first, unions.parent, unions.rank, index + 1)
  {
    var grouped := NoteGroup(lib, tracks, unions, before, index);
    ghost var parent, rank := unions.parent, unions.rank;
    first := NoteValue(lib, tracks, unions, grouped, NameValue(lib, tracks[index]), index);
    CoveredFurther(lib, tracks, grouped, parent, rank, first, unions.parent, unions.rank, index);
    if tracks[index].group >= 0 {
      JoinedFurther(grouped, parent, rank, first, unions.parent, unions.rank, index, Group(tracks[index].group));
    }
    CoveredOneMore(lib, tracks, first, unions.parent, unions.rank, index);
  }

  lemma CoveredIsComplete(lib: Library, tracks: seq<TrackIdentity>, first: Firsts, parent: seq<nat>, rank: seq<nat>, i: nat, j: nat)
    requires Covered(lib, tracks, first, parent, rank, |tracks|) && i < |tracks| && j < |tracks|
    requires Linked(lib, tracks, i, j)
    ensures Together(parent, rank, i, j)
  {
    var inside := set x: int | 0 <= x < |tracks| && Together(parent, rank, x, i);
    forall x: int, y: int | x in inside && SameAt(lib, tracks)(x, y) ensures y in inside {
      var v := SameShares(lib, tracks[x], tracks[y]);
      assert Together(parent, rank, x, first[v]) && Together(parent, rank, y, first[v]);
    }
    ReachedIsInside<int>(SameAt(lib, tracks), inside, i, j);
  }

  /** Equal roots for exactly the linked tracks. */
  ghost predicate RootsAre(lib: Library, tracks: seq<TrackIdentity>, roots: seq<nat>) {
    |roots| == |tracks| &&
    forall i, j :: 0 <= i < |tracks| && 0 <= j < |tracks| ==> (roots[i] == roots[j] <==> Linked(lib, tracks, i, j))
  }

  ghost predicate HasRoots(parent: seq<nat>, rank: seq<nat>, roots: seq<nat>) {
    |roots| == |parent| && WellRanked(parent, rank) &&
    forall i :: 0 <= i < |parent| ==> Root(parent, rank, i) == roots[i]
  }

  method UniteAll(lib: Library, tracks: seq<TrackIdentity>) returns (unions: UnionFind, ghost roots: seq<nat>)
    ensures fresh(unions) && unions.Valid()
    ensures RootsAre(lib, tracks, roots) && HasRoots(unions.parent, unions.rank, roots)
  {
    unions := new UnionFind(|tracks|);
    StartIsSound(lib, tracks, unions.parent, unions.rank);
    var first: Firsts := map[];
    for index := 0 to |tracks|
      invariant fresh(unions) && unions.Valid() && Sound(lib, tracks, unions.parent, unions.rank)
      invariant Covered(lib, tracks, first, unions.parent, unions.rank, index)
    {
      first := NoteTrack(lib, tracks, unions, first, index);
    }
    ghost var parent, rank := unions.parent, unions.rank;
    roots := seq(|parent|, i requires 0 <= i < |parent| => Root(parent, rank, i));
    forall i, j | 0 <= i < |tracks| && 0 <= j < |tracks| ensures roots[i] == roots[j] <==> Linked(lib, tracks, i, j) {
      assert roots[i] == roots[j] <==> Together(parent, rank, i, j);
      if Linked(lib, tracks, i, j) {
        CoveredIsComplete(lib, tracks, first, parent, rank, i, j);
      }
    }
  }

  lemma StartIsSound(lib: Library, tracks: seq<TrackIdentity>, parent: seq<nat>, rank: seq<nat>)
    requires |parent| == |tracks| && WellRanked(parent, rank) && forall i :: 0 <= i < |parent| ==> Root(parent, rank, i) == i
    ensures Sound(lib, tracks, parent, rank)
  {
    forall i, j | 0 <= i < |tracks| && 0 <= j < |tracks| && Together(parent, rank, i, j) ensures Linked(lib, tracks, i, j) {
      ReachesSelf<int>(SameAt(lib, tracks), i);
    }
  }

  // ---- naming ------------------------------------------------------------------

  const NO_GROUP := 0x7FFF_FFFF_FFFF_FFFF

  /** The least group, recording and fallback key of a set; NO_GROUP and "" when there is none. */
  datatype Representative = Representative(group: nat, mbid: string, fallback: string)

  const NOBODY := Representative(NO_GROUP, "", "")

  function LeastString(least: string, value: string): string {
    if least == "" || Below(value, least) then value else least
  }

  function WithTrack(lib: Library, r: Representative, t: TrackIdentity): Representative {
    Representative(if 0 <= t.group < r.group then t.group else r.group,
                   if t.mbid != "" then LeastString(r.mbid, t.mbid) else r.mbid,
                   if t.mbid == "" then LeastString(r.fallback, lib.SongKey(t.artist, t.title)) else r.fallback)
  }

  /** Nothing of the track lies below the representative. */
  ghost predicate AtMost(lib: Library, r: Representative, t: TrackIdentity) {
    (t.group >= 0 ==> r.group <= t.group) &&
    (t.mbid != "" ==> r.mbid != "" && !Below(t.mbid, r.mbid)) &&
    (t.mbid == "" ==> r.fallback != "" && !Below(lib.SongKey(t.artist, t.title), r.fallback))
  }

  /** Each part of the representative comes from a track of the set. */
  ghost predicate ComesFrom(lib: Library, r: Representative, tracks: seq<TrackIdentity>, members: set<nat>) {
    r.group <= NO_GROUP &&
    (r.group < NO_GROUP ==> exists k :: k in members && k < |tracks| && Has(lib, tracks[k], Group(r.group))) &&
    (r.mbid != "" ==> exists k :: k in members && k < |tracks| && Has(lib, tracks[k], Recording(r.mbid))) &&
    (r.fallback != "" ==> exists k :: k in members && k < |tracks| && Has(lib, tracks[k], Fallback(r.fallback)))
  }

  ghost predicate Describes(lib: Library, r: Representative, tracks: seq<TrackIdentity>, members: set<nat>) {
    ComesFrom(lib, r, tracks, members) && forall k :: k in members ==> k < |tracks| && AtMost(lib, r, tracks[k])
  }

  lemma LeastIsBelow(least: string, value: string, other: string)
    requires value != ""
    ensures LeastString(least, value) != "" && !Below(value, LeastString(least, value))
    ensures least != "" && !Below(other, least) ==> !Below(other, LeastString(least, value))
  {
    BelowIsTotal(value, value);
    if least != "" && !Below(other, least) && Below(value, least) && Below(other, value) {
      BelowTransitive(other, value, least);
    }
  }

  lemma AtMostStill(lib: Library, r: Representative, t: TrackIdentity, other: TrackIdentity)
    ensures AtMost(lib, WithTrack(lib, r, t), t)
    ensures AtMost(lib, r, other) ==> AtMost(lib, WithTrack(lib, r, t), other)
  {
    if t.mbid != "" {
      LeastIsBelow(r.mbid, t.mbid, other.mbid);
    } else {
      LeastIsBelow(r.fallback, lib.SongKey(t.artist, t.title), lib.SongKey(other.artist, other.title));
    }
  }

  lemma ComesFromMore(lib: Library, r: Representative, tracks: seq<TrackIdentity>, members: set<nat>, k: nat)
    requires ComesFrom(lib, r, tracks, members) && k < |tracks|
    ensures ComesFrom(lib, WithTrack(lib, r, tracks[k]), tracks, members + {k})
  {
    var more, next := members + {k}, WithTrack(lib, r, tracks[k]);
    assert k in more;
    if next.group < NO_GROUP {
      assert next.group != r.group ==> Has(lib, tracks[k], Group(next.group));
    }
    if next.mbid != "" {
      assert next.mbid != r.mbid ==> Has(lib, tracks[k], Recording(next.mbid));
    }
    if next.fallback != "" {
      assert next.fallback != r.fallback ==> Has(lib, tracks[k], Fallback(next.fallback));
    }
  }

  lemma DescribesMore(lib: Library, r: Representative, tracks: seq<TrackIdentity>, members: set<nat>, k: nat)
    requires Describes(lib, r, tracks, members) && k < |tracks|
    ensures Describes(lib, WithTrack(lib, r, tracks[k]), tracks, members + {k})
  {
    ComesFromMore(lib, r, tracks, members, k);
    forall m | m in members + {k} ensures m < |tracks| && AtMost(lib, WithTrack(lib, r, tracks[k]), tracks[m]) {
      AtMostStill(lib, r, tracks[k], tracks[m]);
    }
  }

  /** Two representatives of one set are equal. */
  lemma DescriptionIsUnique(lib: Library, r: Representative, s: Representative, tracks: seq<TrackIdentity>, members: set<nat>)
    requires Describes(lib, r, tracks, members) && Describes(lib, s, tracks, members)
    ensures r == s
  {
    NotAbove(lib, r, s, tracks, members);
    NotAbove(lib, s, r, tracks, members);
    BelowIsTotal(r.mbid, s.mbid);
    BelowIsTotal(r.fallback, s.fallback);
  }

  lemma NotAbove(lib: Library, r: Representative, s: Representative, tracks: seq<TrackIdentity>, members: set<nat>)
    requires Describes(lib, r, tracks, members) && Describes(lib, s, tracks, members)
    ensures r.group <= s.group
    ensures s.mbid != "" ==> r.mbid != "" && !Below(s.mbid, r.mbid)
    ensures s.fallback != "" ==> r.fallback != "" && !Below(s.fallback, r.fallback)
  {
    if s.group < NO_GROUP {
      var k :| k in members && k < |tracks| && Has(lib, tracks[k], Group(s.group));
      assert AtMost(lib, r, tracks[k]);
    }
    if s.mbid != "" {
      var k :| k in members && k < |tracks| && Has(lib, tracks[k], Recording(s.mbid));
      assert AtMost(lib, r, tracks[k]);
    }
    if s.fallback != "" {
      var k :| k in members && k < |tracks| && Has(lib, tracks[k], Fallback(s.fallback));
      assert AtMost(lib, r, tracks[k]);
    }
  }

  /** The name of a set: a group goes before a recording, and a recording before a fallback key. */
  function KeyOf(r: Representative): string {
    if r.group != NO_GROUP then "cg:" + Digits(r.group)
    else if r.mbid != "" then "mbid:" + r.mbid
    else r.fallback
  }

  /**
    The name says the least group if a member has one; otherwise the least
    recording if a member has one; and otherwise the least fallback key.
  */
  lemma KeyNamesLeast(lib: Library, tracks: seq<TrackIdentity>, i: int, key: string, k: nat)
    requires Names(lib, tracks, i, key) && k in Component(lib, tracks, i)
    ensures var all := Component(lib, tracks, i);
            (IsLeastGroup(tracks, all, tracks[k].group) ==> key == "cg:" + Digits(tracks[k].group)) &&
            (IsLeastRecording(tracks, all, tracks[k].mbid) ==> key == "mbid:" + tracks[k].mbid) &&
            (IsLeastFallback(lib, tracks, all, lib.SongKey(tracks[k].artist, tracks[k].title)) ==>
               key == lib.SongKey(tracks[k].artist, tracks[k].title))
  {
    var r :| Describes(lib, r, tracks, Component(lib, tracks, i)) && key == KeyOf(r);
    GroupIsLeast(lib, r, tracks, Component(lib, tracks, i), k);
    NameIsLeast(lib, r, tracks, Component(lib, tracks, i), k);
  }

  lemma GroupIsLeast(lib: Library, r: Representative, tracks: seq<TrackIdentity>, members: set<nat>, k: nat)
    requires Describes(lib, r, tracks, members) && k in members
    ensures k < |tracks|
    ensures IsLeastGroup(tracks, members, tracks[k].group) ==> r.group == tracks[k].group
    ensures NoGroup(tracks, members) ==> r.group == NO_GROUP
  {
    assert AtMost(lib, r, tracks[k]);
  }

  lemma NameIsLeast(lib: Library, r: Representative, tracks: seq<TrackIdentity>, members: set<nat>, k: nat)
    requires Describes(lib, r, tracks, members) && k in members
    ensures k < |tracks|
    ensures IsLeastRecording(tracks, members, tracks[k].mbid) ==> r.group == NO_GROUP && r.mbid == tracks[k].mbid
    ensures IsLeastFallback(lib, tracks, members, lib.SongKey(tracks[k].artist, tracks[k].title)) ==>
      r.group == NO_GROUP && r.mbid == "" && r.fallback == lib.SongKey(tracks[k].artist, tracks[k].title)
  {
    assert AtMost(lib, r, tracks[k]);
    GroupIsLeast(lib, r, tracks, members, k);
    BelowIsTotal(r.mbid, tracks[k].mbid);
    BelowIsTotal(r.fallback, lib.SongKey(tracks[k].artist, tracks[k].title));
  }

  ghost predicate NoGroup(tracks: seq<TrackIdentity>, members: set<nat>) {
    forall m :: m in members && m < |tracks| ==> tracks[m].group < 0 || tracks[m].group >= NO_GROUP
  }

  ghost predicate NoRecording(tracks: seq<TrackIdentity>, members: set<nat>) {
    forall m :: m in members && m < |tracks| ==> tracks[m].mbid == ""
  }

  ghost predicate IsLeastGroup(tracks: seq<TrackIdentity>, members: set<nat>, group: int) {
    0 <= group < NO_GROUP && forall m :: m in members && m < |tracks| && tracks[m].group >= 0 ==> group <= tracks[m].group
  }

  ghost predicate IsLeastRecording(tracks: seq<TrackIdentity>, members: set<nat>, mbid: string) {
    NoGroup(tracks, members) && mbid != "" &&
    forall m :: m in members && m < |tracks| && tracks[m].mbid != "" ==> !Below(tracks[m].mbid, mbid)
  }

  ghost predicate IsLeastFallback(lib: Library, tracks: seq<TrackIdentity>, members: set<nat>, key: string) {
    NoGroup(tracks, members) && NoRecording(tracks, members) &&
    forall m :: m in members && m < |tracks| ==> !Below(lib.SongKey(tracks[m].artist, tracks[m].title), key)
  }

  /** The value the name is taken from. */
  function NamedAfter(r: Representative): Shared {
    if r.group != NO_GROUP then Group(r.group)
    else if r.mbid != "" then Recording(r.mbid)
    else Fallback(r.fallback)
  }

  lemma PrefixesDiffer(lib: Library, artist: string, title: string, n: nat, mbid: string)
    ensures "cg:" + Digits(n) != "mbid:" + mbid
    ensures "cg:" + Digits(n) != lib.SongKey(artist, title) && "mbid:" + mbid != lib.SongKey(artist, title)
  {
    assert ("cg:" + Digits(n))[0] == 'c' && ("mbid:" + mbid)[0] == 'm';
    assert lib.SongKey(artist, title)[0] == 'a';
  }

  /** Every nonempty set has a member with the value it is named after. */
  lemma NameHasHolder(lib: Library, r: Representative, tracks: seq<TrackIdentity>, members: set<nat>) returns (k: nat)
    requires Describes(lib, r, tracks, members) && members != {}
    ensures k in members && k < |tracks| && Has(lib, tracks[k], NamedAfter(r))
  {
    var any :| any in members;
    assert AtMost(lib, r, tracks[any]);
    if r.group != NO_GROUP {
      k :| k in members && k < |tracks| && Has(lib, tracks[k], Group(r.group));
    } else if r.mbid != "" {
      k :| k in members && k < |tracks| && Has(lib, tracks[k], Recording(r.mbid));
    } else {
      k :| k in members && k < |tracks| && Has(lib, tracks[k], Fallback(r.fallback));
    }
  }

  /** Equal names come from equal values. */
  lemma KeyIsInjective(lib: Library, r: Representative, s: Representative, a: TrackIdentity, b: TrackIdentity)
    requires Has(lib, a, NamedAfter(r)) && Has(lib, b, NamedAfter(s)) && KeyOf(r) == KeyOf(s)
    ensures NamedAfter(r) == NamedAfter(s)
  {
    PrefixesDiffer(lib, a.artist, a.title, s.group, s.mbid);
    PrefixesDiffer(lib, b.artist, b.title, r.group, r.mbid);
    PrefixesDiffer(lib, a.artist, a.title, r.group, s.mbid);
    PrefixesDiffer(lib, b.artist, b.title, s.group, r.mbid);
    if r.group != NO_GROUP && s.group != NO_GROUP {
      assert Digits(r.group) == ("cg:" + Digits(r.group))[3..] && Digits(s.group) == ("cg:" + Digits(s.group))[3..];
      DigitsInjective(r.group, s.group);
    } else if r.group == NO_GROUP && s.group == NO_GROUP && r.mbid != "" && s.mbid != "" {
      assert r.mbid == ("mbid:" + r.mbid)[5..] && s.mbid == ("mbid:" + s.mbid)[5..];
    }
  }

  // ---- the resolved keys ---------------------------------------------------------

  /** The tracks linked to i. */
  ghost function Component(lib: Library, tracks: seq<TrackIdentity>, i: int): set<nat> {
    set k: nat | k < |tracks| && Linked(lib, tracks, i, k)
  }

  /** The key is the name of the tracks linked to i. */
  ghost predicate Names(lib: Library, tracks: seq<TrackIdentity>, i: int, key: string) {
    exists r :: Describes(lib, r, tracks, Component(lib, tracks, i)) && key == KeyOf(r)
  }

  lemma LinkedShareKey(lib: Library, tracks: seq<TrackIdentity>, i: nat, j: nat, key: string, other: string)
    requires Names(lib, tracks, i, key) && Names(lib, tracks, j, other) && Linked(lib, tracks, i, j)
    ensures key == other
  {
    var r :| Describes(lib, r, tracks, Component(lib, tracks, i)) && key == KeyOf(r);
    var s :| Describes(lib, s, tracks, Component(lib, tracks, j)) && other == KeyOf(s);
    ComponentsEqual(lib, tracks, i, j);
    DescriptionIsUnique(lib, r, s, tracks, Component(lib, tracks, i));
  }

  lemma NamesHasHolder(lib: Library, tracks: seq<TrackIdentity>, i: nat, r: Representative) returns (k: nat)
    requires i < |tracks| && Describes(lib, r, tracks, Component(lib, tracks, i))
    ensures k < |tracks| && Linked(lib, tracks, i, k) && Has(lib, tracks[k], NamedAfter(r))
  {
    ReachesSelf<int>(SameAt(lib, tracks), i);
    assert i in Component(lib, tracks, i);
    k := NameHasHolder(lib, r, tracks, Component(lib, tracks, i));
  }

  lemma SharedKeyLinks(lib: Library, tracks: seq<TrackIdentity>, i: nat, j: nat, key: string)
    requires i < |tracks| && j < |tracks| && Names(lib, tracks, i, key) && Names(lib, tracks, j, key)
    ensures Linked(lib, tracks, i, j)
  {
    var r :| Describes(lib, r, tracks, Component(lib, tracks, i)) && key == KeyOf(r);
    var s :| Describes(lib, s, tracks, Component(lib, tracks, j)) && key == KeyOf(s);
    var k := NamesHasHolder(lib, tracks, i, r);
    var m := NamesHasHolder(lib, tracks, j, s);
    KeyIsInjective(lib, r, s, tracks[k], tracks[m]);
    LinkedByValue(lib, tracks, k, m, NamedAfter(r));
    LinkedAcross(lib, tracks, i, k, m, j);
  }

  /** Two tracks have the same key exactly when they are linked. */
  lemma SameKeyIffLinked(lib: Library, tracks: seq<TrackIdentity>, i: nat, j: nat, key: string, other: string)
    requires i < |tracks| && j < |tracks| && Names(lib, tracks, i, key) && Names(lib, tracks, j, other)
    ensures key == other <==> Linked(lib, tracks, i, j)
  {
    if Linked(lib, tracks, i, j) {
      LinkedShareKey(lib, tracks, i, j, key, other);
    } else if key == other {
      SharedKeyLinks(lib, tracks, i, j, key);
    }
  }

  lemma ComponentsEqual(lib: Library, tracks: seq<TrackIdentity>, i: nat, j: nat)
    requires Linked(lib, tracks, i, j)
    ensures Component(lib, tracks, i) == Component(lib, tracks, j)
  {
    LinkedSymmetric(lib, tracks, i, j);
    forall k: nat | k < |tracks| ensures k in Component(lib, tracks, i) <==> k in Component(lib, tracks, j) {
      if Linked(lib, tracks, i, k) {
        LinkedTransitive(lib, tracks, j, i, k);
      }
      if Linked(lib, tracks, j, k) {
        LinkedTransitive(lib, tracks, i, j, k);
      }
    }
  }

  /** The members of a set among the first n tracks. */
  ghost function MembersUpTo(roots: seq<nat>, root: nat, n: nat): set<nat>
    requires n <= |roots|
  {
    set k: nat | k < n && roots[k] == root
  }

  type Representatives = map<nat, Representative>

  function RepresentativeOf(reps: Representatives, root: nat): Representative {
    if root in reps then reps[root] else NOBODY
  }

  /** Each root's representative describes the members among the first n tracks. */
  ghost predicate Collected(lib: Library, tracks: seq<TrackIdentity>, roots: seq<nat>, reps: Representatives, n: nat) {
    n <= |tracks| == |roots| &&
    forall root: nat :: Describes(lib, RepresentativeOf(reps, root), tracks, MembersUpTo(roots, root, n))
  }

  lemma CollectedMore(lib: Library, tracks: seq<TrackIdentity>, roots: seq<nat>, reps: Representatives, n: nat)
    requires n < |tracks| && Collected(lib, tracks, roots, reps, n)
    ensures Collected(lib, tracks, roots,
                      reps[roots[n] := WithTrack(lib, RepresentativeOf(reps, roots[n]), tracks[n])], n + 1)
  {
    var more := reps[roots[n] := WithTrack(lib, RepresentativeOf(reps, roots[n]), tracks[n])];
    forall root: nat ensures Describes(lib, RepresentativeOf(more, root), tracks, MembersUpTo(roots, root, n + 1)) {
      assert Describes(lib, RepresentativeOf(reps, root), tracks, MembersUpTo(roots, root, n));
      if root == roots[n] {
        DescribesMore(lib, RepresentativeOf(reps, root), tracks, MembersUpTo(roots, root, n), n);
        assert MembersUpTo(roots, root, n + 1) == MembersUpTo(roots, root, n) + {n};
      } else {
        assert MembersUpTo(roots, root, n + 1) == MembersUpTo(roots, root, n);
      }
    }
  }

  /** The root of a track, from sets with the given roots. */
  method FindRoot(unions: UnionFind, ghost roots: seq<nat>, i: nat) returns (root: nat)
    requires unions.Valid() && HasRoots(unions.parent, unions.rank, roots) && i < |roots|
    modifies unions
    ensures unions.Valid() && HasRoots(unions.parent, unions.rank, roots) && root == roots[i]
  {
    root := unions.Find(i);
  }

  method CollectRepresentatives(lib: Library, tracks: seq<TrackIdentity>, unions: UnionFind, ghost roots: seq<nat>)
    returns (reps: Representatives)
    requires unions.Valid() && HasRoots(unions.parent, unions.rank, roots) && |roots| == |tracks|
    modifies unions
    ensures unions.Valid() && HasRoots(unions.parent, unions.rank, roots)
    ensures Collected(lib, tracks, roots, reps, |tracks|)
  {
    reps := map[];
    for i := 0 to |tracks|
      invariant unions.Valid() && HasRoots(unions.parent, unions.rank, roots)
      invariant Collected(lib, tracks, roots, reps, i)
    {
      var root := FindRoot(unions, roots, i);
      CollectedMore(lib, tracks, roots, reps, i);
      reps := reps[root := WithTrack(lib, RepresentativeOf(reps, root), tracks[i])];
    }
  }

  lemma CollectedNames(lib: Library, tracks: seq<TrackIdentity>, roots: seq<nat>, reps: Representatives, i: nat)
    requires RootsAre(lib, tracks, roots) && Collected(lib, tracks, roots, reps, |tracks|) && i < |tracks|
    ensures Names(lib, tracks, i, KeyOf(RepresentativeOf(reps, roots[i])))
  {
    assert MembersUpTo(roots, roots[i], |tracks|) == Component(lib, tracks, i);
    assert Describes(lib, RepresentativeOf(reps, roots[i]), tracks, MembersUpTo(roots, roots[i], |tracks|));
  }

  /** Of the first n tracks, the last with its path: a later one replaces the key of an earlier one. */
  predicate IsLast(tracks: seq<TrackIdentity>, i: int, n: nat)
    requires n <= |tracks|
  {
    0 <= i < n && forall j :: i < j < n ==> tracks[j].path != tracks[i].path
  }

  type Keys = map<Path, string>

  /** There are keys for exactly the nonempty paths of the first n tracks. */
  ghost predicate HasPaths(tracks: seq<TrackIdentity>, keys: Keys, n: nat)
    requires n <= |tracks|
  {
    forall p :: p in keys <==> p != "" && exists i :: 0 <= i < n && tracks[i].path == p
  }

  /** The key of the track's path is the name of its component. */
  ghost predicate IsNamed(lib: Library, tracks: seq<TrackIdentity>, keys: Keys, i: nat)
    requires i < |tracks|
  {
    tracks[i].path != "" ==> tracks[i].path in keys && Names(lib, tracks, i, keys[tracks[i].path])
  }

  ghost predicate Resolves(lib: Library, tracks: seq<TrackIdentity>, keys: Keys, n: nat)
    requires n <= |tracks|
  {
    HasPaths(tracks, keys, n) && forall i :: IsLast(tracks, i, n) ==> IsNamed(lib, tracks, keys, i)
  }

  function WithKey(keys: Keys, path: Path, key: string): Keys {
    if path == "" then keys else keys[path := key]
  }

  lemma HasPathsMore(tracks: seq<TrackIdentity>, keys: Keys, n: nat, key: string)
    requires n < |tracks| && HasPaths(tracks, keys, n)
    ensures HasPaths(tracks, WithKey(keys, tracks[n].path, key), n + 1)
  {
    var more := WithKey(keys, tracks[n].path, key);
    forall p ensures p in more <==> p != "" && exists i :: 0 <= i < n + 1 && tracks[i].path == p {
      if i :| 0 <= i < n && tracks[i].path == p {
        assert p != "" ==> p in keys;
      }
    }
  }

  lemma ResolvesMore(lib: Library, tracks: seq<TrackIdentity>, keys: Keys, n: nat, key: string)
    requires n < |tracks| && Resolves(lib, tracks, keys, n) && Names(lib, tracks, n, key)
    ensures Resolves(lib, tracks, WithKey(keys, tracks[n].path, key), n + 1)
  {
    HasPathsMore(tracks, keys, n, key);
    var more := WithKey(keys, tracks[n].path, key);
    forall i | IsLast(tracks, i, n + 1) ensures IsNamed(lib, tracks, more, i) {
      if i < n {
        assert IsLast(tracks, i, n) && tracks[n].path != tracks[i].path;
        assert IsNamed(lib, tracks, keys, i);
      }
    }
  }

  /** The key of every path. */
  method ResolvedSongKeys(lib: Library, tracks: seq<TrackIdentity>) returns (keys: Keys)
    ensures Resolves(lib, tracks, keys, |tracks|)
  {
    keys := map[];
    if tracks == [] {
      assert HasPaths(tracks, keys, 0);
      return;
    }
    assert HasPaths(tracks, keys, 0);
    var unions, roots := UniteAll(lib, tracks);
    var reps := CollectRepresentatives(lib, tracks, unions, roots);
    for i := 0 to |tracks|
      invariant unions.Valid() && fresh(unions) && HasRoots(unions.parent, unions.rank, roots)
      invariant Resolves(lib, tracks, keys, i)
    {
      var root := FindRoot(unions, roots, i);
      CollectedNames(lib, tracks, roots, reps, i);
      ResolvesMore(lib, tracks, keys, i, KeyOf(RepresentativeOf(reps, root)));
      if tracks[i].path != "" {
        keys := keys[tracks[i].path := KeyOf(RepresentativeOf(reps, root))];
      }
    }
  }

  ghost predicate PathsDiffer(tracks: seq<TrackIdentity>) {
    forall i, j :: 0 <= i < j < |tracks| ==> tracks[i].path != tracks[j].path
  }

  lemma NarrowIsLinked(lib: Library, tracks: seq<TrackIdentity>, i: nat, j: nat)
    requires PathsDiffer(tracks) && i < |tracks| && j < |tracks|
    ensures NarrowResult(lib, tracks, tracks[i].path, tracks[j].path) <==> Linked(lib, tracks, i, j)
  {
    if NarrowResult(lib, tracks, tracks[i].path, tracks[j].path) {
      var k, m :| 0 <= k < |tracks| && 0 <= m < |tracks| && tracks[k].path == tracks[i].path &&
        tracks[m].path == tracks[j].path && Reaches<int>(SameAt(lib, tracks), k, m);
      assert k == i && m == j;
    }
  }

  /** With distinct paths, the whole-library keys and the narrow search agree on which paths are one song. */
  lemma KeysAgreeWithSearch(lib: Library, tracks: seq<TrackIdentity>, keys: Keys, p: Path, q: Path)
    requires PathsDiffer(tracks) && Resolves(lib, tracks, keys, |tracks|) && p in keys && q in keys
    ensures keys[p] == keys[q] <==> NarrowResult(lib, tracks, p, q)
  {
    var i :| 0 <= i < |tracks| && tracks[i].path == p;
    var j :| 0 <= j < |tracks| && tracks[j].path == q;
    assert IsLast(tracks, i, |tracks|) && IsLast(tracks, j, |tracks|);
    assert IsNamed(lib, tracks, keys, i) && IsNamed(lib, tracks, keys, j);
    SameKeyIffLinked(lib, tracks, i, j, keys[p], keys[q]);
    NarrowIsLinked(lib, tracks, i, j);
  }
}
