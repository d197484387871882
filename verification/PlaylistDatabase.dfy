/**
  Playlist items.  Each row stores its playlist and its position in it; the
  rows of every playlist are shown to represent a sequence of items through any
  run of additions, removals and full reorders.
*/
module PlaylistDatabase {
  import opened Wrappers

  type Id = nat

  datatype Row = Row(playlist: Id, ordinal: int, content: string)

  type Rows = map<Id, Row>

  predicate InPlaylist(rows: Rows, playlist: Id, id: Id) {
    id in rows && rows[id].playlist == playlist
  }

  /** The playlist's items are exactly ids, with ordinals 0, 1, 2 and so on. */
  ghost predicate Lists(rows: Rows, playlist: Id, ids: seq<Id>) {
    (forall k :: 0 <= k < |ids| ==> InPlaylist(rows, playlist, ids[k]) && rows[ids[k]].ordinal == k) &&
    (forall id :: InPlaylist(rows, playlist, id) ==>
       0 <= rows[id].ordinal < |ids| && ids[rows[id].ordinal] == id)
  }

  /** The sequence is determined by the rows, and has no repeats. */
  lemma ListIsUnique(rows: Rows, playlist: Id, ids: seq<Id>, others: seq<Id>)
    requires Lists(rows, playlist, ids) && Lists(rows, playlist, others)
    ensures ids == others && Distinct(ids)
  {
    ListIsLongest(rows, playlist, ids, others);
    ListIsLongest(rows, playlist, others, ids);
  }

  lemma ListIsLongest(rows: Rows, playlist: Id, ids: seq<Id>, others: seq<Id>)
    requires Lists(rows, playlist, ids) && Lists(rows, playlist, others)
    ensures |others| <= |ids|
  {
    if others != [] {
      assert InPlaylist(rows, playlist, others[|others| - 1]);
    }
  }

  ghost predicate Distinct(ids: seq<Id>) {
    forall i, j :: 0 <= i < j < |ids| ==> ids[i] != ids[j]
  }

  ghost predicate IsPermutation(order: seq<Id>, ids: seq<Id>) {
    Distinct(order) && forall id :: id in order <==> id in ids
  }

  /** The same content in the same playlist; only the position may differ. */
  predicate SameItem(before: Row, after: Row) {
    after.playlist == before.playlist && after.content == before.content
  }

  // ---- the statements ------------------------------------------------------------

  /** The greatest ordinal plus one, or zero for an empty playlist. */
  ghost predicate IsNextOrdinal(rows: Rows, playlist: Id, next: int) {
    if exists id :: InPlaylist(rows, playlist, id) then
      (exists id :: InPlaylist(rows, playlist, id) && rows[id].ordinal + 1 == next) &&
      (forall id :: InPlaylist(rows, playlist, id) ==> rows[id].ordinal < next)
    else next == 0
  }

  function Compacted(rows: Rows, playlist: Id, after: int): Rows {
    map id | id in rows ::
      if rows[id].playlist == playlist && rows[id].ordinal > after
      then rows[id].(ordinal := rows[id].ordinal - 1)
      else rows[id]
  }

  function Removed(rows: Rows, id: Id): Rows {
    if id in rows then Compacted(rows - {id}, rows[id].playlist, rows[id].ordinal) else rows
  }

  function Positioned(rows: Rows, playlist: Id, id: Id, ordinal: int): Rows {
    if InPlaylist(rows, playlist, id) then rows[id := rows[id].(ordinal := ordinal)] else rows
  }

  /** The first count ids of the order have been given their positions. */
  function Placed(rows: Rows, playlist: Id, order: seq<Id>, count: nat): Rows
    requires count <= |order|
  {
    if count == 0 then rows
    else Positioned(Placed(rows, playlist, order, count - 1), playlist, order[count - 1], count - 1)
  }

  function Reordered(rows: Rows, playlist: Id, order: seq<Id>): Rows {
    Placed(rows, playlist, order, |order|)
  }

  class Database {
    var playlists: set<Id>
    var rows: Rows

    constructor ()
      ensures playlists == {} && rows == map[]
    {
      playlists, rows := {}, map[];
    }

    /** SELECT COALESCE(MAX(ordinal) + 1, 0) over the playlist's rows. */
    method NextOrdinal(playlist: Id) returns (next: int)
      ensures IsNextOrdinal(rows, playlist, next)
    {
      next := 0;
      var rest, found := rows.Keys, false;
      while rest != {}
        invariant rest <= rows.Keys
        invariant forall id :: InPlaylist(rows, playlist, id) && id !in rest ==> found && rows[id].ordinal < next
        invariant found ==> exists id :: InPlaylist(rows, playlist, id) && rows[id].ordinal + 1 == next
        invariant !found ==> next == 0
        decreases |rest|
      {
        var id :| id in rest;
        rest := rest - {id};
        if rows[id].playlist == playlist && (!found || rows[id].ordinal >= next) {
          next, found := rows[id].ordinal + 1, true;
        }
      }
    }

    /** Adds a row at the end; rowId is the id the database picks.  An unknown playlist is refused. */
    method AddItem(playlist: Id, content: string, rowId: Id) returns (id: Option<Id>)
      requires rowId !in rows
      modifies this`rows
      ensures id == if playlist in playlists then Some(rowId) else None
      ensures id.None? ==> rows == old(rows)
      ensures id.Some? ==> Step(old(rows), Add(playlist, rowId, content), rows)
    {
      var ordinal := NextOrdinal(playlist);
      if playlist !in playlists {
        return None;
      }
      rows := rows[rowId := Row(playlist, ordinal, content)];
      id := Some(rowId);
    }

    method RemoveItem(id: Id) returns (ok: bool)
      modifies this`rows
      ensures ok <==> id in old(rows)
      ensures rows == Removed(old(rows), id)
      ensures forall p, ids :: Lists(old(rows), p, ids) ==> Lists(rows, p, Without(ids, id))
      ensures rows.Keys == old(rows).Keys - {id}
      ensures forall i :: i in rows ==>
        SameItem(old(rows)[i], rows[i]) && (!ok || rows[i].playlist != old(rows)[id].playlist ==> rows[i] == old(rows)[i])
    {
      if id !in rows {
        forall p, ids | Lists(rows, p, ids) ensures Lists(rows, p, Without(ids, id)) {
          RemoveLists(rows, id, p, ids);
        }
        return false;
      }
      var playlist, ordinal := rows[id].playlist, rows[id].ordinal;
      rows := rows - {id};
      rows := map i | i in rows ::
        if rows[i].playlist == playlist && rows[i].ordinal > ordinal
        then rows[i].(ordinal := rows[i].ordinal - 1)
        else rows[i];
      forall p, ids | Lists(old(rows), p, ids) ensures Lists(rows, p, Without(ids, id)) {
        RemoveLists(old(rows), id, p, ids);
      }
      ok := true;
    }

    /** Gives each listed item its position, in one transaction; statement number failsAt fails, if any. */
    method ReorderItems(playlist: Id, order: seq<Id>, failsAt: Option<nat>) returns (ok: bool)
      modifies this`rows
      ensures ok <==> failsAt.None? || failsAt.value >= |order|
      ensures rows == if ok then Reordered(old(rows), playlist, order) else old(rows)
      ensures forall p, ids :: Lists(old(rows), p, ids) ==>
        if !ok || p != playlist then Lists(rows, p, ids)
        else Lists(rows, p, order) <==> IsPermutation(order, ids)
      ensures rows.Keys == old(rows).Keys
      ensures forall i :: i in rows ==> SameItem(old(rows)[i], rows[i])
    {
      var snapshot, ordinal := rows, 0;
      while ordinal < |order|
        invariant ordinal <= |order| && (failsAt.Some? ==> ordinal <= failsAt.value)
        invariant rows == Placed(snapshot, playlist, order, ordinal)
      {
        if failsAt == Some(ordinal) {
          rows := snapshot;
          return false;
        }
        var id := order[ordinal];
        if id in rows && rows[id].playlist == playlist {
          rows := rows[id := rows[id].(ordinal := ordinal)];
        }
        ordinal := ordinal + 1;
      }
      ReorderLists(snapshot, playlist, order);
      ReorderKeepsItems(snapshot, playlist, order);
      ok := true;
    }
  }

  // ---- each statement on the sequence --------------------------------------------

  /** Adding appends; the other playlists keep their sequences. */
  lemma AddAppends(rows: Rows, playlist: Id, ids: seq<Id>, next: int, rowId: Id, content: string, other: Id, others: seq<Id>)
    requires rowId !in rows && Lists(rows, playlist, ids) && IsNextOrdinal(rows, playlist, next)
    requires other != playlist && Lists(rows, other, others)
    ensures Lists(rows[rowId := Row(playlist, next, content)], playlist, ids + [rowId])
    ensures Lists(rows[rowId := Row(playlist, next, content)], other, others)
  {
    NextIsLength(rows, playlist, ids, next);
    var after := rows[rowId := Row(playlist, next, content)];
    forall id | InPlaylist(after, other, id) ensures InPlaylist(rows, other, id) {
    }
  }

  lemma NextIsLength(rows: Rows, playlist: Id, ids: seq<Id>, next: int)
    requires Lists(rows, playlist, ids) && IsNextOrdinal(rows, playlist, next)
    ensures next == |ids|
  {
    if ids != [] {
      assert InPlaylist(rows, playlist, ids[|ids| - 1]);
    }
  }

  lemma RemoveOwn(rows: Rows, playlist: Id, ids: seq<Id>, position: nat)
    requires Lists(rows, playlist, ids) && position < |ids|
    ensures Lists(Removed(rows, ids[position]), playlist, ids[..position] + ids[position + 1..])
  {
    var id := ids[position];
    var after, left := Removed(rows, id), ids[..position] + ids[position + 1..];
    assert InPlaylist(rows, playlist, id);
    forall k | 0 <= k < |left| ensures InPlaylist(after, playlist, left[k]) && after[left[k]].ordinal == k {
      assert InPlaylist(rows, playlist, ids[if k < position then k else k + 1]);
    }
    forall i | InPlaylist(after, playlist, i)
      ensures 0 <= after[i].ordinal < |left| && left[after[i].ordinal] == i
    {
      assert InPlaylist(rows, playlist, i);
    }
  }

  lemma RemoveOther(rows: Rows, id: Id, playlist: Id, ids: seq<Id>)
    requires Lists(rows, playlist, ids) && !InPlaylist(rows, playlist, id)
    ensures Lists(Removed(rows, id), playlist, ids)
  {
    var after := Removed(rows, id);
    assert forall i :: InPlaylist(after, playlist, i) ==> InPlaylist(rows, playlist, i);
  }

  /** Removing deletes the item at its position; the other playlists keep their sequences. */
  lemma RemoveDeletes(rows: Rows, playlist: Id, ids: seq<Id>, position: nat, other: Id, others: seq<Id>)
    requires Lists(rows, playlist, ids) && position < |ids|
    requires other != playlist && Lists(rows, other, others)
    ensures Lists(Removed(rows, ids[position]), playlist, ids[..position] + ids[position + 1..])
    ensures Lists(Removed(rows, ids[position]), other, others)
  {
    assert InPlaylist(rows, playlist, ids[position]);
    RemoveOwn(rows, playlist, ids, position);
    RemoveOther(rows, ids[position], other, others);
  }

  /** The ids without one of them; the others keep their order. */
  function Without(ids: seq<Id>, id: Id): seq<Id> {
    if ids == [] then [] else if ids[0] == id then ids[1..] else [ids[0]] + Without(ids[1..], id)
  }

  lemma {:induction false} WithoutAt(ids: seq<Id>, position: nat)
    requires position < |ids| && Distinct(ids)
    ensures Without(ids, ids[position]) == ids[..position] + ids[position + 1..]
  {
    if position > 0 {
      WithoutAt(ids[1..], position - 1);
      assert ids[1..][position - 1] == ids[position];
      assert ids[..position] + ids[position + 1..] ==
             [ids[0]] + (ids[1..][..position - 1] + ids[1..][position..]);
    }
  }

  lemma {:induction false} WithoutAbsent(ids: seq<Id>, id: Id)
    requires id !in ids
    ensures Without(ids, id) == ids
  {
    if ids != [] {
      WithoutAbsent(ids[1..], id);
    }
  }

  /** Removing an item takes it out of whichever playlist has it and leaves every other list as it is. */
  lemma RemoveLists(rows: Rows, id: Id, playlist: Id, ids: seq<Id>)
    requires Lists(rows, playlist, ids)
    ensures Lists(Removed(rows, id), playlist, Without(ids, id))
  {
    ListIsUnique(rows, playlist, ids, ids);
    if InPlaylist(rows, playlist, id) {
      RemoveOwn(rows, playlist, ids, rows[id].ordinal);
      WithoutAt(ids, rows[id].ordinal);
    } else {
      WithoutAbsent(ids, id);
      RemoveOther(rows, id, playlist, ids);
    }
  }

  /** Placing only changes ordinals, and only in the playlist. */
  lemma {:induction false} PlacedKeeps(rows: Rows, playlist: Id, order: seq<Id>, count: nat, id: Id)
    requires count <= |order|
    ensures
      var after := Placed(rows, playlist, order, count);
      (id in after <==> id in rows) &&
      (id in rows ==>
         after[id].playlist == rows[id].playlist && after[id].content == rows[id].content &&
         (rows[id].playlist != playlist || id !in order[..count] ==> after[id] == rows[id]))
  {
    if count > 0 {
      PlacedKeeps(rows, playlist, order, count - 1, id);
      assert order[..count] == order[..count - 1] + [order[count - 1]];
    }
  }

  lemma ReorderKeepsItems(rows: Rows, playlist: Id, order: seq<Id>)
    ensures Reordered(rows, playlist, order).Keys == rows.Keys
    ensures forall i :: i in rows ==> SameItem(rows[i], Reordered(rows, playlist, order)[i])
  {
    forall i ensures i in Reordered(rows, playlist, order) <==> i in rows
             ensures i in rows ==> SameItem(rows[i], Reordered(rows, playlist, order)[i])
    {
      PlacedKeeps(rows, playlist, order, |order|, i);
    }
  }

  /** Without repeats, each listed item of the playlist is at its position. */
  lemma {:induction false} PlacedAt(rows: Rows, playlist: Id, order: seq<Id>, count: nat, k: nat)
    requires k < count <= |order| && Distinct(order) && InPlaylist(rows, playlist, order[k])
    ensures order[k] in Placed(rows, playlist, order, count)
    ensures Placed(rows, playlist, order, count)[order[k]].ordinal == k
  {
    PlacedKeeps(rows, playlist, order, count - 1, order[k]);
    if k < count - 1 {
      PlacedAt(rows, playlist, order, count - 1, k);
    }
  }

  /** Reordering gives the listed sequence exactly when it is a permutation of the current one. */
  lemma ReorderGivesPermutation(rows: Rows, playlist: Id, ids: seq<Id>, order: seq<Id>)
    requires Lists(rows, playlist, ids)
    ensures Lists(Reordered(rows, playlist, order), playlist, order) <==> IsPermutation(order, ids)
  {
    var after := Reordered(rows, playlist, order);
    forall id ensures InPlaylist(after, playlist, id) <==> InPlaylist(rows, playlist, id) {
      PlacedKeeps(rows, playlist, order, |order|, id);
    }
    assert forall id :: id in ids <==> InPlaylist(rows, playlist, id);
    if IsPermutation(order, ids) {
      forall k | 0 <= k < |order| ensures InPlaylist(after, playlist, order[k]) && after[order[k]].ordinal == k {
        assert order[k] in order;
        PlacedAt(rows, playlist, order, |order|, k);
      }
    } else if Lists(after, playlist, order) {
      ListIsUnique(after, playlist, order, order);
      assert forall id :: id in order <==> InPlaylist(after, playlist, id);
      assert false;
    }
  }

  lemma ReorderKeepsOthers(rows: Rows, playlist: Id, order: seq<Id>, other: Id, others: seq<Id>)
    requires other != playlist && Lists(rows, other, others)
    ensures Lists(Reordered(rows, playlist, order), other, others)
  {
    var after := Reordered(rows, playlist, order);
    forall id ensures InPlaylist(after, other, id) <==> InPlaylist(rows, other, id)
              ensures InPlaylist(rows, other, id) ==> after[id] == rows[id]
    {
      PlacedKeeps(rows, playlist, order, |order|, id);
    }
  }

  lemma ReorderLists(rows: Rows, playlist: Id, order: seq<Id>)
    ensures forall p, ids :: Lists(rows, p, ids) ==>
      if p != playlist then Lists(Reordered(rows, playlist, order), p, ids)
      else Lists(Reordered(rows, playlist, order), p, order) <==> IsPermutation(order, ids)
  {
    forall p, ids | Lists(rows, p, ids)
      ensures
        if p != playlist then Lists(Reordered(rows, playlist, order), p, ids)
        else Lists(Reordered(rows, playlist, order), p, order) <==> IsPermutation(order, ids)
    {
      if p == playlist {
        ReorderGivesPermutation(rows, playlist, ids, order);
      } else {
        ReorderKeepsOthers(rows, playlist, order, p, ids);
      }
    }
  }

  // ---- runs ------------------------------------------------------------------------

  datatype Command =
    | Add(playlist: Id, rowId: Id, content: string)
    | Remove(id: Id)
    | Reorder(playlist: Id, order: seq<Id>)

  /** What one command may do to the rows; a new row has a new id, and a reorder is a full one. */
  ghost predicate Step(before: Rows, command: Command, after: Rows) {
    match command
    case Add(playlist, rowId, content) =>
      rowId !in before &&
      exists next :: IsNextOrdinal(before, playlist, next) && after == before[rowId := Row(playlist, next, content)]
    case Remove(id) => after == Removed(before, id)
    case Reorder(playlist, order) =>
      (exists ids :: Lists(before, playlist, ids) && IsPermutation(order, ids)) &&
      after == Reordered(before, playlist, order)
  }

  type Sequences = map<Id, seq<Id>>

  function ItemsOf(s: Sequences, playlist: Id): seq<Id> {
    if playlist in s then s[playlist] else []
  }

  /** The same command on sequences. */
  function Apply(s: Sequences, command: Command): Sequences {
    match command
    case Add(playlist, rowId, _) => s[playlist := ItemsOf(s, playlist) + [rowId]]
    case Remove(id) => map p | p in s :: Without(s[p], id)
    case Reorder(playlist, order) => s[playlist := order]
  }

  ghost predicate Represents(rows: Rows, s: Sequences) {
    forall playlist :: Lists(rows, playlist, ItemsOf(s, playlist))
  }

  lemma StepRefines(before: Rows, command: Command, after: Rows, s: Sequences)
    requires Represents(before, s) && Step(before, command, after)
    ensures Represents(after, Apply(s, command))
  {
    forall p ensures Lists(after, p, ItemsOf(Apply(s, command), p)) {
      assert Lists(before, p, ItemsOf(s, p));
      match command
      case Add(playlist, rowId, content) => AddRefines(before, command, after, s, p);
      case Remove(id) => RemoveRefines(before, id, s, p);
      case Reorder(playlist, order) => ReorderRefines(before, command, after, s, p);
    }
  }

  lemma AddRefines(before: Rows, command: Command, after: Rows, s: Sequences, p: Id)
    requires Represents(before, s) && Step(before, command, after) && command.Add?
    ensures Lists(after, p, ItemsOf(Apply(s, command), p))
  {
    var playlist := command.playlist;
    var next :| IsNextOrdinal(before, playlist, next) &&
      after == before[command.rowId := Row(playlist, next, command.content)];
    var other := if p == playlist then playlist + 1 else p;
    AddAppends(before, playlist, ItemsOf(s, playlist), next, command.rowId, command.content, other, ItemsOf(s, other));
  }

  lemma ReorderRefines(before: Rows, command: Command, after: Rows, s: Sequences, p: Id)
    requires Represents(before, s) && Step(before, command, after) && command.Reorder?
    ensures Lists(after, p, ItemsOf(Apply(s, command), p))
  {
    var playlist, order := command.playlist, command.order;
    assert Lists(before, p, ItemsOf(s, p));
    if p == playlist {
      var ids :| Lists(before, playlist, ids) && IsPermutation(order, ids);
      ReorderGivesPermutation(before, playlist, ids, order);
    } else {
      ReorderKeepsOthers(before, playlist, order, p, ItemsOf(s, p));
    }
  }

  lemma RemoveRefines(before: Rows, id: Id, s: Sequences, p: Id)
    requires Represents(before, s)
    ensures Lists(Removed(before, id), p, ItemsOf(Apply(s, Remove(id)), p))
  {
    assert Lists(before, p, ItemsOf(s, p));
    RemoveLists(before, id, p, ItemsOf(s, p));
  }

  ghost predicate IsRun(states: seq<Rows>, commands: seq<Command>) {
    |states| == |commands| + 1 && states[0] == map[] &&
    forall i :: 0 <= i < |commands| ==> Step(states[i], commands[i], states[i + 1])
  }

  function ApplyAll(s: Sequences, commands: seq<Command>): Sequences {
    if commands == [] then s else Apply(ApplyAll(s, commands[..|commands| - 1]), commands[|commands| - 1])
  }

  /** After any run the rows represent exactly the sequences the same commands build. */
  lemma {:induction false} RunRefines(states: seq<Rows>, commands: seq<Command>)
    requires IsRun(states, commands)
    ensures Represents(states[|commands|], ApplyAll(map[], commands))
  {
    if commands != [] {
      var n := |commands| - 1;
      RunRefines(states[..n + 1], commands[..n]);
      StepRefines(states[n], commands[n], states[n + 1], ApplyAll(map[], commands[..n]));
    }
  }
}
