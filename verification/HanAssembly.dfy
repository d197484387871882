/**
  Staged assembly of the rare Han tiers.

  Tiers are installed one at a time over a baseline table.  Rows of later tiers
  are pulled forward so that no two ideographs that share a terminal key both
  before and after the whole migration are split in between.  `Close` says what
  one tier pulls; the lemmas say that this always suffices.
*/
module HanAssembly {
  import opened Wrappers
  import opened HanChains
  import opened Ordering

  type Pair = (Ideograph, Ideograph)

  datatype Reason = BaselinePair | Cycle

  // ---- joined pairs ----------------------------------------------------------

  ghost predicate Joined(rows: Table, a: Ideograph, b: Ideograph) {
    a < b && a in Universe(rows) && b in Universe(rows) &&
    Terminal(Targets(rows), a).Some? && Terminal(Targets(rows), a) == Terminal(Targets(rows), b)
  }

  ghost function Pairs(rows: Table): (pairs: set<Pair>)
    ensures forall a: Ideograph, b: Ideograph :: (a, b) in pairs <==> Joined(rows, a, b)
  {
    set a: Ideograph, b: Ideograph | a in Universe(rows) && b in Universe(rows) && Joined(rows, a, b) :: (a, b)
  }

  ghost function Cyclic(rows: Table): set<Ideograph> {
    set ch | ch in Universe(rows) && Terminal(Targets(rows), ch) == None
  }

  function Combinations(members: seq<Ideograph>): set<Pair> {
    set i, j | 0 <= i < j < |members| :: (members[i], members[j])
  }

  lemma CombinationsAre(members: seq<Ideograph>, a: Ideograph, b: Ideograph)
    requires Increasing(members)
    ensures (a, b) in Combinations(members) <==> a in members && b in members && a < b
  {
    if a in members && b in members && a < b {
      var i :| 0 <= i < |members| && members[i] == a;
      var j :| 0 <= j < |members| && members[j] == b;
      assert i < j;
      assert (members[i], members[j]) in Combinations(members);
    }
  }

  type Keys = map<Ideograph, Option<Ideograph>>

  type Groups = map<Ideograph, seq<Ideograph>>

  /** groups holds, in ascending order, the ideographs of seen under their terminal keys. */
  ghost predicate Grouped(keys: Keys, seen: set<Ideograph>, groups: Groups) {
    (forall key :: key in groups ==> Increasing(groups[key])) &&
    (forall key, ch :: key in groups && ch in groups[key] ==> ch in seen && ch in keys && keys[ch] == Some(key)) &&
    (forall ch :: ch in seen && ch in keys && keys[ch].Some? ==>
       keys[ch].value in groups && ch in groups[keys[ch].value])
  }

  function AddToGroup(groups: Groups, key: Ideograph, ch: Ideograph): Groups {
    groups[key := (if key in groups then groups[key] else []) + [ch]]
  }

  lemma GroupedAdd(keys: Keys, seen: set<Ideograph>, groups: Groups, ch: Ideograph)
    requires Grouped(keys, seen, groups)
    requires ch in keys && keys[ch].Some? && forall x :: x in seen ==> x < ch
    ensures Grouped(keys, seen + {ch}, AddToGroup(groups, keys[ch].value, ch))
  {
    var key := keys[ch].value;
    var members := if key in groups then groups[key] else [];
    var after := AddToGroup(groups, key, ch);
    assert after[key] == members + [ch];
    forall i | 0 <= i < |members| ensures members[i] < ch {
      assert key in groups && members[i] in groups[key];
      assert members[i] in seen;
    }
    assert Increasing(members + [ch]);
    forall x | x in seen && x in keys && keys[x].Some? ensures x in after[keys[x].value] {
      if keys[x].value == key {
        assert x in members;
      }
    }
  }

  /** Groups the resolved ideographs by terminal key, each group in ascending order. */
  method GroupByKey(keys: Keys) returns (groups: Groups)
    ensures Grouped(keys, keys.Keys, groups)
  {
    groups := map[];
    var items := Ascending(keys.Keys);
    ghost var seen: set<Ideograph> := {};
    for i := 0 to |items|
      invariant Grouped(keys, seen, groups)
      invariant seen <= keys.Keys && forall j :: 0 <= j < i ==> items[j] in seen
      invariant forall x, j :: x in seen && i <= j < |items| ==> x < items[j]
    {
      assert items[i] in items;
      groups := GroupOne(keys, seen, groups, items[i]);
      seen := seen + {items[i]};
    }
    assert forall x :: x in keys ==> x in items;
  }

  method GroupOne(keys: Keys, ghost seen: set<Ideograph>, groups: Groups, ch: Ideograph) returns (after: Groups)
    requires Grouped(keys, seen, groups) && ch in keys && forall x :: x in seen ==> x < ch
    ensures Grouped(keys, seen + {ch}, after)
  {
    after := groups;
    if keys[ch].Some? {
      GroupedAdd(keys, seen, groups, ch);
      after := AddToGroup(groups, keys[ch].value, ch);
    }
  }

  /** Some group among those of the keys holds both. */
  ghost predicate Grouping(groups: Groups, keys: set<Ideograph>, a: Ideograph, b: Ideograph) {
    a < b && exists key :: key in keys && key in groups && a in groups[key] && b in groups[key]
  }

  ghost predicate Combined(groups: Groups, keys: set<Ideograph>, pairs: set<Pair>) {
    forall a: Ideograph, b: Ideograph :: (a, b) in pairs <==> Grouping(groups, keys, a, b)
  }

  lemma CombinedMore(groups: Groups, keys: set<Ideograph>, pairs: set<Pair>, key: Ideograph)
    requires Combined(groups, keys, pairs) && key in groups && Increasing(groups[key])
    ensures Combined(groups, keys + {key}, pairs + Combinations(groups[key]))
  {
    forall a: Ideograph, b: Ideograph
      ensures (a, b) in pairs + Combinations(groups[key]) <==> Grouping(groups, keys + {key}, a, b)
    {
      CombinationsAre(groups[key], a, b);
      assert (a, b) in pairs <==> Grouping(groups, keys, a, b);
    }
  }

  /** The pairs within the groups, whatever order they are visited in. */
  method CombineGroups(groups: Groups) returns (pairs: set<Pair>)
    requires forall key :: key in groups ==> Increasing(groups[key])
    ensures Combined(groups, groups.Keys, pairs)
  {
    pairs := {};
    var open := groups.Keys;
    while open != {}
      invariant open <= groups.Keys && Combined(groups, groups.Keys - open, pairs)
      decreases open
    {
      var key :| key in open;
      CombinedMore(groups, groups.Keys - open, pairs, key);
      assert groups.Keys - (open - {key}) == (groups.Keys - open) + {key};
      pairs := pairs + Combinations(groups[key]);
      open := open - {key};
    }
    assert groups.Keys - open == groups.Keys;
  }

  lemma GroupedPairs(rows: Table, keys: Keys, groups: Groups, pairs: set<Pair>)
    requires keys.Keys == Universe(rows) && forall ch :: ch in keys ==> keys[ch] == Terminal(Targets(rows), ch)
    requires Grouped(keys, keys.Keys, groups) && Combined(groups, groups.Keys, pairs)
    ensures pairs == Pairs(rows)
  {
    forall a: Ideograph, b: Ideograph ensures (a, b) in pairs <==> (a, b) in Pairs(rows) {
      assert (a, b) in pairs <==> Grouping(groups, groups.Keys, a, b);
      if Joined(rows, a, b) {
        var key := keys[a].value;
        assert key in groups && a in groups[key] && b in groups[key];
      }
    }
    assert forall p: Pair :: p in pairs ==> p == (p.0, p.1);
    assert forall p: Pair :: p in Pairs(rows) ==> p == (p.0, p.1);
  }

  method JoinedPairs(rows: Table) returns (pairs: set<Pair>, cycles: seq<Ideograph>)
    ensures pairs == Pairs(rows)
    ensures cycles == Ascending(Cyclic(rows))
  {
    var keys := TerminalKeys(rows);
    var groups := GroupByKey(keys);
    pairs := CombineGroups(groups);
    GroupedPairs(rows, keys, groups, pairs);
    var none := set ch | ch in keys && keys[ch] == None;
    assert none == Cyclic(rows);
    cycles := Ascending(none);
  }

  // ---- pending rows ----------------------------------------------------------

  function TargetOf(rows: Table, ch: Ideograph): Option<Ideograph> {
    if ch in rows then rows[ch].target else None
  }

  function RowOf(rows: Table, ch: Ideograph): Option<Row> {
    if ch in rows then Some(rows[ch]) else None
  }

  /** Rows of later tiers whose target still differs from the final one. */
  function Pending(current: Table, final: Table, late: set<Ideograph>): set<Ideograph> {
    set ch | ch in late && TargetOf(current, ch) != TargetOf(final, ch)
  }

  lemma LeastStep(m: Mapping, stops: set<Ideograph>, c: Ideograph, n: nat) returns (k: nat)
    requires Follow(m, c, n) in stops
    ensures Follow(m, c, k) in stops && forall i: nat :: i < k ==> Follow(m, c, i) !in stops
  {
    k := 0;
    while Follow(m, c, k) !in stops
      invariant k <= n && forall i: nat :: i < k ==> Follow(m, c, i) !in stops
      decreases n - k
    {
      k := k + 1;
    }
  }

  /** n is the first position on the chain of c that holds a pending row. */
  ghost predicate StopsFirstAt(m: Mapping, pending: set<Ideograph>, c: Ideograph, n: nat) {
    Follow(m, c, n) in pending && forall i: nat :: i < n ==> Follow(m, c, i) !in pending
  }

  /** The first pending row on the chain of c, c itself included. */
  ghost function FirstPending(m: Mapping, pending: set<Ideograph>, c: Ideograph): Option<Ideograph> {
    if exists n: nat :: StopsFirstAt(m, pending, c, n) then
      var n: nat :| StopsFirstAt(m, pending, c, n);
      Some(Follow(m, c, n))
    else
      None
  }

  lemma FirstPendingAt(m: Mapping, pending: set<Ideograph>, c: Ideograph, n: nat)
    requires StopsFirstAt(m, pending, c, n)
    ensures FirstPending(m, pending, c) == Some(Follow(m, c, n))
  {
    var k: nat :| StopsFirstAt(m, pending, c, k) && FirstPending(m, pending, c) == Some(Follow(m, c, k));
    assert k == n;
  }

  /** No pending row on the chain of c. */
  ghost predicate CleanChain(m: Mapping, pending: set<Ideograph>, c: Ideograph) {
    forall n: nat :: Follow(m, c, n) !in pending
  }

  lemma FirstPendingNone(m: Mapping, pending: set<Ideograph>, c: Ideograph)
    ensures FirstPending(m, pending, c) == None <==> CleanChain(m, pending, c)
  {
    if n: nat :| Follow(m, c, n) in pending {
      var k := LeastStep(m, pending, c, n);
      assert StopsFirstAt(m, pending, c, k);
    }
  }

  /** path is the start of the chain of c, it leads on to ch, and none of it is pending. */
  ghost predicate Walked(m: Mapping, pending: set<Ideograph>, c: Ideograph, path: seq<Ideograph>, ch: Ideograph) {
    Chain(m, path, ch) && ch == Follow(m, c, |path|) &&
    (forall i :: 0 <= i < |path| ==> path[i] == Follow(m, c, i)) &&
    forall i: nat :: i < |path| ==> Follow(m, c, i) !in pending
  }

  lemma WalkOn(m: Mapping, pending: set<Ideograph>, c: Ideograph, path: seq<Ideograph>, ch: Ideograph)
    requires Walked(m, pending, c, path, ch) && ch in m && ch !in pending
    ensures Walked(m, pending, c, path + [ch], m[ch])
  {
    ChainExtend(m, path, ch);
    FollowAdd(m, c, |path|, 1);
    assert Follow(m, ch, 1) == m[ch];
  }

  lemma WalkEnds(m: Mapping, pending: set<Ideograph>, c: Ideograph, path: seq<Ideograph>, ch: Ideograph)
    requires Walked(m, pending, c, path, ch) && ch !in pending && (ch !in m || ch in path)
    ensures FirstPending(m, pending, c) == None
  {
    var loop := set x | x in path;
    forall x | x in loop && ch in path ensures m[x] in loop {
      var i :| 0 <= i < |path| && path[i] == x;
      assert path[i] in m && m[path[i]] == After(path, ch, i);
    }
    forall n: nat ensures Follow(m, c, n) !in pending {
      if n >= |path| {
        if ch in path {
          FollowAdd(m, c, |path|, n - |path|);
          FollowStaysIn(m, loop, ch, n - |path|);
        } else {
          FollowStops(m, c, |path|, n);
        }
      }
    }
    FirstPendingNone(m, pending, c);
  }

  /** The walk that looks for the pending row that breaks the chain of start. */
  method PendingTarget(current: Table, final: Table, late: set<Ideograph>, start: Ideograph)
    returns (r: Option<Ideograph>)
    ensures r == FirstPending(Targets(current), Pending(current, final, late), start)
  {
    ghost var m, pending := Targets(current), Pending(current, final, late);
    var visited := {};
    var ch := start;
    ghost var path: seq<Ideograph> := [];
    while ch !in visited
      invariant visited == (set x | x in path) && visited <= m.Keys
      invariant Walked(m, pending, start, path, ch)
      decreases m.Keys - visited
    {
      var target := TargetOf(current, ch);
      if ch in late && target != TargetOf(final, ch) {
        assert StopsFirstAt(m, pending, start, |path|);
        FirstPendingAt(m, pending, start, |path|);
        return Some(ch);
      }
      if target.None? {
        WalkEnds(m, pending, start, path, ch);
        return None;
      }
      WalkOn(m, pending, start, path, ch);
      assert ch in m.Keys - visited;
      visited := visited + {ch};
      path := path + [ch];
      ch := target.value;
    }
    assert ch !in pending by {
      var i :| 0 <= i < |path| && path[i] == ch;
      assert path[i] == Follow(m, start, i);
    }
    WalkEnds(m, pending, start, path, ch);
    r := None;
  }

  // ---- one tier --------------------------------------------------------------

  /** Pairs joined before and after the migration that the current table splits. */
  ghost function Missing(baseline: Table, final: Table, current: Table): set<Pair> {
    Pairs(baseline) * Pairs(final) - Pairs(current)
  }

  ghost predicate BreaksPair(baseline: Table, final: Table, current: Table, late: set<Ideograph>, ch: Ideograph) {
    exists p :: p in Missing(baseline, final, current) &&
      (FirstPending(Targets(current), Pending(current, final, late), p.0) == Some(ch) ||
       FirstPending(Targets(current), Pending(current, final, late), p.1) == Some(ch))
  }

  ghost function Why(baseline: Table, final: Table, current: Table, late: set<Ideograph>, ch: Ideograph): set<Reason> {
    (if BreaksPair(baseline, final, current, late, ch) then {BaselinePair} else {}) +
    (if ch in Cyclic(current) then {Cycle} else {})
  }

  /** The rows to pull forward next, with the reasons for each. */
  ghost function Needed(baseline: Table, final: Table, current: Table, late: set<Ideograph>)
    : map<Ideograph, set<Reason>>
  {
    map ch | ch in Pending(current, final, late) && Why(baseline, final, current, late, ch) != {}
      :: Why(baseline, final, current, late, ch)
  }

  function Install(current: Table, final: Table, rows: set<Ideograph>): Table
    requires rows <= final.Keys
  {
    current + map ch | ch in rows :: final[ch]
  }

  lemma InstallShrinksPending(current: Table, final: Table, late: set<Ideograph>, rows: set<Ideograph>)
    requires late <= final.Keys && rows <= Pending(current, final, late)
    ensures Pending(Install(current, final, rows), final, late) == Pending(current, final, late) - rows
  {
  }

  datatype Closure = Closure(table: Table, reasons: map<Ideograph, set<Reason>>)

  /** Pulls rows forward until none is needed. */
  ghost function Close(baseline: Table, final: Table, current: Table, late: set<Ideograph>): Closure
    requires late <= final.Keys
    decreases Pending(current, final, late)
  {
    var needed := Needed(baseline, final, current, late);
    if needed == map[] then
      Closure(current, map[])
    else
      InstallShrinksPending(current, final, late, needed.Keys);
      assert exists ch :: ch in needed.Keys;
      var rest := Close(baseline, final, Install(current, final, needed.Keys), late);
      Closure(rest.table, rest.reasons + needed)
  }

  /** The reasons name pending rows, and exactly those rows have become final. */
  ghost predicate Touches(final: Table, current: Table, late: set<Ideograph>, c: Closure) {
    c.reasons.Keys <= Pending(current, final, late) &&
    forall ch :: RowOf(c.table, ch) == RowOf(if ch in c.reasons then final else current, ch)
  }

  lemma TouchesBefore(final: Table, current: Table, late: set<Ideograph>, needed: map<Ideograph, set<Reason>>, rest: Closure)
    requires late <= final.Keys && needed.Keys <= Pending(current, final, late)
    requires Touches(final, Install(current, final, needed.Keys), late, rest)
    ensures Touches(final, current, late, Closure(rest.table, rest.reasons + needed))
  {
    InstallShrinksPending(current, final, late, needed.Keys);
    var whole := Closure(rest.table, rest.reasons + needed);
    forall ch ensures RowOf(whole.table, ch) == RowOf(if ch in whole.reasons then final else current, ch) {
      assert RowOf(rest.table, ch) ==
             RowOf(if ch in rest.reasons then final else Install(current, final, needed.Keys), ch);
    }
  }

  /** The rows one tier pulls were pending, end at their final rows, and are the only rows touched. */
  lemma {:induction false} CloseTouches(baseline: Table, final: Table, current: Table, late: set<Ideograph>)
    requires late <= final.Keys
    ensures var c := Close(baseline, final, current, late);
            Touches(final, current, late, c) && Needed(baseline, final, c.table, late) == map[]
    decreases Pending(current, final, late)
  {
    var needed := Needed(baseline, final, current, late);
    if needed == map[] {
      assert Touches(final, current, late, Closure(current, map[]));
    } else {
      InstallShrinksPending(current, final, late, needed.Keys);
      assert exists ch :: ch in needed.Keys;
      var next := Install(current, final, needed.Keys);
      CloseTouches(baseline, final, next, late);
      TouchesBefore(final, current, late, needed, Close(baseline, final, next, late));
    }
  }

  // ---- why the closure suffices ----------------------------------------------

  /** Every row outside the later tiers is final. */
  ghost predicate InstalledUpTo(final: Table, current: Table, late: set<Ideograph>) {
    late <= final.Keys && forall ch :: ch !in late ==> RowOf(current, ch) == RowOf(final, ch)
  }

  /** A chain without pending rows reads the same in the current and the final table. */
  lemma {:induction false} CleanFollow(final: Table, current: Table, late: set<Ideograph>, c: Ideograph, n: nat)
    requires InstalledUpTo(final, current, late)
    requires forall i: nat :: i < n ==> Follow(Targets(current), c, i) !in Pending(current, final, late)
    ensures Follow(Targets(current), c, n) == Follow(Targets(final), c, n)
    decreases n
  {
    if n > 0 {
      CleanFollow(final, current, late, c, n - 1);
      var x := Follow(Targets(current), c, n - 1);
      FollowAdd(Targets(current), c, n - 1, 1);
      FollowAdd(Targets(final), c, n - 1, 1);
      assert x !in Pending(current, final, late);
      assert RowOf(current, x) == RowOf(final, x) || x in late;
      assert TargetOf(current, x) == TargetOf(final, x);
      assert Follow(Targets(current), x, 1) == Follow(Targets(final), x, 1);
    }
  }

  lemma CleanTerminal(final: Table, current: Table, late: set<Ideograph>, c: Ideograph)
    requires InstalledUpTo(final, current, late)
    requires CleanChain(Targets(current), Pending(current, final, late), c)
    ensures Terminal(Targets(current), c) == Terminal(Targets(final), c)
    ensures TargetOf(current, c) == TargetOf(final, c)
  {
    var now, then_ := Targets(current), Targets(final);
    assert Follow(now, c, 0) !in Pending(current, final, late);
    assert RowOf(current, c) == RowOf(final, c) || c in late;
    forall n: nat ensures Follow(now, c, n) == Follow(then_, c, n) &&
                          (Follow(now, c, n) in now <==> Follow(now, c, n) in then_) {
      CleanFollow(final, current, late, c, n);
      var x := Follow(now, c, n);
      assert RowOf(current, x) == RowOf(final, x) || x in late;
      assert TargetOf(current, x) == TargetOf(final, x);
    }
    if n: nat :| Follow(now, c, n) !in now {
      TerminalAt(now, c, n);
      TerminalAt(then_, c, n);
    }
  }

  /** A mapped ideograph, or a target, is in the universe of the table. */
  lemma TerminalElsewhere(rows: Table, c: Ideograph)
    requires Terminal(Targets(rows), c) != Some(c)
    ensures c in Targets(rows) && c in Universe(rows)
    ensures Terminal(Targets(rows), c).Some? ==> Terminal(Targets(rows), c).value in Universe(rows)
  {
    var m := Targets(rows);
    if c !in m {
      TerminalAt(m, c, 0);
    }
    if Terminal(m, c).Some? {
      var n: nat :| Follow(m, c, n) !in m && Terminal(m, c) == Some(Follow(m, c, n));
      FollowStaysIn(m, {c} + m.Values, c, n);
    }
  }

  /** Every ideograph on a chain without a terminal key is itself reported as cyclic. */
  lemma {:induction false} CycleMember(current: Table, c: Ideograph, n: nat)
    requires c in Cyclic(current)
    ensures Follow(Targets(current), c, n) in Cyclic(current)
    decreases n
  {
    var m := Targets(current);
    TerminalElsewhere(current, c);
    if n > 0 {
      TerminalStep(m, c);
      TerminalElsewhere(current, m[c]);
      CycleMember(current, m[c], n - 1);
    }
  }

  /** Two ideographs whose chains are clean are joined now if they are joined in the end. */
  lemma CleanPair(final: Table, current: Table, late: set<Ideograph>, a: Ideograph, b: Ideograph)
    requires InstalledUpTo(final, current, late) && Joined(final, a, b)
    requires CleanChain(Targets(current), Pending(current, final, late), a)
    requires CleanChain(Targets(current), Pending(current, final, late), b)
    ensures Joined(current, a, b)
  {
    var m := Targets(current);
    CleanTerminal(final, current, late, a);
    CleanTerminal(final, current, late, b);
    if Terminal(m, a) == Some(a) {
      TerminalElsewhere(current, b);
    } else {
      TerminalElsewhere(current, a);
      if Terminal(m, b) != Some(b) {
        TerminalElsewhere(current, b);
      }
    }
  }

  /** A pending row on the chain of a split pair is needed. */
  lemma SplitNeedsRow(baseline: Table, final: Table, current: Table, late: set<Ideograph>, p: Pair, c: Ideograph)
    requires p in Missing(baseline, final, current) && (c == p.0 || c == p.1)
    requires !CleanChain(Targets(current), Pending(current, final, late), c)
    ensures Needed(baseline, final, current, late) != map[]
  {
    var m, pending := Targets(current), Pending(current, final, late);
    FirstPendingNone(m, pending, c);
    var ch := FirstPending(m, pending, c).value;
    assert BreaksPair(baseline, final, current, late, ch);
    assert BaselinePair in Why(baseline, final, current, late, ch);
    assert ch in Needed(baseline, final, current, late);
  }

  /** A pending row on a cycle is needed. */
  lemma CycleNeedsRow(baseline: Table, final: Table, current: Table, late: set<Ideograph>, c: Ideograph)
    requires c in Cyclic(current)
    requires !CleanChain(Targets(current), Pending(current, final, late), c)
    ensures Needed(baseline, final, current, late) != map[]
  {
    var n: nat :| Follow(Targets(current), c, n) in Pending(current, final, late);
    var ch := Follow(Targets(current), c, n);
    CycleMember(current, c, n);
    assert Cycle in Why(baseline, final, current, late, ch);
    assert ch in Needed(baseline, final, current, late);
  }

  /** When nothing more is needed, no retained pair is split and every cycle is a final one. */
  lemma NothingNeeded(baseline: Table, final: Table, current: Table, late: set<Ideograph>)
    requires InstalledUpTo(final, current, late)
    requires Needed(baseline, final, current, late) == map[]
    ensures Missing(baseline, final, current) == {}
    ensures Cyclic(current) <= Cyclic(final)
  {
    var m, pending := Targets(current), Pending(current, final, late);
    if p :| p in Missing(baseline, final, current) {
      if !CleanChain(m, pending, p.0) {
        SplitNeedsRow(baseline, final, current, late, p, p.0);
      } else if !CleanChain(m, pending, p.1) {
        SplitNeedsRow(baseline, final, current, late, p, p.1);
      } else {
        assert p == (p.0, p.1);
        CleanPair(final, current, late, p.0, p.1);
      }
    }
    forall c | c in Cyclic(current) ensures c in Cyclic(final) {
      if !CleanChain(m, pending, c) {
        CycleNeedsRow(baseline, final, current, late, c);
      }
      CleanTerminal(final, current, late, c);
      TerminalElsewhere(final, c);
    }
  }

  // ---- computing one tier ----------------------------------------------------

  type Reasons = map<Ideograph, set<Reason>>

  function ReasonsFor(reasons: Reasons, ch: Ideograph): set<Reason> {
    if ch in reasons then reasons[ch] else {}
  }

  function AddReason(reasons: Reasons, ch: Ideograph, why: set<Reason>): Reasons {
    reasons[ch := ReasonsFor(reasons, ch) + why]
  }

  /** ch is the first pending row on the chain of some pair of the set. */
  ghost predicate BreaksOneOf(m: Mapping, pending: set<Ideograph>, pairs: set<Pair>, ch: Ideograph) {
    exists p :: p in pairs && (FirstPending(m, pending, p.0) == Some(ch) || FirstPending(m, pending, p.1) == Some(ch))
  }

  method BreakingRows(current: Table, final: Table, late: set<Ideograph>, missing: set<Pair>)
    returns (needed: Reasons)
    ensures forall ch :: ch in needed <==>
              BreaksOneOf(Targets(current), Pending(current, final, late), missing, ch)
    ensures forall ch :: ch in needed ==> needed[ch] == {BaselinePair}
  {
    ghost var m, pending := Targets(current), Pending(current, final, late);
    needed := map[];
    var open := missing;
    while open != {}
      invariant open <= missing
      invariant forall ch :: ch in needed <==> BreaksOneOf(m, pending, missing - open, ch)
      invariant forall ch :: ch in needed ==> needed[ch] == {BaselinePair}
      decreases open
    {
      var p :| p in open;
      var first := PendingTarget(current, final, late, p.0);
      var second := PendingTarget(current, final, late, p.1);
      ghost var before := needed;
      if first.Some? {
        needed := AddReason(needed, first.value, {BaselinePair});
      }
      if second.Some? {
        needed := AddReason(needed, second.value, {BaselinePair});
      }
      forall ch ensures ch in needed <==> BreaksOneOf(m, pending, missing - (open - {p}), ch) {
        assert missing - (open - {p}) == (missing - open) + {p};
        assert ch in needed <==> ch in before || first == Some(ch) || second == Some(ch);
        if first == Some(ch) || second == Some(ch) {
          assert p in missing - (open - {p});
        }
        if ch in before {
          var q :| q in missing - open &&
            (FirstPending(m, pending, q.0) == Some(ch) || FirstPending(m, pending, q.1) == Some(ch));
          assert q in missing - (open - {p});
        }
      }
      open := open - {p};
    }
    assert missing - open == missing;
  }

  method MarkCycles(breaking: Reasons, cycles: seq<Ideograph>) returns (all: Reasons)
    ensures forall ch :: ch in all <==> ch in breaking || ch in cycles
    ensures forall ch :: ch in all ==>
              all[ch] == ReasonsFor(breaking, ch) + if ch in cycles then {Cycle} else {}
  {
    all := breaking;
    for i := 0 to |cycles|
      invariant forall ch :: ch in all <==> ch in breaking || ch in cycles[..i]
      invariant forall ch :: ch in all ==>
                  all[ch] == ReasonsFor(breaking, ch) + if ch in cycles[..i] then {Cycle} else {}
    {
      assert forall ch :: ch in cycles[..i + 1] <==> ch in cycles[..i] || ch == cycles[i];
      all := AddReason(all, cycles[i], {Cycle});
    }
    assert cycles[..|cycles|] == cycles;
  }

  method NeededRows(ghost baseline: Table, current: Table, final: Table, late: set<Ideograph>,
                    missing: set<Pair>, cycles: seq<Ideograph>)
    returns (needed: Reasons)
    requires missing == Missing(baseline, final, current) && cycles == Ascending(Cyclic(current))
    ensures needed == Needed(baseline, final, current, late)
  {
    var breaking := BreakingRows(current, final, late, missing);
    var all := MarkCycles(breaking, cycles);
    forall ch ensures ReasonsFor(all, ch) == Why(baseline, final, current, late, ch) &&
                      (ch in all <==> ReasonsFor(all, ch) != {}) {
      BothReasons(baseline, current, final, late, cycles, breaking, all, ch);
    }
    needed := FilterPending(all, current, final, late);
    NeededIs(baseline, final, current, late, all);
  }

  lemma BothReasons(baseline: Table, current: Table, final: Table, late: set<Ideograph>,
                    cycles: seq<Ideograph>, breaking: Reasons, all: Reasons, ch: Ideograph)
    requires cycles == Ascending(Cyclic(current))
    requires ch in breaking <==>
               BreaksOneOf(Targets(current), Pending(current, final, late), Missing(baseline, final, current), ch)
    requires ch in breaking ==> breaking[ch] == {BaselinePair}
    requires ch in all <==> ch in breaking || ch in cycles
    requires ch in all ==> all[ch] == ReasonsFor(breaking, ch) + if ch in cycles then {Cycle} else {}
    ensures ReasonsFor(all, ch) == Why(baseline, final, current, late, ch)
    ensures ch in all <==> ReasonsFor(all, ch) != {}
  {
    assert ch in breaking <==> BreaksPair(baseline, final, current, late, ch);
    assert ch in cycles <==> ch in Cyclic(current);
  }

  function FilterPending(all: Reasons, current: Table, final: Table, late: set<Ideograph>): Reasons {
    map ch | ch in all && ch in late && TargetOf(current, ch) != TargetOf(final, ch) :: all[ch]
  }

  lemma NeededIs(baseline: Table, final: Table, current: Table, late: set<Ideograph>, all: Reasons)
    requires forall ch :: ReasonsFor(all, ch) == Why(baseline, final, current, late, ch) &&
                          (ch in all <==> ReasonsFor(all, ch) != {})
    ensures FilterPending(all, current, final, late) == Needed(baseline, final, current, late)
  {
    var a, b := FilterPending(all, current, final, late), Needed(baseline, final, current, late);
    forall ch ensures ch in a <==> ch in b {
      assert ReasonsFor(all, ch) == Why(baseline, final, current, late, ch);
    }
    forall ch | ch in a ensures a[ch] == b[ch] {
      assert ReasonsFor(all, ch) == Why(baseline, final, current, late, ch);
    }
  }

  /** Reasons gathered so far, completed by what is still to be pulled. */
  ghost predicate Gathered(baseline: Table, final: Table, late: set<Ideograph>, whole: Closure,
                           current: Table, reasons: Reasons)
    requires late <= final.Keys
  {
    var rest := Close(baseline, final, current, late);
    reasons.Keys !! Pending(current, final, late) &&
    whole == Closure(rest.table, rest.reasons + reasons)
  }

  function MergeReasons(reasons: Reasons, needed: Reasons): Reasons {
    map ch | ch in reasons.Keys + needed.Keys :: ReasonsFor(reasons, ch) + ReasonsFor(needed, ch)
  }

  lemma CloseStep(baseline: Table, final: Table, current: Table, late: set<Ideograph>)
    requires late <= final.Keys && Needed(baseline, final, current, late) != map[]
    ensures var needed := Needed(baseline, final, current, late);
            var next := Install(current, final, needed.Keys);
            Pending(next, final, late) == Pending(current, final, late) - needed.Keys &&
            Pending(next, final, late) < Pending(current, final, late) &&
            Close(baseline, final, current, late) ==
              Closure(Close(baseline, final, next, late).table, Close(baseline, final, next, late).reasons + needed)
  {
    var needed := Needed(baseline, final, current, late);
    InstallShrinksPending(current, final, late, needed.Keys);
    var ch :| ch in needed.Keys;
    assert ch in Pending(current, final, late);
  }

  lemma MergeDisjoint(rest: Reasons, reasons: Reasons, needed: Reasons)
    requires reasons.Keys !! needed.Keys
    ensures rest + needed + reasons == rest + MergeReasons(reasons, needed)
  {
    var merged := MergeReasons(reasons, needed);
    forall ch | ch in merged ensures merged[ch] == (needed + reasons)[ch] {
      assert ReasonsFor(reasons, ch) + ReasonsFor(needed, ch) == (needed + reasons)[ch];
    }
    assert merged == needed + reasons;
    assert rest + needed + reasons == rest + (needed + reasons);
  }

  lemma GatherMore(baseline: Table, final: Table, late: set<Ideograph>, whole: Closure, current: Table, reasons: Reasons)
    requires late <= final.Keys && Gathered(baseline, final, late, whole, current, reasons)
    requires Needed(baseline, final, current, late) != map[]
    ensures var needed := Needed(baseline, final, current, late);
            Gathered(baseline, final, late, whole, Install(current, final, needed.Keys), MergeReasons(reasons, needed)) &&
            Pending(Install(current, final, needed.Keys), final, late) < Pending(current, final, late)
  {
    var needed := Needed(baseline, final, current, late);
    CloseStep(baseline, final, current, late);
    MergeDisjoint(Close(baseline, final, Install(current, final, needed.Keys), late).reasons, reasons, needed);
  }

  /** The state of a table, and the rows to pull next. */
  method Survey(ghost baseline: Table, current: Table, final: Table, late: set<Ideograph>,
                basePairs: set<Pair>, permanent: set<Pair>)
    returns (pairs: set<Pair>, cycles: seq<Ideograph>, missing: set<Pair>, needed: Reasons)
    requires basePairs == Pairs(baseline) && permanent == Pairs(baseline) - Pairs(final)
    ensures pairs == Pairs(current) && cycles == Ascending(Cyclic(current))
    ensures missing == Missing(baseline, final, current)
    ensures needed == Needed(baseline, final, current, late)
  {
    pairs, cycles := JoinedPairs(current);
    missing := basePairs - pairs - permanent;
    assert missing == Missing(baseline, final, current);
    needed := NeededRows(baseline, current, final, late, missing, cycles);
  }

  /** The fixpoint of one tier. */
  method CloseTier(baseline: Table, installed: Table, final: Table, late: set<Ideograph>,
                   basePairs: set<Pair>, permanent: set<Pair>)
    returns (current: Table, reasons: Reasons, pairs: set<Pair>, cycles: seq<Ideograph>, missing: set<Pair>)
    requires late <= final.Keys
    requires basePairs == Pairs(baseline) && permanent == Pairs(baseline) - Pairs(final)
    ensures Closure(current, reasons) == Close(baseline, final, installed, late)
    ensures pairs == Pairs(current) && cycles == Ascending(Cyclic(current))
    ensures missing == Missing(baseline, final, current)
  {
    ghost var whole := Close(baseline, final, installed, late);
    current, reasons := installed, map[];
    assert whole.reasons + reasons == whole.reasons;
    while true
      invariant Gathered(baseline, final, late, whole, current, reasons)
      decreases Pending(current, final, late)
    {
      var needed;
      pairs, cycles, missing, needed := Survey(baseline, current, final, late, basePairs, permanent);
      if needed == map[] {
        assert map[] + reasons == reasons;
        return;
      }
      GatherMore(baseline, final, late, whole, current, reasons);
      reasons := MergeReasons(reasons, needed);
      current := Install(current, final, needed.Keys);
    }
  }
}
