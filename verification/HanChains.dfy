/**
  Simplification chains of the Han tables.

  A mapping sends an ideograph to its simplified form.  Following it from an
  ideograph either stops at one that has no mapping, the terminal key, or runs
  into a cycle.  `Terminal` says this once, without an algorithm; the three
  resolvers of the tools are proved against it.
*/
module HanChains {
  import opened Ordering
  import opened Wrappers

  /** An ideograph by its code point, the order in which Python sorts characters. */
  type Ideograph = nat

  type Mapping = map<Ideograph, Ideograph>

  /** A table row: its readings and its simplified target, if it has one. */
  datatype Row = Row(readings: seq<string>, target: Option<Ideograph>)

  type Table = map<Ideograph, Row>

  function Targets(rows: Table): Mapping {
    map ch | ch in rows && rows[ch].target.Some? :: rows[ch].target.value
  }

  /** Every ideograph a table mentions, as a member or as a target. */
  function Universe(rows: Table): set<Ideograph> {
    rows.Keys + Targets(rows).Values
  }

  // ---- what a chain is -------------------------------------------------------

  /** The ideograph reached by following at most n mappings. */
  function Follow(m: Mapping, c: Ideograph, n: nat): Ideograph
    decreases n
  {
    if n == 0 || c !in m then c else Follow(m, m[c], n - 1)
  }

  /** The terminal key of c, or None when its chain never stops. */
  ghost function Terminal(m: Mapping, c: Ideograph): Option<Ideograph> {
    if exists n: nat :: Follow(m, c, n) !in m then
      var n: nat :| Follow(m, c, n) !in m;
      Some(Follow(m, c, n))
    else
      None
  }

  lemma {:induction false} FollowAdd(m: Mapping, c: Ideograph, a: nat, b: nat)
    ensures Follow(m, Follow(m, c, a), b) == Follow(m, c, a + b)
    decreases a
  {
    if a == 0 {
    } else if c in m {
      FollowAdd(m, m[c], a - 1, b);
    }
  }

  lemma FollowStops(m: Mapping, c: Ideograph, n: nat, k: nat)
    requires n <= k && Follow(m, c, n) !in m
    ensures Follow(m, c, k) == Follow(m, c, n)
  {
    FollowAdd(m, c, n, k - n);
  }

  lemma TerminalAt(m: Mapping, c: Ideograph, n: nat)
    requires Follow(m, c, n) !in m
    ensures Terminal(m, c) == Some(Follow(m, c, n))
  {
    var k: nat :| Follow(m, c, k) !in m && Terminal(m, c) == Some(Follow(m, c, k));
    if k <= n {
      FollowStops(m, c, k, n);
    } else {
      FollowStops(m, c, n, k);
    }
  }

  lemma TerminalStep(m: Mapping, c: Ideograph)
    requires c in m
    ensures Terminal(m, c) == Terminal(m, m[c])
  {
    if n: nat :| Follow(m, m[c], n) !in m {
      assert Follow(m, c, n + 1) == Follow(m, m[c], n);
      TerminalAt(m, c, n + 1);
      TerminalAt(m, m[c], n);
    } else if n: nat :| Follow(m, c, n) !in m {
      assert Follow(m, c, n) == Follow(m, m[c], n - 1);
    }
  }

  /** A terminal key is never itself mapped, and it is its own key. */
  lemma TerminalIsFinal(m: Mapping, c: Ideograph)
    requires Terminal(m, c).Some?
    ensures Terminal(m, c).value !in m
    ensures Terminal(m, Terminal(m, c).value) == Terminal(m, c)
  {
    var t := Terminal(m, c).value;
    assert Follow(m, t, 0) == t;
    TerminalAt(m, t, 0);
  }

  /** A set that every mapping stays inside is never left. */
  lemma {:induction false} FollowStaysIn(m: Mapping, s: set<Ideograph>, c: Ideograph, n: nat)
    requires c in s && forall x :: x in s && x in m ==> m[x] in s
    ensures Follow(m, c, n) in s
    decreases n
  {
    if n > 0 && c in m {
      FollowStaysIn(m, s, m[c], n - 1);
    }
  }

  lemma LoopHasNoTerminal(m: Mapping, s: set<Ideograph>, c: Ideograph)
    requires c in s && s <= m.Keys && forall x :: x in s ==> m[x] in s
    ensures Terminal(m, c) == None
  {
    forall n: nat ensures Follow(m, c, n) in m {
      FollowStaysIn(m, s, c, n);
    }
  }

  /** The ideograph after position i of a stretch of a chain that leads on to ch. */
  function After(path: seq<Ideograph>, ch: Ideograph, i: nat): Ideograph {
    if i + 1 < |path| then path[i + 1] else ch
  }

  /** path is a stretch of a chain that leads on to ch. */
  ghost predicate Chain(m: Mapping, path: seq<Ideograph>, ch: Ideograph) {
    forall i :: 0 <= i < |path| ==> path[i] in m && m[path[i]] == After(path, ch, i)
  }

  lemma ChainExtend(m: Mapping, path: seq<Ideograph>, ch: Ideograph)
    requires Chain(m, path, ch) && ch in m
    ensures Chain(m, path + [ch], m[ch])
  {
    var longer := path + [ch];
    forall i | 0 <= i < |longer| ensures longer[i] in m && m[longer[i]] == After(longer, m[ch], i) {
      if i < |path| {
        assert path[i] in m && m[path[i]] == After(path, ch, i);
      }
    }
  }

  lemma ChainCloses(m: Mapping, path: seq<Ideograph>, ch: Ideograph, i: nat)
    requires Chain(m, path, ch) && i < |path| && path[i] == ch
    ensures IsCycle(m, path[i..] + [ch])
  {
    var cycle := path[i..] + [ch];
    forall k | 0 <= k < |cycle| - 1 ensures cycle[k] in m && m[cycle[k]] == cycle[k + 1] {
      assert path[i + k] in m && m[path[i + k]] == After(path, ch, i + k);
    }
  }

  lemma {:induction false} ChainTerminal(m: Mapping, path: seq<Ideograph>, ch: Ideograph, i: nat)
    requires Chain(m, path, ch) && i < |path|
    ensures Terminal(m, path[i]) == Terminal(m, ch)
    decreases |path| - i
  {
    assert path[i] in m && m[path[i]] == After(path, ch, i);
    TerminalStep(m, path[i]);
    if i + 1 < |path| {
      ChainTerminal(m, path, ch, i + 1);
    }
  }

  lemma ChainRevisits(m: Mapping, path: seq<Ideograph>, ch: Ideograph)
    requires Chain(m, path, ch) && ch in path
    ensures Terminal(m, ch) == None
  {
    var s := set x | x in path;
    forall x | x in s ensures m[x] in s {
      var i :| 0 <= i < |path| && path[i] == x;
      assert m[path[i]] == After(path, ch, i);
    }
    LoopHasNoTerminal(m, s, ch);
  }

  /** cycle lists a real cycle: each member maps to the next and the last repeats the first. */
  ghost predicate IsCycle(m: Mapping, cycle: seq<Ideograph>) {
    |cycle| >= 2 && cycle[0] == cycle[|cycle| - 1] &&
    forall i :: 0 <= i < |cycle| - 1 ==> cycle[i] in m && m[cycle[i]] == cycle[i + 1]
  }

  lemma CycleHasNoTerminal(m: Mapping, cycle: seq<Ideograph>)
    requires IsCycle(m, cycle)
    ensures Terminal(m, cycle[0]) == None
  {
    var path := cycle[..|cycle| - 1];
    assert Chain(m, path, cycle[0]);
    assert path[0] == cycle[0];
    ChainRevisits(m, path, cycle[0]);
  }

  ghost predicate Distinct(s: seq<Ideograph>) {
    forall i, j :: 0 <= i < j < |s| ==> s[i] != s[j]
  }

  lemma {:induction false} DistinctBound(s: seq<Ideograph>, all: set<Ideograph>)
    requires Distinct(s) && forall x :: x in s ==> x in all
    ensures |s| <= |all|
    decreases |s|
  {
    if s != [] {
      var x := s[|s| - 1];
      DistinctBound(s[..|s| - 1], all - {x});
    }
  }

  /** A chain without a terminal key runs into a real cycle, and conversely. */
  lemma NoTerminalIffCycle(m: Mapping, c: Ideograph)
    ensures Terminal(m, c) == None <==>
            exists n: nat, cycle :: IsCycle(m, cycle) && cycle[0] == Follow(m, c, n)
  {
    if Terminal(m, c) == None {
      var n, cycle := FindCycle(m, c, [], c);
    } else if n: nat, cycle :| IsCycle(m, cycle) && cycle[0] == Follow(m, c, n) {
      CycleHasNoTerminal(m, cycle);
      var k: nat :| Follow(m, c, k) !in m;
      FollowStops(m, c, k, k + n);
      FollowAdd(m, c, n, k);
    }
  }

  lemma {:induction false} FindCycle(m: Mapping, c: Ideograph, path: seq<Ideograph>, ch: Ideograph)
    returns (n: nat, cycle: seq<Ideograph>)
    requires Terminal(m, c) == None
    requires Distinct(path) && Chain(m, path, ch) && ch == Follow(m, c, |path|)
    requires forall i :: 0 <= i < |path| ==> path[i] == Follow(m, c, i)
    ensures IsCycle(m, cycle) && cycle[0] == Follow(m, c, n)
    decreases |m| - |path|
  {
    DistinctBound(path, m.Keys);
    assert ch in m;
    if ch in path {
      n :| 0 <= n < |path| && path[n] == ch;
      cycle := path[n..] + [ch];
      ChainCloses(m, path, ch, n);
    } else {
      var longer := path + [ch];
      DistinctBound(longer, m.Keys);
      ChainExtend(m, path, ch);
      FollowAdd(m, c, |path|, 1);
      assert Follow(m, ch, 1) == m[ch];
      n, cycle := FindCycle(m, c, longer, m[ch]);
    }
  }

  // ---- the resolvers ---------------------------------------------------------

  /** What the memo holds: terminal keys, for ideographs of the table only. */
  ghost predicate Memo(rows: Table, keys: map<Ideograph, Option<Ideograph>>) {
    keys.Keys <= Universe(rows) &&
    forall ch :: ch in keys ==> keys[ch] == Terminal(Targets(rows), ch)
  }

  lemma MemoAdd(rows: Table, keys: map<Ideograph, Option<Ideograph>>, ch: Ideograph)
    requires Memo(rows, keys) && ch in Universe(rows)
    ensures Memo(rows, keys[ch := Terminal(Targets(rows), ch)])
  {
  }

  /** One walk of `TerminalKeys`, up to a memoised key, a revisit or the end of the chain. */
  method WalkToKnown(rows: Table, keys: map<Ideograph, Option<Ideograph>>, start: Ideograph)
    returns (path: seq<Ideograph>, end: Option<Ideograph>)
    requires Memo(rows, keys)
    ensures end == Terminal(Targets(rows), start)
    ensures forall x :: x in path ==> x in Universe(rows) && Terminal(Targets(rows), x) == end
  {
    var mapping := Targets(rows);
    var visited := {};
    path := [];
    var ch := start;
    while ch !in keys && ch !in visited && ch in mapping
      invariant Chain(mapping, path, ch) && (if path == [] then ch == start else path[0] == start)
      invariant visited == (set x | x in path) && visited <= mapping.Keys
      decreases mapping.Keys - visited
    {
      ChainExtend(mapping, path, ch);
      visited := visited + {ch};
      path := path + [ch];
      ch := mapping[ch];
    }
    end := if ch in keys then keys[ch] else if ch in visited then None else Some(ch);
    if ch !in keys {
      if ch in visited {
        ChainRevisits(mapping, path, ch);
      } else {
        TerminalAt(mapping, ch, 0);
      }
    }
    forall i | 0 <= i < |path| ensures Terminal(mapping, path[i]) == end {
      ChainTerminal(mapping, path, ch, i);
    }
  }

  /** Memoised resolution of a whole table. */
  method TerminalKeys(rows: Table) returns (keys: map<Ideograph, Option<Ideograph>>)
    ensures keys.Keys == Universe(rows)
    ensures forall ch :: ch in keys ==> keys[ch] == Terminal(Targets(rows), ch)
  {
    keys := map[];
    var starts := Ascending(Universe(rows));
    for s := 0 to |starts|
      invariant Memo(rows, keys)
      invariant forall i :: 0 <= i < s ==> starts[i] in keys
    {
      var path, end := WalkToKnown(rows, keys, starts[s]);
      assert starts[s] in starts;
      MemoAdd(rows, keys, starts[s]);
      keys := keys[starts[s] := end];
      for p := 0 to |path|
        invariant Memo(rows, keys)
        invariant forall i :: 0 <= i <= s ==> starts[i] in keys
      {
        assert path[p] in path;
        MemoAdd(rows, keys, path[p]);
        keys := keys[path[p] := end];
      }
    }
    forall x | x in Universe(rows) ensures x in keys {
      assert x in starts;
    }
  }

  /** What `resolve_simplification_chains` has resolved so far. */
  ghost predicate Resolved(m: Mapping, resolved: Mapping) {
    resolved.Keys <= m.Keys && forall ch :: ch in resolved ==> Some(resolved[ch]) == Terminal(m, ch)
  }

  /** One walk of `ResolveSimplificationChains`: the path and its terminal, or the cycle it closes. */
  method WalkToTerminal(mappings: Mapping, resolved: Mapping, source: Ideograph)
    returns (path: seq<Ideograph>, r: Result<Ideograph, seq<Ideograph>>)
    requires Resolved(mappings, resolved) && source in mappings && source !in resolved
    ensures r.Ok? ==> source in path
    ensures r.Ok? ==> forall x :: x in path ==> x in mappings && Terminal(mappings, x) == Some(r.value)
    ensures r.Err? ==> IsCycle(mappings, r.error)
  {
    path := [];
    var positions: map<Ideograph, nat> := map[];
    var current := source;
    while current in mappings && current !in resolved
      invariant Chain(mappings, path, current)
      invariant if path == [] then current == source else path[0] == source
      invariant forall x :: x in path ==> x in positions
      invariant forall x :: x in positions ==> positions[x] < |path| && path[positions[x]] == x
      invariant positions.Keys <= mappings.Keys
      decreases mappings.Keys - positions.Keys
    {
      if current in positions {
        var cycle := path[positions[current]..] + [current];
        ChainCloses(mappings, path, current, positions[current]);
        return path, Err(cycle);
      }
      ChainExtend(mappings, path, current);
      assert current in mappings.Keys - positions.Keys;
      positions := positions[current := |path|];
      assert current !in mappings.Keys - positions.Keys;
      path := path + [current];
      current := mappings[current];
    }
    var terminal := if current in resolved then resolved[current] else current;
    if current !in resolved {
      TerminalAt(mappings, current, 0);
    }
    forall i | 0 <= i < |path| ensures Terminal(mappings, path[i]) == Some(terminal) {
      ChainTerminal(mappings, path, current, i);
    }
    r := Ok(terminal);
  }

  /**
    Resolution that refuses cycles.  `order` is the insertion order of the
    dictionary; the result does not depend on it.
  */
  method ResolveSimplificationChains(mappings: Mapping, order: seq<Ideograph>)
    returns (r: Result<Mapping, seq<Ideograph>>)
    requires forall ch :: ch in order <==> ch in mappings
    ensures r.Ok? <==> forall ch :: ch in mappings ==> Terminal(mappings, ch).Some?
    ensures r.Ok? ==> r.value.Keys == mappings.Keys
    ensures r.Ok? ==> forall ch :: ch in mappings ==> Some(r.value[ch]) == Terminal(mappings, ch)
    ensures r.Err? ==> IsCycle(mappings, r.error)
  {
    var resolved: Mapping := map[];
    for s := 0 to |order|
      invariant Resolved(mappings, resolved)
      invariant forall i :: 0 <= i < s ==> order[i] in resolved
    {
      if order[s] in resolved {
        continue;
      }
      var path, terminal := WalkToTerminal(mappings, resolved, order[s]);
      if terminal.Err? {
        CycleHasNoTerminal(mappings, terminal.error);
        return Err(terminal.error);
      }
      ghost var before := resolved;
      var p := |path|;
      while p > 0
        invariant 0 <= p <= |path|
        invariant Resolved(mappings, resolved) && before.Keys <= resolved.Keys
        invariant forall i :: p <= i < |path| ==> path[i] in resolved
      {
        p := p - 1;
        resolved := resolved[path[p] := terminal.value];
      }
    }
    forall ch | ch in mappings ensures ch in resolved {
      assert ch in order;
    }
    r := Ok(resolved);
  }

  /** The walk of the word check, which stops on the first repeated ideograph. */
  method TerminalSimplified(start: Ideograph, mappings: Mapping) returns (ch: Ideograph)
    ensures Terminal(mappings, start).Some? ==> Some(ch) == Terminal(mappings, start)
    ensures Terminal(mappings, start).None? ==>
              exists cycle :: IsCycle(mappings, cycle) && cycle[0] == ch
  {
    ghost var path: seq<Ideograph> := [];
    var seen: set<Ideograph> := {};
    ch := start;
    while ch in mappings && ch !in seen
      invariant Chain(mappings, path, ch) && (path == [] ==> ch == start)
      invariant path != [] ==> path[0] == start
      invariant seen == (set x | x in path) && seen <= mappings.Keys
      decreases mappings.Keys - seen
    {
      ChainExtend(mappings, path, ch);
      seen := seen + {ch};
      path := path + [ch];
      ch := mappings[ch];
    }
    if path != [] {
      ChainTerminal(mappings, path, ch, 0);
    }
    if ch in mappings {
      ghost var i :| 0 <= i < |path| && path[i] == ch;
      ChainCloses(mappings, path, ch, i);
      ChainRevisits(mappings, path, ch);
    } else {
      TerminalAt(mappings, ch, 0);
    }
  }

  // ---- word keys -------------------------------------------------------------

  /** The key under which the generator stores a word: one lookup per ideograph. */
  function WordKey(resolved: Mapping, word: seq<Ideograph>): seq<Ideograph> {
    seq(|word|, i requires 0 <= i < |word| => if word[i] in resolved then resolved[word[i]] else word[i])
  }

  /** The key the word check computes: the whole chain of each ideograph. */
  method CheckedWordKey(word: seq<Ideograph>, mappings: Mapping) returns (key: seq<Ideograph>)
    ensures |key| == |word|
    ensures forall i :: 0 <= i < |word| && Terminal(mappings, word[i]).Some? ==>
              Some(key[i]) == Terminal(mappings, word[i])
  {
    key := [];
    for i := 0 to |word|
      invariant |key| == i
      invariant forall k :: 0 <= k < i && Terminal(mappings, word[k]).Some? ==>
                  Some(key[k]) == Terminal(mappings, word[k])
    {
      var ch := TerminalSimplified(word[i], mappings);
      key := key + [ch];
    }
  }

  /**
    The generator and the word check agree on every word: resolving the table first
    and looking each ideograph up once is the same as walking every chain.
  */
  method WordKeysAgree(word: seq<Ideograph>, mappings: Mapping, order: seq<Ideograph>)
    returns (generated: Option<seq<Ideograph>>, checked: seq<Ideograph>)
    requires forall ch :: ch in order <==> ch in mappings
    ensures generated.Some? <==> forall ch :: ch in mappings ==> Terminal(mappings, ch).Some?
    ensures generated.Some? ==> generated.value == checked
  {
    var r := ResolveSimplificationChains(mappings, order);
    checked := CheckedWordKey(word, mappings);
    generated := None;
    if r.Ok? {
      generated := Some(WordKey(r.value, word));
      forall i | 0 <= i < |word| ensures WordKey(r.value, word)[i] == checked[i] {
        if word[i] !in mappings {
          TerminalAt(mappings, word[i], 0);
        }
      }
    }
  }
}
