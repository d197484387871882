/**
  The whole migration, tier by tier: no retained pair is ever split, cycles are
  final ones, no row is pulled twice, and the last table is the final one.
*/
module HanMigration {
  import opened Wrappers
  import opened Ordering
  import opened HanChains
  import opened HanAssembly
  import opened HanRounds

  // ---- all tiers -------------------------------------------------------------

  function Members(tiers: seq<Table>): set<Ideograph> {
    if tiers == [] then {} else tiers[0].Keys + Members(tiers[1..])
  }

  ghost predicate Disjoint(tiers: seq<Table>) {
    forall i, j :: 0 <= i < j < |tiers| ==> tiers[i].Keys !! tiers[j].Keys
  }

  /** The baseline with every tier installed. */
  function Final(baseline: Table, tiers: seq<Table>): (final: Table)
    ensures final.Keys == baseline.Keys + Members(tiers)
    decreases |tiers|
  {
    if tiers == [] then baseline else Final(baseline + tiers[0], tiers[1..])
  }

  lemma {:induction false} MembersAt(tiers: seq<Table>, i: nat)
    requires i < |tiers|
    ensures Members(tiers[i..]) == tiers[i].Keys + Members(tiers[i + 1..])
    ensures Members(tiers[i..]) <= Members(tiers)
    decreases i
  {
    assert tiers[i..][0] == tiers[i] && tiers[i..][1..] == tiers[i + 1..];
    if i == 0 {
      assert tiers[0..] == tiers;
    } else {
      MembersAt(tiers, i - 1);
    }
  }

  lemma {:induction false} MembersApart(tiers: seq<Table>, i: nat, j: nat)
    requires Disjoint(tiers) && i < j <= |tiers|
    ensures tiers[i].Keys !! Members(tiers[j..])
    decreases |tiers| - j
  {
    if j < |tiers| {
      MembersAt(tiers, j);
      MembersApart(tiers, i, j + 1);
    }
  }

  /** A tier's rows are final, and a row no tier holds is the baseline's. */
  lemma {:induction false} FinalRow(baseline: Table, tiers: seq<Table>, ch: Ideograph)
    requires Disjoint(tiers)
    ensures ch !in Members(tiers) ==> RowOf(Final(baseline, tiers), ch) == RowOf(baseline, ch)
    ensures forall i :: 0 <= i < |tiers| && ch in tiers[i] ==>
              RowOf(Final(baseline, tiers), ch) == RowOf(tiers[i], ch)
    decreases |tiers|
  {
    if tiers != [] {
      var rest := tiers[1..];
      FinalRow(baseline + tiers[0], rest, ch);
      MembersApart(tiers, 0, 1);
      forall i | 0 <= i < |tiers| && ch in tiers[i]
        ensures RowOf(Final(baseline, tiers), ch) == RowOf(tiers[i], ch)
      {
        if i > 0 {
          assert rest[i - 1] == tiers[i];
        }
      }
    }
  }

  /** The table a tier starts from: the previous state with the tier's own rows installed. */
  ghost function Installed(baseline: Table, tiers: seq<Table>, states: seq<Closure>, i: nat): Table
    requires i < |tiers| == |states|
  {
    (if i == 0 then baseline else states[i - 1].table) + tiers[i]
  }

  /** State i is what closing tier i produces. */
  ghost predicate Stage(baseline: Table, tiers: seq<Table>, states: seq<Closure>, i: nat)
    requires i < |tiers| == |states|
  {
    LateRows(tiers, i);
    states[i] == Close(baseline, Final(baseline, tiers), Installed(baseline, tiers, states, i), Members(tiers[i + 1..]))
  }

  /** The whole run: the table and the pulled rows after each tier. */
  ghost predicate Staged(baseline: Table, tiers: seq<Table>, states: seq<Closure>) {
    |states| == |tiers| && forall i :: 0 <= i < |tiers| ==> Stage(baseline, tiers, states, i)
  }

  lemma LateRows(tiers: seq<Table>, i: nat)
    requires i < |tiers|
    ensures Members(tiers[i + 1..]) <= Members(tiers)
  {
    MembersAt(tiers, i);
  }

  /** What tier i changes, and that it stops only when nothing more is needed. */
  lemma TierTouches(baseline: Table, tiers: seq<Table>, states: seq<Closure>, i: nat)
    requires Staged(baseline, tiers, states) && i < |tiers|
    ensures var late := Members(tiers[i + 1..]);
            states[i].reasons.Keys <= Pending(Installed(baseline, tiers, states, i), Final(baseline, tiers), late) &&
            Needed(baseline, Final(baseline, tiers), states[i].table, late) == map[]
    ensures forall ch :: RowOf(states[i].table, ch) ==
              RowOf(if ch in states[i].reasons then Final(baseline, tiers) else Installed(baseline, tiers, states, i), ch)
  {
    assert Stage(baseline, tiers, states, i);
    LateRows(tiers, i);
    CloseTouches(baseline, Final(baseline, tiers), Installed(baseline, tiers, states, i), Members(tiers[i + 1..]));
  }

  /** Rows outside later tiers are final; a later row is either the baseline's or already final. */
  lemma {:induction false} TierRows(baseline: Table, tiers: seq<Table>, states: seq<Closure>, i: nat)
    requires Disjoint(tiers) && Staged(baseline, tiers, states) && i < |tiers|
    ensures InstalledUpTo(Final(baseline, tiers), states[i].table, Members(tiers[i + 1..]))
    ensures forall ch :: RowOf(states[i].table, ch) == RowOf(baseline, ch) ||
                         RowOf(states[i].table, ch) == RowOf(Final(baseline, tiers), ch)
    decreases i
  {
    var final, late := Final(baseline, tiers), Members(tiers[i + 1..]);
    var start := Installed(baseline, tiers, states, i);
    if i > 0 {
      TierRows(baseline, tiers, states, i - 1);
    }
    MembersAt(tiers, i);
    MembersAt(tiers, 0);
    forall ch
      ensures ch !in late ==> RowOf(start, ch) == RowOf(final, ch)
      ensures RowOf(start, ch) == RowOf(baseline, ch) || RowOf(start, ch) == RowOf(final, ch)
    {
      FinalRow(baseline, tiers, ch);
      assert i == 0 ==> tiers[0..] == tiers;
    }
    TierTouches(baseline, tiers, states, i);
    LateRows(tiers, i);
  }

  /**
    The migration never splits a retained pair: at every tier, whatever the
    baseline and the proposals, a pair joined before and after is joined, so the
    remaining splits are permanent ones, and every cycle is a cycle of the final table.
  */
  lemma RetainedPairsStayJoined(baseline: Table, tiers: seq<Table>, states: seq<Closure>, i: nat)
    requires Disjoint(tiers) && Staged(baseline, tiers, states) && i < |tiers|
    ensures Pairs(baseline) * Pairs(Final(baseline, tiers)) <= Pairs(states[i].table)
    ensures Pairs(baseline) - Pairs(states[i].table) <= Pairs(baseline) - Pairs(Final(baseline, tiers))
    ensures Cyclic(states[i].table) <= Cyclic(Final(baseline, tiers))
  {
    var final, late, now := Final(baseline, tiers), Members(tiers[i + 1..]), states[i].table;
    TierRows(baseline, tiers, states, i);
    TierTouches(baseline, tiers, states, i);
    NothingNeeded(baseline, final, now, late);
    forall p | p in Pairs(baseline) * Pairs(final) ensures p in Pairs(now) {
      assert p !in Missing(baseline, final, now);
    }
  }

  lemma AcyclicFinalGivesAcyclicTiers(baseline: Table, tiers: seq<Table>, states: seq<Closure>, i: nat)
    requires Disjoint(tiers) && Staged(baseline, tiers, states) && i < |tiers|
    requires Cyclic(Final(baseline, tiers)) == {}
    ensures Cyclic(states[i].table) == {}
  {
    RetainedPairsStayJoined(baseline, tiers, states, i);
  }

  /** After the last tier the table is the final one, readings included. */
  lemma LastTierIsFinal(baseline: Table, tiers: seq<Table>, states: seq<Closure>)
    requires Disjoint(tiers) && Staged(baseline, tiers, states) && tiers != []
    ensures states[|tiers| - 1].table == Final(baseline, tiers)
  {
    var now, final := states[|tiers| - 1].table, Final(baseline, tiers);
    TierRows(baseline, tiers, states, |tiers| - 1);
    forall ch ensures RowOf(now, ch) == RowOf(final, ch) {
      assert ch !in Members(tiers[|tiers|..]);
    }
    forall ch ensures (ch in now <==> ch in final) && (ch in now ==> now[ch] == final[ch]) {
      assert RowOf(now, ch) == RowOf(final, ch);
    }
  }

  /** Once a row is final it stays final, when later tiers are installed and when they close. */
  lemma {:induction false} FinalStays(baseline: Table, tiers: seq<Table>, states: seq<Closure>, i: nat, j: nat, ch: Ideograph)
    requires Disjoint(tiers) && Staged(baseline, tiers, states) && i < j < |tiers|
    requires RowOf(states[i].table, ch) == RowOf(Final(baseline, tiers), ch)
    ensures RowOf(Installed(baseline, tiers, states, j), ch) == RowOf(Final(baseline, tiers), ch)
    ensures RowOf(states[j].table, ch) == RowOf(Final(baseline, tiers), ch)
    decreases j
  {
    if i < j - 1 {
      FinalStays(baseline, tiers, states, i, j - 1, ch);
    }
    FinalRow(baseline, tiers, ch);
    TierTouches(baseline, tiers, states, j);
  }

  /** No row is pulled forward by two tiers. */
  lemma PulledOnce(baseline: Table, tiers: seq<Table>, states: seq<Closure>, i: nat, j: nat)
    requires Disjoint(tiers) && Staged(baseline, tiers, states) && i < j < |tiers|
    ensures states[i].reasons.Keys !! states[j].reasons.Keys
  {
    if ch :| ch in states[i].reasons && ch in states[j].reasons {
      TierTouches(baseline, tiers, states, i);
      FinalStays(baseline, tiers, states, i, j, ch);
      TierTouches(baseline, tiers, states, j);
    }
  }

  // ---- the whole migration ---------------------------------------------------

  const RARE_TIERS: seq<string> := ["tgh", "big5-2", "core", "uro", "exta", "extb", "extc", "cns"]

  datatype AssemblyError = UnknownTier | DuplicateMember(ch: Ideograph)

  datatype Pull = Pull(home: string, ch: Ideograph, row: Row, why: set<Reason>)

  datatype TierStep = TierStep(tier: string, pulls: seq<Pull>, remaining: set<Pair>, unexpected: set<Pair>,
                               cycles: seq<Ideograph>)

  datatype Report = Report(baselineCycles: seq<Ideograph>, finalCycles: seq<Ideograph>, permanent: set<Pair>,
                           steps: seq<TierStep>)

  ghost predicate DistinctNames(names: seq<string>) {
    forall i, j :: 0 <= i < j < |names| ==> names[i] != names[j]
  }

  /** The names come one after the other in the given order. */
  ghost predicate InOrderOf(names: seq<string>, order: seq<string>) {
    forall i, j :: 0 <= i < j < |order| ==>
      exists a, b :: 0 <= a < b < |names| && names[a] == order[i] && names[b] == order[j]
  }

  lemma {:induction false} TierOrderIsInOrder(names: seq<string>, proposals: map<string, Table>)
    ensures InOrderOf(names, TierOrder(names, proposals))
  {
    if names != [] {
      var order, rest := TierOrder(names, proposals), TierOrder(names[1..], proposals);
      TierOrderIsInOrder(names[1..], proposals);
      var skip := if names[0] in proposals then 1 else 0;
      forall i, j | 0 <= i < j < |order|
        ensures exists a, b :: 0 <= a < b < |names| && names[a] == order[i] && names[b] == order[j]
      {
        assert order[j] == rest[j - skip];
        if i < skip {
          assert rest[j - skip] in rest;
          var b :| 0 <= b < |names[1..]| && names[1..][b] == rest[j - skip];
          assert names[b + 1] == order[j] && names[0] == order[i];
        } else {
          assert order[i] == rest[i - skip];
          var a, b :| 0 <= a < b < |names[1..]| && names[1..][a] == rest[i - skip] && names[1..][b] == rest[j - skip];
          assert names[a + 1] == order[i] && names[b + 1] == order[j];
        }
      }
    }
  }

  /** The proposed tiers in the order of names. */
  function TierOrder(names: seq<string>, proposals: map<string, Table>): (order: seq<string>)
    ensures forall t :: t in order <==> t in names && t in proposals
    ensures DistinctNames(names) ==> DistinctNames(order)
  {
    if names == [] then [] else
      var rest := TierOrder(names[1..], proposals);
      assert forall t :: t in names <==> t == names[0] || t in names[1..];
      assert DistinctNames(names) ==> names[0] !in names[1..];
      if names[0] in proposals then
        assert forall i :: 0 <= i < |rest| ==> rest[i] in rest;
        [names[0]] + rest
      else rest
  }

  function TierTables(order: seq<string>, proposals: map<string, Table>): (tiers: seq<Table>)
    requires forall t :: t in order ==> t in proposals
    ensures |tiers| == |order| && forall i :: 0 <= i < |order| ==> tiers[i] == proposals[order[i]]
  {
    seq(|order|, i requires 0 <= i < |order| => proposals[order[i]])
  }

  lemma {:induction false} FinalOneMore(baseline: Table, tiers: seq<Table>, i: nat)
    requires i < |tiers|
    ensures Final(baseline, tiers[..i + 1]) == Final(baseline, tiers[..i]) + tiers[i]
    ensures Members(tiers[..i + 1]) == Members(tiers[..i]) + tiers[i].Keys
    decreases i
  {
    var shorter, longer := tiers[..i], tiers[..i + 1];
    if i == 0 {
      assert longer[1..] == [];
    } else {
      FinalOneMore(baseline + tiers[0], tiers[1..], i - 1);
      assert shorter[1..] == tiers[1..][..i - 1] && longer[1..] == tiers[1..][..i];
    }
  }

  lemma {:induction false} MembersAre(tiers: seq<Table>, ch: Ideograph)
    ensures ch in Members(tiers) <==> exists i :: 0 <= i < |tiers| && ch in tiers[i]
    decreases |tiers|
  {
    if tiers != [] {
      MembersAre(tiers[1..], ch);
      if ch in Members(tiers[1..]) {
        var i :| 0 <= i < |tiers[1..]| && ch in tiers[1..][i];
        assert ch in tiers[i + 1];
      }
      if i :| 0 < i < |tiers| && ch in tiers[i] {
        assert ch in tiers[1..][i - 1];
      }
    }
  }

  /** Where each installed member of the first n tiers lives. */
  ghost predicate Homes(order: seq<string>, tiers: seq<Table>, n: nat, home: map<Ideograph, string>)
    requires n <= |tiers| == |order|
  {
    home.Keys == Members(tiers[..n]) &&
    forall i, ch :: 0 <= i < n && ch in tiers[i] ==> ch in home && home[ch] == order[i]
  }

  /** Installs one proposal, or finds a member some earlier tier already holds. */
  method InstallTier(name: string, tier: Table, before: map<Ideograph, string>, under: Table)
    returns (clash: Option<Ideograph>, home: map<Ideograph, string>, final: Table)
    ensures clash.Some? ==> clash.value in tier && clash.value in before
    ensures clash.None? ==> tier.Keys !! before.Keys
    ensures clash.None? ==> home == before + (map ch | ch in tier :: name) && final == under + tier
  {
    home, final := before, under;
    ghost var names := map x | x in tier :: name;
    var open := tier.Keys;
    while open != {}
      invariant open <= tier.Keys && tier.Keys - open !! before.Keys
      invariant home == before + Within(names, tier.Keys - open)
      invariant final == under + Within(tier, tier.Keys - open)
      decreases open
    {
      var ch :| ch in open;
      if ch in home {
        return Some(ch), home, final;
      }
      AddOne(before, names, tier.Keys - open, ch);
      AddOne(under, tier, tier.Keys - open, ch);
      home := home[ch := name];
      final := final[ch := tier[ch]];
      assert tier.Keys - (open - {ch}) == (tier.Keys - open) + {ch};
      open := open - {ch};
    }
    assert tier.Keys - open == tier.Keys;
    WithinAll(tier);
    WithinAll(names);
    clash := None;
  }

  lemma WithinAll<T>(m: map<Ideograph, T>)
    ensures Within(m, m.Keys) == m
  {
  }

  function Within<T>(m: map<Ideograph, T>, keys: set<Ideograph>): map<Ideograph, T> {
    map ch | ch in keys && ch in m :: m[ch]
  }

  lemma AddOne<T>(under: map<Ideograph, T>, m: map<Ideograph, T>, done: set<Ideograph>, ch: Ideograph)
    requires ch in m
    ensures (under + Within(m, done))[ch := m[ch]] == under + Within(m, done + {ch})
  {
  }

  ghost predicate IsShared(tiers: seq<Table>, ch: Ideograph) {
    exists i, j :: 0 <= i < j < |tiers| && ch in tiers[i] && ch in tiers[j]
  }

  /** Installs every proposal over the baseline, refusing a member two tiers share. */
  method FindHomes(baseline: Table, order: seq<string>, tiers: seq<Table>)
    returns (r: Result<(map<Ideograph, string>, Table), AssemblyError>)
    requires |tiers| == |order|
    ensures r.Ok? <==> Disjoint(tiers)
    ensures r.Ok? ==> Homes(order, tiers, |tiers|, r.value.0) && r.value.1 == Final(baseline, tiers)
    ensures r.Err? ==> r.error.DuplicateMember? && IsShared(tiers, r.error.ch)
  {
    var home: map<Ideograph, string>, final: Table := map[], baseline;
    for i := 0 to |tiers|
      invariant Disjoint(tiers[..i])
      invariant Homes(order, tiers, i, home)
      invariant final == Final(baseline, tiers[..i])
    {
      ghost var before := home;
      FinalOneMore(baseline, tiers, i);
      var clash;
      clash, home, final := InstallTier(order[i], tiers[i], home, final);
      if clash.Some? {
        MembersAre(tiers[..i], clash.value);
        var j :| 0 <= j < i && clash.value in tiers[..i][j];
        assert !(tiers[j].Keys !! tiers[i].Keys);
        return Err(DuplicateMember(clash.value));
      }
      TierAdded(order, tiers, i, before, home);
    }
    assert tiers[..|tiers|] == tiers;
    r := Ok((home, final));
  }

  lemma TierAdded(order: seq<string>, tiers: seq<Table>, i: nat, before: map<Ideograph, string>, home: map<Ideograph, string>)
    requires i < |tiers| == |order| && Disjoint(tiers[..i]) && Homes(order, tiers, i, before)
    requires tiers[i].Keys !! before.Keys
    requires home == before + map ch | ch in tiers[i] :: order[i]
    ensures Disjoint(tiers[..i + 1]) && Homes(order, tiers, i + 1, home)
  {
    FinalOneMore(map[], tiers, i);
    forall j, k | 0 <= j < k < i + 1 ensures tiers[j].Keys !! tiers[k].Keys {
      if k < i {
        assert tiers[..i][j].Keys !! tiers[..i][k].Keys;
      } else {
        assert forall ch :: ch in tiers[j] ==> ch in before;
      }
    }
  }

  /** The rows of later tiers, found through their homes. */
  lemma LateByHome(order: seq<string>, tiers: seq<Table>, i: nat, home: map<Ideograph, string>)
    requires i < |tiers| == |order| && DistinctNames(order) && Homes(order, tiers, |tiers|, home)
    ensures Members(tiers[i + 1..]) == set ch | ch in home && home[ch] in order[i + 1..]
  {
    assert tiers[..|tiers|] == tiers;
    forall ch ensures ch in Members(tiers[i + 1..]) <==> ch in home && home[ch] in order[i + 1..] {
      MembersAre(tiers[i + 1..], ch);
      MembersAre(tiers, ch);
      if ch in Members(tiers[i + 1..]) {
        var k :| 0 <= k < |tiers[i + 1..]| && ch in tiers[i + 1..][k];
        assert ch in tiers[i + 1 + k] && order[i + 1..][k] == order[i + 1 + k];
      }
      if ch in home && home[ch] in order[i + 1..] {
        var k :| 0 <= k < |tiers| && ch in tiers[k];
        var j :| 0 <= j < |order[i + 1..]| && order[i + 1..][j] == home[ch];
        assert order[i + 1 + j] == order[k];
        assert k == i + 1 + j && ch in tiers[i + 1..][j];
      }
    }
  }

  /** The report of one tier describes its closure. */
  ghost predicate Describes(step: TierStep, baseline: Table, final: Table, home: map<Ideograph, string>, state: Closure) {
    step.remaining == Pairs(baseline) - Pairs(state.table) &&
    step.unexpected == Missing(baseline, final, state.table) &&
    step.cycles == Ascending(Cyclic(state.table)) &&
    ListsPulls(step.pulls, home, final, state.reasons)
  }

  /** pulls lists the pulled rows in ascending order, each with its home, its row and its reasons. */
  ghost predicate ListsPulls(pulls: seq<Pull>, home: map<Ideograph, string>, final: Table, reasons: Reasons) {
    |pulls| == |Ascending(reasons.Keys)| &&
    forall k :: 0 <= k < |pulls| ==>
      var ch := Ascending(reasons.Keys)[k];
      ch in reasons && ch in home && ch in final && pulls[k] == Pull(home[ch], ch, final[ch], reasons[ch])
  }

  /** `Stage` for a run that is still growing. */
  ghost predicate StageSoFar(baseline: Table, tiers: seq<Table>, states: seq<Closure>, i: nat)
    requires i < |states| <= |tiers|
  {
    LateRows(tiers, i);
    states[i] == Close(baseline, Final(baseline, tiers),
                       (if i == 0 then baseline else states[i - 1].table) + tiers[i], Members(tiers[i + 1..]))
  }

  /** Round k produced the staged table of its tier and a report that describes it. */
  ghost predicate RoundDone(baseline: Table, order: seq<string>, tiers: seq<Table>, home: map<Ideograph, string>,
                            states: seq<Closure>, steps: seq<TierStep>, k: nat)
    requires k < |steps| == |states| <= |tiers| == |order|
  {
    StageSoFar(baseline, tiers, states, k) && steps[k].tier == order[k] &&
    Describes(steps[k], baseline, Final(baseline, tiers), home, states[k])
  }

  ghost predicate RunSoFar(baseline: Table, order: seq<string>, tiers: seq<Table>, home: map<Ideograph, string>,
                           states: seq<Closure>, steps: seq<TierStep>)
    requires |steps| == |states| <= |tiers| == |order|
  {
    forall k :: 0 <= k < |states| ==> RoundDone(baseline, order, tiers, home, states, steps, k)
  }

  lemma StageStays(baseline: Table, tiers: seq<Table>, states: seq<Closure>, state: Closure, k: nat)
    requires k < |states| < |tiers| && StageSoFar(baseline, tiers, states, k)
    ensures StageSoFar(baseline, tiers, states + [state], k)
  {
  }

  lemma RunOneMore(baseline: Table, order: seq<string>, tiers: seq<Table>, home: map<Ideograph, string>,
                   states: seq<Closure>, steps: seq<TierStep>, state: Closure, step: TierStep)
    requires |steps| == |states| < |tiers| == |order| && RunSoFar(baseline, order, tiers, home, states, steps)
    requires StageSoFar(baseline, tiers, states + [state], |states|) && step.tier == order[|states|]
    requires Describes(step, baseline, Final(baseline, tiers), home, state)
    ensures RunSoFar(baseline, order, tiers, home, states + [state], steps + [step])
  {
    forall k | 0 <= k < |states| + 1
      ensures RoundDone(baseline, order, tiers, home, states + [state], steps + [step], k)
    {
      if k < |states| {
        assert RoundDone(baseline, order, tiers, home, states, steps, k);
        StageStays(baseline, tiers, states, state, k);
      }
    }
  }

  method ReportPulls(home: map<Ideograph, string>, final: Table, reasons: Reasons) returns (pulls: seq<Pull>)
    requires reasons.Keys <= home.Keys && reasons.Keys <= final.Keys
    ensures ListsPulls(pulls, home, final, reasons)
  {
    var pulled := Ascending(reasons.Keys);
    assert forall k :: 0 <= k < |pulled| ==> pulled[k] in pulled;
    pulls := seq(|pulled|, k requires 0 <= k < |pulled| =>
                   Pull(home[pulled[k]], pulled[k], final[pulled[k]], reasons[pulled[k]]));
  }

  method LateMembers(order: seq<string>, ghost tiers: seq<Table>, i: nat, home: map<Ideograph, string>)
    returns (late: set<Ideograph>)
    requires i < |tiers| == |order| && DistinctNames(order) && Homes(order, tiers, |tiers|, home)
    ensures late == Members(tiers[i + 1..]) && late <= home.Keys
  {
    var later := order[i + 1..];
    late := set ch | ch in home && home[ch] in later;
    LateByHome(order, tiers, i, home);
  }

  lemma OnlyLateRowsPulled(baseline: Table, final: Table, current: Table, late: set<Ideograph>)
    requires late <= final.Keys
    ensures Close(baseline, final, current, late).reasons.Keys <= late
  {
    CloseTouches(baseline, final, current, late);
  }

  /** One round of the loop over the tiers. */
  method RunTier(baseline: Table, order: seq<string>, tiers: seq<Table>, i: nat, home: map<Ideograph, string>,
                 final: Table, before: Table, basePairs: set<Pair>, permanent: set<Pair>)
    returns (current: Table, step: TierStep, ghost state: Closure)
    requires i < |tiers| == |order| && DistinctNames(order) && Homes(order, tiers, |tiers|, home)
    requires final == Final(baseline, tiers) && Members(tiers[i + 1..]) <= final.Keys
    requires basePairs == Pairs(baseline) && permanent == Pairs(baseline) - Pairs(final)
    ensures state == Close(baseline, final, before + tiers[i], Members(tiers[i + 1..]))
    ensures current == state.table && step.tier == order[i] && Describes(step, baseline, final, home, state)
  {
    var late := LateMembers(order, tiers, i, home);
    OnlyLateRowsPulled(baseline, final, before + tiers[i], late);
    var reasons, pairs, cycles, missing;
    current, reasons, pairs, cycles, missing :=
      CloseTier(baseline, before + tiers[i], final, late, basePairs, permanent);
    var pulls := ReportPulls(home, final, reasons);
    step := TierStep(order[i], pulls, basePairs - pairs, missing, cycles);
    state := Closure(current, reasons);
  }

  /** The loop over the tiers. */
  method RunTiers(baseline: Table, order: seq<string>, tiers: seq<Table>, home: map<Ideograph, string>, final: Table,
                  basePairs: set<Pair>, permanent: set<Pair>)
    returns (steps: seq<TierStep>, ghost states: seq<Closure>)
    requires |tiers| == |order| && DistinctNames(order) && Homes(order, tiers, |tiers|, home)
    requires final == Final(baseline, tiers)
    requires basePairs == Pairs(baseline) && permanent == Pairs(baseline) - Pairs(final)
    ensures |steps| == |states| == |tiers| && RunSoFar(baseline, order, tiers, home, states, steps)
  {
    steps, states := [], [];
    var current := baseline;
    for i := 0 to |order|
      invariant |steps| == |states| == i && RunSoFar(baseline, order, tiers, home, states, steps)
      invariant current == if i == 0 then baseline else states[i - 1].table
    {
      LateRows(tiers, i);
      var step;
      ghost var state;
      current, step, state := RunTier(baseline, order, tiers, i, home, final, current, basePairs, permanent);
      assert StageSoFar(baseline, tiers, states + [state], i);
      RunOneMore(baseline, order, tiers, home, states, steps, state, step);
      steps, states := steps + [step], states + [state];
    }
  }

  /** p is a row tier i pulled: with its reasons, the later tier that owns it and its row there. */
  ghost predicate IsPull(order: seq<string>, tiers: seq<Table>, states: seq<Closure>, i: nat, p: Pull)
    requires i < |tiers| == |states| == |order|
  {
    p.ch in states[i].reasons && p.why == states[i].reasons[p.ch] &&
    exists j :: i < j < |tiers| && p.ch in tiers[j] && p.row == tiers[j][p.ch] && p.home == order[j]
  }

  /** The reported pulls are the pulled rows, each with the tier that owns it and its row there. */
  lemma PullsAre(baseline: Table, order: seq<string>, tiers: seq<Table>, states: seq<Closure>,
                 home: map<Ideograph, string>, step: TierStep, i: nat, p: Pull)
    requires Disjoint(tiers) && Staged(baseline, tiers, states) && i < |tiers| == |order|
    requires Homes(order, tiers, |tiers|, home)
    requires Describes(step, baseline, Final(baseline, tiers), home, states[i])
    ensures p in step.pulls <==> IsPull(order, tiers, states, i, p)
  {
    var pulled := Ascending(states[i].reasons.Keys);
    TierTouches(baseline, tiers, states, i);
    if p.ch in states[i].reasons {
      MembersAre(tiers[i + 1..], p.ch);
      var k :| 0 <= k < |tiers[i + 1..]| && p.ch in tiers[i + 1..][k];
      assert p.ch in tiers[i + 1 + k];
      FinalRow(baseline, tiers, p.ch);
      assert RowOf(Final(baseline, tiers), p.ch) == RowOf(tiers[i + 1 + k], p.ch);
      assert p.ch in pulled;
      var m :| 0 <= m < |pulled| && pulled[m] == p.ch;
      assert step.pulls[m] in step.pulls;
    }
  }

  /**
    Every pull is of a row some table of the tier called for, with exactly the
    reasons there were, and every row called for is pulled.
  */
  ghost predicate Justifies(baseline: Table, final: Table, late: set<Ideograph>, tables: seq<Table>, pulls: seq<Pull>) {
    AreRounds(baseline, final, late, tables) &&
    (forall p :: p in pulls ==> IsJustified(baseline, final, late, tables, p.ch, p.why)) &&
    forall ch :: MendsSome(baseline, final, late, tables, ch) || OnSomeCycle(final, late, tables, ch) ==>
      exists p :: p in pulls && p.ch == ch
  }

  /** Tier i went from its installed table through rounds that justify its pulls to its last table. */
  ghost predicate PullsAreJustified(baseline: Table, tiers: seq<Table>, states: seq<Closure>, i: nat, pulls: seq<Pull>)
    requires i < |tiers| == |states|
  {
    exists tables: seq<Table> ::
      Justifies(baseline, Final(baseline, tiers), Members(tiers[i + 1..]), tables, pulls) &&
      tables[0] == Installed(baseline, tiers, states, i) && tables[|tables| - 1] == states[i].table
  }

  lemma PullsJustified(baseline: Table, order: seq<string>, tiers: seq<Table>, states: seq<Closure>, i: nat, pulls: seq<Pull>)
    requires Disjoint(tiers) && Staged(baseline, tiers, states) && i < |tiers| == |order|
    requires forall p :: p in pulls <==> IsPull(order, tiers, states, i, p)
    ensures PullsAreJustified(baseline, tiers, states, i, pulls)
  {
    var final, late := Final(baseline, tiers), Members(tiers[i + 1..]);
    LateRows(tiers, i);
    assert Stage(baseline, tiers, states, i);
    var tables := CloseRounds(baseline, final, Installed(baseline, tiers, states, i), late);
    forall p | p in pulls ensures IsJustified(baseline, final, late, tables, p.ch, p.why) {
      assert IsPull(order, tiers, states, i, p);
    }
    forall ch | MendsSome(baseline, final, late, tables, ch) || OnSomeCycle(final, late, tables, ch)
      ensures exists p :: p in pulls && p.ch == ch
    {
      assert ch in states[i].reasons;
      var p := PullOf(baseline, order, tiers, states, i, ch);
      assert p in pulls;
    }
    assert Justifies(baseline, final, late, tables, pulls);
  }

  lemma PullOf(baseline: Table, order: seq<string>, tiers: seq<Table>, states: seq<Closure>, i: nat, ch: Ideograph)
    returns (p: Pull)
    requires Disjoint(tiers) && Staged(baseline, tiers, states) && i < |tiers| == |order| && ch in states[i].reasons
    ensures IsPull(order, tiers, states, i, p) && p.ch == ch
  {
    TierTouches(baseline, tiers, states, i);
    MembersAre(tiers[i + 1..], ch);
    var k :| 0 <= k < |tiers[i + 1..]| && ch in tiers[i + 1..][k];
    assert ch in tiers[i + 1 + k];
    p := Pull(order[i + 1 + k], ch, tiers[i + 1 + k][ch], states[i].reasons[ch]);
  }

  /** A tier whose installed table splits no retained pair and has no cycle pulls nothing forward. */
  lemma NothingPulled(baseline: Table, tiers: seq<Table>, states: seq<Closure>, i: nat, pulls: seq<Pull>)
    requires i < |tiers| == |states| && PullsAreJustified(baseline, tiers, states, i, pulls)
    requires Pairs(baseline) * Pairs(Final(baseline, tiers)) <= Pairs(Installed(baseline, tiers, states, i))
    requires Cyclic(Installed(baseline, tiers, states, i)) == {}
    ensures pulls == []
  {
    var final, late := Final(baseline, tiers), Members(tiers[i + 1..]);
    var tables :| Justifies(baseline, final, late, tables, pulls) &&
      tables[0] == Installed(baseline, tiers, states, i) && tables[|tables| - 1] == states[i].table;
    NothingCalledFor(baseline, final, late, tables[0]);
    if pulls != [] {
      assert pulls[0] in pulls;
      JustifiedAtFirst(baseline, final, late, tables, pulls[0].ch, pulls[0].why);
    }
  }

  /**
    What the report of one tier promises: no split is unexpected and only
    permanent ones remain, the cycles are those of the staged table and all
    final, and the pulls are exactly the pulled rows, each called for and with
    exactly its reasons.
  */
  ghost predicate SoundStep(baseline: Table, order: seq<string>, tiers: seq<Table>, states: seq<Closure>,
                            step: TierStep, i: nat)
    requires i < |tiers| == |states| == |order|
  {
    step.tier == order[i] && step.unexpected == {} &&
    step.remaining == Pairs(baseline) - Pairs(states[i].table) &&
    step.remaining <= Pairs(baseline) - Pairs(Final(baseline, tiers)) &&
    step.cycles == Ascending(Cyclic(states[i].table)) &&
    Cyclic(states[i].table) <= Cyclic(Final(baseline, tiers)) &&
    (forall a, b :: 0 <= a < b < |step.pulls| ==> step.pulls[a].ch < step.pulls[b].ch) &&
    (forall p :: p in step.pulls <==> IsPull(order, tiers, states, i, p)) &&
    PullsAreJustified(baseline, tiers, states, i, step.pulls)
  }

  /**
    What the whole report promises: every tier's report is sound, and after the
    last tier exactly the permanent splits and the final cycles are left.
  */
  ghost predicate SoundReport(baseline: Table, order: seq<string>, tiers: seq<Table>, states: seq<Closure>, report: Report) {
    Staged(baseline, tiers, states) && |report.steps| == |tiers| == |order| &&
    report.baselineCycles == Ascending(Cyclic(baseline)) &&
    report.finalCycles == Ascending(Cyclic(Final(baseline, tiers))) &&
    report.permanent == Pairs(baseline) - Pairs(Final(baseline, tiers)) &&
    (forall i :: 0 <= i < |tiers| ==> SoundStep(baseline, order, tiers, states, report.steps[i], i)) &&
    (tiers != [] ==>
       report.steps[|tiers| - 1].remaining == report.permanent &&
       report.steps[|tiers| - 1].cycles == report.finalCycles)
  }

  lemma TierIsSound(baseline: Table, order: seq<string>, tiers: seq<Table>, home: map<Ideograph, string>,
                    states: seq<Closure>, step: TierStep, i: nat)
    requires i < |tiers| == |states| == |order|
    requires Disjoint(tiers) && Homes(order, tiers, |tiers|, home) && Staged(baseline, tiers, states)
    requires step.tier == order[i] && Describes(step, baseline, Final(baseline, tiers), home, states[i])
    ensures SoundStep(baseline, order, tiers, states, step, i)
  {
    RetainedPairsStayJoined(baseline, tiers, states, i);
    forall p ensures p in step.pulls <==> IsPull(order, tiers, states, i, p) {
      PullsAre(baseline, order, tiers, states, home, step, i, p);
    }
    PullsJustified(baseline, order, tiers, states, i, step.pulls);
  }

  lemma RunIsSound(baseline: Table, order: seq<string>, tiers: seq<Table>, home: map<Ideograph, string>,
                   states: seq<Closure>, report: Report)
    requires |report.steps| == |states| == |tiers| == |order|
    requires Disjoint(tiers) && Homes(order, tiers, |tiers|, home)
    requires RunSoFar(baseline, order, tiers, home, states, report.steps)
    requires report.baselineCycles == Ascending(Cyclic(baseline))
    requires report.finalCycles == Ascending(Cyclic(Final(baseline, tiers)))
    requires report.permanent == Pairs(baseline) - Pairs(Final(baseline, tiers))
    ensures SoundReport(baseline, order, tiers, states, report)
  {
    forall i | 0 <= i < |tiers| ensures Stage(baseline, tiers, states, i) {
      assert RoundDone(baseline, order, tiers, home, states, report.steps, i);
    }
    forall i | 0 <= i < |tiers| ensures SoundStep(baseline, order, tiers, states, report.steps[i], i) {
      assert RoundDone(baseline, order, tiers, home, states, report.steps, i);
      TierIsSound(baseline, order, tiers, home, states, report.steps[i], i);
    }
    if tiers != [] {
      LastTierIsFinal(baseline, tiers, states);
      assert SoundStep(baseline, order, tiers, states, report.steps[|tiers| - 1], |tiers| - 1);
    }
  }

  /** The run over tiers in a known order. */
  method Migrate(baseline: Table, order: seq<string>, tiers: seq<Table>)
    returns (r: Result<Report, AssemblyError>, ghost states: seq<Closure>)
    requires |tiers| == |order| && DistinctNames(order)
    ensures r.Ok? <==> Disjoint(tiers)
    ensures r.Ok? ==> SoundReport(baseline, order, tiers, states, r.value)
    ensures r.Err? ==> r.error.DuplicateMember? && IsShared(tiers, r.error.ch)
  {
    states := [];
    var homes := FindHomes(baseline, order, tiers);
    if homes.Err? {
      return Err(homes.error), states;
    }
    var (home, final) := homes.value;
    var basePairs, baseCycles := JoinedPairs(baseline);
    var finalPairs, finalCycles := JoinedPairs(final);
    var permanent := basePairs - finalPairs;
    var steps;
    steps, states := RunTiers(baseline, order, tiers, home, final, basePairs, permanent);
    var report := Report(baseCycles, finalCycles, permanent, steps);
    RunIsSound(baseline, order, tiers, home, states, report);
    r := Ok(report);
  }

  lemma RareTiersAreDistinct()
    ensures DistinctNames(RARE_TIERS)
  {
  }

  method KnownTiers(names: seq<string>, proposals: map<string, Table>) returns (order: seq<string>, known: bool)
    ensures order == TierOrder(names, proposals)
    ensures known <==> forall t :: t in proposals ==> t in names
  {
    order := TierOrder(names, proposals);
    var ordered := set t | t in order;
    known := ordered == proposals.Keys;
    if !known {
      assert ordered <= proposals.Keys && !(proposals.Keys <= ordered);
    } else {
      assert forall t :: t in proposals ==> t in ordered;
    }
  }

  /** Runs the migration.  It fails only on an unknown tier or a member two tiers share. */
  method PullForward(baseline: Table, proposals: map<string, Table>)
    returns (r: Result<Report, AssemblyError>, ghost tiers: seq<Table>, ghost states: seq<Closure>)
    ensures r == Err(UnknownTier) <==> exists t :: t in proposals && t !in RARE_TIERS
    ensures r != Err(UnknownTier) ==>
              tiers == TierTables(TierOrder(RARE_TIERS, proposals), proposals) &&
              InOrderOf(RARE_TIERS, TierOrder(RARE_TIERS, proposals)) && (r.Ok? <==> Disjoint(tiers)) &&
              (r.Err? ==> r.error.DuplicateMember? && IsShared(tiers, r.error.ch))
    ensures r.Ok? ==> SoundReport(baseline, TierOrder(RARE_TIERS, proposals), tiers, states, r.value)
  {
    var order, known := KnownTiers(RARE_TIERS, proposals);
    tiers, states := [], [];
    if !known {
      return Err(UnknownTier), tiers, states;
    }
    var tables := TierTables(order, proposals);
    tiers := tables;
    RareTiersAreDistinct();
    TierOrderIsInOrder(RARE_TIERS, proposals);
    r, states := Migrate(baseline, order, tables);
  }
}
