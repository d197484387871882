/**
  The rounds of one tier, table by table: which rows a round pulls forward, said
  of the chains and joined pairs of its table alone.
*/
module HanRounds {
  import opened Wrappers
  import opened HanChains
  import opened HanAssembly

  /** A row of a later tier whose target is not the final one yet. */
  ghost predicate StillDiffers(final: Table, late: set<Ideograph>, current: Table, ch: Ideograph) {
    ch in late && TargetOf(current, ch) != TargetOf(final, ch)
  }

  /** ch is the first still differing later row on the chain of c. */
  ghost predicate FirstOnChain(final: Table, late: set<Ideograph>, current: Table, c: Ideograph, ch: Ideograph) {
    StillDiffers(final, late, current, ch) &&
    exists n: nat :: Follow(Targets(current), c, n) == ch &&
      forall i: nat :: i < n ==> !StillDiffers(final, late, current, Follow(Targets(current), c, i))
  }

  /** ch comes first on the chain of a member of a retained pair that the table splits. */
  ghost predicate MendsSplit(baseline: Table, final: Table, late: set<Ideograph>, current: Table, ch: Ideograph) {
    exists p :: p in Pairs(baseline) && p in Pairs(final) && p !in Pairs(current) &&
      (FirstOnChain(final, late, current, p.0, ch) || FirstOnChain(final, late, current, p.1, ch))
  }

  /** ch still differs and its chain in the table never ends. */
  ghost predicate OnCycle(final: Table, late: set<Ideograph>, current: Table, ch: Ideograph) {
    StillDiffers(final, late, current, ch) &&
    forall n: nat :: Follow(Targets(current), ch, n) in Targets(current)
  }

  ghost predicate IsCalledFor(baseline: Table, final: Table, late: set<Ideograph>, current: Table, ch: Ideograph) {
    MendsSplit(baseline, final, late, current, ch) || OnCycle(final, late, current, ch)
  }

  ghost predicate NoneCalledFor(baseline: Table, final: Table, late: set<Ideograph>, current: Table) {
    forall ch :: !IsCalledFor(baseline, final, late, current, ch)
  }

  /** Exactly the rows called for become final, and there is at least one. */
  ghost predicate IsRound(baseline: Table, final: Table, late: set<Ideograph>, current: Table, next: Table) {
    (exists ch :: IsCalledFor(baseline, final, late, current, ch)) &&
    forall ch :: RowOf(next, ch) ==
      RowOf(if IsCalledFor(baseline, final, late, current, ch) then final else current, ch)
  }

  /** The tables a tier goes through: round after round, until no row is called for. */
  ghost predicate AreRounds(baseline: Table, final: Table, late: set<Ideograph>, tables: seq<Table>) {
    tables != [] &&
    (forall k :: 0 <= k < |tables| - 1 ==> IsRound(baseline, final, late, tables[k], tables[k + 1])) &&
    NoneCalledFor(baseline, final, late, tables[|tables| - 1])
  }

  /** The row was called for on some table of the tier, and these are all the reasons there were. */
  ghost predicate IsJustified(baseline: Table, final: Table, late: set<Ideograph>, tables: seq<Table>,
                              ch: Ideograph, why: set<Reason>)
  {
    why != {} &&
    (BaselinePair in why <==> MendsSome(baseline, final, late, tables, ch)) &&
    (Cycle in why <==> OnSomeCycle(final, late, tables, ch))
  }

  ghost predicate MendsSome(baseline: Table, final: Table, late: set<Ideograph>, tables: seq<Table>, ch: Ideograph) {
    exists k :: 0 <= k < |tables| && MendsSplit(baseline, final, late, tables[k], ch)
  }

  ghost predicate OnSomeCycle(final: Table, late: set<Ideograph>, tables: seq<Table>, ch: Ideograph) {
    exists k :: 0 <= k < |tables| && OnCycle(final, late, tables[k], ch)
  }

  // ---- one round -----------------------------------------------------------------

  lemma FirstIs(final: Table, late: set<Ideograph>, current: Table, c: Ideograph, ch: Ideograph)
    ensures FirstPending(Targets(current), Pending(current, final, late), c) == Some(ch) <==>
            FirstOnChain(final, late, current, c, ch)
  {
    var m, pending := Targets(current), Pending(current, final, late);
    assert forall x :: x in pending <==> StillDiffers(final, late, current, x);
    if FirstOnChain(final, late, current, c, ch) {
      var n: nat :| Follow(m, c, n) == ch &&
        forall i: nat :: i < n ==> !StillDiffers(final, late, current, Follow(m, c, i));
      FirstPendingAt(m, pending, c, n);
    }
    if FirstPending(m, pending, c) == Some(ch) {
      var n: nat :| StopsFirstAt(m, pending, c, n) && Follow(m, c, n) == ch;
      assert StillDiffers(final, late, current, ch);
    }
  }

  lemma CycleIs(final: Table, late: set<Ideograph>, current: Table, ch: Ideograph)
    requires StillDiffers(final, late, current, ch)
    ensures ch in Cyclic(current) <==> OnCycle(final, late, current, ch)
  {
    var m := Targets(current);
    if ch in Cyclic(current) {
      forall n: nat ensures Follow(m, ch, n) in m {
        if Follow(m, ch, n) !in m {
          TerminalAt(m, ch, n);
        }
      }
    } else if OnCycle(final, late, current, ch) {
      assert Follow(m, ch, 0) in m;
      TerminalElsewhere(current, ch);
    }
  }

  lemma BreaksIs(baseline: Table, final: Table, late: set<Ideograph>, current: Table, ch: Ideograph)
    ensures BreaksPair(baseline, final, current, late, ch) <==> MendsSplit(baseline, final, late, current, ch)
  {
    forall c ensures FirstPending(Targets(current), Pending(current, final, late), c) == Some(ch) <==>
                     FirstOnChain(final, late, current, c, ch)
    {
      FirstIs(final, late, current, c, ch);
    }
    if MendsSplit(baseline, final, late, current, ch) {
      var p :| p in Pairs(baseline) && p in Pairs(final) && p !in Pairs(current) &&
        (FirstOnChain(final, late, current, p.0, ch) || FirstOnChain(final, late, current, p.1, ch));
      assert p in Missing(baseline, final, current);
    }
  }

  lemma WhyIs(baseline: Table, final: Table, late: set<Ideograph>, current: Table, ch: Ideograph)
    requires StillDiffers(final, late, current, ch)
    ensures var why := Why(baseline, final, current, late, ch);
            (BaselinePair in why <==> MendsSplit(baseline, final, late, current, ch)) &&
            (Cycle in why <==> OnCycle(final, late, current, ch)) &&
            (why == {} <==> !IsCalledFor(baseline, final, late, current, ch))
  {
    BreaksIs(baseline, final, late, current, ch);
    CycleIs(final, late, current, ch);
    var why := Why(baseline, final, current, late, ch);
    assert why != {} ==> BaselinePair in why || Cycle in why;
  }

  lemma CalledForDiffers(baseline: Table, final: Table, late: set<Ideograph>, current: Table, ch: Ideograph)
    ensures IsCalledFor(baseline, final, late, current, ch) ==> StillDiffers(final, late, current, ch)
  {
  }

  /** What is needed now, with its reasons, is what is called for now. */
  lemma NeededIsCalledFor(baseline: Table, final: Table, late: set<Ideograph>, current: Table, ch: Ideograph)
    ensures ch in Needed(baseline, final, current, late) <==> IsCalledFor(baseline, final, late, current, ch)
    ensures ch in Needed(baseline, final, current, late) ==>
              (BaselinePair in Needed(baseline, final, current, late)[ch] <==>
               MendsSplit(baseline, final, late, current, ch)) &&
              (Cycle in Needed(baseline, final, current, late)[ch] <==> OnCycle(final, late, current, ch))
  {
    CalledForDiffers(baseline, final, late, current, ch);
    assert ch in Pending(current, final, late) <==> StillDiffers(final, late, current, ch);
    if StillDiffers(final, late, current, ch) {
      WhyIs(baseline, final, late, current, ch);
    }
  }

  // ---- all rounds of a tier ------------------------------------------------------

  /** Of the first table on: the reasons are those of the tables, and nothing differs later that did not before. */
  ghost predicate AreReasons(baseline: Table, final: Table, late: set<Ideograph>, tables: seq<Table>, reasons: Reasons) {
    forall ch ::
      (ch in reasons <==> MendsSome(baseline, final, late, tables, ch) || OnSomeCycle(final, late, tables, ch)) &&
      (ch in reasons ==> IsJustified(baseline, final, late, tables, ch, reasons[ch]))
  }

  /** A row that differs on some table of the tier differed on the first. */
  ghost predicate OnlyFewerDiffer(final: Table, late: set<Ideograph>, tables: seq<Table>) {
    forall k, ch :: 0 <= k < |tables| && StillDiffers(final, late, tables[k], ch) ==>
      StillDiffers(final, late, tables[0], ch)
  }

  lemma InstallIsRound(baseline: Table, final: Table, late: set<Ideograph>, current: Table)
    requires late <= final.Keys && Needed(baseline, final, current, late) != map[]
    ensures IsRound(baseline, final, late, current,
                    Install(current, final, Needed(baseline, final, current, late).Keys))
  {
    var needed := Needed(baseline, final, current, late);
    forall ch ensures ch in needed <==> IsCalledFor(baseline, final, late, current, ch) {
      NeededIsCalledFor(baseline, final, late, current, ch);
    }
    assert exists ch :: ch in needed;
  }

  lemma NoneNeeded(baseline: Table, final: Table, late: set<Ideograph>, current: Table)
    requires Needed(baseline, final, current, late) == map[]
    ensures NoneCalledFor(baseline, final, late, current)
  {
    forall ch ensures !IsCalledFor(baseline, final, late, current, ch) {
      NeededIsCalledFor(baseline, final, late, current, ch);
    }
  }

  lemma MendsWithFirst(baseline: Table, final: Table, late: set<Ideograph>, current: Table, tables: seq<Table>, ch: Ideograph)
    ensures MendsSome(baseline, final, late, [current] + tables, ch) <==>
            MendsSplit(baseline, final, late, current, ch) || MendsSome(baseline, final, late, tables, ch)
  {
    var all := [current] + tables;
    if MendsSplit(baseline, final, late, current, ch) {
      assert MendsSplit(baseline, final, late, all[0], ch);
    }
    if MendsSome(baseline, final, late, tables, ch) {
      var k :| 0 <= k < |tables| && MendsSplit(baseline, final, late, tables[k], ch);
      assert MendsSplit(baseline, final, late, all[k + 1], ch);
    }
  }

  lemma CyclesWithFirst(final: Table, late: set<Ideograph>, current: Table, tables: seq<Table>, ch: Ideograph)
    ensures OnSomeCycle(final, late, [current] + tables, ch) <==>
            OnCycle(final, late, current, ch) || OnSomeCycle(final, late, tables, ch)
  {
    var all := [current] + tables;
    if OnCycle(final, late, current, ch) {
      assert OnCycle(final, late, all[0], ch);
    }
    if OnSomeCycle(final, late, tables, ch) {
      var k :| 0 <= k < |tables| && OnCycle(final, late, tables[k], ch);
      assert OnCycle(final, late, all[k + 1], ch);
    }
  }

  /** A row that is final on the first table is called for on none. */
  lemma FinalIsNotCalledFor(baseline: Table, final: Table, late: set<Ideograph>, tables: seq<Table>, ch: Ideograph)
    requires tables != [] && OnlyFewerDiffer(final, late, tables) && !StillDiffers(final, late, tables[0], ch)
    ensures !MendsSome(baseline, final, late, tables, ch) && !OnSomeCycle(final, late, tables, ch)
  {
    forall k | 0 <= k < |tables| ensures !IsCalledFor(baseline, final, late, tables[k], ch) {
      CalledForDiffers(baseline, final, late, tables[k], ch);
    }
  }

  /** Installing the needed rows leaves exactly the others differing. */
  lemma InstalledDiffers(baseline: Table, final: Table, late: set<Ideograph>, current: Table, ch: Ideograph)
    requires late <= final.Keys
    ensures var needed := Needed(baseline, final, current, late);
            StillDiffers(final, late, Install(current, final, needed.Keys), ch) <==>
            StillDiffers(final, late, current, ch) && ch !in needed
  {
  }

  /** The reasons of the first round and of the rounds after it, for one row. */
  lemma ReasonBefore(baseline: Table, final: Table, late: set<Ideograph>, current: Table, tables: seq<Table>,
                     reasons: Reasons, ch: Ideograph)
    requires late <= final.Keys && tables != [] && AreReasons(baseline, final, late, tables, reasons)
    requires OnlyFewerDiffer(final, late, tables)
    requires tables[0] == Install(current, final, Needed(baseline, final, current, late).Keys)
    ensures var all, whole := [current] + tables, reasons + Needed(baseline, final, current, late);
            (ch in whole <==> MendsSome(baseline, final, late, all, ch) || OnSomeCycle(final, late, all, ch)) &&
            (ch in whole ==> IsJustified(baseline, final, late, all, ch, whole[ch]))
  {
    var needed := Needed(baseline, final, current, late);
    MendsWithFirst(baseline, final, late, current, tables, ch);
    CyclesWithFirst(final, late, current, tables, ch);
    NeededIsCalledFor(baseline, final, late, current, ch);
    InstalledDiffers(baseline, final, late, current, ch);
    if ch in needed {
      FinalIsNotCalledFor(baseline, final, late, tables, ch);
    } else if ch in reasons {
      assert IsJustified(baseline, final, late, tables, ch, reasons[ch]);
    }
  }

  lemma ReasonsBefore(baseline: Table, final: Table, late: set<Ideograph>, current: Table, tables: seq<Table>, reasons: Reasons)
    requires late <= final.Keys && tables != [] && AreReasons(baseline, final, late, tables, reasons)
    requires OnlyFewerDiffer(final, late, tables)
    requires tables[0] == Install(current, final, Needed(baseline, final, current, late).Keys)
    ensures AreReasons(baseline, final, late, [current] + tables, reasons + Needed(baseline, final, current, late))
  {
    forall ch
      ensures var all, whole := [current] + tables, reasons + Needed(baseline, final, current, late);
              (ch in whole <==> MendsSome(baseline, final, late, all, ch) || OnSomeCycle(final, late, all, ch)) &&
              (ch in whole ==> IsJustified(baseline, final, late, all, ch, whole[ch]))
    {
      ReasonBefore(baseline, final, late, current, tables, reasons, ch);
    }
  }

  lemma FewerBefore(baseline: Table, final: Table, late: set<Ideograph>, current: Table, tables: seq<Table>)
    requires late <= final.Keys && tables != [] && OnlyFewerDiffer(final, late, tables)
    requires tables[0] == Install(current, final, Needed(baseline, final, current, late).Keys)
    ensures OnlyFewerDiffer(final, late, [current] + tables)
  {
    var all := [current] + tables;
    forall k, ch | 0 <= k < |all| && StillDiffers(final, late, all[k], ch) ensures StillDiffers(final, late, current, ch) {
      if k > 0 {
        assert all[k] == tables[k - 1];
        InstalledDiffers(baseline, final, late, current, ch);
      }
    }
  }

  lemma RoundBefore(baseline: Table, final: Table, late: set<Ideograph>, current: Table, tables: seq<Table>)
    requires AreRounds(baseline, final, late, tables) && IsRound(baseline, final, late, current, tables[0])
    ensures AreRounds(baseline, final, late, [current] + tables)
  {
    var all := [current] + tables;
    forall k | 0 <= k < |all| - 1 ensures IsRound(baseline, final, late, all[k], all[k + 1]) {
      assert k > 0 ==> all[k] == tables[k - 1];
    }
    assert all[|all| - 1] == tables[|tables| - 1];
  }

  /** The closure of a tier is a run of rounds, and its reasons are theirs. */
  lemma {:induction false} CloseRounds(baseline: Table, final: Table, current: Table, late: set<Ideograph>)
    returns (tables: seq<Table>)
    requires late <= final.Keys
    ensures AreRounds(baseline, final, late, tables) && tables[0] == current && OnlyFewerDiffer(final, late, tables)
    ensures var c := Close(baseline, final, current, late);
            tables[|tables| - 1] == c.table && AreReasons(baseline, final, late, tables, c.reasons)
    decreases Pending(current, final, late)
  {
    var needed := Needed(baseline, final, current, late);
    if needed == map[] {
      tables := [current];
      NoneNeeded(baseline, final, late, current);
      NoReasons(baseline, final, late, current);
    } else {
      CloseStep(baseline, final, current, late);
      InstallIsRound(baseline, final, late, current);
      var next := Install(current, final, needed.Keys);
      var rest := CloseRounds(baseline, final, next, late);
      tables := [current] + rest;
      RoundBefore(baseline, final, late, current, rest);
      FewerBefore(baseline, final, late, current, rest);
      ReasonsBefore(baseline, final, late, current, rest, Close(baseline, final, next, late).reasons);
    }
  }

  lemma NoReasons(baseline: Table, final: Table, late: set<Ideograph>, current: Table)
    requires NoneCalledFor(baseline, final, late, current)
    ensures AreReasons(baseline, final, late, [current], map[])
  {
    forall ch ensures !MendsSome(baseline, final, late, [current], ch) && !OnSomeCycle(final, late, [current], ch) {
      assert !IsCalledFor(baseline, final, late, current, ch);
    }
  }

  /** A tier whose first table splits no retained pair and has no cycle calls for nothing. */
  lemma NothingCalledFor(baseline: Table, final: Table, late: set<Ideograph>, current: Table)
    requires Pairs(baseline) * Pairs(final) <= Pairs(current) && Cyclic(current) == {}
    ensures NoneCalledFor(baseline, final, late, current)
  {
    forall ch ensures !IsCalledFor(baseline, final, late, current, ch) {
      CalledForDiffers(baseline, final, late, current, ch);
      if StillDiffers(final, late, current, ch) {
        CycleIs(final, late, current, ch);
      }
    }
  }

  /** Where a row is pulled, the first table of the tier calls for one. */
  lemma JustifiedAtFirst(baseline: Table, final: Table, late: set<Ideograph>, tables: seq<Table>,
                         ch: Ideograph, why: set<Reason>)
    requires AreRounds(baseline, final, late, tables) && IsJustified(baseline, final, late, tables, ch, why)
    ensures exists x :: IsCalledFor(baseline, final, late, tables[0], x)
  {
    if |tables| > 1 {
      assert IsRound(baseline, final, late, tables[0], tables[1]);
    } else {
      var reason :| reason in why;
      assert reason == BaselinePair || reason == Cycle;
      assert IsCalledFor(baseline, final, late, tables[0], ch);
    }
  }
}
