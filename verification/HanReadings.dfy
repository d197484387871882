/**
  The order of a character's attested readings.  A reviewed choice may reorder
  readings only inside ties of the evidence key; every tie is reported with its
  ranks.
*/
module HanReadings {
  import opened Wrappers
  import opened HanEvidence
  import opened HanPrecedence

  // ---- a choice only permutes inside ties -------------------------------------------------

  function Keys(s: Sources, values: seq<Reading>, lead: Option<Reading>): (keys: seq<Key>)
    requires AllKnown(s, values)
    ensures |keys| == |values|
    ensures forall i :: 0 <= i < |values| ==> keys[i] == Precedence(s, values[i], lead)
  {
    seq(|values|, i requires 0 <= i < |values| => Precedence(s, values[i], lead))
  }

  lemma WithoutAt<T>(values: seq<T>, j: nat)
    requires j < |values|
    ensures multiset(values[..j] + values[j + 1..]) == multiset(values) - multiset{values[j]}
  {
    assert values == values[..j] + [values[j]] + values[j + 1..];
  }

  lemma KeysWithoutAt(s: Sources, values: seq<Reading>, lead: Option<Reading>, j: nat)
    requires AllKnown(s, values) && j < |values|
    ensures AllKnown(s, values[..j] + values[j + 1..])
    ensures multiset(Keys(s, values[..j] + values[j + 1..], lead)) ==
            multiset(Keys(s, values, lead)) - multiset{Precedence(s, values[j], lead)}
  {
    var keys := Keys(s, values, lead);
    WithoutAt(keys, j);
    assert Keys(s, values[..j] + values[j + 1..], lead) == keys[..j] + keys[j + 1..];
  }

  lemma {:induction false} KeysOfPermutation(s: Sources, a: seq<Reading>, b: seq<Reading>, lead: Option<Reading>)
    requires AllKnown(s, a) && AllKnown(s, b) && multiset(a) == multiset(b)
    ensures multiset(Keys(s, a, lead)) == multiset(Keys(s, b, lead))
    decreases |a|
  {
    if a == [] {
      assert |multiset(b)| == |b|;
      assert Keys(s, a, lead) == Keys(s, b, lead);
    } else {
      var j := Match(a, b);
      KeysOfPermutation(s, a[..0] + a[1..], b[..j] + b[j + 1..], lead);
      KeysWithoutAt(s, a, lead, 0);
      KeysWithoutAt(s, b, lead, j);
      Restore(Keys(s, a, lead), Keys(s, b, lead), Precedence(s, a[0], lead), j);
    }
  }

  /** Where the first element of one list is in its permutation; the rests are permutations too. */
  lemma Match<T>(a: seq<T>, b: seq<T>) returns (j: nat)
    requires a != [] && multiset(a) == multiset(b)
    ensures j < |b| && b[j] == a[0]
    ensures multiset(a[..0] + a[1..]) == multiset(b[..j] + b[j + 1..])
  {
    assert a[0] in multiset(b);
    j :| 0 <= j < |b| && b[j] == a[0];
    WithoutAt(a, 0);
    WithoutAt(b, j);
  }

  lemma Restore<T>(a: seq<T>, b: seq<T>, x: T, j: nat)
    requires a != [] && a[0] == x && j < |b| && b[j] == x
    requires multiset(a) - multiset{x} == multiset(b) - multiset{x}
    ensures multiset(a) == multiset(b)
  {
    assert x in a && x in b;
    assert (multiset(a) - multiset{x}) + multiset{x} == multiset(a);
    assert (multiset(b) - multiset{x}) + multiset{x} == multiset(b);
  }

  predicate KeysSorted(keys: seq<Key>) {
    forall i, j :: 0 <= i <= j < |keys| ==> LexLeq(keys[i], keys[j])
  }

  lemma LeastKeysAgree(a: seq<Key>, b: seq<Key>)
    requires KeysSorted(a) && KeysSorted(b) && multiset(a) == multiset(b) && a != [] && b != []
    ensures a[0] == b[0]
    ensures multiset(a[1..]) == multiset(b[1..])
  {
    assert a[0] in multiset(b) && b[0] in multiset(a);
    LexIsAntisymmetric(a[0], b[0]);
    WithoutAt(a, 0);
    WithoutAt(b, 0);
    assert a[..0] + a[1..] == a[1..] && b[..0] + b[1..] == b[1..];
  }

  lemma SameLength<T>(a: seq<T>, b: seq<T>)
    requires multiset(a) == multiset(b)
    ensures |a| == |b|
  {
    assert |multiset(a)| == |a| && |multiset(b)| == |b|;
  }

  /** Sorting leaves one order of keys. */
  lemma {:induction false} SortedKeysAreUnique(a: seq<Key>, b: seq<Key>)
    requires KeysSorted(a) && KeysSorted(b) && multiset(a) == multiset(b)
    ensures a == b
  {
    SameLength(a, b);
    if a != [] {
      LeastKeysAgree(a, b);
      SortedKeysAreUnique(a[1..], b[1..]);
      assert a == [a[0]] + a[1..] && b == [b[0]] + b[1..];
    }
  }

  /**
    Whatever the choice, the order it leads to has at every rank the precedence
    of the natural order, as long as the order is led by the decisive reading.
  */
  lemma ChoicePermutesTies(s: Sources, choice: seq<Reading>)
    requires s.Valid() && Follows(s, choice) == Decisive(s)
    ensures Keys(s, Placed(s, choice), Decisive(s)) == Keys(s, Natural(s), Decisive(s))
  {
    PlacedIsSorted(s, choice);
    PlacedIsSorted(s, []);
    KeysOfPermutation(s, Placed(s, choice), Natural(s), Decisive(s));
    SortedKeysAreUnique(Keys(s, Placed(s, choice), Decisive(s)), Keys(s, Natural(s), Decisive(s)));
  }

  // ---- ties --------------------------------------------------------------------------------

  function KeyAt(s: Sources, placed: seq<Reading>, lead: Option<Reading>, i: nat): Key
    requires AllKnown(s, placed) && i < |placed|
  {
    Precedence(s, placed[i], lead)
  }

  /** The positions from..to are a longest run of one precedence. */
  predicate IsBlock(s: Sources, placed: seq<Reading>, lead: Option<Reading>, from: int, to: int)
    requires AllKnown(s, placed)
  {
    0 <= from < to <= |placed| &&
    (forall i :: from <= i < to ==> KeyAt(s, placed, lead, i) == KeyAt(s, placed, lead, from)) &&
    (from > 0 ==> KeyAt(s, placed, lead, from - 1) != KeyAt(s, placed, lead, from)) &&
    (to < |placed| ==> KeyAt(s, placed, lead, to) != KeyAt(s, placed, lead, from))
  }

  /** In a sorted order a block is the whole tie: no other position has its precedence. */
  lemma BlockIsWholeTie(s: Sources, placed: seq<Reading>, lead: Option<Reading>, from: nat, to: nat, i: nat)
    requires AllKnown(s, placed) && Sorted(s, placed, lead) && IsBlock(s, placed, lead, from, to) && i < |placed|
    ensures KeyAt(s, placed, lead, i) == KeyAt(s, placed, lead, from) <==> from <= i < to
  {
    if KeyAt(s, placed, lead, i) == KeyAt(s, placed, lead, from) {
      if i < from {
        LexIsAntisymmetric(KeyAt(s, placed, lead, from - 1), KeyAt(s, placed, lead, from));
      } else if to <= i {
        LexIsAntisymmetric(KeyAt(s, placed, lead, to), KeyAt(s, placed, lead, from));
      }
    }
  }

  predicate Separates(order: map<Reading, int>, block: seq<Reading>) {
    exists i, j :: 0 <= i < j < |block| && OrderOf(order, block[i]) != OrderOf(order, block[j])
  }

  /** The first source order that tells the block's readings apart, if any does. */
  function Settling(orders: seq<map<Reading, int>>, block: seq<Reading>): (r: Option<nat>)
    ensures r.Some? ==> r.value < |orders| && Separates(orders[r.value], block)
    ensures forall i :: 0 <= i < (if r.Some? then r.value else |orders|) ==> !Separates(orders[i], block)
  {
    if orders == [] then None
    else if Separates(orders[0], block) then Some(0)
    else match Settling(orders[1..], block)
      case None => None
      case Some(k) => Some(k + 1)
  }

  /**
    The report names the right order: where two readings tie in precedence, the
    natural order puts them as the settling order of any block holding both does.
  */
  lemma SettlingIsTruthful(s: Sources, block: seq<Reading>, i: nat, j: nat)
    requires s.Valid()
    requires
      var placed := Natural(s);
      i < j < |placed| && placed[i] in block && placed[j] in block &&
      KeyAt(s, placed, Decisive(s), i) == KeyAt(s, placed, Decisive(s), j)
    requires Settling(s.orders, block).Some?
    ensures
      var order := s.orders[Settling(s.orders, block).value];
      OrderOf(order, Natural(s)[i]) <= OrderOf(order, Natural(s)[j])
  {
    var placed := Natural(s);
    SortSorts(s, s.records, Decisive(s));
    LexOfPrefix(Precedence(s, placed[i], Decisive(s)), Precedence(s, placed[j], Decisive(s)),
                SourceKey(s.orders, placed[i]), SourceKey(s.orders, placed[j]));
    SettledOrder(s.orders, block, placed[i], placed[j]);
  }

  lemma {:induction false} SettledOrder(orders: seq<map<Reading, int>>, block: seq<Reading>, a: Reading, b: Reading)
    requires a in block && b in block && LexLeq(SourceKey(orders, a), SourceKey(orders, b))
    requires Settling(orders, block).Some?
    ensures OrderOf(orders[Settling(orders, block).value], a) <= OrderOf(orders[Settling(orders, block).value], b)
  {
    if !Separates(orders[0], block) {
      SettledOrder(orders[1..], block, a, b);
    }
  }

  // ---- the procedure -----------------------------------------------------------------------

  datatype Ranked = Ranked(value: Reading, rank: nat)

  datatype Issue =
    | StandardUnranked(placed: seq<Reading>)
    | CnsDefault(placed: seq<Reading>)
    | EvidenceTie(placed: seq<Reading>)
    | Tie(placed: seq<Reading>, first: int, last: int, settling: Option<nat>)

  predicate AnyPredicted(s: Sources)
    requires s.Valid()
  {
    exists i :: 0 <= i < |s.records| && s.evidence[s.records[i]].predicted
  }

  /** The issue is the report of a block of two or more that ends at or before the position. */
  predicate IsTieReport(s: Sources, placed: seq<Reading>, lead: Option<Reading>, upTo: int, issue: Issue)
    requires AllKnown(s, placed)
  {
    issue.Tie? && issue.placed == placed && issue.last <= upTo && issue.first < issue.last &&
    IsBlock(s, placed, lead, issue.first - 1, issue.last) &&
    issue.settling == Settling(s.orders, placed[issue.first - 1..issue.last])
  }

  /** Exactly the blocks of two or more that end at or before the position have been reported. */
  ghost predicate TiesReported(s: Sources, placed: seq<Reading>, lead: Option<Reading>, upTo: int, issues: seq<Issue>)
    requires AllKnown(s, placed)
  {
    forall issue: Issue :: issue.Tie? ==> (issue in issues <==> IsTieReport(s, placed, lead, upTo, issue))
  }

  predicate IsBoundary(s: Sources, placed: seq<Reading>, lead: Option<Reading>, at: int)
    requires AllKnown(s, placed)
  {
    0 <= at <= |placed| &&
    (0 < at < |placed| ==> KeyAt(s, placed, lead, at - 1) != KeyAt(s, placed, lead, at))
  }

  /** Where the run that starts at a position ends. */
  method BlockEnd(s: Sources, placed: seq<Reading>, lead: Option<Reading>, start: nat) returns (end: nat)
    requires AllKnown(s, placed) && start < |placed| && IsBoundary(s, placed, lead, start)
    ensures IsBlock(s, placed, lead, start, end) && IsBoundary(s, placed, lead, end)
  {
    end := start + 1;
    while end < |placed| && Precedence(s, placed[end], lead) == Precedence(s, placed[start], lead)
      invariant start < end <= |placed|
      invariant forall i :: start <= i < end ==> KeyAt(s, placed, lead, i) == KeyAt(s, placed, lead, start)
    {
      end := end + 1;
    }
  }

  /** Blocks do not overlap, so one that ends in the run is the run. */
  lemma BlockInRun(s: Sources, placed: seq<Reading>, lead: Option<Reading>, start: nat, end: nat, from: int, to: int)
    requires AllKnown(s, placed) && IsBlock(s, placed, lead, start, end) && IsBlock(s, placed, lead, from, to)
    requires start < to <= end
    ensures from == start && to == end
  {
    assert KeyAt(s, placed, lead, to - 1) == KeyAt(s, placed, lead, start) == KeyAt(s, placed, lead, from);
  }

  predicate Distinct(values: seq<Reading>) {
    forall i, j :: 0 <= i < j < |values| ==> values[i] != values[j]
  }

  lemma {:induction false} DistinctCounts(values: seq<Reading>, x: Reading)
    requires Distinct(values)
    ensures multiset(values)[x] <= 1
  {
    if values != [] {
      DistinctCounts(values[1..], x);
      assert values == [values[0]] + values[1..];
      assert values[0] !in values[1..];
    }
  }

  lemma RepeatCounts(values: seq<Reading>, i: nat, j: nat)
    requires i < j < |values| && values[i] == values[j]
    ensures multiset(values)[values[i]] >= 2
  {
    assert values == values[..i] + [values[i]] + values[i + 1..j] + [values[j]] + values[j + 1..];
  }

  lemma PermutationIsDistinct(values: seq<Reading>, others: seq<Reading>)
    requires Distinct(values) && multiset(values) == multiset(others)
    ensures Distinct(others)
  {
    forall i, j | 0 <= i < j < |others| ensures others[i] != others[j] {
      DistinctCounts(values, others[i]);
      if others[i] == others[j] {
        RepeatCounts(others, i, j);
      }
    }
  }

  /** placed.index(value) */
  method Position(placed: seq<Reading>, value: Reading) returns (at: nat)
    requires value in placed
    ensures at < |placed| && placed[at] == value && value !in placed[..at]
  {
    at := 0;
    while placed[at] != value
      invariant at < |placed| && value !in placed[..at]
      decreases |placed| - at
    {
      at := at + 1;
    }
  }

  /** Reports the ties of an order, block by block. */
  method ReportTies(s: Sources, placed: seq<Reading>, lead: Option<Reading>) returns (issues: seq<Issue>)
    requires s.Valid() && AllKnown(s, placed) && Distinct(placed)
    ensures TiesReported(s, placed, lead, |placed|, issues)
    ensures forall issue :: issue in issues ==> issue.Tie? || issue == EvidenceTie(placed)
    ensures EvidenceTie(placed) in issues <==>
      (!s.cnsOnly || AnyPredicted(s)) && exists to :: 2 <= to <= |placed| && IsBlock(s, placed, lead, 0, to)
    ensures InReportOrder(issues) && PlacedBetween(issues, 2, Reached(|placed|))
  {
    issues := [];
    var start := 0;
    while start < |placed|
      invariant IsBoundary(s, placed, lead, start)
      invariant TiesReported(s, placed, lead, start, issues)
      invariant forall issue :: issue in issues ==> issue.Tie? || issue == EvidenceTie(placed)
      invariant EvidenceTie(placed) in issues <==>
        (!s.cnsOnly || AnyPredicted(s)) && exists to :: 2 <= to <= start && IsBlock(s, placed, lead, 0, to)
      invariant InReportOrder(issues) && PlacedBetween(issues, 2, Reached(start))
    {
      var end := BlockEnd(s, placed, lead, start);
      var more := ReportBlock(s, placed, lead, start, end);
      Extend(s, placed, lead, start, end, issues, more);
      OrderedInTurn(issues, more, 2, Reached(start), Reached(end));
      issues := issues + more;
      start := end;
    }
  }

  /** The report of one block: nothing for a single reading. */
  method ReportBlock(s: Sources, placed: seq<Reading>, lead: Option<Reading>, start: nat, end: nat)
      returns (issues: seq<Issue>)
    requires s.Valid() && AllKnown(s, placed) && Distinct(placed) && IsBlock(s, placed, lead, start, end)
    ensures issues == BlockReport(s, placed, start, end)
    ensures InReportOrder(issues) && PlacedBetween(issues, Reached(start), Reached(end))
  {
    var block := placed[start..end];
    if |block| < 2 {
      return [];
    }
    var index := Position(placed, block[0]);
    assert index == start;
    var first := index + 1;
    var last := first + |block| - 1;
    issues := [];
    if first == 1 && (!s.cnsOnly || AnyPredicted(s)) {
      issues := [EvidenceTie(placed)];
    }
    issues := issues + [Tie(placed, first, last, Settling(s.orders, block))];
  }

  function BlockReport(s: Sources, placed: seq<Reading>, start: nat, end: nat): seq<Issue>
    requires s.Valid() && start < end <= |placed|
  {
    if end - start < 2 then []
    else
      (if start == 0 && (!s.cnsOnly || AnyPredicted(s)) then [EvidenceTie(placed)] else []) +
      [Tie(placed, start + 1, end, Settling(s.orders, placed[start..end]))]
  }

  lemma Extend(s: Sources, placed: seq<Reading>, lead: Option<Reading>, start: nat, end: nat,
               issues: seq<Issue>, more: seq<Issue>)
    requires s.Valid() && AllKnown(s, placed) && IsBlock(s, placed, lead, start, end)
    requires more == BlockReport(s, placed, start, end)
    requires TiesReported(s, placed, lead, start, issues)
    ensures TiesReported(s, placed, lead, end, issues + more)
    ensures (exists to :: 2 <= to <= end && IsBlock(s, placed, lead, 0, to)) <==>
            ((exists to :: 2 <= to <= start && IsBlock(s, placed, lead, 0, to)) || (start == 0 && end >= 2))
  {
    forall issue: Issue | issue.Tie?
      ensures issue in issues + more <==> IsTieReport(s, placed, lead, end, issue)
    {
      if IsBlock(s, placed, lead, issue.first - 1, issue.last) && start < issue.last <= end {
        BlockInRun(s, placed, lead, start, end, issue.first - 1, issue.last);
      }
    }
    forall to | 2 <= to <= end && IsBlock(s, placed, lead, 0, to)
      ensures to <= start || (start == 0 && end == to)
    {
      if start < to {
        BlockInRun(s, placed, lead, start, end, 0, to);
      }
    }
  }

  /**
    The attested readings in their final order, ranked from 1, and the issues that
    await a decision: among them exactly the ties of that order.
  */
  method OrderedReadings(s: Sources, choice: seq<Reading>) returns (readings: seq<Ranked>, issues: seq<Issue>)
    requires s.Valid()
    ensures IsBounded(s) ==> IsFinalOrder(s, choice, Placed(s, choice))
    ensures |readings| == |Placed(s, choice)|
    ensures forall i :: 0 <= i < |readings| ==> readings[i] == Ranked(Placed(s, choice)[i], i + 1)
    ensures TiesReported(s, Placed(s, choice), Lead(s, choice), |readings|, issues)
    ensures EvidenceTie(Placed(s, choice)) in issues <==>
      (!s.cnsOnly || AnyPredicted(s)) &&
      exists to :: 2 <= to <= |readings| && IsBlock(s, Placed(s, choice), Lead(s, choice), 0, to)
    ensures InReportOrder(issues)
    ensures StandardUnranked(Placed(s, choice)) in issues <==> Unranked(s)
    ensures IsBounded(s) ==> (StandardUnranked(Placed(s, choice)) in issues <==> IsOpen(s))
    ensures CnsDefault(Placed(s, choice)) in issues <==>
      |readings| > 1 && s.cnsOnly && !AnyPredicted(s) && !(s.classDefault && Placed(s, choice) == Natural(s))
  {
    var natural := Natural(s);
    var placed := if Accepted(s, choice) then choice else natural;
    SameLength(placed, s.records);
    PermutationIsDistinct(s.records, placed);
    var notes := ReviewNotes(s, placed, natural);
    var ties := ReportTies(s, placed, Lead(s, choice));
    Combine(s, placed, Lead(s, choice), notes, ties);
    OrderedInTurn(notes, ties, 0, 2, Reached(|placed|));
    issues := notes + ties;
    readings := RankAll(placed);
    if IsBounded(s) {
      PlacedIsFinal(s, choice);
      LeadIs(s, choice);
    }
  }

  /** Ties of the first ranks stand before this place. */
  function Reached(ranks: nat): int {
    if ranks == 0 then 2 else 3 + ranks
  }

  /** Where an issue stands in the report: the notes, then the ties by rank, the first-rank decision before its tie. */
  function Place(issue: Issue): int {
    match issue
    case StandardUnranked(_) => 0
    case CnsDefault(_) => 1
    case EvidenceTie(_) => 2
    case Tie(_, first, _, _) => 2 + first
  }

  /** Each issue once, in order. */
  predicate InReportOrder(issues: seq<Issue>) {
    forall i, j :: 0 <= i < j < |issues| ==> Place(issues[i]) < Place(issues[j])
  }

  predicate PlacedBetween(issues: seq<Issue>, low: int, high: int) {
    forall i :: 0 <= i < |issues| ==> low <= Place(issues[i]) < high
  }

  lemma OrderedInTurn(issues: seq<Issue>, more: seq<Issue>, low: int, middle: int, high: int)
    requires InReportOrder(issues) && PlacedBetween(issues, low, middle) && low <= middle
    requires InReportOrder(more) && PlacedBetween(more, middle, high) && middle <= high
    ensures InReportOrder(issues + more) && PlacedBetween(issues + more, low, high)
  {
  }

  predicate NoTieAmong(notes: seq<Issue>) {
    forall i :: 0 <= i < |notes| ==> !notes[i].Tie? && !notes[i].EvidenceTie?
  }

  method ReviewNotes(s: Sources, placed: seq<Reading>, natural: seq<Reading>) returns (notes: seq<Issue>)
    requires s.Valid()
    ensures NoTieAmong(notes) && InReportOrder(notes) && PlacedBetween(notes, 0, 2)
    ensures StandardUnranked(placed) in notes <==> Unranked(s)
    ensures CnsDefault(placed) in notes <==>
      |placed| > 1 && s.cnsOnly && !AnyPredicted(s) && !(s.classDefault && placed == natural)
  {
    notes := [];
    if Unranked(s) {
      notes := [StandardUnranked(placed)];
    }
    if |placed| > 1 && s.cnsOnly && !AnyPredicted(s) {
      if !s.classDefault || placed != natural {
        notes := notes + [CnsDefault(placed)];
      }
    }
  }

  lemma Combine(s: Sources, placed: seq<Reading>, lead: Option<Reading>, notes: seq<Issue>, ties: seq<Issue>)
    requires AllKnown(s, placed) && NoTieAmong(notes) && TiesReported(s, placed, lead, |placed|, ties)
    requires forall issue :: issue in ties ==> issue.Tie? || issue == EvidenceTie(placed)
    ensures TiesReported(s, placed, lead, |placed|, notes + ties)
    ensures EvidenceTie(placed) in notes + ties <==> EvidenceTie(placed) in ties
    ensures StandardUnranked(placed) in notes + ties <==> StandardUnranked(placed) in notes
    ensures CnsDefault(placed) in notes + ties <==> CnsDefault(placed) in notes
  {
  }

  method RankAll(placed: seq<Reading>) returns (readings: seq<Ranked>)
    ensures |readings| == |placed|
    ensures forall i :: 0 <= i < |placed| ==> readings[i] == Ranked(placed[i], i + 1)
  {
    readings := [];
    while |readings| < |placed|
      invariant |readings| <= |placed|
      invariant forall i :: 0 <= i < |readings| ==> readings[i] == Ranked(placed[i], i + 1)
    {
      readings := readings + [Ranked(placed[|readings|], |readings| + 1)];
    }
  }

  lemma BlockAround(s: Sources, placed: seq<Reading>, lead: Option<Reading>, i: nat) returns (from: nat, to: nat)
    requires AllKnown(s, placed) && i < |placed|
    ensures IsBlock(s, placed, lead, from, to) && from <= i < to
  {
    from, to := i, i + 1;
    while from > 0 && KeyAt(s, placed, lead, from - 1) == KeyAt(s, placed, lead, i)
      invariant from <= i
      invariant forall k :: from <= k <= i ==> KeyAt(s, placed, lead, k) == KeyAt(s, placed, lead, i)
    {
      from := from - 1;
    }
    while to < |placed| && KeyAt(s, placed, lead, to) == KeyAt(s, placed, lead, i)
      invariant i < to <= |placed|
      invariant forall k :: from <= k < to ==> KeyAt(s, placed, lead, k) == KeyAt(s, placed, lead, i)
    {
      to := to + 1;
    }
  }

  /** In a sorted order, equal precedence puts two readings in one block. */
  lemma TieIsInBlock(s: Sources, placed: seq<Reading>, lead: Option<Reading>, i: nat, j: nat) returns (from: nat, to: nat)
    requires AllKnown(s, placed) && Sorted(s, placed, lead) && i < j < |placed|
    requires KeyAt(s, placed, lead, i) == KeyAt(s, placed, lead, j)
    ensures IsBlock(s, placed, lead, from, to) && from <= i < j < to
  {
    from, to := BlockAround(s, placed, lead, i);
    BlockIsWholeTie(s, placed, lead, from, to, i);
    BlockIsWholeTie(s, placed, lead, from, to, j);
  }

  lemma BlockIsReported(s: Sources, placed: seq<Reading>, lead: Option<Reading>, from: nat, to: nat, issues: seq<Issue>)
      returns (issue: Issue)
    requires AllKnown(s, placed) && TiesReported(s, placed, lead, |placed|, issues)
    requires IsBlock(s, placed, lead, from, to) && from + 1 < to
    ensures issue in issues && issue.Tie? && issue.first == from + 1 && issue.last == to
  {
    issue := Tie(placed, from + 1, to, Settling(s.orders, placed[from..to]));
    assert IsTieReport(s, placed, lead, |placed|, issue);
  }

  /**
    Unless a choice with another lead was rejected, any two readings the
    evidence does not tell apart are covered by one reported tie.
  */
  lemma EveryTieIsReported(s: Sources, choice: seq<Reading>, issues: seq<Issue>, i: nat, j: nat)
    requires s.Valid() && Lead(s, choice) == Follows(s, choice)
    requires TiesReported(s, Placed(s, choice), Lead(s, choice), |Placed(s, choice)|, issues)
    requires i < j < |Placed(s, choice)|
    requires KeyAt(s, Placed(s, choice), Lead(s, choice), i) == KeyAt(s, Placed(s, choice), Lead(s, choice), j)
    ensures exists issue :: issue in issues && issue.Tie? && issue.first <= i + 1 < j + 1 <= issue.last
  {
    PlacedIsSorted(s, choice);
    var from, to := TieIsInBlock(s, Placed(s, choice), Lead(s, choice), i, j);
    var issue := BlockIsReported(s, Placed(s, choice), Lead(s, choice), from, to, issues);
  }
}
