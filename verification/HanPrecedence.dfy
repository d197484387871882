/**
  What comes before what, said of the evidence itself: which piece of it decides
  first, and which reading leads.
*/
module HanPrecedence {
  import opened Wrappers
  import opened HanEvidence

  /** a is in the list, with no b up to there. */
  ghost predicate Earlier(list: seq<Reading>, a: Reading, b: Reading) {
    exists k :: 0 <= k < |list| && list[k] == a && forall i :: 0 <= i <= k ==> list[i] != b
  }

  /** The evidence puts a strictly before b; the first difference decides. */
  ghost predicate Outranks(s: Sources, a: Reading, b: Reading, lead: Option<Reading>)
    requires a in s.evidence && b in s.evidence
  {
    var e, f := s.evidence[a], s.evidence[b];
    if (lead == Some(a)) != (lead == Some(b)) then lead == Some(a)
    else if e.mainland != f.mainland then e.mainland
    else if (e.lineages == 2) != (f.lineages == 2) then e.lineages == 2
    else if e.lineages != 2 && e.predicted != f.predicted then e.predicted
    else if Earlier(s.mandarin, a, b) || Earlier(s.mandarin, b, a) then Earlier(s.mandarin, a, b)
    else e.model < f.model
  }

  /** The first source order that tells the two apart puts a before b; a reading it does not list comes last. */
  ghost predicate ListedBefore(orders: seq<map<Reading, int>>, a: Reading, b: Reading) {
    exists k :: 0 <= k < |orders| && IsBefore(orders[k], a, b) &&
      forall i :: 0 <= i < k ==> !IsBefore(orders[i], a, b) && !IsBefore(orders[i], b, a)
  }

  predicate IsBefore(order: map<Reading, int>, a: Reading, b: Reading) {
    a in order && (if b in order then order[a] < order[b] else order[a] < MAXSIZE)
  }

  /** a belongs before b: by the evidence, or, where that ties, by the sources. */
  ghost predicate ComesBefore(s: Sources, a: Reading, b: Reading, lead: Option<Reading>)
    requires a in s.evidence && b in s.evidence
  {
    Outranks(s, a, b, lead) || (!Outranks(s, b, a, lead) && ListedBefore(s.orders, a, b))
  }

  /** Lists are shorter than the number that stands for absence, and no order places a reading beyond it. */
  ghost predicate IsBounded(s: Sources) {
    |s.mandarin| < MAXSIZE &&
    forall k, r :: 0 <= k < |s.orders| && r in s.orders[k] ==> s.orders[k][r] < MAXSIZE
  }

  // ---- the keys say the same -----------------------------------------------------------

  lemma {:induction false} IndexIs(list: seq<Reading>, value: Reading)
    requires |list| < MAXSIZE
    ensures IndexIn(list, value) == MAXSIZE <==> value !in list
    ensures value in list ==>
      0 <= IndexIn(list, value) < |list| && list[IndexIn(list, value)] == value &&
      forall i :: 0 <= i < IndexIn(list, value) ==> list[i] != value
  {
    if list != [] && list[0] != value {
      IndexIs(list[1..], value);
    }
  }

  lemma EarlierIs(list: seq<Reading>, a: Reading, b: Reading)
    requires |list| < MAXSIZE
    ensures Earlier(list, a, b) <==> IndexIn(list, a) < IndexIn(list, b)
  {
    IndexIs(list, a);
    IndexIs(list, b);
    if IndexIn(list, a) < IndexIn(list, b) {
      assert list[IndexIn(list, a)] == a;
    }
  }

  /** Strictly less, in tuple comparison. */
  predicate LexLess(a: Key, b: Key) {
    LexLeq(a, b) && a != b
  }

  lemma LexOfTwo(x: int, y: int, a: Key, b: Key)
    ensures LexLess([x] + a, [y] + b) <==> x < y || (x == y && LexLess(a, b))
  {
    assert ([x] + a)[1..] == a && ([y] + b)[1..] == b;
  }

  lemma OutranksIs(s: Sources, a: Reading, b: Reading, lead: Option<Reading>)
    requires a in s.evidence && b in s.evidence && IsBounded(s)
    ensures Outranks(s, a, b, lead) <==> LexLess(Precedence(s, a, lead), Precedence(s, b, lead))
  {
    var p, q := Precedence(s, a, lead), Precedence(s, b, lead);
    EarlierIs(s.mandarin, a, b);
    EarlierIs(s.mandarin, b, a);
    assert p == [p[0]] + ([p[1]] + ([p[2]] + ([p[3]] + ([p[4]] + []))));
    assert q == [q[0]] + ([q[1]] + ([q[2]] + ([q[3]] + ([q[4]] + []))));
    LexOfTwo(p[4], q[4], [], []);
    LexOfTwo(p[3], q[3], [p[4]] + [], [q[4]] + []);
    LexOfTwo(p[2], q[2], [p[3]] + ([p[4]] + []), [q[3]] + ([q[4]] + []));
    LexOfTwo(p[1], q[1], [p[2]] + ([p[3]] + ([p[4]] + [])), [q[2]] + ([q[3]] + ([q[4]] + [])));
    LexOfTwo(p[0], q[0], [p[1]] + ([p[2]] + ([p[3]] + ([p[4]] + []))), [q[1]] + ([q[2]] + ([q[3]] + ([q[4]] + []))));
  }

  lemma {:induction false} ListedIs(orders: seq<map<Reading, int>>, a: Reading, b: Reading)
    requires forall k, r :: 0 <= k < |orders| && r in orders[k] ==> orders[k][r] < MAXSIZE
    ensures ListedBefore(orders, a, b) <==> LexLess(SourceKey(orders, a), SourceKey(orders, b))
  {
    if orders != [] {
      var first, rest := orders[0], orders[1..];
      forall k, r | 0 <= k < |rest| && r in rest[k] ensures rest[k][r] < MAXSIZE {
        assert rest[k] == orders[k + 1];
      }
      ListedIs(rest, a, b);
      LexOfTwo(OrderOf(first, a), OrderOf(first, b), SourceKey(rest, a), SourceKey(rest, b));
      ListedShift(orders, a, b);
    }
  }

  lemma ListedShift(orders: seq<map<Reading, int>>, a: Reading, b: Reading)
    requires orders != []
    ensures ListedBefore(orders, a, b) <==>
            IsBefore(orders[0], a, b) || (!IsBefore(orders[0], b, a) && ListedBefore(orders[1..], a, b))
  {
    var rest := orders[1..];
    if !IsBefore(orders[0], a, b) && ListedBefore(orders, a, b) {
      var k :| 0 <= k < |orders| && IsBefore(orders[k], a, b) &&
        forall i :: 0 <= i < k ==> !IsBefore(orders[i], a, b) && !IsBefore(orders[i], b, a);
      assert rest[k - 1] == orders[k];
      assert forall i :: 0 <= i < k - 1 ==> rest[i] == orders[i + 1];
    }
    if !IsBefore(orders[0], a, b) && !IsBefore(orders[0], b, a) && ListedBefore(rest, a, b) {
      var k :| 0 <= k < |rest| && IsBefore(rest[k], a, b) &&
        forall i :: 0 <= i < k ==> !IsBefore(rest[i], a, b) && !IsBefore(rest[i], b, a);
      assert orders[k + 1] == rest[k];
      assert forall i :: 0 < i < k + 1 ==> orders[i] == rest[i - 1];
    }
  }

  lemma {:induction false} LexOfParts(a: Key, b: Key, restA: Key, restB: Key)
    requires |a| == |b|
    ensures LexLess(a + restA, b + restB) <==> LexLess(a, b) || (a == b && LexLess(restA, restB))
    decreases |a|
  {
    if a == [] {
      assert a + restA == restA && b + restB == restB;
    } else {
      assert a + restA == [a[0]] + (a[1..] + restA) && b + restB == [b[0]] + (b[1..] + restB);
      LexOfTwo(a[0], b[0], a[1..] + restA, b[1..] + restB);
      assert a == [a[0]] + a[1..] && b == [b[0]] + b[1..];
      LexOfTwo(a[0], b[0], a[1..], b[1..]);
      LexOfParts(a[1..], b[1..], restA, restB);
    }
  }

  /** The sort key puts strictly first exactly what belongs before. */
  lemma ComesBeforeIs(s: Sources, a: Reading, b: Reading, lead: Option<Reading>)
    requires a in s.evidence && b in s.evidence && IsBounded(s)
    ensures ComesBefore(s, a, b, lead) <==> LexLess(SortKey(s, a, lead), SortKey(s, b, lead))
    ensures ComesBefore(s, a, b, lead) <==> !LexLeq(SortKey(s, b, lead), SortKey(s, a, lead))
  {
    OutranksIs(s, a, b, lead);
    OutranksIs(s, b, a, lead);
    ListedIs(s.orders, a, b);
    LexOfParts(Precedence(s, a, lead), Precedence(s, b, lead), SourceKey(s.orders, a), SourceKey(s.orders, b));
    LexIsTotal(Precedence(s, a, lead), Precedence(s, b, lead));
    Strict(SortKey(s, a, lead), SortKey(s, b, lead));
  }

  lemma Strict(a: Key, b: Key)
    ensures LexLess(a, b) <==> !LexLeq(b, a)
  {
    LexIsTotal(a, b);
    if LexLeq(a, b) && LexLeq(b, a) {
      LexIsAntisymmetric(a, b);
    }
  }

  lemma OutranksIsStrict(s: Sources, a: Reading, b: Reading, lead: Option<Reading>)
    requires a in s.evidence && b in s.evidence && IsBounded(s)
    ensures Outranks(s, b, a, lead) <==> !LexLeq(Precedence(s, a, lead), Precedence(s, b, lead))
  {
    OutranksIs(s, b, a, lead);
    Strict(Precedence(s, b, lead), Precedence(s, a, lead));
  }

  // ---- the natural order -----------------------------------------------------------------

  ghost predicate Follow(list: seq<Reading>, a: Reading, b: Reading) {
    exists i, j :: 0 <= i < j < |list| && list[i] == a && list[j] == b
  }

  /** The records, with nothing behind what it belongs before, and in listing order where nothing tells them apart. */
  ghost predicate IsEvidenceOrder(s: Sources, values: seq<Reading>, lead: Option<Reading>)
    requires s.Valid()
  {
    multiset(values) == multiset(s.records) && AllKnown(s, values) &&
    forall i, j :: 0 <= i < j < |values| ==>
      !ComesBefore(s, values[j], values[i], lead) &&
      (ComesBefore(s, values[i], values[j], lead) || Follow(s.records, values[i], values[j]))
  }

  ghost predicate IsStable(s: Sources, values: seq<Reading>, sorted: seq<Reading>, lead: Option<Reading>)
    requires AllKnown(s, sorted)
  {
    forall i, j :: 0 <= i < j < |sorted| && LexLeq(SortKey(s, sorted[j], lead), SortKey(s, sorted[i], lead)) ==>
      Follow(values, sorted[i], sorted[j])
  }

  lemma FollowInFront(first: Reading, list: seq<Reading>, a: Reading, b: Reading)
    requires Follow(list, a, b) || (a == first && b in list)
    ensures Follow([first] + list, a, b)
  {
    var longer := [first] + list;
    if Follow(list, a, b) {
      var i, j :| 0 <= i < j < |list| && list[i] == a && list[j] == b;
      assert longer[i + 1] == a && longer[j + 1] == b;
    } else {
      var j :| 0 <= j < |list| && list[j] == b;
      assert longer[0] == a && longer[j + 1] == b;
    }
  }

  /** The longer list is the other with the value at position k. */
  predicate HasAt(longer: seq<Reading>, values: seq<Reading>, value: Reading, k: nat) {
    k <= |values| && |longer| == |values| + 1 && longer[k] == value &&
    (forall i :: 0 <= i < k ==> longer[i] == values[i]) &&
    forall i :: k < i < |longer| ==> longer[i] == values[i - 1]
  }

  /** Inserting puts the value before all that are not strictly less, and moves nothing else. */
  lemma {:induction false} InsertSplits(s: Sources, value: Reading, values: seq<Reading>, lead: Option<Reading>) returns (k: nat)
    requires value in s.evidence && AllKnown(s, values)
    ensures HasAt(Insert(s, value, values, lead), values, value, k)
    ensures forall i :: 0 <= i < k ==> !LexLeq(SortKey(s, value, lead), SortKey(s, values[i], lead))
  {
    if values == [] || LexLeq(SortKey(s, value, lead), SortKey(s, values[0], lead)) {
      k := 0;
    } else {
      var rest := InsertSplits(s, value, values[1..], lead);
      k := rest + 1;
    }
  }

  lemma InsertIsStable(s: Sources, value: Reading, list: seq<Reading>, rest: seq<Reading>, sorted: seq<Reading>,
                       lead: Option<Reading>, k: nat, i: nat, j: nat)
    requires AllKnown(s, rest) && AllKnown(s, sorted) && IsStable(s, list, rest, lead) && multiset(rest) == multiset(list)
    requires HasAt(sorted, rest, value, k) && i < j < |sorted|
    requires forall m :: 0 <= m < k ==> !LexLeq(SortKey(s, value, lead), SortKey(s, rest[m], lead))
    requires LexLeq(SortKey(s, sorted[j], lead), SortKey(s, sorted[i], lead))
    ensures Follow([value] + list, sorted[i], sorted[j])
  {
    if i == k {
      assert rest[j - 1] in multiset(rest);
      FollowInFront(value, list, value, rest[j - 1]);
    } else if j != k {
      FollowInFront(value, list, rest[if i < k then i else i - 1], rest[if j < k then j else j - 1]);
    }
  }

  lemma {:induction false} SortIsStable(s: Sources, values: seq<Reading>, lead: Option<Reading>)
    requires AllKnown(s, values)
    ensures IsStable(s, values, Sort(s, values, lead), lead)
    decreases |values|
  {
    if values != [] {
      var value, list := values[0], values[1..];
      var rest, sorted := Sort(s, list, lead), Sort(s, values, lead);
      SortIsStable(s, list, lead);
      var k := InsertSplits(s, value, rest, lead);
      assert values == [value] + list;
      forall i, j | 0 <= i < j < |sorted| && LexLeq(SortKey(s, sorted[j], lead), SortKey(s, sorted[i], lead))
        ensures Follow(values, sorted[i], sorted[j])
      {
        InsertIsStable(s, value, list, rest, sorted, lead, k, i, j);
      }
    }
  }

  /** The natural order is the evidence order under the decisive reading. */
  lemma NaturalIs(s: Sources)
    requires s.Valid() && IsBounded(s)
    ensures IsEvidenceOrder(s, Natural(s), Decisive(s))
  {
    var natural, lead := Natural(s), Decisive(s);
    SortSorts(s, s.records, lead);
    SortIsStable(s, s.records, lead);
    forall i, j | 0 <= i < j < |natural|
      ensures !ComesBefore(s, natural[j], natural[i], lead)
      ensures ComesBefore(s, natural[i], natural[j], lead) || Follow(s.records, natural[i], natural[j])
    {
      ComesBeforeIs(s, natural[j], natural[i], lead);
      ComesBeforeIs(s, natural[i], natural[j], lead);
    }
  }

  // ---- which reading leads ---------------------------------------------------------------

  /** The first of the standard readings that none of them comes before. */
  ghost predicate IsBest(s: Sources, r: Reading)
    requires s.Valid()
  {
    exists k :: 0 <= k < |s.standard| && s.standard[k] == r &&
      forall i :: 0 <= i < |s.standard| ==>
        !ComesBefore(s, s.standard[i], r, None) && (i < k ==> ComesBefore(s, r, s.standard[i], None))
  }

  /** The first mandarin reading, if it is a standard one. */
  ghost predicate IsCustomary(s: Sources, r: Reading) {
    s.mandarin != [] && s.mandarin[0] == r && r in s.standard
  }

  /** The standard does not single a reading out: what is customary is not the best attested. */
  ghost predicate IsOpen(s: Sources)
    requires s.Valid()
  {
    |s.standard| > 1 && forall r :: !(IsCustomary(s, r) && IsBest(s, r))
  }

  /** The decisive reading: the only standard one, or the customary one, or else the best attested. */
  ghost predicate IsDecisive(s: Sources, r: Reading)
    requires s.Valid()
  {
    if |s.standard| == 1 then s.standard[0] == r
    else if exists c :: IsCustomary(s, c) then IsCustomary(s, r)
    else IsBest(s, r)
  }

  /** The chosen first reading leads where the standard is open and lists it; otherwise the decisive one does, if any. */
  ghost predicate Leads(s: Sources, choice: seq<Reading>, lead: Option<Reading>)
    requires s.Valid()
  {
    if IsOpen(s) && choice != [] && choice[0] in s.standard then lead == Some(choice[0])
    else if s.standard == [] then lead == None
    else lead.Some? && IsDecisive(s, lead.value)
  }

  lemma {:induction false} LeastIsFirst(s: Sources, values: seq<Reading>) returns (k: nat)
    requires values != [] && AllKnown(s, values)
    ensures k < |values| && values[k] == Least(s, values)
    ensures forall i :: 0 <= i < |values| ==> LexLeq(SortKey(s, values[k], None), SortKey(s, values[i], None))
    ensures forall i :: 0 <= i < k ==> !LexLeq(SortKey(s, values[i], None), SortKey(s, values[k], None))
    decreases |values|
  {
    if |values| == 1 {
      k := 0;
      LexIsTotal(SortKey(s, values[0], None), SortKey(s, values[0], None));
    } else {
      var rest := LeastIsFirst(s, values[1..]);
      var first, least := SortKey(s, values[0], None), SortKey(s, values[1..][rest], None);
      LexIsTotal(first, least);
      LexIsTotal(first, first);
      if LexLeq(first, least) {
        k := 0;
        forall i | 0 < i < |values| ensures LexLeq(first, SortKey(s, values[i], None)) {
          assert values[i] == values[1..][i - 1];
          LexIsTransitive(first, least, SortKey(s, values[i], None));
        }
      } else {
        k := rest + 1;
        forall i | 0 < i < |values| ensures values[i] == values[1..][i - 1] {
        }
      }
    }
  }

  /** The best evidence is the described reading. */
  lemma BestIs(s: Sources, r: Reading)
    requires s.Valid() && IsBounded(s)
    ensures BestEvidence(s) == Some(r) <==> IsBest(s, r)
  {
    if s.standard != [] {
      var k := LeastIsFirst(s, s.standard);
      forall i | 0 <= i < |s.standard|
        ensures !ComesBefore(s, s.standard[i], s.standard[k], None)
        ensures i < k ==> ComesBefore(s, s.standard[k], s.standard[i], None)
      {
        ComesBeforeIs(s, s.standard[i], s.standard[k], None);
        ComesBeforeIs(s, s.standard[k], s.standard[i], None);
      }
      assert IsBest(s, s.standard[k]);
    }
  }

  /** The lead is the described one. */
  lemma LeadIs(s: Sources, choice: seq<Reading>)
    requires s.Valid() && IsBounded(s)
    ensures Unranked(s) <==> IsOpen(s)
    ensures Leads(s, choice, Lead(s, choice)) && Leads(s, [], Decisive(s))
  {
    forall r: Reading ensures BestEvidence(s) == Some(r) <==> IsBest(s, r) {
      BestIs(s, r);
    }
    forall r: Reading ensures Customary(s) == Some(r) <==> IsCustomary(s, r) {
    }
  }

  // ---- the final order ---------------------------------------------------------------------

  /** The choice names the same readings and puts none behind one it outranks. */
  ghost predicate IsAcceptable(s: Sources, choice: seq<Reading>, lead: Option<Reading>)
    requires s.Valid()
  {
    choice != [] && multiset(choice) == multiset(s.records) && AllKnown(s, choice) &&
    forall i :: 0 <= i < |choice| - 1 ==> !Outranks(s, choice[i + 1], choice[i], lead)
  }

  ghost predicate IsOrderUnder(s: Sources, choice: seq<Reading>, placed: seq<Reading>,
                               lead: Option<Reading>, decisive: Option<Reading>)
    requires s.Valid()
  {
    if IsAcceptable(s, choice, lead) then placed == choice else IsEvidenceOrder(s, placed, decisive)
  }

  /** An acceptable choice is the order; otherwise the evidence under the decisive reading gives it. */
  ghost predicate IsFinalOrder(s: Sources, choice: seq<Reading>, placed: seq<Reading>)
    requires s.Valid()
  {
    exists lead, decisive ::
      Leads(s, choice, lead) && Leads(s, [], decisive) && IsOrderUnder(s, choice, placed, lead, decisive)
  }

  lemma AcceptableIs(s: Sources, choice: seq<Reading>)
    requires s.Valid() && IsBounded(s)
    ensures Accepted(s, choice) <==> IsAcceptable(s, choice, Lead(s, choice))
  {
    var lead := Lead(s, choice);
    if AllKnown(s, choice) {
      forall i | 0 <= i < |choice| - 1
        ensures Outranks(s, choice[i + 1], choice[i], lead) <==>
                !LexLeq(Precedence(s, choice[i], lead), Precedence(s, choice[i + 1], lead))
      {
        OutranksIsStrict(s, choice[i], choice[i + 1], lead);
      }
    }
  }

  /** The order is the described one. */
  lemma PlacedIsFinal(s: Sources, choice: seq<Reading>)
    requires s.Valid() && IsBounded(s)
    ensures IsFinalOrder(s, choice, Placed(s, choice))
  {
    LeadIs(s, choice);
    PlacedUnder(s, choice);
  }

  lemma PlacedUnder(s: Sources, choice: seq<Reading>)
    requires s.Valid() && IsBounded(s)
    ensures IsOrderUnder(s, choice, Placed(s, choice), Lead(s, choice), Decisive(s))
  {
    NaturalIs(s);
    AcceptableIs(s, choice);
  }
}
