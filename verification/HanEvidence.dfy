/**
  The evidence for a character's attested readings and the order it gives:
  sorted by an evidence key and then by source order, unless a reviewed choice
  is accepted.
*/
module HanEvidence {
  import opened Wrappers

  /** A reading; its spelling does not matter here. */
  type Reading = nat

  type Key = seq<int>

  const MAXSIZE := 0x7FFF_FFFF_FFFF_FFFF

  // ---- keys ------------------------------------------------------------------------

  /** Tuple comparison. */
  predicate LexLeq(a: Key, b: Key) {
    a == [] || (b != [] && (a[0] < b[0] || (a[0] == b[0] && LexLeq(a[1..], b[1..]))))
  }

  lemma {:induction false} LexIsTotal(a: Key, b: Key)
    ensures LexLeq(a, b) || LexLeq(b, a)
  {
    if a != [] && b != [] && a[0] == b[0] {
      LexIsTotal(a[1..], b[1..]);
    }
  }

  lemma {:induction false} LexIsTransitive(a: Key, b: Key, c: Key)
    requires LexLeq(a, b) && LexLeq(b, c)
    ensures LexLeq(a, c)
  {
    if a != [] && a[0] == b[0] == c[0] {
      LexIsTransitive(a[1..], b[1..], c[1..]);
    }
  }

  lemma {:induction false} LexIsAntisymmetric(a: Key, b: Key)
    requires LexLeq(a, b) && LexLeq(b, a)
    ensures a == b
  {
    if a != [] {
      LexIsAntisymmetric(a[1..], b[1..]);
      assert a == [a[0]] + a[1..] && b == [b[0]] + b[1..];
    }
  }

  /** The leading part of a key decides first. */
  lemma {:induction false} LexOfPrefix(a: Key, b: Key, restA: Key, restB: Key)
    requires |a| == |b| && LexLeq(a + restA, b + restB)
    ensures LexLeq(a, b)
    ensures a == b ==> LexLeq(restA, restB)
  {
    if a == [] {
      assert a + restA == restA && b + restB == restB;
    } else {
      assert (a + restA)[1..] == a[1..] + restA && (b + restB)[1..] == b[1..] + restB;
      if a[0] == b[0] {
        LexOfPrefix(a[1..], b[1..], restA, restB);
        assert a == b ==> a[1..] == b[1..];
      }
    }
  }

  // ---- the evidence ------------------------------------------------------------------

  datatype Evidence = Evidence(lineages: nat, predicted: bool, mainland: bool, model: int)

  /** What the references say about one character; records are its attested readings in listing order. */
  datatype Sources = Sources(records: seq<Reading>, evidence: map<Reading, Evidence>, mandarin: seq<Reading>,
                             standard: seq<Reading>, orders: seq<map<Reading, int>>,
                             cnsOnly: bool, classDefault: bool)
  {
    ghost predicate Valid() {
      (forall i, j :: 0 <= i < j < |records| ==> records[i] != records[j]) &&
      (forall r :: r in records ==> r in evidence) &&
      (forall r :: r in standard ==> r in records)
    }
  }

  function IndexIn(list: seq<Reading>, value: Reading): int {
    if list == [] then MAXSIZE
    else if list[0] == value then 0
    else
      var rest := IndexIn(list[1..], value);
      if rest == MAXSIZE then MAXSIZE else rest + 1
  }

  function Precedence(s: Sources, value: Reading, decisive: Option<Reading>): Key
    requires value in s.evidence
  {
    var e := s.evidence[value];
    [if decisive == Some(value) then 0 else 1,
     if e.mainland then 0 else 1,
     if e.lineages == 2 then 0 else if e.predicted then 1 else 2,
     IndexIn(s.mandarin, value),
     e.model]
  }

  function OrderOf(order: map<Reading, int>, value: Reading): int {
    if value in order then order[value] else MAXSIZE
  }

  function SourceKey(orders: seq<map<Reading, int>>, value: Reading): Key {
    if orders == [] then [] else [OrderOf(orders[0], value)] + SourceKey(orders[1..], value)
  }

  function SortKey(s: Sources, value: Reading, decisive: Option<Reading>): Key
    requires value in s.evidence
  {
    Precedence(s, value, decisive) + SourceKey(s.orders, value)
  }

  // ---- sorting -------------------------------------------------------------------------

  predicate AllKnown(s: Sources, values: seq<Reading>) {
    forall i :: 0 <= i < |values| ==> values[i] in s.evidence
  }

  predicate Sorted(s: Sources, values: seq<Reading>, decisive: Option<Reading>)
    requires AllKnown(s, values)
  {
    forall i, j :: 0 <= i <= j < |values| ==>
      LexLeq(Precedence(s, values[i], decisive), Precedence(s, values[j], decisive))
  }

  predicate FullySorted(s: Sources, values: seq<Reading>, decisive: Option<Reading>)
    requires AllKnown(s, values)
  {
    forall i, j :: 0 <= i <= j < |values| ==> LexLeq(SortKey(s, values[i], decisive), SortKey(s, values[j], decisive))
  }

  /** Stable insertion: before the first value that does not come first. */
  function Insert(s: Sources, value: Reading, values: seq<Reading>, decisive: Option<Reading>): (r: seq<Reading>)
    requires value in s.evidence && AllKnown(s, values)
    ensures multiset(r) == multiset([value]) + multiset(values)
    ensures AllKnown(s, r)
  {
    if values == [] then [value]
    else if LexLeq(SortKey(s, value, decisive), SortKey(s, values[0], decisive)) then [value] + values
    else
      assert values == [values[0]] + values[1..];
      [values[0]] + Insert(s, value, values[1..], decisive)
  }

  function Sort(s: Sources, values: seq<Reading>, decisive: Option<Reading>): (r: seq<Reading>)
    requires AllKnown(s, values)
    ensures multiset(r) == multiset(values) && AllKnown(s, r)
  {
    if values == [] then []
    else
      assert values == [values[0]] + values[1..];
      Insert(s, values[0], Sort(s, values[1..], decisive), decisive)
  }

  /** Putting a least value in front keeps the order. */
  lemma PrependKeepsSorted(s: Sources, value: Reading, values: seq<Reading>, decisive: Option<Reading>)
    requires value in s.evidence && AllKnown(s, values) && FullySorted(s, values, decisive)
    requires forall j :: 0 <= j < |values| ==> LexLeq(SortKey(s, value, decisive), SortKey(s, values[j], decisive))
    ensures FullySorted(s, [value] + values, decisive)
  {
    LexIsTotal(SortKey(s, value, decisive), SortKey(s, value, decisive));
  }

  lemma {:induction false} InsertKeepsSorted(s: Sources, value: Reading, values: seq<Reading>, decisive: Option<Reading>)
    requires value in s.evidence && AllKnown(s, values) && FullySorted(s, values, decisive)
    ensures FullySorted(s, Insert(s, value, values, decisive), decisive)
  {
    var key := SortKey(s, value, decisive);
    if values == [] {
      PrependKeepsSorted(s, value, [], decisive);
      assert [value] + [] == [value];
    } else {
      var first := SortKey(s, values[0], decisive);
      LexIsTotal(key, first);
      if LexLeq(key, first) {
        forall j | 0 <= j < |values| ensures LexLeq(key, SortKey(s, values[j], decisive)) {
          LexIsTransitive(key, first, SortKey(s, values[j], decisive));
        }
        PrependKeepsSorted(s, value, values, decisive);
      } else {
        var rest := Insert(s, value, values[1..], decisive);
        InsertKeepsSorted(s, value, values[1..], decisive);
        forall j | 0 <= j < |rest| ensures LexLeq(first, SortKey(s, rest[j], decisive)) {
          assert rest[j] in multiset(rest);
        }
        PrependKeepsSorted(s, values[0], rest, decisive);
      }
    }
  }

  lemma {:induction false} SortSorts(s: Sources, values: seq<Reading>, decisive: Option<Reading>)
    requires AllKnown(s, values)
    ensures FullySorted(s, Sort(s, values, decisive), decisive)
  {
    if values != [] {
      SortSorts(s, values[1..], decisive);
      InsertKeepsSorted(s, values[0], Sort(s, values[1..], decisive), decisive);
    }
  }

  // ---- the leading reading and the choice -----------------------------------------------

  /** The first least of the values, as min() picks it. */
  function Least(s: Sources, values: seq<Reading>): (r: Reading)
    requires values != [] && AllKnown(s, values)
    ensures r in values
  {
    if |values| == 1 then values[0]
    else
      var rest := Least(s, values[1..]);
      if LexLeq(SortKey(s, values[0], None), SortKey(s, rest, None)) then values[0] else rest
  }

  function Customary(s: Sources): Option<Reading> {
    if s.mandarin != [] && s.mandarin[0] in s.standard then Some(s.mandarin[0]) else None
  }

  function BestEvidence(s: Sources): Option<Reading>
    requires s.Valid()
  {
    if s.standard == [] then None else Some(Least(s, s.standard))
  }

  function Decisive(s: Sources): Option<Reading>
    requires s.Valid()
  {
    if |s.standard| == 1 then Some(s.standard[0])
    else if Customary(s).Some? then Customary(s)
    else BestEvidence(s)
  }

  predicate Unranked(s: Sources)
    requires s.Valid()
  {
    |s.standard| > 1 && Customary(s) != BestEvidence(s)
  }

  function Lead(s: Sources, choice: seq<Reading>): Option<Reading>
    requires s.Valid()
  {
    if Unranked(s) && choice != [] && choice[0] in s.standard then Some(choice[0]) else Decisive(s)
  }

  function Natural(s: Sources): (r: seq<Reading>)
    requires s.Valid()
    ensures multiset(r) == multiset(s.records) && AllKnown(s, r)
  {
    Sort(s, s.records, Decisive(s))
  }

  /** The same readings, each no later in precedence than the next; an empty choice is no choice. */
  predicate Accepted(s: Sources, choice: seq<Reading>)
    requires s.Valid()
  {
    choice != [] && multiset(choice) == multiset(s.records) && InOrder(s, choice, Lead(s, choice))
  }

  predicate InOrder(s: Sources, values: seq<Reading>, lead: Option<Reading>) {
    AllKnown(s, values) &&
    forall i :: 0 <= i < |values| - 1 ==> LexLeq(Precedence(s, values[i], lead), Precedence(s, values[i + 1], lead))
  }

  lemma {:induction false} InOrderIsSorted(s: Sources, values: seq<Reading>, lead: Option<Reading>, i: nat, j: nat)
    requires InOrder(s, values, lead) && i <= j < |values|
    ensures LexLeq(Precedence(s, values[i], lead), Precedence(s, values[j], lead))
    decreases j
  {
    if i == j {
      LexIsTotal(Precedence(s, values[i], lead), Precedence(s, values[i], lead));
    } else {
      InOrderIsSorted(s, values, lead, i, j - 1);
      LexIsTransitive(Precedence(s, values[i], lead), Precedence(s, values[j - 1], lead), Precedence(s, values[j], lead));
    }
  }

  function Placed(s: Sources, choice: seq<Reading>): (r: seq<Reading>)
    requires s.Valid()
    ensures multiset(r) == multiset(s.records) && AllKnown(s, r)
  {
    if Accepted(s, choice) then choice else Natural(s)
  }

  /** The key the final order follows: that of the choice's lead when it is accepted. */
  function Follows(s: Sources, choice: seq<Reading>): Option<Reading>
    requires s.Valid()
  {
    if Accepted(s, choice) then Lead(s, choice) else Decisive(s)
  }

  /** The final order is sorted by precedence. */
  lemma PlacedIsSorted(s: Sources, choice: seq<Reading>)
    requires s.Valid()
    ensures Sorted(s, Placed(s, choice), Follows(s, choice))
  {
    var placed, lead := Placed(s, choice), Follows(s, choice);
    if !Accepted(s, choice) {
      SortSorts(s, s.records, lead);
    }
    forall i, j | 0 <= i <= j < |placed|
      ensures LexLeq(Precedence(s, placed[i], lead), Precedence(s, placed[j], lead))
    {
      if Accepted(s, choice) {
        InOrderIsSorted(s, placed, lead, i, j);
      } else {
        LexOfPrefix(Precedence(s, placed[i], lead), Precedence(s, placed[j], lead),
                    SourceKey(s.orders, placed[i]), SourceKey(s.orders, placed[j]));
      }
    }
  }
}
