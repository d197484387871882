/** Least members and ascending enumeration of finite sets of numbers. */
module Ordering {

  lemma {:induction false} LeastExists(s: set<nat>, x: nat)
    requires x in s
    ensures exists z :: z in s && forall y :: y in s ==> z <= y
    decreases x
  {
    if y :| y in s && y < x {
      LeastExists(s, y);
    }
  }

  function Least(s: set<nat>): (x: nat)
    requires s != {}
    ensures x in s && forall y :: y in s ==> x <= y
  {
    assert exists x :: x in s;
    LeastExists(s, var x :| x in s; x);
    var x :| x in s && forall y :: y in s ==> x <= y;
    x
  }

  ghost predicate Increasing(q: seq<nat>) {
    forall i, j :: 0 <= i < j < |q| ==> q[i] < q[j]
  }

  /** The members of s in ascending order, each once. */
  function Ascending(s: set<nat>): (q: seq<nat>)
    ensures forall x :: x in q <==> x in s
    ensures Increasing(q)
  {
    if s == {} then [] else
      var x := Least(s);
      var rest := Ascending(s - {x});
      assert forall y :: y in s <==> y == x || y in s - {x};
      assert forall i :: 0 <= i < |rest| ==> rest[i] in s - {x};
      [x] + rest
  }
}
