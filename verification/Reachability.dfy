/** Walks along a step relation, and what they reach. */
module Reachability {

  ghost predicate Walk<T(!new)>(step: (T, T) -> bool, w: seq<T>) {
    |w| > 0 && forall i :: 0 <= i < |w| - 1 ==> step(w[i], w[i + 1])
  }

  ghost predicate WalkBetween<T(!new)>(step: (T, T) -> bool, w: seq<T>, a: T, b: T) {
    Walk(step, w) && w[0] == a && w[|w| - 1] == b
  }

  ghost predicate Reaches<T(!new)>(step: (T, T) -> bool, a: T, b: T) {
    exists w :: WalkBetween(step, w, a, b)
  }

  lemma ReachesSelf<T(!new)>(step: (T, T) -> bool, a: T)
    ensures Reaches(step, a, a)
  {
    assert WalkBetween(step, [a], a, a);
  }

  lemma WalkFurther<T(!new)>(step: (T, T) -> bool, w: seq<T>, a: T, b: T, c: T)
    requires WalkBetween(step, w, a, b) && step(b, c)
    ensures WalkBetween(step, w + [c], a, c)
  {
    var longer := w + [c];
    forall i | 0 <= i < |longer| - 1 ensures step(longer[i], longer[i + 1]) {
      if i < |w| - 1 {
        assert step(w[i], w[i + 1]);
      }
    }
  }

  lemma ReachesFurther<T(!new)>(step: (T, T) -> bool, a: T, b: T, c: T)
    requires Reaches(step, a, b) && step(b, c)
    ensures Reaches(step, a, c)
  {
    var w :| WalkBetween(step, w, a, b);
    WalkFurther(step, w, a, b, c);
  }

  /** A set that no step leaves holds everything reached from inside it. */
  lemma {:induction false} ClosedHolds<T(!new)>(step: (T, T) -> bool, s: set<T>, w: seq<T>)
    requires Walk(step, w) && w[0] in s
    requires forall x, y :: x in s && step(x, y) ==> y in s
    ensures w[|w| - 1] in s
    decreases |w|
  {
    if |w| > 1 {
      assert step(w[0], w[1]);
      ClosedHolds(step, s, w[1..]);
    }
  }

  lemma ReachedIsInside<T(!new)>(step: (T, T) -> bool, s: set<T>, a: T, b: T)
    requires Reaches(step, a, b) && a in s
    requires forall x, y :: x in s && step(x, y) ==> y in s
    ensures b in s
  {
    var w :| WalkBetween(step, w, a, b);
    ClosedHolds(step, s, w);
  }

  lemma {:induction false} ReachesAlong<T(!new)>(step: (T, T) -> bool, a: T, b: T, w: seq<T>)
    requires Reaches(step, a, b) && Walk(step, w) && w[0] == b
    ensures Reaches(step, a, w[|w| - 1])
    decreases |w|
  {
    if |w| > 1 {
      var shorter := w[..|w| - 1];
      forall i | 0 <= i < |shorter| - 1 ensures step(shorter[i], shorter[i + 1]) {
        assert step(w[i], w[i + 1]);
      }
      ReachesAlong(step, a, b, shorter);
      assert step(w[|w| - 2], w[|w| - 1]);
      ReachesFurther(step, a, w[|w| - 2], w[|w| - 1]);
    }
  }

  lemma ReachesTransitive<T(!new)>(step: (T, T) -> bool, a: T, b: T, c: T)
    requires Reaches(step, a, b) && Reaches(step, b, c)
    ensures Reaches(step, a, c)
  {
    var w :| WalkBetween(step, w, b, c);
    ReachesAlong(step, a, b, w);
  }

  lemma ReachesSymmetric<T(!new)>(step: (T, T) -> bool, a: T, b: T)
    requires Reaches(step, a, b) && forall x, y :: step(x, y) ==> step(y, x)
    ensures Reaches(step, b, a)
  {
    var w :| WalkBetween(step, w, a, b);
    var back := seq(|w|, i requires 0 <= i < |w| => w[|w| - 1 - i]);
    forall i | 0 <= i < |back| - 1 ensures step(back[i], back[i + 1]) {
      var k := |w| - 2 - i;
      assert step(w[k], w[k + 1]);
    }
    assert WalkBetween(step, back, b, a);
  }
}
