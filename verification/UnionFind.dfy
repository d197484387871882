/** Disjoint sets in a parent array, with union by rank and path compression. */
module UnionFind {

  /** Every parent pointer leads to a higher rank, so every chain ends. */
  predicate WellRanked(parent: seq<nat>, rank: seq<nat>) {
    |parent| == |rank| &&
    forall i :: 0 <= i < |parent| ==> parent[i] < |parent| && (parent[i] != i ==> rank[i] < rank[parent[i]])
  }

  function Highest(rank: seq<nat>): (h: nat)
    ensures forall i :: 0 <= i < |rank| ==> rank[i] <= h
  {
    if rank == [] then 0 else
      var rest := Highest(rank[..|rank| - 1]);
      if rank[|rank| - 1] > rest then rank[|rank| - 1] else rest
  }

  /** The end of the chain. */
  ghost function Root(parent: seq<nat>, rank: seq<nat>, i: nat): (r: nat)
    requires WellRanked(parent, rank) && i < |parent|
    ensures r < |parent| && parent[r] == r && rank[i] <= rank[r] && (r != i ==> rank[i] < rank[r])
    decreases Highest(rank) - rank[i]
  {
    if parent[i] == i then i else Root(parent, rank, parent[i])
  }

  /** Pointing an element straight at its root moves no root. */
  lemma {:induction false} CompressionKeeps(parent: seq<nat>, rank: seq<nat>, v: nat, i: nat)
    requires WellRanked(parent, rank) && v < |parent| && i < |parent|
    ensures var shorter := parent[v := Root(parent, rank, v)];
            WellRanked(shorter, rank) && Root(shorter, rank, i) == Root(parent, rank, i)
    decreases Highest(rank) - rank[i]
  {
    var root := Root(parent, rank, v);
    var shorter := parent[v := root];
    assert WellRanked(shorter, rank);
    if i == v {
      assert Root(shorter, rank, root) == root;
    } else if parent[i] != i {
      CompressionKeeps(parent, rank, v, parent[i]);
    }
  }

  /** Hanging one root below another merges their sets and no others. */
  lemma {:induction false} LinkMerges(parent: seq<nat>, rank: seq<nat>, loser: nat, winner: nat, ranks: seq<nat>, i: nat)
    requires WellRanked(parent, rank) && loser < |parent| && winner < |parent| && i < |parent| && loser != winner
    requires parent[loser] == loser && parent[winner] == winner && rank[loser] <= rank[winner]
    requires ranks == if rank[loser] == rank[winner] then rank[winner := rank[winner] + 1] else rank
    ensures WellRanked(parent[loser := winner], ranks)
    ensures Root(parent[loser := winner], ranks, i) ==
            if Root(parent, rank, i) == loser then winner else Root(parent, rank, i)
    decreases Highest(rank) - rank[i]
  {
    var linked := parent[loser := winner];
    assert WellRanked(linked, ranks);
    if i == loser {
      assert Root(linked, ranks, winner) == winner;
    } else if parent[i] != i {
      LinkMerges(parent, rank, loser, winner, ranks, parent[i]);
    }
  }

  /** The same sets, with the same roots. */
  ghost predicate SameRoots(parent: seq<nat>, shorter: seq<nat>, rank: seq<nat>) {
    |parent| == |shorter| && WellRanked(parent, rank) && WellRanked(shorter, rank) &&
    forall i :: 0 <= i < |parent| ==> Root(shorter, rank, i) == Root(parent, rank, i)
  }

  lemma Compressed(parent: seq<nat>, between: seq<nat>, rank: seq<nat>, v: nat)
    requires SameRoots(parent, between, rank) && v < |parent|
    ensures SameRoots(parent, between[v := Root(parent, rank, v)], rank)
  {
    CompressionKeeps(between, rank, v, v);
    forall i | 0 <= i < |parent|
      ensures Root(between[v := Root(parent, rank, v)], rank, i) == Root(parent, rank, i)
    {
      CompressionKeeps(between, rank, v, i);
    }
  }

  ghost predicate Together(parent: seq<nat>, rank: seq<nat>, i: nat, j: nat)
    requires WellRanked(parent, rank) && i < |parent| && j < |parent|
  {
    Root(parent, rank, i) == Root(parent, rank, j)
  }

  /** The sets of a and b are one set now; the others are as they were. */
  ghost predicate Merged(parent: seq<nat>, rank: seq<nat>, a: nat, b: nat, linked: seq<nat>, ranks: seq<nat>) {
    |parent| == |linked| && WellRanked(parent, rank) && WellRanked(linked, ranks) &&
    a < |parent| && b < |parent| &&
    forall i, j :: 0 <= i < |parent| && 0 <= j < |parent| ==>
      (Together(linked, ranks, i, j) <==>
       Together(parent, rank, i, j) ||
       (Together(parent, rank, i, a) && Together(parent, rank, j, b)) ||
       (Together(parent, rank, i, b) && Together(parent, rank, j, a)))
  }

  /** Everything below the loser is below the winner now. */
  ghost predicate Hung(parent: seq<nat>, rank: seq<nat>, loser: nat, winner: nat, linked: seq<nat>, ranks: seq<nat>) {
    |parent| == |linked| && WellRanked(parent, rank) && WellRanked(linked, ranks) &&
    forall i :: 0 <= i < |parent| ==>
      Root(linked, ranks, i) == if Root(parent, rank, i) == loser then winner else Root(parent, rank, i)
  }

  lemma LinkHangs(parent: seq<nat>, between: seq<nat>, rank: seq<nat>, loser: nat, winner: nat, ranks: seq<nat>)
    requires SameRoots(parent, between, rank) && loser < |parent| && winner < |parent| && loser != winner
    requires between[loser] == loser && between[winner] == winner && rank[loser] <= rank[winner]
    requires ranks == if rank[loser] == rank[winner] then rank[winner := rank[winner] + 1] else rank
    ensures Hung(parent, rank, loser, winner, between[loser := winner], ranks)
  {
    LinkMerges(between, rank, loser, winner, ranks, loser);
    forall i | 0 <= i < |parent|
      ensures Root(between[loser := winner], ranks, i) ==
              if Root(parent, rank, i) == loser then winner else Root(parent, rank, i)
    {
      LinkMerges(between, rank, loser, winner, ranks, i);
    }
  }

  lemma HungIsMerge(parent: seq<nat>, rank: seq<nat>, a: nat, b: nat, loser: nat, winner: nat,
                    linked: seq<nat>, ranks: seq<nat>)
    requires Hung(parent, rank, loser, winner, linked, ranks) && a < |parent| && b < |parent|
    requires (loser == Root(parent, rank, a) && winner == Root(parent, rank, b)) ||
             (loser == Root(parent, rank, b) && winner == Root(parent, rank, a))
    ensures Merged(parent, rank, a, b, linked, ranks)
  {
  }

  lemma RootIsFixed(parent: seq<nat>, rank: seq<nat>, i: nat)
    requires WellRanked(parent, rank) && i < |parent|
    ensures var r := Root(parent, rank, i); parent[r] == r
  {
  }

  class UnionFind {
    var parent: seq<nat>
    var rank: seq<nat>

    predicate Valid()
      reads this
    {
      WellRanked(parent, rank)
    }

    /** Every element alone. */
    constructor (size: nat)
      ensures Valid() && |parent| == size && forall i :: 0 <= i < size ==> Root(parent, rank, i) == i
    {
      parent := seq(size, i requires 0 <= i < size => i);
      rank := seq(size, i => 0);
    }

    /** The root, with every pointer on the way shortened; nothing changes its root. */
    method Find(value: nat) returns (root: nat)
      requires Valid() && value < |parent|
      modifies this`parent
      ensures Valid() && root == Root(old(parent), rank, value)
      ensures SameRoots(old(parent), parent, rank)
      decreases Highest(rank) - rank[value]
    {
      if parent[value] != value {
        var found := Find(parent[value]);
        Compressed(old(parent), parent, rank, value);
        parent := parent[value := found];
      }
      root := parent[value];
    }

    /** Merges the sets of two elements, and nothing else. */
    method Unite(left: nat, right: nat)
      requires Valid() && left < |parent| && right < |parent|
      modifies this
      ensures Valid() && Merged(old(parent), old(rank), left, right, parent, rank)
    {
      var leftRoot := Find(left);
      ghost var between := parent;
      var rightRoot := Find(right);
      RootsCompose(old(parent), between, parent, rank);
      if leftRoot == rightRoot {
        SameIsMerged(old(parent), parent, rank, left, right);
        return;
      }
      if rank[leftRoot] < rank[rightRoot] {
        leftRoot, rightRoot := rightRoot, leftRoot;
      }
      ghost var parents, ranks := parent, rank;
      RootIsFixed(parents, ranks, left);
      RootIsFixed(parents, ranks, right);
      parent := parent[rightRoot := leftRoot];
      if rank[leftRoot] == rank[rightRoot] {
        rank := rank[leftRoot := rank[leftRoot] + 1];
      }
      LinkHangs(old(parent), parents, ranks, rightRoot, leftRoot, rank);
      HungIsMerge(old(parent), ranks, left, right, rightRoot, leftRoot, parent, rank);
    }
  }

  lemma RootsCompose(parent: seq<nat>, between: seq<nat>, shorter: seq<nat>, rank: seq<nat>)
    requires SameRoots(parent, between, rank) && SameRoots(between, shorter, rank)
    ensures SameRoots(parent, shorter, rank)
  {
    forall i | 0 <= i < |parent| ensures Root(shorter, rank, i) == Root(parent, rank, i) {
      assert Root(between, rank, i) == Root(parent, rank, i);
    }
  }

  lemma SameIsMerged(parent: seq<nat>, shorter: seq<nat>, rank: seq<nat>, a: nat, b: nat)
    requires SameRoots(parent, shorter, rank) && a < |parent| && b < |parent| && Together(parent, rank, a, b)
    ensures Merged(parent, rank, a, b, shorter, rank)
  {
  }
}
