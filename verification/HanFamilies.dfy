/**
  Variant families: a graph of labelled relations between ideographs, its
  connected components, the target of each component, and the relation path
  recorded for each member.
*/
module HanFamilies {
  import opened Wrappers
  import opened HanChains
  import opened Ordering
  import opened Reachability

  datatype Relation = Relation(from: Ideograph, to: Ideograph, tag: string)

  type Graph = map<Ideograph, map<Ideograph, set<string>>>

  // ---- the graph -------------------------------------------------------------

  function Neighbours(graph: Graph, ch: Ideograph): map<Ideograph, set<string>> {
    if ch in graph then graph[ch] else map[]
  }

  function Labels(graph: Graph, a: Ideograph, b: Ideograph): set<string> {
    if b in Neighbours(graph, a) then Neighbours(graph, a)[b] else {}
  }

  ghost function Adjacent(graph: Graph): (Ideograph, Ideograph) -> bool {
    (a: Ideograph, b: Ideograph) => b in Neighbours(graph, a)
  }

  ghost predicate Undirected(graph: Graph) {
    forall a, b :: b in Neighbours(graph, a) ==> a in Neighbours(graph, b)
  }

  /** The relation links a and b, in either direction. */
  ghost predicate Links(r: Relation, a: Ideograph, b: Ideograph) {
    (r.from == a && r.to == b) || (r.from == b && r.to == a)
  }

  function AddLabel(graph: Graph, a: Ideograph, b: Ideograph, tag: string): Graph {
    graph[a := Neighbours(graph, a)[b := Labels(graph, a, b) + {tag}]]
  }

  const SIMPLIFYING_LABELS := {"unihan:kSimplifiedVariant", "opencc:TSCharacters"}

  ghost predicate Related(relations: seq<Relation>, a: Ideograph, b: Ideograph) {
    exists r :: r in relations && Links(r, a, b)
  }

  ghost predicate RelatedBy(relations: seq<Relation>, a: Ideograph, b: Ideograph, tag: string) {
    exists r :: r in relations && Links(r, a, b) && r.tag == tag
  }

  ghost predicate NamedSimplified(relations: seq<Relation>, ch: Ideograph) {
    exists r :: r in relations && r.to == ch && r.tag in SIMPLIFYING_LABELS
  }

  /** The graph joins exactly the related ideographs, with exactly their labels. */
  ghost predicate Describes(graph: Graph, relations: seq<Relation>) {
    (forall a, b :: b in Neighbours(graph, a) <==> Related(relations, a, b)) &&
    (forall a, b, tag :: tag in Labels(graph, a, b) <==> RelatedBy(relations, a, b, tag)) &&
    forall ch :: ch in graph ==> graph[ch] != map[]
  }

  function AddEdge(graph: Graph, r: Relation): Graph {
    AddLabel(AddLabel(graph, r.from, r.to, r.tag), r.to, r.from, r.tag)
  }

  lemma AddEdgeTouches(graph: Graph, r: Relation)
    ensures forall a, b :: b in Neighbours(AddEdge(graph, r), a) <==> b in Neighbours(graph, a) || Links(r, a, b)
    ensures forall a, b :: Labels(AddEdge(graph, r), a, b) ==
              Labels(graph, a, b) + if Links(r, a, b) then {r.tag} else {}
  {
  }

  lemma RelatedMore(relations: seq<Relation>, r: Relation, a: Ideograph, b: Ideograph)
    ensures Related(relations + [r], a, b) <==> Related(relations, a, b) || Links(r, a, b)
    ensures forall tag :: RelatedBy(relations + [r], a, b, tag) <==>
              RelatedBy(relations, a, b, tag) || (Links(r, a, b) && tag == r.tag)
  {
    var more := relations + [r];
    assert r in more;
    assert forall q :: q in more <==> q in relations || q == r;
  }

  lemma EdgeAdded(graph: Graph, relations: seq<Relation>, r: Relation)
    requires Describes(graph, relations)
    ensures Describes(AddEdge(graph, r), relations + [r])
  {
    AddEdgeTouches(graph, r);
    forall a, b
      ensures b in Neighbours(AddEdge(graph, r), a) <==> Related(relations + [r], a, b)
      ensures forall tag :: tag in Labels(AddEdge(graph, r), a, b) <==> RelatedBy(relations + [r], a, b, tag)
    {
      RelatedMore(relations, r, a, b);
    }
  }

  /** Builds the graph and the set of ideographs some relation names as simplified. */
  method BuildGraph(relations: seq<Relation>) returns (graph: Graph, simplified: set<Ideograph>)
    ensures Describes(graph, relations) && Undirected(graph)
    ensures forall ch :: ch in simplified <==> NamedSimplified(relations, ch)
  {
    graph, simplified := map[], {};
    for i := 0 to |relations|
      invariant Describes(graph, relations[..i])
      invariant forall ch :: ch in simplified <==> NamedSimplified(relations[..i], ch)
    {
      var r := relations[i];
      ghost var more := relations[..i + 1];
      assert more == relations[..i] + [r];
      EdgeAdded(graph, relations[..i], r);
      graph := AddEdge(graph, r);
      forall ch ensures NamedSimplified(more, ch) <==>
                        NamedSimplified(relations[..i], ch) || (r.to == ch && r.tag in SIMPLIFYING_LABELS) {
        assert r in more;
        if NamedSimplified(relations[..i], ch) {
          var q :| q in relations[..i] && q.to == ch && q.tag in SIMPLIFYING_LABELS;
          assert q in more;
        }
      }
      if r.tag in SIMPLIFYING_LABELS {
        simplified := simplified + {r.to};
      }
    }
    assert relations[..|relations|] == relations;
    forall a, b | b in Neighbours(graph, a) ensures a in Neighbours(graph, b) {
      assert Related(relations, a, b);
      var r :| r in relations && Links(r, a, b);
      assert Links(r, b, a);
    }
  }

  // ---- components ------------------------------------------------------------

  /** Everything reached from ch. */
  ghost function ComponentOf(graph: Graph, ch: Ideograph): (component: set<Ideograph>)
    ensures forall x :: x in component <==> x in graph && Reaches(Adjacent(graph), ch, x)
  {
    set x | x in graph && Reaches(Adjacent(graph), ch, x)
  }

  lemma InOwnComponent(graph: Graph, ch: Ideograph)
    requires ch in graph
    ensures ch in ComponentOf(graph, ch)
  {
    ReachesSelf(Adjacent(graph), ch);
  }

  lemma ComponentShared(graph: Graph, a: Ideograph, b: Ideograph)
    requires Undirected(graph) && b in ComponentOf(graph, a)
    ensures ComponentOf(graph, b) == ComponentOf(graph, a)
  {
    var step := Adjacent(graph);
    forall x, y | step(x, y) ensures step(y, x) {
      assert y in Neighbours(graph, x);
    }
    ReachesSymmetric(step, a, b);
    forall x | x in graph ensures x in ComponentOf(graph, a) <==> x in ComponentOf(graph, b) {
      if x in ComponentOf(graph, a) {
        ReachesTransitive(step, b, a, x);
      }
      if x in ComponentOf(graph, b) {
        ReachesTransitive(step, a, b, x);
      }
    }
  }

  /** A set that holds start, only what start reaches, and is closed, is its component. */
  lemma ClosedIsComponent(graph: Graph, start: Ideograph, s: set<Ideograph>)
    requires start in s && s <= graph.Keys
    requires forall x :: x in s ==> Reaches(Adjacent(graph), start, x)
    requires forall x, y :: x in s && y in Neighbours(graph, x) ==> y in s
    ensures s == ComponentOf(graph, start)
  {
    forall x | x in ComponentOf(graph, start) ensures x in s {
      ReachedIsInside(Adjacent(graph), s, start, x);
    }
  }

  /** The stack search of one component. */
  method Component(graph: Graph, start: Ideograph) returns (component: set<Ideograph>)
    requires start in graph && Undirected(graph)
    ensures component == ComponentOf(graph, start)
  {
    ghost var step := Adjacent(graph);
    component := {};
    var queue := [start];
    ReachesSelf(step, start);
    while queue != []
      invariant component <= graph.Keys
      invariant start in component || start in queue
      invariant forall x :: x in component || x in queue ==> x in graph && Reaches(step, start, x)
      invariant forall x, y :: x in component && y in Neighbours(graph, x) ==> y in component || y in queue
      decreases graph.Keys - component, |queue|
    {
      var ch := queue[|queue| - 1];
      assert ch in queue;
      ghost var before := queue;
      queue := queue[..|queue| - 1];
      assert before == queue + [ch];
      if ch !in component {
        var next := Ascending(graph[ch].Keys);
        forall y | y in next ensures y in graph && Reaches(step, start, y) {
          assert y in Neighbours(graph, ch);
          assert ch in Neighbours(graph, y);
          ReachesFurther(step, start, ch, y);
        }
        component := component + {ch};
        queue := queue + next;
      }
    }
    ClosedIsComponent(graph, start, component);
  }

  ghost predicate IsComponent(graph: Graph, component: set<Ideograph>) {
    component != {} && component == ComponentOf(graph, Least(component))
  }

  ghost predicate Covers(components: seq<set<Ideograph>>, ch: Ideograph) {
    exists i :: 0 <= i < |components| && ch in components[i]
  }

  ghost predicate InOrder(components: seq<set<Ideograph>>) {
    (forall i :: 0 <= i < |components| ==> components[i] != {}) &&
    forall i, j :: 0 <= i < j < |components| ==>
      components[i] !! components[j] && Least(components[i]) < Least(components[j])
  }

  /** The components found so far, and what they cover. */
  ghost predicate Found(graph: Graph, components: seq<set<Ideograph>>, visited: set<Ideograph>) {
    visited <= graph.Keys && InOrder(components) &&
    (forall i :: 0 <= i < |components| ==> IsComponent(graph, components[i])) &&
    forall ch :: ch in visited <==> Covers(components, ch)
  }

  /** The component of an unvisited ideograph holds nothing visited. */
  lemma UnvisitedComponent(graph: Graph, components: seq<set<Ideograph>>, visited: set<Ideograph>,
                           start: Ideograph, x: Ideograph)
    requires Undirected(graph) && Found(graph, components, visited)
    requires start in graph && start !in visited && x in ComponentOf(graph, start)
    ensures x !in visited
  {
    if x in visited {
      var i :| 0 <= i < |components| && x in components[i];
      assert IsComponent(graph, components[i]);
      ComponentShared(graph, start, x);
      ComponentShared(graph, Least(components[i]), x);
      ReachesSelf(Adjacent(graph), start);
    }
  }

  lemma CoversMore(components: seq<set<Ideograph>>, component: set<Ideograph>, ch: Ideograph)
    ensures Covers(components + [component], ch) <==> Covers(components, ch) || ch in component
  {
    var more := components + [component];
    if ch in component {
      assert ch in more[|components|];
    }
    if i :| 0 <= i < |components| && ch in components[i] {
      assert ch in more[i];
    }
  }

  /** The least ideograph not visited yet. */
  predicate IsNextStart(graph: Graph, visited: set<Ideograph>, start: Ideograph) {
    graph.Keys - visited != {} && start == Least(graph.Keys - visited)
  }

  lemma NextStart(graph: Graph, visited: set<Ideograph>, start: Ideograph)
    requires start in graph && start !in visited && forall x :: x in graph && x < start ==> x in visited
    ensures IsNextStart(graph, visited, start)
  {
    assert start in graph.Keys - visited;
  }

  /** The component of the least unvisited ideograph is new, and that ideograph is its least. */
  lemma ComponentIsNew(graph: Graph, components: seq<set<Ideograph>>, visited: set<Ideograph>,
                       start: Ideograph, component: set<Ideograph>)
    requires Undirected(graph) && Found(graph, components, visited)
    requires IsNextStart(graph, visited, start) && component == ComponentOf(graph, start)
    ensures component != {} && Least(component) == start && component !! visited && component <= graph.Keys
  {
    ReachesSelf(Adjacent(graph), start);
    forall x | x in component ensures x !in visited && start <= x {
      UnvisitedComponent(graph, components, visited, start, x);
      assert x in graph.Keys - visited;
    }
    assert Least(component) == start;
  }

  lemma InOrderMore(graph: Graph, components: seq<set<Ideograph>>, visited: set<Ideograph>, component: set<Ideograph>)
    requires Found(graph, components, visited) && component != {} && component !! visited
    requires forall i :: 0 <= i < |components| ==> Least(components[i]) < Least(component)
    ensures InOrder(components + [component])
  {
    forall i | 0 <= i < |components| ensures components[i] !! component {
      forall x | x in components[i] ensures x !in component {
        assert Covers(components, x);
      }
    }
  }

  lemma FoundMore(graph: Graph, components: seq<set<Ideograph>>, visited: set<Ideograph>, component: set<Ideograph>)
    requires Found(graph, components, visited) && component != {}
    requires IsComponent(graph, component) && component !! visited && component <= graph.Keys
    requires forall i :: 0 <= i < |components| ==> Least(components[i]) < Least(component)
    ensures Found(graph, components + [component], visited + component)
  {
    InOrderMore(graph, components, visited, component);
    forall i | 0 <= i < |components| + 1 ensures IsComponent(graph, (components + [component])[i]) {
      if i < |components| {
        assert IsComponent(graph, components[i]);
      }
    }
    forall ch ensures ch in visited + component <==> Covers(components + [component], ch) {
      CoversMore(components, component, ch);
    }
  }

  ghost predicate StartedBy(components: seq<set<Ideograph>>, bound: Ideograph) {
    forall i :: 0 <= i < |components| ==> components[i] != {} && Least(components[i]) < bound
  }

  lemma NextComponent(graph: Graph, components: seq<set<Ideograph>>, visited: set<Ideograph>,
                      start: Ideograph, component: set<Ideograph>)
    requires Undirected(graph) && Found(graph, components, visited)
    requires IsNextStart(graph, visited, start) && component == ComponentOf(graph, start)
    requires StartedBy(components, start)
    ensures Found(graph, components + [component], visited + component) && start in component
    ensures StartedBy(components + [component], start + 1)
  {
    ComponentIsNew(graph, components, visited, start, component);
    FoundMore(graph, components, visited, component);
  }

  /** One round of `Components`. */
  method VisitFrom(graph: Graph, components: seq<set<Ideograph>>, visited: set<Ideograph>, start: Ideograph)
    returns (more: seq<set<Ideograph>>, seen: set<Ideograph>)
    requires Undirected(graph) && Found(graph, components, visited) && start in graph
    requires forall x :: x in graph && x < start ==> x in visited
    requires StartedBy(components, start)
    ensures Found(graph, more, seen) && visited + {start} <= seen && StartedBy(more, start + 1)
  {
    more, seen := components, visited;
    if start in visited {
      return;
    }
    var component := Component(graph, start);
    NextStart(graph, visited, start);
    NextComponent(graph, components, visited, start, component);
    more := components + [component];
    seen := visited + component;
  }

  lemma BelowIsVisited(graph: Graph, starts: seq<Ideograph>, visited: set<Ideograph>, s: nat)
    requires Increasing(starts) && s < |starts| && forall x :: x in starts <==> x in graph
    requires forall k :: 0 <= k < s ==> starts[k] in visited
    ensures starts[s] in graph && forall x :: x in graph && x < starts[s] ==> x in visited
  {
    assert starts[s] in starts;
    forall x | x in graph && x < starts[s] ensures x in visited {
      assert x in starts;
      var k :| 0 <= k < |starts| && starts[k] == x;
      assert k < s;
    }
  }

  method ComponentsFrom(graph: Graph, starts: seq<Ideograph>) returns (components: seq<set<Ideograph>>)
    requires Undirected(graph) && Increasing(starts) && forall x :: x in starts <==> x in graph
    ensures Found(graph, components, graph.Keys)
  {
    components := [];
    var visited: set<Ideograph> := {};
    for s := 0 to |starts|
      invariant Found(graph, components, visited)
      invariant forall k :: 0 <= k < s ==> starts[k] in visited
      invariant StartedBy(components, if s == 0 then 0 else starts[s - 1] + 1)
    {
      BelowIsVisited(graph, starts, visited, s);
      assert StartedBy(components, starts[s]);
      components, visited := VisitFrom(graph, components, visited, starts[s]);
    }
    assert forall ch :: ch in graph ==> ch in starts;
    assert visited == graph.Keys;
  }

  /** The components in order of their least member. */
  method Components(graph: Graph) returns (components: seq<set<Ideograph>>)
    requires Undirected(graph)
    ensures Found(graph, components, graph.Keys)
  {
    components := ComponentsFrom(graph, Ascending(graph.Keys));
  }

  // ---- targets ---------------------------------------------------------------

  function Only(s: set<Ideograph>): Option<Ideograph> {
    if |s| == 1 then Some(Least(s)) else None
  }

  /** The first rule that applies to a component; empty when none does. */
  function Rule(component: set<Ideograph>, simplified: set<Ideograph>, general: set<Ideograph>): set<Ideograph> {
    var bmp := set ch | ch in component && ch < 0x10000;
    if bmp * simplified != {} then bmp * simplified
    else if component * general != {} then component * general
    else bmp
  }

  /** The target the rules single out. */
  function Resolve(component: set<Ideograph>, simplified: set<Ideograph>, general: set<Ideograph>): Option<Ideograph> {
    var rule := Rule(component, simplified, general);
    Only(if rule != {} then rule else component * simplified)
  }

  function Requested(component: set<Ideograph>, choices: map<Ideograph, Ideograph>): set<Ideograph> {
    set ch | ch in component && ch in choices :: choices[ch]
  }

  /** The reviewed choice for a component the rules leave open. */
  function FamilyChoice(component: set<Ideograph>, rule: set<Ideograph>, choices: map<Ideograph, Ideograph>): Option<Ideograph> {
    var requested := Requested(component, choices);
    if |requested| == 1 && requested <= (if rule != {} then rule else component) then Only(requested) else None
  }

  datatype Policy = Policy(simplified: set<Ideograph>, general: set<Ideograph>,
                           partitionKeys: map<Ideograph, Ideograph>, choices: map<Ideograph, Ideograph>)

  /** The target the rules or the partitions give; choices come after. */
  function SettledTarget(component: set<Ideograph>, policy: Policy): Option<Ideograph> {
    var target := Resolve(component, policy.simplified, policy.general);
    if target.None? && component <= policy.partitionKeys.Keys
    then Only(Requested(component, policy.partitionKeys))
    else target
  }

  function FamilyTarget(component: set<Ideograph>, policy: Policy): Option<Ideograph> {
    var target := SettledTarget(component, policy);
    if target.None?
    then FamilyChoice(component, Rule(component, policy.simplified, policy.general), policy.choices)
    else target
  }

  // ---- which member is the target ----------------------------------------------

  ghost predicate HasBmpSimplified(component: set<Ideograph>, policy: Policy) {
    exists x :: x in component && x < 0x10000 && x in policy.simplified
  }

  ghost predicate HasGeneral(component: set<Ideograph>, policy: Policy) {
    exists x :: x in component && x in policy.general
  }

  ghost predicate HasBmp(component: set<Ideograph>) {
    exists x :: x in component && x < 0x10000
  }

  /** The one member of the component the rules single out, by what kinds of members there are. */
  ghost predicate ByRules(component: set<Ideograph>, policy: Policy, t: Ideograph) {
    t in component &&
    if HasBmpSimplified(component, policy) then
      t < 0x10000 && t in policy.simplified &&
      forall x :: x in component && x < 0x10000 && x in policy.simplified ==> x == t
    else if HasGeneral(component, policy) then
      t in policy.general && forall x :: x in component && x in policy.general ==> x == t
    else if HasBmp(component) then
      t < 0x10000 && forall x :: x in component && x < 0x10000 ==> x == t
    else
      t in policy.simplified && forall x :: x in component && x in policy.simplified ==> x == t
  }

  /** Every member was recorded under this one key. */
  ghost predicate ByPartition(component: set<Ideograph>, policy: Policy, t: Ideograph) {
    component != {} && forall x :: x in component ==> x in policy.partitionKeys && policy.partitionKeys[x] == t
  }

  /** A member the reviewed choice may name: one of the first kind of members there is. */
  ghost predicate MayChoose(component: set<Ideograph>, policy: Policy, t: Ideograph) {
    t in component &&
    if HasBmpSimplified(component, policy) then t < 0x10000 && t in policy.simplified
    else if HasGeneral(component, policy) then t in policy.general
    else HasBmp(component) ==> t < 0x10000
  }

  /** All the members that request a choice request this one, and it may be chosen. */
  ghost predicate ByChoice(component: set<Ideograph>, policy: Policy, t: Ideograph) {
    MayChoose(component, policy, t) && (exists x :: x in component && x in policy.choices) &&
    forall x :: x in component && x in policy.choices ==> policy.choices[x] == t
  }

  /** Without a choice: the rules first, and the partition only where they give none. */
  ghost predicate IsSettled(component: set<Ideograph>, policy: Policy, t: Ideograph) {
    ByRules(component, policy, t) || (ByPartition(component, policy, t) && forall u :: !ByRules(component, policy, u))
  }

  /** The target of a component: a choice counts only where nothing else settles it. */
  ghost predicate IsTarget(component: set<Ideograph>, policy: Policy, t: Ideograph) {
    IsSettled(component, policy, t) || (ByChoice(component, policy, t) && forall u :: !IsSettled(component, policy, u))
  }

  lemma OnlyIs(s: set<Ideograph>, t: Ideograph)
    ensures Only(s) == Some(t) <==> t in s && forall x :: x in s ==> x == t
  {
    if t in s && forall x :: x in s ==> x == t {
      assert s == {t};
    }
    if |s| == 1 {
      var x :| x in s;
      assert |s - {x}| == 0;
      forall y | y in s ensures y == x {
        assert y !in s - {x};
      }
    }
  }

  lemma RuleIs(component: set<Ideograph>, policy: Policy)
    ensures var rule := Rule(component, policy.simplified, policy.general);
            (rule == {} <==>
               !HasBmpSimplified(component, policy) && !HasGeneral(component, policy) && !HasBmp(component)) &&
            forall x :: x in rule <==>
              x in component &&
              if HasBmpSimplified(component, policy) then x < 0x10000 && x in policy.simplified
              else if HasGeneral(component, policy) then x in policy.general
              else x < 0x10000
  {
    var bmp := set ch | ch in component && ch < 0x10000;
    if HasBmpSimplified(component, policy) {
      var x :| x in component && x < 0x10000 && x in policy.simplified;
      assert x in bmp * policy.simplified;
    } else if HasGeneral(component, policy) {
      var x :| x in component && x in policy.general;
      assert x in component * policy.general;
    } else if HasBmp(component) {
      var x :| x in component && x < 0x10000;
      assert x in bmp;
    }
  }

  /** The rules single out exactly the described member. */
  lemma ResolveIs(component: set<Ideograph>, policy: Policy, t: Ideograph)
    ensures Resolve(component, policy.simplified, policy.general) == Some(t) <==> ByRules(component, policy, t)
  {
    RuleIs(component, policy);
    var rule := Rule(component, policy.simplified, policy.general);
    OnlyIs(if rule != {} then rule else component * policy.simplified, t);
  }

  lemma PartitionIs(component: set<Ideograph>, policy: Policy, t: Ideograph)
    requires component != {}
    ensures component <= policy.partitionKeys.Keys && Only(Requested(component, policy.partitionKeys)) == Some(t) <==>
            ByPartition(component, policy, t)
  {
    OnlyIs(Requested(component, policy.partitionKeys), t);
    var x :| x in component;
    if x in policy.partitionKeys {
      assert policy.partitionKeys[x] in Requested(component, policy.partitionKeys);
    }
    assert forall y :: y in component && y in policy.partitionKeys ==>
             policy.partitionKeys[y] in Requested(component, policy.partitionKeys);
    if ByPartition(component, policy, t) {
      assert forall y :: y in component ==> y in policy.partitionKeys.Keys;
    }
  }

  lemma SettledIs(component: set<Ideograph>, policy: Policy, t: Ideograph)
    requires component != {}
    ensures SettledTarget(component, policy) == Some(t) <==> IsSettled(component, policy, t)
  {
    forall u: Ideograph
      ensures Resolve(component, policy.simplified, policy.general) == Some(u) <==> ByRules(component, policy, u)
    {
      ResolveIs(component, policy, u);
    }
    PartitionIs(component, policy, t);
  }

  lemma ChoiceIs(component: set<Ideograph>, policy: Policy, t: Ideograph)
    ensures FamilyChoice(component, Rule(component, policy.simplified, policy.general), policy.choices) == Some(t) <==>
            ByChoice(component, policy, t)
  {
    RuleIs(component, policy);
    var requested := Requested(component, policy.choices);
    OnlyIs(requested, t);
    if ByChoice(component, policy, t) {
      var x :| x in component && x in policy.choices;
      assert requested == {t};
    }
    if Only(requested) == Some(t) {
      assert t in requested && requested == {t};
      assert forall x :: x in component && x in policy.choices ==> policy.choices[x] in requested;
    }
  }

  /** The target is the described member, and there is one exactly when some member is described. */
  lemma TargetIs(component: set<Ideograph>, policy: Policy, t: Ideograph)
    requires component != {}
    ensures FamilyTarget(component, policy) == Some(t) <==> IsTarget(component, policy, t)
  {
    forall u: Ideograph ensures SettledTarget(component, policy) == Some(u) <==> IsSettled(component, policy, u) {
      SettledIs(component, policy, u);
    }
    ChoiceIs(component, policy, t);
  }

  /** Partition keys lie in the component of every member they are recorded for. */
  ghost predicate KeysInside(graph: Graph, partitionKeys: map<Ideograph, Ideograph>) {
    forall ch :: ch in graph && ch in partitionKeys ==> partitionKeys[ch] in ComponentOf(graph, ch)
  }

  /** Every way of choosing a target stays inside the component. */
  lemma TargetInComponent(graph: Graph, ch: Ideograph, policy: Policy)
    requires Undirected(graph) && ch in graph && KeysInside(graph, policy.partitionKeys)
    ensures var target := FamilyTarget(ComponentOf(graph, ch), policy);
            target.Some? ==> target.value in ComponentOf(graph, ch)
  {
    var component := ComponentOf(graph, ch);
    if Resolve(component, policy.simplified, policy.general).None? && component <= policy.partitionKeys.Keys {
      var requested := Requested(component, policy.partitionKeys);
      if requested != {} {
        var x :| x in component && x in policy.partitionKeys && policy.partitionKeys[x] == Least(requested);
        ComponentShared(graph, ch, x);
      }
    }
  }

  // ---- relation paths --------------------------------------------------------

  /** The labels met along a walk. */
  ghost function LabelsAlong(graph: Graph, w: seq<Ideograph>): set<string> {
    if |w| < 2 then {} else LabelsAlong(graph, w[..|w| - 1]) + Labels(graph, w[|w| - 2], w[|w| - 1])
  }

  datatype Join = Join(target: Ideograph, relations: set<string>)

  datatype Queued = Queued(ch: Ideograph, relations: set<string>)

  type Walks = map<Ideograph, seq<Ideograph>>

  /** Every ideograph reached so far has a walk from the target and carries its labels. */
  ghost predicate Labelled(graph: Graph, target: Ideograph, walks: Walks, result: map<Ideograph, Join>) {
    target in walks && walks[target] == [target] && walks.Keys <= graph.Keys &&
    (forall x :: x in walks ==> WalkBetween(Adjacent(graph), walks[x], target, x)) &&
    result.Keys == walks.Keys - {target} &&
    forall x :: x in result ==> result[x] == Join(target, LabelsAlong(graph, walks[x]))
  }

  /** The queue is in order of walk length and no reached ideograph is more than one step beyond its head. */
  ghost predicate Frontier(graph: Graph, walks: Walks, queue: seq<Queued>) {
    (forall i :: 0 <= i < |queue| ==>
       queue[i].ch in walks && queue[i].relations == LabelsAlong(graph, walks[queue[i].ch])) &&
    (forall i, j :: 0 <= i < j < |queue| ==> |walks[queue[i].ch]| <= |walks[queue[j].ch]|) &&
    (queue != [] ==> forall x :: x in walks ==> |walks[x]| <= |walks[queue[0].ch]| + 1)
  }

  /** Every neighbour of x is reached, by a walk at most one step longer. */
  ghost predicate Expanded(graph: Graph, walks: Walks, x: Ideograph) {
    x in walks && forall y :: y in Neighbours(graph, x) ==> y in walks && |walks[y]| <= |walks[x]| + 1
  }

  ghost predicate Waiting(queue: seq<Queued>, x: Ideograph) {
    exists i :: 0 <= i < |queue| && queue[i].ch == x
  }

  /** Reaching a neighbour of ch through ch. */
  lemma Reach(graph: Graph, target: Ideograph, walks: Walks, result: map<Ideograph, Join>,
              ch: Ideograph, relations: set<string>, neighbour: Ideograph)
    requires Labelled(graph, target, walks, result) && ch in walks && relations == LabelsAlong(graph, walks[ch])
    requires neighbour in Neighbours(graph, ch) && neighbour in graph && neighbour !in walks
    ensures var w := walks[ch] + [neighbour];
            var path := relations + Labels(graph, ch, neighbour);
            path == LabelsAlong(graph, w) &&
            Labelled(graph, target, walks[neighbour := w], result[neighbour := Join(target, path)])
  {
    var w := walks[ch] + [neighbour];
    assert w[..|w| - 1] == walks[ch];
    WalkFurther(Adjacent(graph), walks[ch], target, ch, neighbour);
  }

  /** A queue entry that carries its labels and is no nearer than the ideograph being expanded. */
  ghost predicate Enters(graph: Graph, walks: Walks, entry: Queued, distance: nat) {
    entry.ch in walks && entry.relations == LabelsAlong(graph, walks[entry.ch]) &&
    distance <= |walks[entry.ch]|
  }

  /** While an ideograph at the given distance is expanded, `walks` and `rest` grow into `longer` and `queue`. */
  ghost predicate Growing(graph: Graph, walks: Walks, rest: seq<Queued>, distance: nat, longer: Walks, queue: seq<Queued>) {
    (walks.Keys <= longer.Keys && forall x :: x in walks ==> longer[x] == walks[x]) &&
    (forall i :: 0 <= i < |queue| ==> Enters(graph, longer, queue[i], distance)) &&
    (forall i, j :: 0 <= i < j < |queue| ==> |longer[queue[i].ch]| <= |longer[queue[j].ch]|) &&
    (forall x :: x in longer ==> |longer[x]| <= distance + 1) &&
    (forall x :: Waiting(rest, x) || x in longer.Keys - walks.Keys ==> Waiting(queue, x)) &&
    (longer.Keys == walks.Keys ==> queue == rest)
  }

  lemma Grow(graph: Graph, walks: Walks, rest: seq<Queued>, distance: nat, longer: Walks, queue: seq<Queued>,
             neighbour: Ideograph, w: seq<Ideograph>)
    requires Growing(graph, walks, rest, distance, longer, queue)
    requires neighbour !in longer && |w| == distance + 1
    ensures Growing(graph, walks, rest, distance, longer[neighbour := w],
                    queue + [Queued(neighbour, LabelsAlong(graph, w))])
  {
    var more, after := queue + [Queued(neighbour, LabelsAlong(graph, w))], longer[neighbour := w];
    forall i | 0 <= i < |more| ensures Enters(graph, after, more[i], distance) {
      if i < |queue| {
        assert Enters(graph, longer, queue[i], distance);
      }
    }
    forall x | Waiting(queue, x) || x == neighbour ensures Waiting(more, x) {
      if x == neighbour {
        assert more[|queue|].ch == x;
      } else {
        var i :| 0 <= i < |queue| && queue[i].ch == x;
        assert more[i].ch == x;
      }
    }
  }

  lemma StartGrowing(graph: Graph, walks: Walks, head: Queued, rest: seq<Queued>)
    requires Frontier(graph, walks, [head] + rest)
    ensures head.ch in walks && head.relations == LabelsAlong(graph, walks[head.ch])
    ensures Growing(graph, walks, rest, |walks[head.ch]|, walks, rest)
  {
    var queue := [head] + rest;
    assert queue[0] == head;
    forall i | 0 <= i < |rest| ensures Enters(graph, walks, rest[i], |walks[head.ch]|) {
      assert queue[i + 1] == rest[i];
    }
    forall i, j | 0 <= i < j < |rest| ensures |walks[rest[i].ch]| <= |walks[rest[j].ch]| {
      assert queue[i + 1] == rest[i] && queue[j + 1] == rest[j];
    }
  }

  /** The loop of one expansion over the neighbours `next`. */
  method ReachAll(graph: Graph, target: Ideograph, head: Queued, rest: seq<Queued>, next: seq<Ideograph>,
                  before: map<Ideograph, Join>, reached: set<Ideograph>, ghost walks: Walks)
    returns (queue: seq<Queued>, result: map<Ideograph, Join>, seen: set<Ideograph>, ghost longer: Walks)
    requires Undirected(graph) && Labelled(graph, target, walks, before) && reached == walks.Keys
    requires head.ch in walks && head.relations == LabelsAlong(graph, walks[head.ch])
    requires Growing(graph, walks, rest, |walks[head.ch]|, walks, rest)
    requires forall y :: y in next ==> y in Neighbours(graph, head.ch)
    ensures Labelled(graph, target, longer, result) && seen == longer.Keys
    ensures Growing(graph, walks, rest, |walks[head.ch]|, longer, queue)
    ensures forall y :: y in next ==> y in longer
  {
    queue, result, seen, longer := rest, before, reached, walks;
    for k := 0 to |next|
      invariant Labelled(graph, target, longer, result) && seen == longer.Keys
      invariant Growing(graph, walks, rest, |walks[head.ch]|, longer, queue)
      invariant forall i :: 0 <= i < k ==> next[i] in longer
    {
      var neighbour := next[k];
      assert neighbour in next;
      assert head.ch in Neighbours(graph, neighbour);
      if neighbour in seen {
        continue;
      }
      var path := head.relations + Labels(graph, head.ch, neighbour);
      Reach(graph, target, longer, result, head.ch, head.relations, neighbour);
      ghost var w := walks[head.ch] + [neighbour];
      Grow(graph, walks, rest, |walks[head.ch]|, longer, queue, neighbour, w);
      seen := seen + {neighbour};
      result := result[neighbour := Join(target, path)];
      queue := queue + [Queued(neighbour, path)];
      longer := longer[neighbour := w];
    }
  }

  /** One dequeued ideograph: reaches its unreached neighbours in ascending order. */
  method Expand(graph: Graph, target: Ideograph, head: Queued, rest: seq<Queued>, before: map<Ideograph, Join>,
                reached: set<Ideograph>, ghost walks: Walks)
    returns (queue: seq<Queued>, result: map<Ideograph, Join>, seen: set<Ideograph>, ghost longer: Walks)
    requires Undirected(graph) && Labelled(graph, target, walks, before) && reached == walks.Keys
    requires Frontier(graph, walks, [head] + rest)
    ensures Labelled(graph, target, longer, result) && seen == longer.Keys && Frontier(graph, longer, queue)
    ensures head.ch in walks && Growing(graph, walks, rest, |walks[head.ch]|, longer, queue)
    ensures Expanded(graph, longer, head.ch)
    ensures reached <= seen <= graph.Keys && (seen == reached ==> |queue| == |rest|)
  {
    StartGrowing(graph, walks, head, rest);
    var next := Ascending(Neighbours(graph, head.ch).Keys);
    queue, result, seen, longer := ReachAll(graph, target, head, rest, next, before, reached, walks);
    assert forall y :: y in Neighbours(graph, head.ch) ==> y in next;
  }

  /** w is a walk from the target to x, as short as any. */
  ghost predicate Shortest(graph: Graph, target: Ideograph, x: Ideograph, w: seq<Ideograph>) {
    WalkBetween(Adjacent(graph), w, target, x) &&
    forall v :: WalkBetween(Adjacent(graph), v, target, x) ==> |w| <= |v|
  }

  /** The join names the target and the labels along a shortest walk from it. */
  ghost predicate RecordsWalk(graph: Graph, target: Ideograph, x: Ideograph, join: Join) {
    join.target == target &&
    exists w :: Shortest(graph, target, x, w) && join.relations == LabelsAlong(graph, w)
  }

  /** The labels along a walk are exactly those of its steps. */
  lemma {:induction false} LabelsAlongAre(graph: Graph, w: seq<Ideograph>, l: string)
    ensures l in LabelsAlong(graph, w) <==> exists i :: 0 <= i < |w| - 1 && l in Labels(graph, w[i], w[i + 1])
  {
    if |w| >= 2 {
      var shorter := w[..|w| - 1];
      LabelsAlongAre(graph, shorter, l);
      if i :| 0 <= i < |w| - 1 && l in Labels(graph, w[i], w[i + 1]) {
        assert i < |w| - 2 ==> l in Labels(graph, shorter[i], shorter[i + 1]);
      }
      if i :| 0 <= i < |shorter| - 1 && l in Labels(graph, shorter[i], shorter[i + 1]) {
        assert l in Labels(graph, w[i], w[i + 1]);
      }
      assert l in Labels(graph, w[|w| - 2], w[|w| - 1]) ==>
             l in Labels(graph, w[|w| - 2], w[|w| - 2 + 1]);
    }
  }

  lemma {:induction false} NoShorterWalk(graph: Graph, target: Ideograph, walks: Walks, v: seq<Ideograph>)
    requires target in walks && walks[target] == [target]
    requires forall x :: x in walks ==> Expanded(graph, walks, x)
    requires Walk(Adjacent(graph), v) && v[0] == target
    ensures v[|v| - 1] in walks && |walks[v[|v| - 1]]| <= |v|
    decreases |v|
  {
    if |v| > 1 {
      var shorter := v[..|v| - 1];
      forall i | 0 <= i < |shorter| - 1 ensures Adjacent(graph)(shorter[i], shorter[i + 1]) {
        assert Adjacent(graph)(v[i], v[i + 1]);
      }
      NoShorterWalk(graph, target, walks, shorter);
      assert Adjacent(graph)(v[|v| - 2], v[|v| - 1]);
      assert Expanded(graph, walks, v[|v| - 2]);
    }
  }

  /** Every reached ideograph is still queued or has been expanded. */
  ghost predicate Pursued(graph: Graph, walks: Walks, queue: seq<Queued>) {
    forall x :: x in walks ==> Waiting(queue, x) || Expanded(graph, walks, x)
  }

  lemma PursuedFurther(graph: Graph, walks: Walks, head: Queued, rest: seq<Queued>, distance: nat,
                       longer: Walks, queue: seq<Queued>)
    requires Pursued(graph, walks, [head] + rest)
    requires Growing(graph, walks, rest, distance, longer, queue) && Expanded(graph, longer, head.ch)
    ensures Pursued(graph, longer, queue)
  {
    forall x | x in longer ensures Waiting(queue, x) || Expanded(graph, longer, x) {
      if x in walks && x != head.ch {
        if Waiting([head] + rest, x) {
          var i :| 0 <= i < |[head] + rest| && ([head] + rest)[i].ch == x;
          assert rest[i - 1].ch == x;
          assert Waiting(rest, x);
        } else {
          assert Expanded(graph, walks, x);
        }
      }
    }
  }

  /** A finished search has found the component, and a shortest walk to each of its members. */
  lemma SearchIsComplete(graph: Graph, target: Ideograph, walks: Walks, result: map<Ideograph, Join>)
    requires Labelled(graph, target, walks, result) && Pursued(graph, walks, [])
    ensures result.Keys == ComponentOf(graph, target) - {target}
    ensures forall x :: x in result ==> RecordsWalk(graph, target, x, result[x])
  {
    forall x | x in walks ensures Expanded(graph, walks, x) {
      assert !Waiting([], x);
    }
    forall x | x in walks ensures Shortest(graph, target, x, walks[x]) {
      forall v | WalkBetween(Adjacent(graph), v, target, x) ensures |walks[x]| <= |v| {
        NoShorterWalk(graph, target, walks, v);
      }
    }
    ClosedIsComponent(graph, target, walks.Keys);
  }

  /** The invariant of the search. */
  ghost predicate Searching(graph: Graph, target: Ideograph, walks: Walks, queue: seq<Queued>, result: map<Ideograph, Join>) {
    Labelled(graph, target, walks, result) && Frontier(graph, walks, queue) && Pursued(graph, walks, queue)
  }

  method SearchStep(graph: Graph, target: Ideograph, queue: seq<Queued>, before: map<Ideograph, Join>,
                    reached: set<Ideograph>, ghost walks: Walks)
    returns (after: seq<Queued>, result: map<Ideograph, Join>, seen: set<Ideograph>, ghost longer: Walks)
    requires Undirected(graph) && Searching(graph, target, walks, queue, before) && reached == walks.Keys && queue != []
    ensures Searching(graph, target, longer, after, result) && seen == longer.Keys
    ensures |graph.Keys - seen| < |graph.Keys - reached| ||
            (|graph.Keys - seen| == |graph.Keys - reached| && |after| < |queue|)
  {
    var head, rest := queue[0], queue[1..];
    assert queue == [head] + rest;
    after, result, seen, longer := Expand(graph, target, head, rest, before, reached, walks);
    PursuedFurther(graph, walks, head, rest, |walks[head.ch]|, longer, after);
    FewerLeft(graph.Keys, reached, seen);
  }

  lemma FewerLeft(all: set<Ideograph>, reached: set<Ideograph>, seen: set<Ideograph>)
    requires reached <= seen <= all
    ensures seen == reached || |all - seen| < |all - reached|
  {
    assert (seen - reached) + (all - seen) == all - reached;
    if seen != reached {
      assert seen - reached != {};
    }
  }

  lemma SearchBegins(graph: Graph, target: Ideograph)
    requires target in graph
    ensures Searching(graph, target, map[target := [target]], [Queued(target, {})], map[])
  {
    var walks: Walks, queue := map[target := [target]], [Queued(target, {})];
    assert LabelsAlong(graph, [target]) == {};
    assert queue[0].ch == target;
    assert Waiting(queue, target);
  }

  /** The breadth-first labelling of one component. */
  method LabelFamily(graph: Graph, target: Ideograph) returns (result: map<Ideograph, Join>)
    requires Undirected(graph) && target in graph
    ensures result.Keys == ComponentOf(graph, target) - {target}
    ensures forall x :: x in result ==> RecordsWalk(graph, target, x, result[x])
  {
    var queue := [Queued(target, {})];
    var reached := {target};
    result := map[];
    ghost var walks: Walks := map[target := [target]];
    SearchBegins(graph, target);
    while queue != []
      invariant Searching(graph, target, walks, queue, result) && reached == walks.Keys
      decreases |graph.Keys - reached|, |queue|
    {
      queue, result, reached, walks := SearchStep(graph, target, queue, result, reached, walks);
    }
    SearchIsComplete(graph, target, walks, result);
  }

  // ---- all families ----------------------------------------------------------

  /** What the mapping of one member must be, given its component's target. */
  ghost predicate Joined(graph: Graph, policy: Policy, result: map<Ideograph, Join>, x: Ideograph)
    requires x in graph
  {
    var target := FamilyTarget(ComponentOf(graph, x), policy);
    (x in result <==> target.Some? && target.value != x) &&
    (x in result ==> RecordsWalk(graph, target.value, x, result[x]))
  }

  /** The families done so far are joined and their open components are reported. */
  ghost predicate Settled(graph: Graph, policy: Policy, result: map<Ideograph, Join>, unresolved: set<Ideograph>,
                          done: set<Ideograph>)
  {
    result.Keys <= done && unresolved <= done && done <= graph.Keys &&
    forall x :: x in done ==>
      Joined(graph, policy, result, x) &&
      (x in unresolved <==> SettledTarget(ComponentOf(graph, x), policy).None?)
  }

  /** Adding a component of which every member is joined and rightly reported or not. */
  lemma SettledMore(graph: Graph, policy: Policy, before: map<Ideograph, Join>, open: set<Ideograph>, done: set<Ideograph>,
                    component: set<Ideograph>, joined: map<Ideograph, Join>)
    requires Settled(graph, policy, before, open, done) && component !! done
    requires component <= graph.Keys && forall x :: x in component ==> ComponentOf(graph, x) == component
    requires joined.Keys <= component
    requires forall x :: x in component ==> Joined(graph, policy, joined, x)
    ensures Settled(graph, policy, before + joined,
                    if SettledTarget(component, policy).None? then open + component else open, done + component)
  {
    var after := before + joined;
    var unresolved := if SettledTarget(component, policy).None? then open + component else open;
    forall x | x in done + component
      ensures Joined(graph, policy, after, x) &&
              (x in unresolved <==> SettledTarget(ComponentOf(graph, x), policy).None?)
    {
      assert x in done ==> Joined(graph, policy, before, x);
      assert x in component ==> Joined(graph, policy, joined, x);
    }
  }

  method JoinComponent(graph: Graph, policy: Policy, component: set<Ideograph>) returns (joined: map<Ideograph, Join>)
    requires Undirected(graph) && KeysInside(graph, policy.partitionKeys) && IsComponent(graph, component)
    ensures joined.Keys <= component <= graph.Keys
    ensures forall x :: x in component ==> ComponentOf(graph, x) == component && Joined(graph, policy, joined, x)
  {
    ghost var least := Least(component);
    forall x | x in component ensures ComponentOf(graph, x) == component {
      ComponentShared(graph, least, x);
    }
    TargetInComponent(graph, least, policy);
    joined := map[];
    var target := FamilyTarget(component, policy);
    if target.Some? {
      joined := LabelFamily(graph, target.value);
    }
  }

  /** The members of the first i components. */
  ghost function FirstMembers(components: seq<set<Ideograph>>, i: nat): set<Ideograph>
    requires i <= |components|
  {
    if i == 0 then {} else FirstMembers(components, i - 1) + components[i - 1]
  }

  lemma {:induction false} FirstMembersAre(components: seq<set<Ideograph>>, i: nat, x: Ideograph)
    requires i <= |components|
    ensures x in FirstMembers(components, i) <==> exists j :: 0 <= j < i && x in components[j]
    decreases i
  {
    if i > 0 {
      FirstMembersAre(components, i - 1, x);
    }
  }

  lemma ComponentIsFresh(components: seq<set<Ideograph>>, i: nat)
    requires i < |components| && InOrder(components)
    ensures components[i] !! FirstMembers(components, i)
  {
    forall x | x in components[i] ensures x !in FirstMembers(components, i) {
      FirstMembersAre(components, i, x);
    }
  }

  lemma AllMembers(graph: Graph, components: seq<set<Ideograph>>)
    requires Found(graph, components, graph.Keys)
    ensures FirstMembers(components, |components|) == graph.Keys
  {
    forall x ensures x in FirstMembers(components, |components|) <==> x in graph.Keys {
      FirstMembersAre(components, |components|, x);
      assert x in graph.Keys <==> Covers(components, x);
    }
  }

  /** One round of `FamilyMappings`. */
  method JoinNext(graph: Graph, policy: Policy, components: seq<set<Ideograph>>, i: nat,
                  before: map<Ideograph, Join>, open: set<Ideograph>)
    returns (result: map<Ideograph, Join>, unresolved: set<Ideograph>)
    requires Undirected(graph) && KeysInside(graph, policy.partitionKeys)
    requires i < |components| && Found(graph, components, graph.Keys)
    requires Settled(graph, policy, before, open, FirstMembers(components, i))
    ensures Settled(graph, policy, result, unresolved, FirstMembers(components, i + 1))
  {
    ComponentIsFresh(components, i);
    var joined := JoinComponent(graph, policy, components[i]);
    SettledMore(graph, policy, before, open, FirstMembers(components, i), components[i], joined);
    unresolved := if SettledTarget(components[i], policy).None? then open + components[i] else open;
    result := before + joined;
  }

  /** Each member but the target of its component is joined to it along a shortest walk; no member without one is. */
  ghost predicate IsMapped(graph: Graph, policy: Policy, result: map<Ideograph, Join>, x: Ideograph)
    requires x in graph
  {
    var component := ComponentOf(graph, x);
    (x in result <==> exists t :: IsTarget(component, policy, t) && t != x) &&
    (x in result ==>
       IsTarget(component, policy, result[x].target) && RecordsWalk(graph, result[x].target, x, result[x]))
  }

  /** Every ideograph of the graph is mapped as its component says, and reported exactly where a choice is called for. */
  ghost predicate IsMapping(graph: Graph, policy: Policy, result: map<Ideograph, Join>, unresolved: set<Ideograph>) {
    result.Keys <= graph.Keys && unresolved <= graph.Keys &&
    forall x :: x in graph ==>
      IsMapped(graph, policy, result, x) &&
      (x in unresolved <==> forall t: Ideograph :: !IsSettled(ComponentOf(graph, x), policy, t))
  }

  lemma SettledIsMapping(graph: Graph, policy: Policy, result: map<Ideograph, Join>, unresolved: set<Ideograph>)
    requires Undirected(graph) && Settled(graph, policy, result, unresolved, graph.Keys)
    ensures IsMapping(graph, policy, result, unresolved)
  {
    forall x | x in graph
      ensures IsMapped(graph, policy, result, x)
      ensures x in unresolved <==> forall t: Ideograph :: !IsSettled(ComponentOf(graph, x), policy, t)
    {
      assert Joined(graph, policy, result, x);
      InOwnComponent(graph, x);
      forall t: Ideograph
        ensures FamilyTarget(ComponentOf(graph, x), policy) == Some(t) <==> IsTarget(ComponentOf(graph, x), policy, t)
        ensures SettledTarget(ComponentOf(graph, x), policy) == Some(t) <==> IsSettled(ComponentOf(graph, x), policy, t)
      {
        TargetIs(ComponentOf(graph, x), policy, t);
        SettledIs(ComponentOf(graph, x), policy, t);
      }
    }
  }

  /** Maps every member of a settled component, and reports the components the rules leave open. */
  method FamilyMappings(graph: Graph, policy: Policy)
    returns (result: map<Ideograph, Join>, unresolved: set<Ideograph>)
    requires Undirected(graph) && KeysInside(graph, policy.partitionKeys)
    ensures IsMapping(graph, policy, result, unresolved)
  {
    result, unresolved := map[], {};
    var components: seq<set<Ideograph>> := Components(graph);
    for i := 0 to |components|
      invariant Settled(graph, policy, result, unresolved, FirstMembers(components, i))
    {
      result, unresolved := JoinNext(graph, policy, components, i, result, unresolved);
    }
    AllMembers(graph, components);
    SettledIsMapping(graph, policy, result, unresolved);
  }

  /** The targets alone. */
  function JoinTargets(result: map<Ideograph, Join>): Mapping {
    map x | x in result :: result[x].target
  }

  /**
    The resulting mapping is one step deep: a member maps to its component's
    target, the target maps to nothing, and that target is the terminal key of
    every member, its own included.
  */
  lemma MappingIsOneStep(graph: Graph, policy: Policy, result: map<Ideograph, Join>, x: Ideograph, target: Ideograph)
    requires Undirected(graph) && KeysInside(graph, policy.partitionKeys) && x in graph && target in graph
    requires IsTarget(ComponentOf(graph, x), policy, target)
    requires IsMapped(graph, policy, result, x) && IsMapped(graph, policy, result, target)
    ensures target !in JoinTargets(result) && Terminal(JoinTargets(result), x) == Some(target)
  {
    InOwnComponent(graph, x);
    forall t: Ideograph
      ensures FamilyTarget(ComponentOf(graph, x), policy) == Some(t) <==> IsTarget(ComponentOf(graph, x), policy, t)
    {
      TargetIs(ComponentOf(graph, x), policy, t);
    }
    TargetInComponent(graph, x, policy);
    ComponentShared(graph, x, target);
    TerminalAt(JoinTargets(result), target, 0);
    if x != target {
      TerminalStep(JoinTargets(result), x);
    }
  }
}
