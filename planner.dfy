/**
 * The strategy planner: a breadth-first search over abstract team states
 * (strategy, ships, bases) whose edges are the three strategies, each
 * enabled by its precondition and with a fixed effect on the counts.  Every
 * node ever created lives in `nodes`; a node's identity is its index there,
 * and a parent pointer is the parent's index.
 */
module StrategyPlanner {
  import opened World
  import opened StrategyRules

  datatype PlanNode = PlanNode(strat: Strategy, ships: int, bases: int, parent: Option<nat>)

  /** How a search call ended. */
  datatype Outcome =
    | RootIsGoal       // the root already met the goal; nothing was expanded
    | GoalFound        // a dequeued node met the goal and was recorded
    | QueueEmptied     // the queue ran dry after a poll without reaching the goal
    | OutOfFuel        // the expansion budget ran out first

  /** Counts after applying strategy `t` to a node with counts (ships, bases). */
  function Effect(t: Strategy, ships: int, bases: int, minShips: int): (int, int) {
    match t
    case BuildFleet => (if ships < minShips then minShips else bases + 1, bases)
    case ExpandEmpire => (ships, ships)
    case FreeMine => (ships, bases)
  }

  /** The strategies enabled at counts (ships, bases), in the order children are generated. */
  function ChildStrategies(ships: int, bases: int, pilots: nat): (r: seq<Strategy>)
    ensures |r| >= 1
    ensures BuildFleet in r <==> CanBuildFleet(pilots, ships, bases)
    ensures ExpandEmpire in r <==> CanExpandEmpire(ships, bases)
    ensures FreeMine in r <==> CanFreeMine(pilots, ships)
    ensures forall i, j :: 0 <= i < j < |r| ==> Rank(r[j]) < Rank(r[i])
  {
    SomeStrategyApplies(pilots, ships, bases);
    (if CanBuildFleet(pilots, ships, bases) then [BuildFleet] else [])
    + (if CanExpandEmpire(ships, bases) then [ExpandEmpire] else [])
    + (if CanFreeMine(pilots, ships) then [FreeMine] else [])
  }

  /** `a` is `d` or one of its ancestors. */
  ghost predicate Reaches(ns: seq<PlanNode>, d: nat, a: nat)
    requires d < |ns|
    requires forall i :: 0 <= i < |ns| && ns[i].parent.Some? ==> ns[i].parent.value < i
    decreases d
  {
    d == a || (ns[d].parent.Some? && Reaches(ns, ns[d].parent.value, a))
  }

  ghost predicate ParentsBefore(ns: seq<PlanNode>) {
    forall i :: 0 <= i < |ns| && ns[i].parent.Some? ==> ns[i].parent.value < i
  }

  /** Appending nodes does not change the ancestry of the nodes already there. */
  lemma {:induction false} ReachesExtend(ns: seq<PlanNode>, more: seq<PlanNode>, d: nat, a: nat)
    requires d < |ns| && ParentsBefore(ns) && ParentsBefore(ns + more)
    ensures Reaches(ns, d, a) <==> Reaches(ns + more, d, a)
    decreases d
  {
    assert (ns + more)[d] == ns[d];
    if d != a && ns[d].parent.Some? {
      ReachesExtend(ns, more, ns[d].parent.value, a);
    }
  }

  /** The strategies of the nodes listed in `kids`. */
  function StratsOf(ns: seq<PlanNode>, kids: seq<nat>): (r: seq<Strategy>)
    requires forall j :: 0 <= j < |kids| ==> kids[j] < |ns|
    ensures |r| == |kids| && forall j :: 0 <= j < |kids| ==> r[j] == ns[kids[j]].strat
  {
    seq(|kids|, j requires 0 <= j < |kids| => ns[kids[j]].strat)
  }

  /** Node `i`'s counts are its strategy's effect on its parent's counts. */
  ghost predicate HasEffect(ns: seq<PlanNode>, i: nat, minShips: int) {
    i < |ns| && ns[i].parent.Some? && ns[i].parent.value < |ns| ==>
      var p := ns[ns[i].parent.value];
      (ns[i].ships, ns[i].bases) == Effect(ns[i].strat, p.ships, p.bases, minShips)
  }

  /** Appending a node that carries its own effect keeps every effect. */
  lemma HasEffectAppend(ns: seq<PlanNode>, x: PlanNode, minShips: int)
    requires ParentsBefore(ns) && forall i :: 0 <= i < |ns| ==> HasEffect(ns, i, minShips)
    requires HasEffect(ns + [x], |ns|, minShips)
    ensures forall i :: 0 <= i < |ns| + 1 ==> HasEffect(ns + [x], i, minShips)
  {
    forall i | 0 <= i < |ns|
      ensures HasEffect(ns + [x], i, minShips)
    {
      assert (ns + [x])[i] == ns[i] && HasEffect(ns, i, minShips);
      if ns[i].parent.Some? {
        assert (ns + [x])[ns[i].parent.value] == ns[ns[i].parent.value];
      }
    }
  }

  /** Among the nodes from `r` on, exactly those before `cur` have a graph entry. */
  predicate ExpandedPrefix(ns: seq<PlanNode>, g: map<nat, seq<nat>>, r: nat, cur: nat) {
    forall k :: r <= k < |ns| ==> (k in g <==> k < cur)
  }

  /** Every entry for a node from `r` on lists nodes with the strategies its counts enable. */
  predicate ChildrenEnabled(ns: seq<PlanNode>, g: map<nat, seq<nat>>, r: nat, pilots: nat) {
    forall k :: k in g && r <= k ==>
      && k < |ns|
      && (forall j :: 0 <= j < |g[k]| ==> g[k][j] < |ns|)
      && StratsOf(ns, g[k]) == ChildStrategies(ns[k].ships, ns[k].bases, pilots)
  }

  lemma ExpandedPrefixStep(ns: seq<PlanNode>, ns': seq<PlanNode>, g: map<nat, seq<nat>>,
                           r: nat, cur: nat, kids: seq<nat>)
    requires ExpandedPrefix(ns, g, r, cur) && r <= cur < |ns| <= |ns'|
    requires forall k :: k in g ==> k < |ns|
    ensures ExpandedPrefix(ns', g[cur := kids], r, cur + 1)
  {
  }

  lemma ChildrenEnabledStep(ns: seq<PlanNode>, ns': seq<PlanNode>, g: map<nat, seq<nat>>,
                            r: nat, cur: nat, kids: seq<nat>, pilots: nat)
    requires ChildrenEnabled(ns, g, r, pilots) && cur < |ns| <= |ns'| && ns'[..|ns|] == ns
    requires forall j :: 0 <= j < |kids| ==> kids[j] < |ns'|
    requires StratsOf(ns', kids) == ChildStrategies(ns[cur].ships, ns[cur].bases, pilots)
    ensures ChildrenEnabled(ns', g[cur := kids], r, pilots)
  {
    forall k | k in g && r <= k && k != cur
      ensures StratsOf(ns', g[k]) == StratsOf(ns, g[k])
    {
    }
  }

  /** The children appended by one expansion all descend from the root, as do the earlier nodes. */
  lemma ReachesAfterExpand(before: seq<PlanNode>, ns: seq<PlanNode>, r: nat, cur: nat)
    requires ParentsBefore(before) && ParentsBefore(ns) && r <= cur < |before| <= |ns|
    requires ns[..|before|] == before
    requires forall k :: r <= k < |before| ==> Reaches(before, k, r)
    requires forall k :: |before| <= k < |ns| ==> ns[k].parent == Some(cur)
    ensures forall k :: r <= k < |ns| ==> Reaches(ns, k, r)
  {
    assert ns == before + ns[|before|..];
    forall k | r <= k < |before|
      ensures Reaches(ns, k, r)
    {
      ReachesExtend(before, ns[|before|..], k, r);
    }
    forall k | |before| <= k < |ns|
      ensures Reaches(ns, k, r)
    {
      ReachesExtend(before, ns[|before|..], cur, r);
    }
  }

  class Planner {
    const goalShips: int
    const goalBases: int
    const minShips: int
    /** Every node created by every search; searches never clear it. */
    var nodes: seq<PlanNode>
    /** Expanded node -> its children, accumulated across searches. */
    var graph: map<nat, seq<nat>>
    var root: Option<nat>
    var goal: Option<nat>

    predicate InGoalState(n: PlanNode) {
      n.ships >= goalShips && n.bases >= goalBases
    }

    /** The goal test is upward closed: a node with at least as many ships and bases is a goal too. */
    lemma GoalUpwardClosed(n: PlanNode, m: PlanNode)
      requires InGoalState(n) && n.ships <= m.ships && n.bases <= m.bases
      ensures InGoalState(m)
    {
    }

    /**
     * Parents precede their children, each child carries its strategy's effect
     * on its parent's counts, each graph entry lists children of its key, and
     * the recorded goal is a goal-state node.
     */
    ghost predicate Valid()
      reads this
    {
      && ParentsBefore(nodes)
      && (forall i :: 0 <= i < |nodes| ==> HasEffect(nodes, i, minShips))
      && (forall k :: k in graph ==>
            && k < |nodes|
            && (forall j :: 0 <= j < |graph[k]| ==> graph[k][j] < |nodes| && nodes[graph[k][j]].parent == Some(k)))
      && (root.Some? ==> root.value < |nodes|)
      && (goal.Some? ==> goal.value < |nodes| && InGoalState(nodes[goal.value]))
    }

    constructor (goalShips: int, goalBases: int, minShips: int)
      ensures Valid()
      ensures this.goalShips == goalShips && this.goalBases == goalBases && this.minShips == minShips
      ensures nodes == [] && graph == map[] && root.None? && goal.None?
    {
      this.goalShips := goalShips;
      this.goalBases := goalBases;
      this.minShips := minShips;
      nodes := [];
      graph := map[];
      root := None;
      goal := None;
    }

    /** `kids` are the nodes appended to `n0`, in order, all children of `cur` with strategies `want`. */
    ghost predicate Grown(n0: seq<PlanNode>, cur: nat, kids: seq<nat>, want: seq<Strategy>)
      reads this
    {
      && |nodes| == |n0| + |kids| && nodes[..|n0|] == n0
      && (forall j :: 0 <= j < |kids| ==> kids[j] == |n0| + j)
      && (forall k :: |n0| <= k < |nodes| ==> nodes[k].parent == Some(cur))
      && StratsOf(nodes, kids) == want
    }

    /** When `enabled`, creates one child of `cur` by strategy `t` and lists it in `kids`. */
    method AddChildIf(enabled: bool, cur: nat, t: Strategy, ghost n0: seq<PlanNode>, kids: seq<nat>,
                      ghost want: seq<Strategy>) returns (kids': seq<nat>)
      requires Valid() && cur < |n0| && Grown(n0, cur, kids, want)
      modifies this
      ensures Valid()
      ensures Grown(n0, cur, kids', want + if enabled then [t] else [])
      ensures graph == old(graph) && root == old(root) && goal == old(goal)
      ensures enabled ==> var p := n0[cur];
        nodes[|nodes| - 1] == PlanNode(t, Effect(t, p.ships, p.bases, minShips).0, Effect(t, p.ships, p.bases, minShips).1, Some(cur))
    {
      kids' := kids;
      if enabled {
        var p := nodes[cur];
        var e := Effect(t, p.ships, p.bases, minShips);
        HasEffectAppend(nodes, PlanNode(t, e.0, e.1, Some(cur)), minShips);
        nodes := nodes + [PlanNode(t, e.0, e.1, Some(cur))];
        kids' := kids + [|nodes| - 1];
        assert StratsOf(nodes, kids') == StratsOf(old(nodes), kids) + [t];
      }
    }

    /**
     * Expands `cur`: its children, in the order BUILD_FLEET, EXPAND_EMPIRE,
     * FREE_MINE and each only when enabled, are created and recorded as its
     * graph entry.
     */
    method Expand(cur: nat, pilots: nat) returns (kids: seq<nat>)
      requires Valid() && cur < |nodes|
      modifies this
      ensures Valid()
      ensures |kids| >= 1 && |nodes| == old(|nodes|) + |kids|
      ensures nodes[..old(|nodes|)] == old(nodes)
      ensures forall j :: 0 <= j < |kids| ==> kids[j] == old(|nodes|) + j
      ensures forall k :: old(|nodes|) <= k < |nodes| ==> nodes[k].parent == Some(cur)
      ensures StratsOf(nodes, kids) == ChildStrategies(old(nodes[cur]).ships, old(nodes[cur]).bases, pilots)
      ensures graph == old(graph)[cur := kids]
      ensures root == old(root) && goal == old(goal)
    {
      var p := nodes[cur];
      ghost var n0 := nodes;
      kids := [];
      assert Grown(n0, cur, kids, []);
      kids := AddChildIf(CanBuildFleet(pilots, p.ships, p.bases), cur, BuildFleet, n0, kids, []);
      ghost var w1 := if CanBuildFleet(pilots, p.ships, p.bases) then [BuildFleet] else [];
      kids := AddChildIf(CanExpandEmpire(p.ships, p.bases), cur, ExpandEmpire, n0, kids, w1);
      ghost var w2 := w1 + if CanExpandEmpire(p.ships, p.bases) then [ExpandEmpire] else [];
      kids := AddChildIf(CanFreeMine(pilots, p.ships), cur, FreeMine, n0, kids, w2);
      assert StratsOf(nodes, kids) == ChildStrategies(p.ships, p.bases, pilots);
      graph := graph[cur := kids];
    }

    /**
     * The breadth-first search: a fresh root (strat, ships, bases) is created;
     * unless it already meets the goal, nodes are expanded in FIFO order until
     * a dequeued node meets the goal or the queue is empty after a poll.
     * `pilots` is the commander's pilot count; `fuel` bounds the number of
     * expansions.  Nothing from earlier searches is cleared.
     */
    method GenerateGraph(strat: Strategy, ships: int, bases: int, pilots: nat, fuel: nat)
      returns (outcome: Outcome)
      requires Valid()
      modifies this
      ensures Valid()
      ensures |nodes| > old(|nodes|) && nodes[..old(|nodes|)] == old(nodes)
      ensures root == Some(old(|nodes|)) && nodes[old(|nodes|)] == PlanNode(strat, ships, bases, None)
      ensures forall k :: k in old(graph) ==> k in graph && graph[k] == old(graph)[k]
      ensures outcome == RootIsGoal <==> InGoalState(nodes[old(|nodes|)])
      ensures outcome == RootIsGoal ==> |nodes| == old(|nodes|) + 1 && graph == old(graph)
      ensures outcome == GoalFound ==>
        && goal.Some? && old(|nodes|) < goal.value < |nodes|
        && Reaches(nodes, goal.value, old(|nodes|))
        && ExpandedPrefix(nodes, graph, old(|nodes|), goal.value)
        && forall k :: old(|nodes|) <= k < goal.value ==> !InGoalState(nodes[k])
      ensures outcome != GoalFound ==> goal == old(goal)
      ensures outcome == QueueEmptied ==> ExpandedPrefix(nodes, graph, old(|nodes|), |nodes| - 1)
      ensures exists m :: old(|nodes|) <= m < |nodes| && ExpandedPrefix(nodes, graph, old(|nodes|), m)
      ensures ChildrenEnabled(nodes, graph, old(|nodes|), pilots)
    {
      var r := CreateRoot(strat, ships, bases);
      if InGoalState(nodes[r]) {
        assert ExpandedPrefix(nodes, graph, r, r);
        return RootIsGoal;
      }
      ghost var g0 := graph;
      ghost var n0 := nodes[..r];
      ghost var rootNode := nodes[r];
      SearchStart(r, pilots);
      ghost var last;
      outcome, last := Search(r, pilots, fuel, g0, n0, rootNode);
      SearchEnd(r, last, pilots, g0, n0, rootNode);
    }

    /** The loop of the search, from the root `r` on. */
    method Search(r: nat, pilots: nat, fuel: nat, ghost g0: map<nat, seq<nat>>,
                  ghost n0: seq<PlanNode>, ghost rootNode: PlanNode) returns (outcome: Outcome, ghost last: nat)
      requires SearchInv(r, r, pilots, g0, n0, rootNode) && !InGoalState(nodes[r]) && |nodes| == r + 1
      modifies this
      ensures SearchInv(r, last, pilots, g0, n0, rootNode)
      ensures outcome != RootIsGoal
      ensures outcome == GoalFound ==> goal == Some(last) && r < last
      ensures outcome != GoalFound ==> goal == old(goal)
      ensures forall k :: r <= k < last ==> !InGoalState(nodes[k])
      ensures outcome == QueueEmptied ==> last == |nodes| - 1
    {
      var cur: nat := r;
      var queue: seq<nat> := [];
      var budget := fuel;
      while budget > 0
        invariant SearchInv(r, cur, pilots, g0, n0, rootNode)
        invariant goal == old(goal)
        invariant |queue| == |nodes| - cur - 1 && forall j :: 0 <= j < |queue| ==> queue[j] == cur + 1 + j
        invariant forall k :: r <= k <= cur ==> !InGoalState(nodes[k])
      {
        budget := budget - 1;
        ghost var c0 := cur;
        var kids := ExpandStep(r, cur, pilots, g0, n0, rootNode);
        queue := queue + kids;
        assert forall j :: 0 <= j < |queue| ==> queue[j] == c0 + 1 + j;
        cur := queue[0];
        queue := queue[1..];
        if InGoalState(nodes[cur]) {
          goal := Some(cur);
          return GoalFound, cur;
        }
        if queue == [] {
          return QueueEmptied, cur;
        }
      }
      return OutOfFuel, cur;
    }

    lemma SearchStart(r: nat, pilots: nat)
      requires Valid() && r + 1 == |nodes| && root == Some(r) && Reaches(nodes, r, r)
      requires forall k :: k in graph ==> k < r
      ensures SearchInv(r, r, pilots, graph, nodes[..r], nodes[r])
    {
    }

    lemma SearchEnd(r: nat, last: nat, pilots: nat, g0: map<nat, seq<nat>>, n0: seq<PlanNode>, rootNode: PlanNode)
      requires SearchInv(r, last, pilots, g0, n0, rootNode)
      ensures |nodes| > r && nodes[..r] == n0 && nodes[r] == rootNode
      ensures ExpandedPrefix(nodes, graph, r, last)
      ensures ChildrenEnabled(nodes, graph, r, pilots)
      ensures Reaches(nodes, last, r)
    {
    }

    /** Creates the root of a new search, with no parent, after every existing node. */
    method CreateRoot(strat: Strategy, ships: int, bases: int) returns (r: nat)
      requires Valid()
      modifies this
      ensures Valid()
      ensures r == old(|nodes|) && nodes == old(nodes) + [PlanNode(strat, ships, bases, None)]
      ensures root == Some(r) && graph == old(graph) && goal == old(goal)
      ensures nodes[..r] == old(nodes) && Reaches(nodes, r, r)
      ensures forall k :: k in graph ==> k < r
    {
      r := |nodes|;
      HasEffectAppend(nodes, PlanNode(strat, ships, bases, None), minShips);
      nodes := nodes + [PlanNode(strat, ships, bases, None)];
      root := Some(r);
      assert nodes[..r] == old(nodes);
    }

    /**
     * What holds between expansions of a search rooted at `r`: the nodes
     * before `r` and the graph entries of earlier searches are untouched, the
     * new nodes expanded so far are exactly those before `cur`, each with the
     * children its preconditions enable, and every new node descends from `r`.
     */
    ghost predicate SearchInv(r: nat, cur: nat, pilots: nat, g0: map<nat, seq<nat>>,
                              n0: seq<PlanNode>, rootNode: PlanNode)
      reads this
    {
      && Valid()
      && r <= cur < |nodes| && |n0| == r && nodes[..r] == n0 && nodes[r] == rootNode
      && root == Some(r)
      && (forall k :: k in g0 ==> k in graph && graph[k] == g0[k])
      && ExpandedPrefix(nodes, graph, r, cur)
      && (forall k :: r <= k < |nodes| ==> Reaches(nodes, k, r))
      && ChildrenEnabled(nodes, graph, r, pilots)
    }

    /** One turn of the search loop: expands `cur`, whose children join the end of the queue. */
    method ExpandStep(r: nat, cur: nat, pilots: nat, ghost g0: map<nat, seq<nat>>,
                      ghost n0: seq<PlanNode>, ghost rootNode: PlanNode) returns (kids: seq<nat>)
      requires SearchInv(r, cur, pilots, g0, n0, rootNode)
      modifies this
      ensures SearchInv(r, cur + 1, pilots, g0, n0, rootNode)
      ensures |kids| >= 1 && |nodes| == old(|nodes|) + |kids|
      ensures forall j :: 0 <= j < |kids| ==> kids[j] == old(|nodes|) + j
      ensures forall k :: 0 <= k < old(|nodes|) ==> nodes[k] == old(nodes[k])
      ensures goal == old(goal)
    {
      ghost var before := nodes;
      ghost var g := graph;
      kids := Expand(cur, pilots);
      ReachesAfterExpand(before, nodes, r, cur);
      assert nodes[..r] == n0 by {
        assert nodes[..r] == nodes[..|before|][..r];
      }
      ExpandedPrefixStep(before, nodes, g, r, cur, kids);
      ChildrenEnabledStep(before, nodes, g, r, cur, kids, pilots);
    }

    /**
     * Walks parent pointers back from the recorded goal to the current root
     * and answers the strategy of the node just below the root.  A root that
     * already meets the goal answers FREE_MINE.  A missing root or goal, or a
     * goal whose ancestry does not pass through the current root, ends in a
     * null dereference.
     */
    method FindBestStrategy() returns (r: Result<Strategy>)
      requires Valid()
      ensures root.None? ==> r == Fail(NullPointer)
      ensures root.Some? && InGoalState(nodes[root.value]) ==> r == Ok(FreeMine)
      ensures root.Some? && !InGoalState(nodes[root.value]) ==>
        (r.Ok? <==> goal.Some? && Reaches(nodes, goal.value, root.value))
      ensures root.Some? && !InGoalState(nodes[root.value]) && r.Ok? ==>
        exists c :: 0 <= c < |nodes| && nodes[c].parent == root && Reaches(nodes, goal.value, c)
          && r.value == nodes[c].strat
      ensures r.Fail? ==> r.fault == NullPointer
    {
      if root.None? {
        return Fail(NullPointer);
      }
      var rt := root.value;
      if InGoalState(nodes[rt]) {
        return Ok(FreeMine);
      }
      if goal.None? {
        return Fail(NullPointer);
      }
      var current: nat := goal.value;
      var currentStrat := nodes[current].strat;
      assert current != rt;
      ghost var below := current;
      while current != rt
        invariant current < |nodes| && Reaches(nodes, goal.value, current)
        invariant Reaches(nodes, goal.value, rt) <==> Reaches(nodes, current, rt)
        invariant below < |nodes| && Reaches(nodes, goal.value, below) && currentStrat == nodes[below].strat
        invariant current != goal.value ==> nodes[below].parent == Some(current)
        decreases current
      {
        currentStrat := nodes[current].strat;
        below := current;
        if nodes[current].parent.None? {
          return Fail(NullPointer);
        }
        current := nodes[current].parent.value;
        ReachesTrans(goal.value, below, current);
      }
      return Ok(currentStrat);
    }

    lemma {:induction false} ReachesTrans(d: nat, m: nat, a: nat)
      requires Valid() && d < |nodes| && m < |nodes|
      requires Reaches(nodes, d, m) && nodes[m].parent == Some(a)
      ensures Reaches(nodes, d, a)
      decreases d
    {
      if d != m {
        ReachesTrans(nodes[d].parent.value, m, a);
      }
    }
  }
}
