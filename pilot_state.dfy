/**
 * A pilot's own planning: a visibility graph over the objects in its field
 * of view, an A*-style search over that graph whose nodes carry mutable
 * cost estimates, the resulting stack of waypoints and its execution, plus
 * the pilot's small selection rules (nearest beacon, base, refuelling point
 * and prospect, goal priority, what to buy).
 */
module Pilot {
  import opened World
  import opened ShipStates
  import opened GlobalStates

  const LowFuel: real := 1000.0
  const CargoCapacity: real := 1500.0
  const Frontier: real := 250.0
  const MinBaseFuel: real := 1000.0
  const ExeTime: int := 10

  /** A graph node: the object it stands for and its cost so far (g) and estimate to the goal (h). */
  class Node {
    const obj: WorldObject
    const isBypass: bool
    var g: Cost
    var h: Cost

    /** A plain node starts with both costs at +infinity. */
    constructor (obj: WorldObject)
      ensures this.obj == obj && !isBypass && g == Inf && h == Inf
    {
      this.obj := obj;
      isBypass := false;
      g := Inf;
      h := Inf;
    }
  }

  /** A mutable set of nodes; the graph stores references to such sets. */
  class NodeSet {
    var elems: set<Node>

    constructor ()
      ensures elems == {}
    {
      elems := {};
    }
  }

  /** The objects strictly within `fov` of the ship. */
  function FovSet(space: Space, ship: WorldObject, fov: real): set<WorldObject> {
    set o | o in space.objects && space.dist(ship.pos, o.pos) < fov
  }

  /** Everything in the graph except the two ends of the edge being checked. */
  function Obstacles(order: seq<WorldObject>, i: nat, j: nat): set<WorldObject>
    requires i < |order| && j < |order|
  {
    (set o | o in order) - {order[i], order[j]}
  }

  /** The objects of `order` reachable from `order[i]` along a clear path. */
  predicate ClearEdge(space: Space, ship: WorldObject, order: seq<WorldObject>, i: nat, j: nat)
    requires i < |order| && j < |order|
  {
    j != i && space.clear(order[i].pos, order[j].pos, Obstacles(order, i, j), ship.radius * 2.0)
  }

  /** The nodes of the objects reachable from `order[i]` along a clear path. */
  function Neighbours(space: Space, ship: WorldObject, order: seq<WorldObject>, i: nat, nodes: map<ObjId, Node>): set<Node>
    requires i < |order|
    requires forall k :: 0 <= k < |order| ==> order[k].id in nodes
  {
    set j | 0 <= j < |order| && ClearEdge(space, ship, order, i, j) :: nodes[order[j].id]
  }

  function IdsUpTo(order: seq<WorldObject>, i: nat): set<ObjId>
    requires i <= |order|
  {
    set k | 0 <= k < i :: order[k].id
  }

  /** The value a relaxation keeps: the candidate only when strictly smaller. */
  function Improve(current: Cost, candidate: Cost): (r: Cost)
    ensures r.AtMost(current)
    ensures r == current || r == candidate
    ensures r.Fin? <==> current.Fin? || candidate.Fin?
  {
    if candidate.Below(current) then candidate else current
  }

  /**
   * The stack `path` spells the predecessor chain from `goal` back to (but
   * excluding) `start`: goal at the bottom, the first hop on top.
   */
  ghost predicate ChainOf(path: seq<Node>, prev: map<Node, Node>, start: Node, goal: Node) {
    && (goal == start ==> path == [])
    && (goal != start ==>
         && |path| > 0 && path[0] == goal
         && path[|path| - 1] in prev && prev[path[|path| - 1]] == start
         && (forall i :: 0 <= i < |path| - 1 ==> path[i] in prev && prev[path[i]] == path[i + 1]))
    && start !in path
    && (forall i, j :: 0 <= i < j < |path| ==> path[i] != path[j])
  }

  /**
   * The sets of the search at the top of each round: open and closed are
   * disjoint parts of the universe `U`; before the first round only the
   * start is open, and from then on the start is closed.
   */
  ghost predicate SearchSets(U: set<Node>, start: Node, open: set<Node>, closed: set<Node>, prev: map<Node, Node>) {
    && open <= U && closed <= U && open * closed == {} && start in U
    && (closed == {} ==> open == {start} && prev == map[])
    && (closed != {} ==> start in closed)
  }

  /**
   * The predecessor table of the search: `rank` numbers the closed nodes in
   * closing order, the start has no entry, and every entry names a closed
   * node, closed before the node it is filed under, that has it as a child.
   */
  ghost predicate Predecessors(start: Node, closed: set<Node>, prev: map<Node, Node>, rank: map<Node, nat>,
                               edges: map<ObjId, set<Node>>)
  {
    && rank.Keys == closed && (forall n :: n in closed ==> rank[n] < |closed|)
    && start !in prev
    && (forall n :: n in prev ==> prev[n] in closed && prev[n].obj.id in edges && n in edges[prev[n].obj.id])
    && (forall n :: n in prev && n in closed ==> rank[prev[n]] < rank[n])
  }

  /** Every node the search has reached, except the start, has a predecessor. */
  ghost predicate Linked(start: Node, open: set<Node>, closed: set<Node>, prev: map<Node, Node>) {
    forall n :: n in open + closed && n != start ==> n in prev
  }

  /** Closing the current node and opening its unclosed neighbours keeps the sets apart. */
  lemma FrontierStep(U: set<Node>, start: Node, open: set<Node>, closed: set<Node>, prev: map<Node, Node>,
                     current: Node, neighbors: set<Node>, open': set<Node>, prev': map<Node, Node>)
    requires SearchSets(U, start, open, closed, prev)
    requires current in open && neighbors <= U
    requires open' == (open - {current}) + (neighbors - (closed + {current}))
    ensures SearchSets(U, start, open', closed + {current}, prev')
    ensures current !in closed && (closed == {} ==> current == start)
  {
    assert current !in open * closed;
    if closed == {} {
      assert current in {start};
    }
    var closed' := closed + {current};
    assert open' * closed' == {} by {
      forall n | n in open'
        ensures n !in closed'
      {
        if n in open - {current} {
          assert n !in open * closed;
        }
      }
    }
  }

  /**
   * Closing the current node and making it the predecessor of some of its
   * unclosed neighbours keeps the predecessor table well ranked.
   */
  lemma PredecessorStep(start: Node, closed: set<Node>, prev: map<Node, Node>, rank: map<Node, nat>,
                        edges: map<ObjId, set<Node>>, current: Node, neighbors: set<Node>, upd: set<Node>,
                        prev': map<Node, Node>)
    requires Predecessors(start, closed, prev, rank, edges)
    requires start in closed + {current} && current !in closed
    requires current.obj.id in edges && neighbors == edges[current.obj.id]
    requires upd <= neighbors - (closed + {current})
    requires forall n :: n in prev' <==> n in prev || n in upd
    requires forall n :: n in prev' ==> prev'[n] == if n in upd then current else prev[n]
    ensures Predecessors(start, closed + {current}, prev', rank[current := |closed|], edges)
  {
    var closed' := closed + {current};
    var rank' := rank[current := |closed|];
    assert |closed'| == |closed| + 1;
    assert rank'.Keys == closed';
    forall n | n in closed'
      ensures rank'[n] < |closed'|
    {
      if n != current {
        assert rank'[n] == rank[n];
      }
    }
    assert start !in upd;
    forall n | n in prev'
      ensures prev'[n] in closed' && prev'[n].obj.id in edges && n in edges[prev'[n].obj.id]
    {
      if n in upd {
        assert prev'[n] == current;
      } else {
        assert n in prev && prev'[n] == prev[n];
      }
    }
    forall n | n in prev' && n in closed'
      ensures rank'[prev'[n]] < rank'[n]
    {
      assert n !in upd;
      if n == current {
        assert prev[n] in closed;
      }
    }
  }

  /** A newly reached neighbour always gets a predecessor, so every reached node keeps one. */
  lemma LinkedStep(start: Node, open: set<Node>, closed: set<Node>, prev: map<Node, Node>,
                   current: Node, neighbors: set<Node>, upd: set<Node>, open': set<Node>, prev': map<Node, Node>)
    requires Linked(start, open, closed, prev) && current in open && start in open + closed
    requires open' == (open - {current}) + (neighbors - (closed + {current}))
    requires forall n :: n in prev' <==> n in prev || n in upd
    requires neighbors - (closed + {current}) - open <= upd
    ensures Linked(start, open', closed + {current}, prev')
  {
  }

  /** Every node of `U` the search has not reached, except the start, still has g = +infinity. */
  ghost predicate Unreached(U: set<Node>, start: Node, open: set<Node>, closed: set<Node>)
    reads U
  {
    forall n :: n in U && n != start && n !in open && n !in closed ==> n.g == Inf
  }

  ghost predicate FiniteG(s: set<Node>)
    reads s
  {
    forall n :: n in s ==> n.g.Fin?
  }

  /** Every node of `s` has an entry in `adj`. */
  ghost predicate Keyed(s: set<Node>, adj: map<ObjId, set<Node>>) {
    forall n :: n in s ==> n.obj.id in adj
  }

  /** Every child in `adj` has an entry of its own. */
  ghost predicate KeyedGraph(adj: map<ObjId, set<Node>>) {
    forall k :: k in adj ==> Keyed(adj[k], adj)
  }

  /** Every node of `U` but `start` has g = +infinity. */
  ghost predicate InfExcept(U: set<Node>, start: Node)
    reads U
  {
    forall n :: n in U && n != start ==> n.g == Inf
  }

  /**
   * The set side of the search from round to round; `keyed` says the start
   * and every child have an entry in `adj`.
   */
  ghost predicate SearchShape(U: set<Node>, start: Node, adj: map<ObjId, set<Node>>, keyed: bool,
                              open: set<Node>, closed: set<Node>, prev: map<Node, Node>, rank: map<Node, nat>)
  {
    && SearchSets(U, start, open, closed, prev)
    && Predecessors(start, closed, prev, rank, adj)
    && (keyed ==> Keyed(open + closed, adj))
  }

  /**
   * The heap side, for a search that began with g = +infinity on every node
   * of `U` but the start: every reached node has a finite g and (but the
   * start) a predecessor, and every other node still has g = +infinity.
   */
  ghost predicate Reach(U: set<Node>, start: Node, open: set<Node>, closed: set<Node>, prev: map<Node, Node>)
    reads U
  {
    && open + closed <= U
    && Linked(start, open, closed, prev) && FiniteG(open + closed) && Unreached(U, start, open, closed)
  }

  /**
   * What the predecessor table gives setPath once the search stops, with
   * the goal (when it was picked and so not closed) ranked after every
   * closed node.
   */
  lemma Outcome(start: Node, closed: set<Node>, prev: map<Node, Node>, rank: map<Node, nat>,
                adj: map<ObjId, set<Node>>, rank': map<Node, nat>)
    requires Predecessors(start, closed, prev, rank, adj)
    requires rank' == rank || exists goal: Node :: goal !in closed && rank' == rank[goal := |closed|]
    ensures start !in prev
    ensures forall n :: n in prev ==> prev[n] in rank' && prev[n].obj.id in adj && n in adj[prev[n].obj.id]
    ensures forall n :: n in rank' && n in prev ==> rank'[prev[n]] < rank'[n]
  {
  }

  lemma KeyedStep(adj: map<ObjId, set<Node>>, open: set<Node>, closed: set<Node>, current: Node,
                  neighbors: set<Node>, open': set<Node>)
    requires Keyed(open + closed, adj) && Keyed(neighbors, adj) && current in open
    requires open' == (open - {current}) + (neighbors - (closed + {current}))
    ensures Keyed(open' + (closed + {current}), adj)
  {
    forall n | n in open' + (closed + {current})
      ensures n.obj.id in adj
    {
      if n !in open + closed {
        assert n in neighbors;
      }
    }
  }

  /** The set and table side of one round of the search, for the pure state. */
  lemma ShapeStep(U: set<Node>, start: Node, adj: map<ObjId, set<Node>>, keyed: bool,
                  open: set<Node>, closed: set<Node>, prev: map<Node, Node>, rank: map<Node, nat>,
                  current: Node, upd: set<Node>, open': set<Node>, prev': map<Node, Node>)
    requires forall k :: k in adj ==> adj[k] <= U
    requires keyed ==> KeyedGraph(adj)
    requires SearchShape(U, start, adj, keyed, open, closed, prev, rank)
    requires current in open && current.obj.id in adj
    requires open' == (open - {current}) + (adj[current.obj.id] - (closed + {current}))
    requires upd <= adj[current.obj.id] - (closed + {current})
    requires forall n :: n in prev' <==> n in prev || n in upd
    requires forall n :: n in prev' ==> prev'[n] == if n in upd then current else prev[n]
    ensures SearchShape(U, start, adj, keyed, open', closed + {current}, prev', rank[current := |closed|])
    ensures current !in closed
  {
    var neighbors := adj[current.obj.id];
    FrontierStep(U, start, open, closed, prev, current, neighbors, open', prev');
    PredecessorStep(start, closed, prev, rank, adj, current, neighbors, upd, prev');
    if keyed {
      KeyedStep(adj, open, closed, current, neighbors, open');
    }
  }

  /**
   * An expansion from a node with finite g reaches every unclosed child.
   * `g1` holds the g values from before the expansion: every child gets a
   * finite g, one not reached before gets a predecessor, and every other
   * node keeps its g.
   */
  lemma ReachStep(U: set<Node>, start: Node, current: Node, neighbors: set<Node>,
                  open: set<Node>, closed: set<Node>, prev: map<Node, Node>,
                  open': set<Node>, prev': map<Node, Node>, upd: set<Node>, g1: map<Node, Cost>)
    requires open + closed <= U && U <= g1.Keys
    requires Linked(start, open, closed, prev)
    requires forall n :: n in open + closed ==> g1[n].Fin?
    requires forall n :: n in U && n != start && n !in open && n !in closed ==> g1[n] == Inf
    requires current in open && start in open + closed && neighbors <= U
    requires open' == (open - {current}) + (neighbors - (closed + {current}))
    requires forall n :: n in prev' <==> n in prev || n in upd
    requires forall n :: n in U && (n !in neighbors || n in closed + {current}) ==> n.g == g1[n]
    requires forall n :: n in neighbors && n !in closed + {current} ==> n.g.Fin? && (g1[n] == Inf ==> n in upd)
    ensures Reach(U, start, open', closed + {current}, prev')
  {
    var closed' := closed + {current};
    LinkedStep(start, open, closed, prev, current, neighbors, upd, open', prev');
    forall n: Node | n in open' + closed'
      ensures n.g.Fin?
    {
      if n !in neighbors || n in closed' {
        assert n in open + closed;
      }
    }
    forall n | n in U && n != start && n !in open' && n !in closed'
      ensures n.g == Inf
    {
      assert n !in neighbors;
    }
  }


  /**
   * The bookkeeping of an expansion after the neighbours in `done`: the
   * unclosed ones are open, the improved ones (`gain`) have `current` as
   * predecessor, and every other entry is as before.
   */
  ghost predicate ExpandBook(done: set<Node>, closed: set<Node>, gain: set<Node>, current: Node,
                             open0: set<Node>, prev0: map<Node, Node>,
                             open: set<Node>, upd: set<Node>, prev: map<Node, Node>)
  {
    && open == open0 + (done - closed)
    && upd == gain * done
    && prev.Keys == prev0.Keys + upd
    && (forall n :: n in prev ==> prev[n] == if n in upd then current else prev0[n])
  }

  lemma ExpandBookStep(done: set<Node>, closed: set<Node>, gain: set<Node>, current: Node,
                       open0: set<Node>, prev0: map<Node, Node>,
                       open: set<Node>, upd: set<Node>, prev: map<Node, Node>,
                       neighbor: Node, open': set<Node>, upd': set<Node>, prev': map<Node, Node>)
    requires ExpandBook(done, closed, gain, current, open0, prev0, open, upd, prev)
    requires neighbor !in done
    requires neighbor in gain ==> neighbor !in closed
    requires open' == if neighbor in closed then open else open + {neighbor}
    requires upd' == if neighbor in gain then upd + {neighbor} else upd
    requires prev' == if neighbor in gain then prev[neighbor := current] else prev
    ensures ExpandBook(done + {neighbor}, closed, gain, current, open0, prev0, open', upd', prev')
  {
  }

  // ---------------------------------------------------------------------
  // The pilot's selection rules, as functions of the world

  /** findNearestBeacon: the first beacon of least distance from the ship, None if there is none. */
  function NearestBeacon(space: Space, ship: WorldObject): Option<WorldObject> {
    FirstMin(Beacons(space), DistFrom(space, ship))
  }

  /** findNearestBase: the first nearest base of the ship's team (holding at least MinBaseFuel with `refuel`). */
  function NearestBase(space: Space, ship: WorldObject, refuel: bool): Option<WorldObject> {
    FirstMin(OwnBases(space, ship, refuel, MinBaseFuel), DistFrom(space, ship))
  }

  /** The nearest base is a base of the ship's team, fuelled when asked; there is none only when no base qualifies. */
  lemma NearestBaseFacts(space: Space, ship: WorldObject, refuel: bool)
    ensures var r := NearestBase(space, ship, refuel);
      && (r.Some? ==> r.value.IsBase() && r.value.team == ship.team && r.value in space.objects)
      && (r.Some? && refuel ==> r.value.energy >= MinBaseFuel)
      && (r.None? <==> forall b :: b in space.objects && b.IsBase() ==>
            b.team != ship.team || (refuel && b.energy < MinBaseFuel))
  {
    assert forall o :: o in space.objects && o.IsBase() ==> o in Bases(space);
  }

  /** findNearestProspect: the first nearest asteroid that can be mined. */
  function NearestProspect(space: Space, ship: WorldObject): Option<WorldObject> {
    FirstMin(Minable(space), DistFrom(space, ship))
  }

  /** A place the ship can refuel at: a beacon, or a base of its team holding at least MinBaseFuel. */
  predicate RefuelSpot(ship: WorldObject, o: WorldObject) {
    o.IsBeacon() || (o.IsBase() && o.team == ship.team && o.energy >= MinBaseFuel)
  }

  /**
   * findNearestRefuel: the nearest qualifying base unless the nearest beacon
   * is strictly closer.  Both distances are read before they are compared,
   * so a missing base or a missing beacon is a null dereference.
   */
  function RefuelChoice(space: Space, ship: WorldObject): (r: Result<WorldObject>)
    ensures r.Fail? <==> NearestBase(space, ship, true).None? || NearestBeacon(space, ship).None?
    ensures r.Fail? ==> r.fault == NullPointer
    ensures r.Ok? ==> r.value in space.objects && RefuelSpot(ship, r.value)
    ensures r.Ok? ==> forall o :: o in space.objects && RefuelSpot(ship, o) ==>
      space.dist(ship.pos, r.value.pos) <= space.dist(ship.pos, o.pos)
  {
    var base := NearestBase(space, ship, true);
    var beacon := NearestBeacon(space, ship);
    if base.None? || beacon.None? then Fail(NullPointer)
    else
      var key := DistFrom(space, ship);
      RefuelCandidates(space, ship);
      if key(base.value) <= key(beacon.value) then Ok(base.value) else Ok(beacon.value)
  }

  /** The nearest qualifying base and the nearest beacon are refuelling points nearest of their kind. */
  lemma RefuelCandidates(space: Space, ship: WorldObject)
    requires NearestBase(space, ship, true).Some? && NearestBeacon(space, ship).Some?
    ensures var base := NearestBase(space, ship, true).value;
      && base in space.objects && RefuelSpot(ship, base)
      && forall o :: o in space.objects && o.IsBase() && o.team == ship.team && o.energy >= MinBaseFuel ==>
           space.dist(ship.pos, base.pos) <= space.dist(ship.pos, o.pos)
    ensures var beacon := NearestBeacon(space, ship).value;
      && beacon in space.objects && beacon.IsBeacon()
      && forall o :: o in space.objects && o.IsBeacon() ==> space.dist(ship.pos, beacon.pos) <= space.dist(ship.pos, o.pos)
  {
    var bases := OwnBases(space, ship, true, MinBaseFuel);
    assert forall o :: o in space.objects && o.IsBeacon() ==> o in Beacons(space);
    assert forall o :: o in space.objects && o.IsBase() ==> o in Bases(space);
    assert forall o :: o in Bases(space) && o.team == ship.team && o.energy >= MinBaseFuel ==> o in bases;
  }

  /**
   * The goal of decideAction and prePlan, by priority: a refuelling point
   * when energy is below LowFuel, else an own base when the cargo is over
   * CargoCapacity, else the nearest prospect.  Ok(None) is a null goal.
   */
  function Goal(space: Space, ship: WorldObject): (r: Result<Option<WorldObject>>)
    ensures r.Fail? <==> ship.energy < LowFuel && RefuelChoice(space, ship).Fail?
    ensures r.Fail? ==> r.fault == NullPointer
    ensures r.Ok? && r.value.Some? ==> r.value.value in space.objects
    ensures r.Ok? && ship.energy < LowFuel ==> r.value.Some? && RefuelSpot(ship, r.value.value)
    ensures r.Ok? && ship.energy >= LowFuel && ship.total > CargoCapacity ==>
      && (r.value.Some? ==> r.value.value.IsBase() && r.value.value.team == ship.team)
      && (r.value.None? <==> forall o :: o in space.objects && o.IsBase() ==> o.team != ship.team)
    ensures r.Ok? && ship.energy >= LowFuel && ship.total <= CargoCapacity ==>
      && (r.value.Some? ==> r.value.value.IsMineable())
      && (r.value.None? <==> forall o :: o in space.objects ==> !o.IsMineable())
  {
    if ship.energy < LowFuel then
      match RefuelChoice(space, ship)
      case Fail(f) => Fail(f)
      case Ok(o) => Ok(Some(o))
    else if ship.total > CargoCapacity then
      var base := NearestBase(space, ship, false);
      assert forall o :: o in space.objects && o.IsBase() ==> o in Bases(space);
      if base.None? then Ok(None) else Ok(base)
    else
      var prospect := NearestProspect(space, ship);
      assert forall o :: o in space.objects && o.IsMineable() ==> o in Asteroids(space);
      if prospect.None? then Ok(None) else Ok(prospect)
  }

  /**
   * optimalApproach reduced to its target; it reads the pilot's own vessel,
   * so without one it is a null dereference.
   */
  function Approach(vessel: Option<WorldObject>, target: Position): Result<Action> {
    if vessel.None? then Fail(NullPointer) else Ok(MoveTo(target))
  }

  /**
   * decideAction's answer.  Its fallback of doing nothing when no refuelling
   * point is found never happens: findNearestRefuel either finds one or
   * fails, so every action decided is a move.
   */
  function Decision(space: Space, vessel: Option<WorldObject>, ship: WorldObject): (r: Result<Action>)
    ensures r.Ok? ==> r.value.MoveTo?
    ensures r.Ok? <==> vessel.Some? && Goal(space, ship).Ok? && Goal(space, ship).value.Some?
    ensures r.Fail? ==> r.fault == NullPointer
  {
    match Goal(space, ship)
    case Fail(f) => Fail(f)
    case Ok(None) => if ship.energy < LowFuel then Ok(DoNothing) else Fail(NullPointer)
    case Ok(Some(g)) => Approach(vessel, g.pos)
  }

  /** prePlan's objects are iterated in `order`: each object in view, and the goal, exactly once. */
  ghost predicate GoalOrder(space: Space, ship: WorldObject, fov: real, order: seq<WorldObject>) {
    && UniqueIds(order)
    && (Goal(space, ship).Ok? && Goal(space, ship).value.Some? ==>
         forall o :: o in order <==> o in FovSet(space, ship, fov) || o == Goal(space, ship).value.value)
  }

  /** asteroidsByResources: the mineable asteroids, sorted by ascending resource total. */
  function AsteroidsByResources(space: Space): (r: seq<WorldObject>)
    ensures multiset(r) == multiset(Minable(space))
    ensures forall a, b :: 0 <= a < b < |r| ==> r[a].total <= r[b].total
    ensures forall o :: o in r ==> o.IsMineable() && o in space.objects
  {
    SortedByTotal(Minable(space));
    SortBy(Minable(space), Total)
  }

  /** assessPlan's test for a finished waypoint as written: the ship's radius is at most its distance to it. */
  predicate PopsAsWritten(space: Space, ship: WorldObject, waypoint: Position) {
    ship.radius <= space.dist(ship.pos, waypoint)
  }

  /** A waypoint is reached when the ship is closer to it than its own radius. */
  predicate Reached(space: Space, ship: WorldObject, waypoint: Position) {
    space.dist(ship.pos, waypoint) < ship.radius
  }

  /** The test as written is the exact negation of reaching: it pops precisely the waypoints not yet reached. */
  lemma PopsExactlyUnreached(space: Space, ship: WorldObject, waypoint: Position)
    ensures PopsAsWritten(space, ship, waypoint) <==> !Reached(space, ship, waypoint)
  {
  }

  /** A ship of radius 10 that is 500 away from its waypoint pops it as written, though it has not reached it. */
  lemma AssessPlanCounterexample(space: Space, ship: WorldObject, waypoint: Position)
    requires ship.radius == 10.0 && space.dist(ship.pos, waypoint) == 500.0
    ensures PopsAsWritten(space, ship, waypoint) && !Reached(space, ship, waypoint)
  {
  }

  /** How a search ended: the goal was reached and a path set, or the open set ran dry. */
  datatype Plan = Planned | Exhausted

  class PilotState {
    var vessel: Option<WorldObject>
    var graph: map<ObjId, NodeSet>
    var nodes: map<ObjId, Node>
    /** The waypoint stack; its top is the last element. */
    var path: seq<Node>
    var exe: int
    var fov: real

    /**
     * Nodes are filed under their object's id, the node table and the graph
     * have the same keys, and every child in the graph is a node of the table.
     */
    ghost predicate Valid()
      reads this, graph.Values
    {
      && (forall k :: k in nodes ==> nodes[k].obj.id == k)
      && nodes.Keys == graph.Keys
      && (forall k :: k in graph ==> graph[k].elems <= nodes.Values)
    }

    /** Half the smaller side of the map. */
    static function FovFor(space: Space): real {
      (if space.height <= space.width then space.height else space.width) / 2.0
    }

    /** A new pilot: no vessel yet, empty tables and path, and a replan due. */
    constructor (space: Space)
      ensures vessel.None? && graph == map[] && nodes == map[] && path == []
      ensures exe == ExeTime && fov == FovFor(space)
      ensures Valid()
    {
      vessel := None;
      graph := map[];
      nodes := map[];
      path := [];
      exe := ExeTime;
      fov := FovFor(space);
    }

    /** The field of view is half the smaller side of the map. */
    method SetFOV(space: Space)
      modifies this
      ensures fov == FovFor(space)
      ensures fov <= space.height / 2.0 && fov <= space.width / 2.0
      ensures fov == space.height / 2.0 || fov == space.width / 2.0
      ensures vessel == old(vessel) && graph == old(graph) && nodes == old(nodes)
      ensures path == old(path) && exe == old(exe)
    {
      var side := if space.height <= space.width then space.height else space.width;
      fov := side;
      fov := fov / 2.0;
    }

    /** The objects strictly within the field of view of the ship. */
    method ObjectsInFov(space: Space, ship: WorldObject) returns (objects: set<WorldObject>)
      ensures objects == FovSet(space, ship, fov)
      ensures forall o :: o in objects ==> o in space.objects && space.dist(ship.pos, o.pos) < fov
    {
      objects := {};
      var all := space.objects;
      for i := 0 to |all|
        invariant objects == set o | o in all[..i] && space.dist(ship.pos, o.pos) < fov
      {
        assert all[..i + 1] == all[..i] + [all[i]];
        if space.dist(ship.pos, all[i].pos) < fov {
          objects := objects + {all[i]};
        }
      }
      assert all[..|all|] == all;
    }

    /** One fresh node per object, filed under the object's id. */
    static method NewNodes(order: seq<WorldObject>) returns (nodes: map<ObjId, Node>)
      requires UniqueIds(order)
      ensures nodes.Keys == IdsUpTo(order, |order|)
      ensures forall k :: 0 <= k < |order| ==>
        var n := nodes[order[k].id];
        fresh(n) && n.obj == order[k] && !n.isBypass && n.g == Inf && n.h == Inf
    {
      nodes := map[];
      for i := 0 to |order|
        invariant nodes.Keys == IdsUpTo(order, i)
        invariant forall k :: 0 <= k < i ==>
          var n := nodes[order[k].id];
          fresh(n) && n.obj == order[k] && !n.isBypass && n.g == Inf && n.h == Inf
      {
        var n := new Node(order[i]);
        nodes := nodes[order[i].id := n];
      }
    }

    /**
     * Refills `children` with the nodes of the objects of `other` (everything
     * but `order[i]`) that have a clear path from `order[i]`, each checked with
     * every other object of the graph as an obstacle.
     */
    static method FillChildren(space: Space, ship: WorldObject, order: seq<WorldObject>, i: nat,
                               nodes: map<ObjId, Node>, other: set<WorldObject>, children: NodeSet)
      requires i < |order| && UniqueIds(order)
      requires forall k :: 0 <= k < |order| ==> order[k].id in nodes
      requires other == (set o | o in order) - {order[i]}
      modifies children
      ensures children.elems == Neighbours(space, ship, order, i, nodes)
    {
      var a := order[i];
      children.elems := {};
      var obs := other;
      for j := 0 to |order|
        invariant obs == other
        invariant children.elems == set k | 0 <= k < j && ClearEdge(space, ship, order, i, k) :: nodes[order[k].id]
      {
        if j != i {
          var b := order[j];
          assert b != a by {
            if i < j { assert order[i].id != order[j].id; } else { assert order[j].id != order[i].id; }
          }
          obs := obs - {b};
          assert obs == Obstacles(order, i, j);
          if space.clear(a.pos, b.pos, obs, ship.radius * 2.0) {
            children.elems := children.elems + {nodes[b.id]};
          }
          obs := obs + {b};
        }
      }
    }

    /**
     * The linking pass of genGraph: for each object in `order`, one shared
     * `children` set is cleared, refilled with that object's neighbours and
     * stored under the object's id.
     */
    static method LinkAll(space: Space, ship: WorldObject, order: seq<WorldObject>, nodes: map<ObjId, Node>)
      returns (graph: map<ObjId, NodeSet>, children: NodeSet)
      requires UniqueIds(order) && |order| > 0
      requires forall k :: 0 <= k < |order| ==> order[k].id in nodes
      ensures fresh(children)
      ensures graph.Keys == IdsUpTo(order, |order|)
      ensures forall k :: k in graph ==> graph[k] == children
      ensures children.elems == Neighbours(space, ship, order, |order| - 1, nodes)
    {
      var objects := set o | o in order;
      var other := objects;
      children := new NodeSet();
      graph := map[];
      for i := 0 to |order|
        invariant other == objects
        invariant graph.Keys == IdsUpTo(order, i)
        invariant forall k :: k in graph ==> graph[k] == children
        invariant i > 0 ==> children.elems == Neighbours(space, ship, order, i - 1, nodes)
      {
        var a := order[i];
        other := other - {a};
        FillChildren(space, ship, order, i, nodes, other, children);
        other := other + {a};
        graph := graph[a.id := children];
      }
    }

    /**
     * Builds the visibility graph over the objects in view plus the goal,
     * visited in `order` (the iteration order of that set).  Every object
     * gets a fresh node; one `children` set is cleared and refilled for each
     * object and stored under every key, so at the end every entry refers to
     * the same set, holding the neighbours of the last object visited.
     */
    method GenGraph(space: Space, ship: WorldObject, goal: WorldObject, order: seq<WorldObject>)
      requires UniqueIds(order)
      requires forall o :: o in order <==> o in FovSet(space, ship, fov) || o == goal
      modifies this
      ensures vessel == old(vessel) && path == old(path) && exe == old(exe) && fov == old(fov)
      ensures nodes.Keys == graph.Keys == IdsUpTo(order, |order|)
      ensures forall k :: 0 <= k < |order| ==>
        var n := nodes[order[k].id];
        fresh(n) && n.obj == order[k] && !n.isBypass && n.g == Inf && n.h == Inf
      ensures |order| > 0
      ensures var shared := graph[order[|order| - 1].id];
        && fresh(shared)
        && (forall k :: k in graph ==> graph[k] == shared)
        && shared.elems == Neighbours(space, ship, order, |order| - 1, nodes)
      ensures Valid()
    {
      var objects := ObjectsInFov(space, ship);
      objects := objects + {goal};
      assert objects == set o | o in order;
      assert |order| > 0 by {
        assert goal in order;
      }
      nodes := NewNodes(order);
      var children;
      graph, children := LinkAll(space, ship, order, nodes);
      assert order[|order| - 1].id in graph;
      assert children.elems <= nodes.Values;
    }

    /**
     * The estimate to the goal: +infinity for an asteroid that cannot be
     * mined and for a base whose team does not include this pilot's vessel,
     * otherwise the distance to the goal.
     */
    static function FindH(space: Space, vessel: Option<WorldObject>, node: Node, goal: Node): (r: Cost)
      ensures r.Inf? <==>
        (node.obj.IsAsteroid() && !node.obj.IsMineable())
        || (node.obj.IsBase() && !(vessel.Some? && vessel.value.id in node.obj.kind.teamShips))
      ensures r.Fin? ==> r.v == space.dist(node.obj.pos, goal.obj.pos)
    {
      if node.obj.IsAsteroid() && !node.obj.IsMineable() then Inf
      else if node.obj.IsBase() && !(vessel.Some? && vessel.value.id in node.obj.kind.teamShips) then Inf
      else Fin(space.dist(node.obj.pos, goal.obj.pos))
    }

    /** The cost so far of reaching `end` through `start`. */
    static function FindG(space: Space, start: Node, end: Node): (r: Cost)
      reads start
      ensures r.Fin? <==> start.g.Fin?
      ensures r.Fin? ==> r.v == space.dist(start.obj.pos, end.obj.pos) + start.g.v
    {
      Fin(space.dist(start.obj.pos, end.obj.pos)).Plus(start.g)
    }

    /**
     * What findLowestFNode's scan over `s` ends with: the first node, then
     * any node whose g plus the current best's h is strictly below the
     * best's g plus the best's h.
     */
    static function LowestF(s: seq<Node>): (r: Node?)
      reads set n | n in s
      ensures r == null <==> s == []
      ensures r != null ==> r in s
    {
      if s == [] then null else
        var best := LowestF(s[..|s| - 1]);
        var node := s[|s| - 1];
        if best == null || node.g.Plus(best.h).Below(best.g.Plus(best.h)) then node else best
    }

    /** With a finite h on the best, the comparison is a comparison of g alone. */
    static lemma ReplacesIffBelow(node: Node, best: Node)
      requires best.h.Fin?
      ensures node.g.Plus(best.h).Below(best.g.Plus(best.h)) <==> node.g.Below(best.g)
      ensures !node.g.Below(best.g) <==> best.g.AtMost(node.g)
    {
    }

    /**
     * Once the best so far has h = +infinity it is never replaced: both
     * sides of the comparison are +infinity.
     */
    static lemma {:induction false} LowestFSticksAtInfiniteH(s: seq<Node>, i: nat)
      requires i <= |s|
      requires LowestF(s[..i]) != null && LowestF(s[..i]).h.Inf?
      ensures LowestF(s) == LowestF(s[..i])
      decreases |s|
    {
      if i < |s| {
        assert s[..|s| - 1][..i] == s[..i];
        LowestFSticksAtInfiniteH(s[..|s| - 1], i);
      } else {
        assert s[..i] == s;
      }
    }

    /**
     * When the chosen node's h is finite, the comparison only ever compared
     * g values, and the chosen node has the least g of all.
     */
    static lemma {:induction false} LowestFMinimisesG(s: seq<Node>)
      requires LowestF(s) != null && LowestF(s).h.Fin?
      ensures forall n :: n in s ==> LowestF(s).g.AtMost(n.g)
      decreases |s|
    {
      var u := s[..|s| - 1];
      var best := LowestF(u);
      var node := s[|s| - 1];
      var r := LowestF(s);
      assert forall n :: n in s ==> n in u || n == node;
      if best == null {
        assert u == [];
        assert r == node;
      } else if node.g.Plus(best.h).Below(best.g.Plus(best.h)) {
        assert best.h.Fin?;
        ReplacesIffBelow(node, best);
        LowestFMinimisesG(u);
        assert r == node;
      } else {
        assert r == best;
        ReplacesIffBelow(node, best);
        LowestFMinimisesG(u);
      }
    }

    /**
     * The scan of findLowestFNode over the set `nodes`, visited in an
     * unspecified order (returned as `order`): null exactly when the set is
     * empty, otherwise a member, and one of least g whenever its h is finite.
     */
    static method FindLowestFNode(nodes: set<Node>) returns (best: Node?, ghost order: seq<Node>)
      ensures (set n | n in order) == nodes && |order| == |nodes|
      ensures best == LowestF(order)
      ensures best == null <==> nodes == {}
      ensures best != null ==> best in nodes
      ensures best != null && best.h.Fin? ==> forall n :: n in nodes ==> best.g.AtMost(n.g)
    {
      best := null;
      order := [];
      var rest := nodes;
      while rest != {}
        invariant rest <= nodes
        invariant (set n | n in order) == nodes - rest
        invariant |order| + |rest| == |nodes|
        invariant best == LowestF(order)
        decreases |rest|
      {
        var node :| node in rest;
        if best == null || node.g.Plus(best.h).Below(best.g.Plus(best.h)) {
          best := node;
        }
        assert (order + [node])[..|order|] == order;
        assert (set n | n in order + [node]) == (set n | n in order) + {node};
        order := order + [node];
        rest := rest - {node};
      }
      if order != [] {
        assert order[0] in (set n | n in order);
        assert nodes != {};
      }
      if best != null && best.h.Fin? {
        LowestFMinimisesG(order);
      }
    }

    /**
     * One step of the expansion: the neighbour keeps the smaller of its h
     * and the estimate `h`, and of its g and the cost `g` through `current`;
     * `current` becomes its predecessor when either improved.
     */
    static method Relax(current: Node, neighbor: Node, h: Cost, g: Cost, prev0: map<Node, Node>)
      returns (prev: map<Node, Node>, ghost improved: bool)
      modifies neighbor
      ensures neighbor.h == Improve(old(neighbor.h), h) && neighbor.g == Improve(old(neighbor.g), g)
      ensures improved <==> h.Below(old(neighbor.h)) || g.Below(old(neighbor.g))
      ensures prev == if improved then prev0[neighbor := current] else prev0
    {
      prev := prev0;
      improved := false;
      if h.Below(neighbor.h) {
        neighbor.h := h;
        prev := prev[neighbor := current];
        improved := true;
      }
      if g.Below(neighbor.g) {
        neighbor.g := g;
        prev := prev[neighbor := current];
        improved := true;
      }
    }

    /** Some enumeration of a set of nodes, each once: the order a for-each loop visits them in. */
    static method Enumerate(s: set<Node>) returns (order: seq<Node>)
      ensures forall n :: n in order <==> n in s
      ensures forall i, j :: 0 <= i < j < |order| ==> order[i] != order[j]
    {
      order := [];
      var rest := s;
      while rest != {}
        invariant rest <= s
        invariant forall n :: n in order <==> n in s && n !in rest
        invariant forall i, j :: 0 <= i < j < |order| ==> order[i] != order[j]
        decreases |rest|
      {
        var n: Node :| n in rest;
        order := order + [n];
        rest := rest - {n};
      }
    }

    /** One neighbour of the expansion: relaxed and opened unless it is already closed. */
    static method Visit(space: Space, vessel: Option<WorldObject>, current: Node, neighbor: Node, closed: set<Node>,
                        goal: Node, open0: set<Node>, prev0: map<Node, Node>)
      returns (open: set<Node>, prev: map<Node, Node>, ghost improved: bool)
      requires current in closed
      modifies neighbor
      ensures neighbor in closed ==>
        && !improved && open == open0 && prev == prev0
        && neighbor.g == old(neighbor.g) && neighbor.h == old(neighbor.h)
      ensures neighbor !in closed ==>
        && open == open0 + {neighbor}
        && neighbor.h == Improve(old(neighbor.h), FindH(space, vessel, neighbor, goal))
        && neighbor.g == Improve(old(neighbor.g), old(FindG(space, current, neighbor)))
        && (improved <==> FindH(space, vessel, neighbor, goal).Below(old(neighbor.h))
                          || old(FindG(space, current, neighbor)).Below(old(neighbor.g)))
        && prev == if improved then prev0[neighbor := current] else prev0
      ensures current.g == old(current.g) && current.h == old(current.h)
    {
      open, prev, improved := open0, prev0, false;
      if neighbor !in closed {
        var h := FindH(space, vessel, neighbor, goal);
        var g := FindG(space, current, neighbor);
        prev, improved := Relax(current, neighbor, h, g, prev0);
        open := open0 + {neighbor};
      }
    }

    /**
     * The expansion of `current`: every neighbour not yet closed gets the
     * smaller of its h and its fresh estimate, the smaller of its g and the
     * cost through `current`, `current` as predecessor when either improved
     * (the ghost `upd` collects those), and a place in the open set.
     */
    static method ExpandNeighbours(space: Space, vessel: Option<WorldObject>, current: Node, neighbors: set<Node>, closed: set<Node>, goal: Node,
                            open0: set<Node>, prev0: map<Node, Node>)
      returns (open: set<Node>, prev: map<Node, Node>, ghost upd: set<Node>)
      requires current in closed
      modifies neighbors
      ensures open == open0 + (neighbors - closed)
      ensures upd <= neighbors - closed
      ensures forall n :: n in neighbors && n !in closed ==>
        && n.h == Improve(old(n.h), FindH(space, vessel, n, goal))
        && n.g == Improve(old(n.g), old(FindG(space, current, n)))
        && (n in upd <==> FindH(space, vessel, n, goal).Below(old(n.h)) || old(FindG(space, current, n)).Below(old(n.g)))
      ensures forall n :: n in neighbors && n in closed ==> n.g == old(n.g) && n.h == old(n.h)
      ensures current.g == old(current.g) && current.h == old(current.h)
      ensures current.g.Fin? ==> forall n :: n in neighbors && n !in closed ==>
        n.g.Fin? && (old(n.g) == Inf ==> n in upd)
      ensures forall n :: n in prev <==> n in prev0 || n in upd
      ensures forall n :: n in prev ==> prev[n] == if n in upd then current else prev0[n]
    {
      var order := Enumerate(neighbors);
      ghost var gain := set n | n in neighbors && n !in closed &&
        (FindH(space, vessel, n, goal).Below(n.h) || FindG(space, current, n).Below(n.g));
      open := open0;
      prev := prev0;
      upd := {};
      ghost var done: set<Node> := {};
      for i := 0 to |order|
        invariant done == set k | 0 <= k < i :: order[k]
        invariant forall k :: 0 <= k < |order| ==> order[k] in neighbors
        invariant ExpandBook(done, closed, gain, current, open0, prev0, open, upd, prev)
        invariant forall k :: 0 <= k < |order| ==>
          if k >= i || order[k] in closed then order[k].g == old(order[k].g) && order[k].h == old(order[k].h)
          else && order[k].g == Improve(old(order[k].g), old(FindG(space, current, order[k])))
               && order[k].h == Improve(old(order[k].h), FindH(space, vessel, order[k], goal))
        invariant current.g == old(current.g) && current.h == old(current.h)
      {
        var neighbor := order[i];
        ghost var open', upd', prev' := open, upd, prev;
        ghost var improved;
        open, prev, improved := Visit(space, vessel, current, neighbor, closed, goal, open, prev);
        assert improved <==> neighbor in gain;
        if improved {
          upd := upd + {neighbor};
        }
        ExpandBookStep(done, closed, gain, current, open0, prev0, open', upd', prev', neighbor, open, upd, prev);
        done := done + {neighbor};
      }
      assert done == neighbors;
    }

    /**
     * Rebuilds the waypoint stack by following predecessors from `goal` back
     * to `start`, pushing each node; a missing predecessor is a null node
     * whose position is then read.  On success exe restarts at 0.  `rank`
     * (strictly smaller at each predecessor) is the termination measure.
     */
    method SetPath(prev: map<Node, Node>, start: Node, goal: Node, ghost rank: map<Node, nat>) returns (r: Result<()>)
      requires goal in rank
      requires forall n :: n in rank && n in prev ==> prev[n] in rank && rank[prev[n]] < rank[n]
      modifies this
      ensures vessel == old(vessel) && graph == old(graph) && nodes == old(nodes) && fov == old(fov)
      ensures r.Ok? ==> exe == 0 && ChainOf(path, prev, start, goal)
      ensures r.Fail? ==> r.fault == NullPointer && exe == old(exe)
      ensures (forall n :: n in rank && n != start ==> n in prev) ==> r.Ok?
    {
      path := [];
      var current := goal;
      while current != start
        invariant current in rank
        invariant path == [] ==> current == goal
        invariant path != [] ==> path[0] == goal && path[|path| - 1] in prev && prev[path[|path| - 1]] == current
        invariant forall i :: 0 <= i < |path| - 1 ==> path[i] in prev && prev[path[i]] == path[i + 1]
        invariant forall i :: 0 <= i < |path| ==> path[i] != start && path[i] in rank && rank[path[i]] > rank[current]
        invariant forall i, j :: 0 <= i < j < |path| ==> rank[path[i]] > rank[path[j]]
        invariant vessel == old(vessel) && graph == old(graph) && nodes == old(nodes) && fov == old(fov)
        invariant exe == old(exe)
        decreases rank[current]
      {
        path := path + [current];
        if current !in prev {
          return Fail(NullPointer);
        }
        current := prev[current];
      }
      exe := 0;
      return Ok(());
    }

    /** `to` is among the children the graph lists for `from`. */
    ghost predicate Edge(from: Node, to: Node)
      reads this, graph.Values
    {
      from.obj.id in graph && to in graph[from.obj.id].elems
    }

    /**
     * The waypoint stack leads from `start` to `goal` along graph edges:
     * goal at the bottom, the first hop (a child of the start) on top, each
     * node a child of the one above it, the start itself left out, and no
     * node twice.
     */
    ghost predicate Route(start: Node, goal: Node)
      reads this, graph.Values
    {
      && (goal == start ==> path == [])
      && (goal != start ==>
           && |path| > 0 && path[0] == goal
           && Edge(start, path[|path| - 1])
           && (forall i :: 0 <= i < |path| - 1 ==> Edge(path[i + 1], path[i])))
      && start !in path
      && (forall i, j :: 0 <= i < j < |path| ==> path[i] != path[j])
    }

    /** A predecessor chain whose every link is a graph edge is a route. */
    lemma ChainIsRoute(prev: map<Node, Node>, start: Node, goal: Node, edges: map<ObjId, set<Node>>)
      requires ChainOf(path, prev, start, goal)
      requires edges.Keys == graph.Keys && forall k :: k in graph ==> graph[k].elems == edges[k]
      requires forall n :: n in prev ==> prev[n].obj.id in edges && n in edges[prev[n].obj.id]
      ensures Route(start, goal)
    {
      if goal != start {
        assert path[|path| - 1] in prev;
        forall i | 0 <= i < |path| - 1
          ensures Edge(path[i + 1], path[i])
        {
          assert path[i] in prev && prev[path[i]] == path[i + 1];
        }
      }
    }

    /**
     * One round of planPath after the picked node `current` turned out not
     * to be the goal: close it, then expand its children, keeping every
     * invariant of the search.  g and h only ever go down, and a node
     * already closed (or being closed) is never updated.
     */
    static method Round(space: Space, vessel: Option<WorldObject>, start: Node, goal: Node,
                        adj: map<ObjId, set<Node>>, ghost U: set<Node>, ghost allInf: bool, ghost keyed: bool,
                        current: Node, open: set<Node>, closed: set<Node>, prev: map<Node, Node>,
                        ghost rank: map<Node, nat>)
      returns (open': set<Node>, prev': map<Node, Node>, ghost rank': map<Node, nat>)
      requires forall k :: k in adj ==> adj[k] <= U
      requires keyed ==> KeyedGraph(adj)
      requires current in open && current.obj.id in adj
      requires SearchShape(U, start, adj, keyed, open, closed, prev, rank)
      requires allInf ==> Reach(U, start, open, closed, prev)
      modifies adj[current.obj.id]
      ensures SearchShape(U, start, adj, keyed, open', closed + {current}, prev', rank')
      ensures allInf ==> Reach(U, start, open', closed + {current}, prev')
      ensures current !in closed
      ensures forall n :: n in U ==> n.g.AtMost(old(n.g)) && n.h.AtMost(old(n.h))
      ensures forall n :: n in closed + {current} ==> n.g == old(n.g) && n.h == old(n.h)
    {
      FrontierStep(U, start, open, closed, prev, current, {}, open - {current}, prev);
      var closed' := closed + {current};
      var neighbors := adj[current.obj.id];
      ghost var g1 := map n | n in U :: n.g;
      if allInf {
        assert forall n :: n in open + closed ==> g1[n].Fin?;
        assert forall n :: n in U && n != start && n !in open && n !in closed ==> g1[n] == Inf;
      }
      ghost var upd;
      open', prev', upd := ExpandNeighbours(space, vessel, current, neighbors, closed', goal, open - {current}, prev);
      ShapeStep(U, start, adj, keyed, open, closed, prev, rank, current, upd, open', prev');
      rank' := rank[current := |closed|];
      forall n | n in U
        ensures n.g.AtMost(old(n.g)) && n.h.AtMost(old(n.h))
      {
        if n in neighbors && n !in closed' {
          assert n.g == Improve(old(n.g), old(FindG(space, current, n)));
          assert n.h == Improve(old(n.h), FindH(space, vessel, n, goal));
        } else {
          assert n.g == old(n.g) && n.h == old(n.h);
        }
      }
      if allInf {
        ReachStep(U, start, current, neighbors, open, closed, prev, open', prev', upd, g1);
      }
    }

    /**
     * The search loop of planPath over the children sets `adj` (the graph's
     * entries, which the search reads but never changes) and the nodes `U`
     * it may touch.  It ends with Ok(true) when the goal is picked,
     * Ok(false) when the open set runs dry, and a null dereference when a
     * picked node's id has no entry.  `rank` numbers the closed nodes (and
     * finally the goal) in the order they were picked.
     */
    static method Search(space: Space, vessel: Option<WorldObject>, start: Node, goal: Node,
                         adj: map<ObjId, set<Node>>, ghost U: set<Node>)
      returns (r: Result<bool>, prev: map<Node, Node>, ghost rank: map<Node, nat>)
      requires start in U && forall k :: k in adj ==> adj[k] <= U
      modifies U
      ensures start.g == Fin(0.0) && start.h == FindH(space, vessel, start, goal)
      ensures r.Fail? ==> r.fault == NullPointer
      ensures start !in prev
      ensures forall n :: n in prev ==> prev[n] in rank && prev[n].obj.id in adj && n in adj[prev[n].obj.id]
      ensures r == Ok(true) ==> goal in rank
      ensures forall n :: n in rank && n in prev ==> rank[prev[n]] < rank[n]
      ensures old(InfExcept(U, start)) && start.obj.id in adj && KeyedGraph(adj) ==>
                r.Ok? && (r.value ==> forall n :: n in rank && n != start ==> n in prev)
    {
      ghost var allInf := InfExcept(U, start);
      ghost var keyed := start.obj.id in adj && KeyedGraph(adj);
      start.g := Fin(0.0);
      start.h := FindH(space, vessel, start, goal);
      var open: set<Node> := {start};
      var closed: set<Node> := {};
      prev := map[];
      rank := map[];
      r := Ok(false);
      while open != {}
        modifies U
        invariant r == Ok(false)
        invariant SearchShape(U, start, adj, keyed, open, closed, prev, rank)
        invariant allInf ==> Reach(U, start, open, closed, prev)
        invariant start.g == Fin(0.0) && start.h == FindH(space, vessel, start, goal)
        decreases |U - closed|
      {
        var lowest, order := FindLowestFNode(open);
        var current: Node := lowest;
        if current == goal {
          ghost var rank' := rank[goal := |closed|];
          Outcome(start, closed, prev, rank, adj, rank');
          rank := rank';
          r := Ok(true);
          break;
        }
        if current.obj.id !in adj {
          Outcome(start, closed, prev, rank, adj, rank);
          r := Fail(NullPointer);
          break;
        }
        open, prev, rank := Round(space, vessel, start, goal, adj, U, allInf, keyed, current, open, closed, prev, rank);
        closed := closed + {current};
      }
      if r == Ok(false) {
        Outcome(start, closed, prev, rank, adj, rank);
      }
    }

    /**
     * planPath: the search from `start` to `goal`, then setPath when the goal
     * was reached.  A null start, or a picked node whose id has no graph
     * entry, is a null dereference; an emptied open set leaves the path and
     * exe as they were.
     */
    method PlanPath(space: Space, start: Node?, goal: Node) returns (r: Result<Plan>)
      requires Valid()
      modifies this, start, nodes.Values
      ensures graph == old(graph) && nodes == old(nodes) && vessel == old(vessel) && fov == old(fov)
      ensures start == null ==> r == Fail(NullPointer)
      ensures r.Fail? ==> r.fault == NullPointer
      ensures r == Ok(Exhausted) ==> path == old(path) && exe == old(exe)
      ensures r == Ok(Planned) ==> start != null && exe == 0 && Route(start, goal)
      ensures r.Ok? ==> start != null && start.g == Fin(0.0) && start.h == FindH(space, vessel, start, goal)
      ensures (start != null && start.obj.id in graph && old(forall n :: n in nodes.Values ==> n.g == Inf)) ==> r.Ok?
    {
      if start == null {
        return Fail(NullPointer);
      }
      var adj := map k | k in graph :: graph[k].elems;
      ghost var U := nodes.Values + {start};
      ghost var W: set<object> := U;
      assert this !in W;
      AdjacencyKeyed(adj);
      var found, prev, rank := Search(space, vessel, start, goal, adj, U);
      if found.Fail? {
        return Fail(found.fault);
      }
      if !found.value {
        return Ok(Exhausted);
      }
      var done := Trace(prev, start, goal, rank, adj);
      if done.Fail? {
        return Fail(done.fault);
      }
      return Ok(Planned);
    }

    /** The path-setting tail of planPath: the predecessor chain from the goal back to the start, as a route. */
    method Trace(prev: map<Node, Node>, start: Node, goal: Node, ghost rank: map<Node, nat>,
                 ghost adj: map<ObjId, set<Node>>) returns (r: Result<()>)
      requires goal in rank
      requires forall n :: n in rank && n in prev ==> prev[n] in rank && rank[prev[n]] < rank[n]
      requires adj == map k | k in graph :: graph[k].elems
      requires forall n :: n in prev ==> prev[n].obj.id in adj && n in adj[prev[n].obj.id]
      modifies this
      ensures vessel == old(vessel) && graph == old(graph) && nodes == old(nodes) && fov == old(fov)
      ensures r.Ok? ==> exe == 0 && Route(start, goal)
      ensures r.Fail? ==> r.fault == NullPointer && exe == old(exe)
      ensures (forall n :: n in rank && n != start ==> n in prev) ==> r.Ok?
    {
      r := SetPath(prev, start, goal, rank);
      if r.Ok? {
        ChainIsRoute(prev, start, goal, adj);
      }
    }

    /** Every neighbour in the graph is itself a node with an entry in the adjacency. */
    lemma AdjacencyKeyed(adj: map<ObjId, set<Node>>)
      requires Valid() && adj == map k | k in graph :: graph[k].elems
      ensures forall k :: k in adj ==> Keyed(adj[k], adj)
    {
      forall k | k in adj
        ensures Keyed(adj[k], adj)
      {
        forall n: Node | n in adj[k]
          ensures n.obj.id in adj
        {
          var j :| j in nodes && nodes[j] == n;
        }
      }
    }

    /**
     * assessPlan: the top waypoint is popped when the ship's radius is at
     * most its distance to it, and an empty stack makes the next tick replan.
     */
    method AssessPlan(space: Space, ship: WorldObject)
      modifies this
      ensures var popped := old(path) != [] && PopsAsWritten(space, ship, old(path)[|old(path)| - 1].obj.pos);
        path == if popped then old(path)[..|old(path)| - 1] else old(path)
      ensures exe == if path == [] then ExeTime else old(exe)
      ensures vessel == old(vessel) && graph == old(graph) && nodes == old(nodes) && fov == old(fov)
    {
      if path != [] {
        if ship.radius <= space.dist(ship.pos, path[|path| - 1].obj.pos) {
          path := path[..|path| - 1];
        }
      }
      if path == [] {
        exe := ExeTime;
      }
    }

    /** assessPlan with the test the right way round: a waypoint is popped once the ship is within its radius of it. */
    method AssessPlanFixed(space: Space, ship: WorldObject)
      modifies this
      ensures var popped := old(path) != [] && Reached(space, ship, old(path)[|old(path)| - 1].obj.pos);
        path == if popped then old(path)[..|old(path)| - 1] else old(path)
      ensures exe == if path == [] then ExeTime else old(exe)
      ensures vessel == old(vessel) && graph == old(graph) && nodes == old(nodes) && fov == old(fov)
    {
      if path != [] {
        if space.dist(ship.pos, path[|path| - 1].obj.pos) < ship.radius {
          path := path[..|path| - 1];
        }
      }
      if path == [] {
        exe := ExeTime;
      }
    }

    /** The first beacon of least distance from the ship; None if there is no beacon. */
    static method FindNearestBeacon(space: Space, ship: WorldObject) returns (r: Option<WorldObject>)
      ensures r == NearestBeacon(space, ship)
      ensures r.None? <==> forall o :: o in space.objects ==> !o.IsBeacon()
      ensures r.Some? ==> r.value.IsBeacon() && r.value in space.objects
      ensures r.Some? ==> forall o :: o in space.objects && o.IsBeacon() ==>
        space.dist(ship.pos, r.value.pos) <= space.dist(ship.pos, o.pos)
    {
      var beacons := Beacons(space);
      assert forall o :: o in space.objects && o.IsBeacon() ==> o in beacons;
      r := ScanNearest(beacons, DistFrom(space, ship));
    }

    /**
     * The first nearest base of the ship's team; with `refuel` a base must
     * also hold MinBaseFuel, a test made only once the base is nearer than
     * the best so far.
     */
    static method FindNearestBase(space: Space, ship: WorldObject, refuel: bool) returns (r: Option<WorldObject>)
      ensures r == NearestBase(space, ship, refuel)
      ensures r.Some? ==> r.value.IsBase() && r.value.team == ship.team && r.value in space.objects
      ensures r.Some? && refuel ==> r.value.energy >= MinBaseFuel
      ensures r.None? <==> forall b :: b in space.objects && b.IsBase() ==>
        b.team != ship.team || (refuel && b.energy < MinBaseFuel)
    {
      var bases := Bases(space);
      var shortest := Inf;
      var key := DistFrom(space, ship);
      ghost var p := (b: WorldObject) => b.team == ship.team && (!refuel || b.energy >= MinBaseFuel);
      r := None;
      for i := 0 to |bases|
        invariant r == FirstMinWhere(bases[..i], p, key)
        invariant r.None? <==> shortest == Inf
        invariant r.Some? ==> shortest == Fin(key(r.value))
      {
        var base := bases[i];
        FirstMinWhereStep(bases, i, p, key);
        if base.team == ship.team {
          var dist := space.dist(ship.pos, base.pos);
          if Fin(dist).Below(shortest) {
            if refuel {
              if base.energy >= MinBaseFuel {
                shortest := Fin(dist);
                r := Some(base);
              }
            } else {
              shortest := Fin(dist);
              r := Some(base);
            }
          }
        }
      }
      assert bases[..|bases|] == bases;
      FirstMinWhereIsFilter(bases, p, key);
      NearestBaseFacts(space, ship, refuel);
    }

    /** The mineable asteroids, in iteration order. */
    static method GetMinableAsteroids(space: Space) returns (minable: seq<WorldObject>)
      ensures minable == Minable(space)
      ensures forall o :: o in minable <==> o in space.objects && o.IsMineable()
    {
      var asteroids := Asteroids(space);
      var p := (o: WorldObject) => o.IsMineable();
      minable := [];
      for i := 0 to |asteroids|
        invariant minable == Filter(asteroids[..i], p)
      {
        FilterStep(asteroids, i, p);
        if asteroids[i].IsMineable() {
          minable := minable + [asteroids[i]];
        }
      }
      assert asteroids[..|asteroids|] == asteroids;
      assert forall o :: o in space.objects && o.IsMineable() ==> o in asteroids;
    }

    /** The first mineable asteroid of least distance from the ship; None if none is mineable. */
    static method FindNearestProspect(space: Space, ship: WorldObject) returns (r: Option<WorldObject>)
      ensures r == NearestProspect(space, ship)
      ensures r.None? <==> forall o :: o in space.objects ==> !o.IsMineable()
      ensures r.Some? ==> r.value.IsMineable() && r.value in space.objects
      ensures r.Some? ==> forall o :: o in space.objects && o.IsMineable() ==>
        space.dist(ship.pos, r.value.pos) <= space.dist(ship.pos, o.pos)
    {
      var prospects := GetMinableAsteroids(space);
      r := ScanNearest(prospects, DistFrom(space, ship));
    }

    /** Where to refuel; a missing base or a missing beacon is a null dereference. */
    static method FindNearestRefuel(space: Space, ship: WorldObject) returns (r: Result<WorldObject>)
      ensures r == RefuelChoice(space, ship)
    {
      var base := FindNearestBase(space, ship, true);
      var beacon := FindNearestBeacon(space, ship);
      if base.None? || beacon.None? {
        return Fail(NullPointer);
      }
      if space.dist(ship.pos, base.value.pos) <= space.dist(ship.pos, beacon.value.pos) {
        return Ok(base.value);
      } else {
        return Ok(beacon.value);
      }
    }

    /**
     * decideAction: refuel when low on energy, unload when over capacity,
     * else head for the nearest prospect; a null goal is dereferenced.
     */
    method DecideAction(space: Space, ship: WorldObject) returns (r: Result<Action>)
      ensures r == Decision(space, vessel, ship)
      ensures r.Ok? ==> r.value.MoveTo?
    {
      if ship.energy < LowFuel {
        var goal := FindNearestRefuel(space, ship);
        if goal.Fail? {
          return Fail(goal.fault);
        }
        return Approach(vessel, goal.value.pos);
      }
      if ship.total > CargoCapacity {
        var goal := FindNearestBase(space, ship, false);
        if goal.None? {
          return Fail(NullPointer);
        }
        return Approach(vessel, goal.value.pos);
      }
      var goal := FindNearestProspect(space, ship);
      if goal.None? {
        return Fail(NullPointer);
      }
      return Approach(vessel, goal.value.pos);
    }

    /**
     * shop: a ship whenever one is affordable; otherwise a base when one is
     * affordable and no base of the ship's team lies within Frontier;
     * otherwise nothing.  The two affordability answers come from the
     * simulator's price list.
     */
    static method Shop(space: Space, ship: WorldObject, canAffordShip: bool, canAffordBase: bool)
      returns (r: Option<Purchase>)
      ensures canAffordShip ==> r == Some(ShipPurchase)
      ensures !canAffordShip ==> r != Some(ShipPurchase)
      ensures r == Some(BasePurchase) <==>
        (!canAffordShip && canAffordBase &&
         forall b :: b in space.objects && b.IsBase() && b.team == ship.team ==> space.dist(ship.pos, b.pos) >= Frontier)
    {
      if canAffordShip {
        return Some(ShipPurchase);
      }
      if canAffordBase {
        var bases := Bases(space);
        for i := 0 to |bases|
          invariant forall k :: 0 <= k < i && bases[k].team == ship.team ==> space.dist(ship.pos, bases[k].pos) >= Frontier
        {
          if bases[i].team == ship.team {
            var distance := space.dist(ship.pos, bases[i].pos);
            if distance < Frontier {
              return None;
            }
          }
        }
        assert forall b :: b in space.objects && b.IsBase() ==> b in bases;
        return Some(BasePurchase);
      }
      return None;
    }

    /** The goal by decideAction's priority, as prePlan selects it; Ok(None) is a null goal. */
    static method ChooseGoal(space: Space, ship: WorldObject) returns (r: Result<Option<WorldObject>>)
      ensures r == Goal(space, ship)
    {
      if ship.energy < LowFuel {
        var refuel := FindNearestRefuel(space, ship);
        if refuel.Fail? {
          return Fail(refuel.fault);
        }
        return Ok(Some(refuel.value));
      } else if ship.total > CargoCapacity {
        var base := FindNearestBase(space, ship, false);
        return Ok(base);
      }
      var prospect := FindNearestProspect(space, ship);
      return Ok(prospect);
    }

    /**
     * prePlan as written: the start node is looked up in the node table
     * BEFORE genGraph rebuilds it, so a pilot whose table has no entry for
     * its ship (every new pilot) fails with a null start, and otherwise the
     * search starts from the previous graph's node for the ship, which the
     * rebuilt table no longer holds.  A null goal fails inside genGraph
     * after the tables were cleared.
     */
    method PrePlan(space: Space, ship: WorldObject, order: seq<WorldObject>) returns (r: Result<Plan>)
      requires Valid() && GoalOrder(space, ship, fov, order)
      modifies this, nodes.Values
      ensures Valid()
      ensures vessel == old(vessel) && fov == old(fov)
      ensures r.Fail? ==> r.fault == NullPointer
      ensures Goal(space, ship).Fail? ==>
        r.Fail? && graph == old(graph) && nodes == old(nodes) && path == old(path) && exe == old(exe)
      ensures Goal(space, ship) == Ok(None) ==>
        r.Fail? && graph == map[] && nodes == map[] && path == old(path) && exe == old(exe)
      ensures ship.id !in old(nodes) ==> r.Fail?
      ensures r.Ok? ==> ship.id in old(nodes) && old(nodes[ship.id]) !in nodes.Values
      ensures r == Ok(Exhausted) ==> path == old(path) && exe == old(exe)
      ensures r == Ok(Planned) ==>
        && ship.id in old(nodes) && Goal(space, ship).Ok? && Goal(space, ship).value.Some?
        && Goal(space, ship).value.value.id in nodes
        && exe == 0 && Route(old(nodes[ship.id]), nodes[Goal(space, ship).value.value.id])
      ensures (&& ship.id in old(nodes) && Goal(space, ship).Ok? && Goal(space, ship).value.Some?
               && ship.id in IdsUpTo(order, |order|)) ==> r.Ok?
    {
      var start: Node? := if ship.id in nodes then nodes[ship.id] else null;
      var goal := ChooseGoal(space, ship);
      if goal.Fail? {
        return Fail(goal.fault);
      }
      if goal.value.None? {
        graph := map[];
        nodes := map[];
        return Fail(NullPointer);
      }
      r := PlanFrom(space, ship, start, goal.value.value, order);
    }

    /**
     * prePlan after its goal `target` is chosen: genGraph, then planPath
     * from `start`, a node of the table as it was before the rebuild (or
     * null), to the goal's new node.
     */
    method PlanFrom(space: Space, ship: WorldObject, start: Node?, target: WorldObject, order: seq<WorldObject>)
      returns (r: Result<Plan>)
      requires Valid()
      requires start != null ==> start in nodes.Values
      requires UniqueIds(order)
      requires forall o :: o in order <==> o in FovSet(space, ship, fov) || o == target
      modifies this, nodes.Values
      ensures Valid()
      ensures vessel == old(vessel) && fov == old(fov)
      ensures target.id in nodes
      ensures r.Fail? ==> r.fault == NullPointer
      ensures start == null ==> r.Fail?
      ensures start != null ==> start !in nodes.Values
      ensures r == Ok(Exhausted) ==> path == old(path) && exe == old(exe)
      ensures r == Ok(Planned) ==> start != null && exe == 0 && Route(start, nodes[target.id])
      ensures start != null && start.obj.id in IdsUpTo(order, |order|) ==> r.Ok?
    {
      GenGraph(space, ship, target, order);
      FreshTable(order);
      assert target.id in nodes by {
        assert target in order;
        var k :| 0 <= k < |order| && order[k] == target;
      }
      r := PlanPath(space, start, nodes[target.id]);
    }

    /**
     * prePlan with the start node looked up after genGraph: the search
     * starts from the ship's node in the rebuilt graph, and whenever the
     * ship is among the objects in view it raises no null dereference.
     */
    method PrePlanFixed(space: Space, ship: WorldObject, order: seq<WorldObject>) returns (r: Result<Plan>)
      requires Valid() && GoalOrder(space, ship, fov, order)
      modifies this, nodes.Values
      ensures Valid()
      ensures vessel == old(vessel) && fov == old(fov)
      ensures r.Fail? ==> r.fault == NullPointer
      ensures Goal(space, ship).Fail? ==>
        r.Fail? && graph == old(graph) && nodes == old(nodes) && path == old(path) && exe == old(exe)
      ensures Goal(space, ship) == Ok(None) ==>
        r.Fail? && graph == map[] && nodes == map[] && path == old(path) && exe == old(exe)
      ensures r == Ok(Exhausted) ==> path == old(path) && exe == old(exe)
      ensures r == Ok(Planned) ==>
        && ship.id in nodes && Goal(space, ship).Ok? && Goal(space, ship).value.Some?
        && Goal(space, ship).value.value.id in nodes
        && exe == 0 && Route(nodes[ship.id], nodes[Goal(space, ship).value.value.id])
      ensures (Goal(space, ship).Ok? && Goal(space, ship).value.Some? && ship.id in IdsUpTo(order, |order|)) ==> r.Ok?
    {
      var goal := ChooseGoal(space, ship);
      if goal.Fail? {
        return Fail(goal.fault);
      }
      if goal.value.None? {
        graph := map[];
        nodes := map[];
        return Fail(NullPointer);
      }
      r := PlanFromOwnNode(space, ship, goal.value.value, order);
    }

    /** PlanFrom with the start looked up in the rebuilt table: the ship's own new node. */
    method PlanFromOwnNode(space: Space, ship: WorldObject, target: WorldObject, order: seq<WorldObject>)
      returns (r: Result<Plan>)
      requires Valid()
      requires UniqueIds(order)
      requires forall o :: o in order <==> o in FovSet(space, ship, fov) || o == target
      modifies this, nodes.Values
      ensures Valid()
      ensures vessel == old(vessel) && fov == old(fov)
      ensures target.id in nodes
      ensures r.Fail? ==> r.fault == NullPointer
      ensures ship.id in IdsUpTo(order, |order|) <==> r.Ok?
      ensures r == Ok(Exhausted) ==> path == old(path) && exe == old(exe)
      ensures r == Ok(Planned) ==> ship.id in nodes && exe == 0 && Route(nodes[ship.id], nodes[target.id])
    {
      GenGraph(space, ship, target, order);
      FreshTable(order);
      assert target.id in nodes by {
        assert target in order;
        var k :| 0 <= k < |order| && order[k] == target;
      }
      var start: Node? := if ship.id in nodes then nodes[ship.id] else null;
      r := PlanPath(space, start, nodes[target.id]);
    }

    /** Every node of a table genGraph has just built is new and has g = +infinity. */
    twostate lemma FreshTable(order: seq<WorldObject>)
      requires nodes.Keys == IdsUpTo(order, |order|)
      requires forall k :: 0 <= k < |order| ==> fresh(nodes[order[k].id]) && nodes[order[k].id].g == Inf
      ensures forall n :: n in nodes.Values ==> fresh(n) && n.g == Inf
    {
      forall n | n in nodes.Values
        ensures fresh(n) && n.g == Inf
      {
        var j :| j in nodes && nodes[j] == n;
        var k :| 0 <= k < |order| && order[k].id == j;
      }
    }

    /**
     * executePlan: the ship becomes the pilot's vessel; the plan is redone
     * when exe has reached ExeTime or the stack is empty; then the ship
     * heads for the top waypoint, which stays on the stack, and exe counts
     * the tick, or, with no waypoint, falls back on decideAction.  Replanning
     * goes through prePlan as written, so a pilot with no node on record for
     * its ship (every new pilot, on its first tick) fails with a null start.
     */
    method ExecutePlan(space: Space, ship: WorldObject, order: seq<WorldObject>) returns (r: Result<Action>)
      requires Valid()
      requires GoalOrder(space, ship, fov, order)
      modifies this, nodes.Values
      ensures Valid()
      ensures vessel == Some(ship) && fov == old(fov)
      ensures r.Fail? ==> r.fault == NullPointer
      ensures old(exe < ExeTime && path != []) ==>
        graph == old(graph) && nodes == old(nodes) && path == old(path) && exe == old(exe) + 1
      ensures path != old(path) ==> old(exe >= ExeTime || path == [])
      ensures r.Ok? && path != [] ==> r == Ok(MoveTo(path[|path| - 1].obj.pos)) && (exe == old(exe) + 1 || exe == 1)
      ensures r.Ok? && path == [] ==> r == Decision(space, Some(ship), ship)
      ensures old(ship.id !in nodes && (exe >= ExeTime || path == [])) ==> r == Fail(NullPointer)
    {
      var replanned := Refresh(space, ship, order);
      if replanned.Fail? {
        return Fail(replanned.fault);
      }
      if path == [] {
        r := DecideAction(space, ship);
        return;
      }
      var goal := path[|path| - 1].obj.pos;
      exe := exe + 1;
      r := Approach(vessel, goal);
    }

    /**
     * The first half of executePlan: the pilot takes the ship, and a new
     * plan is made when the time is up or the path is empty.
     */
    method Refresh(space: Space, ship: WorldObject, order: seq<WorldObject>) returns (r: Result<()>)
      requires Valid()
      requires GoalOrder(space, ship, fov, order)
      modifies this, nodes.Values
      ensures Valid()
      ensures vessel == Some(ship) && fov == old(fov)
      ensures r.Fail? ==> r.fault == NullPointer
      ensures old(exe < ExeTime && path != []) ==>
        r.Ok? && graph == old(graph) && nodes == old(nodes) && path == old(path) && exe == old(exe)
      ensures path != old(path) ==> old(exe >= ExeTime || path == [])
      ensures r.Ok? && path != [] ==> exe == old(exe) || exe == 0
      ensures old(ship.id !in nodes && (exe >= ExeTime || path == [])) ==> r == Fail(NullPointer)
    {
      vessel := Some(ship);
      if exe >= ExeTime || path == [] {
        var planned := PrePlan(space, ship, order);
        if planned.Fail? {
          return Fail(planned.fault);
        }
        assert planned.value.Planned? || planned.value.Exhausted?;
      }
      return Ok(());
    }

    /**
     * Refresh with the start looked up after the rebuild: a due replan
     * never fails for want of an earlier node, and completes whenever the
     * goal exists and the ship is in view.
     */
    method RefreshFixed(space: Space, ship: WorldObject, order: seq<WorldObject>) returns (r: Result<()>)
      requires Valid()
      requires GoalOrder(space, ship, fov, order)
      modifies this, nodes.Values
      ensures Valid()
      ensures vessel == Some(ship) && fov == old(fov)
      ensures r.Fail? ==> r.fault == NullPointer
      ensures old(exe < ExeTime && path != []) ==>
        r.Ok? && graph == old(graph) && nodes == old(nodes) && path == old(path) && exe == old(exe)
      ensures path != old(path) ==> old(exe >= ExeTime || path == [])
      ensures r.Ok? && path != [] ==> exe == old(exe) || exe == 0
      ensures Goal(space, ship).Ok? && Goal(space, ship).value.Some? && ship.id in IdsUpTo(order, |order|) ==> r.Ok?
    {
      vessel := Some(ship);
      if exe >= ExeTime || path == [] {
        var planned := PrePlanFixed(space, ship, order);
        if planned.Fail? {
          return Fail(planned.fault);
        }
        assert planned.value.Planned? || planned.value.Exhausted?;
      }
      return Ok(());
    }
  }
}
