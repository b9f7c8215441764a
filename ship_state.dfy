/**
 * The per-ship record kept by the team commander: the ship's id, its current
 * target and its role, plus the ship-level selection rules (nearest beacon,
 * base, prospect and refuelling point, richest asteroid, the
 * mineable/unmineable partition of the asteroids).  A set the simulator hands
 * over is iterated in the order the objects appear in `Space.objects`.
 */
module ShipStates {
  import opened World

  /**
   * What a ship can be heading for: a simulation object, known by its id, or
   * the position marker placed on a gold mine.
   */
  datatype Target = ObjectTarget(id: ObjId) | Marker(pos: Position)

  /** Shortest distance from the vessel to each candidate, the key of every nearest-object scan. */
  function DistFrom(space: Space, vessel: WorldObject): WorldObject -> real {
    (o: WorldObject) => space.dist(vessel.pos, o.pos)
  }

  predicate NeedsFuel(fuelCap: real, vessel: WorldObject) {
    vessel.energy < fuelCap
  }

  predicate AtMaxCargo(maxCargo: real, vessel: WorldObject) {
    vessel.total >= maxCargo
  }

  /**
   * The fuel test is strict: a ship holding exactly the cap does not need
   * fuel, and a ship that needs fuel still needs it with less energy.
   */
  lemma NeedsFuelThreshold(fuelCap: real, vessel: WorldObject, e: real)
    ensures !NeedsFuel(vessel.energy, vessel)
    ensures NeedsFuel(fuelCap, vessel) && e <= vessel.energy ==> NeedsFuel(fuelCap, vessel.(energy := e))
  {
  }

  /**
   * The cargo test is not strict: a ship holding exactly the cap is full, and
   * a full ship stays full as its cargo grows.
   */
  lemma AtMaxCargoThreshold(maxCargo: real, vessel: WorldObject, t: real)
    ensures AtMaxCargo(vessel.total, vessel)
    ensures AtMaxCargo(maxCargo, vessel) && vessel.total <= t ==> AtMaxCargo(maxCargo, vessel.(total := t))
  {
  }

  /** The asteroids that carry resources, in iteration order. */
  function Minable(space: Space): seq<WorldObject> {
    Filter(Asteroids(space), (o: WorldObject) => o.IsMineable())
  }

  function Unminable(space: Space): seq<WorldObject> {
    Filter(Asteroids(space), (o: WorldObject) => !o.IsMineable())
  }

  function UnminableSet(space: Space): set<WorldObject> {
    set u | u in Unminable(space)
  }

  /** The avoid set after the ship's own target has been taken out of it. */
  function WithoutOwnTarget(target: Option<Target>, avoid: Option<set<Target>>): Option<set<Target>> {
    if target.Some? && avoid.Some? && target.value in avoid.value then Some(avoid.value - {target.value})
    else avoid
  }

  /** The candidates left after removing every avoided object. */
  function NotAvoided(s: seq<WorldObject>, avoid: Option<set<Target>>): seq<WorldObject> {
    if avoid.None? then s else Filter(s, (o: WorldObject) => ObjectTarget(o.id) !in avoid.value)
  }

  /** A base of the vessel's own team that qualifies as a refuelling (or plain) destination. */
  function OwnBases(space: Space, vessel: WorldObject, refuel: bool, refuelMin: real): seq<WorldObject> {
    Filter(Bases(space), (b: WorldObject) => b.team == vessel.team && (!refuel || b.energy >= refuelMin))
  }

  /** Prospects reachable along a path clear of unmineable asteroids. */
  function ClearProspects(space: Space, vessel: WorldObject, s: seq<WorldObject>): seq<WorldObject> {
    Filter(s, (p: WorldObject) => space.clear(vessel.pos, p.pos, UnminableSet(space), vessel.radius))
  }

  /** Splitting the asteroids by mineability loses and invents nothing. */
  lemma MinablePartition(s: seq<WorldObject>)
    ensures multiset(Filter(s, (o: WorldObject) => o.IsMineable()))
          + multiset(Filter(s, (o: WorldObject) => !o.IsMineable())) == multiset(s)
  {
    FilterPartition(s, (o: WorldObject) => o.IsMineable(), (o: WorldObject) => !o.IsMineable());
  }

  /** Filtering by a test and by its negation splits a sequence into two parts. */
  lemma {:induction false} FilterPartition<T>(s: seq<T>, p: T -> bool, q: T -> bool)
    requires forall x :: q(x) == !p(x)
    ensures multiset(Filter(s, p)) + multiset(Filter(s, q)) == multiset(s)
    decreases |s|
  {
    if s != [] {
      var u, x := s[..|s| - 1], s[|s| - 1];
      FilterPartition(u, p, q);
      assert s == u + [x];
      PartitionStep(Filter(u, p), Filter(u, q), u, x, Filter(s, p), Filter(s, q), s);
    }
  }

  /** Appending one element to one side of a split of `u` splits `u + [x]`. */
  lemma PartitionStep<T>(a: seq<T>, b: seq<T>, u: seq<T>, x: T, a': seq<T>, b': seq<T>, s: seq<T>)
    requires multiset(a) + multiset(b) == multiset(u) && s == u + [x]
    requires (a' == a + [x] && b' == b) || (a' == a && b' == b + [x])
    ensures multiset(a') + multiset(b') == multiset(s)
  {
    assert multiset(s) == multiset(u) + multiset{x};
    if a' == a + [x] && b' == b {
      assert multiset(a') == multiset(a) + multiset{x};
    } else {
      assert multiset(b') == multiset(b) + multiset{x};
    }
  }

  /**
   * A nearest-object scan as the ship rules write it: `shortest` starts at
   * +infinity and a candidate wins only when strictly nearer.
   */
  method ScanNearest(s: seq<WorldObject>, key: WorldObject -> real) returns (nearest: Option<WorldObject>)
    ensures nearest == FirstMin(s, key)
  {
    var shortest := Inf;
    nearest := None;
    for i := 0 to |s|
      invariant nearest == FirstMin(s[..i], key)
      invariant nearest.None? <==> shortest == Inf
      invariant nearest.Some? ==> shortest == Fin(key(nearest.value))
    {
      var dist := key(s[i]);
      FirstMinStep(s, i, key);
      if Fin(dist).Below(shortest) {
        shortest := Fin(dist);
        nearest := Some(s[i]);
      }
    }
    assert s[..|s|] == s;
  }

  /** The same scan where a candidate must also pass `p` (tested after the distance). */
  method ScanNearestWhere(s: seq<WorldObject>, p: WorldObject -> bool, key: WorldObject -> real)
    returns (nearest: Option<WorldObject>)
    ensures nearest == FirstMin(Filter(s, p), key)
  {
    var shortest := Inf;
    nearest := None;
    for i := 0 to |s|
      invariant nearest == FirstMinWhere(s[..i], p, key)
      invariant nearest.None? <==> shortest == Inf
      invariant nearest.Some? ==> shortest == Fin(key(nearest.value))
    {
      var dist := key(s[i]);
      FirstMinWhereStep(s, i, p, key);
      if Fin(dist).Below(shortest) && p(s[i]) {
        shortest := Fin(dist);
        nearest := Some(s[i]);
      }
    }
    assert s[..|s|] == s;
    FirstMinWhereIsFilter(s, p, key);
  }

  /**
   * The refuelling point getNearestRefuel settles on: the nearest beacon
   * when there is no base with `refuelMin` energy or that base is strictly
   * farther, else that base; with neither, the nearest base of the team
   * whatever its energy.
   */
  function RefuelPoint(space: Space, vessel: WorldObject, refuelMin: real): Option<WorldObject> {
    var base := FirstMin(OwnBases(space, vessel, true, refuelMin), DistFrom(space, vessel));
    var beacon := FirstMin(Beacons(space), DistFrom(space, vessel));
    if beacon.Some? && (base.None? || space.dist(vessel.pos, base.value.pos) > space.dist(vessel.pos, beacon.value.pos)) then beacon
    else if base.Some? then base
    else FirstMin(OwnBases(space, vessel, false, refuelMin), DistFrom(space, vessel))
  }

  class ShipState {
    const vessel: ObjId
    var target: Option<Target>
    var diamondChaser: bool
    var goldDigger: bool

    /** A new pilot has no target and no role. */
    constructor (vessel: ObjId)
      ensures this.vessel == vessel && target.None? && !diamondChaser && !goldDigger
    {
      this.vessel := vessel;
      target := None;
      diamondChaser := false;
      goldDigger := false;
    }

    function GetTarget(): Option<Target>
      reads this
    {
      target
    }

    /** Retargets the ship and changes nothing else. */
    method SetTarget(t: Option<Target>)
      modifies this
      ensures GetTarget() == t
      ensures diamondChaser == old(diamondChaser) && goldDigger == old(goldDigger)
    {
      target := t;
    }

    method SetDiamondChaser(b: bool)
      modifies this
      ensures diamondChaser == b && target == old(target) && goldDigger == old(goldDigger)
    {
      diamondChaser := b;
    }

    method SetGoldDigger(b: bool)
      modifies this
      ensures goldDigger == b && target == old(target) && diamondChaser == old(diamondChaser)
    {
      goldDigger := b;
    }

    /**
     * The nearest beacon not in `avoid`.  The ship's own target is first taken
     * out of the caller's `avoid` set, which is handed back as `avoid'`.
     */
    method GetNearestBeacon(space: Space, vessel: WorldObject, avoid: Option<set<Target>>)
      returns (r: Option<WorldObject>, avoid': Option<set<Target>>)
      ensures avoid' == WithoutOwnTarget(target, avoid)
      ensures r == FirstMin(NotAvoided(Beacons(space), avoid'), DistFrom(space, vessel))
      ensures r.Some? ==> r.value.IsBeacon() && r.value in space.objects
      ensures r.Some? && avoid'.Some? ==> ObjectTarget(r.value.id) !in avoid'.value
      ensures target.Some? && avoid.Some? ==> avoid'.Some? && target.value !in avoid'.value
    {
      avoid' := avoid;
      if target.Some? && avoid'.Some? && target.value in avoid'.value {
        avoid' := Some(avoid'.value - {target.value});
      }
      var beacons := Beacons(space);
      if avoid'.Some? {
        beacons := Filter(beacons, (o: WorldObject) => ObjectTarget(o.id) !in avoid'.value);
      }
      r := ScanNearest(beacons, DistFrom(space, vessel));
    }

    /** The nearest base of the vessel's team; with `refuel`, only one holding at least `refuelMin` energy. */
    method GetNearestBase(space: Space, vessel: WorldObject, refuel: bool, refuelMin: real)
      returns (r: Option<WorldObject>)
      ensures r == FirstMin(OwnBases(space, vessel, refuel, refuelMin), DistFrom(space, vessel))
      ensures r.Some? ==> r.value.IsBase() && r.value.team == vessel.team
      ensures r.Some? && refuel ==> r.value.energy >= refuelMin
      ensures r.None? <==> forall b :: b in Bases(space) ==>
        b.team != vessel.team || (refuel && b.energy < refuelMin)
    {
      var bases := Bases(space);
      var shortest := Inf;
      var key := DistFrom(space, vessel);
      ghost var p := (b: WorldObject) => b.team == vessel.team && (!refuel || b.energy >= refuelMin);
      r := None;
      for i := 0 to |bases|
        invariant r == FirstMinWhere(bases[..i], p, key)
        invariant r.None? <==> shortest == Inf
        invariant r.Some? ==> shortest == Fin(key(r.value))
      {
        var base := bases[i];
        FirstMinWhereStep(bases, i, p, key);
        if base.team == vessel.team {
          var dist := space.dist(vessel.pos, base.pos);
          if Fin(dist).Below(shortest) {
            if refuel {
              if base.energy >= refuelMin {
                shortest := Fin(dist);
                r := Some(base);
              }
            } else {
              shortest := Fin(dist);
              r := Some(base);
            }
          }
        }
      }
      assert bases[..|bases|] == bases;
      FirstMinWhereIsFilter(bases, p, key);
    }

    /**
     * The nearest mineable asteroid that is not avoided and can be reached
     * along a path clear of unmineable asteroids; the own target is first
     * taken out of `avoid`, as for beacons.
     */
    method GetNearestProspect(space: Space, vessel: WorldObject, avoid: Option<set<Target>>)
      returns (r: Option<WorldObject>, avoid': Option<set<Target>>)
      ensures avoid' == WithoutOwnTarget(target, avoid)
      ensures r == FirstMin(ClearProspects(space, vessel, NotAvoided(Minable(space), avoid')), DistFrom(space, vessel))
      ensures r.Some? ==> r.value.IsMineable() && r.value in space.objects
      ensures r.Some? ==> space.clear(vessel.pos, r.value.pos, UnminableSet(space), vessel.radius)
    {
      avoid' := avoid;
      if target.Some? && avoid'.Some? && target.value in avoid'.value {
        avoid' := Some(avoid'.value - {target.value});
      }
      var prospects := GetMinableAsteroids(space);
      if avoid'.Some? {
        prospects := Filter(prospects, (o: WorldObject) => ObjectTarget(o.id) !in avoid'.value);
      }
      var obstacles := GetUnminableAsteroids(space);
      r := ScanNearestWhere(prospects, (q: WorldObject) => space.clear(vessel.pos, q.pos, obstacles, vessel.radius),
                            DistFrom(space, vessel));
    }

    /**
     * Where to refuel: the nearest beacon when there is no qualifying base or
     * the base is strictly farther, else the nearest base with at least
     * `refuelMin` energy; with neither, the nearest own base whatever its energy.
     */
    method GetNearestRefuel(space: Space, vessel: WorldObject, refuelMin: real) returns (r: Option<WorldObject>)
      ensures var base := FirstMin(OwnBases(space, vessel, true, refuelMin), DistFrom(space, vessel));
        var beacon := FirstMin(Beacons(space), DistFrom(space, vessel));
        && (beacon.Some? && (base.None? || space.dist(vessel.pos, base.value.pos) > space.dist(vessel.pos, beacon.value.pos))
            ==> r == beacon)
        && (base.Some? && (beacon.None? || space.dist(vessel.pos, base.value.pos) <= space.dist(vessel.pos, beacon.value.pos))
            ==> r == base)
        && (base.None? && beacon.None? ==> r == FirstMin(OwnBases(space, vessel, false, refuelMin), DistFrom(space, vessel)))
      ensures r.Some? ==> r.value.IsBeacon() || (r.value.IsBase() && r.value.team == vessel.team)
      ensures r == RefuelPoint(space, vessel, refuelMin)
    {
      var nearestBase := GetNearestBase(space, vessel, true, refuelMin);
      var nearestBeacon, _ := GetNearestBeacon(space, vessel, None);
      if nearestBeacon.Some? && nearestBase.None? {
        return nearestBeacon;
      } else if nearestBeacon.None? && nearestBase.Some? {
        return nearestBase;
      } else if nearestBeacon.Some? && nearestBase.Some? {
        if space.dist(vessel.pos, nearestBase.value.pos) > space.dist(vessel.pos, nearestBeacon.value.pos) {
          return nearestBeacon;
        } else {
          return nearestBase;
        }
      }
      r := GetNearestBase(space, vessel, false, refuelMin);
    }

    /**
     * The richest mineable asteroid: the first one whose resource total is
     * maximal.  Reading the first element of an empty list fails.
     */
    method GetDiamond(space: Space) returns (r: Result<WorldObject>)
      ensures Minable(space) == [] <==> r == Fail(IndexOutOfBounds)
      ensures r.Fail? ==> r.fault == IndexOutOfBounds
      ensures r.Ok? ==> r.value.IsMineable() && r.value in space.objects
      ensures r.Ok? ==> forall a :: a in Minable(space) ==> a.total <= r.value.total
      ensures r.Ok? ==> Some(r.value) == FirstMin(Minable(space), (o: WorldObject) => -o.total)
    {
      var prospects := GetMinableAsteroids(space);
      if |prospects| == 0 {
        return Fail(IndexOutOfBounds);
      }
      var key := (o: WorldObject) => -o.total;
      var diamond := prospects[0];
      assert FirstMin(prospects[..1], key) == Some(diamond) by {
        FirstMinStep(prospects, 0, key);
      }
      for i := 0 to |prospects|
        invariant Some(diamond) == FirstMin(prospects[..if i == 0 then 1 else i], key)
      {
        var prospect := prospects[i];
        if i > 0 {
          FirstMinStep(prospects, i, key);
        }
        if prospect.total > diamond.total {
          diamond := prospect;
        }
      }
      assert prospects[..|prospects|] == prospects;
      r := Ok(diamond);
    }

    /** The mineable asteroids, in iteration order. */
    method GetMinableAsteroids(space: Space) returns (minable: seq<WorldObject>)
      ensures minable == Minable(space)
      ensures forall a :: a in minable <==> a in Asteroids(space) && a.IsMineable()
    {
      var asteroids := Asteroids(space);
      var p := (o: WorldObject) => o.IsMineable();
      minable := [];
      for i := 0 to |asteroids|
        invariant minable == Filter(asteroids[..i], p)
      {
        FilterStep(asteroids, i, p);
        if asteroids[i].IsMineable() {
          minable := minable + [asteroids[i]];
        }
      }
      assert asteroids[..|asteroids|] == asteroids;
    }

    /** The asteroids without resources, as a set. */
    method GetUnminableAsteroids(space: Space) returns (unminable: set<WorldObject>)
      ensures unminable == UnminableSet(space)
      ensures forall a :: a in unminable <==> a in Asteroids(space) && !a.IsMineable()
    {
      var asteroids := Asteroids(space);
      var p := (o: WorldObject) => !o.IsMineable();
      var list: seq<WorldObject> := [];
      for i := 0 to |asteroids|
        invariant list == Filter(asteroids[..i], p)
      {
        FilterStep(asteroids, i, p);
        if !asteroids[i].IsMineable() {
          list := list + [asteroids[i]];
        }
      }
      assert asteroids[..|asteroids|] == asteroids;
      unminable := set u | u in list;
    }
  }
}
