/**
 * The team commander: a pilot record per ship and the team's bases, the
 * current high-level strategy (replanned through the strategy planner when
 * a precondition fails), purchases gated by the strategy, and one action per
 * ship and base each tick, chosen by a fixed priority chain.  Steering
 * vectors are not modelled: an approach is a move to the goal position.
 * The pilot map is iterated in the order of a key sequence `keys`.
 */
module Command {
  import opened World
  import opened ShipStates
  import opened StrategyRules
  import opened StrategyPlanner

  const CargoCapacity: real := 500.0
  const FuelCoef: real := 1000.0
  const Frontier: real := 200.0
  const MinBaseFuel: real := 1000.0
  /** A gold digger this close to the goldmine buys a base there. */
  const GoldmineRange: real := 100.0

  /**
   * The cast lookup `(Ship) getObjectById(id)`: an unknown id gives a null
   * ship, an object of another class fails the cast.
   */
  function ShipById(space: Space, id: ObjId): (r: Result<Option<WorldObject>>)
    ensures r.Fail? ==> r.fault == ClassCast
    ensures r.Ok? && r.value.Some? ==> r.value.value in space.objects && r.value.value.id == id && r.value.value.IsShip()
    ensures r.Ok? && r.value.None? <==> forall o :: o in space.objects ==> o.id != id
  {
    match ObjectById(space.objects, id)
    case None => Ok(None)
    case Some(o) => if o.IsShip() then Ok(Some(o)) else Fail(ClassCast)
  }

  /** `t` names an object of the world lying at `at`, or is a marker placed at `at`. */
  predicate TargetAt(space: Space, t: Target, at: Position) {
    match t
    case ObjectTarget(id) => exists o :: o in space.objects && o.id == id && o.pos == at
    case Marker(p) => p == at
  }

  /** `keys` lists every key of the pilot map once: the order its entries are visited in. */
  ghost predicate Enumerates(keys: seq<ObjId>, pilots: map<ObjId, ShipState>) {
    && (forall k :: k in keys <==> k in pilots)
    && (forall i, j :: 0 <= i < j < |keys| ==> keys[i] != keys[j])
  }

  /** A gold digger whose ship is within GoldmineRange of the goldmine. */
  ghost predicate GoldReady(space: Space, p: ShipState, mine: Option<Position>)
    reads p
  {
    && mine.Some? && p.goldDigger
    && ShipById(space, p.vessel).Ok? && ShipById(space, p.vessel).value.Some?
    && space.dist(ShipById(space, p.vessel).value.value.pos, mine.value) <= GoldmineRange
  }

  /** A pilot whose ship is at least Frontier away from the nearest base of its team. */
  ghost predicate FrontierReady(space: Space, p: ShipState) {
    && ShipById(space, p.vessel).Ok? && ShipById(space, p.vessel).value.Some?
    && var v := ShipById(space, p.vessel).value.value;
       var base := FirstMin(OwnBases(space, v, false, MinBaseFuel), DistFrom(space, v));
       base.Some? && space.dist(v.pos, base.value.pos) >= Frontier
  }

  /** A mineable asteroid on a clear path from `v` that no other pilot holds (the own target is allowed). */
  ghost predicate OpenProspect(space: Space, v: WorldObject, own: Option<Target>, taken: set<Target>, a: WorldObject) {
    && a in space.objects && a.IsMineable()
    && space.clear(v.pos, a.pos, UnminableSet(space), v.radius)
    && (ObjectTarget(a.id) !in taken || own == Some(ObjectTarget(a.id)))
  }
  /** `a` is an open prospect no farther from the ship than any other. */
  ghost predicate NearestProspect(space: Space, v: WorldObject, own: Option<Target>, taken: set<Target>, a: WorldObject) {
    && OpenProspect(space, v, own, taken, a)
    && forall b :: OpenProspect(space, v, own, taken, b) ==> space.dist(v.pos, a.pos) <= space.dist(v.pos, b.pos)
  }


  /** A base of the vessel's team, whatever its energy. */
  ghost predicate OwnBase(space: Space, v: WorldObject, b: WorldObject) {
    b in space.objects && b.IsBase() && b.team == v.team
  }

  lemma MinableMember(space: Space, a: WorldObject)
    ensures a in Minable(space) <==> a in space.objects && a.IsMineable()
  {
    if a in Minable(space) {
      var i :| 0 <= i < |Minable(space)| && Minable(space)[i] == a;
      var j :| 0 <= j < |Asteroids(space)| && Asteroids(space)[j] == a;
    }
    if a in space.objects && a.IsMineable() {
      var i :| 0 <= i < |space.objects| && space.objects[i] == a;
      var j :| 0 <= j < |Asteroids(space)| && Asteroids(space)[j] == a;
    }
  }

  lemma OwnBasesMember(space: Space, v: WorldObject, refuel: bool, b: WorldObject)
    ensures b in OwnBases(space, v, refuel, MinBaseFuel) <==>
      OwnBase(space, v, b) && (!refuel || b.energy >= MinBaseFuel)
  {
    if b in OwnBases(space, v, refuel, MinBaseFuel) {
      var i :| 0 <= i < |OwnBases(space, v, refuel, MinBaseFuel)| && OwnBases(space, v, refuel, MinBaseFuel)[i] == b;
      var j :| 0 <= j < |Bases(space)| && Bases(space)[j] == b;
    }
    if OwnBase(space, v, b) && (!refuel || b.energy >= MinBaseFuel) {
      var i :| 0 <= i < |space.objects| && space.objects[i] == b;
      var j :| 0 <= j < |Bases(space)| && Bases(space)[j] == b;
    }
  }

  lemma BeaconsMember(space: Space, b: WorldObject)
    ensures b in Beacons(space) <==> b in space.objects && b.IsBeacon()
  {
    if b in Beacons(space) {
      var i :| 0 <= i < |Beacons(space)| && Beacons(space)[i] == b;
    }
    if b in space.objects && b.IsBeacon() {
      var i :| 0 <= i < |space.objects| && space.objects[i] == b;
    }
  }

  /** The candidates getNearestProspect scans are exactly the open prospects. */
  lemma OpenProspectMember(space: Space, v: WorldObject, own: Option<Target>, taken: set<Target>, a: WorldObject)
    ensures a in ClearProspects(space, v, NotAvoided(Minable(space), WithoutOwnTarget(own, Some(taken))))
      <==> OpenProspect(space, v, own, taken, a)
  {
    var avoid := WithoutOwnTarget(own, Some(taken));
    var free := NotAvoided(Minable(space), avoid);
    var cands := ClearProspects(space, v, free);
    MinableMember(space, a);
    if a in cands {
      var i :| 0 <= i < |cands| && cands[i] == a;
      var j :| 0 <= j < |free| && free[j] == a;
    }
    if OpenProspect(space, v, own, taken, a) {
      var i :| 0 <= i < |Minable(space)| && Minable(space)[i] == a;
      assert a in free;
      var j :| 0 <= j < |free| && free[j] == a;
    }
  }
  /** The pick of the prospect scan is the nearest open prospect, and there is none exactly when no prospect is open. */
  lemma NearestOpenProspect(space: Space, v: WorldObject, own: Option<Target>, taken: set<Target>)
    ensures var pick := FirstMin(ClearProspects(space, v, NotAvoided(Minable(space), WithoutOwnTarget(own, Some(taken)))), DistFrom(space, v));
      && (pick.None? <==> forall a :: !OpenProspect(space, v, own, taken, a))
      && (pick.Some? ==> NearestProspect(space, v, own, taken, pick.value))
  {
    var cands := ClearProspects(space, v, NotAvoided(Minable(space), WithoutOwnTarget(own, Some(taken))));
    var pick := FirstMin(cands, DistFrom(space, v));
    if pick.Some? {
      OpenProspectMember(space, v, own, taken, pick.value);
      forall b | OpenProspect(space, v, own, taken, b)
        ensures space.dist(v.pos, pick.value.pos) <= space.dist(v.pos, b.pos)
      {
        OpenProspectMember(space, v, own, taken, b);
        var i :| 0 <= i < |cands| && cands[i] == b;
      }
    } else {
      forall a | OpenProspect(space, v, own, taken, a)
        ensures false
      {
        OpenProspectMember(space, v, own, taken, a);
      }
    }
  }


  /** The refuelling pick is a beacon or own base of the space, and there is none only when the space has neither. */
  lemma RefuelCandidate(space: Space, v: WorldObject)
    ensures var r := RefuelPoint(space, v, MinBaseFuel);
      && (r.Some? ==> r.value in space.objects && (r.value.IsBeacon() || OwnBase(space, v, r.value)))
      && (r.None? ==> forall o :: o in space.objects ==> !o.IsBeacon() && !OwnBase(space, v, o))
  {
    var r := RefuelPoint(space, v, MinBaseFuel);
    var base := FirstMin(OwnBases(space, v, true, MinBaseFuel), DistFrom(space, v));
    var beacon := FirstMin(Beacons(space), DistFrom(space, v));
    if r.Some? {
      var o := r.value;
      if base.Some? && o == base.value {
        OwnBasesMember(space, v, true, o);
      } else if beacon.Some? && o == beacon.value {
        BeaconsMember(space, o);
      } else {
        OwnBasesMember(space, v, false, o);
      }
    } else {
      forall o | o in space.objects
        ensures !o.IsBeacon() && !OwnBase(space, v, o)
      {
        BeaconsMember(space, o);
        OwnBasesMember(space, v, false, o);
      }
    }
  }

  /**
   * goToRefuel's rule for `v`: it moves exactly when the ship needs fuel and
   * getNearestRefuel's pick exists and is held by no other pilot; the move
   * heads for the pick, which becomes the target.
   */
  ghost predicate RefuelMove(space: Space, v: WorldObject, taken: set<Target>, target: Option<Target>, move: Option<Action>) {
    var pick := RefuelPoint(space, v, MinBaseFuel);
    && (move.Some? <==> NeedsFuel(FuelCoef, v) && pick.Some? && ObjectTarget(pick.value.id) !in taken)
    && (move.Some? ==> move.value == MoveTo(pick.value.pos) && target == Some(ObjectTarget(pick.value.id)))
  }

  /** The steps of getBasicActions' chain for one ship, in priority order. */
  datatype Stage = Goldmine | Diamond | Prospect | Base | Refuel | Idle

  /**
   * The step that answers for a ship, given which steps have a move to
   * offer: the first that does, and Idle when none does.  `mine` is the
   * offer of the diamond step for the diamond chaser and of the prospect
   * step for every other pilot.
   */
  function Priority(gold: bool, chaser: bool, mine: bool, base: bool, refuel: bool): Stage {
    if gold then Goldmine
    else if mine then (if chaser then Diamond else Prospect)
    else if base then Base
    else if refuel then Refuel
    else Idle
  }

  /** The answering step has a move to offer, and every step before it has none. */
  lemma PriorityIsFirstOffer(gold: bool, chaser: bool, mine: bool, base: bool, refuel: bool)
    ensures var s := Priority(gold, chaser, mine, base, refuel);
      && (s == Goldmine <==> gold)
      && (s == Diamond <==> !gold && chaser && mine)
      && (s == Prospect <==> !gold && !chaser && mine)
      && (s == Base <==> !gold && !mine && base)
      && (s == Refuel <==> !gold && !mine && !base && refuel)
      && (s == Idle <==> !gold && !mine && !base && !refuel)
  {
  }

  /** A ship that neither needs fuel nor is full: the precondition of both mining steps. */
  predicate Mining(v: WorldObject) {
    !NeedsFuel(FuelCoef, v) && !AtMaxCargo(CargoCapacity, v)
  }

  /** goToBase has a move to offer: the ship is full and its team has a base. */
  ghost predicate BaseOffer(space: Space, v: WorldObject) {
    AtMaxCargo(CargoCapacity, v) && exists b :: OwnBase(space, v, b)
  }

  /** A move to the richest mineable asteroid, which becomes the target. */
  ghost predicate DiamondMove(space: Space, target: Option<Target>, move: Action) {
    exists a :: a in space.objects && a.IsMineable()
      && target == Some(ObjectTarget(a.id)) && move == MoveTo(a.pos)
      && forall b :: b in space.objects && b.IsMineable() ==> b.total <= a.total
  }

  /** A move to the nearest open prospect (own target `own`, others' targets `taken`), which becomes the target. */
  ghost predicate ProspectMove(space: Space, v: WorldObject, own: Option<Target>, taken: set<Target>,
                               target: Option<Target>, move: Action) {
    exists a :: NearestProspect(space, v, own, taken, a)
      && target == Some(ObjectTarget(a.id)) && move == MoveTo(a.pos)
  }

  /** A move to the nearest base of the team, which becomes the target. */
  ghost predicate BaseMove(space: Space, v: WorldObject, target: Option<Target>, move: Action) {
    exists b :: OwnBase(space, v, b)
      && target == Some(ObjectTarget(b.id)) && move == MoveTo(b.pos)
      && forall c :: OwnBase(space, v, c) ==> space.dist(v.pos, b.pos) <= space.dist(v.pos, c.pos)
  }

  /** A pilot whose ship exists but whose team has no base at all. */
  ghost predicate Stranded(space: Space, p: ShipState) {
    && ShipById(space, p.vessel).Ok? && ShipById(space, p.vessel).value.Some?
    && OwnBases(space, ShipById(space, p.vessel).value.value, false, MinBaseFuel) == []
  }

  /** What one turn of the ExpandEmpire purchase loop learns about a pilot. */
  datatype Sighting = Sighting(
    vessel: ObjId, lookup: Result<Option<WorldObject>>, golden: bool, stranded: bool, far: bool)
  {
    /** The tests that need the ship only pass when the lookup found it. */
    predicate Coherent() {
      (golden || stranded || far) ==> lookup.Ok? && lookup.value.Some?
    }
  }

  ghost function Sight(space: Space, p: ShipState, mine: Option<Position>): (s: Sighting)
    reads p
    ensures s.Coherent()
  {
    Sighting(p.vessel, ShipById(space, p.vessel), GoldReady(space, p, mine), Stranded(space, p), FrontierReady(space, p))
  }

  /** The pilots' sightings in the order `keys` visits them. */
  ghost function Sightings(space: Space, keys: seq<ObjId>, pilots: map<ObjId, ShipState>, mine: Option<Position>)
    : (ss: seq<Sighting>)
    requires forall k :: k in keys ==> k in pilots
    reads pilots.Values
    ensures |ss| == |keys|
    ensures forall j :: 0 <= j < |keys| ==> ss[j] == Sight(space, pilots[keys[j]], mine)
  {
    seq(|keys|, j requires 0 <= j < |keys| reads pilots.Values => Sight(space, pilots[keys[j]], mine))
  }

  /**
   * One pilot's turn given the purchases so far: the purchases after it, and
   * whether a gold digger bought (which ends the loop).  A wrong-class ship
   * fails the cast; a missing ship is skipped; once a purchase is on the
   * books only a gold digger can replace it.
   */
  function Step(s: Sighting, purchases: map<ObjId, Purchase>): (Result<map<ObjId, Purchase>>, bool) {
    if s.lookup.Fail? then (Fail(ClassCast), false)
    else if s.golden then (Ok(map[s.vessel := BasePurchase]), true)
    else if s.lookup.value.None? || |purchases| >= 1 then (Ok(purchases), false)
    else if s.stranded then (Fail(NullPointer), false)
    else if s.far then (Ok(purchases[s.vessel := BasePurchase]), false)
    else (Ok(purchases), false)
  }

  /** The purchase loop over the sightings, stopping at a fault or a goldmine purchase. */
  function Scan(ss: seq<Sighting>, purchases: map<ObjId, Purchase>): (Result<map<ObjId, Purchase>>, bool) {
    if ss == [] then (Ok(purchases), false)
    else
      var step := Step(ss[0], purchases);
      if step.0.Fail? || step.1 then step else Scan(ss[1..], step.0.value)
  }

  /**
   * The shape of the loop's result: at most one purchase, all of bases, and
   * faults only from a wrong-class ship or a ship whose team has no base.
   */
  lemma {:induction false} ScanShape(ss: seq<Sighting>, purchases: map<ObjId, Purchase>)
    requires |purchases| <= 1 && forall k :: k in purchases ==> purchases[k] == BasePurchase
    ensures var s := Scan(ss, purchases);
      && (s.0.Ok? ==> |s.0.value| <= 1 && forall k :: k in s.0.value ==> s.0.value[k] == BasePurchase)
      && (s.0.Fail? && s.0.fault == ClassCast ==> exists j :: 0 <= j < |ss| && ss[j].lookup.Fail?)
      && (s.0.Fail? && s.0.fault != ClassCast ==> s.0.fault == NullPointer && exists j :: 0 <= j < |ss| && ss[j].stranded)
    decreases |ss|
  {
    if ss != [] {
      var step := Step(ss[0], purchases);
      if !step.0.Fail? && !step.1 {
        ScanShape(ss[1..], step.0.value);
        var s := Scan(ss, purchases);
        if s.0.Fail? && s.0.fault == ClassCast {
          var j :| 0 <= j < |ss[1..]| && ss[1..][j].lookup.Fail?;
          assert ss[j + 1].lookup.Fail?;
        } else if s.0.Fail? {
          var j :| 0 <= j < |ss[1..]| && ss[1..][j].stranded;
          assert ss[j + 1].stranded;
        }
      }
    }
  }

  /**
   * Who buys: a gold digger in range wins outright; otherwise, with nothing
   * bought yet, the first pilot on the frontier buys, and one does whenever
   * some pilot is on the frontier.
   */
  lemma {:induction false} ScanChoice(ss: seq<Sighting>, purchases: map<ObjId, Purchase>)
    ensures var s := Scan(ss, purchases);
      && (s.1 ==> s.0.Ok? && exists j :: 0 <= j < |ss| && ss[j].golden && s.0.value == map[ss[j].vessel := BasePurchase])
      && (s.0.Ok? && !s.1 ==> forall j :: 0 <= j < |ss| ==> !ss[j].golden)
      && (s.0.Ok? && !s.1 && purchases != map[] ==> s.0.value == purchases)
      && (s.0.Ok? && !s.1 && purchases == map[] && s.0.value != map[] ==>
            exists j :: 0 <= j < |ss| && ss[j].far && s.0.value == map[ss[j].vessel := BasePurchase])
      && (s.0.Ok? && !s.1 && purchases == map[] && (exists j :: 0 <= j < |ss| && ss[j].far && ss[j].Coherent()) ==> s.0.value != map[])
    decreases |ss|
  {
    if ss != [] {
      var step := Step(ss[0], purchases);
      if !step.0.Fail? && !step.1 {
        ScanChoice(ss[1..], step.0.value);
        var s := Scan(ss, purchases);
        if s.1 {
          var j :| 0 <= j < |ss[1..]| && ss[1..][j].golden && s.0.value == map[ss[1..][j].vessel := BasePurchase];
          assert ss[j + 1] == ss[1..][j];
        }
        if s.0.Ok? && !s.1 && purchases == map[] && s.0.value != map[] && step.0.value == map[] {
          var j :| 0 <= j < |ss[1..]| && ss[1..][j].far && s.0.value == map[ss[1..][j].vessel := BasePurchase];
          assert ss[j + 1] == ss[1..][j];
        }
        if s.0.Ok? && !s.1 && purchases == map[] && step.0.value == map[] && exists j :: 0 <= j < |ss| && ss[j].far && ss[j].Coherent() {
          var j :| 0 <= j < |ss| && ss[j].far && ss[j].Coherent();
          assert j != 0;
          assert ss[1..][j - 1] == ss[j];
        }
      }
    }
  }

  /**
   * The purchase loop's result over the pilot records: at most one purchase,
   * all of bases; a fault names a wrong-class ship or a ship with no base.
   */
  lemma PurchaseShape(space: Space, keys: seq<ObjId>, pilots: map<ObjId, ShipState>, mine: Option<Position>)
    requires Enumerates(keys, pilots)
    ensures var s := Scan(Sightings(space, keys, pilots, mine), map[]);
      && (s.0.Ok? ==> |s.0.value| <= 1 && forall k :: k in s.0.value ==> s.0.value[k] == BasePurchase)
      && (s.0.Fail? && s.0.fault == ClassCast ==> exists p :: p in pilots.Values && ShipById(space, p.vessel).Fail?)
      && (s.0.Fail? && s.0.fault != ClassCast ==> s.0.fault == NullPointer && exists p :: p in pilots.Values && Stranded(space, p))
  {
    var ss := Sightings(space, keys, pilots, mine);
    var s := Scan(ss, map[]);
    ScanShape(ss, map[]);
    if s.0.Fail? && s.0.fault == ClassCast {
      var j :| 0 <= j < |ss| && ss[j].lookup.Fail?;
      var p := SightAt(space, keys, pilots, mine, j);
    } else if s.0.Fail? {
      var j :| 0 <= j < |ss| && ss[j].stranded;
      var p := SightAt(space, keys, pilots, mine, j);
    }
  }

  /**
   * A gold digger in range of the goldmine buys the base whenever the loop
   * ends without a fault, and only such a pilot ends it early.
   */
  lemma PurchaseGold(space: Space, keys: seq<ObjId>, pilots: map<ObjId, ShipState>, mine: Option<Position>)
    requires Enumerates(keys, pilots)
    ensures var s := Scan(Sightings(space, keys, pilots, mine), map[]);
      && (s.1 ==> && mine.Some? && s.0.Ok?
                  && exists p :: p in pilots.Values && GoldReady(space, p, mine) && s.0.value == map[p.vessel := BasePurchase])
      && (s.0.Ok? && !s.1 ==> forall p :: p in pilots.Values ==> !GoldReady(space, p, mine))
  {
    var ss := Sightings(space, keys, pilots, mine);
    var s := Scan(ss, map[]);
    ScanChoice(ss, map[]);
    if s.1 {
      var j :| 0 <= j < |ss| && ss[j].golden && s.0.value == map[ss[j].vessel := BasePurchase];
      var p := SightAt(space, keys, pilots, mine, j);
    }
    if s.0.Ok? && !s.1 {
      forall p | p in pilots.Values
        ensures !GoldReady(space, p, mine)
      {
        var j := VisitIndex(keys, pilots, p);
        var q := SightAt(space, keys, pilots, mine, j);
        assert !ss[j].golden;
      }
    }
  }

  /** Without a goldmine purchase, the buyer is a pilot on the frontier. */
  lemma PurchaseFrontier(space: Space, keys: seq<ObjId>, pilots: map<ObjId, ShipState>, mine: Option<Position>)
    requires Enumerates(keys, pilots)
    ensures var s := Scan(Sightings(space, keys, pilots, mine), map[]);
      s.0.Ok? && !s.1 && s.0.value != map[] ==>
        exists p :: p in pilots.Values && FrontierReady(space, p) && s.0.value == map[p.vessel := BasePurchase]
  {
    var ss := Sightings(space, keys, pilots, mine);
    var s := Scan(ss, map[]);
    ScanChoice(ss, map[]);
    if s.0.Ok? && !s.1 && s.0.value != map[] {
      var j :| 0 <= j < |ss| && ss[j].far && s.0.value == map[ss[j].vessel := BasePurchase];
      var p := SightAt(space, keys, pilots, mine, j);
    }
  }

  /** The sighting at position `j` of the visiting order is of a pilot record in the table. */
  lemma SightAt(space: Space, keys: seq<ObjId>, pilots: map<ObjId, ShipState>, mine: Option<Position>, j: nat)
    returns (p: ShipState)
    requires Enumerates(keys, pilots) && j < |keys|
    ensures p in pilots.Values && Sightings(space, keys, pilots, mine)[j] == Sight(space, p, mine)
  {
    p := pilots[keys[j]];
  }

  /** Without a goldmine purchase, some pilot buys whenever one is on the frontier. */
  lemma FrontierBuys(space: Space, keys: seq<ObjId>, pilots: map<ObjId, ShipState>, mine: Option<Position>)
    requires Enumerates(keys, pilots)
    ensures var s := Scan(Sightings(space, keys, pilots, mine), map[]);
      s.0.Ok? && !s.1 && (exists p :: p in pilots.Values && FrontierReady(space, p)) ==> s.0.value != map[]
  {
    if p :| p in pilots.Values && FrontierReady(space, p) {
      var ss := Sightings(space, keys, pilots, mine);
      ScanChoice(ss, map[]);
      var j := VisitIndex(keys, pilots, p);
      assert ss[j] == Sight(space, p, mine);
    }
  }

  /** Where `keys` visits the pilot record `p`. */
  lemma VisitIndex(keys: seq<ObjId>, pilots: map<ObjId, ShipState>, p: ShipState) returns (j: nat)
    requires Enumerates(keys, pilots) && p in pilots.Values
    ensures j < |keys| && keys[j] in pilots && pilots[keys[j]] == p
  {
    var k :| k in pilots && pilots[k] == p;
    j :| 0 <= j < |keys| && keys[j] == k;
  }

  class SpaceCommand {
    var strategy: Strategy
    var planner: Planner
    var goldmine: Option<Position>
    var pilots: map<ObjId, ShipState>
    var bases: seq<WorldObject>

    ghost predicate Valid()
      reads this, planner
    {
      && planner.Valid()
      && planner.goalShips == GoalShips && planner.goalBases == GoalBases && planner.minShips == MinShips
    }

    /** A new commander builds its fleet first, with no pilots, bases or goldmine. */
    constructor ()
      ensures Valid() && fresh(planner)
      ensures bases == [] && pilots == map[] && strategy == BuildFleet && goldmine.None?
      ensures planner.nodes == [] && planner.graph == map[] && planner.root.None? && planner.goal.None?
    {
      bases := [];
      pilots := map[];
      strategy := BuildFleet;
      planner := new Planner(GoalShips, GoalBases, MinShips);
      goldmine := None;
    }

    /**
     * Files the pilot under the ship's id; the first pilot on record becomes
     * the diamond chaser, the second the gold digger, later ones get no role.
     */
    method AddShip(shipId: ObjId, pilot: ShipState)
      modifies this, pilot
      ensures pilots == old(pilots)[shipId := pilot]
      ensures strategy == old(strategy) && planner == old(planner) && goldmine == old(goldmine) && bases == old(bases)
      ensures pilot.target == old(pilot.target)
      ensures pilot.diamondChaser == (|pilots| == 1 || old(pilot.diamondChaser))
      ensures pilot.goldDigger == (|pilots| == 2 || old(pilot.goldDigger))
    {
      pilots := pilots[shipId := pilot];
      if |pilots| == 1 {
        pilot.SetDiamondChaser(true);
      } else if |pilots| == 2 {
        pilot.SetGoldDigger(true);
      }
    }

    method AddBase(base: WorldObject)
      modifies this
      ensures bases == old(bases) + [base]
      ensures strategy == old(strategy) && planner == old(planner) && goldmine == old(goldmine) && pilots == old(pilots)
    {
      bases := bases + [base];
    }

    /**
     * replanNeeded for the commander's own counts: the current strategy's
     * case falls through into every later case of the switch.
     */
    function ReplanNeeded(): (r: bool)
      reads this
      ensures r <==> exists t :: Rank(strategy) <= Rank(t) && !Applicable(t, |pilots|, |bases|)
    {
      ReplanNeededFallsThrough(strategy, |pilots|, |bases|);
      StrategyRules.ReplanNeeded(strategy, |pilots|, |bases|)
    }

    /**
     * decideStrategy: a search from (strategy, pilots, bases), then the
     * strategy the planner picks; a failed pick is a null dereference and
     * leaves the strategy as it was.  `fuel` bounds the search.
     */
    method DecideStrategy(fuel: nat) returns (r: Result<()>)
      requires Valid()
      modifies this, planner
      ensures Valid()
      ensures planner == old(planner) && pilots == old(pilots) && bases == old(bases) && goldmine == old(goldmine)
      ensures planner.root == Some(old(|planner.nodes|))
      ensures planner.nodes[old(|planner.nodes|)] == PlanNode(old(strategy), |pilots|, |bases|, None)
      ensures r.Fail? ==> r.fault == NullPointer && strategy == old(strategy)
      ensures r.Ok? && planner.InGoalState(planner.nodes[planner.root.value]) ==> strategy == FreeMine
      ensures r.Ok? && !planner.InGoalState(planner.nodes[planner.root.value]) ==>
        && planner.goal.Some?
        && exists c :: 0 <= c < |planner.nodes| && planner.nodes[c].parent == planner.root
             && Reaches(planner.nodes, planner.goal.value, c) && strategy == planner.nodes[c].strat
    {
      var outcome := planner.GenerateGraph(strategy, |pilots|, |bases|, |pilots|, fuel);
      var best := planner.FindBestStrategy();
      if best.Fail? {
        return Fail(best.fault);
      }
      strategy := best.value;
      return Ok(());
    }

    /** The targets of the pilots of every ship other than `shipId`. */
    ghost function Targets(shipId: ObjId): set<Target>
      reads this, pilots.Values
    {
      set p | p in pilots.Values && p.target.Some? && p.vessel != shipId :: p.target.value
    }

    /** getTargets: every target held by a pilot of another ship. */
    method GetTargets(shipId: ObjId) returns (targets: set<Target>)
      ensures targets == Targets(shipId)
      ensures forall t :: t in targets <==> exists p :: p in pilots.Values && p.vessel != shipId && p.target == Some(t)
    {
      targets := {};
      var rest := pilots.Values;
      while rest != {}
        invariant rest <= pilots.Values
        invariant targets == set p | p in pilots.Values - rest && p.target.Some? && p.vessel != shipId :: p.target.value
        decreases |rest|
      {
        var p :| p in rest;
        if p.target.Some? && p.vessel != shipId {
          targets := targets + {p.target.value};
        }
        rest := rest - {p};
      }
    }

    /** isTargeted: `t` is held by the pilot of some other ship; a null object never is. */
    method IsTargeted(t: Option<Target>, shipId: ObjId) returns (b: bool)
      ensures b <==> t.Some? && exists p :: p in pilots.Values && p.vessel != shipId && p.target == t
    {
      var targets := GetTargets(shipId);
      b := t.Some? && t.value in targets;
    }
    /**
     * goToProspect: the nearest open prospect, when the ship neither needs
     * fuel nor is full; the pilot then targets it.  A missing ship is
     * dereferenced by the scan.
     */
    method GoToProspect(space: Space, p: ShipState) returns (r: Result<Option<Action>>)
      modifies p
      ensures p.diamondChaser == old(p.diamondChaser) && p.goldDigger == old(p.goldDigger)
      ensures ShipById(space, p.vessel).Fail? ==> r == Fail(ClassCast)
      ensures ShipById(space, p.vessel) == Ok(None) ==> r == Fail(NullPointer)
      ensures ShipById(space, p.vessel).Ok? && ShipById(space, p.vessel).value.Some? ==> r.Ok?
      ensures r.Fail? || r.value.None? ==> p.target == old(p.target)
      ensures r.Ok? && r.value.Some? ==>
        var v := ShipById(space, p.vessel).value.value;
        && !NeedsFuel(FuelCoef, v) && !AtMaxCargo(CargoCapacity, v)
        && ProspectMove(space, v, old(p.target), old(Targets(p.vessel)), p.target, r.value.value)
      ensures r.Ok? && r.value.None? ==>
        var v := ShipById(space, p.vessel).value.value;
        NeedsFuel(FuelCoef, v) || AtMaxCargo(CargoCapacity, v)
        || forall a :: !OpenProspect(space, v, old(p.target), old(Targets(p.vessel)), a)
    {
      var lookup := ShipById(space, p.vessel);
      if lookup.Fail? {
        return Fail(ClassCast);
      }
      var taken := GetTargets(p.vessel);
      if lookup.value.None? {
        return Fail(NullPointer);
      }
      var v := lookup.value.value;
      ghost var own := p.target;
      var prospect, _ := p.GetNearestProspect(space, v, Some(taken));
      NearestOpenProspect(space, v, own, taken);
      if !NeedsFuel(FuelCoef, v) && !AtMaxCargo(CargoCapacity, v) && prospect.Some? {
        var a := prospect.value;
        p.SetTarget(Some(ObjectTarget(a.id)));
        return Ok(Some(MoveTo(a.pos)));
      }
      return Ok(None);
    }

    /**
     * goToDiamond: the richest mineable asteroid, when the ship neither
     * needs fuel nor is full.  The richest one is looked up before the ship
     * is dereferenced, so an empty field fails first.
     */
    method GoToDiamond(space: Space, p: ShipState) returns (r: Result<Option<Action>>)
      modifies p
      ensures p.diamondChaser == old(p.diamondChaser) && p.goldDigger == old(p.goldDigger)
      ensures ShipById(space, p.vessel).Fail? ==> r == Fail(ClassCast)
      ensures ShipById(space, p.vessel).Ok? && Minable(space) == [] ==> r == Fail(IndexOutOfBounds)
      ensures ShipById(space, p.vessel) == Ok(None) && Minable(space) != [] ==> r == Fail(NullPointer)
      ensures ShipById(space, p.vessel).Ok? && ShipById(space, p.vessel).value.Some? && Minable(space) != [] ==> r.Ok?
      ensures r.Fail? || r.value.None? ==> p.target == old(p.target)
      ensures r.Ok? && r.value.Some? ==>
        var v := ShipById(space, p.vessel).value.value;
        && !NeedsFuel(FuelCoef, v) && !AtMaxCargo(CargoCapacity, v)
        && exists a :: a in space.objects && a.IsMineable()
             && p.target == Some(ObjectTarget(a.id)) && r.value.value == MoveTo(a.pos)
             && forall b :: b in space.objects && b.IsMineable() ==> b.total <= a.total
      ensures r.Ok? && r.value.None? ==>
        var v := ShipById(space, p.vessel).value.value;
        NeedsFuel(FuelCoef, v) || AtMaxCargo(CargoCapacity, v)
    {
      var lookup := ShipById(space, p.vessel);
      if lookup.Fail? {
        return Fail(ClassCast);
      }
      var diamond := p.GetDiamond(space);
      if diamond.Fail? {
        return Fail(diamond.fault);
      }
      if lookup.value.None? {
        return Fail(NullPointer);
      }
      var v := lookup.value.value;
      if !NeedsFuel(FuelCoef, v) && !AtMaxCargo(CargoCapacity, v) {
        var a := diamond.value;
        forall b | b in space.objects && b.IsMineable()
          ensures b.total <= a.total
        {
          MinableMember(space, b);
        }
        p.SetTarget(Some(ObjectTarget(a.id)));
        return Ok(Some(MoveTo(a.pos)));
      }
      return Ok(None);
    }

    /** goToBase: the nearest base of the team, when the ship is full. */
    method GoToBase(space: Space, p: ShipState) returns (r: Result<Option<Action>>)
      modifies p
      ensures p.diamondChaser == old(p.diamondChaser) && p.goldDigger == old(p.goldDigger)
      ensures ShipById(space, p.vessel).Fail? ==> r == Fail(ClassCast)
      ensures ShipById(space, p.vessel).Ok? ==> (r.Ok? <==> ShipById(space, p.vessel).value.Some?)
      ensures r.Fail? ==> r.fault == ClassCast || r.fault == NullPointer
      ensures r.Fail? || r.value.None? ==> p.target == old(p.target)
      ensures r.Ok? && r.value.Some? ==>
        var v := ShipById(space, p.vessel).value.value;
        AtMaxCargo(CargoCapacity, v) && BaseMove(space, v, p.target, r.value.value)
      ensures r.Ok? && r.value.None? ==>
        var v := ShipById(space, p.vessel).value.value;
        !AtMaxCargo(CargoCapacity, v) || forall b :: !OwnBase(space, v, b)
    {
      var lookup := ShipById(space, p.vessel);
      if lookup.Fail? {
        return Fail(ClassCast);
      }
      if lookup.value.None? {
        return Fail(NullPointer);
      }
      var v := lookup.value.value;
      var base := p.GetNearestBase(space, v, false, MinBaseFuel);
      if AtMaxCargo(CargoCapacity, v) && base.Some? {
        var b := base.value;
        OwnBasesMember(space, v, false, b);
        forall c | OwnBase(space, v, c)
          ensures space.dist(v.pos, b.pos) <= space.dist(v.pos, c.pos)
        {
          OwnBasesMember(space, v, false, c);
          var i :| 0 <= i < |OwnBases(space, v, false, MinBaseFuel)| && OwnBases(space, v, false, MinBaseFuel)[i] == c;
        }
        p.SetTarget(Some(ObjectTarget(b.id)));
        return Ok(Some(MoveTo(b.pos)));
      }
      if base.None? {
        forall b | OwnBase(space, v, b)
          ensures false
        {
          OwnBasesMember(space, v, false, b);
        }
      }
      return Ok(None);
    }

    /**
     * goToRefuel: the refuelling point the pilot's scan picks (beacon or
     * base), when the ship needs fuel and no other pilot holds that point.
     */
    method GoToRefuel(space: Space, p: ShipState) returns (r: Result<Option<Action>>)
      modifies p
      ensures p.diamondChaser == old(p.diamondChaser) && p.goldDigger == old(p.goldDigger)
      ensures ShipById(space, p.vessel).Fail? ==> r == Fail(ClassCast)
      ensures ShipById(space, p.vessel).Ok? ==> (r.Ok? <==> ShipById(space, p.vessel).value.Some?)
      ensures r.Fail? ==> r.fault == ClassCast || r.fault == NullPointer
      ensures r.Fail? || r.value.None? ==> p.target == old(p.target)
      ensures r.Ok? ==> RefuelMove(space, ShipById(space, p.vessel).value.value, old(Targets(p.vessel)), p.target, r.value)
    {
      var lookup := ShipById(space, p.vessel);
      if lookup.Fail? {
        return Fail(ClassCast);
      }
      if lookup.value.None? {
        return Fail(NullPointer);
      }
      var move := RefuelVessel(space, p, lookup.value.value);
      return Ok(move);
    }

    /** goToRefuel once the ship has been found. */
    method RefuelVessel(space: Space, p: ShipState, v: WorldObject) returns (move: Option<Action>)
      modifies p
      ensures p.diamondChaser == old(p.diamondChaser) && p.goldDigger == old(p.goldDigger)
      ensures move.None? ==> p.target == old(p.target)
      ensures RefuelMove(space, v, old(Targets(p.vessel)), p.target, move)
    {
      var refuel := p.GetNearestRefuel(space, v, MinBaseFuel);
      var targeted := IsTargeted(if refuel.Some? then Some(ObjectTarget(refuel.value.id)) else None, p.vessel);
      if NeedsFuel(FuelCoef, v) && !targeted && refuel.Some? {
        p.SetTarget(Some(ObjectTarget(refuel.value.id)));
        return Some(MoveTo(refuel.value.pos));
      }
      return None;
    }

    /**
     * goToGoldmine: head for the recorded goldmine; with none recorded, adopt
     * the spot the clustering search offers (`found`) when the pilot is the
     * gold digger and has fuel, and otherwise clear the record.
     */
    method GoToGoldmine(space: Space, p: ShipState, found: Option<Position>) returns (r: Result<Option<Action>>)
      modifies this, p
      ensures p.diamondChaser == old(p.diamondChaser) && p.goldDigger == old(p.goldDigger)
      ensures strategy == old(strategy) && planner == old(planner) && pilots == old(pilots) && bases == old(bases)
      ensures ShipById(space, p.vessel).Fail? ==> r == Fail(ClassCast)
      ensures r.Fail? ==> goldmine == old(goldmine)
      ensures ShipById(space, p.vessel).Ok? && ShipById(space, p.vessel).value.Some? ==> r.Ok?
      ensures r.Fail? || r.value.None? || old(goldmine).Some? ==> p.target == old(p.target)
      ensures old(goldmine).Some? && ShipById(space, p.vessel).Ok? ==>
        && goldmine == old(goldmine)
        && (r.Ok? <==> ShipById(space, p.vessel).value.Some?)
        && (r.Ok? ==> r.value == Some(MoveTo(old(goldmine).value)))
      ensures old(goldmine).None? && ShipById(space, p.vessel) == Ok(None) ==>
        (r == Fail(NullPointer) <==> found.Some? && p.goldDigger)
      ensures old(goldmine).None? && r.Ok? && r.value.Some? ==>
        && found.Some? && p.goldDigger && goldmine == found
        && !NeedsFuel(FuelCoef, ShipById(space, p.vessel).value.value)
        && p.target == Some(Marker(found.value)) && r.value.value == MoveTo(found.value)
      ensures old(goldmine).None? && r.Ok? && r.value.None? ==>
        && goldmine.None?
        && (found.None? || !p.goldDigger || NeedsFuel(FuelCoef, ShipById(space, p.vessel).value.value))
    {
      var lookup := ShipById(space, p.vessel);
      if lookup.Fail? {
        return Fail(ClassCast);
      }
      if goldmine.Some? {
        if lookup.value.None? {
          return Fail(NullPointer);
        }
        return Ok(Some(MoveTo(goldmine.value)));
      }
      if found.Some? && p.goldDigger {
        if lookup.value.None? {
          return Fail(NullPointer);
        }
        if !NeedsFuel(FuelCoef, lookup.value.value) {
          goldmine := found;
          p.SetTarget(Some(Marker(found.value)));
          return Ok(Some(MoveTo(found.value)));
        }
      }
      goldmine := None;
      return Ok(None);
    }
    /** goToGoldmine has a move to offer: a recorded goldmine, or a found one the fuelled gold digger adopts. */
    ghost predicate GoldOffer(p: ShipState, v: WorldObject, found: Option<Position>)
      reads this, p
    {
      strategy == ExpandEmpire && p.goldDigger
      && (goldmine.Some? || (found.Some? && !NeedsFuel(FuelCoef, v)))
    }

    /** The mining step has a move to offer: any mineable asteroid for the diamond chaser, an open prospect for others. */
    ghost predicate MineOffer(space: Space, p: ShipState, v: WorldObject)
      reads this, p, pilots.Values
    {
      Mining(v) && (p.diamondChaser || exists a :: OpenProspect(space, v, p.target, Targets(p.vessel), a))
    }

    /** goToRefuel has a move to offer: the ship needs fuel and getNearestRefuel's pick is free. */
    ghost predicate RefuelOffer(space: Space, p: ShipState, v: WorldObject)
      reads this, pilots.Values
    {
      var pick := RefuelPoint(space, v, MinBaseFuel);
      NeedsFuel(FuelCoef, v) && pick.Some? && ObjectTarget(pick.value.id) !in Targets(p.vessel)
    }

    /**
     * One ship's entry in getBasicActions, by priority: the goldmine (the
     * gold digger under ExpandEmpire), then the richest asteroid (the
     * diamond chaser) or the nearest open prospect (everyone else), then a
     * base, then refuelling, and otherwise nothing.  The ghost `stage` names
     * the step that answered.
     */
    method ShipAction(space: Space, p: ShipState, found: Option<Position>) returns (r: Result<Action>, ghost stage: Stage)
      modifies this, p
      ensures strategy == old(strategy) && planner == old(planner) && pilots == old(pilots) && bases == old(bases)
      ensures p.diamondChaser == old(p.diamondChaser) && p.goldDigger == old(p.goldDigger)
      ensures goldmine != old(goldmine) ==> strategy == ExpandEmpire && p.goldDigger
      ensures r.Ok? && r.value.DoNothing? ==> p.target == old(p.target)
      ensures p.target != old(p.target) ==>
        r.Ok? && r.value.MoveTo? && p.target.Some? && TargetAt(space, p.target.value, r.value.goal)
      ensures (ShipById(space, p.vessel).Ok? && ShipById(space, p.vessel).value.Some?
               && (!p.diamondChaser || Minable(space) != [])) ==> r.Ok?
      ensures r.Ok? ==> ShipById(space, p.vessel).Ok? && ShipById(space, p.vessel).value.Some?
      ensures r.Ok? ==> (r.value.DoNothing? <==> stage == Idle)
      ensures r.Ok? ==>
        var v := ShipById(space, p.vessel).value.value;
        stage == Priority(old(GoldOffer(p, v, found)), p.diamondChaser, old(MineOffer(space, p, v)),
                          BaseOffer(space, v), old(RefuelOffer(space, p, v)))
      ensures r.Ok? && stage == Goldmine ==>
        if old(goldmine).Some? then r.value == MoveTo(old(goldmine).value)
        else found.Some? && goldmine == found && r.value == MoveTo(found.value) && p.target == Some(Marker(found.value))
      ensures r.Ok? && stage == Diamond ==> DiamondMove(space, p.target, r.value)
      ensures r.Ok? && stage == Prospect ==>
        ProspectMove(space, ShipById(space, p.vessel).value.value, old(p.target), old(Targets(p.vessel)), p.target, r.value)
      ensures r.Ok? && stage == Base ==> BaseMove(space, ShipById(space, p.vessel).value.value, p.target, r.value)
      ensures r.Ok? && stage == Refuel ==>
        var pick := RefuelPoint(space, ShipById(space, p.vessel).value.value, MinBaseFuel);
        pick.Some? && r.value == MoveTo(pick.value.pos) && p.target == Some(ObjectTarget(pick.value.id))
    {
      var g := GoldStep(space, p, found);
      if g.Fail? {
        return Fail(g.fault), Idle;
      }
      if g.value.Some? {
        return Ok(g.value.value), Goldmine;
      }
      ghost var look := ShipById(space, p.vessel);
      if look.Ok? && look.value.Some? {
        ghost var v := look.value.value;
        assert MineOffer(space, p, v) == old(MineOffer(space, p, v));
        assert RefuelOffer(space, p, v) == old(RefuelOffer(space, p, v));
      }
      var rest;
      rest, stage := RestSteps(space, p);
      if rest.Fail? {
        return Fail(rest.fault), Idle;
      }
      if rest.value.None? {
        return Ok(DoNothing), Idle;
      }
      return Ok(rest.value.value), stage;
    }

    /** The chain after the goldmine step: mining, then the base, then refuelling. */
    method RestSteps(space: Space, p: ShipState) returns (r: Result<Option<Action>>, ghost stage: Stage)
      modifies p
      ensures p.diamondChaser == old(p.diamondChaser) && p.goldDigger == old(p.goldDigger)
      ensures r.Fail? || r.value.None? ==> p.target == old(p.target)
      ensures p.target != old(p.target) ==>
        r.Ok? && r.value.Some? && r.value.value.MoveTo? && p.target.Some? && TargetAt(space, p.target.value, r.value.value.goal)
      ensures (ShipById(space, p.vessel).Ok? && ShipById(space, p.vessel).value.Some?
               && (!p.diamondChaser || Minable(space) != [])) ==> r.Ok?
      ensures r.Ok? ==> ShipById(space, p.vessel).Ok? && ShipById(space, p.vessel).value.Some?
      ensures r.Ok? ==> (r.value.None? <==> stage == Idle)
      ensures r.Ok? ==>
        var v := ShipById(space, p.vessel).value.value;
        stage == Priority(false, p.diamondChaser, old(MineOffer(space, p, v)),
                          BaseOffer(space, v), old(RefuelOffer(space, p, v)))
      ensures r.Ok? && stage == Diamond ==> DiamondMove(space, p.target, r.value.value)
      ensures r.Ok? && stage == Prospect ==>
        ProspectMove(space, ShipById(space, p.vessel).value.value, old(p.target), old(Targets(p.vessel)), p.target, r.value.value)
      ensures r.Ok? && stage == Base ==> BaseMove(space, ShipById(space, p.vessel).value.value, p.target, r.value.value)
      ensures r.Ok? && stage == Refuel ==>
        var pick := RefuelPoint(space, ShipById(space, p.vessel).value.value, MinBaseFuel);
        pick.Some? && r.value.value == MoveTo(pick.value.pos) && p.target == Some(ObjectTarget(pick.value.id))
    {
      ghost var v0 := ShipById(space, p.vessel);
      var m := MineStep(space, p);
      if m.Fail? {
        return m, Idle;
      }
      assert v0.Ok? && v0.value.Some?;
      ghost var v := v0.value.value;
      if m.value.Some? {
        stage := if p.diamondChaser then Diamond else Prospect;
        assert old(MineOffer(space, p, v));
        return m, stage;
      }
      assert !old(MineOffer(space, p, v));
      assert RefuelOffer(space, p, v) == old(RefuelOffer(space, p, v));
      r, stage := SupplyStep(space, p);
    }

    /** The goldmine step of the chain: only the gold digger under ExpandEmpire tries it. */
    method GoldStep(space: Space, p: ShipState, found: Option<Position>) returns (r: Result<Option<Action>>)
      modifies this, p
      ensures strategy == old(strategy) && planner == old(planner) && pilots == old(pilots) && bases == old(bases)
      ensures p.diamondChaser == old(p.diamondChaser) && p.goldDigger == old(p.goldDigger)
      ensures goldmine != old(goldmine) ==> strategy == ExpandEmpire && p.goldDigger
      ensures r.Fail? || r.value.None? ==> p.target == old(p.target) && Targets(p.vessel) == old(Targets(p.vessel))
      ensures p.target != old(p.target) ==>
        r.Ok? && r.value.Some? && r.value.value.MoveTo? && p.target.Some? && TargetAt(space, p.target.value, r.value.value.goal)
      ensures ShipById(space, p.vessel).Ok? && ShipById(space, p.vessel).value.Some? ==>
        r.Ok? && (r.value.Some? <==> old(GoldOffer(p, ShipById(space, p.vessel).value.value, found)))
      ensures r.Ok? && r.value.Some? ==>
        && ShipById(space, p.vessel).Ok? && ShipById(space, p.vessel).value.Some?
        && if old(goldmine).Some? then r.value.value == MoveTo(old(goldmine).value)
           else found.Some? && goldmine == found && r.value.value == MoveTo(found.value) && p.target == Some(Marker(found.value))
    {
      if strategy == ExpandEmpire && p.goldDigger {
        r := GoToGoldmine(space, p, found);
      } else {
        r := Ok(None);
      }
    }

    /** The mining step of the chain: the richest asteroid for the diamond chaser, the nearest open prospect for others. */
    method MineStep(space: Space, p: ShipState) returns (r: Result<Option<Action>>)
      modifies p
      ensures p.diamondChaser == old(p.diamondChaser) && p.goldDigger == old(p.goldDigger)
      ensures r.Fail? || r.value.None? ==> p.target == old(p.target)
      ensures p.target != old(p.target) ==>
        r.Ok? && r.value.Some? && r.value.value.MoveTo? && p.target.Some? && TargetAt(space, p.target.value, r.value.value.goal)
      ensures (ShipById(space, p.vessel).Ok? && ShipById(space, p.vessel).value.Some?
               && (!p.diamondChaser || Minable(space) != [])) ==> r.Ok?
      ensures r.Ok? ==> ShipById(space, p.vessel).Ok? && ShipById(space, p.vessel).value.Some?
      ensures r.Ok? ==> (r.value.Some? <==> old(MineOffer(space, p, ShipById(space, p.vessel).value.value)))
      ensures r.Ok? && r.value.Some? && p.diamondChaser ==> DiamondMove(space, p.target, r.value.value)
      ensures r.Ok? && r.value.Some? && !p.diamondChaser ==>
        ProspectMove(space, ShipById(space, p.vessel).value.value, old(p.target), old(Targets(p.vessel)), p.target, r.value.value)
    {
      if p.diamondChaser {
        r := GoToDiamond(space, p);
      } else {
        r := GoToProspect(space, p);
      }
    }

    /** The last steps of the chain: a base for a full ship, then refuelling. */
    method SupplyStep(space: Space, p: ShipState) returns (r: Result<Option<Action>>, ghost stage: Stage)
      modifies p
      ensures p.diamondChaser == old(p.diamondChaser) && p.goldDigger == old(p.goldDigger)
      ensures r.Fail? || r.value.None? ==> p.target == old(p.target)
      ensures p.target != old(p.target) ==>
        r.Ok? && r.value.Some? && r.value.value.MoveTo? && p.target.Some? && TargetAt(space, p.target.value, r.value.value.goal)
      ensures r.Ok? <==> ShipById(space, p.vessel).Ok? && ShipById(space, p.vessel).value.Some?
      ensures r.Ok? ==>
        var v := ShipById(space, p.vessel).value.value;
        stage == (if BaseOffer(space, v) then Base else if old(RefuelOffer(space, p, v)) then Refuel else Idle)
      ensures r.Ok? ==> (r.value.None? <==> stage == Idle)
      ensures r.Ok? && stage == Base ==> BaseMove(space, ShipById(space, p.vessel).value.value, p.target, r.value.value)
      ensures r.Ok? && stage == Refuel ==>
        var pick := RefuelPoint(space, ShipById(space, p.vessel).value.value, MinBaseFuel);
        pick.Some? && r.value.value == MoveTo(pick.value.pos) && p.target == Some(ObjectTarget(pick.value.id))
    {
      stage := Idle;
      r := GoToBase(space, p);
      if r.Fail? {
        return;
      }
      if r.value.Some? {
        stage := Base;
        return;
      }
      ghost var v := ShipById(space, p.vessel).value.value;
      assert !BaseOffer(space, v);
      assert RefuelOffer(space, p, v) == old(RefuelOffer(space, p, v));
      r := GoToRefuel(space, p);
      if r.Ok? && r.value.Some? {
        stage := Refuel;
        RefuelCandidate(space, v);
      }
    }

    /**
     * getBasicActions: an action for the ship of every pilot, visited in the
     * order `keys`, then DoNothing for every base of the team.
     */
    method GetBasicActions(space: Space, keys: seq<ObjId>, found: Option<Position>) returns (r: Result<map<ObjId, Action>>)
      requires Enumerates(keys, pilots)
      modifies this, pilots.Values
      ensures strategy == old(strategy) && planner == old(planner) && pilots == old(pilots) && bases == old(bases)
      ensures r.Ok? ==> r.value.Keys == (set k | k in pilots :: pilots[k].vessel) + Ids(bases)
      ensures r.Ok? ==> forall b :: b in bases ==> r.value[b.id] == DoNothing
    {
      var shipActions := ShipActions(space, keys, found);
      if shipActions.Fail? {
        return Fail(shipActions.fault);
      }
      var actions := IdleBases(shipActions.value, bases);
      return Ok(actions);
    }

    /** The base half of getBasicActions: every base is told to do nothing. */
    static method IdleBases(ships: map<ObjId, Action>, bases: seq<WorldObject>) returns (actions: map<ObjId, Action>)
      ensures actions.Keys == ships.Keys + Ids(bases)
      ensures forall b :: b in bases ==> actions[b.id] == DoNothing
      ensures forall k :: k in ships && k !in Ids(bases) ==> actions[k] == ships[k]
    {
      actions := ships;
      for j := 0 to |bases|
        invariant actions.Keys == ships.Keys + set o | o in bases[..j] :: o.id
        invariant forall k :: 0 <= k < j ==> actions[bases[k].id] == DoNothing
        invariant forall k :: k in ships && k !in (set o | o in bases[..j] :: o.id) ==> actions[k] == ships[k]
      {
        assert bases[..j + 1] == bases[..j] + [bases[j]];
        actions := actions[bases[j].id := DoNothing];
      }
      assert bases[..|bases|] == bases;
    }

    /** The ship half of getBasicActions: one action per pilot's ship. */
    method ShipActions(space: Space, keys: seq<ObjId>, found: Option<Position>) returns (r: Result<map<ObjId, Action>>)
      requires Enumerates(keys, pilots)
      modifies this, pilots.Values
      ensures strategy == old(strategy) && planner == old(planner) && pilots == old(pilots) && bases == old(bases)
      ensures r.Ok? ==> r.value.Keys == set k | k in pilots :: pilots[k].vessel
    {
      var actions: map<ObjId, Action> := map[];
      for i := 0 to |keys|
        invariant strategy == old(strategy) && planner == old(planner) && pilots == old(pilots) && bases == old(bases)
        invariant actions.Keys == set k | k in keys[..i] :: pilots[k].vessel
      {
        assert keys[..i + 1] == keys[..i] + [keys[i]];
        var state := pilots[keys[i]];
        var a := PilotTurn(space, state, found);
        if a.Fail? {
          return Fail(a.fault);
        }
        actions := actions[state.vessel := a.value];
      }
      assert keys[..|keys|] == keys;
      return Ok(actions);
    }

    /** One pass of the ship loop: `ShipAction` for one pilot, seen only through what it leaves unchanged. */
    method PilotTurn(space: Space, p: ShipState, found: Option<Position>) returns (r: Result<Action>)
      modifies this, p
      ensures strategy == old(strategy) && planner == old(planner) && pilots == old(pilots) && bases == old(bases)
      ensures r.Ok? ==> ShipById(space, p.vessel).Ok? && ShipById(space, p.vessel).value.Some?
    {
      ghost var stage;
      r, stage := ShipAction(space, p, found);
    }

    /** The frontier test of the purchase loop: is `v` at least Frontier from its team's nearest base? */
    static method OnFrontier(space: Space, p: ShipState, v: WorldObject) returns (r: Result<bool>)
      requires ShipById(space, p.vessel) == Ok(Some(v))
      ensures r.Fail? <==> OwnBases(space, v, false, MinBaseFuel) == []
      ensures r.Fail? ==> r.fault == NullPointer
      ensures r.Ok? ==> (r.value <==> FrontierReady(space, p))
    {
      var base := p.GetNearestBase(space, v, false, MinBaseFuel);
      if base.None? {
        return Fail(NullPointer);
      }
      return Ok(space.dist(v.pos, base.value.pos) >= Frontier);
    }

    /** One pilot's turn in the purchase loop, given the purchases so far. */
    static method VisitPilot(space: Space, p: ShipState, mine: Option<Position>, purchases: map<ObjId, Purchase>)
      returns (r: Result<map<ObjId, Purchase>>, gold: bool)
      ensures (r, gold) == Step(Sight(space, p, mine), purchases)
    {
      var lookup := ShipById(space, p.vessel);
      if lookup.Fail? {
        return Fail(ClassCast), false;
      }
      var vessel := lookup.value;
      if vessel.Some? && p.goldDigger && mine.Some? && space.dist(vessel.value.pos, mine.value) <= GoldmineRange {
        return Ok(map[vessel.value.id := BasePurchase]), true;
      }
      if vessel.Some? && |purchases| < 1 {
        var far := OnFrontier(space, p, vessel.value);
        if far.Fail? {
          return Fail(NullPointer), false;
        }
        if far.value {
          return Ok(purchases[vessel.value.id := BasePurchase]), false;
        }
      }
      return Ok(purchases), false;
    }

    /**
     * The ExpandEmpire purchase loop, visiting pilots in the order `keys`: a
     * gold digger within range of the goldmine buys the only base at once
     * and clears the goldmine; otherwise the first ship far enough from its
     * team's nearest base buys one.  A ship whose team has no base makes the
     * distance test dereference null.
     */
    method BaseOnFrontier(space: Space, keys: seq<ObjId>) returns (r: Result<map<ObjId, Purchase>>)
      requires Enumerates(keys, pilots)
      modifies this
      ensures strategy == old(strategy) && planner == old(planner) && pilots == old(pilots) && bases == old(bases)
      ensures r.Ok? ==> |r.value| <= 1 && forall k :: k in r.value ==> r.value[k] == BasePurchase
      ensures r.Fail? ==> goldmine == old(goldmine)
      ensures goldmine != old(goldmine) ==>
        && goldmine.None? && r.Ok?
        && exists p :: p in pilots.Values && GoldReady(space, p, old(goldmine)) && r.value == map[p.vessel := BasePurchase]
      ensures r.Ok? && (exists p :: p in pilots.Values && GoldReady(space, p, old(goldmine))) ==> goldmine != old(goldmine)
      ensures r.Ok? && goldmine == old(goldmine) ==>
        && (r.value != map[] ==> exists p :: p in pilots.Values && FrontierReady(space, p) && r.value == map[p.vessel := BasePurchase])
        && ((exists p :: p in pilots.Values && FrontierReady(space, p)) ==> r.value != map[])
    {
      var gold;
      r, gold := ScanForBase(space, keys);
      PurchaseShape(space, keys, pilots, goldmine);
      PurchaseGold(space, keys, pilots, goldmine);
      PurchaseFrontier(space, keys, pilots, goldmine);
      FrontierBuys(space, keys, pilots, goldmine);
      if gold {
        goldmine := None;
      }
    }

    /**
     * The purchase loop itself, without its one side effect: `gold` says
     * whether a gold digger made the purchase, which clears the goldmine.
     */
    method ScanForBase(space: Space, keys: seq<ObjId>) returns (r: Result<map<ObjId, Purchase>>, gold: bool)
      requires Enumerates(keys, pilots)
      ensures (r, gold) == Scan(Sightings(space, keys, pilots, goldmine), map[])
    {
      ghost var ss := Sightings(space, keys, pilots, goldmine);
      var purchases: map<ObjId, Purchase> := map[];
      for i := 0 to |keys|
        invariant Scan(ss[i..], purchases) == Scan(ss, map[])
      {
        assert ss[i..][0] == ss[i] && ss[i..][1..] == ss[i + 1..];
        var visit, found := VisitPilot(space, pilots[keys[i]], goldmine, purchases);
        if visit.Fail? || found {
          return visit, found;
        }
        purchases := visit.value;
      }
      return Ok(purchases), false;
    }

    /**
     * getTeamPurchases: nothing under FreeMine; under BuildFleet a ship at
     * the first base of the team when one is affordable (reading the first
     * of no bases fails); under ExpandEmpire the base purchase loop when a
     * base is affordable.
     */
    method GetTeamPurchases(space: Space, canAffordShip: bool, canAffordBase: bool, keys: seq<ObjId>)
      returns (r: Result<map<ObjId, Purchase>>)
      requires Enumerates(keys, pilots)
      modifies this
      ensures strategy == old(strategy) && planner == old(planner) && pilots == old(pilots) && bases == old(bases)
      ensures strategy == FreeMine ==> r == Ok(map[])
      ensures strategy == BuildFleet ==>
        && (r.Fail? <==> canAffordShip && bases == [])
        && (r.Fail? ==> r.fault == IndexOutOfBounds)
        && (r.Ok? && canAffordShip ==> r.value == map[bases[0].id := ShipPurchase])
        && (!canAffordShip ==> r == Ok(map[]))
      ensures strategy == ExpandEmpire && !canAffordBase ==> r == Ok(map[])
      ensures r.Ok? ==> |r.value| <= 1
      ensures strategy == ExpandEmpire && r.Ok? ==> forall k :: k in r.value ==> r.value[k] == BasePurchase
      ensures goldmine != old(goldmine) ==>
        && strategy == ExpandEmpire && canAffordBase && goldmine.None? && r.Ok?
        && exists p :: p in pilots.Values && GoldReady(space, p, old(goldmine)) && r.value == map[p.vessel := BasePurchase]
      ensures strategy == ExpandEmpire && canAffordBase && r.Ok? ==>
        (exists p :: p in pilots.Values && GoldReady(space, p, old(goldmine))) ==> goldmine != old(goldmine)
      ensures strategy == ExpandEmpire && canAffordBase && r.Ok? && goldmine == old(goldmine) ==>
        && (r.value != map[] ==> exists p :: p in pilots.Values && FrontierReady(space, p) && r.value == map[p.vessel := BasePurchase])
        && ((exists p :: p in pilots.Values && FrontierReady(space, p)) ==> r.value != map[])
    {
      match strategy {
        case FreeMine =>
          return Ok(map[]);
        case ExpandEmpire =>
          if canAffordBase {
            r := BaseOnFrontier(space, keys);
            return;
          }
        case BuildFleet =>
          if canAffordShip {
            if bases == [] {
              return Fail(IndexOutOfBounds);
            }
            return Ok(map[bases[0].id := ShipPurchase]);
          }
      }
      return Ok(map[]);
    }

    /**
     * getTeamCommands: replan first when the strategy's preconditions fail
     * (a failed pick is propagated), then the strategy's actions when its
     * own precondition holds, and the basic actions as the fallback either
     * way: every ship and base gets an action.
     */
    method GetTeamCommands(space: Space, keys: seq<ObjId>, found: Option<Position>, fuel: nat)
      returns (r: Result<map<ObjId, Action>>)
      requires Valid() && Enumerates(keys, pilots)
      modifies this, planner, pilots.Values
      ensures Valid()
      ensures planner == old(planner) && pilots == old(pilots) && bases == old(bases)
      ensures !old(ReplanNeeded()) ==> strategy == old(strategy)
      ensures old(ReplanNeeded()) ==>
        && planner.root == Some(old(|planner.nodes|))
        && planner.nodes[old(|planner.nodes|)] == PlanNode(old(strategy), |pilots|, |bases|, None)
      ensures old(ReplanNeeded()) && r.Ok? && planner.InGoalState(planner.nodes[planner.root.value]) ==>
        strategy == FreeMine
      ensures old(ReplanNeeded()) && r.Ok? && !planner.InGoalState(planner.nodes[planner.root.value]) ==>
        && planner.goal.Some?
        && exists c :: 0 <= c < |planner.nodes| && planner.nodes[c].parent == planner.root
             && Reaches(planner.nodes, planner.goal.value, c) && strategy == planner.nodes[c].strat
      ensures r.Ok? ==> r.value.Keys == (set k | k in pilots :: pilots[k].vessel) + Ids(bases)
      ensures r.Ok? ==> forall b :: b in bases ==> r.value[b.id] == DoNothing
    {
      if ReplanNeeded() {
        var decided := DecideStrategy(fuel);
        if decided.Fail? {
          return Fail(decided.fault);
        }
      }
      var actions: Option<Result<map<ObjId, Action>>> := None;
      match strategy {
        case FreeMine =>
          if CanFreeMine(|pilots|, |pilots|) {
            var a := GetBasicActions(space, keys, found);
            actions := Some(a);
          }
        case ExpandEmpire =>
          if CanExpandEmpire(|pilots|, |bases|) {
            var a := GetBasicActions(space, keys, found);
            actions := Some(a);
          }
        case BuildFleet =>
          if CanBuildFleet(|pilots|, |pilots|, |bases|) {
            var a := GetBasicActions(space, keys, found);
            actions := Some(a);
          }
      }
      if actions.None? {
        var a := GetBasicActions(space, keys, found);
        actions := Some(a);
      }
      r := actions.value;
    }
  }
}
