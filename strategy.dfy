/**
 * The team's three high-level strategies and the preconditions that gate
 * them.  The preconditions belong to the team commander; they live in their
 * own module because both the commander and the strategy planner consult them.
 * `pilots` is always the number of pilots the commander currently tracks.
 */
module StrategyRules {

  datatype Strategy = FreeMine | ExpandEmpire | BuildFleet

  const GoalBases: int := 10
  const GoalShips: int := 10
  const MinShips: int := 5

  /** Free mining needs a full fleet; the ship count it is given is not consulted. */
  predicate CanFreeMine(pilots: nat, numShips: int) {
    pilots >= MinShips
  }

  /** The ship count is ignored, and more pilots never stop free mining. */
  lemma FreeMineIgnoresShipCount(pilots: nat, more: nat, ships: int, other: int)
    ensures CanFreeMine(pilots, ships) == CanFreeMine(pilots, other)
    ensures CanFreeMine(pilots, ships) && pilots <= more ==> CanFreeMine(more, ships)
  {
  }

  predicate CanExpandEmpire(numShips: int, numBases: int) {
    numBases < GoalBases && numBases < numShips
  }

  /** The MIN_SHIPS test reads the real pilot count, not the ship count it is given. */
  predicate CanBuildFleet(pilots: nat, numShips: int, numBases: int) {
    pilots < MinShips || (numShips < GoalShips && numShips <= numBases)
  }

  /**
   * Below both goals and with a full fleet, expanding and building split the
   * counts between them: expanding exactly when there are more ships than bases.
   */
  lemma ExpandOrBuild(pilots: nat, ships: int, bases: int)
    requires pilots >= MinShips && ships < GoalShips && bases < GoalBases
    ensures CanExpandEmpire(ships, bases) <==> !CanBuildFleet(pilots, ships, bases)
    ensures CanExpandEmpire(ships, bases) <==> bases < ships
  {
  }

  /**
   * A short fleet always builds and never free-mines; a full fleet stops
   * building once it reaches the ship goal or has more ships than bases.
   */
  lemma BuildFleetCases(pilots: nat, ships: int, bases: int)
    ensures pilots < MinShips ==> CanBuildFleet(pilots, ships, bases) && !CanFreeMine(pilots, ships)
    ensures pilots >= MinShips && (ships >= GoalShips || bases < ships) ==> !CanBuildFleet(pilots, ships, bases)
  {
  }

  /** The precondition of a strategy, as the commander evaluates it for its own state. */
  predicate Applicable(t: Strategy, pilots: nat, bases: nat) {
    match t
    case FreeMine => CanFreeMine(pilots, pilots)
    case ExpandEmpire => CanExpandEmpire(pilots, bases)
    case BuildFleet => CanBuildFleet(pilots, pilots, bases)
  }

  /** Position of a case in the commander's switch. */
  function Rank(t: Strategy): nat {
    match t
    case FreeMine => 0
    case ExpandEmpire => 1
    case BuildFleet => 2
  }

  /**
   * The replanning test as written: there is no `break` between the cases,
   * so control falls from the current strategy's case into every later one.
   */
  function ReplanNeeded(strategy: Strategy, pilots: nat, bases: nat): (r: bool)
    ensures !Applicable(strategy, pilots, bases) ==> r
    ensures !Applicable(BuildFleet, pilots, bases) ==> r
  {
    match strategy
    case FreeMine =>
      if !CanFreeMine(pilots, pilots) then true
      else if !CanExpandEmpire(pilots, bases) then true
      else !CanBuildFleet(pilots, pilots, bases)
    case ExpandEmpire =>
      if !CanExpandEmpire(pilots, bases) then true
      else !CanBuildFleet(pilots, pilots, bases)
    case BuildFleet =>
      !CanBuildFleet(pilots, pilots, bases)
  }

  /** Replanning is needed iff the precondition of the current case or of a later case fails. */
  lemma ReplanNeededFallsThrough(strategy: Strategy, pilots: nat, bases: nat)
    ensures ReplanNeeded(strategy, pilots, bases) <==>
      exists t :: Rank(strategy) <= Rank(t) && !Applicable(t, pilots, bases)
  {
    if ReplanNeeded(strategy, pilots, bases) {
      if Rank(strategy) <= Rank(FreeMine) && !Applicable(FreeMine, pilots, bases) {
      } else if Rank(strategy) <= Rank(ExpandEmpire) && !Applicable(ExpandEmpire, pilots, bases) {
      } else {
        assert !Applicable(BuildFleet, pilots, bases);
      }
    } else {
      forall t | Rank(strategy) <= Rank(t)
        ensures Applicable(t, pilots, bases)
      {
      }
    }
  }

  /**
   * Consequence of the fall-through: while free mining, a replan is needed as
   * soon as any of the three preconditions fails, so with a full fleet it is
   * needed unless both expanding and building are also possible.
   */
  lemma FreeMineChecksAll(pilots: nat, bases: nat)
    ensures ReplanNeeded(FreeMine, pilots, bases) <==>
      !Applicable(FreeMine, pilots, bases) || !Applicable(ExpandEmpire, pilots, bases)
      || !Applicable(BuildFleet, pilots, bases)
  {
    ReplanNeededFallsThrough(FreeMine, pilots, bases);
  }

  /** A full fleet of free miners always replans: building needs ships <= bases, expanding bases < ships. */
  lemma {:induction false} FreeMineNeverStable(pilots: nat, bases: nat)
    requires pilots >= MinShips
    ensures ReplanNeeded(FreeMine, pilots, bases)
  {
    if CanExpandEmpire(pilots, bases) {
      assert !(pilots <= bases);
    }
  }

  /** One of building and free mining always applies, whatever the counts. */
  lemma SomeStrategyApplies(pilots: nat, ships: int, bases: int)
    ensures CanBuildFleet(pilots, ships, bases) || CanFreeMine(pilots, ships)
  {
  }
}
