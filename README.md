# space-settlers agent "stan5674": a Dafny model of its decision core

The agent plays Space Settlers, a toroidal 2-D game in which each team has
ships and bases, mines asteroids, refuels at beacons or bases, and buys new
ships and bases. This project models the agent's discrete decision logic and
proves properties of it. The model covers these parts:

- **Team commander** (`SpaceCommand.java`): `space_command.dfy`, module
  `Command`.
  - The three strategy preconditions and the replanning test, with its
    `switch` fall-through, live in `strategy.dfy`, module `StrategyRules`.
  - The commander assigns pilot roles (diamond chaser, gold digger) and keeps
    track of targets.
  - It makes strategy-gated purchases.
  - It decides each ship's action through a priority chain: gold mine, then
    diamond or prospect, then base, then refuel, then do nothing.
- **Strategy planner** (`Planner.java`): `planner.dfy`, module
  `StrategyPlanner`.
  - A breadth-first search over abstract team states `(strategy, ships,
    bases)`.
  - `findBestStrategy` follows the parent links from the goal back to the
    root.
- **Pilot** (`PilotState.java`): `pilot_state.dfy`, module `Pilot`.
  - The pilot builds a visibility graph over the objects in its field of
    view.
  - It runs an A*-style search with mutable `g`/`h` costs, open and closed
    sets and a predecessor map.
  - It pushes the route onto a waypoint stack, then executes and re-plans
    it.
  - It also has the goal priority rules, the shop decision and
    nearest-object scans.
- **Per-ship record** (`ShipState.java`): `ship_state.dfy`, module
  `ShipStates`. It holds the nearest beacon, base, prospect and refuelling
  point, the richest asteroid, and the mineable/unmineable split.
- **Field heuristics** (`GlobalState.java`): `global_state.dfy`, module
  `GlobalStates`.
  - A list of nearby objects sorted by distance, built by insertion.
  - The closest object and the richest asteroid.
  - Collision and velocity comparison.
  - Goal points pushed outwards and clamped to the map.
  - The nearest fuel source.
- **Evolution engine** (`Genetic.java`, `Genome.java`): `genetic.dfy`, module
  `Evolution`, and `genome.dfy`, module `Genomes`. It covers candidate
  hand-out, uniform crossover, clamped mutation, tournament selection and
  building the next generation.

`world.dfy` (module `World`) holds the shared vocabulary:

- object snapshots and ids;
- the physics collaborator `Space`, whose distance, clear-path and offset
  queries are oracles;
- the `Option`/`Result` wrappers. A `Fault` names the Java exception that a
  path ends in: a null dereference, an index out of range or a failed cast.
- `Filter`, the filter over a sequence;
- `FirstMin`, which states what every "keep the first strictly nearer one"
  scan returns.

Objects that the Java code updates in place are Dafny classes whose methods
carry `modifies` clauses: `Genome`, `Genetic`, `Planner`, `ShipState`,
`PilotState` (with its graph `Node`s and shared `NodeSet`s) and
`SpaceCommand`. Loops are methods with invariants, proved against
specification functions. Pure queries are functions.

Where the Java iterates a `HashMap` or `HashSet`, the model takes the
iteration order as a parameter or fixes it with a choice. Random draws,
price checks (`canAfford`) and the k-means gold-mine finder are parameters.
Java doubles and floats are reals, and +infinity is `Cost.Inf`.

The source disagrees with itself in two places; the model follows the code
that runs.

- `Genetic.java` calls `getGenes()` and a `Genome(float[])` constructor that
  `Genome.java` does not declare. A genome is therefore modelled as an array
  of four genes (fuel coefficient, cargo capacity, maximum speed, frontier)
  plus a fitness. The array constructor copies the array and starts the
  fitness at 0.
- `SpaceCommand.java` calls `setDiamondChaser`, `setGoldDigger` and the
  matching getters, which `ShipState.java` does not declare. The roles are
  boolean fields of `ShipState`.

## Model

| member | source | states |
|---|---|---|
| World.Filter | ShipState.java:186-196 | The result keeps exactly the elements that pass the test: it is no longer than the input, every element comes from the input and passes, and every passing element is kept. |
| World.FirstMin | ShipState.java:78-91 | What a scan that starts at +infinity and keeps a strictly nearer candidate returns: None exactly on an empty input; otherwise a member whose key is at most every element's key. |
| World.FirstMinIsFirst | ShipState.java:86-89 | Among equally near candidates the scan keeps the earliest. |
| World.FirstMinAppend | GlobalState.java:296-311 | Scanning `s` and then `t` with the bound carried over: an element of `t` wins only if it is strictly nearer than the best of `s`. |
| World.FirstMinWhereIsFilter | ShipState.java:103-119 | A scan that skips candidates failing a test returns the same as a scan over the filtered sequence. |
| World.FilterAppend | ShipState.java:190-194 | Filtering a concatenation gives the concatenation of the two filters. |
| World.ObjectById | SpaceCommand.java:149 | The lookup returns an object with that id, or None when no object has it. |
| Genomes.Genome.constructor | Genome.java:24-30 | A new random genome has four genes, one per draw in [0,1), and fitness 0. |
| Genomes.Genome.Clone | Genetic.java:121 | A genome built from a gene vector holds a fresh copy of it, with fitness 0. |
| Genomes.Genome.FuelCoefGene | Genome.java:32-34 | Returns the stored fuel-coefficient gene, which lies in [0,1]. |
| Genomes.Genome.CargoCapacityGene | Genome.java:36-38 | Returns the stored cargo-capacity gene, which lies in [0,1]. |
| Genomes.Genome.MaxSpeedGene | Genome.java:40-42 | Returns the stored maximum-speed gene, which lies in [0,1]. |
| Genomes.Genome.FrontierGene | Genome.java:44-46 | Returns the stored frontier gene, which lies in [0,1]. |
| Genomes.Genome.SetFitness | Genome.java:48-54 | `GetFitness` afterwards returns the value set; the genes are unchanged. |
| Evolution.Clamp01 | Genetic.java:101-103 | The clamped gene lies in [0,1]. It equals the input when the input is already in range, and 1 or 0 when the input is above or below. |
| Evolution.FirstMaxIndex | Genetic.java:111-119 | A scan with a strict `>` test keeps an index of maximal fitness, and every earlier index has strictly lower fitness. |
| Evolution.Fitnesses | Genetic.java:114-115 | One fitness per tournament draw, read from the drawn genome. |
| Evolution.Permuted | Genetic.java:133-134 | Position i of the result holds the element at `order[i]`. |
| Evolution.PermutedSameElements | Genetic.java:133-134 | Reordering by a permutation keeps the same multiset of elements, so every element stays and no new one appears. |
| Evolution.PermutedMultiset | Genetic.java:133-134 | A reordering by a permutation has the same multiset as its input, proved by removing the last element. |
| Evolution.PermutedGenomes | Genetic.java:133-134 | Sorting the population keeps the genomes valid, their gene arrays distinct, and unmeasured genomes unmeasured. |
| Evolution.Genetic.constructor | Genetic.java:65-71 | Starting without earlier knowledge: an empty population, no last population, cursor 0, generation 0. |
| Evolution.Genetic.GetNextCandidate | Genetic.java:169-178 | Appends a fresh genome built from the draws only when the cursor is at the end of the population. Returns the genome under the cursor and advances the cursor by one; the cursor never passes the population. |
| Evolution.Genetic.Cross | Genetic.java:82-91 | At each index the two genes are swapped exactly when the draw is below 1/2 and are otherwise kept. Valid genomes stay valid. |
| Evolution.Genetic.Mutate | Genetic.java:96-106 | A gene whose draw is below the mutation rate becomes the clamped value of gene + gauss * 0.1 and so lies in [0,1]. Every other gene is unchanged. |
| Evolution.Genetic.Tourn | Genetic.java:108-122 | Returns a new valid genome with fitness 0 whose genes copy those of the first contestant of strictly greatest fitness among the TournSize draws. |
| Evolution.Genetic.Select | Genetic.java:129-131 | One new, unmeasured tournament winner per row of draws. Each winner's genes are the winner of that row in the population as it was, and the gene arrays are distinct. |
| Evolution.Genetic.Champions | Genetic.java:129-131 | One gene vector per row of draws: the genes of that row's tournament winner in the current population. |
| Evolution.NewbornAppend | Genetic.java:129-131 | A valid, unmeasured genome whose gene array is its own can join the selection without breaking distinctness. |
| Evolution.Genetic.Breed | Genetic.java:141-156 | The next generation has the selection size rounded up to an even number of genomes and starts with the selection in order; a missing partner is a fresh copy of the first genome of the sorted population. Genomes 2p and 2p+1 carry the genes of `Kid`: selection genomes 2p and 2p+1 (or 2p and that copy) crossed with row p of the draws, each then mutated with its own row. Every member is valid and unmeasured. |
| Evolution.Genetic.BreedInOrder | Genetic.java:134-156 | Breeding from the tournament winners sorted by the given order: the result has the selection size rounded up to an even number of valid, unmeasured genomes. Each one is a winner or fresh, and genome j carries vector j of the `Brood` of the winners' genes reordered. |
| Evolution.PairsAreBrood | Genetic.java:144-156 | A generation whose pair p holds the two `Kid`s of pair p carries, genome by genome, the vectors of `Brood`. |
| Evolution.Genetic.BreedPairs | Genetic.java:141-153 | The loop consumes whole pairs until at most one genome is left, and each pair consumed holds its two children; the rest of the selection and the first parent keep their genes. |
| Evolution.Genetic.BreedStep | Genetic.java:142-153 | One turn of the loop turns the next pair into its two children and keeps the loop invariant. |
| Evolution.Genetic.BreedPair | Genetic.java:142-151 | The pair is the genome at `taken` and the next one, or a fresh copy of the first parent at the end. Their genes become the two children; every other genome is unchanged. |
| Evolution.Genetic.Offspring | Genetic.java:149-152 | Each genome's genes become `Child` of the pair: crossed with the partner's old genes under the shared draws, then mutated with its own draws. Both stay valid. |
| Evolution.CrossKeepsGenePool | Genetic.java:82-91 | At every index the two crossed genomes hold exactly the parents' two genes. |
| Evolution.CrossInvolution | Genetic.java:82-91 | Crossing the two children again with the same draws gives the first parent back. |
| Evolution.ChildInUnit | Genetic.java:96-106 | A child of two gene vectors in [0,1] has as many genes, all in [0,1]. |
| Evolution.Genetic.Evolve | Genetic.java:124-163 | The last population becomes the old population in the given sort order. The new population has the population size rounded up to an even number of fresh, unmeasured genomes. Genome j of it carries `Brood`'s vector j: the tournament winners' genes in the given sort order, bred pair by pair with the first genome of the sorted old population standing in for a missing partner. The cursor is reset to 0 and the generation advances by one. |
| Evolution.Genetic.NextGeneration | Genetic.java:124-156 | Selection and breeding leave the population alone. They return the population in the given sort order and a bred generation of the population size rounded up to an even number of fresh, unmeasured genomes. Genome j carries `Brood`'s vector j, built from the old population's tournament winners in the given sort order and its first sorted genome. |
| Evolution.Genetic.Advance | Genetic.java:158-162 | The new generation replaces the population, and the old one is kept as the last population. The cursor is reset to 0 and the generation advances by exactly one. |
| StrategyRules.ReplanNeededFallsThrough | SpaceCommand.java:100-110 | A replan is needed exactly when the precondition of the current case, or of a later case in the switch, fails. |
| StrategyRules.FreeMineChecksAll | SpaceCommand.java:101-108 | While free mining, all three preconditions are checked. |
| StrategyRules.FreeMineNeverStable | SpaceCommand.java:186-218 | With at least five pilots, free mining always needs a replan: expanding needs bases < ships, and building then needs ships <= bases. |
| StrategyRules.SomeStrategyApplies | SpaceCommand.java:186-218 | Whatever the counts, building the fleet or free mining applies. |
| StrategyRules.FreeMineIgnoresShipCount | SpaceCommand.java:186-189 | `canFreeMine` ignores its argument and counts pilots only: more pilots keep it true. |
| StrategyRules.ExpandOrBuild | SpaceCommand.java:201-218 | With at least five pilots and both goals unmet, exactly one of expanding and building applies, and expanding applies exactly when bases < ships. |
| StrategyRules.BuildFleetCases | SpaceCommand.java:215-218 | Fewer than five pilots: building applies and free mining does not. With five or more, building does not apply once the ship goal is met or bases < ships. |
| StrategyRules.ReplanNeeded | SpaceCommand.java:100-110 | A replan is needed whenever the current strategy's own precondition fails, and whenever BUILD_FLEET's fails, since every case falls through to it. |
| StrategyPlanner.ChildStrategies | Planner.java:72-87 | A strategy is a child exactly when its precondition holds. Children come in the order BUILD_FLEET, EXPAND_EMPIRE, FREE_MINE, and there is always at least one. |
| StrategyPlanner.ReachesExtend | Planner.java:109-114 | Appending nodes does not change the ancestry of existing nodes. |
| StrategyPlanner.HasEffectAppend | Planner.java:73-86 | Adding a node that carries its strategy's effect keeps every node's effect correct. |
| StrategyPlanner.ReachesAfterExpand | Planner.java:89-92 | After an expansion, every node of the search still descends from its root. |
| StrategyPlanner.Planner.constructor | Planner.java:52-58 | The goal counts are stored, and the graph starts empty with no root or goal. |
| StrategyPlanner.Planner.AddChildIf | Planner.java:72-87 | When the precondition holds, appends one child of the expanded node with the strategy's effect (BUILD_FLEET: minShips or bases+1 ships; EXPAND_EMPIRE: bases := ships; FREE_MINE: unchanged). |
| StrategyPlanner.Planner.Expand | Planner.java:69-89 | The expanded node gets exactly the children its preconditions enable, in switch order, each with the node as parent. The list is stored as its graph entry. |
| StrategyPlanner.Planner.CreateRoot | Planner.java:63 | A new parentless root is appended after all existing nodes; nothing else changes. |
| StrategyPlanner.Planner.GenerateGraph | Planner.java:62-101 | A root that already meets the goal returns at once. Otherwise nodes are expanded in FIFO order, and the search stops when a dequeued node meets the goal or the queue is empty after a poll. The goal is set only to a goal-state node that descends from the root; no earlier dequeued node met the goal. Earlier graph entries are kept. |
| StrategyPlanner.Planner.Search | Planner.java:68-100 | The loop keeps the search invariant. It records a goal only on GoalFound, and every node dequeued before the last one failed the goal test. |
| StrategyPlanner.Planner.ExpandStep | Planner.java:69-95 | One turn of the loop expands the current node. It keeps the invariant, and the children join the end of the queue. |
| StrategyPlanner.Planner.FindBestStrategy | Planner.java:104-117 | FREE_MINE when the root meets the goal. Otherwise, when the goal descends from the root, the strategy of the root's child on the goal's ancestry. A null root or goal, or an ancestry that misses the root, is a null dereference. |
| StrategyPlanner.Planner.ReachesTrans | Planner.java:111-114 | Ancestry extends through a parent link. |
| StrategyPlanner.Planner.GoalUpwardClosed | Planner.java:45-48 | A state with at least as many ships and bases as one in the goal is in the goal too. |
| ShipStates.MinablePartition | ShipState.java:186-209 | Together, the mineable and unmineable lists are exactly the asteroids. |
| ShipStates.FilterPartition | ShipState.java:190-206 | Filtering by a test and by its negation splits a sequence into two parts that together hold exactly its elements. |
| ShipStates.ScanNearest | ShipState.java:78-91 | The scan returns the first strictly nearest candidate, that is `FirstMin`. |
| ShipStates.ScanNearestWhere | ShipState.java:133-145 | A scan that also requires a test returns the first nearest candidate that passes it. |
| ShipStates.NeedsFuelThreshold | ShipState.java:53-58 | A ship never needs fuel against its own energy as the cap, and one that needs fuel still does with less energy. |
| ShipStates.AtMaxCargoThreshold | ShipState.java:61-66 | A ship is always full against its own cargo as the limit, and a full ship stays full with more cargo. |
| ShipStates.ShipState.constructor | ShipState.java:31-35 | A new pilot has no target and no role. |
| ShipStates.ShipState.SetTarget | ShipState.java:38-45 | `GetTarget` afterwards returns the target set; the roles are unchanged. |
| ShipStates.ShipState.SetDiamondChaser | SpaceCommand.java:76 | Sets the diamond-chaser role and nothing else. |
| ShipStates.ShipState.SetGoldDigger | SpaceCommand.java:79 | Sets the gold-digger role and nothing else. |
| ShipStates.ShipState.GetNearestBeacon | ShipState.java:69-92 | The ship's own target is removed from the caller's avoid set, and the new set is handed back. The result is the first nearest beacon not avoided, or None when there is none. |
| ShipStates.ShipState.GetNearestBase | ShipState.java:95-121 | The first nearest base of the vessel's team; with `refuel`, only bases with at least `refuelMin` energy qualify. None exactly when no base qualifies. |
| ShipStates.ShipState.GetNearestProspect | ShipState.java:124-148 | The own target is removed from the avoid set. The result is the first nearest mineable, non-avoided asteroid with a path clear of unmineable asteroids. |
| ShipStates.ShipState.GetNearestRefuel | ShipState.java:151-170 | The nearest beacon when there is no qualifying base or the base is strictly farther; otherwise the base. With neither, the nearest own base whatever its energy. The result is `RefuelPoint`, the pick every refuel rule refers to. |
| ShipStates.ShipState.GetDiamond | ShipState.java:173-183 | Fails with an index error exactly when no asteroid is mineable. Otherwise returns the first mineable asteroid of maximal total. |
| ShipStates.ShipState.GetMinableAsteroids | ShipState.java:186-196 | Exactly the mineable asteroids, in iteration order. |
| ShipStates.ShipState.GetUnminableAsteroids | ShipState.java:199-209 | Exactly the asteroids that are not mineable. |
| GlobalStates.Pow2 | GlobalState.java:96 | 2^n exceeds n, so `MIN_VALUE`, written out as 2^-1074, lies in (0,1). |
| GlobalStates.MinDoubleBounds | GlobalState.java:157 | `Double.MIN_VALUE` is positive and below 1. |
| GlobalStates.LastWhere | GlobalState.java:98-102 | What a scan whose bound never tightens returns: None exactly when nothing passes, otherwise the last passing element. |
| GlobalStates.FirstAbove | GlobalState.java:49 | A stable sort places a new element after every element that is not larger. |
| GlobalStates.SortBy | GlobalState.java:33-51 | The sort is ascending by the key and keeps the length. |
| GlobalStates.SortByPermutes | GlobalState.java:49 | The sort is a permutation of its input. |
| GlobalStates.SortedByTotal | GlobalState.java:33-51 | Sorting by total gives a permutation of the input, ascending by total. |
| GlobalStates.AsteroidsByHighestValue | GlobalState.java:33-51 | A permutation of the asteroids, sorted ascending by total despite its name. |
| GlobalStates.FirstNotBelow | GlobalState.java:73-75 | The insertion index is the first entry that is not strictly closer. |
| GlobalStates.InsertKeepsAscending | GlobalState.java:72-80 | Inserting before the first entry not strictly closer keeps the list ascending, and the list gains exactly the new element. |
| GlobalStates.RadiusListFixedSorted | GlobalState.java:62-86 | The corrected builder yields exactly the in-radius objects, ascending by distance. |
| GlobalStates.RadiusListAgrees | GlobalState.java:62-86 | Whenever the builder as written does not fail, its list equals the corrected one. |
| GlobalStates.RadiusListFailsIff | GlobalState.java:73-79 | The builder as written fails exactly when some in-radius object after the first is strictly farther than every earlier one. The failure is an index out of range. |
| GlobalStates.RadiusListSorted | GlobalState.java:62-86 | When the builder as written succeeds, it holds the in-radius objects in ascending order. |
| GlobalStates.RadiusListFailPropagates | GlobalState.java:65-84 | Once an insertion fails, later objects cannot repair the list. |
| GlobalStates.InsertByDistance | GlobalState.java:69-81 | One insertion as written: an index error when every entry is strictly closer, otherwise placed before the first entry that is not. |
| GlobalStates.ObjectsWithinRadius | GlobalState.java:62-86 | The objects strictly within `radius`, inserted one at a time as written. |
| GlobalStates.InsertByDistanceBounded | GlobalState.java:72-81 | One corrected insertion: the scan stops at the end of the list. |
| GlobalStates.ObjectsWithinRadiusBounded | GlobalState.java:62-86 | The corrected list holds exactly the in-radius objects, ascending by distance. |
| GlobalStates.ObjectsWithinRadiusCounterexample | GlobalState.java:73-79 | Two in-radius objects, the nearer one scanned first, make the list as written fail. The corrected list is the two objects in order. |
| GlobalStates.GetClosestOtherObject | GlobalState.java:94-104 | The bound stays at `Double.MAX_VALUE`, so the result is the last object scanned within that bound, possibly the origin itself. None only when no object passes. |
| GlobalStates.GetClosestOtherObjectFixed | GlobalState.java:94-104 | The corrected scan: the nearest object other than the origin, the first of equals. |
| GlobalStates.ClosestOtherObjectCounterexample | GlobalState.java:98-102 | With the nearer object scanned first, the scan as written returns the farther one. |
| GlobalStates.GetHighestValueAsteroidWithinRadius | GlobalState.java:156-167 | The bound is never raised, so the result is the last mineable in-radius asteroid worth more than `Double.MIN_VALUE`, not the richest one. |
| GlobalStates.GetHighestValueAsteroidWithinRadiusFixed | GlobalState.java:156-167 | The corrected scan: the first candidate of maximal total, None exactly when there is no candidate. |
| GlobalStates.HighestValueCounterexample | GlobalState.java:160-165 | A rich asteroid followed by a poorer one: the scan as written returns the poorer one. |
| GlobalStates.CollidingSymmetric | GlobalState.java:115-121 | Objects collide when their distance is at most the sum of their radii; with a symmetric distance the order of the pair does not matter. |
| GlobalStates.CompareVelocity | GlobalState.java:186-194 | Returns 1, -1 or 0 exactly when the first speed is greater than, less than or equal to the second. |
| GlobalStates.CompareVelocityIsComparator | GlobalState.java:186-194 | The comparison is antisymmetric, transitive and reflexive. |
| GlobalStates.ClampCoord | GlobalState.java:214-224 | The coordinate lies in [0, limit]. It is unchanged when already inside, and set to the limit or to 0 when above or below. |
| GlobalStates.ClampIdempotent | GlobalState.java:214-224 | Clamping twice is clamping once. |
| GlobalStates.ClampedShift | GlobalState.java:212-226 | The shifted point lies on the map, and each coordinate is exact when the unclamped value is on the map. |
| GlobalStates.ScaleDistanceVector | GlobalState.java:207-234 | A copy of the goal that differs only in position. The position lies on the map and equals the goal plus `scalar` times the offset wherever that lies on the map. |
| GlobalStates.RotateTrajectoryVector | GlobalState.java:247-275 | The same, with the offset first rotated. |
| GlobalStates.RotateByIdentityIsScale | GlobalState.java:247-275 | A rotation that leaves the offset unchanged gives exactly `scaleDistanceVector`. |
| GlobalStates.ClosestBeaconOrBaseToObject | GlobalState.java:286-314 | The first nearest of the beacons followed by the qualifying own bases. A base wins only when strictly nearer than every beacon. None exactly when there is neither. |
| GlobalStates.ScanBeacons | GlobalState.java:295-302 | The first nearest beacon, with its distance as the bound (+infinity if there is none). |
| GlobalStates.ScanFuelBases | GlobalState.java:304-311 | The base scan, started from the nearest beacon and its bound, replaces the beacon only by a strictly nearer qualifying base. |
| GlobalStates.NearestFuelIsFirstMin | GlobalState.java:286-314 | The two scans together find the first nearest element of beacons followed by bases, and a base found beats every beacon. |
| GlobalStates.BaseNearDeathThreshold | GlobalState.java:324-329 | A home base is near death exactly when its energy is at most 100. Draining a dying base keeps it dying. The pilot's copy of `isBaseNearDeath` (PilotState.java:559-564) has the same rule. |
| Pilot.Node.constructor | PilotState.java:43-48 | A plain node is not a bypass node, and both its costs are +infinity. |
| Pilot.Improve | PilotState.java:201-208 | A relaxation keeps the smaller of the old and new cost, the new one only when it is strictly smaller. |
| Pilot.FrontierStep | PilotState.java:188-209 | Closing the current node and opening its unclosed neighbours keeps the open and closed sets disjoint within the graph. |
| Pilot.PredecessorStep | PilotState.java:196-208 | Every predecessor entry points to a node that is already closed and strictly older, and each entry follows a graph edge. |
| Pilot.LinkedStep | PilotState.java:196-210 | Every reached node other than the start keeps a predecessor. |
| Pilot.Outcome | PilotState.java:224-229 | The predecessor chain from any entry descends strictly in closing order, never leaves the start, and follows graph edges, so walking it terminates. |
| Pilot.KeyedStep | PilotState.java:192 | Every open or closed node has a graph entry, so the neighbour lookup never fails. |
| Pilot.ShapeStep | PilotState.java:175-211 | One round of the search keeps the shape of the open and closed sets and the predecessor map. |
| Pilot.ReachStep | PilotState.java:196-211 | With costs that start at +infinity, every reached node has a finite cost and a predecessor. |
| Pilot.ExpandBookStep | PilotState.java:196-211 | Bookkeeping for one neighbour: it is opened unless closed, and it gets a predecessor when improved. |
| Pilot.RefuelChoice | PilotState.java:330-341 | Fails with a null dereference exactly when there is no qualifying base or no beacon. Otherwise returns the nearest refuelling point, preferring the base on ties. |
| Pilot.RefuelCandidates | PilotState.java:333-334 | The base and the beacon compared are each nearest of their kind. |
| Pilot.Goal | PilotState.java:382-397 | Low fuel: a refuelling point, or the refuel failure. Full cargo: the nearest own base, or None when there is none. Otherwise the nearest mineable asteroid, or None when there is none. |
| Pilot.Decision | PilotState.java:344-380 | `decideAction` always answers a move toward the goal. It fails with a null dereference exactly when the goal or the vessel is missing, so its do-nothing branch is dead. |
| Pilot.AsteroidsByResources | PilotState.java:509-527 | A permutation of the mineable asteroids of space, ascending by total. |
| Pilot.PopsExactlyUnreached | PilotState.java:270 | The pop test as written holds exactly when the waypoint is not reached. |
| Pilot.AssessPlanCounterexample | PilotState.java:270-272 | A ship 500 away from a waypoint with radius 10 pops it. |
| Pilot.PilotState.constructor | PilotState.java:63-65 | Empty tables and stack, `exe` equal to EXE_TIME, and the field of view set from the map. |
| Pilot.PilotState.SetFOV | PilotState.java:68-71 | The field of view is half the smaller map dimension; nothing else changes. |
| Pilot.PilotState.ObjectsInFov | PilotState.java:537-549 | Exactly the objects strictly within the field of view. |
| Pilot.PilotState.NewNodes | PilotState.java:89-91 | One fresh plain node per object, with both costs +infinity, filed under its id. |
| Pilot.PilotState.FillChildren | PilotState.java:94-112 | The children set is cleared and then holds exactly the nodes of the other objects reachable along a clear path. The obstacles are every object except the two ends. |
| Pilot.PilotState.LinkAll | PilotState.java:93-116 | Every object's entry is the same set object, which ends up holding only the neighbours of the last object processed. |
| Pilot.PilotState.GenGraph | PilotState.java:77-118 | The tables are rebuilt with one fresh node per object in view plus the goal. All graph entries alias one set holding the last object's neighbours. Everything else is unchanged. |
| Pilot.PilotState.FindH | PilotState.java:248-257 | +infinity exactly for non-mineable asteroids and for bases whose team does not include the vessel; otherwise the distance to the goal. |
| Pilot.PilotState.FindG | PilotState.java:259-261 | The distance plus the start's `g`, and +infinity when that `g` is. |
| Pilot.PilotState.LowestF | PilotState.java:237-246 | What the scan returns: null exactly on an empty set, otherwise a member. |
| Pilot.PilotState.ReplacesIffBelow | PilotState.java:241 | With a finite `best.h`, comparing node.g + best.h against best.g + best.h is comparing the `g`s. |
| Pilot.PilotState.LowestFSticksAtInfiniteH | PilotState.java:241 | A best node whose `h` is +infinity is never replaced. |
| Pilot.PilotState.LowestFMinimisesG | PilotState.java:240-244 | When the winner's `h` is finite, it has the least `g` of all nodes. |
| Pilot.PilotState.FindLowestFNode | PilotState.java:237-246 | Null exactly on an empty set. The result is a member, and it minimises `g` when its `h` is finite. |
| Pilot.PilotState.Relax | PilotState.java:198-208 | `h` and `g` each only decrease, and the predecessor is set exactly when one of them improved. |
| Pilot.PilotState.Visit | PilotState.java:196-210 | A closed neighbour is untouched. Any other neighbour is relaxed and opened, and gets the current node as predecessor when improved. |
| Pilot.PilotState.ExpandNeighbours | PilotState.java:192-211 | The open set gains exactly the unclosed neighbours, each relaxed. Closed nodes and the current node keep their costs. |
| Pilot.PilotState.SetPath | PilotState.java:217-235 | On success the stack holds the predecessor chain from goal to start, goal at the bottom, first hop on top, start excluded, and `exe` is 0. A broken chain is a null dereference. |
| Pilot.PilotState.ChainIsRoute | PilotState.java:224-229 | A predecessor chain along graph edges is a route of the graph. |
| Pilot.PilotState.Round | PilotState.java:175-211 | One iteration: the current node is closed and its neighbours expanded. Costs only decrease, and closed nodes are never updated. |
| Pilot.PilotState.Search | PilotState.java:164-215 | The start gets g = 0 and h = `findH`. The predecessor chain descends in closing order along edges. From a fresh graph, reaching the goal leaves every reached node linked to the start. |
| Pilot.PilotState.PlanPath | PilotState.java:164-215 | A null start fails. When the open set runs dry the stack and `exe` are unchanged. Reaching the goal stores a route of the graph from start to goal and sets `exe` to 0. |
| Pilot.PilotState.Trace | PilotState.java:182 | Setting the path from a well-founded predecessor map succeeds and stores a route. |
| Pilot.PilotState.AdjacencyKeyed | PilotState.java:89-116 | Every child in the graph has an entry of its own. |
| Pilot.PilotState.AssessPlan | PilotState.java:268-276 | As written: the top waypoint is popped when the ship's radius is at most its distance to it. An empty stack afterwards sets `exe` to EXE_TIME. |
| Pilot.PilotState.AssessPlanFixed | PilotState.java:268-276 | Corrected: the top waypoint is popped only once reached. |
| Pilot.PilotState.FindNearestBeacon | PilotState.java:279-296 | The first nearest beacon, None exactly when there is no beacon. |
| Pilot.PilotState.FindNearestBase | PilotState.java:299-327 | The first nearest base of the ship's team (with `refuel`, holding at least MIN_BASE_FUEL energy), None exactly when none qualifies. |
| Pilot.NearestBaseFacts | PilotState.java:299-327 | The nearest-base scan returns an own base that qualifies and is at least as near as every qualifying one, and None exactly when none qualifies. |
| Pilot.PilotState.GetMinableAsteroids | PilotState.java:489-500 | Exactly the mineable asteroids. |
| Pilot.PilotState.FindNearestProspect | PilotState.java:451-468 | The first nearest mineable asteroid, None exactly when none is mineable. |
| Pilot.PilotState.FindNearestRefuel | PilotState.java:330-341 | Computes `RefuelChoice`, including the null dereference when the base or the beacon is missing. |
| Pilot.PilotState.DecideAction | PilotState.java:344-380 | Computes `Decision`, and every answer is a move. |
| Pilot.PilotState.Shop | PilotState.java:430-449 | A ship whenever one is affordable. Otherwise a base exactly when a base is affordable and no own base lies within FRONTIER. Otherwise nothing. |
| Pilot.PilotState.ChooseGoal | PilotState.java:386-397 | Computes `Goal`, the goal priority of `prePlan`. |
| Pilot.PilotState.PrePlan | PilotState.java:382-401 | As written: the start node is read before the tables are rebuilt. A pilot with no node on record fails, and a successful plan starts from a node that the new tables no longer hold. A null goal fails after the tables were cleared. |
| Pilot.PilotState.PlanFrom | PilotState.java:399-400 | Rebuilds the graph toward the target and plans from the given start node. A start from the old tables is never in the new ones. |
| Pilot.PilotState.PrePlanFixed | PilotState.java:382-401 | Corrected: the start is looked up after the rebuild. Whenever the goal exists and the ship is in view, the search ends without a fault, and a plan found is a route from the ship's node to the goal's node. |
| Pilot.PilotState.PlanFromOwnNode | PilotState.java:399-400 | Planning from the rebuilt table's node for the ship ends without a fault exactly when the ship is in the graph. |
| Pilot.PilotState.ExecutePlan | PilotState.java:403-427 | With `exe` below EXE_TIME and a non-empty stack there is no replan: the tables and stack are kept and `exe` grows by one. The stack changes only on a replan, which goes through `prePlan` as written, so a pilot with no node on record that needs a replan fails with a null dereference. A non-empty stack yields a move to its top; an empty one falls back to `decideAction`. |
| Pilot.PilotState.Refresh | PilotState.java:406-410 | Records the vessel. With `exe` below EXE_TIME and a non-empty stack, it keeps the tables, stack and `exe`; the stack changes only when `exe` has reached EXE_TIME or the stack was empty. That replan is `prePlan` as written: a pilot with no node on record fails with a null dereference. |
| Pilot.PilotState.RefreshFixed | PilotState.java:406-410 | The same refresh with the corrected replan: it never fails when the goal exists and the ship is in view. |
| Command.ShipById | SpaceCommand.java:149 | The lookup with its cast to Ship: a non-ship with that id is a cast failure, and a missing id is None. |
| Command.MinableMember | SpaceCommand.java:323 | An asteroid is in the mineable list exactly when it is a mineable object in space. |
| Command.OpenProspectMember | SpaceCommand.java:323 | The prospects a ship may pick are the mineable, unobstructed asteroids not targeted by other ships. |
| Command.NearestOpenProspect | SpaceCommand.java:323 | The prospect `getNearestProspect` picks is an open prospect no farther than any other, and there is none exactly when no prospect is open. |
| Command.RefuelCandidate | SpaceCommand.java:291 | The point `getNearestRefuel` picks for the ship is a beacon or an own base, and there is none only when there are neither. |
| Command.Sight | SpaceCommand.java:148-166 | What one pilot's visit of the purchase loop sees is self-consistent. |
| Command.Sightings | SpaceCommand.java:148 | One sighting per pilot, in the iteration order of the pilot table. |
| Command.ScanShape | SpaceCommand.java:148-167 | The purchase loop buys at most one base. A cast failure comes from a pilot lookup, and a null dereference from a pilot with no own base. |
| Command.ScanChoice | SpaceCommand.java:148-167 | A gold purchase replaces anything bought so far and ends the loop. Otherwise the first frontier-ready pilot buys, and some pilot buys whenever one is ready. |
| Command.PurchaseShape | SpaceCommand.java:147-168 | The failure cases and the at-most-one-base shape, stated per pilot. |
| Command.PurchaseGold | SpaceCommand.java:152-159 | A gold purchase is made exactly for a gold digger within 100 of the gold mine. |
| Command.PurchaseFrontier | SpaceCommand.java:162-165 | A regular purchase is made for a pilot at least FRONTIER from its nearest own base. |
| Command.FrontierBuys | SpaceCommand.java:162-165 | Whenever some pilot is at the frontier and no gold purchase happens, a base is bought. |
| Command.SightAt | SpaceCommand.java:148 | The j-th sighting is that of a pilot of the table. |
| Command.VisitIndex | SpaceCommand.java:148 | Every pilot is visited by the loop. |
| Command.SpaceCommand.constructor | SpaceCommand.java:58-63 | No bases or pilots, the strategy BUILD_FLEET, no gold mine, and an empty planner with the team's goals. |
| Command.SpaceCommand.AddShip | SpaceCommand.java:71-81 | The pilot is filed under the ship's id. The first pilot on record becomes the diamond chaser and the second the gold digger; nothing else changes. |
| Command.SpaceCommand.AddBase | SpaceCommand.java:89-91 | The base is appended; nothing else changes. |
| Command.SpaceCommand.ReplanNeeded | SpaceCommand.java:100-110 | True exactly when the precondition of the current strategy's case, or of a later case, fails for the current counts. |
| Command.SpaceCommand.DecideStrategy | SpaceCommand.java:94-97 | A new search from the current strategy and counts. The strategy becomes FREE_MINE when the root meets the goal, and otherwise the root's child on the goal's ancestry. A planner null dereference leaves the strategy unchanged. |
| Command.SpaceCommand.GetTargets | SpaceCommand.java:398-406 | Exactly the non-null targets of the pilots of other ships. |
| Command.SpaceCommand.IsTargeted | SpaceCommand.java:393-395 | Membership in `GetTargets`; a null object is never targeted. |
| Command.SpaceCommand.GoToProspect | SpaceCommand.java:319-333 | Only when fuel and cargo allow: retargets to the nearest open prospect and moves to it. A failed lookup is a cast failure or a null dereference. |
| Command.SpaceCommand.GoToDiamond | SpaceCommand.java:336-350 | Only when fuel and cargo allow: retargets to the richest mineable asteroid. With nothing mineable it is an index error, even before the null vessel. |
| Command.SpaceCommand.GoToBase | SpaceCommand.java:303-316 | Only at full cargo: retargets to the nearest own base and moves to it. |
| Command.SpaceCommand.GoToRefuel | SpaceCommand.java:287-300 | A cast failure or a null dereference when the lookup fails. Otherwise the ship moves exactly when it needs fuel, `getNearestRefuel` picks a point, and no other ship targets that point. The move heads for that point, which becomes the target; with no move the target is kept. |
| Command.SpaceCommand.RefuelVessel | SpaceCommand.java:291-299 | For a ship that exists: it moves exactly when it needs fuel, `getNearestRefuel` picks a point, and no other ship targets that point. The move heads for that point, which becomes the target. |
| Command.SpaceCommand.GoToGoldmine | SpaceCommand.java:353-371 | A known gold mine is approached directly. Otherwise a found one is adopted and targeted only by a gold digger that does not need fuel; in every other case the gold mine is reset to none. |
| Command.SpaceCommand.ShipAction | SpaceCommand.java:236-257 | The action comes from the first step of the chain that offers one: goldmine (gold digger under EXPAND_EMPIRE), then diamond (chaser) or prospect (others), then base, then refuel, then DoNothing. The ghost `stage` names that step, as `Priority` of the offers, and each stage fixes its action: the gold mine, the richest mineable asteroid, the nearest open prospect, the nearest own base, or the refuel point. Retargeting always comes with a move to the target. Only a gold digger under EXPAND_EMPIRE changes the gold mine. |
| Command.SpaceCommand.GoldStep | SpaceCommand.java:237-239 | The goldmine step offers an action exactly when the pilot is the gold digger under EXPAND_EMPIRE and a gold mine is known, or one is found and the ship does not need fuel. With no offer the targets are unchanged. |
| Command.SpaceCommand.RestSteps | SpaceCommand.java:241-253 | The steps after the goldmine: the stage is the first of mine, base and refuel that offers, and its action is that step's move. |
| Command.SpaceCommand.MineStep | SpaceCommand.java:241-245 | The chaser goes for the richest mineable asteroid and the others for the nearest open prospect. Either offers a move exactly when fuel and cargo allow (and, for a prospector, an open prospect exists). |
| Command.SpaceCommand.SupplyStep | SpaceCommand.java:247-253 | The base step when the cargo is full and an own base exists, otherwise the refuel step when its rule holds, otherwise no action. |
| Command.PriorityIsFirstOffer | SpaceCommand.java:236-256 | Each stage is chosen exactly when every earlier step offers nothing and that step offers something. |
| Command.SpaceCommand.ShipActions | SpaceCommand.java:234-259 | One action per pilot's ship. |
| Command.SpaceCommand.IdleBases | SpaceCommand.java:262-265 | Every base gets DoNothing, and the ships' actions under other ids are kept. |
| Command.SpaceCommand.GetBasicActions | SpaceCommand.java:230-268 | Every pilot's ship and every base gets exactly one action, and bases always do nothing. |
| Command.SpaceCommand.OnFrontier | SpaceCommand.java:162 | A null dereference exactly when the ship has no own base; otherwise the frontier test. |
| Command.SpaceCommand.VisitPilot | SpaceCommand.java:149-165 | One visit of the purchase loop computes its sighting's step. |
| Command.SpaceCommand.ScanForBase | SpaceCommand.java:148-167 | The loop computes the scan of the pilots' sightings. |
| Command.SpaceCommand.BaseOnFrontier | SpaceCommand.java:147-168 | At most one base is bought. A gold digger near the gold mine wins and clears the gold mine. Otherwise a frontier pilot buys whenever there is one. |
| Command.SpaceCommand.GetTeamPurchases | SpaceCommand.java:139-183 | FREE_MINE buys nothing. BUILD_FLEET buys one ship at the first base and fails with an index error exactly when it can afford a ship but has no base. EXPAND_EMPIRE buys at most one base, and only when a base is affordable. Then a gold digger ready at the goldmine always buys it and clears the goldmine. Otherwise a ship far enough from its team's bases buys one, and one does whenever such a ship exists. |
| Command.SpaceCommand.GetTeamCommands | SpaceCommand.java:113-136 | No replan unless one is needed. A replan roots a fresh plan node at the old strategy and counts. On success the new strategy is FREE_MINE when that node already meets the goal, and otherwise a child of the root on the path to the goal. Whatever the strategy, every ship and base gets an action and bases do nothing. |

## Left out

- Steering: both `optimalApproach` methods (PilotState.java:470-487, SpaceCommand.java:376-390) compute a velocity vector with angles. A move is modelled by its target only, and `SPEED`/`MAX_SPEED` do not appear.
- `goToBeacon` (SpaceCommand.java:271-284) has no caller and is not modelled.
- Graphics: `getGraphics`, `setGraphics`, the path line markers and `getPathGraphics` produce display objects only.
- `findGoldmine` (SpaceCommand.java:428-539) is k-means clustering on floating-point vectors. Its answer is the parameter `found`.
- `generateBypassNode` (PilotState.java:121-161) is rotation geometry whose only call site is commented out.
- `findF` (PilotState.java:263-265) has no caller.
- The `Genetic` constructor's file deserialization and the singleton: the model's constructor is the "no earlier knowledge" branch.
- `normal`, `getPop` and `generation` are plain getters; the Gaussian draws arrive already sampled.
- Random draws (`nextFloat`, `nextInt`, `nextGaussian`, `Math.random`) are parameters. Their ranges are preconditions where the source relies on them.
- `canAfford` is not modelled; it is passed in as booleans.
- `Collections.sort` with the fitness comparator in `evolve` is not modelled; the resulting order is a given permutation.
- `isCollidingWithBase` and `isCollidingWithUnmineableAsteroid` (GlobalState.java:128-147) combine `getClosestOtherObject` and `areObjectsColliding`, both modelled. They are not modelled separately.
- HashMap/HashSet iteration order is a given sequence or a choice. Sets the simulator hands over are scanned in the order of `Space.objects`.
- Object identity: targets and sets of avoided objects compare objects by id, and the gold-mine marker compares by position (the source wraps it in a new `Beacon`).
- `equalsIgnoreCase` on team names is modelled as plain equality.
- Doubles and floats are exact reals. `Double.MAX_VALUE` and `Double.MIN_VALUE` are written out exactly. `0.3f` and `0.1f` are taken as exact decimals, so rounding is not modelled.
- Integer counts are unbounded: no 32-bit overflow.
- The physics queries (`findShortestDistance`, `isPathClearOfObstructions`, `findShortestDistanceVector`, `getObjectById`) and the vector rotation are oracles.
- The ships of a base's team, the home-base flag and resource totals are read from the object snapshot.
- CatAdamAgent.java, ExampleAStarClient.java, BaseState.java and astar/SearchNode.java are not part of this model.
- StrategyPlanner.Planner.GenerateGraph: the search can run forever in the source, so the model bounds it by `fuel` expansions and reports OutOfFuel. Its promises hold for whatever the fuel allows.
- StrategyPlanner.Planner.GenerateGraph: when the root has no children, the source's `poll()` returns null and the next goal test dereferences it. The model never reaches that case, because at least one strategy always applies (`StrategyRules.SomeStrategyApplies`). When the queue empties after a poll, the model returns QueueEmptied and leaves the goal of an earlier search in place, as the source does.
- Evolution.Genetic.Evolve: with ELITE_CLONES at 0 the elite-copy loop does nothing and is not modelled.
- Command.SpaceCommand.GetBasicActions: states the key set and the bases' DoNothing. Each ship's own action is stated once, by `ShipAction`, and not repeated per key.
- Command.SpaceCommand.ShipActions: states one action per pilot's ship. Each ship's action depends on targets set by the ships before it, and it is stated once, by `ShipAction`, and not repeated per key.
- Command.SpaceCommand.GetTeamCommands: states the key set, the bases' DoNothing and the replanned strategy. Each ship's action depends on targets set by the ships before it, and it is stated once, by `ShipAction`, and not repeated per key.
- Pilot.PilotState.FindLowestFNode: the iteration order of the open set is a ghost output. The result is stated against that order.
- Pilot.PilotState.PlanPath: success is promised only when every node's cost starts at +infinity, which is what `GenGraph` leaves.
- Pilot.Decision: the null check on the refuel goal in `decideAction` (PilotState.java:358-362) can never be true, because `findNearestRefuel` either returns an object or fails.

## Findings

| source | as written | input that shows it | evidently intended | confidence | as-written member | corrected member |
|---|---|---|---|---|---|---|
| GlobalState.java:73-79 | The insertion scan `while (dist(objects.get(i)) < dist) i++` has no bound. An object farther than every listed one reads `get(size)`, so the `addLast` branch can never run. | Two in-radius objects at distances 1 and 2, the nearer one scanned first: the second insertion reads index 1 of a one-element list. | Append an object that is farther than every entry, keeping the list ascending. | high (not executed) | GlobalStates.ObjectsWithinRadiusCounterexample | GlobalStates.ObjectsWithinRadiusBounded |
| GlobalState.java:98-101 | `minDistance` is never updated, so every object passes, the given object included. | Two objects, the nearer one scanned first: the farther one is returned. | The nearest other object. | high (not executed) | GlobalStates.ClosestOtherObjectCounterexample | GlobalStates.GetClosestOtherObjectFixed |
| GlobalState.java:160-164 | `highestValue` is never raised, so the last candidate wins. | A mineable asteroid of total 10, then one of total 1, both within radius: the one of total 1 is returned. | The richest mineable asteroid within the radius. | high (not executed) | GlobalStates.HighestValueCounterexample | GlobalStates.GetHighestValueAsteroidWithinRadiusFixed |
| PilotState.java:270-271 | A waypoint is popped as "achieved" when the ship's radius is at most its distance to it, that is, while the ship is still away from it. | A ship of radius 10 at distance 500 from the top waypoint pops it. | Pop only once the ship is within its radius of the waypoint. | medium (not executed) | Pilot.AssessPlanCounterexample | Pilot.PilotState.AssessPlanFixed |
| PilotState.java:382-401 | The start node is read from the node table before `genGraph` clears and rebuilds it. | The first replan of a new pilot: the table is empty, so `start` is null and the search dereferences it. On later replans the search starts from a node that the rebuilt graph no longer holds. | Look up the ship's node after the graph is rebuilt. | high (not executed) | Pilot.PilotState.PrePlan | Pilot.PilotState.PrePlanFixed |
