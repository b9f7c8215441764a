/**
 * The world as the decision core sees it: snapshots of simulation objects and
 * the physics queries it consumes (toroidal distance, clear-path test,
 * shortest displacement vector), plus the small value types shared by every
 * other module.  The physics queries are oracles carried in `Space`.
 */
module World {

  type ObjId = nat

  datatype Option<T> = None | Some(value: T)

  /** Exceptions the Java code can throw on the paths modelled here. */
  datatype Fault = NullPointer | IndexOutOfBounds | ClassCast

  datatype Result<T> = Ok(value: T) | Fail(fault: Fault)

  datatype Position = Position(x: real, y: real)

  datatype Vec = Vec(dx: real, dy: real)

  /** The simulator's object classes that the core distinguishes. */
  datatype Kind =
    | ShipKind
    | AsteroidKind(mineable: bool)
    | BaseKind(teamShips: set<ObjId>, homeBase: bool)
    | BeaconKind
    | OtherKind

  /**
   * A read-only snapshot of one simulation object.  `total` is the resource
   * total it carries, `speed` its total translational velocity.
   */
  datatype WorldObject = WorldObject(
    id: ObjId, kind: Kind, pos: Position, radius: real,
    team: string, energy: real, total: real, speed: real)
  {
    predicate IsShip() { kind.ShipKind? }
    predicate IsAsteroid() { kind.AsteroidKind? }
    predicate IsMineable() { kind.AsteroidKind? && kind.mineable }
    predicate IsBase() { kind.BaseKind? }
    predicate IsBeacon() { kind.BeaconKind? }
  }

  /**
   * The physics collaborator: every object in iteration order, the map size,
   * and the queries the core calls but does not implement.
   */
  datatype Space = Space(
    objects: seq<WorldObject>,
    width: real,
    height: real,
    dist: (Position, Position) -> real,
    clear: (Position, Position, set<WorldObject>, real) -> bool,
    offset: (Position, Position) -> Vec)

  /** Actions handed back to the simulator; the steering vector is not modelled. */
  datatype Action = MoveTo(goal: Position) | DoNothing

  datatype Purchase = ShipPurchase | BasePurchase

  /** A double that may be positive infinity. */
  datatype Cost = Fin(v: real) | Inf {
    function Plus(o: Cost): Cost {
      if Fin? && o.Fin? then Fin(v + o.v) else Inf
    }
    predicate Below(o: Cost) {
      (Fin? && o.Inf?) || (Fin? && o.Fin? && v < o.v)
    }
    predicate AtMost(o: Cost) {
      o.Inf? || (Fin? && v <= o.v)
    }
  }

  /** The elements of `s` satisfying `p`, in order. */
  function Filter<T>(s: seq<T>, p: T -> bool): (r: seq<T>)
    ensures |r| <= |s|
    ensures forall i :: 0 <= i < |r| ==> r[i] in s && p(r[i])
    ensures forall i :: 0 <= i < |s| && p(s[i]) ==> s[i] in r
  {
    if s == [] then [] else
      Filter(s[..|s| - 1], p) + (if p(s[|s| - 1]) then [s[|s| - 1]] else [])
  }

  lemma FilterStep<T>(s: seq<T>, i: nat, p: T -> bool)
    requires i < |s|
    ensures Filter(s[..i + 1], p) == Filter(s[..i], p) + (if p(s[i]) then [s[i]] else [])
  {
    assert s[..i + 1][..i] == s[..i];
  }

  /** `Filter` splits into the filters of the two halves of a concatenation. */
  lemma {:induction false} FilterAppend<T>(s: seq<T>, t: seq<T>, p: T -> bool)
    ensures Filter(s + t, p) == Filter(s, p) + Filter(t, p)
    decreases |t|
  {
    if t == [] {
      assert s + t == s;
    } else {
      var u := t[..|t| - 1];
      assert (s + t)[..|s + t| - 1] == s + u;
      FilterAppend(s, u, p);
    }
  }

  /**
   * What a left-to-right scan with a strict `key(x) < best` test (best starting
   * at +infinity) ends with: the first element of minimal key, None if empty.
   */
  function FirstMin<T>(s: seq<T>, key: T -> real): (r: Option<T>)
    ensures r.None? <==> s == []
    ensures r.Some? ==> r.value in s
    ensures r.Some? ==> forall i :: 0 <= i < |s| ==> key(r.value) <= key(s[i])
  {
    if s == [] then None else
      var r := FirstMin(s[..|s| - 1], key);
      if r.None? || key(s[|s| - 1]) < key(r.value) then Some(s[|s| - 1]) else r
  }

  lemma FirstMinStep<T>(s: seq<T>, i: nat, key: T -> real)
    requires i < |s|
    ensures FirstMin(s[..i + 1], key) ==
      (var r := FirstMin(s[..i], key);
       if r.None? || key(s[i]) < key(r.value) then Some(s[i]) else r)
  {
    assert s[..i + 1][..i] == s[..i];
  }

  /** The scan keeps the earliest of several equally near elements. */
  lemma {:induction false} FirstMinIsFirst<T>(s: seq<T>, key: T -> real, j: nat)
    requires j < |s| && FirstMin(s, key).Some?
    requires key(s[j]) == key(FirstMin(s, key).value)
    ensures exists i :: 0 <= i <= j && s[i] == FirstMin(s, key).value
    decreases |s|
  {
    var r := FirstMin(s[..|s| - 1], key);
    if j == |s| - 1 {
      if r.None? || key(s[j]) < key(r.value) {
        assert s[j] == FirstMin(s, key).value;
      } else {
        var k :| 0 <= k < |s| - 1 && s[..|s| - 1][k] == r.value;
        assert s[k] == FirstMin(s, key).value;
      }
    } else {
      assert s[..|s| - 1][j] == s[j];
      assert r.Some? && !(key(s[|s| - 1]) < key(r.value));
      FirstMinIsFirst(s[..|s| - 1], key, j);
      var i :| 0 <= i <= j && s[..|s| - 1][i] == r.value;
      assert s[i] == FirstMin(s, key).value;
    }
  }

  /** Scanning `s` then `t`, an element of `t` wins only if strictly nearer than the best of `s`. */
  lemma {:induction false} FirstMinAppend<T>(s: seq<T>, t: seq<T>, key: T -> real)
    ensures FirstMin(s + t, key) ==
      (var a := FirstMin(s, key);
       var b := FirstMin(t, key);
       if a.None? then b
       else if b.Some? && key(b.value) < key(a.value) then b
       else a)
    decreases |t|
  {
    if t == [] {
      assert s + t == s;
    } else {
      var u := t[..|t| - 1];
      assert (s + t)[..|s + t| - 1] == s + u;
      FirstMinAppend(s, u, key);
    }
  }

  /**
   * A scan that skips elements failing `p` and otherwise keeps the first
   * strictly smaller key: the same answer as `FirstMin` over `Filter(s, p)`.
   */
  function FirstMinWhere<T>(s: seq<T>, p: T -> bool, key: T -> real): (r: Option<T>)
  {
    if s == [] then None else
      var r := FirstMinWhere(s[..|s| - 1], p, key);
      if p(s[|s| - 1]) && (r.None? || key(s[|s| - 1]) < key(r.value)) then Some(s[|s| - 1]) else r
  }

  lemma FirstMinWhereStep<T>(s: seq<T>, i: nat, p: T -> bool, key: T -> real)
    requires i < |s|
    ensures FirstMinWhere(s[..i + 1], p, key) ==
      (var r := FirstMinWhere(s[..i], p, key);
       if p(s[i]) && (r.None? || key(s[i]) < key(r.value)) then Some(s[i]) else r)
  {
    assert s[..i + 1][..i] == s[..i];
  }

  /** Skipping inside the scan is the same as filtering first. */
  lemma {:induction false} FirstMinWhereIsFilter<T>(s: seq<T>, p: T -> bool, key: T -> real)
    ensures FirstMinWhere(s, p, key) == FirstMin(Filter(s, p), key)
    decreases |s|
  {
    if s != [] {
      var u := s[..|s| - 1];
      FirstMinWhereIsFilter(u, p, key);
      var f := Filter(u, p);
      if p(s[|s| - 1]) {
        assert Filter(s, p) == f + [s[|s| - 1]];
        assert (f + [s[|s| - 1]])[..|f|] == f;
      } else {
        assert Filter(s, p) == f;
      }
    }
  }

  predicate UniqueIds(s: seq<WorldObject>) {
    forall i, j :: 0 <= i < j < |s| ==> s[i].id != s[j].id
  }

  function Ids(s: seq<WorldObject>): set<ObjId> {
    set o | o in s :: o.id
  }

  /** The space's getAsteroids, getBases and getBeacons, in iteration order. */
  function Asteroids(space: Space): seq<WorldObject> {
    Filter(space.objects, (o: WorldObject) => o.IsAsteroid())
  }

  function Bases(space: Space): seq<WorldObject> {
    Filter(space.objects, (o: WorldObject) => o.IsBase())
  }

  function Beacons(space: Space): seq<WorldObject> {
    Filter(space.objects, (o: WorldObject) => o.IsBeacon())
  }

  /** The space's getObjectById: the object with that id, if any. */
  function ObjectById(s: seq<WorldObject>, id: ObjId): (r: Option<WorldObject>)
    ensures r.Some? ==> r.value in s && r.value.id == id
    ensures r.None? ==> forall o :: o in s ==> o.id != id
  {
    if s == [] then None
    else if s[0].id == id then Some(s[0])
    else ObjectById(s[1..], id)
  }
}
