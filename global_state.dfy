/**
 * Heuristics over the whole field that any agent component may consult:
 * objects near a point ordered by distance, the nearest and the richest
 * object, collision and velocity comparisons, goal points pushed farther
 * away (clamped to the map), and the nearest fuel source.  None of them keeps
 * state of its own; the scans that loop in the original are methods proved
 * against a function that specifies them.
 */
module GlobalStates {
  import opened World

  /** 2^n as an exact real. */
  function Pow2(n: nat): (r: real)
    ensures r >= (n as real) + 1.0
  {
    if n == 0 then 1.0 else 2.0 * Pow2(n - 1)
  }

  /** The largest finite double, (2 - 2^-52) * 2^1023, written out exactly. */
  const MaxDouble: real :=
    179769313486231570814527423731704356798070567525844996598917476803157260780028538760589558632766878171540458953514382464234321326889464182768467546703537516986049910576551282076245490090389328944075868508455133942304583236903222948165808559332123348274797826204144723168738177180919299881250404026184124858368.0

  /** The smallest positive double, 2^-1074. */
  const MinDouble: real := 1.0 / Pow2(1074)

  lemma MinDoubleBounds()
    ensures 0.0 < MinDouble < 1.0
  {
    var p := Pow2(1074);
    assert p >= 1075.0;
    assert MinDouble * p == 1.0;
  }

  /** Distance from `origin` to each object, the key of every scan here. */
  function DistTo(space: Space, origin: WorldObject): WorldObject -> real {
    (o: WorldObject) => space.dist(origin.pos, o.pos)
  }

  /** The last element of `s` satisfying `p`: what a scan that never tightens its bound ends with. */
  function LastWhere<T>(s: seq<T>, p: T -> bool): (r: Option<T>)
    ensures r.None? <==> forall i :: 0 <= i < |s| ==> !p(s[i])
    ensures r.Some? ==> exists i :: (0 <= i < |s| && s[i] == r.value && p(s[i])
      && forall j :: i < j < |s| ==> !p(s[j]))
  {
    if s == [] then None
    else if p(s[|s| - 1]) then Some(s[|s| - 1])
    else
      var r := LastWhere(s[..|s| - 1], p);
      assert forall i :: 0 <= i < |s| - 1 ==> s[..|s| - 1][i] == s[i];
      r
  }

  lemma LastWhereStep<T>(s: seq<T>, i: nat, p: T -> bool)
    requires i < |s|
    ensures LastWhere(s[..i + 1], p) == if p(s[i]) then Some(s[i]) else LastWhere(s[..i], p)
  {
    assert s[..i + 1][..i] == s[..i];
  }

  // ---------------------------------------------------------------------
  // Asteroids ordered by resource total

  predicate AscendingBy<T>(s: seq<T>, key: T -> real) {
    forall a, b :: 0 <= a < b < |s| ==> key(s[a]) <= key(s[b])
  }

  function Total(o: WorldObject): real { o.total }

  /** Position at which a stable sort puts a new last element: after every element not larger. */
  function FirstAbove<T>(s: seq<T>, d: real, key: T -> real): (i: nat)
    requires AscendingBy(s, key)
    ensures i <= |s|
    ensures forall k :: 0 <= k < i ==> key(s[k]) <= d
    ensures forall k :: i <= k < |s| ==> key(s[k]) > d
  {
    if s == [] || key(s[|s| - 1]) <= d then |s|
    else
      var i := FirstAbove(s[..|s| - 1], d, key);
      assert forall k :: 0 <= k < |s| - 1 ==> s[..|s| - 1][k] == s[k];
      i
  }

  /** A stable ascending sort: each element goes after the equal elements already placed. */
  function SortBy<T>(s: seq<T>, key: T -> real): (r: seq<T>)
    ensures AscendingBy(r, key)
    ensures |r| == |s|
  {
    if s == [] then []
    else
      var t := SortBy(s[..|s| - 1], key);
      var x := s[|s| - 1];
      var i := FirstAbove(t, key(x), key);
      var r := t[..i] + [x] + t[i..];
      assert forall k :: 0 <= k < i ==> r[k] == t[k];
      assert forall k :: i < k < |r| ==> r[k] == t[k - 1];
      r
  }

  /** The sort loses and invents nothing. */
  lemma {:induction false} SortByPermutes<T>(s: seq<T>, key: T -> real)
    ensures multiset(SortBy(s, key)) == multiset(s)
    decreases |s|
  {
    if s != [] {
      var u := s[..|s| - 1];
      SortByPermutes(u, key);
      SortByInserts(s, key);
      assert s == u + [s[|s| - 1]];
    }
  }

  /** One step of the sort: the last element is inserted into the sorted rest. */
  lemma SortByInserts<T>(s: seq<T>, key: T -> real)
    requires s != []
    ensures multiset(SortBy(s, key)) == multiset(SortBy(s[..|s| - 1], key)) + multiset{s[|s| - 1]}
  {
    var t := SortBy(s[..|s| - 1], key);
    var x := s[|s| - 1];
    var i := FirstAbove(t, key(x), key);
    assert SortBy(s, key) == t[..i] + [x] + t[i..];
    InsertKeepsMultiset(t, x, i);
  }

  /** Inserting `x` at position `i` adds exactly one `x`. */
  lemma InsertKeepsMultiset<T>(t: seq<T>, x: T, i: nat)
    requires i <= |t|
    ensures multiset(t[..i] + [x] + t[i..]) == multiset(t) + multiset{x}
  {
    assert t == t[..i] + t[i..];
  }

  /** Sorting objects by total keeps exactly the same objects and puts them in ascending order of total. */
  lemma SortedByTotal(s: seq<WorldObject>)
    ensures var r := SortBy(s, Total);
      && multiset(r) == multiset(s)
      && (forall a, b :: 0 <= a < b < |r| ==> r[a].total <= r[b].total)
      && (forall o :: o in r ==> o in s)
  {
    SortByPermutes(s, Total);
    var r := SortBy(s, Total);
    forall o | o in r
      ensures o in s
    {
      assert o in multiset(r);
    }
  }

  /**
   * The asteroids sorted by resource total.  The comparator orders the
   * smaller total first, so despite its name the list is ascending.
   */
  function AsteroidsByHighestValue(space: Space): (r: seq<WorldObject>)
    ensures multiset(r) == multiset(Asteroids(space))
    ensures forall a, b :: 0 <= a < b < |r| ==> r[a].total <= r[b].total
    ensures forall o :: o in r ==> o.IsAsteroid()
  {
    SortedByTotal(Asteroids(space));
    SortBy(Asteroids(space), Total)
  }

  // ---------------------------------------------------------------------
  // Objects within a radius, nearest first

  /** Index of the first entry that is not strictly closer than `d`. */
  function FirstNotBelow<T>(s: seq<T>, d: real, key: T -> real): (i: nat)
    ensures i <= |s|
    ensures forall k :: 0 <= k < i ==> key(s[k]) < d
    ensures i < |s| ==> key(s[i]) >= d
  {
    if s == [] || key(s[0]) >= d then 0
    else
      var i := FirstNotBelow(s[1..], d, key);
      assert forall k :: 1 <= k < |s| ==> s[1..][k - 1] == s[k];
      1 + i
  }

  lemma FirstNotBelowUnique<T>(s: seq<T>, d: real, key: T -> real, i: nat)
    requires i < |s| && key(s[i]) >= d
    requires forall k :: 0 <= k < i ==> key(s[k]) < d
    ensures FirstNotBelow(s, d, key) == i
  {
  }

  function InsertAt<T>(s: seq<T>, i: nat, x: T): seq<T>
    requires i <= |s|
  {
    s[..i] + [x] + s[i..]
  }

  /**
   * One insertion as written: the first object goes in directly; a later one
   * is placed before the first entry not strictly closer, and the scan for
   * that entry reads past the end of the list when there is none.
   */
  function RadiusInsert<T>(l: seq<T>, x: T, key: T -> real): Result<seq<T>>
  {
    if l == [] then Ok([x])
    else
      var i := FirstNotBelow(l, key(x), key);
      if i == |l| then Fail(IndexOutOfBounds) else Ok(InsertAt(l, i, x))
  }

  /** The list as written, built one in-radius object at a time. */
  function RadiusList<T>(f: seq<T>, key: T -> real): Result<seq<T>>
  {
    if f == [] then Ok([])
    else match RadiusList(f[..|f| - 1], key)
      case Fail(e) => Fail(e)
      case Ok(l) => RadiusInsert(l, f[|f| - 1], key)
  }

  /** One corrected insertion: an object farther than every entry is appended. */
  function FixedInsert<T>(l: seq<T>, x: T, key: T -> real): seq<T>
  {
    InsertAt(l, FirstNotBelow(l, key(x), key), x)
  }

  /** The corrected list: an object farther than every entry is appended. */
  function RadiusListFixed<T>(f: seq<T>, key: T -> real): seq<T>
  {
    if f == [] then []
    else
      FixedInsert(RadiusListFixed(f[..|f| - 1], key), f[|f| - 1], key)
  }

  /** Inserting before the first entry not strictly closer keeps the list ascending. */
  lemma InsertKeepsAscending<T>(l: seq<T>, x: T, key: T -> real)
    requires AscendingBy(l, key)
    ensures var i := FirstNotBelow(l, key(x), key);
      AscendingBy(InsertAt(l, i, x), key) && multiset(InsertAt(l, i, x)) == multiset(l) + multiset{x}
  {
    var i := FirstNotBelow(l, key(x), key);
    InsertAtOrdered(l, i, x, key);
    assert l == l[..i] + l[i..];
  }

  /** Ascending order survives an insertion at a place that fits the key. */
  lemma InsertAtOrdered<T>(l: seq<T>, i: nat, x: T, key: T -> real)
    requires AscendingBy(l, key) && i <= |l|
    requires forall k :: 0 <= k < i ==> key(l[k]) < key(x)
    requires i < |l| ==> key(l[i]) >= key(x)
    ensures AscendingBy(InsertAt(l, i, x), key)
  {
    var r := InsertAt(l, i, x);
    forall a, b | 0 <= a < b < |r|
      ensures key(r[a]) <= key(r[b])
    {
      InsertAtIndex(l, i, x, a);
      InsertAtIndex(l, i, x, b);
      if a < i && i < b {
        assert key(l[i]) <= key(l[b - 1]);
      } else if a == i {
        assert key(l[i]) <= key(l[b - 1]);
      }
    }
  }

  lemma InsertAtIndex<T>(l: seq<T>, i: nat, x: T, k: nat)
    requires i <= |l| && k <= |l|
    ensures InsertAt(l, i, x)[k] == if k < i then l[k] else if k == i then x else l[k - 1]
  {
  }

  /** The corrected builder always yields the in-radius objects, ascending by distance. */
  lemma {:induction false} RadiusListFixedSorted<T>(f: seq<T>, key: T -> real)
    ensures AscendingBy(RadiusListFixed(f, key), key)
    ensures multiset(RadiusListFixed(f, key)) == multiset(f)
    decreases |f|
  {
    if f != [] {
      var u := f[..|f| - 1];
      RadiusListFixedSorted(u, key);
      InsertKeepsAscending(RadiusListFixed(u, key), f[|f| - 1], key);
      assert f == u + [f[|f| - 1]];
    }
  }

  /** Whenever the list as written does not fail, it agrees with the corrected one. */
  lemma {:induction false} RadiusListAgrees<T>(f: seq<T>, key: T -> real)
    requires RadiusList(f, key).Ok?
    ensures RadiusList(f, key).value == RadiusListFixed(f, key)
    decreases |f|
  {
    if f != [] {
      RadiusListAgrees(f[..|f| - 1], key);
    }
  }

  /** An origin strictly farther than every earlier one, after the first. */
  predicate NewFarthest<T>(f: seq<T>, key: T -> real) {
    exists j :: 1 <= j < |f| && forall k :: 0 <= k < j ==> key(f[k]) < key(f[j])
  }

  lemma AllBelowPermuted<T>(l: seq<T>, f: seq<T>, d: real, key: T -> real)
    requires multiset(l) == multiset(f)
    ensures (forall k :: 0 <= k < |l| ==> key(l[k]) < d) <==> (forall k :: 0 <= k < |f| ==> key(f[k]) < d)
  {
    if forall k :: 0 <= k < |l| ==> key(l[k]) < d {
      forall k | 0 <= k < |f|
        ensures key(f[k]) < d
      {
        assert f[k] in multiset(l);
      }
    }
    if forall k :: 0 <= k < |f| ==> key(f[k]) < d {
      forall k | 0 <= k < |l|
        ensures key(l[k]) < d
      {
        assert l[k] in multiset(f);
      }
    }
  }

  /**
   * The list as written fails exactly when some origin after the first is
   * strictly farther than every origin before it; otherwise it holds them
   * all, ascending by distance.
   */
  lemma {:induction false} RadiusListFailsIff<T>(f: seq<T>, key: T -> real)
    ensures RadiusList(f, key).Fail? <==> NewFarthest(f, key)
    ensures RadiusList(f, key).Fail? ==> RadiusList(f, key).fault == IndexOutOfBounds
    decreases |f|
  {
    if f != [] {
      var u := f[..|f| - 1];
      var x := f[|f| - 1];
      assert f == u + [x];
      RadiusListFailsIff(u, key);
      NewFarthestSnoc(u, x, key);
      if RadiusList(u, key).Ok? {
        var l := RadiusList(u, key).value;
        RadiusListSorted(u, key);
        assert |l| == |multiset(l)| == |multiset(u)| == |u|;
        AllBelowPermuted(l, u, key(x), key);
      }
    }
  }

  /** When the list as written does not fail, it holds the in-radius objects, ascending by distance. */
  lemma RadiusListSorted<T>(f: seq<T>, key: T -> real)
    ensures RadiusList(f, key).Ok? ==>
      AscendingBy(RadiusList(f, key).value, key) && multiset(RadiusList(f, key).value) == multiset(f)
  {
    if RadiusList(f, key).Ok? {
      RadiusListAgrees(f, key);
      RadiusListFixedSorted(f, key);
    }
  }

  /** Appending `x` creates a new farthest object exactly when `x` is farther than everything before it. */
  lemma NewFarthestSnoc<T>(u: seq<T>, x: T, key: T -> real)
    ensures NewFarthest(u + [x], key) <==>
      NewFarthest(u, key) || (|u| >= 1 && forall k :: 0 <= k < |u| ==> key(u[k]) < key(x))
  {
    var f := u + [x];
    if NewFarthest(f, key) {
      var j :| 1 <= j < |f| && forall k :: 0 <= k < j ==> key(f[k]) < key(f[j]);
      assert forall k :: 0 <= k < |u| ==> f[k] == u[k];
      if j < |u| {
        assert 1 <= j < |u| && forall k :: 0 <= k < j ==> key(u[k]) < key(u[j]);
      } else {
        assert f[j] == x;
      }
    }
    if NewFarthest(u, key) {
      var j :| 1 <= j < |u| && forall k :: 0 <= k < j ==> key(u[k]) < key(u[j]);
      assert 1 <= j < |f| && forall k :: 0 <= k < j ==> key(f[k]) < key(f[j]);
    }
    if |u| >= 1 && forall k :: 0 <= k < |u| ==> key(u[k]) < key(x) {
      assert forall k :: 0 <= k < |u| ==> f[k] == u[k];
      assert f[|u|] == x;
      assert 1 <= |u| < |f| && forall k :: 0 <= k < |u| ==> key(f[k]) < key(f[|u|]);
    }
  }

  /** The objects strictly within `radius` of `origin`, in iteration order. */
  function InRadius(space: Space, origin: WorldObject, radius: real): seq<WorldObject> {
    Filter(space.objects, Within(space, origin, radius))
  }

  /** The in-radius test: strictly closer to `origin` than `radius`. */
  function Within(space: Space, origin: WorldObject, radius: real): WorldObject -> bool {
    (o: WorldObject) => space.dist(origin.pos, o.pos) < radius
  }

  lemma RadiusListSnoc<T>(f: seq<T>, x: T, key: T -> real)
    ensures RadiusList(f + [x], key) ==
      match RadiusList(f, key)
      case Fail(e) => Fail(e)
      case Ok(l) => RadiusInsert(l, x, key)
  {
    assert (f + [x])[..|f|] == f;
  }

  /** Once an object breaks the list, later objects cannot repair it. */
  lemma {:induction false} RadiusListFailPropagates<T>(f: seq<T>, g: seq<T>, key: T -> real)
    requires RadiusList(f, key).Fail?
    ensures RadiusList(f + g, key) == RadiusList(f, key)
    decreases |g|
  {
    if g == [] {
      assert f + g == f;
    } else {
      var h := g[..|g| - 1];
      assert (f + g)[..|f + g| - 1] == f + h;
      RadiusListFailPropagates(f, h, key);
    }
  }

  /** A failure on the objects scanned so far is the failure of the whole scan. */
  lemma RadiusListPrefixFails<T>(all: seq<T>, n: nat, inR: T -> bool, key: T -> real)
    requires n <= |all| && RadiusList(Filter(all[..n], inR), key).Fail?
    ensures RadiusList(Filter(all, inR), key) == RadiusList(Filter(all[..n], inR), key)
  {
    assert all == all[..n] + all[n..];
    FilterAppend(all[..n], all[n..], inR);
    RadiusListFailPropagates(Filter(all[..n], inR), Filter(all[n..], inR), key);
  }

  /**
   * One insertion as written: the scan advances while the entry is strictly
   * closer than `obj2` and reads entry `|objects|` when every entry is, which fails.
   */
  method InsertByDistance(space: Space, origin: WorldObject, objects: seq<WorldObject>, obj2: WorldObject)
    returns (r: Result<seq<WorldObject>>)
    ensures r == RadiusInsert(objects, obj2, DistTo(space, origin))
  {
    if |objects| == 0 {
      assert objects + [obj2] == [obj2];
      return Ok(objects + [obj2]);
    }
    var dist := space.dist(origin.pos, obj2.pos);
    var i := 0;
    while true
      invariant 0 <= i <= |objects|
      invariant forall k :: 0 <= k < i ==> DistTo(space, origin)(objects[k]) < dist
      decreases |objects| - i
    {
      if i == |objects| {
        return Fail(IndexOutOfBounds);
      }
      if !(space.dist(origin.pos, objects[i].pos) < dist) {
        break;
      }
      i := i + 1;
    }
    FirstNotBelowUnique(objects, dist, DistTo(space, origin), i);
    // the scan stops inside the list, so the append-at-end branch is never taken
    r := Ok(objects[..i] + [obj2] + objects[i..]);
  }

  /**
   * The objects within `radius` of `origin`, nearest first, as written:
   * fails with an index error when a later object is farther than every
   * object already listed.
   */
  method ObjectsWithinRadius(space: Space, origin: WorldObject, radius: real) returns (r: Result<seq<WorldObject>>)
    ensures r == RadiusList(InRadius(space, origin, radius), DistTo(space, origin))
  {
    var key := DistTo(space, origin);
    var inR := Within(space, origin, radius);
    var all := space.objects;
    var objects: seq<WorldObject> := [];
    for n := 0 to |all|
      invariant RadiusList(Filter(all[..n], inR), key) == Ok(objects)
    {
      var obj2 := all[n];
      FilterStep(all, n, inR);
      var dist := space.dist(origin.pos, obj2.pos);
      assert inR(obj2) == (dist < radius);
      if dist < radius {
        ghost var f := Filter(all[..n], inR);
        assert Filter(all[..n + 1], inR) == f + [obj2];
        RadiusListSnoc(f, obj2, key);
        assert RadiusList(f + [obj2], key) == RadiusInsert(objects, obj2, key);
        var next := InsertByDistance(space, origin, objects, obj2);
        if next.Fail? {
          RadiusListPrefixFails(all, n + 1, inR, key);
          return next;
        }
        objects := next.value;
      } else {
        assert Filter(all[..n + 1], inR) == Filter(all[..n], inR);
      }
    }
    assert all[..|all|] == all;
    r := Ok(objects);
  }

  /** One corrected insertion: the scan stops at the end of the list. */
  method InsertByDistanceBounded(space: Space, origin: WorldObject, objects: seq<WorldObject>, obj2: WorldObject)
    returns (r: seq<WorldObject>)
    ensures r == FixedInsert(objects, obj2, DistTo(space, origin))
  {
    var dist := space.dist(origin.pos, obj2.pos);
    var i := 0;
    while i < |objects| && space.dist(origin.pos, objects[i].pos) < dist
      invariant 0 <= i <= |objects|
      invariant forall k :: 0 <= k < i ==> DistTo(space, origin)(objects[k]) < dist
    {
      i := i + 1;
    }
    if i < |objects| {
      FirstNotBelowUnique(objects, dist, DistTo(space, origin), i);
    }
    r := objects[..i] + [obj2] + objects[i..];
  }

  /** The corrected builder: an object farther than every entry is appended. */
  method ObjectsWithinRadiusBounded(space: Space, origin: WorldObject, radius: real) returns (objects: seq<WorldObject>)
    ensures objects == RadiusListFixed(InRadius(space, origin, radius), DistTo(space, origin))
    ensures AscendingBy(objects, DistTo(space, origin))
    ensures multiset(objects) == multiset(InRadius(space, origin, radius))
  {
    var key := DistTo(space, origin);
    var inR := Within(space, origin, radius);
    var all := space.objects;
    objects := [];
    for n := 0 to |all|
      invariant RadiusListFixed(Filter(all[..n], inR), key) == objects
    {
      var obj2 := all[n];
      FilterStep(all, n, inR);
      var dist := space.dist(origin.pos, obj2.pos);
      assert inR(obj2) == (dist < radius);
      if dist < radius {
        ghost var f := Filter(all[..n], inR);
        assert Filter(all[..n + 1], inR) == f + [obj2];
        assert (f + [obj2])[..|f|] == f;
        assert RadiusListFixed(f + [obj2], key) == FixedInsert(objects, obj2, key);
        objects := InsertByDistanceBounded(space, origin, objects, obj2);
      } else {
        assert Filter(all[..n + 1], inR) == Filter(all[..n], inR);
      }
    }
    assert all[..|all|] == all;
    RadiusListFixedSorted(InRadius(space, origin, radius), key);
  }

  /** Two objects nearer than every predecessor: the second one breaks the list as written. */
  lemma ObjectsWithinRadiusCounterexample()
    ensures var a := WorldObject(1, OtherKind, Position(1.0, 0.0), 1.0, "", 0.0, 0.0, 0.0);
      var b := WorldObject(2, OtherKind, Position(2.0, 0.0), 1.0, "", 0.0, 0.0, 0.0);
      var key := (o: WorldObject) => o.pos.x;
      RadiusList([a, b], key) == Fail(IndexOutOfBounds)
      && RadiusListFixed([a, b], key) == [a, b]
  {
    var a := WorldObject(1, OtherKind, Position(1.0, 0.0), 1.0, "", 0.0, 0.0, 0.0);
    var b := WorldObject(2, OtherKind, Position(2.0, 0.0), 1.0, "", 0.0, 0.0, 0.0);
    var key := (o: WorldObject) => o.pos.x;
    assert [a, b][..1] == [a];
    assert [a][..0] == [];
    assert RadiusList([a], key) == Ok([a]);
    assert FirstNotBelow([a], key(b), key) == 1;
    assert RadiusListFixed([a], key) == [a];
  }

  // ---------------------------------------------------------------------
  // Closest other origin

  /**
   * The closest-origin scan as written: the bound stays at the largest
   * double, so every origin passes and the last one scanned is returned,
   * the given origin itself included.
   */
  method GetClosestOtherObject(space: Space, origin: WorldObject) returns (closest: Option<WorldObject>)
    ensures closest == LastWhere(space.objects, (o: WorldObject) => space.dist(origin.pos, o.pos) < MaxDouble)
  {
    var p := (o: WorldObject) => space.dist(origin.pos, o.pos) < MaxDouble;
    var all := space.objects;
    var minDistance := MaxDouble;
    closest := None;
    for i := 0 to |all|
      invariant closest == LastWhere(all[..i], p)
    {
      LastWhereStep(all, i, p);
      if space.dist(origin.pos, all[i].pos) < minDistance {
        closest := Some(all[i]);
      }
    }
    assert all[..|all|] == all;
  }

  /** The origin nearest to `origin` among the others, keeping the first of equals; the bound tightens. */
  method GetClosestOtherObjectFixed(space: Space, origin: WorldObject) returns (closest: Option<WorldObject>)
    ensures var p := (o: WorldObject) => o.id != origin.id && DistTo(space, origin)(o) < MaxDouble;
      closest == FirstMin(Filter(space.objects, p), DistTo(space, origin))
    ensures closest.Some? ==> closest.value.id != origin.id && closest.value in space.objects
    ensures closest.Some? ==> forall o :: (o in space.objects && o.id != origin.id && DistTo(space, origin)(o) < MaxDouble
      ==> space.dist(origin.pos, closest.value.pos) <= space.dist(origin.pos, o.pos))
  {
    var key := DistTo(space, origin);
    var p := (o: WorldObject) => o.id != origin.id && DistTo(space, origin)(o) < MaxDouble;
    var all := space.objects;
    var minDistance := MaxDouble;
    closest := None;
    for i := 0 to |all|
      invariant closest == FirstMinWhere(all[..i], p, key)
      invariant closest.None? ==> minDistance == MaxDouble
      invariant closest.Some? ==> minDistance == key(closest.value) && minDistance < MaxDouble
    {
      FirstMinWhereStep(all, i, p, key);
      var dist := space.dist(origin.pos, all[i].pos);
      if all[i].id != origin.id && dist < minDistance {
        minDistance := dist;
        closest := Some(all[i]);
      }
    }
    assert all[..|all|] == all;
    FirstMinWhereIsFilter(all, p, key);
  }

  /** With two objects, the nearer first, the scan as written returns the farther one. */
  lemma ClosestOtherObjectCounterexample(space: Space, origin: WorldObject)
    requires |space.objects| == 2
    requires space.dist(origin.pos, space.objects[0].pos) < space.dist(origin.pos, space.objects[1].pos) < MaxDouble
    ensures var p := (o: WorldObject) => space.dist(origin.pos, o.pos) < MaxDouble;
      LastWhere(space.objects, p) == Some(space.objects[1])
  {
    var p := (o: WorldObject) => space.dist(origin.pos, o.pos) < MaxDouble;
    assert p(space.objects[1]);
  }

  // ---------------------------------------------------------------------
  // Richest asteroid within a radius

  /** Mineable, within `radius` of the ship, and worth more than the smallest positive double. */
  predicate RichCandidate(space: Space, ship: WorldObject, radius: real, a: WorldObject) {
    a.IsMineable() && space.dist(ship.pos, a.pos) <= radius && a.total > MinDouble
  }

  /**
   * The richest-asteroid scan as written: `highestValue` is never raised, so
   * the result is the last candidate scanned, not the richest.
   */
  method GetHighestValueAsteroidWithinRadius(space: Space, ship: WorldObject, radius: real)
    returns (highest: Option<WorldObject>)
    ensures highest == LastWhere(Asteroids(space), (a: WorldObject) => RichCandidate(space, ship, radius, a))
  {
    var p := (a: WorldObject) => RichCandidate(space, ship, radius, a);
    var asteroids := Asteroids(space);
    var highestValue := MinDouble;
    highest := None;
    for i := 0 to |asteroids|
      invariant highest == LastWhere(asteroids[..i], p)
    {
      LastWhereStep(asteroids, i, p);
      var asteroid := asteroids[i];
      if asteroid.IsMineable() && space.dist(ship.pos, asteroid.pos) <= radius
         && asteroid.total > highestValue {
        highest := Some(asteroid);
      }
    }
    assert asteroids[..|asteroids|] == asteroids;
  }

  /** The corrected scan raises the bound: the first candidate with the largest total. */
  method GetHighestValueAsteroidWithinRadiusFixed(space: Space, ship: WorldObject, radius: real)
    returns (highest: Option<WorldObject>)
    ensures var p := (a: WorldObject) => RichCandidate(space, ship, radius, a);
      highest == FirstMin(Filter(Asteroids(space), p), (a: WorldObject) => -a.total)
    ensures highest.Some? ==> RichCandidate(space, ship, radius, highest.value) && highest.value in space.objects
    ensures highest.Some? ==> forall a :: (a in Asteroids(space) && RichCandidate(space, ship, radius, a)
      ==> a.total <= highest.value.total)
    ensures highest.None? <==> forall a :: a in Asteroids(space) ==> !RichCandidate(space, ship, radius, a)
  {
    var p := (a: WorldObject) => RichCandidate(space, ship, radius, a);
    var key := (a: WorldObject) => -a.total;
    var asteroids := Asteroids(space);
    var highestValue := MinDouble;
    highest := None;
    for i := 0 to |asteroids|
      invariant highest == FirstMinWhere(asteroids[..i], p, key)
      invariant highest.None? ==> highestValue == MinDouble
      invariant highest.Some? ==> highestValue == highest.value.total && highestValue > MinDouble
    {
      FirstMinWhereStep(asteroids, i, p, key);
      var asteroid := asteroids[i];
      if asteroid.IsMineable() && space.dist(ship.pos, asteroid.pos) <= radius
         && asteroid.total > highestValue {
        highestValue := asteroid.total;
        highest := Some(asteroid);
      }
    }
    assert asteroids[..|asteroids|] == asteroids;
    FirstMinWhereIsFilter(asteroids, p, key);
  }

  /** A rich asteroid followed by a poorer one: the scan as written returns the poorer. */
  lemma HighestValueCounterexample(space: Space, ship: WorldObject, radius: real)
    requires |Asteroids(space)| == 2
    requires forall a :: a in Asteroids(space) ==> a.IsMineable() && space.dist(ship.pos, a.pos) <= radius
    requires Asteroids(space)[0].total == 10.0 && Asteroids(space)[1].total == 1.0
    ensures var p := (a: WorldObject) => RichCandidate(space, ship, radius, a);
      LastWhere(Asteroids(space), p) == Some(Asteroids(space)[1])
      && Asteroids(space)[1].total < Asteroids(space)[0].total
  {
    MinDoubleBounds();
    assert RichCandidate(space, ship, radius, Asteroids(space)[1]);
  }

  // ---------------------------------------------------------------------
  // Collisions and velocities

  /** Two objects collide when their distance is at most the sum of their radii. */
  predicate AreObjectsColliding(space: Space, a: WorldObject, b: WorldObject) {
    space.dist(a.pos, b.pos) <= a.radius + b.radius
  }

  /** With a symmetric distance, collision does not depend on the order of the pair. */
  lemma CollidingSymmetric(space: Space, a: WorldObject, b: WorldObject)
    requires space.dist(a.pos, b.pos) == space.dist(b.pos, a.pos)
    ensures AreObjectsColliding(space, a, b) <==> AreObjectsColliding(space, b, a)
    ensures AreObjectsColliding(space, a, b) <==> space.dist(b.pos, a.pos) <= a.radius + b.radius
  {
  }

  /** The sign of the difference of the two speeds. */
  function CompareVelocity(a: WorldObject, b: WorldObject): (r: int)
    ensures r == 1 <==> a.speed > b.speed
    ensures r == -1 <==> a.speed < b.speed
    ensures r == 0 <==> a.speed == b.speed
  {
    if a.speed > b.speed then 1
    else if a.speed < b.speed then -1
    else 0
  }

  /** The comparison is antisymmetric and transitive, a proper comparator. */
  lemma CompareVelocityIsComparator(a: WorldObject, b: WorldObject, c: WorldObject)
    ensures CompareVelocity(a, b) == -CompareVelocity(b, a)
    ensures CompareVelocity(a, b) >= 0 && CompareVelocity(b, c) >= 0 ==> CompareVelocity(a, c) >= 0
    ensures CompareVelocity(a, a) == 0
  {
  }

  // ---------------------------------------------------------------------
  // Goal points pushed farther away

  /** A coordinate kept inside [0, limit]. */
  function ClampCoord(v: real, limit: real): (r: real)
    requires limit >= 0.0
    ensures 0.0 <= r <= limit
    ensures 0.0 <= v <= limit ==> r == v
    ensures v > limit ==> r == limit
    ensures v < 0.0 ==> r == 0.0
  {
    if v > limit then limit
    else if v < 0.0 then 0.0
    else v
  }

  lemma ClampIdempotent(v: real, limit: real)
    requires limit >= 0.0
    ensures ClampCoord(ClampCoord(v, limit), limit) == ClampCoord(v, limit)
  {
  }

  /** `p` moved by `scalar` times `d`, each coordinate clamped to the map. */
  function ClampedShift(space: Space, p: Position, d: Vec, scalar: real): (r: Position)
    requires space.width >= 0.0 && space.height >= 0.0
    ensures 0.0 <= r.x <= space.width && 0.0 <= r.y <= space.height
    ensures var x := p.x + d.dx * scalar; var y := p.y + d.dy * scalar;
      (0.0 <= x <= space.width ==> r.x == x) && (0.0 <= y <= space.height ==> r.y == y)
  {
    Position(ClampCoord(p.x + d.dx * scalar, space.width), ClampCoord(p.y + d.dy * scalar, space.height))
  }

  /**
   * A copy of the goal placed `scalar` times its offset from the start beyond
   * it, clamped to the map.
   */
  function ScaleDistanceVector(space: Space, start: Position, goal: WorldObject, scalar: real): (r: WorldObject)
    requires space.width >= 0.0 && space.height >= 0.0
    ensures r == goal.(pos := r.pos)
    ensures 0.0 <= r.pos.x <= space.width && 0.0 <= r.pos.y <= space.height
    ensures var d := space.offset(start, goal.pos);
      var x := goal.pos.x + d.dx * scalar;
      0.0 <= x <= space.width ==> r.pos.x == x
    ensures var d := space.offset(start, goal.pos);
      var y := goal.pos.y + d.dy * scalar;
      0.0 <= y <= space.height ==> r.pos.y == y
  {
    goal.(pos := ClampedShift(space, goal.pos, space.offset(start, goal.pos), scalar))
  }

  /**
   * The same, with the offset first rotated by `radians`; the rotation is
   * the vector library's and is passed in.
   */
  function RotateTrajectoryVector(space: Space, rotate: (Vec, real) -> Vec, start: Position, goal: WorldObject,
                                  radians: real, scalar: real): (r: WorldObject)
    requires space.width >= 0.0 && space.height >= 0.0
    ensures r == goal.(pos := r.pos)
    ensures 0.0 <= r.pos.x <= space.width && 0.0 <= r.pos.y <= space.height
    ensures var d := rotate(space.offset(start, goal.pos), radians);
      var x := goal.pos.x + d.dx * scalar;
      0.0 <= x <= space.width ==> r.pos.x == x
    ensures var d := rotate(space.offset(start, goal.pos), radians);
      var y := goal.pos.y + d.dy * scalar;
      0.0 <= y <= space.height ==> r.pos.y == y
  {
    goal.(pos := ClampedShift(space, goal.pos, rotate(space.offset(start, goal.pos), radians), scalar))
  }

  /** Rotating by an angle the rotation leaves unchanged is plain scaling. */
  lemma RotateByIdentityIsScale(space: Space, rotate: (Vec, real) -> Vec, start: Position, goal: WorldObject,
                                radians: real, scalar: real)
    requires space.width >= 0.0 && space.height >= 0.0
    requires rotate(space.offset(start, goal.pos), radians) == space.offset(start, goal.pos)
    ensures RotateTrajectoryVector(space, rotate, start, goal, radians, scalar)
         == ScaleDistanceVector(space, start, goal, scalar)
  {
  }

  // ---------------------------------------------------------------------
  // Nearest beacon or refuelling base

  /** Bases of the ship's team holding at least `fuelMin` energy, in iteration order. */
  function FuelBases(space: Space, ship: WorldObject, fuelMin: real): seq<WorldObject> {
    Filter(Bases(space), Fuels(ship, fuelMin))
  }

  /** A base of the ship's team holding at least `fuelMin` energy. */
  function Fuels(ship: WorldObject, fuelMin: real): WorldObject -> bool {
    (b: WorldObject) => b.team == ship.team && b.energy >= fuelMin
  }

  /** The better of two scan results: the second wins only when strictly nearer. */
  function Nearer(a: Option<WorldObject>, b: Option<WorldObject>, key: WorldObject -> real): Option<WorldObject> {
    if a.None? then b
    else if b.Some? && key(b.value) < key(a.value) then b
    else a
  }

  /**
   * The nearest beacon, replaced by a base of the ship's team with at least
   * `fuelMin` energy only when that base is strictly nearer: the first
   * nearest element of the beacons followed by the qualifying bases.
   */
  method ClosestBeaconOrBaseToObject(space: Space, ship: WorldObject, fuelMin: real) returns (closest: Option<WorldObject>)
    ensures closest == FirstMin(Beacons(space) + FuelBases(space, ship, fuelMin), DistTo(space, ship))
    ensures closest.None? <==> Beacons(space) == [] && FuelBases(space, ship, fuelMin) == []
    ensures closest.Some? && closest.value.IsBase() ==>
      closest.value.team == ship.team && closest.value.energy >= fuelMin
      && forall b :: b in Beacons(space) ==> space.dist(ship.pos, closest.value.pos) < space.dist(ship.pos, b.pos)
  {
    var beacon, bestDistance := ScanBeacons(Beacons(space), DistTo(space, ship));
    closest := ScanFuelBases(space, ship, fuelMin, beacon, bestDistance);
    NearestFuelIsFirstMin(space, ship, fuelMin);
  }

  /** The first half of the fuel scan: the first nearest beacon and its distance (+infinity if none). */
  method ScanBeacons(beacons: seq<WorldObject>, key: WorldObject -> real) returns (closest: Option<WorldObject>, bestDistance: Cost)
    ensures closest == FirstMin(beacons, key)
    ensures closest.None? <==> bestDistance == Inf
    ensures closest.Some? ==> bestDistance == Fin(key(closest.value))
  {
    closest := None;
    bestDistance := Inf;
    for i := 0 to |beacons|
      invariant closest == FirstMin(beacons[..i], key)
      invariant closest.None? <==> bestDistance == Inf
      invariant closest.Some? ==> bestDistance == Fin(key(closest.value))
    {
      FirstMinStep(beacons, i, key);
      var dist := key(beacons[i]);
      if Fin(dist).Below(bestDistance) {
        bestDistance := Fin(dist);
        closest := Some(beacons[i]);
      }
    }
    assert beacons[..|beacons|] == beacons;
  }

  /**
   * The second half of the fuel scan: the bases, with the nearest beacon and
   * its distance carried over as the bound to beat.
   */
  method ScanFuelBases(space: Space, ship: WorldObject, fuelMin: real, start: Option<WorldObject>, startBest: Cost)
    returns (closest: Option<WorldObject>)
    requires start.None? <==> startBest == Inf
    requires start.Some? ==> startBest == Fin(DistTo(space, ship)(start.value))
    ensures closest == Nearer(start, FirstMinWhere(Bases(space), Fuels(ship, fuelMin), DistTo(space, ship)), DistTo(space, ship))
  {
    var key := DistTo(space, ship);
    var q := Fuels(ship, fuelMin);
    var bases := Bases(space);
    closest := start;
    var bestDistance := startBest;
    for i := 0 to |bases|
      invariant closest == Nearer(start, FirstMinWhere(bases[..i], q, key), key)
      invariant closest.None? <==> bestDistance == Inf
      invariant closest.Some? ==> bestDistance == Fin(key(closest.value))
    {
      FirstMinWhereStep(bases, i, q, key);
      var base := bases[i];
      var dist := space.dist(ship.pos, base.pos);
      if base.team == ship.team && Fin(dist).Below(bestDistance) && base.energy >= fuelMin {
        bestDistance := Fin(dist);
        closest := Some(base);
      }
    }
    assert bases[..|bases|] == bases;
  }

  /** Scanning the beacons, then the bases with the bound carried over, finds the first nearest of both lists. */
  lemma NearestFuelIsFirstMin(space: Space, ship: WorldObject, fuelMin: real)
    ensures var key := DistTo(space, ship);
      var q := Fuels(ship, fuelMin);
      var r := Nearer(FirstMin(Beacons(space), key), FirstMinWhere(Bases(space), q, key), key);
      && r == FirstMin(Beacons(space) + FuelBases(space, ship, fuelMin), key)
      && (r.Some? && r.value.IsBase() ==>
          r.value.team == ship.team && r.value.energy >= fuelMin
          && forall b :: b in Beacons(space) ==> key(r.value) < key(b))
  {
    var key := DistTo(space, ship);
    var q := Fuels(ship, fuelMin);
    FirstMinWhereIsFilter(Bases(space), q, key);
    FirstMinAppend(Beacons(space), FuelBases(space, ship, fuelMin), key);
    var a := FirstMin(Beacons(space), key);
    var r := Nearer(a, FirstMin(FuelBases(space, ship, fuelMin), key), key);
    if r.Some? && r.value.IsBase() && a.Some? {
      assert !a.value.IsBase();
      assert r != a;
    }
  }

  // ---------------------------------------------------------------------

  /** A base is about to die when it is the home base and holds at most 100 energy. */
  predicate IsBaseNearDeath(base: WorldObject) {
    base.kind.BaseKind? && base.kind.homeBase && base.energy <= 100.0
  }

  /** Draining a dying home base keeps it dying; topping it up above 100 rescues it. */
  lemma BaseNearDeathThreshold(base: WorldObject, e: real)
    requires base.kind.BaseKind? && base.kind.homeBase
    ensures IsBaseNearDeath(base.(energy := e)) <==> e <= 100.0
    ensures IsBaseNearDeath(base) && e <= base.energy ==> IsBaseNearDeath(base.(energy := e))
  {
  }
}
