/** Routing (data/router.py, class `Route`): the candidate routes over a set
    of points, their lengths, and the shortest one. The great-circle formula
    of `Route.calcDistance` is a parameter `dist` here. */
module Router {
  import opened Wrappers
  import opened Permutations

  const ROUTE_STATIC: string := "static"
  const ROUTE_DYNAMIC: string := "dynamic"

  /** A point: latitude and longitude. */
  datatype Point = Point(lat: real, lon: real)

  /** `Route.__verifyPoints`: every point must have exactly two coordinates,
      otherwise `ValueError`; the points keep their order. */
  method VerifyPoints(raw: seq<seq<real>>) returns (r: Result<seq<Point>>)
    ensures r.Err? <==> exists i :: 0 <= i < |raw| && |raw[i]| != 2
    ensures r.Err? ==> r.error == ValueError
    ensures r.Ok? ==> |r.value| == |raw|
    ensures r.Ok? ==> forall i :: 0 <= i < |raw| ==> [r.value[i].lat, r.value[i].lon] == raw[i]
  {
    var res: seq<Point> := [];
    for i := 0 to |raw|
      invariant |res| == i
      invariant forall j :: 0 <= j < i ==> |raw[j]| == 2 && [res[j].lat, res[j].lon] == raw[j]
    {
      var pt := raw[i];
      if |pt| == 2 {
        res := res + [Point(pt[0], pt[1])];
      } else {
        return Err(ValueError);
      }
    }
    return Ok(res);
  }

  /** `tuple(range(n))`: the index of every point. */
  function Indexes(n: nat): (r: seq<int>)
    ensures |r| == n && forall k :: 0 <= k < n ==> r[k] == k
  {
    seq(n, k => k)
  }

  /** `indexes[1:]`: every point but home. */
  function Others(n: nat): (r: seq<int>)
    ensures |r| == (if n == 0 then 0 else n - 1)
    ensures forall k :: 0 <= k < |r| ==> r[k] == k + 1
  {
    seq(if n == 0 then 0 else n - 1, k => k + 1)
  }

  /** The candidate routes the constructor builds. Dynamic mode: every
      ordering of the other points, then every return-trip ordering without
      a self-loop, each wrapped with home. Static mode: the points in their
      given order, back home when the route is closed. */
  function Candidates(n: nat, closed: bool, mode: string): seq<seq<int>>
    requires mode == ROUTE_STATIC || mode == ROUTE_DYNAMIC
  {
    if mode == ROUTE_DYNAMIC then
      WithHome(Perms(Others(n)), closed)
      + WithHome(WithoutSelfLoops(SpecialBlocks(Others(n), |Others(n)|)), closed)
    else
      [Indexes(n) + (if closed then [0] else [])]
  }

  /** A route whose legs can all be looked up: every index names a point
      (a route with fewer than two entries has no leg to look up). */
  predicate ValidRoute(n: nat, r: seq<int>) {
    |r| < 2 || forall k :: 0 <= k < |r| ==> 0 <= r[k] < n
  }

  /** All elements of `r` are other points. */
  lemma ElementsOfOthers(n: nat, r: seq<int>)
    requires multiset(r) <= multiset(Others(n))
    ensures forall k :: 0 <= k < |r| ==> 1 <= r[k] < n
  {
    forall k | 0 <= k < |r|
      ensures 1 <= r[k] < n
    {
      assert r[k] in multiset(r);
      assert r[k] in Others(n);
    }
  }

  lemma HomeWrappedValid(n: nat, r: seq<int>, closed: bool)
    requires n >= 1 && forall k :: 0 <= k < |r| ==> 1 <= r[k] < n
    ensures ValidRoute(n, HomeWrapped(r, closed))
  {
    var w := HomeWrapped(r, closed);
    forall k | 0 <= k < |w|
      ensures 0 <= w[k] < n
    {
      if 1 <= k < |r| + 1 {
        assert w[k] == w[1..|r| + 1][k - 1] == r[k - 1];
      }
    }
  }

  /** Every return-trip route kept after filtering holds other points only. */
  lemma SpecialRouteElements(n: nat, s: seq<int>)
    requires s in WithoutSelfLoops(SpecialBlocks(Others(n), |Others(n)|))
    ensures forall k :: 0 <= k < |s| ==> 1 <= s[k] < n
  {
    var others := Others(n);
    var blocks := SpecialBlocks(others, |others|);
    WithoutSelfLoopsMembers(blocks, s);
    SpecialElements(others, |others|);
    var q :| 0 <= q < |blocks| && blocks[q] == s;
    var m :| 0 <= m < |others| && multiset(s) == multiset(others) + multiset{others[m]};
    forall k | 0 <= k < |s|
      ensures 1 <= s[k] < n
    {
      assert s[k] in multiset(s);
      assert s[k] in others;
    }
  }

  lemma DynamicCandidatesValid(n: nat, closed: bool)
    requires n >= 1
    ensures forall i :: 0 <= i < |Candidates(n, closed, ROUTE_DYNAMIC)| ==>
      ValidRoute(n, Candidates(n, closed, ROUTE_DYNAMIC)[i])
  {
    var others := Others(n);
    var normal := Perms(others);
    var special := WithoutSelfLoops(SpecialBlocks(others, |others|));
    var cs := Candidates(n, closed, ROUTE_DYNAMIC);
    assert cs == WithHome(normal, closed) + WithHome(special, closed);
    PermsAreRearrangements(others);
    forall i | 0 <= i < |cs|
      ensures ValidRoute(n, cs[i])
    {
      if i < |normal| {
        assert cs[i] == HomeWrapped(normal[i], closed);
        ElementsOfOthers(n, normal[i]);
        HomeWrappedValid(n, normal[i], closed);
      } else {
        var s := special[i - |normal|];
        assert cs[i] == HomeWrapped(s, closed);
        SpecialRouteElements(n, s);
        HomeWrappedValid(n, s, closed);
      }
    }
  }

  /** The candidates can all be measured exactly when the route is not a
      closed dynamic route over no points; that one is `[0, 0]`, which looks
      up a point that does not exist. */
  lemma CandidatesValid(n: nat, closed: bool, mode: string)
    requires mode == ROUTE_STATIC || mode == ROUTE_DYNAMIC
    ensures (forall i :: 0 <= i < |Candidates(n, closed, mode)| ==> ValidRoute(n, Candidates(n, closed, mode)[i]))
            <==> !(mode == ROUTE_DYNAMIC && closed && n == 0)
  {
    var cs := Candidates(n, closed, mode);
    if mode == ROUTE_DYNAMIC {
      if n == 0 {
        var others := Others(n);
        assert others == [];
        assert Perms(others) == [[]];
        assert SpecialBlocks(others, |others|) == [];
        assert cs == [HomeWrapped([], closed)];
        if closed {
          assert cs[0] == [0, 0];
          assert !ValidRoute(n, cs[0]);
        } else {
          assert cs[0] == [0];
        }
      } else {
        DynamicCandidatesValid(n, closed);
      }
    } else {
      var r := Indexes(n) + (if closed then [0] else []);
      assert cs == [r];
      if n >= 1 {
        assert forall k :: 0 <= k < |r| ==> 0 <= r[k] < n;
      }
    }
  }

  /** In dynamic mode the first `(n-1)!` candidates are the normal routes:
      each starts at home, visits every point exactly once, and returns home
      when the route is closed. */
  lemma NormalRoutesVisitEveryPoint(n: nat, closed: bool, q: nat)
    requires n >= 1 && q < Fact(n - 1)
    ensures q < |Candidates(n, closed, ROUTE_DYNAMIC)|
    ensures var r := Candidates(n, closed, ROUTE_DYNAMIC)[q];
      && r[0] == 0 && |r| == n + (if closed then 1 else 0)
      && multiset(r[..n]) == multiset(Indexes(n))
      && (closed ==> r[n] == 0)
  {
    var others := Others(n);
    PermsCount(others);
    PermsAreRearrangements(others);
    var p := Perms(others)[q];
    var r := Candidates(n, closed, ROUTE_DYNAMIC)[q];
    assert r == HomeWrapped(p, closed);
    assert r[..n] == [0] + p;
    assert Indexes(n) == [0] + others;
  }

  /** The length of a route: the sum of `dist` over its consecutive pairs. */
  function RouteLength(pts: seq<Point>, r: seq<int>, dist: (Point, Point) -> real): real
    requires ValidRoute(|pts|, r)
    decreases |r|
  {
    if |r| < 2 then 0.0
    else RouteLength(pts, r[..|r| - 1], dist) + dist(pts[r[|r| - 2]], pts[r[|r| - 1]])
  }

  /** Cutting a route at a waypoint splits its length: the part up to the
      waypoint plus the part from it. */
  lemma {:induction false} RouteLengthSplit(pts: seq<Point>, r: seq<int>, m: nat, dist: (Point, Point) -> real)
    requires ValidRoute(|pts|, r) && m < |r|
    ensures ValidRoute(|pts|, r[..m + 1]) && ValidRoute(|pts|, r[m..])
    ensures RouteLength(pts, r, dist) == RouteLength(pts, r[..m + 1], dist) + RouteLength(pts, r[m..], dist)
    decreases |r|
  {
    if m == |r| - 1 {
      assert r[..m + 1] == r;
    } else {
      var init := r[..|r| - 1];
      RouteLengthSplit(pts, init, m, dist);
      assert init[..m + 1] == r[..m + 1];
      assert r[m..][..|r[m..]| - 1] == init[m..];
    }
  }

  /** `Route.__createDistMatrix`: entry `[i][j]` is the distance from point
      `i` to point `j`. */
  method CreateDistMatrix(pts: seq<Point>, dist: (Point, Point) -> real) returns (m: seq<seq<real>>)
    ensures |m| == |pts|
    ensures forall i :: 0 <= i < |pts| ==> |m[i]| == |pts|
    ensures forall i, j :: 0 <= i < |pts| && 0 <= j < |pts| ==> m[i][j] == dist(pts[i], pts[j])
  {
    m := [];
    for i := 0 to |pts|
      invariant |m| == i
      invariant forall a :: 0 <= a < i ==> |m[a]| == |pts|
      invariant forall a, b :: 0 <= a < i && 0 <= b < |pts| ==> m[a][b] == dist(pts[a], pts[b])
    {
      var row: seq<real> := [];
      for j := 0 to |pts|
        invariant |row| == j
        invariant forall b :: 0 <= b < j ==> row[b] == dist(pts[i], pts[b])
      {
        row := row + [dist(pts[i], pts[j])];
      }
      m := m + [row];
    }
  }

  /** `Route.__calcDistances`: the length of every route, in order. */
  method CalcDistances(pts: seq<Point>, routes: seq<seq<int>>, dist: (Point, Point) -> real)
    returns (res: seq<real>)
    requires forall i :: 0 <= i < |routes| ==> ValidRoute(|pts|, routes[i])
    ensures |res| == |routes|
    ensures forall i :: 0 <= i < |routes| ==> res[i] == RouteLength(pts, routes[i], dist)
  {
    res := [];
    for i := 0 to |routes|
      invariant |res| == i
      invariant forall a :: 0 <= a < i ==> res[a] == RouteLength(pts, routes[a], dist)
    {
      var r := routes[i];
      var dst := 0.0;
      if |r| >= 2 {
        for j := 0 to |r| - 1
          invariant ValidRoute(|pts|, r[..j + 1])
          invariant dst == RouteLength(pts, r[..j + 1], dist)
        {
          assert r[..j + 2][..j + 1] == r[..j + 1];
          dst := dst + dist(pts[r[j]], pts[r[j + 1]]);
        }
        assert r[..|r|] == r;
      }
      res := res + [dst];
    }
  }

  /** `xs.index(min(xs))`: the first position of the smallest value. */
  function FirstMinIndex(xs: seq<real>): (i: nat)
    requires |xs| > 0
    ensures i < |xs|
    ensures forall j :: 0 <= j < |xs| ==> xs[i] <= xs[j]
    ensures forall j :: 0 <= j < i ==> xs[j] > xs[i]
    decreases |xs|
  {
    if |xs| == 1 then 0
    else
      var i := FirstMinIndex(xs[..|xs| - 1]);
      if xs[|xs| - 1] < xs[i] then |xs| - 1 else i
  }

  /** Python's index into a sequence of `n`: a negative index counts from
      the end. */
  function Wrap(i: int, n: nat): int {
    if i < 0 then n + i else i
  }

  /** `Route.map_points`: the point at each index (negative ones counted
      from the end); an index outside `-n .. n-1` raises `IndexError`.
      Mapping all the indexes gives back the points. */
  method MapPoints(pts: seq<Point>, idx: seq<int>) returns (r: Result<seq<Point>>)
    ensures r.Err? <==> exists k :: 0 <= k < |idx| && !(-|pts| <= idx[k] < |pts|)
    ensures r.Err? ==> r.error == IndexError
    ensures r.Ok? ==> |r.value| == |idx|
    ensures r.Ok? ==> forall k :: 0 <= k < |idx| ==>
      0 <= Wrap(idx[k], |pts|) < |pts| && r.value[k] == pts[Wrap(idx[k], |pts|)]
    ensures idx == Indexes(|pts|) ==> r == Ok(pts)
  {
    var res: seq<Point> := [];
    for k := 0 to |idx|
      invariant |res| == k
      invariant forall a :: 0 <= a < k ==> -|pts| <= idx[a] < |pts| && res[a] == pts[Wrap(idx[a], |pts|)]
    {
      if !(-|pts| <= idx[k] < |pts|) {
        return Err(IndexError);
      }
      res := res + [pts[Wrap(idx[k], |pts|)]];
    }
    if idx == Indexes(|pts|) {
      assert res == pts;
    }
    return Ok(res);
  }

  /** Adds home to every route of `rs` through `Route.__addHome`, which
      works in place on a list. */
  method AddHomeToAll(rs: seq<seq<int>>, closed: bool) returns (res: seq<seq<int>>)
    ensures res == WithHome(rs, closed)
  {
    var routes := new seq<int>[|rs|](i requires 0 <= i < |rs| => rs[i]);
    assert routes[..] == rs;
    AddHome(routes, closed);
    res := routes[..];
  }

  /** `Route`: the points, the candidate routes, their lengths and the
      shortest one, all computed once by the constructor. */
  class Route {
    const points: seq<Point>
    const closed: bool
    const mode: string
    const indexes: seq<int>
    const distanceMatrix: seq<seq<real>>
    const normalRoutes: seq<seq<int>>
    const specialRoutes: seq<seq<int>>
    const possibleRoutes: seq<seq<int>>
    const routeDistances: seq<real>
    const optRouteDistance: real
    const optRoute: seq<int>

    /** The constructor once the points are verified, for a mode it knows
        and a set of candidates it can measure. */
    constructor (pts: seq<Point>, closed: bool, mode: string, dist: (Point, Point) -> real)
      requires mode == ROUTE_STATIC || mode == ROUTE_DYNAMIC
      requires !(mode == ROUTE_DYNAMIC && closed && |pts| == 0)
      ensures points == pts && this.closed == closed && this.mode == mode
      ensures indexes == Indexes(|pts|)
      ensures mode == ROUTE_DYNAMIC ==>
        && normalRoutes == WithHome(Perms(Others(|pts|)), closed)
        && specialRoutes == WithHome(WithoutSelfLoops(SpecialBlocks(Others(|pts|), |Others(|pts|)|)), closed)
        && |distanceMatrix| == |pts|
        && (forall i, j :: 0 <= i < |pts| && 0 <= j < |pts| ==>
              |distanceMatrix[i]| == |pts| && distanceMatrix[i][j] == dist(pts[i], pts[j]))
      ensures mode == ROUTE_STATIC ==> specialRoutes == [] && distanceMatrix == [] && normalRoutes == possibleRoutes
      ensures possibleRoutes == Candidates(|pts|, closed, mode)
      ensures forall i :: 0 <= i < |possibleRoutes| ==> ValidRoute(|pts|, possibleRoutes[i])
      ensures |routeDistances| == |possibleRoutes| > 0
      ensures forall i :: 0 <= i < |possibleRoutes| ==> routeDistances[i] == RouteLength(pts, possibleRoutes[i], dist)
      ensures optRouteDistance == routeDistances[FirstMinIndex(routeDistances)]
      ensures optRoute == possibleRoutes[FirstMinIndex(routeDistances)]
    {
      var n := |pts|;
      var matrix: seq<seq<real>>;
      var normal: seq<seq<int>>;
      var special: seq<seq<int>>;
      var possible: seq<seq<int>>;
      if mode == ROUTE_DYNAMIC {
        matrix := CreateDistMatrix(pts, dist);
        normal := AddHomeToAll(Perms(Others(n)), closed);
        special := SpecialPerms(Others(n));
        special := RemoveAdjacent(special);
        special := AddHomeToAll(special, closed);
        possible := normal + special;
        PermsCount(Others(n));
      } else {
        normal := [Indexes(n) + (if closed then [0] else [])];
        matrix := [];
        special := [];
        possible := normal;
      }
      assert possible == Candidates(n, closed, mode);
      CandidatesValid(n, closed, mode);
      var distances := CalcDistances(pts, possible, dist);
      var optIdx := FirstMinIndex(distances);
      points, this.closed, this.mode, indexes := pts, closed, mode, Indexes(n);
      distanceMatrix, normalRoutes, specialRoutes, possibleRoutes := matrix, normal, special, possible;
      routeDistances, optRouteDistance, optRoute := distances, distances[optIdx], possible[optIdx];
    }

    /** `len(route)`: the number of points. */
    function Length(): (r: nat)
      ensures r == |points|
    {
      |points|
    }
  }

  /** The candidates of `r` are measured with `dist`, one distance each, and
      its optimal route is the first shortest of them (`__init__`, the end). */
  predicate MeasuredWith(r: Route, dist: (Point, Point) -> real) {
    && |r.routeDistances| == |r.possibleRoutes| > 0
    && (forall i :: 0 <= i < |r.possibleRoutes| ==>
          ValidRoute(|r.points|, r.possibleRoutes[i])
          && r.routeDistances[i] == RouteLength(r.points, r.possibleRoutes[i], dist))
    && r.optRoute == r.possibleRoutes[FirstMinIndex(r.routeDistances)]
    && r.optRouteDistance == r.routeDistances[FirstMinIndex(r.routeDistances)]
  }

  /** The optimal route of a measured route is one of its candidates, its
      distance is its own length, and no candidate is shorter. */
  lemma OptimalIsShortest(r: Route, dist: (Point, Point) -> real)
    requires MeasuredWith(r, dist)
    ensures r.optRoute in r.possibleRoutes && ValidRoute(|r.points|, r.optRoute)
    ensures r.optRouteDistance == RouteLength(r.points, r.optRoute, dist)
    ensures forall i :: 0 <= i < |r.possibleRoutes| ==> r.optRouteDistance <= RouteLength(r.points, r.possibleRoutes[i], dist)
  {
    var k := FirstMinIndex(r.routeDistances);
    assert r.optRoute == r.possibleRoutes[k];
  }

  /** `Route(points, closed, mode)`: `ValueError` for a point without exactly
      two coordinates; `AttributeError` for a mode other than "static" and
      "dynamic" (no candidate list is ever set); `IndexError` for a closed
      dynamic route over no points; otherwise the route. */
  method NewRoute(raw: seq<seq<real>>, closed: bool, mode: string, dist: (Point, Point) -> real)
    returns (r: Result<Route>)
    ensures r.Err? <==>
      (exists i :: 0 <= i < |raw| && |raw[i]| != 2)
      || (mode != ROUTE_STATIC && mode != ROUTE_DYNAMIC)
      || (mode == ROUTE_DYNAMIC && closed && |raw| == 0)
    ensures r.Err? && (exists i :: 0 <= i < |raw| && |raw[i]| != 2) ==> r.error == ValueError
    ensures r.Err? && (forall i :: 0 <= i < |raw| ==> |raw[i]| == 2) && mode != ROUTE_STATIC && mode != ROUTE_DYNAMIC
      ==> r.error == AttributeError
    ensures r.Err? && (forall i :: 0 <= i < |raw| ==> |raw[i]| == 2) && mode == ROUTE_DYNAMIC
      ==> r.error == IndexError
    ensures r.Ok? ==> fresh(r.value) && |r.value.points| == |raw| && r.value.closed == closed
    ensures r.Ok? ==> r.value.possibleRoutes == Candidates(|raw|, closed, mode)
    ensures r.Ok? ==> |r.value.routeDistances| == |r.value.possibleRoutes| > 0
    ensures r.Ok? ==> forall i :: 0 <= i < |r.value.possibleRoutes| ==>
      ValidRoute(|r.value.points|, r.value.possibleRoutes[i])
    ensures r.Ok? ==> forall i :: 0 <= i < |raw| ==> [r.value.points[i].lat, r.value.points[i].lon] == raw[i]
    ensures r.Ok? ==> forall i :: 0 <= i < |r.value.possibleRoutes| ==>
      r.value.routeDistances[i] == RouteLength(r.value.points, r.value.possibleRoutes[i], dist)
    ensures r.Ok? ==> MeasuredWith(r.value, dist)
    ensures r.Ok? ==> r.value.optRoute in r.value.possibleRoutes
    ensures r.Ok? ==> r.value.optRouteDistance == RouteLength(r.value.points, r.value.optRoute, dist)
    ensures r.Ok? ==> forall i :: 0 <= i < |r.value.possibleRoutes| ==>
      r.value.optRouteDistance <= RouteLength(r.value.points, r.value.possibleRoutes[i], dist)
  {
    var pts := VerifyPoints(raw);
    if pts.Err? {
      return Err(pts.error);
    }
    if mode != ROUTE_STATIC && mode != ROUTE_DYNAMIC {
      return Err(AttributeError);
    }
    if mode == ROUTE_DYNAMIC && closed && |pts.value| == 0 {
      return Err(IndexError);
    }
    var route := new Route(pts.value, closed, mode, dist);
    OptimalIsShortest(route, dist);
    return Ok(route);
  }
}
