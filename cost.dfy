/** Fuel costs of routes (data/router.py, class `ComplexRoute`): every
    candidate route is flown leg by leg, the tank is filled at home, each leg
    is paid at the fuel price of its destination, and the fuel left after the
    last leg is refunded; the cheapest route is then picked. */
module RouteCosts {
  import opened Wrappers
  import opened Router
  import opened Airports
  import opened AircraftData
  import opened FuelPrices

  /** Everything the simulation reads: the airports of the route, the
      aircraft's metric range, capacity and consumption rate, the fuel price
      table, and the distance between two points. */
  datatype Trip = Trip(airports: seq<Airport>, maxRange: real, capacity: real, rate: real,
                       prices: map<string, FuelObj>, dist: (Point, Point) -> real)

  /** A route's cost and its per-leg details. */
  datatype Priced = Priced(cost: real, details: seq<real>)

  /** The cheapest cost found so far and its details; -1 when none. */
  datatype Best = Best(cost: real, details: seq<real>)

  /** The cost table `__calcRouteCosts` returns. */
  datatype CostTable = CostTable(routeCosts: seq<real>, costDetails: seq<seq<real>>,
                                 minCost: real, minCostDetails: seq<real>)

  function PointOf(a: Airport): Point {
    Point(a.latitude, a.longitude)
  }

  /** `ComplexRoute.__calc_points`: the (latitude, longitude) pair of every
      airport, in order. */
  method CalcPoints(airports: seq<Airport>) returns (res: seq<seq<real>>)
    ensures |res| == |airports|
    ensures forall i :: 0 <= i < |airports| ==> res[i] == [airports[i].latitude, airports[i].longitude]
  {
    res := [];
    for i := 0 to |airports|
      invariant |res| == i
      invariant forall a :: 0 <= a < i ==> res[a] == [airports[a].latitude, airports[a].longitude]
    {
      res := res + [[airports[i].latitude, airports[i].longitude]];
    }
  }

  predicate Flyable(t: Trip, rt: seq<int>) {
    ValidRoute(|t.airports|, rt)
  }

  /** The length of leg `j` of `rt`, from `rt[j]` to `rt[j+1]`. */
  function LegDist(t: Trip, rt: seq<int>, j: nat): real
    requires Flyable(t, rt) && j + 1 < |rt|
  {
    t.dist(PointOf(t.airports[rt[j]]), PointOf(t.airports[rt[j + 1]]))
  }

  /** The country whose fuel price pays for leg `j`: its destination's. */
  function DestIso(t: Trip, rt: seq<int>, j: nat): string
    requires Flyable(t, rt) && j + 1 < |rt|
  {
    t.airports[rt[j + 1]].isoCountry
  }

  /** Leg `j` can be flown and paid: no longer than the range, and its
      destination country has a price. */
  predicate LegOk(t: Trip, rt: seq<int>, j: nat)
    requires Flyable(t, rt) && j + 1 < |rt|
  {
    LegDist(t, rt, j) <= t.maxRange && DestIso(t, rt, j) in t.prices
  }

  /** The fuel leg `j` burns: the consumption rate times its length. */
  function LegFuel(t: Trip, rt: seq<int>, j: nat): real
    requires Flyable(t, rt) && j + 1 < |rt|
  {
    t.rate * LegDist(t, rt, j)
  }

  /** The price of leg `j`: the fuel it burns times the destination's price. */
  function LegCost(t: Trip, rt: seq<int>, j: nat): real
    requires Flyable(t, rt) && j + 1 < |rt| && DestIso(t, rt, j) in t.prices
  {
    LegFuel(t, rt, j) * t.prices[DestIso(t, rt, j)].price
  }

  /** Leg `k` is the first leg that cannot be flown or paid. */
  predicate FirstBadLeg(t: Trip, rt: seq<int>, k: nat)
    requires Flyable(t, rt) && k + 1 < |rt|
  {
    !LegOk(t, rt, k) && forall i :: 0 <= i < k ==> LegOk(t, rt, i)
  }

  /** How the walk over the legs stands. */
  datatype Walk = Completed(details: seq<real>) | OutOfRange | Missing(iso: string)

  /** The walk after the first `j` legs: the details so far, or the leg
      that ended it (too long, or no price for its destination). */
  function WalkLegs(t: Trip, rt: seq<int>, j: nat): Walk
    requires Flyable(t, rt) && j < |rt|
  {
    if j == 0 then Completed([])
    else match WalkLegs(t, rt, j - 1)
      case Completed(ds) =>
        if LegDist(t, rt, j - 1) > t.maxRange then OutOfRange
        else if DestIso(t, rt, j - 1) !in t.prices then Missing(DestIso(t, rt, j - 1))
        else Completed(ds + [LegCost(t, rt, j - 1)])
      case w => w
  }

  /** A walk that has ended stays ended. */
  lemma {:induction false} WalkEnded(t: Trip, rt: seq<int>, j: nat, k: nat)
    requires Flyable(t, rt) && j <= k < |rt|
    requires !WalkLegs(t, rt, j).Completed?
    ensures WalkLegs(t, rt, k) == WalkLegs(t, rt, j)
    decreases k - j
  {
    if j < k {
      WalkEnded(t, rt, j, k - 1);
    }
  }

  /** The walk over `j` legs completes exactly when each of those legs can
      be flown and paid. */
  lemma {:induction false} WalkLegsCompletes(t: Trip, rt: seq<int>, j: nat)
    requires Flyable(t, rt) && j < |rt|
    ensures WalkLegs(t, rt, j).Completed? <==> forall k :: 0 <= k < j ==> LegOk(t, rt, k)
  {
    if j > 0 {
      WalkLegsCompletes(t, rt, j - 1);
      if !WalkLegs(t, rt, j - 1).Completed? {
        assert WalkLegs(t, rt, j) == WalkLegs(t, rt, j - 1);
        var k :| 0 <= k < j - 1 && !LegOk(t, rt, k);
      } else if LegOk(t, rt, j - 1) {
        assert WalkLegs(t, rt, j).Completed?;
        forall k | 0 <= k < j
          ensures LegOk(t, rt, k)
        {
        }
      } else {
        assert !WalkLegs(t, rt, j).Completed?;
      }
    }
  }

  /** A completed walk over `j` legs holds one detail per leg, that leg's
      cost. */
  lemma {:induction false} WalkLegsDetails(t: Trip, rt: seq<int>, j: nat)
    requires Flyable(t, rt) && j < |rt| && WalkLegs(t, rt, j).Completed?
    ensures |WalkLegs(t, rt, j).details| == j
    ensures forall k :: 0 <= k < j ==> LegOk(t, rt, k) && WalkLegs(t, rt, j).details[k] == LegCost(t, rt, k)
  {
    if j > 0 {
      var prev := WalkLegs(t, rt, j - 1);
      assert prev.Completed? && LegOk(t, rt, j - 1);
      WalkLegsDetails(t, rt, j - 1);
      var ds := prev.details + [LegCost(t, rt, j - 1)];
      assert WalkLegs(t, rt, j) == Completed(ds);
      forall k | 0 <= k < j
        ensures LegOk(t, rt, k) && ds[k] == LegCost(t, rt, k)
      {
        if k < j - 1 {
          assert LegOk(t, rt, k);
          assert ds[k] == prev.details[k];
        }
      }
    }
  }

  /** Some leg among the first `j` that cannot be flown or paid means there
      is a first such leg. */
  lemma {:induction false} FirstBadLegExists(t: Trip, rt: seq<int>, j: nat)
    requires Flyable(t, rt) && j < |rt|
    requires exists k :: 0 <= k < j && !LegOk(t, rt, k)
    ensures exists k :: 0 <= k < j && FirstBadLeg(t, rt, k)
  {
    if exists k :: 0 <= k < j - 1 && !LegOk(t, rt, k) {
      FirstBadLegExists(t, rt, j - 1);
      var k :| 0 <= k < j - 1 && FirstBadLeg(t, rt, k);
    } else {
      assert FirstBadLeg(t, rt, j - 1);
    }
  }

  /** A walk that reaches the first bad leg `k` stops there: out of range
      when that leg is too long, and on the missing price of its destination
      otherwise. */
  lemma {:induction false} WalkLegsStopsAt(t: Trip, rt: seq<int>, j: nat, k: nat)
    requires Flyable(t, rt) && k < j < |rt|
    requires FirstBadLeg(t, rt, k)
    ensures WalkLegs(t, rt, j) == if LegDist(t, rt, k) > t.maxRange then OutOfRange else Missing(DestIso(t, rt, k))
  {
    if k < j - 1 {
      WalkLegsStopsAt(t, rt, j - 1, k);
    } else {
      WalkLegsCompletes(t, rt, k);
      assert WalkLegs(t, rt, k).Completed?;
    }
  }

  /** The sum of a list of reals, added left to right. */
  function Sum(ds: seq<real>): real
    decreases |ds|
  {
    if ds == [] then 0.0 else Sum(ds[..|ds| - 1]) + ds[|ds| - 1]
  }

  function HomeIso(t: Trip, rt: seq<int>): string
    requires Flyable(t, rt) && |rt| >= 2
  {
    t.airports[rt[0]].isoCountry
  }

  /** The cost of one route. A route without legs costs 0. The home country
      must have a price (`KeyError` otherwise), and so must the destination
      of every leg up to the first leg longer than the range. A route with
      such a leg costs 0, with details `[0]`. Otherwise the cost is a full
      tank at the home price plus every leg, and when that is positive the
      fuel left after the last leg is refunded at the last destination's
      price. */
  function RouteCost(t: Trip, rt: seq<int>): Result<Priced>
    requires Flyable(t, rt)
  {
    if |rt| < 2 then Ok(Priced(0.0, []))
    else if HomeIso(t, rt) !in t.prices then Err(KeyError(HomeIso(t, rt)))
    else match WalkLegs(t, rt, |rt| - 1)
      case OutOfRange => Ok(Priced(0.0, [0.0]))
      case Missing(iso) => Err(KeyError(iso))
      case Completed(ds) => Ok(Settle(t, rt, ds))
  }

  /** The cost of a completed walk with details `ds`: a full tank at the
      home price plus every leg; when that is positive, less the fuel left
      after the last leg at the last destination's price. */
  function Settle(t: Trip, rt: seq<int>, ds: seq<real>): Priced
    requires Flyable(t, rt) && |rt| >= 2
    requires HomeIso(t, rt) in t.prices && DestIso(t, rt, |rt| - 2) in t.prices
  {
    var c := t.prices[HomeIso(t, rt)].price * t.capacity + Sum(ds);
    if c > 0.0 then
      var remaining := t.capacity - LegFuel(t, rt, |rt| - 2);
      Priced(c - remaining * t.prices[DestIso(t, rt, |rt| - 2)].price, ds)
    else Priced(c, ds)
  }

  /** A route with a leg longer than the range, every earlier leg flown and
      paid, costs 0 with details `[0]`, whatever follows that leg. */
  lemma RouteCostOutOfRange(t: Trip, rt: seq<int>, k: nat)
    requires Flyable(t, rt) && k + 1 < |rt|
    requires HomeIso(t, rt) in t.prices
    requires FirstBadLeg(t, rt, k) && LegDist(t, rt, k) > t.maxRange
    ensures RouteCost(t, rt) == Ok(Priced(0.0, [0.0]))
  {
    WalkLegsStopsAt(t, rt, |rt| - 1, k);
  }

  /** A route whose every leg can be flown and paid is priced, with one
      detail per leg: the fuel the leg burns times its destination's price. */
  lemma RouteCostFeasible(t: Trip, rt: seq<int>)
    requires Flyable(t, rt) && |rt| >= 2
    requires HomeIso(t, rt) in t.prices
    requires forall k :: 0 <= k < |rt| - 1 ==> LegOk(t, rt, k)
    ensures RouteCost(t, rt).Ok?
    ensures |RouteCost(t, rt).value.details| == |rt| - 1
    ensures forall k :: 0 <= k < |rt| - 1 ==> LegOk(t, rt, k) && RouteCost(t, rt).value.details[k] == LegCost(t, rt, k)
  {
    WalkLegsCompletes(t, rt, |rt| - 1);
    WalkLegsDetails(t, rt, |rt| - 1);
    var ds := WalkLegs(t, rt, |rt| - 1).details;
    assert WalkLegs(t, rt, |rt| - 1) == Completed(ds);
  }

  /** The cost of such a route is the home tank plus its legs, less the fuel
      left after the last leg at the last destination's price when that total
      is positive. */
  lemma RouteCostFeasibleTotal(t: Trip, rt: seq<int>)
    requires Flyable(t, rt) && |rt| >= 2
    requires HomeIso(t, rt) in t.prices
    requires forall k :: 0 <= k < |rt| - 1 ==> LegOk(t, rt, k)
    ensures RouteCost(t, rt).Ok? && LegOk(t, rt, |rt| - 2)
    ensures var c := t.prices[HomeIso(t, rt)].price * t.capacity + Sum(RouteCost(t, rt).value.details);
      RouteCost(t, rt).value.cost
        == if c > 0.0
           then c - (t.capacity - LegFuel(t, rt, |rt| - 2)) * t.prices[DestIso(t, rt, |rt| - 2)].price
           else c
  {
    WalkLegsCompletes(t, rt, |rt| - 1);
    var ds := WalkLegs(t, rt, |rt| - 1).details;
    RouteCostCompleted(t, rt, ds);
  }

  /** The simulation of a route fails exactly when the home country has no
      price, or the first bad leg is within range but its destination has no
      price; the `KeyError` names that country. */
  lemma RouteCostFails(t: Trip, rt: seq<int>)
    requires Flyable(t, rt)
    ensures RouteCost(t, rt).Err? <==>
      |rt| >= 2 && (HomeIso(t, rt) !in t.prices
                    || exists k :: 0 <= k < |rt| - 1 && FirstBadLeg(t, rt, k) && LegDist(t, rt, k) <= t.maxRange)
    ensures |rt| >= 2 && HomeIso(t, rt) !in t.prices ==> RouteCost(t, rt) == Err(KeyError(HomeIso(t, rt)))
    ensures forall k ::
              (|rt| >= 2 && HomeIso(t, rt) in t.prices && 0 <= k < |rt| - 1
               && FirstBadLeg(t, rt, k) && LegDist(t, rt, k) <= t.maxRange)
              ==> RouteCost(t, rt) == Err(KeyError(DestIso(t, rt, k)))
  {
    if |rt| >= 2 && HomeIso(t, rt) in t.prices {
      var n := |rt| - 1;
      WalkLegsCompletes(t, rt, n);
      if exists k :: 0 <= k < n && !LegOk(t, rt, k) {
        FirstBadLegExists(t, rt, n);
        var k0 :| 0 <= k0 < n && FirstBadLeg(t, rt, k0);
        WalkLegsStopsAt(t, rt, n, k0);
        forall k | 0 <= k < n && FirstBadLeg(t, rt, k)
          ensures k == k0
        {
        }
      } else {
        assert WalkLegs(t, rt, n).Completed?;
        forall k | 0 <= k < n
          ensures !FirstBadLeg(t, rt, k)
        {
        }
      }
    }
  }

  /** One more leg of a walk that has not stopped. */
  lemma WalkStep(t: Trip, rt: seq<int>, j: nat, ds: seq<real>)
    requires Flyable(t, rt) && j + 1 < |rt| && WalkLegs(t, rt, j) == Completed(ds)
    ensures LegDist(t, rt, j) > t.maxRange ==> WalkLegs(t, rt, j + 1) == OutOfRange
    ensures LegDist(t, rt, j) <= t.maxRange && DestIso(t, rt, j) !in t.prices ==>
      WalkLegs(t, rt, j + 1) == Missing(DestIso(t, rt, j))
    ensures LegOk(t, rt, j) ==> WalkLegs(t, rt, j + 1) == Completed(ds + [LegCost(t, rt, j)])
  {
  }

  /** Adding a detail adds it to the sum. */
  lemma SumAppend(ds: seq<real>, x: real)
    ensures Sum(ds + [x]) == Sum(ds) + x
  {
    assert (ds + [x])[..|ds|] == ds;
  }

  /** A walk over all the legs that completes settles the route's cost. */
  lemma RouteCostCompleted(t: Trip, rt: seq<int>, ds: seq<real>)
    requires Flyable(t, rt) && |rt| >= 2 && HomeIso(t, rt) in t.prices
    requires WalkLegs(t, rt, |rt| - 1) == Completed(ds)
    ensures LegOk(t, rt, |rt| - 2)
    ensures RouteCost(t, rt) == Ok(Settle(t, rt, ds))
  {
    WalkLegsCompletes(t, rt, |rt| - 1);
  }

  /** What flying one leg gives: the fuel it burns and what it costs, or the
      reason the route stops there. */
  datatype Leg = Flown(fuel: real, cost: real) | TooFar | Unpriced(iso: string)

  /** The body of the leg loop in `__calcRouteCosts` for leg `j`: measure
      it, stop if it is longer than the range, burn `rate` per kilometre and
      pay at the destination's price (a `KeyError` when there is none). */
  method FlyLeg(t: Trip, rt: seq<int>, j: nat) returns (leg: Leg)
    requires Flyable(t, rt) && j + 1 < |rt|
    ensures leg.TooFar? <==> LegDist(t, rt, j) > t.maxRange
    ensures leg.Unpriced? <==> LegDist(t, rt, j) <= t.maxRange && DestIso(t, rt, j) !in t.prices
    ensures leg.Unpriced? ==> leg.iso == DestIso(t, rt, j)
    ensures leg.Flown? ==> LegOk(t, rt, j) && leg.fuel == LegFuel(t, rt, j) && leg.cost == LegCost(t, rt, j)
  {
    var d := t.dist(PointOf(t.airports[rt[j]]), PointOf(t.airports[rt[j + 1]]));
    if d > t.maxRange {
      return TooFar;
    }
    var fuelConsumed := t.rate * d;
    var dest := Find(t.prices, t.airports[rt[j + 1]].isoCountry);
    if dest.Err? {
      return Unpriced(t.airports[rt[j + 1]].isoCountry);
    }
    return Flown(fuelConsumed, fuelConsumed * dest.value.price);
  }

  /** The loop over the legs of one route in `__calcRouteCosts`, with the
      home tank already paid: it stops at a leg longer than the range, or at
      a destination without a price, and otherwise adds each leg's cost. On
      completion it also leaves the fuel burnt on the last leg and the last
      destination's country, which the refund uses. */
  method FlyLegs(t: Trip, rt: seq<int>, tank: real) returns (w: Walk, cost: real, fuelConsumed: real, lastIso: string)
    requires Flyable(t, rt) && |rt| >= 2
    ensures w == WalkLegs(t, rt, |rt| - 1)
    ensures w.Completed? ==> cost == tank + Sum(w.details)
    ensures w.Completed? ==> fuelConsumed == LegFuel(t, rt, |rt| - 2) && lastIso == DestIso(t, rt, |rt| - 2)
  {
    cost := tank;
    var pathDetails: seq<real> := [];
    fuelConsumed, lastIso := 0.0, "";
    var j := 0;
    while j < |rt| - 1
      invariant 0 <= j <= |rt| - 1
      invariant WalkLegs(t, rt, j) == Completed(pathDetails)
      invariant cost == tank + Sum(pathDetails)
      invariant j > 0 ==> fuelConsumed == LegFuel(t, rt, j - 1) && lastIso == DestIso(t, rt, j - 1)
    {
      WalkStep(t, rt, j, pathDetails);
      var leg := FlyLeg(t, rt, j);
      match leg {
        case TooFar =>
          WalkEnded(t, rt, j + 1, |rt| - 1);
          return OutOfRange, 0.0, fuelConsumed, lastIso;
        case Unpriced(iso) =>
          WalkEnded(t, rt, j + 1, |rt| - 1);
          return Missing(iso), cost, fuelConsumed, lastIso;
        case Flown(fuel, legCost) =>
          fuelConsumed := fuel;
          SumAppend(pathDetails, legCost);
          pathDetails := pathDetails + [legCost];
          cost := cost + legCost;
          lastIso := DestIso(t, rt, j);
      }
      j := j + 1;
    }
    return Completed(pathDetails), cost, fuelConsumed, lastIso;
  }

  /** One route of `__calcRouteCosts`. The home price is looked up at the
      first leg, before its length is checked; a route without legs never
      enters the loop. A route with a leg out of range costs 0 with details
      `[0]`; a completed route with a positive cost is refunded the fuel
      left, at the last destination's price. */
  method SimulateRoute(t: Trip, rt: seq<int>) returns (r: Result<Priced>)
    requires Flyable(t, rt)
    ensures r == RouteCost(t, rt)
  {
    if |rt| < 2 {
      return Ok(Priced(0.0, []));
    }
    var home := Find(t.prices, t.airports[rt[0]].isoCountry);
    if home.Err? {
      return Err(home.error);
    }
    var w, cost, fuelConsumed, lastIso := FlyLegs(t, rt, home.value.price * t.capacity);
    match w {
      case OutOfRange =>
        return Ok(Priced(0.0, [0.0]));
      case Missing(iso) =>
        return Err(KeyError(iso));
      case Completed(pathDetails) =>
        RouteCostCompleted(t, rt, pathDetails);
        if cost > 0.0 {
          var remainingFuel := t.capacity - fuelConsumed;
          var remainingPrice := remainingFuel * t.prices[lastIso].price;
          cost := cost - remainingPrice;
        }
        assert Settle(t, rt, pathDetails) == Priced(cost, pathDetails);
        return Ok(Priced(cost, pathDetails));
    }
  }

  /** The running minimum of `__calcRouteCosts` over the first routes: the
      first positive cost, then any positive cost strictly below the one
      held; -1 with no details while no cost is positive. */
  function Cheapest(costs: seq<real>, details: seq<seq<real>>): Best
    requires |costs| == |details|
    decreases |costs|
  {
    if costs == [] then Best(-1.0, [])
    else
      var best := Cheapest(costs[..|costs| - 1], details[..|details| - 1]);
      var c := costs[|costs| - 1];
      if best.cost == -1.0 && c > 0.0 then Best(c, details[|details| - 1])
      else if c > 0.0 && c < best.cost then Best(c, details[|details| - 1])
      else best
  }

  /** Where the running minimum was taken: the first position of the
      smallest positive cost, or -1 when no cost is positive. */
  function CheapestIndex(costs: seq<real>): (k: int)
    ensures -1 <= k < |costs|
    ensures k == -1 <==> forall i :: 0 <= i < |costs| ==> costs[i] <= 0.0
    ensures k >= 0 ==> costs[k] > 0.0
    ensures k >= 0 ==> forall i :: 0 <= i < |costs| && costs[i] > 0.0 ==> costs[k] <= costs[i]
    ensures k >= 0 ==> forall i :: 0 <= i < k && costs[i] > 0.0 ==> costs[i] > costs[k]
    decreases |costs|
  {
    if costs == [] then -1
    else
      var k := CheapestIndex(costs[..|costs| - 1]);
      var c := costs[|costs| - 1];
      if k == -1 && c > 0.0 then |costs| - 1
      else if c > 0.0 && c < costs[k] then |costs| - 1
      else k
  }

  /** The running minimum holds the cost and the details of the route at
      `CheapestIndex`, and -1 with no details when there is none. */
  lemma {:induction false} CheapestIsAtIndex(costs: seq<real>, details: seq<seq<real>>)
    requires |costs| == |details|
    ensures CheapestIndex(costs) == -1 ==> Cheapest(costs, details) == Best(-1.0, [])
    ensures CheapestIndex(costs) >= 0 ==>
      Cheapest(costs, details) == Best(costs[CheapestIndex(costs)], details[CheapestIndex(costs)])
    decreases |costs|
  {
    if costs != [] {
      var ic := costs[..|costs| - 1];
      var id := details[..|details| - 1];
      CheapestIsAtIndex(ic, id);
      var k := CheapestIndex(ic);
      if k >= 0 {
        assert costs[k] == ic[k] && details[k] == id[k];
      }
    }
  }

  /** Route `i` is the first of `routes` whose pricing fails, with error
      `e`: every route before it is priced. */
  predicate FirstFailure(t: Trip, routes: seq<seq<int>>, e: Error) {
    exists i :: 0 <= i < |routes| && Flyable(t, routes[i]) && RouteCost(t, routes[i]) == Err(e)
      && forall a :: 0 <= a < i ==> Flyable(t, routes[a]) && RouteCost(t, routes[a]).Ok?
  }

  /** `ComplexRoute.__calcRouteCosts`: the cost and details of every route,
      in order, and the running minimum; the first route whose simulation
      raises `KeyError` stops it. */
  method CalcRouteCosts(t: Trip, routes: seq<seq<int>>) returns (r: Result<CostTable>)
    requires forall i :: 0 <= i < |routes| ==> Flyable(t, routes[i])
    ensures r.Err? <==> exists i :: 0 <= i < |routes| && RouteCost(t, routes[i]).Err?
    ensures r.Err? ==> FirstFailure(t, routes, r.error)
    ensures r.Ok? ==> |r.value.routeCosts| == |r.value.costDetails| == |routes|
    ensures r.Ok? ==> forall i :: 0 <= i < |routes| ==>
      RouteCost(t, routes[i]) == Ok(Priced(r.value.routeCosts[i], r.value.costDetails[i]))
    ensures r.Ok? ==> Best(r.value.minCost, r.value.minCostDetails) == Cheapest(r.value.routeCosts, r.value.costDetails)
  {
    var routeCosts: seq<real> := [];
    var costDetails: seq<seq<real>> := [];
    var minCost := -1.0;
    var minCostDetails: seq<real> := [];
    for i := 0 to |routes|
      invariant |routeCosts| == |costDetails| == i
      invariant forall a :: 0 <= a < i ==> RouteCost(t, routes[a]) == Ok(Priced(routeCosts[a], costDetails[a]))
      invariant Best(minCost, minCostDetails) == Cheapest(routeCosts, costDetails)
    {
      var priced := SimulateRoute(t, routes[i]);
      if priced.Err? {
        return Err(priced.error);
      }
      var cost := priced.value.cost;
      var pathDetails := priced.value.details;
      assert (routeCosts + [cost])[..i] == routeCosts;
      assert (costDetails + [pathDetails])[..i] == costDetails;
      routeCosts := routeCosts + [cost];
      costDetails := costDetails + [pathDetails];
      if minCost == -1.0 && cost > 0.0 {
        minCost := cost;
        minCostDetails := pathDetails;
      } else if cost > 0.0 {
        if cost < minCost {
          minCost := cost;
          minCostDetails := pathDetails;
        }
      }
    }
    return Ok(CostTable(routeCosts, costDetails, minCost, minCostDetails));
  }

  /** `eco_route` as `ComplexRoute.__init__` computes it: when some cost is
      positive, the route at the first position of the smallest cost of all,
      infeasible routes' zeros included; `[]` otherwise. */
  function EcoRouteAsWritten(routes: seq<seq<int>>, costs: seq<real>, ecoCost: real): (e: seq<int>)
    requires |routes| == |costs| > 0
    ensures ecoCost > -1.0 ==> e in routes
    ensures ecoCost <= -1.0 ==> e == []
  {
    if ecoCost > -1.0 then routes[FirstMinIndex(costs)] else []
  }

  /** `eco_route` as intended: the route whose cost is `eco_route_cost`, the
      first cheapest route of positive cost; `[]` when no cost is positive. */
  function EcoRouteIntended(routes: seq<seq<int>>, costs: seq<real>): (e: seq<int>)
    requires |routes| == |costs|
    ensures CheapestIndex(costs) >= 0 ==> e == routes[CheapestIndex(costs)]
    ensures CheapestIndex(costs) == -1 ==> e == []
  {
    var k := CheapestIndex(costs);
    if k >= 0 then routes[k] else []
  }

  /** The intended cheapest route is the one the running minimum was taken
      from: its cost and details are `eco_route_cost` and
      `eco_route_details`. */
  lemma EcoRouteIntendedMatchesCost(routes: seq<seq<int>>, costs: seq<real>, details: seq<seq<real>>)
    requires |routes| == |costs| == |details|
    ensures Cheapest(costs, details).cost == -1.0 <==> forall i :: 0 <= i < |costs| ==> costs[i] <= 0.0
    ensures Cheapest(costs, details).cost == -1.0 ==> EcoRouteIntended(routes, costs) == []
    ensures Cheapest(costs, details).cost != -1.0 ==>
      exists k :: 0 <= k < |routes| && EcoRouteIntended(routes, costs) == routes[k]
        && Cheapest(costs, details) == Best(costs[k], details[k]) && costs[k] > 0.0
  {
    CheapestIsAtIndex(costs, details);
    var k := CheapestIndex(costs);
    if k >= 0 {
      assert Cheapest(costs, details).cost == costs[k] > 0.0;
    }
  }

  /** With one infeasible route (cost 0) before a feasible one (cost 5),
      `eco_route` as written is the infeasible route, while the cost it is
      reported with is that of the feasible route. */
  lemma EcoRoutePicksInfeasible()
    ensures var routes := [[0, 1, 0], [0, 2, 0]];
      var costs := [0.0, 5.0];
      var details := [[0.0], [2.0, 3.0]];
      && Cheapest(costs, details) == Best(5.0, [2.0, 3.0])
      && EcoRouteAsWritten(routes, costs, 5.0) == [0, 1, 0]
      && EcoRouteIntended(routes, costs) == [0, 2, 0]
  {
    var costs := [0.0, 5.0];
    assert costs[..1] == [0.0];
    assert FirstMinIndex([0.0]) == 0;
    assert FirstMinIndex(costs) == 0;
    assert CheapestIndex(costs) == 1;
  }

  /** When every route can be flown (every cost positive), the route of the
      smallest cost of all is the route `eco_route_cost` was taken from: the
      defect needs an infeasible route. */
  lemma EcoRoutesAgree(routes: seq<seq<int>>, costs: seq<real>, details: seq<seq<real>>)
    requires |routes| == |costs| == |details| > 0
    requires forall i :: 0 <= i < |costs| ==> costs[i] > 0.0
    ensures EcoRouteAsWritten(routes, costs, Cheapest(costs, details).cost) == EcoRouteIntended(routes, costs)
  {
    CheapestIsAtIndex(costs, details);
    assert CheapestIndex(costs) >= 0 by {
      assert costs[0] > 0.0;
    }
    assert FirstMinIndex(costs) == CheapestIndex(costs);
  }

  /** `ComplexRoute`: a closed `Route` over the airports, extended with the
      cost of every candidate and the economic route. As in the program, the
      economic route is the route of the smallest cost of all
      (`EcoRouteAsWritten`), which can differ from the route `eco_route_cost`
      was taken from (`EcoRouteIntended`). */
  class ComplexRoute {
    const route: Route
    const airports: seq<Airport>
    const aircraft: Aircraft
    const fuelmap: FuelMap
    const routeCosts: seq<real>
    const costDetails: seq<seq<real>>
    const ecoRouteCost: real
    const ecoRouteDetails: seq<real>
    const ecoRoute: seq<int>
    /** What the pricing read: the aircraft's figures and the fuel table as
        they were when the route was built. */
    const trip: Trip

    constructor (route: Route, airports: seq<Airport>, aircraft: Aircraft, fuelmap: FuelMap, trip: Trip, table: CostTable)
      requires |route.possibleRoutes| == |table.routeCosts| > 0
      ensures this.route == route && this.airports == airports && this.trip == trip
      ensures this.aircraft == aircraft && this.fuelmap == fuelmap
      ensures routeCosts == table.routeCosts && costDetails == table.costDetails
      ensures ecoRouteCost == table.minCost && ecoRouteDetails == table.minCostDetails
      ensures ecoRoute == EcoRouteAsWritten(route.possibleRoutes, table.routeCosts, table.minCost)
    {
      this.route, this.airports, this.aircraft, this.fuelmap, this.trip := route, airports, aircraft, fuelmap, trip;
      routeCosts, costDetails := table.routeCosts, table.costDetails;
      ecoRouteCost, ecoRouteDetails := table.minCost, table.minCostDetails;
      ecoRoute := EcoRouteAsWritten(route.possibleRoutes, table.routeCosts, table.minCost);
    }

    /** Every candidate is priced under `trip`, in order; the cheapest
        positive cost is the running minimum; the economic route is the one
        `__init__` locates. */
    predicate Valid() {
      && |routeCosts| == |costDetails| == |route.possibleRoutes| > 0
      && (forall i :: 0 <= i < |route.possibleRoutes| ==>
            Flyable(trip, route.possibleRoutes[i])
            && RouteCost(trip, route.possibleRoutes[i]) == Ok(Priced(routeCosts[i], costDetails[i])))
      && Best(ecoRouteCost, ecoRouteDetails) == Cheapest(routeCosts, costDetails)
      && ecoRoute == EcoRouteAsWritten(route.possibleRoutes, routeCosts, ecoRouteCost)
    }

    /** The economic route is `[]` exactly when no route can be flown.
        Otherwise it is the route of the smallest cost of all, while
        `eco_route_cost` and `eco_route_details` are those of a route with
        a positive cost; the two routes agree when every route can be flown. */
    lemma EcoRouteFacts()
      requires Valid()
      ensures ecoRouteCost == -1.0 <==> forall i :: 0 <= i < |routeCosts| ==> routeCosts[i] <= 0.0
      ensures ecoRouteCost == -1.0 ==> ecoRoute == []
      ensures ecoRouteCost != -1.0 ==> ecoRoute == route.possibleRoutes[FirstMinIndex(routeCosts)]
      ensures ecoRouteCost != -1.0 ==>
        exists k :: 0 <= k < |routeCosts| && routeCosts[k] == ecoRouteCost > 0.0 && costDetails[k] == ecoRouteDetails
      ensures (forall i :: 0 <= i < |routeCosts| ==> routeCosts[i] > 0.0) ==>
        ecoRoute == EcoRouteIntended(route.possibleRoutes, routeCosts)
    {
      EcoRouteIntendedMatchesCost(route.possibleRoutes, routeCosts, costDetails);
      if forall i :: 0 <= i < |routeCosts| ==> routeCosts[i] > 0.0 {
        EcoRoutesAgree(route.possibleRoutes, routeCosts, costDetails);
      }
    }
  }

  /** The simulation context `ComplexRoute` reads: the aircraft's metric
      figures and the fuel table as they are now. */
  function TripOf(airports: seq<Airport>, aircraft: Aircraft, fuel: FuelMap, dist: (Point, Point) -> real): Trip
    reads aircraft, fuel
  {
    Trip(airports, aircraft.MaxRange(), aircraft.FuelCapacity(), aircraft.consumptionRate, fuel.entries, dist)
  }

  /** `ComplexRoute(airports, aircraft, fuelmap, mode)`: a closed route over
      the airports' coordinates, in either mode, whose candidates are then
      all priced. It fails as `Route` does (`AttributeError` for an unknown
      mode, `IndexError` for no airports in dynamic mode), or with the
      `KeyError` of the first route that has a country without a price. */
  method NewComplexRoute(airports: seq<Airport>, aircraft: Aircraft, fuel: FuelMap, mode: string,
                         dist: (Point, Point) -> real)
    returns (r: Result<ComplexRoute>)
    ensures (mode != ROUTE_STATIC && mode != ROUTE_DYNAMIC) ==> r == Err(AttributeError)
    ensures mode == ROUTE_DYNAMIC && |airports| == 0 ==> r == Err(IndexError)
    ensures r.Err? && (mode == ROUTE_STATIC || (mode == ROUTE_DYNAMIC && |airports| > 0)) ==>
      FirstFailure(TripOf(airports, aircraft, fuel, dist), Candidates(|airports|, true, mode), r.error)
    ensures r.Ok? ==> fresh(r.value) && r.value.airports == airports
    ensures r.Ok? ==> r.value.aircraft == aircraft && r.value.fuelmap == fuel
    ensures r.Ok? ==> |r.value.route.points| == |airports|
    ensures r.Ok? ==> forall i :: 0 <= i < |airports| ==> r.value.route.points[i] == PointOf(airports[i])
    ensures r.Ok? ==> r.value.trip == TripOf(airports, aircraft, fuel, dist)
    ensures r.Ok? ==> r.value.route.closed && r.value.route.possibleRoutes == Candidates(|airports|, true, mode)
    ensures r.Ok? ==> MeasuredWith(r.value.route, dist)
    ensures r.Ok? ==> r.value.Valid()
    ensures r.Ok? && r.value.ecoRouteCost == -1.0 ==> r.value.ecoRoute == []
    ensures r.Ok? && r.value.ecoRouteCost != -1.0 ==>
      r.value.ecoRoute == r.value.route.possibleRoutes[FirstMinIndex(r.value.routeCosts)]
  {
    var points := CalcPoints(airports);
    var route := NewRoute(points, true, mode, dist);
    if route.Err? {
      return Err(route.error);
    }
    var rt := route.value;
    forall i | 0 <= i < |airports|
      ensures rt.points[i] == PointOf(airports[i])
    {
      assert [rt.points[i].lat, rt.points[i].lon] == points[i];
    }
    var trip := TripOf(airports, aircraft, fuel, dist);
    var table := CalcRouteCosts(trip, rt.possibleRoutes);
    if table.Err? {
      return Err(table.error);
    }
    var complex := new ComplexRoute(rt, airports, aircraft, fuel, trip, table.value);
    complex.EcoRouteFacts();
    return Ok(complex);
  }
}
