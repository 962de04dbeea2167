# py-airline core in Dafny

This project models the data layer and the route planner of py-airline. The program reads tables of airports, aircraft, currencies and fuel prices. It enumerates every candidate route through a list of airports, measures each one, and prices each one for a given aircraft and fuel price table. It then keeps the results in a record store keyed by travel week.

Modules, one per source file plus three helpers:

- `Router` (data/router.py, `Route`): checks the points and builds the candidate routes in static or dynamic mode. It measures every route with a distance function given as a parameter, and picks the shortest route.
- `Permutations` (data/router.py, the static helpers): `permutations` and `specialPerms` as prefix-recursive sequence functions, `removeAdjacent` as a loop, and `__addHome` as an in-place update of an array of routes.
- `RouteCosts` (data/router.py, `ComplexRoute`): simulates each route's fuel cost leg by leg, keeps a running minimum of the positive costs, and picks the economic route.
- `AircraftData`, `Airports`, `CurrencyData`, `FuelPrices` (data/aircraft.py, data/airport.py, data/currency.py, data/fuelprice.py): the records, their write-once setters and their registries, each filled row by row from rows that have already been read.
- `Storage` (data/data_storage.py): the header list, `map_data`, the row mapping of `__read_data`, `add`, and the airports join of `save`.
- `Registry`: the dictionary that a "store each row under its key" loop leaves behind.
- `Text`: the ASCII subset of `str.split()`, `' '.join`, `upper()` and `lower()` that the code uses.
- `Wrappers`: `Option`, `Result`, `Outcome`, and the Python exceptions that the modelled code raises.

Modelling choices:

- A raised exception is an `Err` or `Fail` value naming the exception.
- Python floats are exact reals.
- Great-circle distance is the parameter `dist`.
- Rows from CSV files are values whose numeric columns have already been converted.
- `__calcRouteCosts` adds the home tank inside its leg loop, at the first leg and before that leg is measured. The model pays it just before the loop, so the lookups, and the errors they raise, come in the same order.

## Model

| member | source | states |
|---|---|---|
| Router.VerifyPoints | data/router.py:111-124 | `ValueError` exactly when some point does not have two coordinates. Otherwise the points are returned in order, with their coordinates unchanged. |
| Router.CreateDistMatrix | data/router.py:126-137 | An n×n matrix whose entry (i, j) is the distance from point i to point j. |
| Router.MapPoints | data/router.py:139-149 | `IndexError` exactly when some index lies outside -n..n-1. Otherwise each index is mapped to its point, with negative indices counting from the end. Mapping `0..n-1` gives back the points. |
| Router.CandidatesValid | data/router.py:37-66 | Every candidate route only visits indices of existing points, except in one case. That case is dynamic mode, closed, with no points: the candidate `[0, 0]` indexes an empty list. |
| Router.DynamicCandidatesValid | data/router.py:40-57 | With at least one point, every dynamic candidate, normal or special, starts at 0 and stays within the points. |
| Router.NormalRoutesVisitEveryPoint | data/router.py:43-49 | Each of the first (n-1)! dynamic candidates starts at home, visits every other point exactly once, and ends at home when the route is closed. |
| Router.RouteLengthSplit | data/router.py:240-250 | A route's length is the sum of the lengths of its two halves, split at any stop. |
| Router.CalcDistances | data/router.py:240-250 | One distance per route: the sum of the distances of its consecutive legs. |
| Router.Candidates | data/router.py:37-66 | Static mode has one candidate, the points in order, closed by 0 when the route is closed. Dynamic mode has the permutations of the other points, then the special routes without self loops, each wrapped with home. Their properties are `CandidatesValid`, `DynamicCandidatesValid` and `NormalRoutesVisitEveryPoint`. |
| Router.RouteLength | data/router.py:240-250 | The length of a route is the sum of `dist` over its consecutive legs. Its properties are `RouteLengthSplit` and `CalcDistances`. |
| Router.FirstMinIndex | data/router.py:70-72 | The position of the smallest value, the first one on a tie (`min` followed by `list.index`). |
| Router.AddHomeToAll | data/router.py:208-216 | Every route gets 0 in front, and 0 at the end when the route is closed. |
| Router.Route.constructor | data/router.py:22-74 | The fields of a route in either mode: the indexes, the normal and special routes, the candidates, their distances, and the shortest route with its distance. |
| Router.OptimalIsShortest | data/router.py:68-74 | For a route whose distances were measured with `dist`, the optimal route is one of the candidates, its distance is its own length, and no candidate is shorter. |
| Router.NewRoute | data/router.py:22-74 | The errors come in the order `ValueError` (a bad point), then `AttributeError` (unknown mode, so the candidate list is never set), then `IndexError` (dynamic, closed, no points). Otherwise the points are the given coordinates in order, the candidates are those of the mode, all valid, and each one is measured. The optimal route is the candidate at the first position of the smallest distance, so it is a candidate, its distance is its own length, and no candidate is shorter. |
| Permutations.Perms | data/router.py:152-172 | `permutations(lst)`: for each i in order, `lst[i]` followed by each permutation of the rest. Its properties are the four `Perms…` lemmas below. |
| Permutations.PermsCount | data/router.py:152-172 | `permutations(lst)` yields \|lst\|! lists. |
| Permutations.PermsAreRearrangements | data/router.py:152-172 | Every yielded list is a rearrangement of `lst`: the same length and the same multiset. |
| Permutations.PermsDistinct | data/router.py:152-172 | For distinct items, no list is yielded twice. |
| Permutations.PermsBlockAt | data/router.py:167-172 | Block i of the output is `lst[i]` followed by each permutation of the rest, in order. |
| Permutations.SpecialPerms | data/router.py:175-192 | The concatenation, for each i, of the permutations of `[lst[i]] + lst`. |
| Permutations.SpecialCount | data/router.py:175-192 | `specialPerms(lst)` has \|lst\|·(\|lst\|+1)! entries. |
| Permutations.SpecialElements | data/router.py:175-192 | Each entry has \|lst\|+1 items, and its multiset is `lst` plus one duplicated item of `lst`. |
| Permutations.SpecialBlockAt | data/router.py:188-191 | Entry i·(\|lst\|+1)! + j is permutation j of `[lst[i]] + lst`. |
| Permutations.RemoveAdjacent | data/router.py:195-206 | The lists without two equal adjacent items, in their original order. |
| Permutations.WithoutSelfLoopsMembers | data/router.py:195-206 | A list is kept exactly when it is in the input and has no two equal adjacent items. |
| Permutations.WithoutSelfLoopsConcat | data/router.py:195-206 | Filtering distributes over concatenation. |
| Permutations.HomeWrapped | data/router.py:210-215 | A route with home added is the old route with 0 before it, and 0 after it when closed. |
| Permutations.AddHome | data/router.py:208-216 | Every route in the array is replaced in place by its home-wrapped form. |
| RouteCosts.CalcPoints | data/router.py:308-312 | Each airport's `[latitude, longitude]`, in order. |
| RouteCosts.WalkLegsCompletes | data/router.py:324-348 | The walk over the first j legs completes exactly when each of those legs is within range and its destination has a price. |
| RouteCosts.WalkLegsDetails | data/router.py:324-348 | A completed walk has one detail per leg: the fuel the leg burns × its destination's price. |
| RouteCosts.WalkLegsStopsAt | data/router.py:334-344 | A walk stops at the first bad leg: out of range when that leg is too long, otherwise on the missing price of its destination's country. |
| RouteCosts.WalkEnded | data/router.py:336-344 | Once a walk has stopped, later legs do not change its outcome. |
| RouteCosts.RouteCostOutOfRange | data/router.py:336-340 | A route whose first bad leg is too long costs 0, with details `[0]`. |
| RouteCosts.RouteCostFeasible | data/router.py:324-348 | A route with every leg in range and priced is priced, with one detail per leg: the fuel the leg burns × its destination's price. |
| RouteCosts.RouteCostFeasibleTotal | data/router.py:330-356 | The cost of such a route is a full tank at home plus its legs; when that total is positive, the fuel left after the last leg is subtracted at the last destination's price. |
| RouteCosts.RouteCostFails | data/router.py:330-344 | Pricing fails exactly with the `KeyError` of the home country or of the first leg's destination that has no price. |
| RouteCosts.FlyLeg | data/router.py:325-348 | One leg: it stops when the leg is longer than the range, raises `KeyError` when the destination has no price, and otherwise burns rate × distance and costs that fuel × the destination's price. |
| RouteCosts.FlyLegs | data/router.py:324-348 | The leg loop ends as the walk over all legs does. When it completes, the cost is the home tank plus the sum of the details, and the fuel and country of the last leg are kept for the refund. |
| RouteCosts.RouteCost | data/router.py:319-356 | The pricing of one route: 0 for a route without legs, `KeyError` for a home or destination country without a price, 0 with details `[0]` once a leg is out of range, and otherwise the settled cost. Its properties are `RouteCostFeasible`, `RouteCostFeasibleTotal`, `RouteCostFails` and `RouteCostOutOfRange`. |
| RouteCosts.Settle | data/router.py:349-356 | The cost of a completed walk: a full tank at home plus the legs, and when that is positive, less the fuel left after the last leg at the last destination's price. `RouteCostFeasibleTotal` states it. |
| RouteCosts.SimulateRoute | data/router.py:319-361 | The pricing of one route gives exactly `RouteCost`. |
| RouteCosts.CheapestIndex | data/router.py:362-370 | -1 exactly when no cost is positive. Otherwise the first position of the smallest positive cost. |
| RouteCosts.CheapestIsAtIndex | data/router.py:362-370 | The running minimum (`min_cost`, `min_cost_details`) is -1 and `[]`, or the cost and details at `CheapestIndex`. |
| RouteCosts.CalcRouteCosts | data/router.py:314-371 | The first route whose pricing fails decides the error. Otherwise there is one cost and one detail list per route, and the minimum over positive costs. |
| RouteCosts.EcoRouteAsWritten | data/router.py:271-276 | As written: when some cost is positive, the route at the position of `min` over all costs; `[]` otherwise. |
| RouteCosts.EcoRoutePicksInfeasible | data/router.py:271-274 | For costs `[0, 5]`, the as-written eco route is the infeasible route, while `eco_route_cost` is 5. |
| RouteCosts.EcoRouteIntended | data/router.py:271-276 | The route at `CheapestIndex`, or `[]`. |
| RouteCosts.EcoRouteIntendedMatchesCost | data/router.py:271-276 | `eco_route_cost` is -1 exactly when no cost is positive, and then the eco route is `[]`. Otherwise the eco route is a candidate whose cost and details are `eco_route_cost` and `eco_route_details`. |
| RouteCosts.ComplexRoute.constructor | data/router.py:257-276 | Stores the costs, the running minimum and the eco route as the source locates it (`EcoRouteAsWritten`). |
| RouteCosts.ComplexRoute.EcoRouteFacts | data/router.py:271-276 | For a consistently priced route: `eco_route_cost` is -1 exactly when no cost is positive, and then the eco route is `[]`. Otherwise the eco route is the candidate at the first position of the smallest cost of all, while `eco_route_cost` and `eco_route_details` are a candidate's positive cost and details. When every cost is positive the eco route is the corrected one. |
| RouteCosts.EcoRoutesAgree | data/router.py:271-276 | When every cost is positive, the as-written and the corrected eco route are the same route. |
| RouteCosts.NewComplexRoute | data/router.py:257-276 | A closed route over the airports in either mode. It fails as `Route` fails, or with the first pricing error. The pricing error is that of the first candidate that fails, every earlier candidate being priced. Otherwise the route's points are the airports' coordinates in order, the aircraft and the fuel table are the ones given, the route is measured as `NewRoute` promises, every candidate is priced under the aircraft's and fuel table's current figures, and the eco route is `[]` when `eco_route_cost` is -1 and otherwise the candidate at the first position of the smallest cost. |
| AircraftData.Aircraft.constructor | data/aircraft.py:20-28 | A new aircraft has no units and a zero consumption rate. |
| AircraftData.Aircraft.SetUnits | data/aircraft.py:42-48 | A second assignment raises `AttributeError`, a value other than imperial or metric raises `ValueError`, and otherwise the units are stored. |
| AircraftData.Aircraft.MaxRange | data/aircraft.py:54-67 | The range in kilometres: the stored figure when the units are metric; for other units the stored miles are recovered by dividing by 1.60934, and a non-negative figure never shrinks. |
| AircraftData.Aircraft.FuelCapacity | data/aircraft.py:69-82 | The capacity in litres: the stored figure when the units are metric; for other units the stored gallons are recovered by dividing by 3.78541, and a non-negative figure never shrinks. |
| AircraftData.Aircraft.ToString | data/aircraft.py:88-91 | `str(aircraft)` is the manufacturer, one space, then the code. |
| AircraftData.Aircraft.FullTankCoversRange | data/aircraft.py:55-82 | For a loaded aircraft, rate × range = capacity in metric units. Imperial figures are converted with 1.60934 and 3.78541. |
| AircraftData.FirstRowError | data/aircraft.py:116-125 | No error exactly when every row has valid units and a non-zero range. |
| AircraftData.FirstRowErrorAt | data/aircraft.py:116-125 | The error reported is that of the first failing row. |
| AircraftData.Aircrafts.LoadRow | data/aircraft.py:117-125 | One row gives `ValueError` for bad units, `ZeroDivisionError` for a zero range, or an aircraft with the row's fields and rate = capacity / range. |
| AircraftData.Aircrafts.LoadAircraft | data/aircraft.py:116-126 | Fails with the first row's error. Otherwise the keys are the codes of the rows and each code holds an aircraft loaded from its last row. |
| AircraftData.Aircrafts.Load | data/aircraft.py:98-128 | Fails with the first row's error. Otherwise each code holds the aircraft of its last row, and the names and codes lists hold every row in order. |
| AircraftData.Aircrafts.Call | data/aircraft.py:149-156 | The stored aircraft, or `KeyError` for an unknown code. |
| AircraftData.Aircrafts.GetByStr | data/aircraft.py:140-147 | `IndexError` exactly when the string has no token. Otherwise the upper-cased last token is looked up, giving `None` when absent. |
| AircraftData.Aircrafts.GetByStrOfToString | data/aircraft.py:88-91 | `get_by_str(str(a))` finds `a` again when its code is an upper-case token. |
| Airports.Equals | data/airport.py:102-106 | `a == other` exactly when `other` is an airport with the same attributes. |
| Airports.NotEquals | data/airport.py:108-110 | `a != other` is the exact negation of equality. |
| Airports.FromRow | data/airport.py:136-154 | An unreadable elevation becomes 0. The code, name, latitude, longitude and country code are the row's. |
| Airports.InsertionOrder | data/airport.py:155 | The dictionary's iteration order holds each code once, at its first insertion. |
| Airports.AirportAtlas.constructor | data/airport.py:127-157 | Each code holds the airport of its last row. The names and codes lists hold every row in order. |
| Airports.AirportAtlas.Call | data/airport.py:197-205 | The code is upper-cased and looked up. An unknown code raises `KeyError`. |
| Airports.AirportAtlas.GetByName | data/airport.py:186-195 | The first airport, in iteration order, whose name matches ignoring case. `None` exactly when no airport matches. |
| Airports.AirportAtlas.FindClosest | data/airport.py:169-184 | The first airport with the smallest \|Δlat\|+\|Δlon\| below 24000. `None` exactly when no airport scores below 24000. |
| CurrencyData.Currency.SetCode | data/currency.py:36-42 | A second assignment raises `AttributeError`, a code whose length is not 3 raises `ValueError`, and otherwise the code is stored. |
| CurrencyData.Currency.ConvertToEuro | data/currency.py:58-64 | With reciprocal rates, the euro amount converted by the inverse rate gives the amount back. For a positive rate, the result is positive exactly when the amount is. |
| CurrencyData.Currency.ConvertFromEuro | data/currency.py:66-72 | With reciprocal rates, the amount in this currency converted by the inverse rate gives the euro amount back. For a positive rate, the result is positive exactly when the amount is. |
| CurrencyData.Currency.ConversionRoundTrip | data/currency.py:58-72 | With reciprocal rates, converting to euro and back (either way) returns the amount. Both conversions are linear. |
| CurrencyData.FirstBadCode | data/currency.py:94-102 | The first row whose code is not 3 letters long. |
| CurrencyData.Currencies.LoadRow | data/currency.py:95-101 | `ValueError` exactly when the code's length is not 3. Otherwise a currency with the row's fields. |
| CurrencyData.Currencies.Load | data/currency.py:87-102 | `ValueError` exactly when some code's length is not 3. Otherwise each country holds the currency of its last row. |
| CurrencyData.Currencies.Call | data/currency.py:104-111 | The stored currency, or `KeyError`. |
| FuelPrices.NewFuelObj | data/fuelprice.py:15-21 | A new entry has no country, price 0, and the euro-per-litre units. |
| FuelPrices.FromRow | data/fuelprice.py:64-67 | The entry carries the row's country, code and price. |
| FuelPrices.Find | data/fuelprice.py:70-79 | The stored entry, or `KeyError` for a code that is not a key. |
| FuelPrices.FindAfterLoad | data/fuelprice.py:56-79 | After loading, a lookup succeeds exactly when some row has the code, and it returns the entry of the last such row. |
| FuelPrices.FuelMap.constructor | data/fuelprice.py:56-68 | The map holds each row's entry under its code, later rows winning. |
| FuelPrices.FuelMap.Call | data/fuelprice.py:70-79 | A lookup succeeds exactly when the code is a key, and then returns the entry stored under it. Otherwise it raises `KeyError` naming the code. |
| Registry.KeyByKeys | data/fuelprice.py:63-68 | After a store-by-key loop, a key is present exactly when some row has it. |
| Registry.KeyByLastWins | data/fuelprice.py:63-68 | The entry under a key is the last row with that key. |
| Registry.KeyByEntries | data/fuelprice.py:63-68 | Every entry sits under its own key and comes from the rows. |
| Storage.HeadersDistinct | data/data_storage.py:10-17 | The eight headers are distinct. |
| Storage.MapData | data/data_storage.py:89-102 | A list of any length other than 8 is refused. Otherwise header i maps to item i, and the keys are exactly the headers. |
| Storage.ClassifyStored | data/data_storage.py:54-70 | `add` stores a record exactly when its week is a new string and its keys are exactly the headers. |
| Storage.AddMappedData | data/data_storage.py:54-70 | A record made by `map_data`, whose week is a new string, is always stored. |
| Storage.FirstMissing | data/data_storage.py:36-44 | The first header, in column order, that the row lacks. That lookup raises `KeyError`. |
| Storage.RecordOf | data/data_storage.py:36-52 | A record with exactly the headers: the airports upper-cased and split, and every other column as text. |
| Storage.FirstIncomplete | data/data_storage.py:35-44 | The first row that lacks a header. |
| Storage.Joined | data/data_storage.py:83-86 | A list of airports is joined with single spaces, and every other field is unchanged. |
| Storage.SaveThenRead | data/data_storage.py:32-87 | Reading back a saved record gives the same record. |
| Storage.ReadIsWellFormed | data/data_storage.py:35-52 | Every record read is stored under its own week and has exactly the headers. |
| Storage.ReadLastRowWins | data/data_storage.py:35-52 | Each week holds the record of the last row with that week. |
| Storage.DataStore.Open | data/data_storage.py:23-52 | `KeyError` for the first missing header of the first incomplete row. Otherwise every row is stored under its week and the store is valid. |
| Storage.DataStore.Add | data/data_storage.py:54-70 | `KeyError` without a week, `TypeError` for a list week, nothing for a known week, `KeyError` for a foreign key, and an error for the wrong number of keys. Otherwise the record is stored under its week. The store's invariant is kept. |
| Storage.DataStore.Save | data/data_storage.py:72-87 | On a valid store, the written copy of every record has its airports joined, and keeps its headers and its week. The store itself is unchanged. |
| Storage.WriteRows | data/data_storage.py:82-87 | The writing loop: one joined copy per stored record, under the same week. |
| Storage.JoinedWellFormed | data/data_storage.py:83-86 | Joining the airports keeps a record's headers and week. |
| Text.SplitJoinSpaced | data/data_storage.py:38 | Splitting words joined with single spaces gives back the words. |
| Text.SplitNoLowerCase | data/data_storage.py:38 | The tokens of an upper-cased string are upper-case. |

## Left out

- File reading and writing (`IO`, `csv`, `open`): the loaders take rows already read, with numeric columns already converted. `save` returns the records it would write.
- `Route.calcDistance` (spherical trigonometry, and its `ValueError` on points of the wrong length): replaced by the distance parameter `dist`, which the model applies only to checked points.
- Floating-point rounding: costs, distances and conversions are exact reals.
- The read-only property getters: the model reads the fields directly.
- The module-level `test()` functions, data/settings.py and the user interface: these are not part of this model.
- `Aircraft.max_range` / `fuel_capacity` with `unit='imperial'`: properties are always read with the default metric unit, so the `int()` branches are unreachable and are not modelled.
- Storage.DataStore.Add: when a record has several keys outside the headers, the `KeyError` names one of them without saying which. Python names the first in the dictionary's order, which the model does not track.
- Storage.DataStore.Save: a field other than the airports that holds a list would be written by `csv` as Python's `repr`. That case is not modelled.
- Airports.AirportAtlas.constructor: an elevation that cannot be read is represented by `None` in the row. Python's `float()` parsing is not modelled.
- Router.Route.constructor: the constructor requires a valid mode and excludes the dynamic, closed, empty case. `Router.NewRoute` models those error paths around it.
- RouteCosts.ComplexRoute.constructor: the class stores the eco route as the source locates it (see Findings). The corrected route is `RouteCosts.EcoRouteIntended`, and `RouteCosts.ComplexRoute.EcoRouteFacts` relates the two.
- Router.Route.Length: `__len__` is a plain getter for the number of points, with nothing to state beyond its body.
- Text.Split, Text.Upper and Text.Lower: only ASCII whitespace and ASCII letters are handled. Python's `str.split()` also splits on other whitespace such as `'\xa0'` and `'\x85'`, and `upper()`/`lower()` also map letters such as `'é'`. Airport-name lookup and the splitting of the airports field therefore differ from Python on non-ASCII input.
- Router.MapPoints: indices are integers. The `int(pt)` truncation of a float index is not modelled, since the callers pass integers.

## Findings

| source | as written | input that shows it | evidently intended | confidence | as-written member | corrected member |
|---|---|---|---|---|---|---|
| data/router.py:271-274 | `eco_idx` is the index of `min(route_costs)` over all routes. This includes out-of-range routes, whose cost is 0. | Two routes with costs `[0.0, 5.0]`: `eco_route_cost` is 5.0, but `eco_route` is the first route, which cannot be flown. | The route whose cost is `eco_route_cost`: the first route with the smallest positive cost. | not executed | RouteCosts.EcoRouteAsWritten (counterexample: RouteCosts.EcoRoutePicksInfeasible) | RouteCosts.EcoRouteIntended (property: RouteCosts.EcoRouteIntendedMatchesCost) |
