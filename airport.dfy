/** Airports (data/airport.py): the `Airport` record, its equality, and the
    `AirportAtlas` registry keyed by IATA code with its two searches. */
module Airports {
  import opened Wrappers
  import opened Registry
  import opened Text

  /** An airport: its attributes are assigned once, by the loader. */
  datatype Airport = Airport(
    country: string, iataCode: string, icaoCode: string, name: string,
    latitude: real, longitude: real, elevation: real,
    tzCode: string, tzName: string, continent: string,
    isoCountry: string, isoRegion: string, municipality: string,
    kind: string, scheduledService: string)

  /** Every attribute of `a` equals the same attribute of `b`
      (`a.__dict__ == b.__dict__`). */
  predicate SameAttributes(a: Airport, b: Airport) {
    && a.country == b.country && a.iataCode == b.iataCode && a.icaoCode == b.icaoCode
    && a.name == b.name && a.latitude == b.latitude && a.longitude == b.longitude
    && a.elevation == b.elevation && a.tzCode == b.tzCode && a.tzName == b.tzName
    && a.continent == b.continent && a.isoCountry == b.isoCountry
    && a.isoRegion == b.isoRegion && a.municipality == b.municipality
    && a.kind == b.kind && a.scheduledService == b.scheduledService
  }

  /** `a == other`; `other` is `None` when it is not an `Airport` at all. The
      attribute-by-attribute comparison is exactly equality of the records. */
  function Equals(a: Airport, other: Option<Airport>): (r: bool)
    ensures r <==> other == Some(a)
  {
    other.Some? && SameAttributes(a, other.value)
  }

  /** `a != other`, the exact negation of `a == other`. */
  function NotEquals(a: Airport, other: Option<Airport>): (r: bool)
    ensures r <==> other != Some(a)
  {
    !Equals(a, other)
  }

  /** One row of the airports table, numbers already read; `elevationFeet`
      is `None` where the column does not hold a number. */
  datatype AirportRow = AirportRow(
    country: string, iataCode: string, icaoCode: string, name: string,
    latitudeDegree: real, longitudeDegree: real, elevationFeet: Option<real>,
    timeZoneCode: string, timeZoneName: string, continent: string,
    isoCountry: string, isoRegion: string, municipality: string,
    kind: string, scheduledService: string)

  /** The airport the loader builds from a row; an unreadable elevation is 0. */
  function FromRow(row: AirportRow): (a: Airport)
    ensures a.iataCode == row.iataCode && a.name == row.name
    ensures a.latitude == row.latitudeDegree && a.longitude == row.longitudeDegree
    ensures a.isoCountry == row.isoCountry
    ensures a.elevation == (if row.elevationFeet.Some? then row.elevationFeet.value else 0.0)
  {
    Airport(row.country, row.iataCode, row.icaoCode, row.name,
            row.latitudeDegree, row.longitudeDegree,
            if row.elevationFeet.Some? then row.elevationFeet.value else 0.0,
            row.timeZoneCode, row.timeZoneName, row.continent,
            row.isoCountry, row.isoRegion, row.municipality,
            row.kind, row.scheduledService)
  }

  function FromRows(rows: seq<AirportRow>): seq<Airport> {
    seq(|rows|, i requires 0 <= i < |rows| => FromRow(rows[i]))
  }

  function IataOf(a: Airport): string {
    a.iataCode
  }

  /** The order in which a Python dictionary iterates over keys inserted in
      the order `keys`: each key at the position of its first insertion. */
  function InsertionOrder(keys: seq<string>): (ks: seq<string>)
    ensures forall k :: k in ks <==> k in keys
    decreases |keys|
  {
    if keys == [] then []
    else
      var ks := InsertionOrder(keys[..|keys| - 1]);
      if keys[|keys| - 1] in ks then ks else ks + [keys[|keys| - 1]]
  }

  lemma {:induction false} InsertionOrderDistinct(keys: seq<string>)
    ensures forall a, b :: 0 <= a < b < |InsertionOrder(keys)| ==> InsertionOrder(keys)[a] != InsertionOrder(keys)[b]
    decreases |keys|
  {
    if keys != [] {
      InsertionOrderDistinct(keys[..|keys| - 1]);
    }
  }

  /** Loading one more row stores its airport under its code. */
  lemma AtlasStep(rows: seq<AirportRow>, i: nat)
    requires i < |rows|
    ensures KeyBy(FromRows(rows[..i + 1]), IataOf) == KeyBy(FromRows(rows[..i]), IataOf)[rows[i].iataCode := FromRow(rows[i])]
  {
    assert FromRows(rows[..i + 1]) == FromRows(rows[..i]) + [FromRow(rows[i])];
    KeyBySnoc(FromRows(rows[..i]), FromRow(rows[i]), IataOf);
  }

  /** |Δlatitude| + |Δlongitude|, the score `find_closest` minimises. */
  function Score(a: Airport, lat: real, lon: real): real {
    (if a.latitude >= lat then a.latitude - lat else lat - a.latitude)
    + (if a.longitude >= lon then a.longitude - lon else lon - a.longitude)
  }

  /** The threshold `find_closest` starts from: only airports scoring below it
      are returned. */
  const CONTROL_DIST: real := 24000.0

  /** `AirportAtlas`: airports keyed by IATA code, together with the lists of
      the names and codes of every row loaded. */
  class AirportAtlas {
    var byCode: map<string, Airport>
    /** The dictionary's iteration order, which `get_by_name` and
        `find_closest` depend on. */
    var order: seq<string>
    var names: seq<string>
    var codes: seq<string>

    ghost predicate Valid()
      reads this
    {
      && (forall a, b :: 0 <= a < b < |order| ==> order[a] != order[b])
      && (forall k :: k in byCode <==> k in order)
      && |names| == |codes|
    }

    /** `AirportAtlas.__init__` / `__extract_airports`, over rows already
        read: each airport is stored under its code (a repeated code replaces
        the stored airport and keeps its place in the iteration order), and
        every row adds its name and its code to the two lists. */
    constructor (rows: seq<AirportRow>)
      ensures Valid()
      ensures byCode == KeyBy(FromRows(rows), IataOf)
      ensures |names| == |codes| == |rows|
      ensures forall i :: 0 <= i < |rows| ==> names[i] == rows[i].name && codes[i] == rows[i].iataCode
      ensures order == InsertionOrder(codes)
    {
      var m: map<string, Airport> := map[];
      var ns: seq<string> := [];
      var cs: seq<string> := [];
      for i := 0 to |rows|
        invariant m == KeyBy(FromRows(rows[..i]), IataOf)
        invariant |ns| == |cs| == i
        invariant forall j :: 0 <= j < i ==> ns[j] == rows[j].name && cs[j] == rows[j].iataCode
        invariant forall k :: k in m <==> k in cs
      {
        var airp := FromRow(rows[i]);
        AtlasStep(rows, i);
        m := m[airp.iataCode := airp];
        ns := ns + [airp.name];
        cs := cs + [airp.iataCode];
      }
      assert rows[..|rows|] == rows;
      InsertionOrderDistinct(cs);
      byCode, order, names, codes := m, InsertionOrder(cs), ns, cs;
    }

    /** `AirportAtlas.__call__`: the code is upper-cased, then looked up;
        an unknown code raises `KeyError`. */
    function Call(iataCode: string): (r: Result<Airport>)
      reads this
      ensures r.Ok? <==> Upper(iataCode) in byCode
      ensures r.Ok? ==> r.value == byCode[Upper(iataCode)]
      ensures r.Err? ==> r.error == KeyError(Upper(iataCode))
    {
      var code := Upper(iataCode);
      if code in byCode then Ok(byCode[code]) else Err(KeyError(code))
    }

    /** `get_by_name`: the first airport, in iteration order, whose name
        equals `name` ignoring case; `None` when there is none. */
    method GetByName(name: string) returns (r: Option<Airport>)
      requires Valid()
      ensures r.None? <==> forall k :: 0 <= k < |order| ==> Lower(byCode[order[k]].name) != Lower(name)
      ensures r.Some? ==>
                exists k :: 0 <= k < |order| && r.value == byCode[order[k]]
                  && Lower(r.value.name) == Lower(name)
                  && forall j :: 0 <= j < k ==> Lower(byCode[order[j]].name) != Lower(name)
    {
      for i := 0 to |order|
        invariant forall j :: 0 <= j < i ==> Lower(byCode[order[j]].name) != Lower(name)
      {
        var airport := byCode[order[i]];
        if Lower(airport.name) == Lower(name) {
          return Some(airport);
        }
      }
      return None;
    }

    /** `find_closest`: the airport with the smallest |Δlat| + |Δlon|, the
        earliest one on a tie; `None` when no airport scores below 24000
        (in particular when the atlas is empty). */
    method FindClosest(lat: real, lon: real) returns (r: Option<Airport>)
      requires Valid()
      ensures r.None? <==> forall k :: 0 <= k < |order| ==> Score(byCode[order[k]], lat, lon) >= CONTROL_DIST
      ensures r.Some? ==>
                exists k :: 0 <= k < |order| && r.value == byCode[order[k]]
                  && Score(r.value, lat, lon) < CONTROL_DIST
                  && (forall j :: 0 <= j < |order| ==> Score(r.value, lat, lon) <= Score(byCode[order[j]], lat, lon))
                  && (forall j :: 0 <= j < k ==> Score(byCode[order[j]], lat, lon) > Score(r.value, lat, lon))
    {
      var controlDist := CONTROL_DIST;
      var res: Option<Airport> := None;
      ghost var at := 0;
      for i := 0 to |order|
        invariant res.None? ==> controlDist == CONTROL_DIST
        invariant res.None? <==> forall j :: 0 <= j < i ==> Score(byCode[order[j]], lat, lon) >= CONTROL_DIST
        invariant res.Some? ==> 0 <= at < i && res.value == byCode[order[at]]
        invariant res.Some? ==> controlDist == Score(res.value, lat, lon) && controlDist < CONTROL_DIST
        invariant res.Some? ==> forall j :: 0 <= j < i ==> controlDist <= Score(byCode[order[j]], lat, lon)
        invariant res.Some? ==> forall j :: 0 <= j < at ==> Score(byCode[order[j]], lat, lon) > controlDist
      {
        var airp := byCode[order[i]];
        var tmp := Score(airp, lat, lon);
        if tmp < controlDist {
          controlDist := tmp;
          res := Some(airp);
          at := i;
        }
      }
      r := res;
    }
  }
}
