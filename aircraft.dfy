/** Aircraft (data/aircraft.py): the `Aircraft` record with its write-once
    `units` attribute and its metric views of range and fuel capacity, and
    the `Aircrafts` registry keyed by aircraft code. */
module AircraftData {
  import opened Wrappers
  import opened Registry
  import opened Text

  const UNIT_IMPERIAL: string := "imperial"
  const UNIT_METRIC: string := "metric"
  const MIL_TO_KM: real := 1.60934
  const GAL_TO_LIT: real := 3.78541

  /** An aircraft. Every attribute but `units` and `consumptionRate` is
      given once, when the record is created; `units` starts empty and can be
      set once; the loader sets `consumptionRate` after `units`. */
  class Aircraft {
    const code: string
    const engType: string
    const manufacturer: string
    /** The range and the capacity as stored, in the aircraft's own units. */
    const storedRange: real
    const storedCapacity: real
    var units: string
    var consumptionRate: real

    constructor (code: string, engType: string, manufacturer: string, range: real, capacity: real)
      ensures this.code == code && this.engType == engType && this.manufacturer == manufacturer
      ensures storedRange == range && storedCapacity == capacity
      ensures units == "" && consumptionRate == 0.0
    {
      this.code, this.engType, this.manufacturer := code, engType, manufacturer;
      storedRange, storedCapacity := range, capacity;
      units, consumptionRate := "", 0.0;
    }

    /** The `units` setter: a second assignment raises `AttributeError`
        (checked first), a value other than "imperial" or "metric" raises
        `ValueError`; otherwise the value is stored. Since both accepted
        values are non-empty, a successful assignment is the last one. */
    method SetUnits(u: string) returns (r: Outcome)
      modifies this`units
      ensures old(units) != "" ==> r == Fail(AttributeError) && units == old(units)
      ensures old(units) == "" && u != UNIT_IMPERIAL && u != UNIT_METRIC ==> r == Fail(ValueError) && units == old(units)
      ensures old(units) == "" && (u == UNIT_IMPERIAL || u == UNIT_METRIC) ==> r == Pass && units == u
      ensures r == Pass ==> units != ""
    {
      if units != "" {
        return Fail(AttributeError);
      }
      if u != UNIT_IMPERIAL && u != UNIT_METRIC {
        return Fail(ValueError);
      }
      units := u;
      return Pass;
    }

    /** The `max_range` property, in kilometres: the stored range when the
        units are metric, the stored range in miles converted otherwise
        (also when the units were never set). */
    function MaxRange(): (r: real)
      reads this
      ensures units == UNIT_METRIC ==> r == storedRange
      ensures units != UNIT_METRIC ==> r / MIL_TO_KM == storedRange
      ensures storedRange >= 0.0 ==> r >= storedRange
    {
      if units == UNIT_METRIC then storedRange else storedRange * MIL_TO_KM
    }

    /** The `fuel_capacity` property, in litres, by the same rule. */
    function FuelCapacity(): (r: real)
      reads this
      ensures units == UNIT_METRIC ==> r == storedCapacity
      ensures units != UNIT_METRIC ==> r / GAL_TO_LIT == storedCapacity
      ensures storedCapacity >= 0.0 ==> r >= storedCapacity
    {
      if units == UNIT_METRIC then storedCapacity else storedCapacity * GAL_TO_LIT
    }

    /** `str(aircraft)`: manufacturer, a space, code. */
    function ToString(): (r: string)
      ensures |r| == |manufacturer| + 1 + |code|
      ensures r[..|manufacturer|] == manufacturer && r[|manufacturer|] == ' '
      ensures r[|manufacturer| + 1..] == code
    {
      manufacturer + " " + code
    }

    /** Every attribute of the aircraft, as a value. */
    function State(): AircraftState
      reads this
    {
      AircraftState(code, engType, manufacturer, storedRange, storedCapacity, units, consumptionRate)
    }

    /** What the loader leaves in an aircraft read from `row`. */
    ghost predicate LoadedFrom(row: AircraftRow)
      reads this
    {
      RowError(row).None? && State() == LoadedState(row)
    }

    /** The rate the loader derives makes a full tank last exactly the
        aircraft's range: rate × range = capacity, in metric units. For an
        imperial aircraft both stored figures are converted first. */
    lemma FullTankCoversRange(row: AircraftRow)
      requires LoadedFrom(row)
      ensures consumptionRate * MaxRange() == FuelCapacity()
      ensures units == UNIT_IMPERIAL ==>
        consumptionRate == (storedCapacity * GAL_TO_LIT) / (storedRange * MIL_TO_KM)
    {
      assert MaxRange() == RowMaxRange(row) && FuelCapacity() == RowCapacity(row);
    }
  }

  /** One row of the aircraft table, numbers already read. */
  datatype AircraftRow = AircraftRow(code: string, kind: string, units: string, manufacturer: string,
                                     range: real, capacity: real)

  /** The attributes of an aircraft: code, type, manufacturer, stored range
      and capacity, units and consumption rate. */
  datatype AircraftState = AircraftState(code: string, kind: string, manufacturer: string,
                                         range: real, capacity: real, units: string, rate: real)

  /** The attributes the loader gives the aircraft of a row that loads. */
  function LoadedState(row: AircraftRow): AircraftState
    requires RowError(row).None?
  {
    AircraftState(row.code, row.kind, row.manufacturer, row.range, row.capacity, row.units, RowRate(row))
  }

  function CodeOf(row: AircraftRow): string {
    row.code
  }

  /** The range in kilometres an aircraft read from `row` has. */
  function RowMaxRange(row: AircraftRow): real {
    if row.units == UNIT_METRIC then row.range else row.range * MIL_TO_KM
  }

  /** The fuel capacity in litres an aircraft read from `row` has. */
  function RowCapacity(row: AircraftRow): real {
    if row.units == UNIT_METRIC then row.capacity else row.capacity * GAL_TO_LIT
  }

  /** The consumption rate, litres per kilometre, the loader derives. */
  function RowRate(row: AircraftRow): real
    requires RowMaxRange(row) != 0.0
  {
    RowCapacity(row) / RowMaxRange(row)
  }

  /** The exception loading `row` raises, if any: `ValueError` from the units
      setter, else `ZeroDivisionError` when the rate divides by a zero range. */
  function RowError(row: AircraftRow): Option<Error> {
    if row.units != UNIT_IMPERIAL && row.units != UNIT_METRIC then Some(ValueError)
    else if RowMaxRange(row) == 0.0 then Some(ZeroDivisionError)
    else None
  }

  /** The exception of the first row that raises one. */
  function FirstRowError(rows: seq<AircraftRow>): (e: Option<Error>)
    ensures e.None? <==> forall i :: 0 <= i < |rows| ==> RowError(rows[i]).None?
  {
    if rows == [] then None
    else if RowError(rows[0]).Some? then RowError(rows[0])
    else FirstRowError(rows[1..])
  }

  lemma {:induction false} FirstRowErrorAt(rows: seq<AircraftRow>, i: nat)
    requires i < |rows| && RowError(rows[i]).Some?
    requires forall j :: 0 <= j < i ==> RowError(rows[j]).None?
    ensures FirstRowError(rows) == RowError(rows[i])
  {
    if i > 0 {
      FirstRowErrorAt(rows[1..], i - 1);
    }
  }

  /** `m` holds, under each code of `src`, an aircraft loaded from the row
      `src` keeps under that code, and nothing else. */
  ghost predicate LoadedMap(m: map<string, Aircraft>, src: map<string, AircraftRow>)
    reads m.Values
  {
    m.Keys == src.Keys && forall k :: k in m ==> m[k].LoadedFrom(src[k])
  }

  /** Loading one more row keeps `LoadedMap` with the registry of the rows read. */
  lemma LoadedMapStep(m: map<string, Aircraft>, rows: seq<AircraftRow>, i: nat, plane: Aircraft)
    requires i < |rows| && LoadedMap(m, KeyBy(rows[..i], CodeOf)) && plane.LoadedFrom(rows[i])
    ensures LoadedMap(m[plane.code := plane], KeyBy(rows[..i + 1], CodeOf))
  {
    KeyByPrefix(rows, i, CodeOf);
    var m' := m[plane.code := plane];
    var src := KeyBy(rows[..i + 1], CodeOf);
    forall k | k in m'
      ensures m'[k].LoadedFrom(src[k])
    {
      if k != plane.code {
        assert m'[k] == m[k];
      }
    }
  }

  /** `Aircrafts`: aircraft keyed by code, with the display names and codes
      of every row loaded, in row order. */
  class Aircrafts {
    var byCode: map<string, Aircraft>
    var names: seq<string>
    var codes: seq<string>

    constructor (byCode: map<string, Aircraft>, names: seq<string>, codes: seq<string>)
      ensures this.byCode == byCode && this.names == names && this.codes == codes
    {
      this.byCode, this.names, this.codes := byCode, names, codes;
    }

    /** One step of `__extract_aircrafts`: the aircraft built from `row`, its
        units set and its consumption rate derived, or the exception that
        step raises. */
    static method LoadRow(row: AircraftRow) returns (r: Result<Aircraft>)
      ensures r.Err? <==> RowError(row).Some?
      ensures r.Err? ==> Some(r.error) == RowError(row)
      ensures r.Ok? ==> fresh(r.value) && r.value.LoadedFrom(row)
    {
      var plane := new Aircraft(row.code, row.kind, row.manufacturer, row.range, row.capacity);
      var outcome := plane.SetUnits(row.units);
      if outcome.Fail? {
        return Err(outcome.error);
      }
      if plane.MaxRange() == 0.0 {
        return Err(ZeroDivisionError);
      }
      plane.consumptionRate := plane.FuelCapacity() / plane.MaxRange();
      assert plane.MaxRange() == RowMaxRange(row) && plane.FuelCapacity() == RowCapacity(row);
      return Ok(plane);
    }

    /** The loop of `__extract_aircrafts`, over rows already read: the
        aircraft of every row stored under its code, so that a later row
        replaces an earlier one with the same code, or the exception of the
        first row that raises one. */
    static method LoadAircraft(rows: seq<AircraftRow>) returns (r: Result<map<string, Aircraft>>)
      ensures r.Err? <==> FirstRowError(rows).Some?
      ensures r.Err? ==> Some(r.error) == FirstRowError(rows)
      ensures r.Ok? ==> LoadedMap(r.value, KeyBy(rows, CodeOf))
    {
      var m: map<string, Aircraft> := map[];
      for i := 0 to |rows|
        invariant forall j :: 0 <= j < i ==> RowError(rows[j]).None?
        invariant LoadedMap(m, KeyBy(rows[..i], CodeOf))
      {
        label before:
        var loaded := LoadRow(rows[i]);
        assert unchanged@before(m.Values);
        if loaded.Err? {
          FirstRowErrorAt(rows, i);
          return Err(loaded.error);
        }
        LoadedMapStep(m, rows, i, loaded.value);
        m := m[loaded.value.code := loaded.value];
      }
      assert rows[..|rows|] == rows;
      return Ok(m);
    }

    /** `Aircrafts.__init__` with `__extract_aircrafts`, over rows already
        read. It fails with the exception of the first row that raises one.
        On success every code holds an aircraft loaded from the last row
        with that code, and every row has added its display name and its
        code to the two lists, in row order. */
    static method Load(rows: seq<AircraftRow>) returns (r: Result<Aircrafts>)
      ensures r.Err? <==> FirstRowError(rows).Some?
      ensures r.Err? ==> Some(r.error) == FirstRowError(rows)
      ensures r.Ok? ==> fresh(r.value) && LoadedMap(r.value.byCode, KeyBy(rows, CodeOf))
      ensures r.Ok? ==> |r.value.names| == |r.value.codes| == |rows|
      ensures r.Ok? ==> forall i :: 0 <= i < |rows| ==>
        r.value.codes[i] == rows[i].code && r.value.names[i] == rows[i].manufacturer + " " + rows[i].code
    {
      var loaded := LoadAircraft(rows);
      if loaded.Err? {
        return Err(loaded.error);
      }
      var ns := seq(|rows|, j requires 0 <= j < |rows| => rows[j].manufacturer + " " + rows[j].code);
      var cs := seq(|rows|, j requires 0 <= j < |rows| => rows[j].code);
      var reg := new Aircrafts(loaded.value, ns, cs);
      return Ok(reg);
    }

    /** `Aircrafts.__call__`: the stored aircraft, or `KeyError` for an
        unknown code. */
    function Call(planeCode: string): (r: Result<Aircraft>)
      reads this
      ensures r.Ok? <==> planeCode in byCode
      ensures r.Ok? ==> r.value == byCode[planeCode]
      ensures r.Err? ==> r.error == KeyError(planeCode)
    {
      if planeCode in byCode then Ok(byCode[planeCode]) else Err(KeyError(planeCode))
    }

    /** `get_by_str`: the last whitespace-separated token, upper-cased, looked
        up; `None` when no aircraft has that code. A string without any token
        raises `IndexError`. */
    function GetByStr(s: string): (r: Result<Option<Aircraft>>)
      reads this
      ensures r.Err? <==> Split(s) == []
      ensures r.Ok? ==> var code := Upper(Split(s)[|Split(s)| - 1]);
        (r.value.Some? <==> code in byCode) && (r.value.Some? ==> r.value.value == byCode[code])
    {
      var tokens := Split(s);
      if tokens == [] then Err(IndexError)
      else
        var code := Upper(tokens[|tokens| - 1]);
        if code in byCode then Ok(Some(byCode[code])) else Ok(None)
    }

    /** `get_by_str(str(a))` finds `a` again when `a`'s code is an
        upper-case token and `a` is the aircraft stored under it. */
    lemma GetByStrOfToString(a: Aircraft)
      requires IsWord(a.code) && NoLowerCase(a.code)
      requires a.code in byCode && byCode[a.code] == a
      ensures GetByStr(a.ToString()) == Ok(Some(a))
    {
      LastTokenAfterSpace(a.manufacturer, a.code);
      UpperOfUpper(a.code);
    }
  }
}
