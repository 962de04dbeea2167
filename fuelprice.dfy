/** Fuel prices per country (data/fuelprice.py): one `FuelObj` per row of
    the price table, kept in a `FuelMap` keyed by ISO country code. */
module FuelPrices {
  import opened Wrappers
  import opened Registry

  const UNIT: string := "EURO/LITTER"
  const UNIT_SHORT: string := "eu/lit"

  datatype FuelObj = FuelObj(country: string, isoCountry: string, price: real, unit: string, unitShort: string)

  /** `FuelObj()`: no country, price 0, prices in euro per litre. */
  function NewFuelObj(): (f: FuelObj)
    ensures f.country == "" && f.isoCountry == "" && f.price == 0.0
    ensures f.unit == UNIT && f.unitShort == UNIT_SHORT
  {
    FuelObj("", "", 0.0, UNIT, UNIT_SHORT)
  }

  /** One row of the price table, with the price already read as a number. */
  datatype FuelRow = FuelRow(country: string, isoCountry: string, priceEurLit: real)

  /** The `FuelObj` the loader builds from a row. */
  function FromRow(row: FuelRow): (f: FuelObj)
    ensures f.isoCountry == row.isoCountry && f.country == row.country && f.price == row.priceEurLit
    ensures f.unit == UNIT && f.unitShort == UNIT_SHORT
  {
    NewFuelObj().(country := row.country, isoCountry := row.isoCountry, price := row.priceEurLit)
  }

  function FromRows(rows: seq<FuelRow>): seq<FuelObj> {
    seq(|rows|, i requires 0 <= i < |rows| => FromRow(rows[i]))
  }

  function IsoOf(f: FuelObj): string {
    f.isoCountry
  }

  /** The table the loader leaves behind: each `FuelObj` stored under its own
      ISO country code, a later row replacing an earlier one. */
  function Table(rows: seq<FuelRow>): map<string, FuelObj> {
    KeyBy(FromRows(rows), IsoOf)
  }

  /** `FuelMap.__call__` on a given table: the stored entry, or `KeyError`
      for a code that is not a key. The code is used exactly as given. */
  function Find(table: map<string, FuelObj>, iso: string): (r: Result<FuelObj>)
    ensures r.Ok? <==> iso in table
    ensures r.Ok? ==> r.value == table[iso]
    ensures r.Err? ==> r.error == KeyError(iso)
  {
    if iso in table then Ok(table[iso]) else Err(KeyError(iso))
  }

  /** Row `i` is the last row for country `iso`. */
  predicate LastRowFor(rows: seq<FuelRow>, i: int, iso: string) {
    0 <= i < |rows| && rows[i].isoCountry == iso
    && forall j :: i < j < |rows| ==> rows[j].isoCountry != iso
  }

  /** After loading, looking a country up succeeds exactly when some row has
      that code, returns an entry carrying that code, and returns the entry
      of the last such row. */
  lemma FindAfterLoad(rows: seq<FuelRow>, iso: string)
    ensures Find(Table(rows), iso).Ok? <==> exists i :: 0 <= i < |rows| && rows[i].isoCountry == iso
    ensures Find(Table(rows), iso).Ok? ==> Find(Table(rows), iso).value.isoCountry == iso
    ensures forall i :: LastRowFor(rows, i, iso) ==> Find(Table(rows), iso) == Ok(FromRow(rows[i]))
  {
    var objs := FromRows(rows);
    KeyByKeys(objs, IsoOf, iso);
    KeyByEntries(objs, IsoOf);
    assert forall i :: 0 <= i < |rows| ==> IsoOf(objs[i]) == rows[i].isoCountry;
    forall i | LastRowFor(rows, i, iso)
      ensures Find(Table(rows), iso) == Ok(FromRow(rows[i]))
    {
      forall j | i < j < |objs|
        ensures IsoOf(objs[j]) != IsoOf(objs[i])
      {
        assert rows[j].isoCountry != iso;
      }
      KeyByLastWins(objs, IsoOf, i);
    }
  }

  /** `FuelMap`: a dictionary from ISO country code to `FuelObj`, filled row
      by row when it is created. */
  class FuelMap {
    var entries: map<string, FuelObj>

    /** `FuelMap.__init__` / `__extract_fuels`, over rows already read. */
    constructor (rows: seq<FuelRow>)
      ensures entries == Table(rows)
    {
      var m: map<string, FuelObj> := map[];
      for i := 0 to |rows|
        invariant m == KeyBy(FromRows(rows[..i]), IsoOf)
      {
        var fuel := FromRow(rows[i]);
        assert FromRows(rows[..i + 1]) == FromRows(rows[..i]) + [fuel];
        KeyBySnoc(FromRows(rows[..i]), fuel, IsoOf);
        m := m[fuel.isoCountry := fuel];
      }
      assert rows[..|rows|] == rows;
      entries := m;
    }

    /** `FuelMap.__call__`: the entry stored under the code, or `KeyError`
        for a code that is not a key. */
    function Call(iso: string): (r: Result<FuelObj>)
      reads this
      ensures r.Ok? <==> iso in entries
      ensures r.Ok? ==> r.value == entries[iso]
      ensures r.Err? ==> r.error == KeyError(iso)
    {
      if iso !in entries then Err(KeyError(iso)) else Ok(entries[iso])
    }
  }
}
