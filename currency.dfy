/** Currencies (data/currency.py): the `Currency` record with its write-once
    three-letter `code`, its conversions to and from euro, and the
    `Currencies` registry keyed by ISO country code. */
module CurrencyData {
  import opened Wrappers
  import opened Registry

  /** A currency. Only `code` is guarded by a setter; the loader assigns the
      other attributes once, right after it. */
  class Currency {
    var code: string
    const country: string
    const isoCountry: string
    const name: string
    /** What one unit of this currency costs in euro. */
    const euroTo: real
    /** What one euro costs in this currency. */
    const euroFrom: real

    constructor (country: string, isoCountry: string, name: string, euroTo: real, euroFrom: real)
      ensures code == ""
      ensures this.country == country && this.isoCountry == isoCountry && this.name == name
      ensures this.euroTo == euroTo && this.euroFrom == euroFrom
    {
      code := "";
      this.country, this.isoCountry, this.name := country, isoCountry, name;
      this.euroTo, this.euroFrom := euroTo, euroFrom;
    }

    /** The `code` setter: once a code is stored, any further assignment
        raises `AttributeError`, even one of a bad value; otherwise a value
        whose length is not 3 raises `ValueError`, and any other is stored.
        A stored code is never empty, so it is never replaced. */
    method SetCode(c: string) returns (r: Outcome)
      modifies this`code
      ensures old(code) != "" ==> r == Fail(AttributeError) && code == old(code)
      ensures old(code) == "" && |c| != 3 ==> r == Fail(ValueError) && code == old(code)
      ensures old(code) == "" && |c| == 3 ==> r == Pass && code == c
      ensures r == Pass ==> |code| == 3
    {
      if code != "" {
        return Fail(AttributeError);
      }
      if |c| != 3 {
        return Fail(ValueError);
      }
      code := c;
      return Pass;
    }

    /** `convert_to_euro`: an amount of this currency, in euro. */
    function ConvertToEuro(value: real): (r: real)
      ensures euroTo * euroFrom == 1.0 ==> r * euroFrom == value
      ensures euroTo > 0.0 ==> (r > 0.0 <==> value > 0.0)
    {
      value * euroTo
    }

    /** `convert_from_euro`: an amount of euro, in this currency. */
    function ConvertFromEuro(value: real): (r: real)
      ensures euroTo * euroFrom == 1.0 ==> r * euroTo == value
      ensures euroFrom > 0.0 ==> (r > 0.0 <==> value > 0.0)
    {
      value * euroFrom
    }

    /** Converting into euro and back returns the amount exactly when the two
        rates are reciprocal; both conversions are linear. */
    lemma ConversionRoundTrip(value: real, other: real)
      requires euroTo * euroFrom == 1.0
      ensures ConvertFromEuro(ConvertToEuro(value)) == value
      ensures ConvertToEuro(ConvertFromEuro(value)) == value
      ensures ConvertToEuro(value + other) == ConvertToEuro(value) + ConvertToEuro(other)
      ensures ConvertFromEuro(value + other) == ConvertFromEuro(value) + ConvertFromEuro(other)
    {
      calc {
        ConvertFromEuro(ConvertToEuro(value));
        (value * euroTo) * euroFrom;
        value * (euroTo * euroFrom);
      }
      calc {
        ConvertToEuro(ConvertFromEuro(value));
        (value * euroFrom) * euroTo;
        value * (euroTo * euroFrom);
      }
    }

    /** What the loader leaves in a currency read from `row`. */
    ghost predicate LoadedFrom(row: CurrencyRow)
      reads this
    {
      && code == row.alphabeticCode && country == row.country && isoCountry == row.isoCountry
      && name == row.currency && euroTo == row.againstEuro && euroFrom == row.euroAgainst
    }
  }

  /** One row of the currency table, rates already read as numbers. */
  datatype CurrencyRow = CurrencyRow(alphabeticCode: string, country: string, isoCountry: string,
                                     currency: string, againstEuro: real, euroAgainst: real)

  function IsoOf(row: CurrencyRow): string {
    row.isoCountry
  }

  /** The index of the first row whose currency code is not three letters
      long, or `|rows|` when there is none. */
  function FirstBadCode(rows: seq<CurrencyRow>): (i: nat)
    ensures i <= |rows|
    ensures forall j :: 0 <= j < i ==> |rows[j].alphabeticCode| == 3
    ensures i < |rows| ==> |rows[i].alphabeticCode| != 3
  {
    if rows == [] then 0
    else if |rows[0].alphabeticCode| != 3 then 0
    else 1 + FirstBadCode(rows[1..])
  }

  /** `Currencies`: currencies keyed by the ISO code of their country. */
  class Currencies {
    var byIso: map<string, Currency>

    constructor ()
      ensures byIso == map[]
    {
      byIso := map[];
    }

    /** One step of `__extract_currencies`: a fresh currency whose code is
        set through the setter, or the `ValueError` the setter raises. */
    static method LoadRow(row: CurrencyRow) returns (r: Result<Currency>)
      ensures r.Err? <==> |row.alphabeticCode| != 3
      ensures r.Err? ==> r.error == ValueError
      ensures r.Ok? ==> fresh(r.value) && r.value.LoadedFrom(row)
    {
      var curr := new Currency(row.country, row.isoCountry, row.currency, row.againstEuro, row.euroAgainst);
      var outcome := curr.SetCode(row.alphabeticCode);
      if outcome.Fail? {
        return Err(outcome.error);
      }
      return Ok(curr);
    }

    /** `Currencies.__init__` / `__extract_currencies`, over rows already
        read: `ValueError` when some row's code is not three letters long;
        otherwise each country is stored with the currency of its last row. */
    static method Load(rows: seq<CurrencyRow>) returns (r: Result<Currencies>)
      ensures r.Err? <==> FirstBadCode(rows) < |rows|
      ensures r.Err? ==> r.error == ValueError
      ensures r.Ok? ==> fresh(r.value)
      ensures r.Ok? ==> forall k :: k in r.value.byIso <==> k in KeyBy(rows, IsoOf)
      ensures r.Ok? ==> forall k :: k in r.value.byIso ==> r.value.byIso[k].LoadedFrom(KeyBy(rows, IsoOf)[k])
    {
      var m: map<string, Currency> := map[];
      for i := 0 to |rows|
        invariant forall j :: 0 <= j < i ==> |rows[j].alphabeticCode| == 3
        invariant forall k :: k in m <==> k in KeyBy(rows[..i], IsoOf)
        invariant forall k :: k in m ==> m[k].LoadedFrom(KeyBy(rows[..i], IsoOf)[k])
      {
        var row := rows[i];
        var loaded := LoadRow(row);
        if loaded.Err? {
          return Err(loaded.error);
        }
        KeyByPrefix(rows, i, IsoOf);
        m := m[loaded.value.isoCountry := loaded.value];
      }
      assert rows[..|rows|] == rows;
      var reg := new Currencies();
      reg.byIso := m;
      return Ok(reg);
    }

    /** `Currencies.__call__`: the stored currency, or `KeyError` for an
        unknown country code. */
    function Call(isoCountry: string): (r: Result<Currency>)
      reads this
      ensures r.Ok? <==> isoCountry in byIso
      ensures r.Ok? ==> r.value == byIso[isoCountry]
      ensures r.Err? ==> r.error == KeyError(isoCountry)
    {
      if isoCountry in byIso then Ok(byIso[isoCountry]) else Err(KeyError(isoCountry))
    }
  }
}
