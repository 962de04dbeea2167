/** The record store (data/data_storage.py): saved routing results keyed by
    travel week, each a record over the fixed header list. */
module Storage {
  import opened Wrappers
  import opened Registry
  import opened Text

  /** The keys every stored record must have, in column order. */
  const HEADERS: seq<string> := ["mode", "airports", "travel_week", "aircraft",
                                 "shortest_route", "shortest_dist", "eco_route", "eco_route_cost"]
  const AIRPORTS: string := "airports"
  const WEEK: string := "travel_week"

  function HeaderSet(): set<string> {
    set h | h in HEADERS
  }

  lemma HeadersDistinct()
    ensures forall i, j :: 0 <= i < j < |HEADERS| ==> HEADERS[i] != HEADERS[j]
    ensures |HeaderSet()| == |HEADERS|
  {
    assert HEADERS[1][3] != HEADERS[3][3];
    assert HEADERS[4][0] != HEADERS[7][0];
    CardOfDistinct(HEADERS);
  }

  lemma {:induction false} CardOfDistinct(s: seq<string>)
    requires forall i, j :: 0 <= i < j < |s| ==> s[i] != s[j]
    ensures |set x | x in s| == |s|
  {
    if s != [] {
      CardOfDistinct(s[1..]);
      assert (set x | x in s) == {s[0]} + (set x | x in s[1..]);
    }
  }

  /** A field value: a string, or the list of airport codes. */
  datatype Field = Text(s: string) | Words(ws: seq<string>)

  type Record = map<string, Field>

  /** `DataStore.map_data`: the values of `data` under the headers, in
      order; a list of any other length is refused. */
  method MapData(data: seq<Field>) returns (r: Result<Record>)
    ensures r.Err? <==> |data| != |HEADERS|
    ensures r.Err? ==> r.error == HeaderMismatch
    ensures r.Ok? ==> r.value.Keys == HeaderSet()
    ensures r.Ok? ==> forall i :: 0 <= i < |HEADERS| ==> r.value[HEADERS[i]] == data[i]
  {
    if |data| != |HEADERS| {
      return Err(HeaderMismatch);
    }
    HeadersDistinct();
    var res: Record := map[];
    for i := 0 to |HEADERS|
      invariant res.Keys == set j | 0 <= j < i :: HEADERS[j]
      invariant forall j :: 0 <= j < i ==> res[HEADERS[j]] == data[j]
    {
      res := res[HEADERS[i] := data[i]];
    }
    assert res.Keys == HeaderSet() by {
      forall h | h in HeaderSet()
        ensures h in res.Keys
      {
        var j :| 0 <= j < |HEADERS| && HEADERS[j] == h;
      }
    }
    return Ok(res);
  }

  /** What `DataStore.add` does with a record. */
  datatype Verdict = Ignored | Stored | Rejected

  /** `add`'s checks in order: the record must name a week (`KeyError`)
      that can be a key (`TypeError` for a list); a week already stored
      makes the call do nothing, even for an invalid record; a key outside
      the headers, or fewer keys than headers, is refused. */
  function Classify(entries: map<string, Record>, data: Record): Verdict {
    if WEEK !in data || data[WEEK].Words? then Rejected
    else if data[WEEK].s in entries then Ignored
    else if data.Keys - HeaderSet() != {} then Rejected
    else if |data| != |HEADERS| then Rejected
    else Stored
  }

  /** A record is stored exactly when its week is new and its keys are
      exactly the headers. */
  lemma ClassifyStored(entries: map<string, Record>, data: Record)
    ensures Classify(entries, data) == Stored <==>
      WEEK in data && data[WEEK].Text? && data[WEEK].s !in entries && data.Keys == HeaderSet()
  {
    HeadersDistinct();
    var keys := data.Keys;
    assert |keys| == |data|;
    if keys - HeaderSet() == {} && |keys| == |HEADERS| {
      SubsetSameSize(keys, HeaderSet());
    }
  }

  /** A set with nothing outside `b` and as many elements as `b` is `b`. */
  lemma SubsetSameSize<T>(a: set<T>, b: set<T>)
    requires a - b == {} && |a| == |b|
    ensures a == b
  {
    forall x | x in a
      ensures x in b
    {
      assert x !in a - b;
    }
    assert a + (b - a) == b;
    assert |b - a| == 0;
  }

  /** A record built by `map_data` from a list whose week is a string not
      yet stored is always accepted by `add`. */
  lemma AddMappedData(entries: map<string, Record>, data: seq<Field>, m: Record)
    requires |data| == |HEADERS|
    requires m.Keys == HeaderSet() && forall i :: 0 <= i < |HEADERS| ==> m[HEADERS[i]] == data[i]
    requires data[2].Text? && data[2].s !in entries
    ensures Classify(entries, m) == Stored
  {
    ClassifyStored(entries, m);
    assert HEADERS[2] == WEEK;
  }

  /** One row of the data file, column name to text. */
  type Row = map<string, string>

  /** The row has every header column; the airports and the week, which
      the reader treats specially, are named outright. */
  predicate Complete(row: Row) {
    && AIRPORTS in row && WEEK in row
    && forall i :: 0 <= i < |HEADERS| ==> HEADERS[i] in row
  }

  /** The first header, from position `i` on, the row lacks: reading that
      column is the first lookup to raise `KeyError`. */
  function FirstMissing(row: Row, i: nat): (m: Option<string>)
    requires i <= |HEADERS|
    ensures m.None? <==> forall j :: i <= j < |HEADERS| ==> HEADERS[j] in row
    ensures m.Some? ==> m.value !in row && exists j :: i <= j < |HEADERS| && HEADERS[j] == m.value
    decreases |HEADERS| - i
  {
    if i == |HEADERS| then None
    else if HEADERS[i] !in row then Some(HEADERS[i])
    else FirstMissing(row, i + 1)
  }

  /** The record `__read_data` builds from a complete row: every column as
      text, except the airports, upper-cased and split on whitespace. */
  function RecordOf(row: Row): (rec: Record)
    requires Complete(row)
    ensures rec.Keys == HeaderSet()
    ensures rec[AIRPORTS] == Words(Split(Upper(row[AIRPORTS])))
    ensures forall h :: h in HeaderSet() && h != AIRPORTS ==> rec[h] == Text(row[h])
  {
    map h | h in HeaderSet() :: if h == AIRPORTS then Words(Split(Upper(row[h]))) else Text(row[h])
  }

  /** The travel week a complete row is stored under. */
  function RowWeek(row: Row): string
    requires Complete(row)
  {
    row[WEEK]
  }

  function WeekOf(rec: Record): string {
    if WEEK in rec && rec[WEEK].Text? then rec[WEEK].s else ""
  }

  function RecordsOf(rows: seq<Row>): seq<Record>
    requires forall i :: 0 <= i < |rows| ==> Complete(rows[i])
  {
    seq(|rows|, i requires 0 <= i < |rows| => RecordOf(rows[i]))
  }

  /** The index of the first row that lacks a header, or `|rows|`. */
  function FirstIncomplete(rows: seq<Row>): (i: nat)
    ensures i <= |rows|
    ensures forall j :: 0 <= j < i ==> Complete(rows[j])
    ensures i < |rows| ==> !Complete(rows[i])
  {
    if rows == [] then 0
    else if !Complete(rows[0]) then 0
    else 1 + FirstIncomplete(rows[1..])
  }

  /** A record as `save` writes it: a list of airports joined with single
      spaces, every other field as it is. */
  function Joined(rec: Record): (out: Record)
    ensures out.Keys == rec.Keys
    ensures AIRPORTS in rec && rec[AIRPORTS].Words? ==> out[AIRPORTS] == Text(JoinSpaced(rec[AIRPORTS].ws))
    ensures forall h :: h in rec && (h != AIRPORTS || rec[h].Text?) ==> out[h] == rec[h]
  {
    if AIRPORTS in rec && rec[AIRPORTS].Words? then rec[AIRPORTS := Text(JoinSpaced(rec[AIRPORTS].ws))]
    else rec
  }

  /** The text columns of a record, as a row of the data file. */
  function RowOf(rec: Record): Row {
    map h | h in rec && rec[h].Text? :: rec[h].s
  }

  /** Writing a record read from the file and reading it back gives the same
      record: the airports come back as the same upper-case codes. */
  lemma SaveThenRead(row: Row)
    requires Complete(row)
    ensures Complete(RowOf(Joined(RecordOf(row))))
    ensures RecordOf(RowOf(Joined(RecordOf(row)))) == RecordOf(row)
  {
    var rec := RecordOf(row);
    var ws := Split(Upper(row[AIRPORTS]));
    var written := RowOf(Joined(rec));
    assert AIRPORTS in HeaderSet();
    assert written[AIRPORTS] == JoinSpaced(ws);
    SplitWords(Upper(row[AIRPORTS]));
    SplitNoLowerCase(Upper(row[AIRPORTS]));
    JoinSpacedNoLowerCase(ws);
    UpperOfUpper(JoinSpaced(ws));
    SplitJoinSpaced(ws);
    forall i | 0 <= i < |HEADERS|
      ensures HEADERS[i] in written
    {
      assert HEADERS[i] in HeaderSet();
    }
    var back := RecordOf(written);
    forall h | h in HeaderSet()
      ensures back[h] == rec[h]
    {
      if h != AIRPORTS {
        assert written[h] == row[h];
      }
    }
  }

  /** A record fit to be stored under week `k`: exactly the headers, with
      `k` as its week. */
  predicate WellFormed(k: string, rec: Record) {
    rec.Keys == HeaderSet() && WEEK in rec && rec[WEEK] == Text(k)
  }

  /** Every record read from the file is stored under its own week and has
      exactly the headers. */
  lemma ReadIsWellFormed(rows: seq<Row>)
    requires forall j :: 0 <= j < |rows| ==> Complete(rows[j])
    ensures forall k :: k in KeyBy(RecordsOf(rows), WeekOf) ==> WellFormed(k, KeyBy(RecordsOf(rows), WeekOf)[k])
  {
    var recs := RecordsOf(rows);
    KeyByEntries(recs, WeekOf);
    assert WEEK in HeaderSet();
    forall k | k in KeyBy(recs, WeekOf)
      ensures WellFormed(k, KeyBy(recs, WeekOf)[k])
    {
      var j :| 0 <= j < |recs| && recs[j] == KeyBy(recs, WeekOf)[k];
      assert recs[j] == RecordOf(rows[j]);
    }
  }

  /** `DataStore`: records keyed by travel week. */
  class DataStore {
    var entries: map<string, Record>

    /** The store's invariant: every record is well formed under its key. */
    predicate Valid()
      reads this
    {
      forall k :: k in entries ==> WellFormed(k, entries[k])
    }

    constructor ()
      ensures entries == map[]
    {
      entries := map[];
    }

    /** `DataStore.__init__` / `__read_data`, over rows already read: the
      first row without some header raises `KeyError` for the first such
      header; otherwise every row's record is stored under its week, a later
      row replacing an earlier one with the same week. */
    static method Open(rows: seq<Row>) returns (r: Result<DataStore>)
      ensures r.Err? <==> FirstIncomplete(rows) < |rows|
      ensures r.Err? ==> r.error == KeyError(FirstMissing(rows[FirstIncomplete(rows)], 0).value)
      ensures r.Ok? ==> fresh(r.value) && r.value.entries == KeyBy(RecordsOf(rows), WeekOf)
      ensures r.Ok? ==> r.value.Valid()
    {
      var m: map<string, Record> := map[];
      for i := 0 to |rows|
        invariant forall j :: 0 <= j < i ==> Complete(rows[j])
        invariant m == KeyBy(RecordsOf(rows[..i]), WeekOf)
      {
        var row := rows[i];
        var missing := FirstMissing(row, 0);
        if missing.Some? {
          assert FirstIncomplete(rows) == i by {
            FirstIncompleteAt(rows, i);
          }
          return Err(KeyError(missing.value));
        }
        var rec := RecordOf(row);
        ReadRowStep(rows, i);
        m := m[row[WEEK] := rec];
      }
      assert rows[..|rows|] == rows;
      FirstIncompleteAt(rows, |rows|);
      ReadIsWellFormed(rows);
      var store := new DataStore();
      store.entries := m;
      return Ok(store);
    }

    /** `DataStore.add`. A record without a week raises `KeyError`, one
        whose week is a list raises `TypeError`; a week already stored
        leaves the store as it is; a key outside the headers raises
        `KeyError` for that key, and otherwise a record without all eight
        headers is refused. An accepted record is stored under its week and
        nothing else changes. */
    method Add(data: Record) returns (r: Outcome)
      modifies this
      ensures old(Valid()) ==> Valid()
      ensures Classify(old(entries), data) == Stored ==> r == Pass && entries == old(entries)[data[WEEK].s := data]
      ensures Classify(old(entries), data) == Ignored ==> r == Pass && entries == old(entries)
      ensures Classify(old(entries), data) == Rejected ==> r.Fail? && entries == old(entries)
      ensures WEEK !in data ==> r == Fail(KeyError(WEEK))
      ensures WEEK in data && data[WEEK].Words? ==> r == Fail(TypeError)
      ensures r.Fail? && WEEK in data && data[WEEK].Text? ==>
        if data.Keys - HeaderSet() != {} then exists k :: k in data && k !in HEADERS && r.error == KeyError(k)
        else r.error == HeaderMismatch
    {
      if WEEK !in data {
        return Fail(KeyError(WEEK));
      }
      if data[WEEK].Words? {
        return Fail(TypeError);
      }
      if data[WEEK].s in entries {
        return Pass;
      }
      if data.Keys - HeaderSet() != {} {
        var key :| key in data.Keys - HeaderSet();
        return Fail(KeyError(key));
      }
      if |data| != |HEADERS| {
        return Fail(HeaderMismatch);
      }
      ClassifyStored(entries, data);
      entries := entries[data[WEEK].s := data];
      return Pass;
    }

    /** `DataStore.save`, without the file: the records as written, each a
        copy with its airports joined. The store itself is not changed. Every
        stored record has the airports column, which the source looks up
        unguarded, and every written record keeps its headers and week. */
    method Save() returns (written: map<string, Record>)
      requires Valid()
      ensures written.Keys == entries.Keys
      ensures forall k :: k in entries ==> written[k] == Joined(entries[k])
      ensures forall k :: k in written ==> WellFormed(k, written[k])
    {
      written := WriteRows(entries);
      forall k | k in written
        ensures WellFormed(k, written[k])
      {
        JoinedWellFormed(k, entries[k]);
      }
    }
  }

  /** The writing loop of `save`: one joined row per stored record. */
  method WriteRows(entries: map<string, Record>) returns (written: map<string, Record>)
    ensures written.Keys == entries.Keys
    ensures forall k :: k in entries ==> written[k] == Joined(entries[k])
  {
    written := map[];
    var remaining := entries.Keys;
    while remaining != {}
      invariant remaining <= entries.Keys
      invariant written.Keys == entries.Keys - remaining
      invariant forall k :: k in written ==> written[k] == Joined(entries[k])
      decreases |remaining|
    {
      var key :| key in remaining;
      written := written[key := Joined(entries[key])];
      remaining := remaining - {key};
    }
  }

  /** Joining the airports keeps a record's headers and its week. */
  lemma JoinedWellFormed(k: string, rec: Record)
    requires WellFormed(k, rec)
    ensures WellFormed(k, Joined(rec))
  {
    assert WEEK in rec && rec[WEEK].Text?;
  }

  lemma {:induction false} FirstIncompleteAt(rows: seq<Row>, i: nat)
    requires i <= |rows|
    requires forall j :: 0 <= j < i ==> Complete(rows[j])
    requires i < |rows| ==> !Complete(rows[i])
    ensures FirstIncomplete(rows) == i
  {
    if i > 0 {
      FirstIncompleteAt(rows[1..], i - 1);
    }
  }

  /** Reading one more row adds its record under its week. */
  lemma ReadRowStep(rows: seq<Row>, i: nat)
    requires i < |rows| && forall j :: 0 <= j <= i ==> Complete(rows[j])
    ensures KeyBy(RecordsOf(rows[..i + 1]), WeekOf) ==
      KeyBy(RecordsOf(rows[..i]), WeekOf)[rows[i][WEEK] := RecordOf(rows[i])]
  {
    var rec := RecordOf(rows[i]);
    RecordsOfSnoc(rows, i);
    KeyBySnoc(RecordsOf(rows[..i]), rec, WeekOf);
    WeekOfRecord(rows[i]);
  }

  lemma RecordsOfSnoc(rows: seq<Row>, i: nat)
    requires i < |rows| && forall j :: 0 <= j <= i ==> Complete(rows[j])
    ensures RecordsOf(rows[..i + 1]) == RecordsOf(rows[..i]) + [RecordOf(rows[i])]
  {
    var a := RecordsOf(rows[..i + 1]);
    var b := RecordsOf(rows[..i]) + [RecordOf(rows[i])];
    assert |a| == |b|;
    forall q | 0 <= q < |a|
      ensures a[q] == b[q]
    {
      assert rows[..i + 1][q] == rows[q];
      if q < i {
        assert rows[..i][q] == rows[q];
      }
    }
  }

  lemma WeekOfRecord(row: Row)
    requires Complete(row)
    ensures WeekOf(RecordOf(row)) == row[WEEK]
  {
    assert WEEK in HeaderSet() && WEEK != AIRPORTS;
  }

  /** After reading, each week holds the record of the last row with that
      week. */
  lemma ReadLastRowWins(rows: seq<Row>, i: nat)
    requires forall j :: 0 <= j < |rows| ==> Complete(rows[j])
    requires i < |rows|
    requires forall j :: i < j < |rows| ==> RowWeek(rows[j]) != RowWeek(rows[i])
    ensures RowWeek(rows[i]) in KeyBy(RecordsOf(rows), WeekOf)
    ensures KeyBy(RecordsOf(rows), WeekOf)[RowWeek(rows[i])] == RecordOf(rows[i])
  {
    var recs := RecordsOf(rows);
    assert WEEK in HeaderSet();
    forall j | 0 <= j < |rows|
      ensures WeekOf(recs[j]) == RowWeek(rows[j])
    {
    }
    KeyByLastWins(recs, WeekOf, i);
  }
}
