/** Response normalisation (`process_panda`, `make_df`, `make_series`,
    `process_orderbook` and the loop in `orderbooks`). A data frame is modelled
    by its rows, each a dictionary; a series is a frame of one row. The cell
    parsers (`pd.to_numeric`, `pd.to_datetime`, `float`) are passed in, and
    they alone decide which cells, `None` included, convert and to what. */
module Normaliser {
  import opened Json

  datatype Parsers = Parsers(toNumeric: Value -> Option<Value>, toDatetime: Value -> Option<Value>)

  datatype NormError =
    | KeyError(column: string)     // a declared column no row carries
    | ParseError(column: string)   // a cell of a declared column that does not parse
    | NotTabular                   // a payload pandas is not given as a list of records / one record
    | TypeError                    // `in` or `[]` applied to a value that does not support it

  datatype Normalised =
    | Passthrough(raw: Value)      // an error envelope, returned as it came
    | Table(rows: seq<Entries>)    // make_df
    | Record(fields: Entries)      // make_series

  /** The error marker: a dict holding `"statusCode"`. */
  predicate IsErrorEnvelope(data: Value)
  {
    data.Dict? && HasKey(data.entries, "statusCode")
  }

  /** Column selection `panda[cols]` succeeds only for labels some row carries. */
  predicate ColumnPresent(rows: seq<Entries>, c: string)
  {
    exists i :: 0 <= i < |rows| && HasKey(rows[i], c)
  }

  /** The first declared column that no row carries, the one pandas reports. */
  function FirstMissing(rows: seq<Entries>, cols: seq<string>): (m: Option<string>)
    ensures m.None? <==> forall c :: c in cols ==> ColumnPresent(rows, c)
    ensures m.Some? ==> m.value in cols && !ColumnPresent(rows, m.value)
  {
    if cols == [] then None
    else if !ColumnPresent(rows, cols[0]) then Some(cols[0])
    else FirstMissing(rows, cols[1..])
  }

  /** One cell after coercion to a declared column type. */
  function CoerceEntryIn(e: (string, Value), cols: seq<string>, parse: Value -> Option<Value>): (string, Value)
  {
    if e.0 in cols && parse(e.1).Some? then (e.0, parse(e.1).value) else e
  }

  predicate RowParses(row: Entries, c: string, parse: Value -> Option<Value>)
  {
    forall j :: 0 <= j < |row| && row[j].0 == c ==> parse(row[j].1).Some?
  }

  function CoerceRow(row: Entries, c: string, parse: Value -> Option<Value>): Entries
  {
    seq(|row|, j requires 0 <= j < |row| => CoerceEntryIn(row[j], [c], parse))
  }

  /** `.apply(parse)` on one column: every cell parsed, or an error. */
  function CoerceColumn(rows: seq<Entries>, c: string, parse: Value -> Option<Value>): Result<seq<Entries>, NormError>
  {
    if forall i :: 0 <= i < |rows| ==> RowParses(rows[i], c, parse)
    then Ok(seq(|rows|, i requires 0 <= i < |rows| => CoerceRow(rows[i], c, parse)))
    else Err(ParseError(c))
  }

  /** The columns of one group, coerced left to right. */
  function CoerceColumns(rows: seq<Entries>, cols: seq<string>, parse: Value -> Option<Value>): Result<seq<Entries>, NormError>
    decreases |cols|
  {
    if cols == [] then Ok(rows)
    else match CoerceColumn(rows, cols[0], parse)
      case Err(e) => Err(e)
      case Ok(next) => CoerceColumns(next, cols[1..], parse)
  }

  /** `panda[cols] = panda[cols].apply(parse)`: the selection fails first on a
      missing column, then the cells are parsed. */
  function CoerceGroup(rows: seq<Entries>, cols: seq<string>, parse: Value -> Option<Value>): Result<seq<Entries>, NormError>
  {
    match FirstMissing(rows, cols)
    case Some(c) => Err(KeyError(c))
    case None => CoerceColumns(rows, cols, parse)
  }

  /** `process_panda`: the numeric columns, then the time columns. An absent
      list (`None`) is the empty list here; both leave the frame as it is. */
  function ProcessRows(rows: seq<Entries>, numeric: seq<string>, time: seq<string>, parsers: Parsers): Result<seq<Entries>, NormError>
  {
    match CoerceGroup(rows, numeric, parsers.toNumeric)
    case Err(e) => Err(e)
    case Ok(next) => CoerceGroup(next, time, parsers.toDatetime)
  }

  /** `pd.DataFrame(records)`: one row per record. */
  function RecordEntries(items: seq<Value>): (rows: seq<Entries>)
    requires forall i :: 0 <= i < |items| ==> items[i].Dict?
    ensures |rows| == |items|
  {
    seq(|items|, i requires 0 <= i < |items| && items[i].Dict? => items[i].entries)
  }

  /** What `make_df` returns (as a function of its input). */
  function NormaliseTable(data: Value, numeric: seq<string>, time: seq<string>, parsers: Parsers): Result<Normalised, NormError>
  {
    if IsErrorEnvelope(data) then Ok(Passthrough(data))
    else if data.List? && forall i :: 0 <= i < |data.items| ==> data.items[i].Dict? then
      match ProcessRows(RecordEntries(data.items), numeric, time, parsers)
      case Err(e) => Err(e)
      case Ok(out) => Ok(Table(out))
    else Err(NotTabular)
  }

  /** What `make_series` returns (as a function of its input). */
  function NormaliseRecord(data: Value, numeric: seq<string>, time: seq<string>, parsers: Parsers): Result<Normalised, NormError>
  {
    if IsErrorEnvelope(data) then Ok(Passthrough(data))
    else if data.Dict? then
      match ProcessRows([data.entries], numeric, time, parsers)
      case Err(e) => Err(e)
      case Ok(out) =>
        ProcessRowsKeepsRows([data.entries], numeric, time, parsers);
        Ok(Record(out[0]))
    else Err(NotTabular)
  }

  lemma {:induction false} CoerceColumnsKeepsRows(rows: seq<Entries>, cols: seq<string>, parse: Value -> Option<Value>)
    ensures CoerceColumns(rows, cols, parse).Ok? ==> |CoerceColumns(rows, cols, parse).value| == |rows|
    decreases |cols|
  {
    if cols != [] && CoerceColumn(rows, cols[0], parse).Ok? {
      CoerceColumnsKeepsRows(CoerceColumn(rows, cols[0], parse).value, cols[1..], parse);
    }
  }

  /** Coercion never adds or drops a row. */
  lemma ProcessRowsKeepsRows(rows: seq<Entries>, numeric: seq<string>, time: seq<string>, parsers: Parsers)
    ensures ProcessRows(rows, numeric, time, parsers).Ok? ==> |ProcessRows(rows, numeric, time, parsers).value| == |rows|
  {
    CoerceColumnsKeepsRows(rows, numeric, parsers.toNumeric);
    if CoerceGroup(rows, numeric, parsers.toNumeric).Ok? {
      CoerceColumnsKeepsRows(CoerceGroup(rows, numeric, parsers.toNumeric).value, time, parsers.toDatetime);
    }
  }

  /** A data frame (or series), whose columns `process_panda` reassigns in place. */
  class Frame {
    var rows: seq<Entries>

    constructor (rows: seq<Entries>)
      ensures this.rows == rows
    {
      this.rows := rows;
    }

    /** Coerce the column `c` of every row in place; false when a cell fails. */
    method CoerceColumnInPlace(c: string, parse: Value -> Option<Value>) returns (ok: bool)
      modifies this
      ensures ok <==> CoerceColumn(old(rows), c, parse).Ok?
      ensures ok ==> rows == CoerceColumn(old(rows), c, parse).value
    {
      ghost var original := rows;
      var i := 0;
      while i < |rows|
        invariant 0 <= i <= |rows| == |original|
        invariant forall k :: 0 <= k < i ==> RowParses(original[k], c, parse)
        invariant forall k :: 0 <= k < i ==> rows[k] == CoerceRow(original[k], c, parse)
        invariant rows[i..] == original[i..]
      {
        assert rows[i] == original[i];
        if !RowParses(rows[i], c, parse) {
          return false;
        }
        rows := rows[i := CoerceRow(rows[i], c, parse)];
        i := i + 1;
      }
      return true;
    }

    /** `panda[cols] = panda[cols].apply(parse)`. */
    method CoerceGroupInPlace(cols: seq<string>, parse: Value -> Option<Value>) returns (err: Option<NormError>)
      modifies this
      ensures CoerceGroup(old(rows), cols, parse) == if err.None? then Ok(rows) else Err(err.value)
    {
      var missing := FirstMissing(rows, cols);
      if missing.Some? {
        return Some(KeyError(missing.value));
      }
      ghost var original := rows;
      for k := 0 to |cols|
        invariant CoerceColumns(original, cols, parse) == CoerceColumns(rows, cols[k..], parse)
      {
        assert cols[k..][1..] == cols[k + 1..];
        var ok := CoerceColumnInPlace(cols[k], parse);
        if !ok {
          return Some(ParseError(cols[k]));
        }
      }
      return None;
    }

    /** `process_panda`. */
    method ProcessPanda(numeric: seq<string>, time: seq<string>, parsers: Parsers) returns (err: Option<NormError>)
      modifies this
      ensures ProcessRows(old(rows), numeric, time, parsers) == if err.None? then Ok(rows) else Err(err.value)
    {
      err := CoerceGroupInPlace(numeric, parsers.toNumeric);
      if err.None? {
        err := CoerceGroupInPlace(time, parsers.toDatetime);
      }
    }
  }

  /** `make_df`: an error envelope comes back untouched, anything else is
      built into a frame and typed by `process_panda`. */
  method MakeDf(data: Value, numeric: seq<string>, time: seq<string>, parsers: Parsers)
    returns (r: Result<Normalised, NormError>)
    ensures IsErrorEnvelope(data) ==> r == Ok(Passthrough(data))
    ensures r == NormaliseTable(data, numeric, time, parsers)
  {
    if IsErrorEnvelope(data) {
      return Ok(Passthrough(data));
    }
    if !(data.List? && forall i :: 0 <= i < |data.items| ==> data.items[i].Dict?) {
      return Err(NotTabular);
    }
    var frame := new Frame(RecordEntries(data.items));
    var err := frame.ProcessPanda(numeric, time, parsers);
    r := if err.Some? then Err(err.value) else Ok(Table(frame.rows));
  }

  /** `make_series`: an error envelope comes back untouched, a record is
      typed by `process_panda`. */
  method MakeSeries(data: Value, numeric: seq<string>, time: seq<string>, parsers: Parsers)
    returns (r: Result<Normalised, NormError>)
    ensures IsErrorEnvelope(data) ==> r == Ok(Passthrough(data))
    ensures r == NormaliseRecord(data, numeric, time, parsers)
  {
    if IsErrorEnvelope(data) {
      return Ok(Passthrough(data));
    }
    if !data.Dict? {
      return Err(NotTabular);
    }
    var frame := new Frame([data.entries]);
    var err := frame.ProcessPanda(numeric, time, parsers);
    if err.Some? {
      return Err(err.value);
    }
    ProcessRowsKeepsRows([data.entries], numeric, time, parsers);
    r := Ok(Record(frame.rows[0]));
  }

  // ----- What normalisation does to a frame, cell by cell -----

  predicate GroupParses(rows: seq<Entries>, cols: seq<string>, parse: Value -> Option<Value>)
  {
    forall i, j :: 0 <= i < |rows| && 0 <= j < |rows[i]| && rows[i][j].0 in cols ==> parse(rows[i][j].1).Some?
  }

  predicate GroupCoerced(rows: seq<Entries>, out: seq<Entries>, cols: seq<string>, parse: Value -> Option<Value>)
  {
    && |out| == |rows|
    && forall i :: 0 <= i < |rows| ==>
         |out[i]| == |rows[i]| && forall j :: 0 <= j < |rows[i]| ==> out[i][j] == CoerceEntryIn(rows[i][j], cols, parse)
  }

  /** A cell after `process_panda`: same column; a numeric column holds the
      parsed number, a time column the parsed timestamp, any other column the
      value it had. */
  predicate CellTyped(e: (string, Value), o: (string, Value), numeric: seq<string>, time: seq<string>, parsers: Parsers)
  {
    && o.0 == e.0
    && (if e.0 in numeric then parsers.toNumeric(e.1) == Some(o.1)
        else if e.0 in time then parsers.toDatetime(e.1) == Some(o.1)
        else o.1 == e.1)
  }

  /** `out` is `rows` with every declared cell typed: same number of rows, each
      with the same columns in the same order. */
  predicate RowsTyped(rows: seq<Entries>, out: seq<Entries>, numeric: seq<string>, time: seq<string>, parsers: Parsers)
  {
    && |out| == |rows|
    && forall i :: 0 <= i < |rows| ==>
         |out[i]| == |rows[i]| && forall j :: 0 <= j < |rows[i]| ==> CellTyped(rows[i][j], out[i][j], numeric, time, parsers)
  }

  lemma NoDuplicatesTail<T>(s: seq<T>)
    requires |s| >= 1 && NoDuplicates(s)
    ensures NoDuplicates(s[1..]) && s[0] !in s[1..]
  {
    forall i, j | 0 <= i < j < |s| - 1 ensures s[1..][i] != s[1..][j] {
      assert s[i + 1] != s[j + 1];
    }
    forall k | 0 <= k < |s| - 1 ensures s[1..][k] != s[0] {
      assert s[0] != s[k + 1];
    }
  }

  lemma NoDuplicatesApart<T>(a: seq<T>, b: seq<T>)
    requires NoDuplicates(a + b)
    ensures NoDuplicates(a) && NoDuplicates(b)
    ensures forall x :: x in a ==> x !in b
  {
    forall i, j | 0 <= i < j < |a| ensures a[i] != a[j] {
      assert (a + b)[i] != (a + b)[j];
    }
    forall i, j | 0 <= i < j < |b| ensures b[i] != b[j] {
      assert (a + b)[|a| + i] != (a + b)[|a| + j];
    }
    forall i, j | 0 <= i < |a| && 0 <= j < |b| ensures a[i] != b[j] {
      assert (a + b)[i] != (a + b)[|a| + j];
    }
  }

  /** Coercing a list of distinct columns succeeds exactly when every cell of
      those columns parses, and then replaces exactly those cells. */
  lemma {:induction false} CoerceColumnsSpec(rows: seq<Entries>, cols: seq<string>, parse: Value -> Option<Value>)
    requires NoDuplicates(cols)
    ensures CoerceColumns(rows, cols, parse).Ok? <==> GroupParses(rows, cols, parse)
    ensures CoerceColumns(rows, cols, parse).Ok? ==> GroupCoerced(rows, CoerceColumns(rows, cols, parse).value, cols, parse)
    decreases |cols|
  {
    if cols != [] {
      var c, rest := cols[0], cols[1..];
      NoDuplicatesTail(cols);
      match CoerceColumn(rows, c, parse)
      case Err(_) =>
        var i :| 0 <= i < |rows| && !RowParses(rows[i], c, parse);
        var j :| 0 <= j < |rows[i]| && rows[i][j].0 == c && parse(rows[i][j].1).None?;
      case Ok(next) =>
        CoerceColumnsSpec(next, rest, parse);
        assert |next| == |rows|;
        forall i, j | 0 <= i < |rows| && 0 <= j < |rows[i]|
          ensures |next[i]| == |rows[i]|
          ensures next[i][j] == CoerceEntryIn(rows[i][j], [c], parse)
          ensures rows[i][j].0 in cols ==> parse(rows[i][j].1).Some?
                  <==> (rows[i][j].0 in rest ==> parse(next[i][j].1).Some?)
        {
          assert RowParses(rows[i], c, parse);
        }
        if CoerceColumns(next, rest, parse).Ok? {
          var out := CoerceColumns(next, rest, parse).value;
          forall i | 0 <= i < |rows|
            ensures |out[i]| == |rows[i]|
            ensures forall j :: 0 <= j < |rows[i]| ==> out[i][j] == CoerceEntryIn(rows[i][j], cols, parse)
          {
            assert |next[i]| == |rows[i]|;
            forall j | 0 <= j < |rows[i]| ensures out[i][j] == CoerceEntryIn(rows[i][j], cols, parse) {
              assert next[i][j] == CoerceEntryIn(rows[i][j], [c], parse);
              assert out[i][j] == CoerceEntryIn(next[i][j], rest, parse);
            }
          }
        } else {
          var i, j :| 0 <= i < |next| && 0 <= j < |next[i]| && next[i][j].0 in rest && parse(next[i][j].1).None?;
          assert |next[i]| == |rows[i]|;
          assert next[i][j] == CoerceEntryIn(rows[i][j], [c], parse);
        }
    }
  }

  lemma GroupCoercedKeepsColumns(rows: seq<Entries>, out: seq<Entries>, cols: seq<string>, parse: Value -> Option<Value>, c: string)
    requires GroupCoerced(rows, out, cols, parse)
    ensures ColumnPresent(out, c) <==> ColumnPresent(rows, c)
  {
    forall i | 0 <= i < |rows| ensures Keys(out[i]) == Keys(rows[i]) {
      assert forall j :: 0 <= j < |rows[i]| ==> out[i][j].0 == rows[i][j].0;
    }
  }

  /** `process_panda` with distinct declared columns fails exactly when a
      declared column is carried by no row or one of its cells does not parse;
      otherwise it types exactly the declared cells and keeps every row, every
      column and every other cell. */
  lemma {:induction false} ProcessRowsSpec(rows: seq<Entries>, numeric: seq<string>, time: seq<string>, parsers: Parsers)
    requires NoDuplicates(numeric + time)
    ensures ProcessRows(rows, numeric, time, parsers).Ok? <==>
              && (forall c :: c in numeric + time ==> ColumnPresent(rows, c))
              && GroupParses(rows, numeric, parsers.toNumeric)
              && GroupParses(rows, time, parsers.toDatetime)
    ensures ProcessRows(rows, numeric, time, parsers).Ok? ==>
              RowsTyped(rows, ProcessRows(rows, numeric, time, parsers).value, numeric, time, parsers)
  {
    NoDuplicatesApart(numeric, time);
    CoerceColumnsSpec(rows, numeric, parsers.toNumeric);
    if CoerceGroup(rows, numeric, parsers.toNumeric).Ok? {
      var next := CoerceGroup(rows, numeric, parsers.toNumeric).value;
      CoerceColumnsSpec(next, time, parsers.toDatetime);
      forall c ensures ColumnPresent(next, c) <==> ColumnPresent(rows, c) {
        GroupCoercedKeepsColumns(rows, next, numeric, parsers.toNumeric, c);
      }
      // time cells are untouched by the numeric pass
      forall i, j | 0 <= i < |rows| && 0 <= j < |rows[i]|
        ensures |next[i]| == |rows[i]|
        ensures next[i][j] == CoerceEntryIn(rows[i][j], numeric, parsers.toNumeric)
        ensures rows[i][j].0 in time ==> next[i][j] == rows[i][j]
      {
      }
      if ProcessRows(rows, numeric, time, parsers).Ok? {
        var out := ProcessRows(rows, numeric, time, parsers).value;
        forall i | 0 <= i < |rows|
          ensures |out[i]| == |rows[i]|
          ensures forall j :: 0 <= j < |rows[i]| ==> CellTyped(rows[i][j], out[i][j], numeric, time, parsers)
        {
          forall j | 0 <= j < |rows[i]| ensures CellTyped(rows[i][j], out[i][j], numeric, time, parsers) {
            assert out[i][j] == CoerceEntryIn(next[i][j], time, parsers.toDatetime);
          }
        }
      } else if forall c :: c in time ==> ColumnPresent(next, c) {
        var i, j :| 0 <= i < |next| && 0 <= j < |next[i]| && next[i][j].0 in time && parsers.toDatetime(next[i][j].1).None?;
        assert next[i][j] == rows[i][j];
      }
    } else if forall c :: c in numeric ==> ColumnPresent(rows, c) {
      assert !GroupParses(rows, numeric, parsers.toNumeric);
    }
  }

  /** An empty list becomes an empty table only when no column is declared;
      selecting a declared column of an empty frame raises `KeyError`. */
  lemma EmptyListNormalisation(numeric: seq<string>, time: seq<string>, parsers: Parsers)
    ensures NormaliseTable(List([]), numeric, time, parsers) ==
              if numeric == [] && time == [] then Ok(Table([]))
              else if numeric != [] then Err(KeyError(numeric[0]))
              else Err(KeyError(time[0]))
  {
    assert !IsErrorEnvelope(List([]));
    var rows: seq<Entries> := [];
    assert RecordEntries([]) == rows;
    assert forall c :: !ColumnPresent(rows, c);
    if numeric == [] {
      assert CoerceGroup(rows, numeric, parsers.toNumeric) == Ok(rows);
    }
  }

  /** `make_df` on a list of records types the declared cells of every row and
      keeps everything else; it yields a table only from a list of records. */
  lemma NormaliseTableSpec(data: Value, numeric: seq<string>, time: seq<string>, parsers: Parsers)
    requires NoDuplicates(numeric + time)
    ensures IsErrorEnvelope(data) ==> NormaliseTable(data, numeric, time, parsers) == Ok(Passthrough(data))
    ensures !IsErrorEnvelope(data) && NormaliseTable(data, numeric, time, parsers).Ok? ==>
              && data.List?
              && (forall i :: 0 <= i < |data.items| ==> data.items[i].Dict?)
              && NormaliseTable(data, numeric, time, parsers).value.Table?
              && RowsTyped(RecordEntries(data.items), NormaliseTable(data, numeric, time, parsers).value.rows, numeric, time, parsers)
  {
    if !IsErrorEnvelope(data) && data.List? && forall i :: 0 <= i < |data.items| ==> data.items[i].Dict? {
      ProcessRowsSpec(RecordEntries(data.items), numeric, time, parsers);
    }
  }

  /** `make_series` on a record that is not an error envelope succeeds exactly
      when it carries every declared field and each of them parses; the result
      has the record's fields in order, the declared ones typed. */
  lemma NormaliseRecordSpec(data: Value, numeric: seq<string>, time: seq<string>, parsers: Parsers)
    requires NoDuplicates(numeric + time)
    requires data.Dict? && !IsErrorEnvelope(data)
    ensures NormaliseRecord(data, numeric, time, parsers).Ok? <==>
              && (forall c :: c in numeric + time ==> HasKey(data.entries, c))
              && (forall j :: 0 <= j < |data.entries| && data.entries[j].0 in numeric ==> parsers.toNumeric(data.entries[j].1).Some?)
              && (forall j :: 0 <= j < |data.entries| && data.entries[j].0 in time ==> parsers.toDatetime(data.entries[j].1).Some?)
    ensures NormaliseRecord(data, numeric, time, parsers).Ok? ==>
              && NormaliseRecord(data, numeric, time, parsers).value.Record?
              && var fields := NormaliseRecord(data, numeric, time, parsers).value.fields;
                 |fields| == |data.entries| &&
                 forall j :: 0 <= j < |data.entries| ==> CellTyped(data.entries[j], fields[j], numeric, time, parsers)
  {
    var rows := [data.entries];
    ProcessRowsSpec(rows, numeric, time, parsers);
    ProcessRowsKeepsRows(rows, numeric, time, parsers);
    forall c ensures ColumnPresent(rows, c) <==> HasKey(data.entries, c) {
      if HasKey(data.entries, c) {
        assert HasKey(rows[0], c);
      }
    }
    assert GroupParses(rows, numeric, parsers.toNumeric) <==>
      forall j :: 0 <= j < |data.entries| && data.entries[j].0 in numeric ==> parsers.toNumeric(data.entries[j].1).Some?;
    assert GroupParses(rows, time, parsers.toDatetime) <==>
      forall j :: 0 <= j < |data.entries| && data.entries[j].0 in time ==> parsers.toDatetime(data.entries[j].1).Some?;
  }

  // ----- Order books -----

  const OrderbookSides: seq<string> := ["bids", "asks"]

  /** One order-book level `[price, amount]` that `float` accepts on both cells. */
  predicate IsLevel(level: Value, toFloat: Value -> Option<real>)
  {
    level.List? && |level.items| == 2 && toFloat(level.items[0]).Some? && toFloat(level.items[1]).Some?
  }

  /** `[[float(price), float(amount)] for price, amount in levels]`. */
  function ParseSide(levels: Value, toFloat: Value -> Option<real>): (r: Option<Value>)
    ensures r.Some? <==> levels.List? && forall i :: 0 <= i < |levels.items| ==> IsLevel(levels.items[i], toFloat)
    ensures r.Some? ==>
              && r.value.List? && |r.value.items| == |levels.items|
              && forall i :: 0 <= i < |levels.items| ==>
                   && toFloat(levels.items[i].items[0]).Some? && toFloat(levels.items[i].items[1]).Some?
                   && r.value.items[i] == List([Float(toFloat(levels.items[i].items[0]).value),
                                                Float(toFloat(levels.items[i].items[1]).value)])
  {
    if levels.List? && forall i :: 0 <= i < |levels.items| ==> IsLevel(levels.items[i], toFloat) then
      Some(List(seq(|levels.items|, i requires 0 <= i < |levels.items| && IsLevel(levels.items[i], toFloat) =>
        List([Float(toFloat(levels.items[i].items[0]).value), Float(toFloat(levels.items[i].items[1]).value)]))))
    else None
  }

  /** `sub` occurs in `s` as a contiguous piece (`sub in s` on strings). */
  predicate Contains(s: string, sub: string)
  {
    sub <= s || (s != [] && Contains(s[1..], sub))
  }

  /** Python's `key in container` on a decoded JSON value: key membership for a
      dict, element membership for a list, substring search for a string; any
      other value raises `TypeError`. */
  function Membership(container: Value, key: string): Result<bool, NormError>
  {
    match container
    case Dict(entries) => Ok(HasKey(entries, key))
    case List(items) => Ok(Str(key) in items)
    case Str(s) => Ok(Contains(s, key))
    case _ => Err(TypeError)
  }

  /** `d[k] = v` for a key `d` holds: the entry keeps its place. */
  function SetValue(d: Entries, k: string, v: Value): Entries
  {
    seq(|d|, i requires 0 <= i < |d| => if d[i].0 == k then (k, v) else d[i])
  }

  /** One pass of the loop in `process_orderbook`: rewrite `side` if present. */
  function ProcessSide(orderbook: Value, side: string, toFloat: Value -> Option<real>): Result<Value, NormError>
  {
    match Membership(orderbook, side)
    case Err(e) => Err(e)
    case Ok(false) => Ok(orderbook)
    case Ok(true) =>
      if orderbook.Dict? then
        LookupFound(orderbook.entries, side);
        match ParseSide(Lookup(orderbook.entries, side).value, toFloat)
        case None => Err(ParseError(side))
        case Some(levels) => Ok(Dict(SetValue(orderbook.entries, side, levels)))
      else Err(TypeError)   // a list or string subscripted with a string
  }

  function ProcessSides(orderbook: Value, sides: seq<string>, toFloat: Value -> Option<real>): Result<Value, NormError>
    decreases |sides|
  {
    if sides == [] then Ok(orderbook)
    else match ProcessSide(orderbook, sides[0], toFloat)
      case Err(e) => Err(e)
      case Ok(next) => ProcessSides(next, sides[1..], toFloat)
  }

  /** What `process_orderbook` returns (as a function of its input). */
  function ProcessedOrderbook(orderbook: Value, toFloat: Value -> Option<real>): Result<Value, NormError>
  {
    ProcessSides(orderbook, OrderbookSides, toFloat)
  }

  /** `process_orderbook`: the dictionary is rewritten side by side. */
  method ProcessOrderbook(orderbook: Value, toFloat: Value -> Option<real>) returns (r: Result<Value, NormError>)
    ensures r == ProcessedOrderbook(orderbook, toFloat)
  {
    var book := orderbook;
    var sides := OrderbookSides;
    for k := 0 to |sides|
      invariant ProcessSides(orderbook, sides, toFloat) == ProcessSides(book, sides[k..], toFloat)
    {
      assert sides[k..][1..] == sides[k + 1..];
      var side := sides[k];
      var present := Membership(book, side);
      if present.Err? {
        return Err(present.error);
      }
      if present.value && !book.Dict? {
        return Err(TypeError);
      }
      if present.value {
        LookupFound(book.entries, side);
        var levels := ParseSide(Lookup(book.entries, side).value, toFloat);
        if levels.None? {
          return Err(ParseError(side));
        }
        book := Dict(SetValue(book.entries, side, levels.value));
      }
    }
    return Ok(book);
  }

  /** The loop in `orderbooks`: each book of the response list is replaced by
      its processed form, in place; the first book that fails stops the loop. */
  method ProcessOrderbooks(books: array<Value>, toFloat: Value -> Option<real>) returns (err: Option<NormError>)
    modifies books
    ensures err.None? <==> forall i :: 0 <= i < books.Length ==> ProcessedOrderbook(old(books[i]), toFloat).Ok?
    ensures err.None? ==> forall i :: 0 <= i < books.Length ==> ProcessedOrderbook(old(books[i]), toFloat) == Ok(books[i])
  {
    for i := 0 to books.Length
      invariant forall k :: 0 <= k < i ==> ProcessedOrderbook(old(books[k]), toFloat) == Ok(books[k])
      invariant forall k :: i <= k < books.Length ==> books[k] == old(books[k])
    {
      var r := ProcessOrderbook(books[i], toFloat);
      if r.Err? {
        return Some(r.error);
      }
      books[i] := r.value;
    }
    return None;
  }

  /** For a dictionary with distinct keys, rewriting one side either fails on a
      malformed side or replaces exactly that entry's value by its parsed
      levels, leaving every other entry, and the key order, as it was. */
  lemma ProcessSideSpec(orderbook: Value, side: string, toFloat: Value -> Option<real>)
    requires orderbook.Dict? && NoDuplicates(Keys(orderbook.entries))
    ensures ProcessSide(orderbook, side, toFloat).Ok? <==>
              forall j :: 0 <= j < |orderbook.entries| && orderbook.entries[j].0 == side ==>
                ParseSide(orderbook.entries[j].1, toFloat).Some?
    ensures ProcessSide(orderbook, side, toFloat).Ok? ==>
              var out := ProcessSide(orderbook, side, toFloat).value;
              && out.Dict? && |out.entries| == |orderbook.entries|
              && forall j :: 0 <= j < |orderbook.entries| ==>
                   && out.entries[j].0 == orderbook.entries[j].0
                   && (if orderbook.entries[j].0 == side
                       then ParseSide(orderbook.entries[j].1, toFloat) == Some(out.entries[j].1)
                       else out.entries[j] == orderbook.entries[j])
  {
    var d := orderbook.entries;
    if HasKey(d, side) {
      var j0 :| 0 <= j0 < |d| && Keys(d)[j0] == side;
      LookupAt(d, j0);
      forall j | 0 <= j < |d| && d[j].0 == side ensures j == j0 {
        assert Keys(d)[j] == Keys(d)[j0];
      }
    } else {
      forall j | 0 <= j < |d| ensures d[j].0 != side {
        assert Keys(d)[j] == d[j].0;
      }
    }
  }

  /** `process_orderbook` on a dictionary with distinct keys fails exactly when
      a present side is not a list of parseable `[price, amount]` pairs.
      Otherwise every present side becomes the parsed pairs, same length and
      order; absent sides stay absent; every other entry is unchanged. A list
      or string comes back as it was unless a side name occurs in it, which
      makes the subscript raise `TypeError`; any other value raises
      `TypeError` at the membership test. */
  lemma ProcessedOrderbookSpec(orderbook: Value, toFloat: Value -> Option<real>)
    requires orderbook.Dict? ==> NoDuplicates(Keys(orderbook.entries))
    ensures !orderbook.Dict? ==>
              (ProcessedOrderbook(orderbook, toFloat).Ok? <==>
                 || (orderbook.List? && Str("bids") !in orderbook.items && Str("asks") !in orderbook.items)
                 || (orderbook.Str? && !Contains(orderbook.s, "bids") && !Contains(orderbook.s, "asks")))
    ensures !orderbook.Dict? ==>
              ProcessedOrderbook(orderbook, toFloat) == Ok(orderbook) ||
              ProcessedOrderbook(orderbook, toFloat) == Err(TypeError)
    ensures orderbook.Dict? ==>
              (ProcessedOrderbook(orderbook, toFloat).Ok? <==>
                 forall j :: 0 <= j < |orderbook.entries| && orderbook.entries[j].0 in OrderbookSides ==>
                   ParseSide(orderbook.entries[j].1, toFloat).Some?)
    ensures orderbook.Dict? && ProcessedOrderbook(orderbook, toFloat).Ok? ==>
              var out := ProcessedOrderbook(orderbook, toFloat).value;
              && out.Dict? && Keys(out.entries) == Keys(orderbook.entries)
              && forall j :: 0 <= j < |orderbook.entries| ==>
                   if orderbook.entries[j].0 in OrderbookSides
                   then ParseSide(orderbook.entries[j].1, toFloat) == Some(out.entries[j].1)
                   else out.entries[j] == orderbook.entries[j]
  {
    assert OrderbookSides[1..] == ["asks"];
    assert "bids" != "asks";
    if orderbook.Dict? {
      var d := orderbook.entries;
      ProcessSideSpec(orderbook, "bids", toFloat);
      if ProcessSide(orderbook, "bids", toFloat).Ok? {
        var mid := ProcessSide(orderbook, "bids", toFloat).value;
        assert Keys(mid.entries) == Keys(d);
        ProcessSideSpec(mid, "asks", toFloat);
        assert ProcessedOrderbook(orderbook, toFloat) == ProcessSide(mid, "asks", toFloat);
        if ProcessSide(mid, "asks", toFloat).Ok? {
          var out := ProcessSide(mid, "asks", toFloat).value;
          assert Keys(out.entries) == Keys(d);
        } else {
          var j :| 0 <= j < |mid.entries| && mid.entries[j].0 == "asks" && ParseSide(mid.entries[j].1, toFloat).None?;
          assert d[j] == mid.entries[j];
        }
      }
    }
  }
}
