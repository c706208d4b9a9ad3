/** The terminology workbook helpers: turning the rows of an Excel sheet into
    a dict of row dicts, and finding the aggregate a `_dict`/`_df` parameter
    belongs to.  The sheet is given as its rows of cell values (what
    `iter_rows(values_only=True)` yields from the starting row on); the
    workbook itself is not modelled.  `array_to_string` in this file is the
    same code as the toolbox's and is modelled once, by
    `SoSToolbox.ArrayToString`. */
module SoSTerminology {
  import opened Wrappers
  import opened PyValue
  import opened PyDict
  import PyStr
  import PyList

  // ---------------------------------------------------------------- get_aggregate_param

  /** The name with every `'_dict'` and then every `'_df'` removed. */
  function AggregateSource(paramA: string): string {
    PyStr.Replace(PyStr.Replace(paramA, "_dict", ""), "_df", "")
  }

  /** `get_aggregate_param`: None (the implicit return) when the name holds
      neither `'_dict'` nor `'_df'`; otherwise the stripped name when it is a
      key of the parameter dict, given here by its key set, and `''` when it
      is not.  A non-empty answer is a known parameter with a strictly
      shorter name, so a parameter is never its own aggregate. */
  function GetAggregateParam(paramA: string, paramKeys: set<string>): (r: Option<string>)
    ensures r.None? <==> !PyStr.Contains(paramA, "_dict") && !PyStr.Contains(paramA, "_df")
    ensures r.Some? && r.value != "" ==> r.value in paramKeys && r.value == AggregateSource(paramA)
    ensures r.Some? && r.value != "" ==> |r.value| < |paramA|
    ensures r.Some? && AggregateSource(paramA) in paramKeys ==> r.value == AggregateSource(paramA)
    ensures r.Some? && AggregateSource(paramA) !in paramKeys ==> r.value == ""
  {
    if PyStr.Contains(paramA, "_dict") || PyStr.Contains(paramA, "_df") then
      AggregateShorter(paramA);
      var source := AggregateSource(paramA);
      if source in paramKeys then Some(source) else Some("")
    else
      None
  }

  /** Removing the suffixes shortens every name that holds one of them. */
  lemma AggregateShorter(paramA: string)
    requires PyStr.Contains(paramA, "_dict") || PyStr.Contains(paramA, "_df")
    ensures |AggregateSource(paramA)| < |paramA|
  {
    var once := PyStr.Replace(paramA, "_dict", "");
    PyStr.ReplaceShrinks(paramA, "_dict", "");
    PyStr.ReplaceShrinks(once, "_df", "");
    if !PyStr.Contains(paramA, "_dict") {
      assert PyStr.Find(paramA, "_dict").None?;
      assert once == paramA;
    }
  }

  // ---------------------------------------------------------------- get_sheet_dict

  /** What the row dict receives for one cell: a string or None as it is, a
      datetime as its `'%d %B %Y'` text; any other cell (a number, a bool) is
      left out of the row dict. */
  function CellEntry(cell: Value): (r: Option<Value>)
    ensures r.Some? <==> cell.VStr? || cell.VNone? || cell.VDateTime?
    ensures r.Some? ==> r.value.VStr? || r.value.VNone?
  {
    match cell
    case VNone => Some(VNone)
    case VStr(_) => Some(cell)
    case VDateTime(_, dayMonthYear) => Some(VStr(dayMonthYear))
    case _ => None
  }

  /** A cell that makes its row count: not None, not `''`, and its text does
      not start with `'='` (an unevaluated formula). */
  predicate Meaningful(cell: Value) {
    cell != VNone && cell != VStr("") && !PyStr.StartsWith(Str(cell), "=")
  }

  /** Some cell among the first `n` is meaningful. */
  predicate FilledUpTo(row: seq<Value>, n: nat)
    requires n <= |row|
  {
    exists j :: 0 <= j < n && Meaningful(row[j])
  }

  lemma FilledStep(row: seq<Value>, j: nat)
    requires j < |row|
    ensures FilledUpTo(row, j + 1) <==> FilledUpTo(row, j) || Meaningful(row[j])
  {
    if FilledUpTo(row, j + 1) && !Meaningful(row[j]) {
      var k :| 0 <= k < j + 1 && Meaningful(row[k]);
      assert k < j;
    }
  }

  /** The row dict built from the first `n` columns: `row_dict[headers[j]]`
      written column by column. */
  function RowDict(headers: seq<Value>, row: seq<Value>, n: nat): seq<(Value, Value)>
    requires n <= |headers| && n <= |row|
  {
    if n == 0 then []
    else PutCell(RowDict(headers, row, n - 1), headers[n - 1], row[n - 1])
  }

  /** One cell written into the row dict under its header, when it is kept. */
  function PutCell(d: seq<(Value, Value)>, header: Value, cell: Value): seq<(Value, Value)> {
    match CellEntry(cell)
    case Some(v) => Set(d, header, v)
    case None => d
  }

  lemma PutCellGet(d: seq<(Value, Value)>, header: Value, cell: Value, k: Value)
    ensures Get(PutCell(d, header, cell), k) ==
            if k == header && CellEntry(cell).Some? then CellEntry(cell) else Get(d, k)
  {
    if CellEntry(cell).Some? {
      SetGet(d, header, CellEntry(cell).value, k);
    }
  }

  /** Every row has at least one cell per header (the sheet is read
      `max_col=len(headers)` wide).  */
  predicate WideEnough(rows: seq<seq<Value>>, headers: seq<Value>) {
    forall i :: 0 <= i < |rows| ==> |rows[i]| >= |headers|
  }

  /** The position of the first header equal to `key` (`headers.index`). */
  function IndexOf(headers: seq<Value>, key: Value): (r: Option<nat>)
    ensures r.None? <==> key !in headers
    ensures r.Some? ==> r.value < |headers| && headers[r.value] == key
    ensures r.Some? ==> forall j :: 0 <= j < r.value ==> headers[j] != key
  {
    if |headers| == 0 then None
    else if headers[0] == key then Some(0)
    else
      match IndexOf(headers[1..], key)
      case None => None
      case Some(j) => Some(j + 1)
  }

  /** The sheet dict and the running index after the rows `rows`: a row with
      no meaningful cell is skipped; a kept row is stored under its cell in
      the key column, or, with no key column, under the running index, which
      then moves on by one. */
  function Sheet(rows: seq<seq<Value>>, headers: seq<Value>, keyColumn: Option<nat>)
    : (r: (seq<(Value, seq<(Value, Value)>)>, int))
    requires WideEnough(rows, headers)
    requires keyColumn.Some? ==> keyColumn.value < |headers|
    decreases |rows|
  {
    if |rows| == 0 then ([], 1)
    else
      var before := rows[..|rows| - 1];
      assert WideEnough(before, headers) by {
        forall i | 0 <= i < |before| ensures |before[i]| >= |headers| {
          assert before[i] == rows[i];
        }
      }
      AddRow(Sheet(before, headers, keyColumn), rows[|rows| - 1], headers, keyColumn)
  }

  /** What one more row does to the sheet dict and the running index. */
  function AddRow(state: (seq<(Value, seq<(Value, Value)>)>, int), row: seq<Value>,
                  headers: seq<Value>, keyColumn: Option<nat>): (seq<(Value, seq<(Value, Value)>)>, int)
    requires |row| >= |headers|
    requires keyColumn.Some? ==> keyColumn.value < |headers|
  {
    var (sheet, next) := state;
    if !FilledUpTo(row, |headers|) then state
    else
      var rowDict := RowDict(headers, row, |headers|);
      match keyColumn
      case Some(c) => (Set(sheet, row[c], rowDict), next)
      case None => (Set(sheet, VInt(next), rowDict), next + 1)
  }

  /** The key column `nameDictKey` selects: none for `''`, else the position
      of the first header equal to it, or ValueError when no header is. */
  function KeyColumn(headers: seq<Value>, nameDictKey: string): Result<Option<nat>, PyError> {
    if nameDictKey == "" then Ok(None)
    else
      match IndexOf(headers, VStr(nameDictKey))
      case None => Err(ValueError("not in list"))
      case Some(c) => Ok(Some(c))
  }

  /** One row spelled out: its row dict and whether it is blank. */
  method ReadRow(headers: seq<Value>, row: seq<Value>) returns (rowDict: seq<(Value, Value)>, isNone: bool)
    requires |row| >= |headers|
    ensures rowDict == RowDict(headers, row, |headers|)
    ensures isNone <==> !FilledUpTo(row, |headers|)
  {
    isNone := true;
    rowDict := [];
    var j := 0;
    while j < |headers|
      invariant 0 <= j <= |headers|
      invariant rowDict == RowDict(headers, row, j)
      invariant isNone <==> !FilledUpTo(row, j)
    {
      FilledStep(row, j);
      rowDict := PutCell(rowDict, headers[j], row[j]);
      if Meaningful(row[j]) {
        isNone := false;
      }
      j := j + 1;
    }
  }

  /** The sheet after one more row, from the sheet before it. */
  lemma SheetStep(rows: seq<seq<Value>>, headers: seq<Value>, keyColumn: Option<nat>, i: nat)
    requires WideEnough(rows, headers) && i < |rows|
    requires keyColumn.Some? ==> keyColumn.value < |headers|
    ensures WideEnough(rows[..i], headers) && WideEnough(rows[..i + 1], headers)
    ensures Sheet(rows[..i + 1], headers, keyColumn) ==
            AddRow(Sheet(rows[..i], headers, keyColumn), rows[i], headers, keyColumn)
  {
    assert rows[..i + 1][..i] == rows[..i];
    assert rows[..i + 1][i] == rows[i];
  }

  /** One turn of the loop over the rows of the sheet: a row with a
      meaningful cell is stored under its key cell, or under the running
      index, which then moves on. */
  method StoreRow(sheetDict: seq<(Value, seq<(Value, Value)>)>, indexDictKey: int,
                  headers: seq<Value>, row: seq<Value>, keyColumn: Option<nat>)
    returns (sheet: seq<(Value, seq<(Value, Value)>)>, next: int)
    requires |row| >= |headers|
    requires keyColumn.Some? ==> keyColumn.value < |headers|
    ensures sheet == AddRow((sheetDict, indexDictKey), row, headers, keyColumn).0
    ensures next == AddRow((sheetDict, indexDictKey), row, headers, keyColumn).1
  {
    sheet, next := sheetDict, indexDictKey;
    var rowDict, isNone := ReadRow(headers, row);
    if !isNone {
      if keyColumn.Some? {
        sheet := Set(sheet, row[keyColumn.value], rowDict);
      } else {
        sheet := Set(sheet, VInt(next), rowDict);
        next := next + 1;
      }
    }
  }

  /** `get_sheet_dict` over the rows of the sheet. */
  method GetSheetDict(rows: seq<seq<Value>>, headers: seq<Value>, nameDictKey: string)
    returns (r: Result<seq<(Value, seq<(Value, Value)>)>, PyError>)
    requires WideEnough(rows, headers)
    ensures KeyColumn(headers, nameDictKey).Err? ==> r == Err(ValueError("not in list"))
    ensures KeyColumn(headers, nameDictKey).Ok? ==>
              r == Ok(Sheet(rows, headers, KeyColumn(headers, nameDictKey).value).0)
  {
    var keyColumn: Option<nat>;
    var indexDictKey: int;
    if nameDictKey != "" {
      var found := IndexOf(headers, VStr(nameDictKey));
      if found.None? {
        return Err(ValueError("not in list"));
      }
      keyColumn := Some(found.value);
      indexDictKey := found.value;
    } else {
      keyColumn := None;
      indexDictKey := 1;
    }
    var sheetDict: seq<(Value, seq<(Value, Value)>)> := [];
    var i := 0;
    while i < |rows|
      invariant 0 <= i <= |rows|
      invariant WideEnough(rows[..i], headers)
      invariant sheetDict == Sheet(rows[..i], headers, keyColumn).0
      invariant keyColumn.None? ==> indexDictKey == Sheet(rows[..i], headers, keyColumn).1
    {
      SheetStep(rows, headers, keyColumn, i);
      sheetDict, indexDictKey := StoreRow(sheetDict, indexDictKey, headers, rows[i], keyColumn);
      i := i + 1;
    }
    assert rows[..|rows|] == rows;
    r := Ok(sheetDict);
  }

  // ---------------------------------------------------------------- properties of the sheet dict

  /** The rows that have a meaningful cell, in order. */
  function KeptRows(rows: seq<seq<Value>>, headers: seq<Value>): (kept: seq<seq<Value>>)
    requires WideEnough(rows, headers)
    ensures WideEnough(kept, headers)
    ensures forall k :: 0 <= k < |kept| ==> FilledUpTo(kept[k], |headers|)
    decreases |rows|
  {
    if |rows| == 0 then []
    else
      var before := rows[..|rows| - 1];
      assert forall i :: 0 <= i < |before| ==> before[i] == rows[i];
      var row := rows[|rows| - 1];
      var rest := KeptRows(before, headers);
      if FilledUpTo(row, |headers|) then rest + [row] else rest
  }

  /** Blank rows play no part: the sheet dict of the rows that have a
      meaningful cell is the sheet dict of all rows. */
  lemma {:induction false} BlankRowsIgnored(rows: seq<seq<Value>>, headers: seq<Value>, keyColumn: Option<nat>)
    requires WideEnough(rows, headers)
    requires keyColumn.Some? ==> keyColumn.value < |headers|
    ensures Sheet(KeptRows(rows, headers), headers, keyColumn) == Sheet(rows, headers, keyColumn)
    decreases |rows|
  {
    if |rows| > 0 {
      var before := rows[..|rows| - 1];
      var row := rows[|rows| - 1];
      LastShape(rows);
      BlankRowsIgnored(before, headers, keyColumn);
      var rest := KeptRows(before, headers);
      if FilledUpTo(row, |headers|) {
        SnocShape(rest, row);
      }
    }
  }

  lemma LastShape<T>(s: seq<T>)
    requires |s| > 0
    ensures forall i :: 0 <= i < |s| - 1 ==> s[..|s| - 1][i] == s[i]
  {
  }

  lemma SnocShape<T>(s: seq<T>, x: T)
    ensures (s + [x])[..|s|] == s && (s + [x])[|s|] == x
  {
  }

  /** Without a key column, the kept rows are stored under 1, 2, 3, ... in
      order, and the running index ends one past the number of kept rows. */
  lemma {:induction false} RunningKeys(rows: seq<seq<Value>>, headers: seq<Value>)
    requires WideEnough(rows, headers)
    ensures var (sheet, next) := Sheet(rows, headers, None);
            |sheet| == |KeptRows(rows, headers)| && next == |sheet| + 1 &&
            forall k :: 0 <= k < |sheet| ==> sheet[k].0 == VInt(k + 1)
    decreases |rows|
  {
    if |rows| > 0 {
      var before := rows[..|rows| - 1];
      assert forall i :: 0 <= i < |before| ==> before[i] == rows[i];
      var row := rows[|rows| - 1];
      RunningKeys(before, headers);
      var (sheet, next) := Sheet(before, headers, None);
      if FilledUpTo(row, |headers|) {
        assert !HasKey(sheet, VInt(next)) by {
          forall i | 0 <= i < |sheet| ensures sheet[i].0 != VInt(next) {
            assert sheet[i].0 == VInt(i + 1);
          }
        }
      }
    }
  }

  /** With a key column, the keys of the sheet dict are exactly the key cells
      of the rows that have a meaningful cell (a later row with the same key
      replaces an earlier one). */
  lemma {:induction false} KeyedRows(rows: seq<seq<Value>>, headers: seq<Value>, c: nat)
    requires WideEnough(rows, headers) && c < |headers|
    ensures KeySet(Sheet(rows, headers, Some(c)).0) ==
            set i | 0 <= i < |rows| && FilledUpTo(rows[i], |headers|) :: rows[i][c]
    decreases |rows|
  {
    if |rows| > 0 {
      var before := rows[..|rows| - 1];
      var row := rows[|rows| - 1];
      LastShape(rows);
      KeyedRows(before, headers, c);
      FilledKeysLast(rows, headers, c);
      var sheet := Sheet(before, headers, Some(c)).0;
      assert Sheet(rows, headers, Some(c)) == AddRow(Sheet(before, headers, Some(c)), row, headers, Some(c));
      if FilledUpTo(row, |headers|) {
        assert KeySet(Sheet(rows, headers, Some(c)).0) == KeySet(sheet) + {row[c]};
      } else {
        assert Sheet(rows, headers, Some(c)).0 == sheet;
      }
    }
  }

  /** The key cells of the kept rows, one row at a time. */
  lemma FilledKeysLast(rows: seq<seq<Value>>, headers: seq<Value>, c: nat)
    requires WideEnough(rows, headers) && c < |headers| && |rows| > 0
    ensures var n := |rows| - 1;
            (set i | 0 <= i < |rows| && FilledUpTo(rows[i], |headers|) :: rows[i][c]) ==
            (set i | 0 <= i < n && FilledUpTo(rows[..n][i], |headers|) :: rows[..n][i][c])
            + (if FilledUpTo(rows[n], |headers|) then {rows[n][c]} else {})
  {
    var n := |rows| - 1;
    assert forall i :: 0 <= i < n ==> rows[..n][i] == rows[i];
  }

  /** With distinct headers, the row dict holds the first `n` columns' kept
      cells and nothing for any other column: a header is a key exactly when
      its cell is a string, None or a datetime. */
  lemma {:induction false} RowDictCells(headers: seq<Value>, row: seq<Value>, n: nat, j: nat)
    requires n <= |headers| <= |row| && j < |headers|
    requires PyList.Distinct(headers)
    ensures Get(RowDict(headers, row, n), headers[j]) == if j < n then CellEntry(row[j]) else None
  {
    if n > 0 {
      RowDictCells(headers, row, n - 1, j);
      var d := RowDict(headers, row, n - 1);
      assert RowDict(headers, row, n) == PutCell(d, headers[n - 1], row[n - 1]);
      PutCellGet(d, headers[n - 1], row[n - 1], headers[j]);
      if j == n - 1 {
        assert Get(d, headers[j]) == None;
      } else {
        assert headers[n - 1] != headers[j];
        assert Get(RowDict(headers, row, n), headers[j]) == Get(d, headers[j]);
      }
    }
  }
}
