/** `create_df_from_radar_windows_vars`: one table row holding, for every requested
    field, the nine cells of its 3x3 window as columns named `<field> [i,j]`, plus
    the volume time under 't radar[ART]'. */
module WindowTable {
  import opened Base
  import opened Radar
  import opened Extraction

  /** The column that holds the volume time (and becomes the row index). */
  const TimeKey: string := "t radar[ART]"

  /** A value of the row: one window cell, or the volume time. */
  datatype Column = Value(cell: Cell) | Time(time: DateTime)

  /** `str(d)` of a single decimal digit. */
  function Digit(d: nat): (c: char)
    requires d < 10
    ensures '0' <= c <= '9'
  {
    ('0' as int + d) as char
  }

  /** `field + ' [' + str(i) + ',' + str(j) + ']'`. */
  function ColumnName(field: string, i: nat, j: nat): (name: string)
    requires i < 3 && j < 3
    ensures |name| == |field| + 6 && name[..|field|] == field
  {
    field + " [" + [Digit(i)] + "," + [Digit(j)] + "]"
  }

  /** The column of the d-th cell of a window in the loops' order: row d / 3, column d % 3. */
  function CellName(field: string, d: nat): string
    requires d < 9
  {
    ColumnName(field, d / 3, d % 3)
  }

  /** Distinct (field, cell) pairs name distinct columns. */
  lemma ColumnNameInjective(f: string, i: nat, j: nat, g: string, i2: nat, j2: nat)
    requires i < 3 && j < 3 && i2 < 3 && j2 < 3
    requires ColumnName(f, i, j) == ColumnName(g, i2, j2)
    ensures f == g && i == i2 && j == j2
  {
    var s := ColumnName(f, i, j);
    assert |f| == |g|;
    assert f == s[..|f|] == g;
    assert s[|f| + 2] == Digit(i) && s[|f| + 2] == Digit(i2);
    assert s[|f| + 4] == Digit(j) && s[|f| + 4] == Digit(j2);
  }

  /** No cell column is the time column: a cell column's second-to-last character is a digit. */
  lemma ColumnNameNotTime(f: string, i: nat, j: nat)
    requires i < 3 && j < 3
    ensures ColumnName(f, i, j) != TimeKey
  {
    var s := ColumnName(f, i, j);
    assert s[|s| - 2] == Digit(j);
    assert TimeKey[|TimeKey| - 2] == 'T';
  }

  /** The names of the first `c` cell columns of a field. */
  function CellNames(field: string, c: nat): set<string>
    requires c <= 9
  {
    set d | 0 <= d < c :: CellName(field, d)
  }

  /** Distinct (field, cell index) pairs name distinct columns. */
  lemma CellNameInjective(f: string, d: nat, g: string, e: nat)
    requires d < 9 && e < 9
    requires CellName(f, d) == CellName(g, e)
    ensures f == g && d == e
  {
    ColumnNameInjective(f, d / 3, d % 3, g, e / 3, e % 3);
  }

  /** Every element of `var` is a 3x3 array. */
  predicate AllShaped(windows: seq<Grid<Cell>>) {
    forall x :: 0 <= x < |windows| ==> IsGrid(windows[x], 3, 3)
  }

  /** `data` after the first `c` turns of the inner double loop for one field. */
  function FieldColumns(data: map<string, Column>, field: string, w: Grid<Cell>, c: nat): map<string, Column>
    requires IsGrid(w, 3, 3) && c <= 9
  {
    if c == 0 then data
    else FieldColumns(data, field, w, c - 1)[CellName(field, c - 1) := Value(w[(c - 1) / 3][(c - 1) % 3])]
  }

  /** One turn (i, j) of the inner double loop writes column `<field> [i,j]`. */
  lemma FieldColumnsStep(data: map<string, Column>, field: string, w: Grid<Cell>, i: nat, j: nat)
    requires IsGrid(w, 3, 3) && i < 3 && j < 3
    ensures FieldColumns(data, field, w, 3 * i + j + 1)
      == FieldColumns(data, field, w, 3 * i + j)[ColumnName(field, i, j) := Value(w[i][j])]
  {
    assert (3 * i + j) / 3 == i && (3 * i + j) % 3 == j;
  }

  /** `data` after the first `n` fields, the k-th field reading `var[k]`. */
  function Columns(fields: seq<string>, windows: seq<Grid<Cell>>, n: nat): map<string, Column>
    requires AllShaped(windows) && n <= |fields| && n <= |windows|
  {
    if n == 0 then map[]
    else FieldColumns(Columns(fields, windows, n - 1), fields[n - 1], windows[n - 1], 9)
  }

  /** The row `create_df_from_radar_windows_vars` builds, or its exception: ValueError
      when some element is not 3x3, IndexError when there are more fields than windows. */
  function Table(time: DateTime, windows: seq<Grid<Cell>>, fields: seq<string>): Result<map<string, Column>> {
    if !AllShaped(windows) then Err(ValueError)
    else if |fields| > |windows| then Err(IndexError)
    else Ok(Columns(fields, windows, |fields|)[TimeKey := Time(time)])
  }

  /** The inner double loop adds exactly the nine cell columns of the field. */
  lemma {:induction false} FieldColumnsKeys(data: map<string, Column>, field: string, w: Grid<Cell>, c: nat)
    requires IsGrid(w, 3, 3) && c <= 9
    ensures FieldColumns(data, field, w, c).Keys == data.Keys + CellNames(field, c)
  {
    if c > 0 {
      FieldColumnsKeys(data, field, w, c - 1);
      forall name | name in CellNames(field, c)
        ensures name in CellNames(field, c - 1) || name == CellName(field, c - 1)
      {
        var d :| 0 <= d < c && name == CellName(field, d);
      }
    }
  }

  /** Each of the field's cell columns holds its cell of the window. */
  lemma {:induction false} FieldColumnsCell(data: map<string, Column>, field: string, w: Grid<Cell>, c: nat, d: nat)
    requires IsGrid(w, 3, 3) && d < c <= 9
    ensures CellName(field, d) in FieldColumns(data, field, w, c)
    ensures FieldColumns(data, field, w, c)[CellName(field, d)] == Value(w[d / 3][d % 3])
  {
    if d < c - 1 {
      FieldColumnsCell(data, field, w, c - 1, d);
      if CellName(field, d) == CellName(field, c - 1) {
        CellNameInjective(field, d, field, c - 1);
      }
    }
  }

  /** The inner double loop leaves every column but the field's own as it was. */
  lemma {:induction false} FieldColumnsOther(data: map<string, Column>, field: string, w: Grid<Cell>, c: nat, key: string)
    requires IsGrid(w, 3, 3) && c <= 9
    requires key in data && key !in CellNames(field, c)
    ensures key in FieldColumns(data, field, w, c) && FieldColumns(data, field, w, c)[key] == data[key]
  {
    if c > 0 {
      assert key != CellName(field, c - 1);
      FieldColumnsOther(data, field, w, c - 1, key);
    }
  }

  /** The columns after `n` fields are the nine cell columns of each of them. */
  lemma {:induction false} ColumnsKeys(fields: seq<string>, windows: seq<Grid<Cell>>, n: nat)
    requires AllShaped(windows) && n <= |fields| && n <= |windows|
    ensures forall key :: key in Columns(fields, windows, n) <==>
      exists k, d :: 0 <= k < n && 0 <= d < 9 && key == CellName(fields[k], d)
  {
    if n > 0 {
      ColumnsKeys(fields, windows, n - 1);
      var field := fields[n - 1];
      FieldColumnsKeys(Columns(fields, windows, n - 1), field, windows[n - 1], 9);
      forall key | key in Columns(fields, windows, n)
        ensures exists k, d :: 0 <= k < n && 0 <= d < 9 && key == CellName(fields[k], d)
      {
        if key !in Columns(fields, windows, n - 1) {
          assert key in CellNames(field, 9);
          var d :| 0 <= d < 9 && key == CellName(field, d);
        }
      }
      forall key | exists k, d :: 0 <= k < n && 0 <= d < 9 && key == CellName(fields[k], d)
        ensures key in Columns(fields, windows, n)
      {
        var k, d :| 0 <= k < n && 0 <= d < 9 && key == CellName(fields[k], d);
        if k < n - 1 {
          assert key in Columns(fields, windows, n - 1);
        } else {
          assert key in CellNames(field, 9);
        }
      }
    }
  }

  /** Column `<fields[k]> [i,j]` holds cell [i,j] of `var[k]`, unless a later field has
      the same name, whose window then overwrites it. */
  lemma {:induction false} ColumnsCell(fields: seq<string>, windows: seq<Grid<Cell>>, n: nat, k: nat, i: nat, j: nat)
    requires AllShaped(windows) && n <= |fields| && n <= |windows|
    requires k < n && i < 3 && j < 3
    requires forall l :: k < l < n ==> fields[l] != fields[k]
    ensures ColumnName(fields[k], i, j) in Columns(fields, windows, n)
    ensures Columns(fields, windows, n)[ColumnName(fields[k], i, j)] == Value(windows[k][i][j])
  {
    var d := 3 * i + j;
    assert d / 3 == i && d % 3 == j;
    var name := CellName(fields[k], d);
    var before := Columns(fields, windows, n - 1);
    if k < n - 1 {
      ColumnsCell(fields, windows, n - 1, k, i, j);
      FieldColumnsOther(before, fields[n - 1], windows[n - 1], 9, name);
    } else {
      FieldColumnsCell(before, fields[n - 1], windows[n - 1], 9, d);
    }
  }

  /** The columns of a successful call: the time column, holding the volume time, and
      exactly the nine cell columns `<field> [i,j]` of each requested field. */
  lemma TableKeys(time: DateTime, windows: seq<Grid<Cell>>, fields: seq<string>)
    requires Table(time, windows, fields).Ok?
    ensures var row := Table(time, windows, fields).value;
      && TimeKey in row && row[TimeKey] == Time(time)
      && forall key :: key in row && key != TimeKey <==>
           exists k, i, j :: 0 <= k < |fields| && 0 <= i < 3 && 0 <= j < 3 && key == ColumnName(fields[k], i, j)
  {
    var row := Table(time, windows, fields).value;
    var n := |fields|;
    ColumnsKeys(fields, windows, n);
    forall key | key in row && key != TimeKey
      ensures exists k, i, j :: 0 <= k < n && 0 <= i < 3 && 0 <= j < 3 && key == ColumnName(fields[k], i, j)
    {
      var k, d :| 0 <= k < n && 0 <= d < 9 && key == CellName(fields[k], d);
      assert key == ColumnName(fields[k], d / 3, d % 3);
    }
    forall key | exists k, i, j :: 0 <= k < n && 0 <= i < 3 && 0 <= j < 3 && key == ColumnName(fields[k], i, j)
      ensures key in row && key != TimeKey
    {
      var k, i, j :| 0 <= k < n && 0 <= i < 3 && 0 <= j < 3 && key == ColumnName(fields[k], i, j);
      ColumnNameNotTime(fields[k], i, j);
      assert key == CellName(fields[k], 3 * i + j);
    }
  }

  /** In a successful call, column `<fields[k]> [i,j]` holds cell [i,j] of `var[k]`;
      for a repeated field name the last window wins. */
  lemma TableCells(time: DateTime, windows: seq<Grid<Cell>>, fields: seq<string>, k: nat, i: nat, j: nat)
    requires Table(time, windows, fields).Ok?
    requires k < |fields| && i < 3 && j < 3
    requires forall l :: k < l < |fields| ==> fields[l] != fields[k]
    ensures ColumnName(fields[k], i, j) in Table(time, windows, fields).value
    ensures Table(time, windows, fields).value[ColumnName(fields[k], i, j)] == Value(windows[k][i][j])
  {
    ColumnsCell(fields, windows, |fields|, k, i, j);
    ColumnNameNotTime(fields[k], i, j);
  }

  /** The inner double loop over i and j for one field: the nine cell columns written
      row by row, each holding its cell of the window. */
  method WriteFieldColumns(data: map<string, Column>, field: string, w: Grid<Cell>)
    returns (out: map<string, Column>)
    requires IsGrid(w, 3, 3)
    ensures out == FieldColumns(data, field, w, 9)
  {
    out := data;
    for i := 0 to 3
      invariant out == FieldColumns(data, field, w, 3 * i)
    {
      for j := 0 to 3
        invariant out == FieldColumns(data, field, w, 3 * i + j)
      {
        FieldColumnsStep(data, field, w, i, j);
        out := out[ColumnName(field, i, j) := Value(w[i][j])];
      }
    }
  }

  /** `create_df_from_radar_windows_vars` up to the DataFrame: the shape check over
      every element of `var`, then the double loop per field with the counter `k`,
      then the time column. */
  method CreateTable(time: DateTime, windows: seq<Grid<Cell>>, fields: seq<string>)
    returns (r: Result<map<string, Column>>)
    ensures r == Table(time, windows, fields)
  {
    for x := 0 to |windows|
      invariant forall y :: 0 <= y < x ==> IsGrid(windows[y], 3, 3)
    {
      var w := windows[x];
      if !(|w| == 3 && |w[0]| == 3 && |w[1]| == 3 && |w[2]| == 3) {
        return Err(ValueError);
      }
    }
    var data := map[];
    var k := 0;
    while k < |fields|
      invariant k <= |fields|
      invariant k <= |windows| && data == Columns(fields, windows, k)
    {
      var field := fields[k];
      if k >= |windows| {
        return Err(IndexError);
      }
      data := WriteFieldColumns(data, field, windows[k]);
      k := k + 1;
    }
    data := data[TimeKey := Time(time)];
    return Ok(data);
  }
}
