/** Field masking and the point and 3x3 window reads of `radar_variable_lat_lon`
    and `radar_variable_window_lat_lon`. */
module Extraction {
  import opened Base
  import opened Radar
  import opened GateAzimuth

  /** One extracted value: None where the masked array is masked. */
  type Cell = Option<real>

  /** A 2-D array of cells; the extraction builds 3x3 ones laid out as
          | alfa-1 | alfa  | alfa+1 |
   gate+1 | [0,0]  | [0,1] | [0,2]  |
   gate   | [1,0]  | [1,1] | [1,2]  |
   gate-1 | [2,0]  | [2,1] | [2,2]  | */
  type Window = Grid<Cell>

  predicate SameShape<T, U>(a: Grid<T>, b: Grid<U>) {
    |a| == |b| && forall i :: 0 <= i < |a| ==> |a[i]| == |b[i]|
  }

  /** `np.ma.masked_where(rhohv < threshold, data)`. */
  function MaskedWhere(rhohv: Grid<real>, threshold: real, data: Grid<real>): (m: Grid<Cell>)
    requires SameShape(rhohv, data)
    ensures SameShape(m, data)
    ensures forall i, j :: 0 <= i < |m| && 0 <= j < |m[i]| ==>
      (m[i][j].None? <==> rhohv[i][j] < threshold)
    ensures forall i, j :: 0 <= i < |m| && 0 <= j < |m[i]| && m[i][j].Some? ==>
      m[i][j].value == data[i][j]
  {
    seq(|data|, i requires 0 <= i < |data| =>
      seq(|data[i]|, j requires 0 <= j < |data[i]| =>
        if rhohv[i][j] < threshold then None else Some(data[i][j])))
  }

  /** A field array used as it is, every cell present. */
  function Unmasked(data: Grid<real>): (m: Grid<Cell>)
    ensures SameShape(m, data)
    ensures forall i, j :: 0 <= i < |m| && 0 <= j < |m[i]| ==> m[i][j] == Some(data[i][j])
  {
    seq(|data|, i requires 0 <= i < |data| =>
      seq(|data[i]|, j requires 0 <= j < |data[i]| => Some(data[i][j])))
  }

  /** Whether building the field dictionary finds `field`: with the mask on, the RHOHV
      field is looked up first, and a KeyError from either lookup skips the field. */
  predicate Available(radar: Volume, field: string, rhohvField: string, mask: bool) {
    field in radar.fields && (mask ==> rhohvField in radar.fields)
  }

  /** The array stored for an available field: masked where RHOHV is below the threshold,
      or the field's own data. */
  function Prepared(radar: Volume, field: string, rhohvField: string, threshold: real, mask: bool): Grid<Cell>
    requires radar.Valid() && Available(radar, field, rhohvField, mask)
  {
    if mask then MaskedWhere(radar.fields[rhohvField], threshold, radar.fields[field])
    else Unmasked(radar.fields[field])
  }

  /** `field_dict` as the loop leaves it: exactly the available requested fields, each
      with its prepared array. */
  function FieldDict(radar: Volume, fields: seq<string>, rhohvField: string, threshold: real, mask: bool)
    : (d: map<string, Grid<Cell>>)
    requires radar.Valid()
    ensures forall f :: f in d <==> f in fields && Available(radar, f, rhohvField, mask)
    ensures forall f :: f in d ==> d[f] == Prepared(radar, f, rhohvField, threshold, mask)
    decreases |fields|
  {
    if fields == [] then map[]
    else
      var last := fields[|fields| - 1];
      var before := fields[..|fields| - 1];
      assert fields == before + [last];
      var d := FieldDict(radar, before, rhohvField, threshold, mask);
      if Available(radar, last, rhohvField, mask) then d[last := Prepared(radar, last, rhohvField, threshold, mask)]
      else d
  }

  /** The requested fields the loop reports as not found, in request order. */
  function Unknown(radar: Volume, fields: seq<string>, rhohvField: string, mask: bool): (r: seq<string>)
    ensures forall f :: f in r <==> f in fields && !Available(radar, f, rhohvField, mask)
    ensures |r| <= |fields|
    decreases |fields|
  {
    if fields == [] then []
    else
      var last := fields[|fields| - 1];
      var before := fields[..|fields| - 1];
      assert fields == before + [last];
      Unknown(radar, before, rhohvField, mask) + (if Available(radar, last, rhohvField, mask) then [] else [last])
  }

  /** One more field extends the dictionary and the report as the loop body does. */
  lemma FieldDictStep(radar: Volume, fields: seq<string>, rhohvField: string, threshold: real, mask: bool, k: nat)
    requires radar.Valid() && k < |fields|
    ensures FieldDict(radar, fields[..k + 1], rhohvField, threshold, mask) ==
      var d := FieldDict(radar, fields[..k], rhohvField, threshold, mask);
      if Available(radar, fields[k], rhohvField, mask)
      then d[fields[k] := Prepared(radar, fields[k], rhohvField, threshold, mask)]
      else d
    ensures Unknown(radar, fields[..k + 1], rhohvField, mask) ==
      Unknown(radar, fields[..k], rhohvField, mask)
        + (if Available(radar, fields[k], rhohvField, mask) then [] else [fields[k]])
  {
    assert fields[..k + 1][..k] == fields[..k];
  }

  /** With the mask on and no RHOHV field, the RHOHV lookup fails for every field: nothing
      is stored and every requested field is reported, even one the volume has. */
  lemma FieldDictWithoutRhohv(radar: Volume, fields: seq<string>, rhohvField: string, threshold: real)
    requires radar.Valid() && rhohvField !in radar.fields
    ensures FieldDict(radar, fields, rhohvField, threshold, true) == map[]
    ensures forall f :: f in fields ==> f in Unknown(radar, fields, rhohvField, true)
  {
  }

  /** The loop that builds `field_dict`: each requested field that exists is stored,
      masked or not, and each one that does not is reported and skipped. */
  method BuildFieldDict(radar: Volume, fields: seq<string>, rhohvField: string, threshold: real, mask: bool)
    returns (dict: map<string, Grid<Cell>>, missing: seq<string>)
    requires radar.Valid()
    ensures dict == FieldDict(radar, fields, rhohvField, threshold, mask)
    ensures missing == Unknown(radar, fields, rhohvField, mask)
  {
    dict, missing := map[], [];
    for k := 0 to |fields|
      invariant dict == FieldDict(radar, fields[..k], rhohvField, threshold, mask)
      invariant missing == Unknown(radar, fields[..k], rhohvField, mask)
    {
      var field := fields[k];
      FieldDictStep(radar, fields, rhohvField, threshold, mask, k);
      if Available(radar, field, rhohvField, mask) {
        dict := dict[field := Prepared(radar, field, rhohvField, threshold, mask)];
      } else {
        missing := missing + [field];
      }
    }
    assert fields[..|fields|] == fields;
  }

  /** What `field_dict[field]` holds at ray `a`, gate `b` of the sweep: the field's
      value, or None where the mask is on and RHOHV there is below the threshold. */
  function Expected(radar: Volume, field: string, rhohvField: string, threshold: real, mask: bool, a: nat, b: nat): Cell
    requires radar.Valid() && Available(radar, field, rhohvField, mask)
    requires a < radar.rays && b < radar.gates
  {
    assert IsGrid(radar.fields[field], radar.rays, radar.gates);
    assert mask ==> IsGrid(radar.fields[rhohvField], radar.rays, radar.gates);
    if mask && radar.fields[rhohvField][a][b] < threshold then None else Some(radar.fields[field][a][b])
  }

  /** Every stored array has the sweep's shape and holds, cell by cell, the field's
      value or None exactly where masking applies. */
  lemma FieldDictCells(radar: Volume, fields: seq<string>, rhohvField: string, threshold: real, mask: bool, field: string)
    requires radar.Valid()
    requires field in FieldDict(radar, fields, rhohvField, threshold, mask)
    ensures field in fields && Available(radar, field, rhohvField, mask)
    ensures var g := FieldDict(radar, fields, rhohvField, threshold, mask)[field];
      && IsGrid(g, radar.rays, radar.gates)
      && forall a: nat, b: nat :: a < radar.rays && b < radar.gates ==>
           g[a][b] == Expected(radar, field, rhohvField, threshold, mask, a, b)
  {
    assert IsGrid(radar.fields[field], radar.rays, radar.gates);
    if mask {
      assert IsGrid(radar.fields[rhohvField], radar.rays, radar.gates);
    }
  }

  // ---------------------------------------------------------------------------
  // The loop over the requested fields

  /** Per-field outcomes gathered in order, as the `for field in fields` loops with
      `result.append` do: all the values, or the error of the first field that fails. */
  function Collect<T>(rs: seq<Result<T>>): (r: Result<seq<T>>)
    ensures r.Ok? ==> |r.value| == |rs|
    decreases |rs|
  {
    if rs == [] then Ok([])
    else
      var before :- Collect(rs[..|rs| - 1]);
      var v :- rs[|rs| - 1];
      Ok(before + [v])
  }

  /** The loop yields one value per field in order exactly when no field fails, and
      otherwise the error of the first field that fails. */
  lemma {:induction false} CollectPerItem<T>(rs: seq<Result<T>>)
    ensures Collect(rs).Ok? <==> forall k :: 0 <= k < |rs| ==> rs[k].Ok?
    ensures Collect(rs).Ok? ==>
      |Collect(rs).value| == |rs| && forall k :: 0 <= k < |rs| ==> Collect(rs).value[k] == rs[k].value
    ensures Collect(rs).Err? ==>
      exists k :: 0 <= k < |rs| && rs[k].Err? && Collect(rs).error == rs[k].error
        && forall j :: 0 <= j < k ==> rs[j].Ok?
    decreases |rs|
  {
    if rs != [] {
      var before := rs[..|rs| - 1];
      CollectPerItem(before);
      assert forall k :: 0 <= k < |before| ==> before[k] == rs[k];
    }
  }

  /** Once a prefix of the fields fails, the whole loop fails the same way. */
  lemma {:induction false} CollectPrefixErr<T>(rs: seq<Result<T>>, n: nat)
    requires n <= |rs|
    requires Collect(rs[..n]).Err?
    ensures Collect(rs) == Collect(rs[..n])
    decreases |rs|
  {
    if n == |rs| {
      assert rs[..n] == rs;
    } else {
      var before := rs[..|rs| - 1];
      assert before[..n] == rs[..n];
      CollectPrefixErr(before, n);
    }
  }

  /** One more successful field extends the gathered values by its value. */
  lemma CollectStep<T>(rs: seq<Result<T>>, k: nat, acc: seq<T>)
    requires k < |rs| && rs[k].Ok?
    requires Collect(rs[..k]) == Ok(acc)
    ensures Collect(rs[..k + 1]) == Ok(acc + [rs[k].value])
  {
    assert rs[..k + 1][..k] == rs[..k];
  }

  // ---------------------------------------------------------------------------
  // Single-point extraction (radar_variable_lat_lon)

  /** `field_dict[field][alfa, gate]`. */
  function PointFor(dict: map<string, Grid<Cell>>, field: string, alfa: int, gate: int): Result<Cell> {
    if field !in dict then Err(KeyError(field)) else At(dict[field], alfa, gate)
  }

  function PointResults(dict: map<string, Grid<Cell>>, fields: seq<string>, alfa: int, gate: int)
    : (rs: seq<Result<Cell>>)
    ensures |rs| == |fields| && forall k :: 0 <= k < |fields| ==> rs[k] == PointFor(dict, fields[k], alfa, gate)
  {
    seq(|fields|, k requires 0 <= k < |fields| => PointFor(dict, fields[k], alfa, gate))
  }

  /** The values of the requested fields at one cell, in request order. */
  function Points(dict: map<string, Grid<Cell>>, fields: seq<string>, alfa: int, gate: int): Result<seq<Cell>> {
    Collect(PointResults(dict, fields, alfa, gate))
  }

  /** The extraction loop of `radar_variable_lat_lon`. */
  method ExtractPoints(dict: map<string, Grid<Cell>>, fields: seq<string>, alfa: int, gate: int)
    returns (r: Result<seq<Cell>>)
    ensures r == Points(dict, fields, alfa, gate)
  {
    ghost var rs := PointResults(dict, fields, alfa, gate);
    var values := [];
    for k := 0 to |fields|
      invariant Collect(rs[..k]) == Ok(values)
    {
      var field := fields[k];
      if field !in dict {
        assert rs[..k + 1][..k] == rs[..k];
        CollectPrefixErr(rs, k + 1);
        return Err(KeyError(field));
      }
      var v := At(dict[field], alfa, gate);
      if v.Err? {
        assert rs[..k + 1][..k] == rs[..k];
        CollectPrefixErr(rs, k + 1);
        return Err(v.error);
      }
      CollectStep(rs, k, values);
      values := values + [v.value];
    }
    assert rs[..|fields|] == rs;
    return Ok(values);
  }

  // ---------------------------------------------------------------------------
  // 3x3 window extraction (radar_variable_window_lat_lon)

  /** The nine reads of one field's window, in the order the code makes them. */
  function WindowOf(g: Grid<Cell>, alfa: int, gate: int): (r: Result<Window>)
    ensures r.Err? ==> r.error == IndexError
    ensures r.Ok? ==> IsGrid(r.value, 3, 3)
  {
    var c00 :- At(g, alfa - 1, gate + 1);
    var c01 :- At(g, alfa, gate + 1);
    var c02 :- At(g, alfa + 1, gate + 1);
    var c10 :- At(g, alfa - 1, gate);
    var c11 :- At(g, alfa, gate);
    var c12 :- At(g, alfa + 1, gate);
    var c20 :- At(g, alfa - 1, gate - 1);
    var c21 :- At(g, alfa, gate - 1);
    var c22 :- At(g, alfa + 1, gate - 1);
    Ok([[c00, c01, c02], [c10, c11, c12], [c20, c21, c22]])
  }

  /** The layout of the window: cell [i][j] is the field at ray alfa + j - 1 and gate
      gate + 1 - i, so row 0 is the farther gate and column 0 the previous ray. */
  lemma WindowLayout(g: Grid<Cell>, alfa: int, gate: int)
    requires WindowOf(g, alfa, gate).Ok?
    ensures var w := WindowOf(g, alfa, gate).value;
      && IsGrid(w, 3, 3)
      && forall i, j :: 0 <= i < 3 && 0 <= j < 3 ==> At(g, alfa + j - 1, gate + 1 - i) == Ok(w[i][j])
  {
    var w := WindowOf(g, alfa, gate).value;
    forall i, j | 0 <= i < 3 && 0 <= j < 3
      ensures At(g, alfa + j - 1, gate + 1 - i) == Ok(w[i][j])
    {
      if i == 0 && j == 0 { assert w[0][0] == At(g, alfa - 1, gate + 1).value; }
    }
  }

  /** On a rows x cols array the window is read exactly when rays alfa-1 and alfa+1 and
      gates gate-1 and gate+1 are numpy indices: there is no bounds check, so alfa+1 or
      gate+1 equal to the axis length raises IndexError, while -1 reads the last ray or
      gate (the index taken modulo the axis length). */
  lemma WindowRange(g: Grid<Cell>, rows: nat, cols: nat, alfa: int, gate: int)
    requires IsGrid(g, rows, cols)
    ensures WindowOf(g, alfa, gate).Ok? <==>
      -(rows as int) <= alfa - 1 && alfa + 1 < rows && -(cols as int) <= gate - 1 && gate + 1 < cols
    ensures WindowOf(g, alfa, gate).Err? ==> WindowOf(g, alfa, gate).error == IndexError
    ensures WindowOf(g, alfa, gate).Ok? ==>
      var w := WindowOf(g, alfa, gate).value;
      forall i, j :: 0 <= i < 3 && 0 <= j < 3 ==> w[i][j] == g[(alfa + j - 1) % rows][(gate + 1 - i) % cols]
  {
    AtGrid(g, rows, cols, alfa - 1, gate + 1);
    AtGrid(g, rows, cols, alfa, gate + 1);
    AtGrid(g, rows, cols, alfa + 1, gate + 1);
    AtGrid(g, rows, cols, alfa - 1, gate);
    AtGrid(g, rows, cols, alfa, gate);
    AtGrid(g, rows, cols, alfa + 1, gate);
    AtGrid(g, rows, cols, alfa - 1, gate - 1);
    AtGrid(g, rows, cols, alfa, gate - 1);
    AtGrid(g, rows, cols, alfa + 1, gate - 1);
    if WindowOf(g, alfa, gate).Ok? {
      WindowLayout(g, alfa, gate);
    }
  }

  /** At ray 0 the left column is read from the last ray, and at gate 0 the bottom row
      from the last gate, instead of failing. */
  lemma WindowWraps(g: Grid<Cell>, rows: nat, cols: nat, alfa: int, gate: int)
    requires IsGrid(g, rows, cols)
    requires WindowOf(g, alfa, gate).Ok?
    ensures var w := WindowOf(g, alfa, gate).value;
      && (alfa == 0 ==> forall i :: 0 <= i < 3 ==> w[i][0] == g[rows - 1][(gate + 1 - i) % cols])
      && (gate == 0 ==> forall j :: 0 <= j < 3 ==> w[2][j] == g[(alfa + j - 1) % rows][cols - 1])
  {
    WindowRange(g, rows, cols, alfa, gate);
  }

  /** `np.full([3, 3], None)` filled cell by cell from one field's array. */
  method FillWindow(g: Grid<Cell>, alfa: int, gate: int) returns (r: Result<Window>)
    ensures r == WindowOf(g, alfa, gate)
  {
    var a := new Cell[3, 3]((i, j) => None);
    var c := At(g, alfa - 1, gate + 1);
    if c.Err? { return Err(c.error); }
    a[0, 0] := c.value;
    c := At(g, alfa, gate + 1);
    if c.Err? { return Err(c.error); }
    a[0, 1] := c.value;
    c := At(g, alfa + 1, gate + 1);
    if c.Err? { return Err(c.error); }
    a[0, 2] := c.value;
    c := At(g, alfa - 1, gate);
    if c.Err? { return Err(c.error); }
    a[1, 0] := c.value;
    c := At(g, alfa, gate);
    if c.Err? { return Err(c.error); }
    a[1, 1] := c.value;
    c := At(g, alfa + 1, gate);
    if c.Err? { return Err(c.error); }
    a[1, 2] := c.value;
    c := At(g, alfa - 1, gate - 1);
    if c.Err? { return Err(c.error); }
    a[2, 0] := c.value;
    c := At(g, alfa, gate - 1);
    if c.Err? { return Err(c.error); }
    a[2, 1] := c.value;
    c := At(g, alfa + 1, gate - 1);
    if c.Err? { return Err(c.error); }
    a[2, 2] := c.value;
    var w := [[a[0, 0], a[0, 1], a[0, 2]], [a[1, 0], a[1, 1], a[1, 2]], [a[2, 0], a[2, 1], a[2, 2]]];
    return Ok(w);
  }

  /** One field's window: KeyError for a field missing from `field_dict`. */
  function WindowFor(dict: map<string, Grid<Cell>>, field: string, alfa: int, gate: int): Result<Window> {
    if field !in dict then Err(KeyError(field)) else WindowOf(dict[field], alfa, gate)
  }

  function WindowResults(dict: map<string, Grid<Cell>>, fields: seq<string>, alfa: int, gate: int)
    : (rs: seq<Result<Window>>)
    ensures |rs| == |fields| && forall k :: 0 <= k < |fields| ==> rs[k] == WindowFor(dict, fields[k], alfa, gate)
  {
    seq(|fields|, k requires 0 <= k < |fields| => WindowFor(dict, fields[k], alfa, gate))
  }

  /** The windows of the requested fields, in request order. */
  function Windows(dict: map<string, Grid<Cell>>, fields: seq<string>, alfa: int, gate: int): Result<seq<Window>> {
    Collect(WindowResults(dict, fields, alfa, gate))
  }

  /** The per-field loop of the window extraction: one filled window appended per field. */
  method ExtractWindows(dict: map<string, Grid<Cell>>, fields: seq<string>, alfa: int, gate: int)
    returns (r: Result<seq<Window>>)
    ensures r == Windows(dict, fields, alfa, gate)
  {
    ghost var rs := WindowResults(dict, fields, alfa, gate);
    var result := [];
    for k := 0 to |fields|
      invariant Collect(rs[..k]) == Ok(result)
    {
      var field := fields[k];
      if field !in dict {
        assert rs[..k + 1][..k] == rs[..k];
        CollectPrefixErr(rs, k + 1);
        return Err(KeyError(field));
      }
      var w := FillWindow(dict[field], alfa, gate);
      if w.Err? {
        assert rs[..k + 1][..k] == rs[..k];
        CollectPrefixErr(rs, k + 1);
        return Err(w.error);
      }
      CollectStep(rs, k, result);
      result := result + [w.value];
    }
    assert rs[..|fields|] == rs;
    return Ok(result);
  }

  // ---------------------------------------------------------------------------
  // End to end: what the extracted values are in terms of the volume

  /** A point extraction over `field_dict` succeeds only if every requested field (and,
      with the mask on, the RHOHV field) exists, and then yields, per field in request
      order, the field's cell at (alfa, gate), negative indices counting from the end. */
  lemma PointsFromVolume(radar: Volume, fields: seq<string>, rhohvField: string, threshold: real, mask: bool,
                         alfa: int, gate: int)
    requires radar.Valid()
    requires Points(FieldDict(radar, fields, rhohvField, threshold, mask), fields, alfa, gate).Ok?
    ensures forall k :: 0 <= k < |fields| ==> Available(radar, fields[k], rhohvField, mask)
    ensures var vs := Points(FieldDict(radar, fields, rhohvField, threshold, mask), fields, alfa, gate).value;
      && |vs| == |fields|
      && (|fields| > 0 ==>
        && radar.rays > 0 && radar.gates > 0
        && forall k :: 0 <= k < |fields| ==>
             vs[k] == Expected(radar, fields[k], rhohvField, threshold, mask, alfa % radar.rays, gate % radar.gates))
  {
    var dict := FieldDict(radar, fields, rhohvField, threshold, mask);
    CollectPerItem(PointResults(dict, fields, alfa, gate));
    forall k | 0 <= k < |fields|
      ensures Available(radar, fields[k], rhohvField, mask)
      ensures radar.rays > 0 && radar.gates > 0
      ensures PointFor(dict, fields[k], alfa, gate).value ==
        Expected(radar, fields[k], rhohvField, threshold, mask, alfa % radar.rays, gate % radar.gates)
    {
      assert PointFor(dict, fields[k], alfa, gate).Ok?;
      FieldDictCells(radar, fields, rhohvField, threshold, mask, fields[k]);
      AtGrid(dict[fields[k]], radar.rays, radar.gates, alfa, gate);
    }
  }

  /** `w` is the window of `field` around (alfa, gate): cell [i][j] is the field's cell at
      ray alfa + j - 1 and gate gate + 1 - i, numpy's -1 wrapping to the last one. */
  ghost predicate WindowOfField(radar: Volume, field: string, rhohvField: string, threshold: real, mask: bool,
                                alfa: int, gate: int, w: Window)
    requires radar.Valid() && Available(radar, field, rhohvField, mask)
  {
    && radar.rays > 0 && radar.gates > 0
    && IsGrid(w, 3, 3)
    && forall i, j :: 0 <= i < 3 && 0 <= j < 3 ==>
         w[i][j] == Expected(radar, field, rhohvField, threshold, mask,
                             (alfa + j - 1) % radar.rays, (gate + 1 - i) % radar.gates)
  }

  /** One field's window read from `field_dict`, in terms of the volume. */
  lemma WindowFromVolume(radar: Volume, fields: seq<string>, rhohvField: string, threshold: real, mask: bool,
                         field: string, alfa: int, gate: int)
    requires radar.Valid()
    requires WindowFor(FieldDict(radar, fields, rhohvField, threshold, mask), field, alfa, gate).Ok?
    ensures Available(radar, field, rhohvField, mask)
    ensures WindowOfField(radar, field, rhohvField, threshold, mask, alfa, gate,
                          WindowFor(FieldDict(radar, fields, rhohvField, threshold, mask), field, alfa, gate).value)
  {
    var dict := FieldDict(radar, fields, rhohvField, threshold, mask);
    FieldDictCells(radar, fields, rhohvField, threshold, mask, field);
    WindowRange(dict[field], radar.rays, radar.gates, alfa, gate);
    WindowLayout(dict[field], alfa, gate);
  }

  /** A window extraction over `field_dict` succeeds only if every requested field (and,
      with the mask on, the RHOHV field) exists, and then yields one window per field in
      request order, each laid out around (alfa, gate) as WindowOfField says. */
  lemma WindowsFromVolume(radar: Volume, fields: seq<string>, rhohvField: string, threshold: real, mask: bool,
                          alfa: int, gate: int)
    requires radar.Valid()
    requires Windows(FieldDict(radar, fields, rhohvField, threshold, mask), fields, alfa, gate).Ok?
    ensures forall k :: 0 <= k < |fields| ==> Available(radar, fields[k], rhohvField, mask)
    ensures var ws := Windows(FieldDict(radar, fields, rhohvField, threshold, mask), fields, alfa, gate).value;
      && |ws| == |fields|
      && forall k :: 0 <= k < |fields| ==>
           WindowOfField(radar, fields[k], rhohvField, threshold, mask, alfa, gate, ws[k])
  {
    var dict := FieldDict(radar, fields, rhohvField, threshold, mask);
    CollectPerItem(WindowResults(dict, fields, alfa, gate));
    forall k | 0 <= k < |fields|
      ensures Available(radar, fields[k], rhohvField, mask)
      ensures WindowOfField(radar, fields[k], rhohvField, threshold, mask, alfa, gate,
                            WindowFor(dict, fields[k], alfa, gate).value)
    {
      WindowFromVolume(radar, fields, rhohvField, threshold, mask, fields[k], alfa, gate);
    }
  }

  // ---------------------------------------------------------------------------
  // The two single-point entry points, on a volume already read

  /** `radar_variable_lat_lon`: the volume time and the value of each requested field at
      the cell nearest (lat, lon); the fields not found are reported in `missing`. */
  method VariableLatLon(num: Numerics, radar: Volume, fields: seq<string>, lat: real, lon: real,
                        rhohvField: string, threshold: real, mask: bool)
    returns (r: Result<(DateTime, seq<Cell>)>, missing: seq<string>)
    requires radar.Valid()
    ensures missing == Unknown(radar, fields, rhohvField, mask)
    ensures Resolve(num, radar, lon, lat).Err? ==> r == Err(Resolve(num, radar, lon, lat).error)
    ensures Resolve(num, radar, lon, lat).Ok? ==>
      var cell := Resolve(num, radar, lon, lat).value;
      var vs := Points(FieldDict(radar, fields, rhohvField, threshold, mask), fields, cell.alfa, cell.gate);
      r == if vs.Err? then Err(vs.error) else Ok((radar.time, vs.value))
  {
    var dict;
    dict, missing := BuildFieldDict(radar, fields, rhohvField, threshold, mask);
    var cell := Resolve(num, radar, lon, lat);
    if cell.Err? {
      return Err(cell.error), missing;
    }
    var vs := ExtractPoints(dict, fields, cell.value.alfa, cell.value.gate);
    if vs.Err? {
      return Err(vs.error), missing;
    }
    return Ok((radar.time, vs.value)), missing;
  }

  /** `radar_variable_window_lat_lon`: the volume time and the 3x3 window of each
      requested field around the cell nearest (lat, lon). */
  method WindowLatLon(num: Numerics, radar: Volume, fields: seq<string>, lat: real, lon: real,
                      rhohvField: string, threshold: real, mask: bool)
    returns (r: Result<(DateTime, seq<Window>)>, missing: seq<string>)
    requires radar.Valid()
    ensures missing == Unknown(radar, fields, rhohvField, mask)
    ensures Resolve(num, radar, lon, lat).Err? ==> r == Err(Resolve(num, radar, lon, lat).error)
    ensures Resolve(num, radar, lon, lat).Ok? ==>
      var cell := Resolve(num, radar, lon, lat).value;
      var ws := Windows(FieldDict(radar, fields, rhohvField, threshold, mask), fields, cell.alfa, cell.gate);
      r == if ws.Err? then Err(ws.error) else Ok((radar.time, ws.value))
  {
    var dict;
    dict, missing := BuildFieldDict(radar, fields, rhohvField, threshold, mask);
    var cell := Resolve(num, radar, lon, lat);
    if cell.Err? {
      return Err(cell.error), missing;
    }
    var ws := ExtractWindows(dict, fields, cell.value.alfa, cell.value.gate);
    if ws.Err? {
      return Err(ws.error), missing;
    }
    return Ok((radar.time, ws.value)), missing;
  }
}
