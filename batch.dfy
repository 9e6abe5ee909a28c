/** `radar_variable_window_lat_lon_list`: the 3x3 windows of a list of labelled points
    against one volume, gathered in a dictionary keyed by label plus 'datetime'. */
module Batch {
  import opened Base
  import opened Radar
  import opened GateAzimuth
  import opened Extraction

  /** The key under which the result carries the volume time. */
  const DatetimeKey: string := "datetime"

  /** A value of the result dictionary: the volume time, or one point's windows. */
  datatype Entry = Stamp(time: DateTime) | PointWindows(windows: seq<Window>)

  /** How many points `zip(coords_lst, lat_lst, lon_lst)` yields: the shortest list's length. */
  function ZipLength<L>(labels: seq<L>, lats: seq<real>, lons: seq<real>): (n: nat)
    ensures n <= |labels| && n <= |lats| && n <= |lons|
    ensures n == |labels| || n == |lats| || n == |lons|
  {
    if |labels| <= |lats| && |labels| <= |lons| then |labels|
    else if |lats| <= |lons| then |lats|
    else |lons|
  }

  /** One point's windows: its nearest cell, then the windows of every field there. */
  function PointWindowsAt(num: Numerics, radar: Volume, dict: map<string, Grid<Cell>>, fields: seq<string>,
                          lat: real, lon: real): Result<seq<Window>>
  {
    var cell :- Resolve(num, radar, lon, lat);
    Windows(dict, fields, cell.alfa, cell.gate)
  }

  /** The body of the loop over points: resolve the point, then read every field's
      window around its cell. */
  method ExtractAtPoint(num: Numerics, radar: Volume, dict: map<string, Grid<Cell>>, fields: seq<string>,
                        lat: real, lon: real) returns (r: Result<seq<Window>>)
    ensures r == PointWindowsAt(num, radar, dict, fields, lat, lon)
  {
    var cell := Resolve(num, radar, lon, lat);
    if cell.Err? {
      return Err(cell.error);
    }
    r := ExtractWindows(dict, fields, cell.value.alfa, cell.value.gate);
  }

  /** The outcome of each of the first `n` zipped points, in order. */
  function PointOutcomes(num: Numerics, radar: Volume, dict: map<string, Grid<Cell>>, fields: seq<string>,
                         lats: seq<real>, lons: seq<real>, n: nat): (outcomes: seq<Result<seq<Window>>>)
    requires n <= |lats| && n <= |lons|
    ensures |outcomes| == n
    ensures forall k :: 0 <= k < n ==> outcomes[k] == PointWindowsAt(num, radar, dict, fields, lats[k], lons[k])
  {
    seq(n, k requires 0 <= k < n => PointWindowsAt(num, radar, dict, fields, lats[k], lons[k]))
  }

  /** The result dictionary after the first `n` points, given each point's outcome:
      'datetime' first, then each label set to its point's windows; the first failing
      point ends the whole call. */
  function Assemble(time: DateTime, labels: seq<string>, outcomes: seq<Result<seq<Window>>>, n: nat)
    : (r: Result<map<string, Entry>>)
    requires n <= |labels| && n <= |outcomes|
    ensures r.Ok? ==> DatetimeKey in r.value && forall k :: 0 <= k < n ==> labels[k] in r.value
  {
    if n == 0 then Ok(map[DatetimeKey := Stamp(time)])
    else
      var before :- Assemble(time, labels, outcomes, n - 1);
      var ws :- outcomes[n - 1];
      Ok(before[labels[n - 1] := PointWindows(ws)])
  }

  /** The call returns a dictionary exactly when every point succeeds; otherwise it
      raises the error of the first point that fails. */
  lemma {:induction false} AssembleAborts(time: DateTime, labels: seq<string>, outcomes: seq<Result<seq<Window>>>, n: nat)
    requires n <= |labels| && n <= |outcomes|
    ensures Assemble(time, labels, outcomes, n).Ok? <==> forall k :: 0 <= k < n ==> outcomes[k].Ok?
    ensures Assemble(time, labels, outcomes, n).Err? ==>
      exists k :: 0 <= k < n
        && (forall j :: 0 <= j < k ==> outcomes[j].Ok?)
        && outcomes[k].Err?
        && Assemble(time, labels, outcomes, n).error == outcomes[k].error
  {
    if n > 0 {
      AssembleAborts(time, labels, outcomes, n - 1);
    }
  }

  /** The result's keys are 'datetime' and the labels of the points. */
  lemma {:induction false} AssembleKeys(time: DateTime, labels: seq<string>, outcomes: seq<Result<seq<Window>>>, n: nat)
    requires n <= |labels| && n <= |outcomes|
    requires Assemble(time, labels, outcomes, n).Ok?
    ensures Assemble(time, labels, outcomes, n).value.Keys == {DatetimeKey} + set k | 0 <= k < n :: labels[k]
  {
    if n > 0 {
      AssembleKeys(time, labels, outcomes, n - 1);
      assert (set k | 0 <= k < n :: labels[k]) == (set k | 0 <= k < n - 1 :: labels[k]) + {labels[n - 1]};
    }
  }

  /** A point's label maps to that point's windows unless a later point repeats the
      label: the last point with a label wins. */
  lemma {:induction false} AssembleLastWins(time: DateTime, labels: seq<string>, outcomes: seq<Result<seq<Window>>>,
                                            n: nat, k: nat)
    requires n <= |labels| && n <= |outcomes|
    requires Assemble(time, labels, outcomes, n).Ok?
    requires k < n && forall j :: k < j < n ==> labels[j] != labels[k]
    ensures outcomes[k].Ok?
    ensures labels[k] in Assemble(time, labels, outcomes, n).value
    ensures Assemble(time, labels, outcomes, n).value[labels[k]] == PointWindows(outcomes[k].value)
  {
    AssembleAborts(time, labels, outcomes, n);
    if k < n - 1 {
      AssembleLastWins(time, labels, outcomes, n - 1, k);
    }
  }

  /** 'datetime' is always a key; it holds the volume time unless a point is itself
      labelled 'datetime'. */
  lemma {:induction false} AssembleDatetime(time: DateTime, labels: seq<string>, outcomes: seq<Result<seq<Window>>>, n: nat)
    requires n <= |labels| && n <= |outcomes|
    requires Assemble(time, labels, outcomes, n).Ok?
    ensures DatetimeKey in Assemble(time, labels, outcomes, n).value
    ensures (forall k :: 0 <= k < n ==> labels[k] != DatetimeKey) ==>
      Assemble(time, labels, outcomes, n).value[DatetimeKey] == Stamp(time)
  {
    if n > 0 {
      AssembleDatetime(time, labels, outcomes, n - 1);
    }
  }

  /** In a successful call, a point's label (unless a later point reuses it) holds one
      window per requested field, each laid out around the point's resolved cell as
      WindowOfField says. */
  lemma {:induction false} BatchFromVolume(num: Numerics, radar: Volume, fields: seq<string>,
                                           labels: seq<string>, lats: seq<real>, lons: seq<real>,
                                           rhohvField: string, threshold: real, mask: bool, k: nat)
    requires radar.Valid()
    requires k < ZipLength(labels, lats, lons)
    requires var n := ZipLength(labels, lats, lons);
      var dict := FieldDict(radar, fields, rhohvField, threshold, mask);
      Assemble(radar.time, labels, PointOutcomes(num, radar, dict, fields, lats, lons, n), n).Ok?
    requires forall j :: k < j < ZipLength(labels, lats, lons) ==> labels[j] != labels[k]
    ensures Resolve(num, radar, lons[k], lats[k]).Ok?
    ensures var n := ZipLength(labels, lats, lons);
      var dict := FieldDict(radar, fields, rhohvField, threshold, mask);
      var result := Assemble(radar.time, labels, PointOutcomes(num, radar, dict, fields, lats, lons, n), n).value;
      var cell := Resolve(num, radar, lons[k], lats[k]).value;
      && labels[k] in result
      && result[labels[k]].PointWindows?
      && |result[labels[k]].windows| == |fields|
      && forall f :: 0 <= f < |fields| ==>
           && Available(radar, fields[f], rhohvField, mask)
           && WindowOfField(radar, fields[f], rhohvField, threshold, mask, cell.alfa, cell.gate,
                            result[labels[k]].windows[f])
  {
    var n := ZipLength(labels, lats, lons);
    var dict := FieldDict(radar, fields, rhohvField, threshold, mask);
    var outcomes := PointOutcomes(num, radar, dict, fields, lats, lons, n);
    AssembleLastWins(radar.time, labels, outcomes, n, k);
    assert outcomes[k] == PointWindowsAt(num, radar, dict, fields, lats[k], lons[k]);
    var cell := Resolve(num, radar, lons[k], lats[k]).value;
    assert outcomes[k] == Windows(dict, fields, cell.alfa, cell.gate);
    WindowsFromVolume(radar, fields, rhohvField, threshold, mask, cell.alfa, cell.gate);
  }

  /** Once the first `k` points fail, the whole call fails the same way. */
  lemma {:induction false} AssemblePrefixErr(time: DateTime, labels: seq<string>, outcomes: seq<Result<seq<Window>>>,
                                             k: nat, n: nat)
    requires k <= n <= |labels| && n <= |outcomes|
    requires Assemble(time, labels, outcomes, k).Err?
    ensures Assemble(time, labels, outcomes, n) == Assemble(time, labels, outcomes, k)
  {
    if k < n {
      AssemblePrefixErr(time, labels, outcomes, k, n - 1);
    }
  }

  /** One turn of the loop over points: a point that succeeds sets its label. */
  lemma AssembleStep(time: DateTime, labels: seq<string>, outcomes: seq<Result<seq<Window>>>, k: nat,
                     before: map<string, Entry>)
    requires k < |labels| && k < |outcomes|
    requires Assemble(time, labels, outcomes, k) == Ok(before)
    ensures outcomes[k].Ok? ==>
      Assemble(time, labels, outcomes, k + 1) == Ok(before[labels[k] := PointWindows(outcomes[k].value)])
    ensures outcomes[k].Err? ==> Assemble(time, labels, outcomes, k + 1) == Err(outcomes[k].error)
  {
  }

  /** `radar_variable_window_lat_lon_list` on a volume already read: the fields not
      found are reported in `missing`, and the result is the dictionary of all zipped
      points, or the error of the first point that fails. */
  method WindowLatLonList(num: Numerics, radar: Volume, fields: seq<string>,
                          labels: seq<string>, lats: seq<real>, lons: seq<real>,
                          rhohvField: string, threshold: real, mask: bool)
    returns (r: Result<map<string, Entry>>, missing: seq<string>)
    requires radar.Valid()
    ensures missing == Unknown(radar, fields, rhohvField, mask)
    ensures var n := ZipLength(labels, lats, lons);
      var dict := FieldDict(radar, fields, rhohvField, threshold, mask);
      r == Assemble(radar.time, labels, PointOutcomes(num, radar, dict, fields, lats, lons, n), n)
  {
    var dict;
    dict, missing := BuildFieldDict(radar, fields, rhohvField, threshold, mask);
    var n := ZipLength(labels, lats, lons);
    ghost var outcomes := PointOutcomes(num, radar, dict, fields, lats, lons, n);
    var result := map[DatetimeKey := Stamp(radar.time)];
    for k := 0 to n
      invariant Assemble(radar.time, labels, outcomes, k) == Ok(result)
    {
      var ws := ExtractAtPoint(num, radar, dict, fields, lats[k], lons[k]);
      assert outcomes[k] == ws;
      AssembleStep(radar.time, labels, outcomes, k, result);
      if ws.Err? {
        AssemblePrefixErr(radar.time, labels, outcomes, k + 1, n);
        return Err(ws.error), missing;
      }
      result := result[labels[k] := PointWindows(ws.value)];
    }
    return Ok(result), missing;
  }
}
