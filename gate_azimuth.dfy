/** `get_nearest_gate_azimuth`: the ray (azimuth) and range-gate indices of the
    radar cell nearest to a geographic point. */
module GateAzimuth {
  import opened Base
  import opened Radar

  /** The library numerics the resolver calls and this model leaves uninterpreted:
      pyart's azimuthal-equidistant projection (lon, lat, radar lon, radar lat) -> (x, y)
      in metres east and north of the radar, math.sqrt, math.atan (radians) and
      math.degrees. */
  datatype Numerics = Numerics(
    project: (real, real, real, real) -> (real, real),
    sqrt: real -> real,
    atan: real -> real,
    degrees: real -> real)

  /** The one fact about the angle functions the model relies on: the arctangent of a
      positive ratio, in degrees, lies strictly between 0 and 90. */
  ghost predicate AtanDegreesInRange(num: Numerics) {
    forall t: real :: 0.0 < t ==> 0.0 < num.degrees(num.atan(t)) < 90.0
  }

  function Abs(v: real): real {
    if v < 0.0 then -v else v
  }

  function AtanDegrees(num: Numerics, ratio: real): real {
    num.degrees(num.atan(ratio))
  }

  /** The point (x, y) east/north of the radar, for a longitude and latitude. */
  function Project(num: Numerics, radar: Volume, lon: real, lat: real): (real, real) {
    num.project(lon, lat, radar.longitude, radar.latitude)
  }

  /** Distance of a projected point from the radar. */
  function Radius(num: Numerics, p: (real, real)): real {
    num.sqrt(p.0 * p.0 + p.1 * p.1)
  }

  /** The bearing `theta`, clockwise from north, of the four-way sign case split;
      None when no branch applies (x or y is zero), so `theta` and `alfa` stay unbound. */
  function Bearing(num: Numerics, x: real, y: real): (theta: Option<real>)
    ensures theta.None? <==> x == 0.0 || y == 0.0
  {
    if x > 0.0 && y > 0.0 then Some(Abs(AtanDegrees(num, x / y)))
    else if x > 0.0 && y < 0.0 then Some(Abs(AtanDegrees(num, Abs(y) / x) + 90.0))
    else if x < 0.0 && y > 0.0 then Some(Abs(AtanDegrees(num, y / Abs(x)) + 270.0))
    else if x < 0.0 && y < 0.0 then Some(Abs(AtanDegrees(num, x / y) + 180.0))
    else None
  }

  /** Each quadrant maps into its own open 90-degree sector of bearings, and exactly
      the points on an axis are left without a bearing. */
  lemma BearingQuadrants(num: Numerics, x: real, y: real)
    requires AtanDegreesInRange(num)
    ensures Bearing(num, x, y).None? <==> x == 0.0 || y == 0.0
    ensures x > 0.0 && y > 0.0 ==> 0.0 < Bearing(num, x, y).value < 90.0
    ensures x > 0.0 && y < 0.0 ==> 90.0 < Bearing(num, x, y).value < 180.0
    ensures x < 0.0 && y < 0.0 ==> 180.0 < Bearing(num, x, y).value < 270.0
    ensures x < 0.0 && y > 0.0 ==> 270.0 < Bearing(num, x, y).value < 360.0
  {
    if x > 0.0 && y > 0.0 {
      assert 0.0 < x / y;
    } else if x > 0.0 && y < 0.0 {
      assert 0.0 < Abs(y) / x;
    } else if x < 0.0 && y > 0.0 {
      assert 0.0 < y / Abs(x);
    } else if x < 0.0 && y < 0.0 {
      assert 0.0 < x / y;
    }
  }

  /** Radii of gates 0 and 1 of ray 0 (the first two gates), from the gate coordinate
      table; numpy raises IndexError when the sweep has no ray or fewer than two gates. */
  function FirstGateRadii(num: Numerics, radar: Volume): (radii: Result<(real, real)>)
    ensures radii.Err? ==> radii.error == IndexError
    ensures radar.Valid() ==> (radii.Ok? <==> radar.rays > 0 && radar.gates > 1)
  {
    var firstLat :- At(radar.gateLatitude, 0, 0);
    var firstLon :- At(radar.gateLongitude, 0, 0);
    var first := Project(num, radar, firstLon, firstLat);
    var secondLat :- At(radar.gateLatitude, 0, 1);
    var secondLon :- At(radar.gateLongitude, 0, 1);
    var second := Project(num, radar, secondLon, secondLat);
    Ok((Radius(num, first), Radius(num, second)))
  }

  /** `round((r - r_first) / (r_second - r_first))`: the gate index for a distance `r`,
      measuring in steps of the spacing between the first two gates. */
  function GateIndex(r: real, rFirst: real, rSecond: real): (gate: Result<int>)
    ensures gate.Err? <==> rSecond == rFirst
    ensures gate.Err? ==> gate.error == ZeroDivisionError
  {
    var spacing := rSecond - rFirst;
    if spacing == 0.0 then Err(ZeroDivisionError)
    else Ok(Round((r - rFirst) / spacing))
  }

  /** The gate index is the one whose centre lies within half a spacing of `r`, and it
      is missing only when the first two gates are equally far from the radar. */
  lemma GateIndexNearest(r: real, rFirst: real, rSecond: real)
    ensures GateIndex(r, rFirst, rSecond).Err? <==> rSecond == rFirst
    ensures GateIndex(r, rFirst, rSecond).Err? ==> GateIndex(r, rFirst, rSecond).error == ZeroDivisionError
    ensures GateIndex(r, rFirst, rSecond).Ok? ==> NearestGate(r, rFirst, rSecond, GateIndex(r, rFirst, rSecond).value)
  {
    var spacing := rSecond - rFirst;
    if spacing != 0.0 {
      var q := (r - rFirst) / spacing;
      var k := Round(q);
      assert GateIndex(r, rFirst, rSecond) == Ok(k);
      var e := q - k as real;
      QuotientTimesDivisor(r - rFirst, spacing);
      assert e * spacing == q * spacing - k as real * spacing;
      assert r - (rFirst + k as real * spacing) == e * spacing;
      HalfStep(e, spacing);
    }
  }

  lemma QuotientTimesDivisor(a: real, s: real)
    requires s != 0.0
    ensures (a / s) * s == a
  {
  }

  lemma HalfStep(e: real, s: real)
    requires -0.5 <= e <= 0.5
    ensures Abs(e * s) <= Abs(s) / 2.0
  {
    if s >= 0.0 {
      assert -0.5 * s <= e * s <= 0.5 * s;
    } else {
      assert 0.5 * s <= e * s <= -0.5 * s;
    }
  }

  /** A point exactly k gate spacings beyond the first gate resolves to gate k. */
  lemma GateIndexOnGrid(rFirst: real, rSecond: real, k: int)
    requires rSecond != rFirst
    ensures GateIndex(rFirst + k as real * (rSecond - rFirst), rFirst, rSecond) == Ok(k)
  {
    var spacing := rSecond - rFirst;
    assert rFirst + k as real * spacing - rFirst == k as real * spacing;
    var r := rFirst + k as real * spacing;
    assert (r - rFirst) / spacing == k as real;
    RoundInteger(k);
    // `r` is the point of the postcondition, with the spacing written out
    assert r == rFirst + k as real * (rSecond - rFirst);
  }

  /** The resolved cell of a point: `gate` along ray `alfa`. */
  datatype GateRay = GateRay(gate: int, alfa: int)

  /** The nearest gate and ray of (lon, lat), or the exception the Python code raises.
      The gate coordinate lookups at the end only check that (alfa, gate) is an index
      of the sweep. */
  function Resolve(num: Numerics, radar: Volume, lon: real, lat: real): (res: Result<GateRay>)
    ensures res.Ok? ==>
      && At(radar.gateLatitude, res.value.alfa, res.value.gate).Ok?
      && At(radar.gateLongitude, res.value.alfa, res.value.gate).Ok?
      && At(radar.gateAltitude, res.value.alfa, res.value.gate).Ok?
  {
    var p := Project(num, radar, lon, lat);
    var theta := Bearing(num, p.0, p.1);
    var radii :- FirstGateRadii(num, radar);
    var gate :- GateIndex(Radius(num, p), radii.0, radii.1);
    if theta.None? then Err(UnboundLocalError)
    else
      var alfa := Round(theta.value);
      var gateLat :- At(radar.gateLatitude, alfa, gate);
      var gateLon :- At(radar.gateLongitude, alfa, gate);
      var gateAlt :- At(radar.gateAltitude, alfa, gate);
      Ok(GateRay(gate, alfa))
  }

  /** A resolved ray is theta rounded to the nearest integer, between 0 and 360, and a
      valid ray of the sweep; the gate is a valid numpy index, possibly negative for
      a point nearer than the first gate. Only points off both axes resolve. */
  lemma ResolveBounds(num: Numerics, radar: Volume, lon: real, lat: real)
    requires AtanDegreesInRange(num)
    requires radar.Valid()
    requires Resolve(num, radar, lon, lat).Ok?
    ensures var p := Project(num, radar, lon, lat);
      && p.0 != 0.0 && p.1 != 0.0
      && var theta := Bearing(num, p.0, p.1).value;
      && var alfa := Resolve(num, radar, lon, lat).value.alfa;
      && -0.5 <= alfa as real - theta <= 0.5
      && 0 <= alfa <= 360
      && alfa < radar.rays
    ensures var gate := Resolve(num, radar, lon, lat).value.gate;
      -(radar.gates as int) <= gate < radar.gates
    ensures var radii := FirstGateRadii(num, radar);
      && radii.Ok?
      && GateIndex(Radius(num, Project(num, radar, lon, lat)), radii.value.0, radii.value.1)
           == Ok(Resolve(num, radar, lon, lat).value.gate)
  {
    var p := Project(num, radar, lon, lat);
    BearingQuadrants(num, p.0, p.1);
    var res := Resolve(num, radar, lon, lat).value;
    AtGrid(radar.gateLatitude, radar.rays, radar.gates, res.alfa, res.gate);
  }

  /** Gate `k` is a nearest gate for distance `r`: its centre, `k` spacings of the first
      two gates beyond the first gate, is within half a spacing of `r`. */
  predicate NearestGate(r: real, rFirst: real, rSecond: real, k: int) {
    rSecond != rFirst && Abs(r - (rFirst + k as real * (rSecond - rFirst))) <= Abs(rSecond - rFirst) / 2.0
  }

  /** The resolved gate is the nearest gate to the point's distance from the radar. */
  lemma ResolveNearestGate(num: Numerics, radar: Volume, lon: real, lat: real)
    requires Resolve(num, radar, lon, lat).Ok?
    ensures FirstGateRadii(num, radar).Ok?
    ensures var radii := FirstGateRadii(num, radar).value;
      NearestGate(Radius(num, Project(num, radar, lon, lat)), radii.0, radii.1, Resolve(num, radar, lon, lat).value.gate)
  {
    var r := Radius(num, Project(num, radar, lon, lat));
    var radii := FirstGateRadii(num, radar).value;
    assert GateIndex(r, radii.0, radii.1) == Ok(Resolve(num, radar, lon, lat).value.gate);
    GateIndexNearest(r, radii.0, radii.1);
  }

  /** A point on the x or y axis never resolves: with the gate table and spacing
      in order, the read of the unassigned `alfa` raises UnboundLocalError. */
  lemma ResolveOnAxis(num: Numerics, radar: Volume, lon: real, lat: real)
    requires var p := Project(num, radar, lon, lat); p.0 == 0.0 || p.1 == 0.0
    ensures Resolve(num, radar, lon, lat).Err?
    ensures var radii := FirstGateRadii(num, radar);
      radii.Ok? && radii.value.0 != radii.value.1 ==>
        Resolve(num, radar, lon, lat).error == UnboundLocalError
  {
  }

  /** At the north seam the rounded bearing reaches 360, one past the last ray of a
      360-ray sweep, and the lookup raises IndexError instead of wrapping to ray 0. */
  lemma ResolveSeam(num: Numerics, radar: Volume, lon: real, lat: real)
    requires radar.Valid() && radar.rays == 360
    requires FirstGateRadii(num, radar).Ok?
    requires var radii := FirstGateRadii(num, radar).value; radii.0 != radii.1
    requires var p := Project(num, radar, lon, lat);
      Bearing(num, p.0, p.1).Some? && Bearing(num, p.0, p.1).value > 359.5
    ensures Resolve(num, radar, lon, lat) == Err(IndexError)
  {
    var p := Project(num, radar, lon, lat);
    var theta := Bearing(num, p.0, p.1).value;
    var alfa := Round(theta);
    assert alfa >= 360;
    var radii := FirstGateRadii(num, radar).value;
    var gate := GateIndex(Radius(num, p), radii.0, radii.1).value;
    AtGrid(radar.gateLatitude, radar.rays, radar.gates, alfa, gate);
  }
}
