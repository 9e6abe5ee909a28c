/** The radar volume as the extraction code sees it once the file has been read:
    one sweep of `rays` azimuth rays by `gates` range gates. */
module Radar {
  import opened Base

  /** The volume's timestamp, already parsed from its time units string. */
  datatype DateTime = DateTime(year: int, month: int, day: int, hour: int, minute: int, second: int)

  datatype Volume = Volume(
    longitude: real,                  // radar.longitude['data'][0]
    latitude: real,                   // radar.latitude['data'][0]
    rays: nat,
    gates: nat,
    gateLatitude: Grid<real>,
    gateLongitude: Grid<real>,
    gateAltitude: Grid<real>,
    fields: map<string, Grid<real>>,  // field name -> radar.fields[name]['data']
    time: DateTime)
  {
    /** Every per-gate array and every field array has shape (rays, gates). */
    predicate Valid() {
      && IsGrid(gateLatitude, rays, gates)
      && IsGrid(gateLongitude, rays, gates)
      && IsGrid(gateAltitude, rays, gates)
      && forall f :: f in fields ==> IsGrid(fields[f], rays, gates)
    }
  }
}
