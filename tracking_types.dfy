/** The records the tracking page works on. Coordinates are opaque values that are
    only copied; timestamps are milliseconds since the epoch. */
module TrackingTypes {

  /** A researcher as the roster service returns it. */
  datatype Researcher = Researcher(id: string, name: string, photoUrl: string, isActive: bool)

  /** One position sample (`ResearcherLocation`): many per researcher and day. */
  datatype Sample = Sample(researcherId: string, latitude: real, longitude: real, timestamp: int)

  /** A `[latitude, longitude]` pair handed to the map surface. */
  datatype LatLng = LatLng(lat: real, lng: real)

  function PositionOf(loc: Sample): LatLng {
    LatLng(loc.latitude, loc.longitude)
  }

  /** `locs.map(loc => [loc.latitude, loc.longitude])`. */
  function Positions(locs: seq<Sample>): seq<LatLng> {
    seq(|locs|, k requires 0 <= k < |locs| => PositionOf(locs[k]))
  }

  /** The set of researcher ids that occur in `locs`. */
  ghost function Ids(locs: seq<Sample>): set<string> {
    set loc | loc in locs :: loc.researcherId
  }
}
