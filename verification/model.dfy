/** The plain data of the weather dashboard: search candidates, the current
    location, tracked cities, the snapshot kept in the persisted store, and
    the proximity relation ("near-duplicate") that stands in for identity of
    places. */
module CityModel {

  datatype Option<+T> = None | Some(value: T) {
    /** The wrapped value, or `default` when there is none. */
    function GetOr(default: T): T
    {
      match this
      case Some(v) => v
      case None => default
    }
  }

  /** A search candidate: an entry of the popular-city list or a mapped
      geocoding result. */
  datatype City = City(name: string, country: string, latitude: real, longitude: real)

  /** The location whose forecast is shown first. A device position has no
      country and is flagged `isGeolocation`. */
  datatype Location = Location(
    name: string,
    country: Option<string>,
    latitude: real,
    longitude: real,
    isGeolocation: bool)

  /** A city the user added for side-by-side tracking; `id` is an opaque token. */
  datatype TrackedCity = TrackedCity(id: string, name: string, country: string, latitude: real, longitude: real)

  /** What the persisted store holds under the state key. */
  datatype Snapshot = Snapshot(currentLocation: Option<Location>, additionalCities: seq<TrackedCity>)

  /** Two coordinates closer than this in both axes are the same place. */
  const DuplicateRadius: real := 0.01

  function Abs(x: real): (r: real)
    ensures r >= 0.0
    ensures r == x || r == -x
  {
    if x < 0.0 then -x else x
  }

  /** The proximity test `|Δlat| < 0.01 && |Δlon| < 0.01`. */
  predicate NearCoords(lat1: real, lon1: real, lat2: real, lon2: real)
  {
    Abs(lat1 - lat2) < DuplicateRadius && Abs(lon1 - lon2) < DuplicateRadius
  }

  predicate NearCities(a: City, b: City)
  {
    NearCoords(a.latitude, a.longitude, b.latitude, b.longitude)
  }

  predicate NearTracked(a: TrackedCity, b: TrackedCity)
  {
    NearCoords(a.latitude, a.longitude, b.latitude, b.longitude)
  }

  /** The tracked-list invariant: no two entries are near-duplicates. */
  predicate NoNearDuplicates(cities: seq<TrackedCity>)
  {
    forall i, j | 0 <= i < j < |cities| :: !NearTracked(cities[i], cities[j])
  }

  /** Proximity does not depend on the order of its arguments. */
  lemma NearCoordsSymmetric(lat1: real, lon1: real, lat2: real, lon2: real)
    ensures NearCoords(lat1, lon1, lat2, lon2) <==> NearCoords(lat2, lon2, lat1, lon1)
  {
    assert Abs(lat1 - lat2) == Abs(lat2 - lat1);
    assert Abs(lon1 - lon2) == Abs(lon2 - lon1);
  }
}
