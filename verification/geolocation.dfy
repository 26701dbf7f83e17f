/** Location acquisition (`Geolocation.request`, `handleSuccess`,
    `handleError`) as transitions of the session. The device answer arrives
    later as a call of `HandleSuccess` or `HandleError`. */
module Geolocation {
  import opened CityModel
  import opened Session

  /** The name given to a device position. */
  const DeviceLocationName: string := "Текущее местоположение"

  /** `handleError`: the manual-entry modal opens; nothing else changes. */
  function HandleError(s: Session): (r: Step)
    ensures r.session.modalShown
    ensures r.session.(modalShown := s.modalShown) == s
    ensures r.effect == NoEffect
  {
    Step(s.(modalShown := true), NoEffect)
  }

  /** `request`: without geolocation support the error path is taken at once;
      otherwise the device is asked and the session is left as it is. */
  function Request(s: Session, supported: bool): (r: Step)
    ensures !supported ==> r == HandleError(s)
    ensures supported ==> r == Step(s, AskDevicePosition)
  {
    if !supported then HandleError(s) else Step(s, AskDevicePosition)
  }

  /** `handleSuccess`: the device coordinates become the current location,
      flagged as a device position; the session is saved before the
      forecasts are loaded; the tracked cities are untouched. */
  function HandleSuccess(s: Session, latitude: real, longitude: real): (r: Step)
    ensures r.session.currentLocation == Some(Location(DeviceLocationName, None, latitude, longitude, true))
    ensures r.session.additionalCities == s.additionalCities
    ensures IsSaved(r.session)
    ensures r.session.(currentLocation := s.currentLocation, persisted := s.persisted) == s
    ensures r.effect == LoadForecasts
  {
    var location := Location(DeviceLocationName, None, latitude, longitude, true);
    Step(Save(s.(currentLocation := Some(location))), LoadForecasts)
  }

  /** Neither outcome of a position request breaks consistency. */
  lemma PositionOutcomesKeepConsistency(s: Session, supported: bool, latitude: real, longitude: real)
    requires Consistent(s)
    ensures Consistent(Request(s, supported).session)
    ensures Consistent(HandleSuccess(s, latitude, longitude).session)
    ensures Consistent(HandleError(s).session)
  {
  }
}
