/** The application's handlers (`App.init`, `handleModalSubmit`,
    `handleAddCity`, and the guards of the two search inputs) as
    transitions of the session. */
module App {
  import opened CityModel
  import opened Text
  import opened Session
  import Theme
  import Weather
  import Geolocation

  const ChooseCityError: string := "Пожалуйста, выберите город из списка"
  const SelectFailedError: string := "Ошибка при выборе города"
  const AddFailedError: string := "Ошибка при добавлении города"

  /** An input box with no text, no selection, no error and no list. */
  const EmptyBox: CityBox := CityBox("", NoSelection, "", false)

  /** `Storage.load`: the saved snapshot, or an empty one when nothing
      readable is stored. */
  function Load(stored: Option<Snapshot>): (r: Snapshot)
    ensures stored.Some? ==> r == stored.value
    ensures stored.None? ==> r.currentLocation.None? && r.additionalCities == []
  {
    stored.GetOr(Snapshot(None, []))
  }

  /** The session right after the store and the theme have been read. */
  function Restore(stored: Option<Snapshot>, storedTheme: Option<string>): (s: Session)
    ensures SnapshotOf(s) == Load(stored)
    ensures s.persisted == stored
    ensures s.theme == Theme.Init(storedTheme)
    ensures !s.modalShown && !s.emptyStateShown
  {
    var saved := Load(stored);
    Session(saved.currentLocation, saved.additionalCities, Theme.Init(storedTheme), stored,
            false, EmptyBox, EmptyBox, false)
  }

  /** `init`: with a restored location the forecasts are loaded; without
      one the device position is requested. */
  function Init(stored: Option<Snapshot>, storedTheme: Option<string>, geolocationSupported: bool): (r: Step)
    ensures Load(stored).currentLocation.Some? ==>
      r == Step(Restore(stored, storedTheme), LoadForecasts)
    ensures Load(stored).currentLocation.None? ==>
      r == Geolocation.Request(Restore(stored, storedTheme), geolocationSupported)
  {
    var s := Restore(stored, storedTheme);
    if s.currentLocation.Some? then Step(s, LoadForecasts)
    else Geolocation.Request(s, geolocationSupported)
  }

  /** Persistence round trip: restoring from what a saved session left in the
      store gives back its location and its tracked cities in order. */
  lemma SavedSessionRestores(s: Session, storedTheme: Option<string>)
    requires IsSaved(s)
    ensures Restore(s.persisted, storedTheme).currentLocation == s.currentLocation
    ensures Restore(s.persisted, storedTheme).additionalCities == s.additionalCities
  {
  }

  /** The guard of both search inputs: the trimmed text is searched only
      when it is at least `minLength` long; otherwise the list is hidden.
      The error line is cleared either way. */
  function GuardCityInput(box: CityBox, minLength: nat): (r: (CityBox, Effect))
    ensures r.0 == box.(error := "", suggestionsShown := r.0.suggestionsShown)
    ensures |Trim(box.input)| < minLength ==> !r.0.suggestionsShown && r.1 == NoEffect
    ensures |Trim(box.input)| >= minLength ==>
      r.0.suggestionsShown == box.suggestionsShown && r.1 == SearchFor(Trim(box.input))
  {
    var query := Trim(box.input);
    var cleared := box.(error := "");
    if |query| < minLength then (cleared.(suggestionsShown := false), NoEffect)
    else (cleared, SearchFor(query))
  }

  /** `handleModalCityInput`. */
  function HandleModalCityInput(s: Session, minLength: nat): (r: Step)
    ensures r.session.(modalBox := s.modalBox) == s
    ensures (r.session.modalBox, r.effect) == GuardCityInput(s.modalBox, minLength)
  {
    var (box, effect) := GuardCityInput(s.modalBox, minLength);
    Step(s.(modalBox := box), effect)
  }

  /** `handleAddCityInput`. */
  function HandleAddCityInput(s: Session, minLength: nat): (r: Step)
    ensures r.session.(addBox := s.addBox) == s
    ensures (r.session.addBox, r.effect) == GuardCityInput(s.addBox, minLength)
  {
    var (box, effect) := GuardCityInput(s.addBox, minLength);
    Step(s.(addBox := box), effect)
  }

  /** A search is only ever issued for a trimmed query free of surrounding
      white space and at least `minLength` long. */
  lemma SearchOnlyForLongTrimmedQueries(box: CityBox, minLength: nat)
    ensures GuardCityInput(box, minLength).1.SearchFor? ==>
      var q := GuardCityInput(box, minLength).1.query;
      && |q| >= minLength
      && (|q| > 0 ==> !IsSpace(q[0]) && !IsSpace(q[|q| - 1]))
  {
  }

  /** `handleModalSubmit`. Without a selection, or with one that does not
      parse, only the modal's error line changes. With a city, it becomes the
      current location (not a device position), the session is saved, the
      modal closes and the forecasts are loaded. */
  function HandleModalSubmit(s: Session): (r: Step)
    ensures s.modalBox.selection.NoSelection? ==>
      r == Step(s.(modalBox := s.modalBox.(error := ChooseCityError)), NoEffect)
    ensures s.modalBox.selection.Unparseable? ==>
      r == Step(s.(modalBox := s.modalBox.(error := SelectFailedError)), NoEffect)
    ensures s.modalBox.selection.Selected? ==>
      var city := s.modalBox.selection.city;
      && r.session.currentLocation == Some(Location(city.name, Some(city.country), city.latitude, city.longitude, false))
      && r.session.additionalCities == s.additionalCities
      && IsSaved(r.session)
      && !r.session.modalShown
      && r.session.(currentLocation := s.currentLocation, persisted := s.persisted, modalShown := s.modalShown) == s
      && r.effect == LoadForecasts
  {
    match s.modalBox.selection
    case NoSelection => Step(s.(modalBox := s.modalBox.(error := ChooseCityError)), NoEffect)
    case Unparseable => Step(s.(modalBox := s.modalBox.(error := SelectFailedError)), NoEffect)
    case Selected(city) =>
      var location := Location(city.name, Some(city.country), city.latitude, city.longitude, false);
      var saved := Save(s.(currentLocation := Some(location)));
      Step(saved.(modalShown := false), LoadForecasts)
  }

  /** `handleAddCity`. Without a selection, or with one that does not parse,
      only the add box's error line changes and no city is added. Otherwise
      `addCity` runs: a refusal shows its message and keeps the input; a
      success clears the box. */
  function HandleAddCity(s: Session, freshId: string): (r: Step)
    ensures s.addBox.selection.NoSelection? ==>
      r == Step(s.(addBox := s.addBox.(error := ChooseCityError)), NoEffect)
    ensures s.addBox.selection.Unparseable? ==>
      r == Step(s.(addBox := s.addBox.(error := AddFailedError)), NoEffect)
    ensures s.addBox.selection.Selected? ==>
      var added := Weather.AddCity(s, s.addBox.selection.city, freshId);
      && (added.outcome.Rejected? ==>
            r == Step(s.(addBox := s.addBox.(error := Weather.DuplicateError)), NoEffect))
      && (added.outcome.Added? ==>
            r == Step(added.session.(addBox := EmptyBox), added.effect))
  {
    match s.addBox.selection
    case NoSelection => Step(s.(addBox := s.addBox.(error := ChooseCityError)), NoEffect)
    case Unparseable => Step(s.(addBox := s.addBox.(error := AddFailedError)), NoEffect)
    case Selected(city) =>
      var added := Weather.AddCity(s, city, freshId);
      if added.outcome.Rejected? then
        Step(added.session.(addBox := added.session.addBox.(error := added.outcome.error)), NoEffect)
      else
        Step(added.session.(addBox := EmptyBox), added.effect)
  }

  /** A submitted location survives a reload. */
  lemma SubmittedLocationSurvivesReload(s: Session, storedTheme: Option<string>)
    requires s.modalBox.selection.Selected?
    ensures var r := HandleModalSubmit(s).session;
      Restore(r.persisted, storedTheme).currentLocation == r.currentLocation
  {
  }

  /** The input guards leave the tracked list and the placeholder alone, so
      they keep the session consistent. */
  lemma InputGuardsKeepConsistency(s: Session, minLength: nat)
    requires Consistent(s)
    ensures Consistent(HandleModalCityInput(s, minLength).session)
    ensures Consistent(HandleAddCityInput(s, minLength).session)
  {
    var m := HandleModalCityInput(s, minLength).session;
    var a := HandleAddCityInput(s, minLength).session;
    assert m.(modalBox := s.modalBox) == s;
    assert a.(addBox := s.addBox) == s;
    ConsistencyOfTrackedState(m, s);
    ConsistencyOfTrackedState(a, s);
  }

  /** The modal submit changes the location, never the tracked list or the
      placeholder, so it keeps the session consistent. */
  lemma ModalSubmitKeepsConsistency(s: Session)
    requires Consistent(s)
    ensures Consistent(HandleModalSubmit(s).session)
  {
    var r := HandleModalSubmit(s).session;
    assert r.additionalCities == s.additionalCities;
    assert r.emptyStateShown == s.emptyStateShown;
    ConsistencyOfTrackedState(r, s);
  }

  /** Adding through the form never tracks two near-duplicate cities. */
  lemma AddFormKeepsConsistency(s: Session, freshId: string)
    requires Consistent(s)
    ensures Consistent(HandleAddCity(s, freshId).session)
  {
    var r := HandleAddCity(s, freshId).session;
    if s.addBox.selection.Selected? {
      var added := Weather.AddCity(s, s.addBox.selection.city, freshId);
      Weather.ChangesKeepConsistency(s, s.addBox.selection.city, freshId, freshId);
      ConsistencyOfTrackedState(r, added.session);
    } else {
      ConsistencyOfTrackedState(r, s);
    }
  }
}
