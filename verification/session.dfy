/** The session state the event handlers transform: the current location,
    the tracked cities, the theme, what the persisted store holds, and the
    few pieces of page state the handlers touch (modal, input boxes, the
    empty-state placeholder). Asynchronous follow-ups are returned as an
    `Effect` beside the new state. */
module Session {
  import opened CityModel
  import Theme

  /** The suggestion picked in an input box (the JSON in
      `dataset.selectedCity`): none or "", a parsed city, or text that does
      not parse. */
  datatype Selection = NoSelection | Selected(city: City) | Unparseable

  /** A city input with its error line and suggestion list. */
  datatype CityBox = CityBox(input: string, selection: Selection, error: string, suggestionsShown: bool)

  datatype Session = Session(
    currentLocation: Option<Location>,
    additionalCities: seq<TrackedCity>,
    theme: Theme.ThemeState,
    persisted: Option<Snapshot>,
    modalShown: bool,
    modalBox: CityBox,
    addBox: CityBox,
    emptyStateShown: bool)

  /** What to do after a transition: nothing, load the forecasts of the
      current location and every tracked city, load one tracked city, ask the
      device for its position, or search for a query. */
  datatype Effect = NoEffect | LoadForecasts | LoadCity(id: string) | AskDevicePosition | SearchFor(query: string)

  datatype Step = Step(session: Session, effect: Effect)

  /** The part of the session that `Storage.save` writes. */
  function SnapshotOf(s: Session): Snapshot
  {
    Snapshot(s.currentLocation, s.additionalCities)
  }

  /** The store holds exactly the session's location and tracked cities. */
  predicate IsSaved(s: Session)
  {
    s.persisted == Some(SnapshotOf(s))
  }

  /** `Storage.save`: the store now mirrors the session; nothing else changes. */
  function Save(s: Session): (r: Session)
    ensures IsSaved(r)
    ensures r.(persisted := s.persisted) == s
  {
    s.(persisted := Some(SnapshotOf(s)))
  }

  /** The invariants every handler keeps: no two tracked cities are
      near-duplicates, and the empty-state placeholder is shown only when no
      city is tracked. */
  predicate Consistent(s: Session)
  {
    && NoNearDuplicates(s.additionalCities)
    && (s.emptyStateShown ==> |s.additionalCities| == 0)
  }

  /** Consistency depends only on the tracked list and the placeholder. */
  lemma ConsistencyOfTrackedState(a: Session, b: Session)
    requires a.additionalCities == b.additionalCities && a.emptyStateShown == b.emptyStateShown
    ensures Consistent(a) <==> Consistent(b)
  {
  }
}
