/** Tracked-city management (`Weather.addCity`, `Weather.removeCity`), the
    state part only: the near-duplicate guard, insertion at the front with a
    fresh id, removal by id, and a save after every change. The forecast
    load that follows an add is returned as an effect. */
module Weather {
  import opened CityModel
  import opened Session
  import Seqs

  const DuplicateError: string := "Этот город уже добавлен"

  datatype AddOutcome = Added | Rejected(error: string)

  datatype AddResult = AddResult(session: Session, outcome: AddOutcome, effect: Effect)

  /** Some tracked city lies within the radius of `c` in both axes. */
  predicate IsDuplicate(cities: seq<TrackedCity>, c: City)
  {
    exists t | t in cities :: NearCoords(t.latitude, t.longitude, c.latitude, c.longitude)
  }

  /** The entry created for a selected city. */
  function Track(c: City, id: string): (t: TrackedCity)
    ensures t.id == id
    ensures t.name == c.name && t.country == c.country
    ensures t.latitude == c.latitude && t.longitude == c.longitude
  {
    TrackedCity(id, c.name, c.country, c.latitude, c.longitude)
  }

  /** `addCity`. A near-duplicate is refused with the session untouched;
      otherwise a new entry with id `freshId` goes in front of the unchanged
      old list, the session is saved, the placeholder goes away, and the new
      city's forecast is loaded. */
  function AddCity(s: Session, cityData: City, freshId: string): (r: AddResult)
    ensures r.outcome.Rejected? <==> IsDuplicate(s.additionalCities, cityData)
    ensures r.outcome.Rejected? ==>
      && r.session == s
      && r.outcome.error == DuplicateError
      && r.effect == NoEffect
    ensures r.outcome.Added? ==>
      && |r.session.additionalCities| == |s.additionalCities| + 1
      && r.session.additionalCities[0] == Track(cityData, freshId)
      && r.session.additionalCities[1..] == s.additionalCities
      && IsSaved(r.session)
      && r.session.currentLocation == s.currentLocation
      && !r.session.emptyStateShown
      && r.session.(additionalCities := s.additionalCities, persisted := s.persisted, emptyStateShown := s.emptyStateShown) == s
      && r.effect == LoadCity(freshId)
  {
    if IsDuplicate(s.additionalCities, cityData) then
      AddResult(s, Rejected(DuplicateError), NoEffect)
    else
      var newCity := Track(cityData, freshId);
      var next := Save(s.(additionalCities := [newCity] + s.additionalCities, emptyStateShown := false));
      AddResult(next, Added, LoadCity(freshId))
  }

  /** `removeCity`: keeps exactly the entries whose id differs, in their
      order, saves, and shows the placeholder once the list is empty. */
  function RemoveCity(s: Session, cityId: string): (r: Session)
    ensures forall t :: t in r.additionalCities <==> t in s.additionalCities && t.id != cityId
    ensures Seqs.IsSubsequence(r.additionalCities, s.additionalCities)
    ensures forall t :: multiset(r.additionalCities)[t] == if t.id != cityId then multiset(s.additionalCities)[t] else 0
    ensures IsSaved(r)
    ensures r.emptyStateShown <==> s.emptyStateShown || |r.additionalCities| == 0
    ensures r.(additionalCities := s.additionalCities, persisted := s.persisted, emptyStateShown := s.emptyStateShown) == s
  {
    var keep := (t: TrackedCity) => t.id != cityId;
    var remaining := Seqs.Filter(s.additionalCities, keep);
    Seqs.FilterIsSubsequence(s.additionalCities, keep);
    assert forall t :: t in remaining <==> t in s.additionalCities && keep(t) by {
      forall t
        ensures t in remaining <==> t in s.additionalCities && keep(t)
      {
        if t in s.additionalCities && keep(t) {
          var i :| 0 <= i < |s.additionalCities| && s.additionalCities[i] == t;
          assert s.additionalCities[i] in remaining;
        }
      }
    }
    var next := s.(additionalCities := remaining);
    Save(if |remaining| == 0 then next.(emptyStateShown := true) else next)
  }

  /** The key invariant: adding never creates a near-duplicate pair. */
  lemma AddKeepsNoNearDuplicates(s: Session, cityData: City, freshId: string)
    requires NoNearDuplicates(s.additionalCities)
    ensures NoNearDuplicates(AddCity(s, cityData, freshId).session.additionalCities)
  {
    var r := AddCity(s, cityData, freshId);
    if r.outcome.Added? {
      var old_ := s.additionalCities;
      var cities := r.session.additionalCities;
      forall i, j | 0 <= i < j < |cities|
        ensures !NearTracked(cities[i], cities[j])
      {
        if i == 0 {
          var t := cities[j];
          assert t == old_[j - 1];
          assert t in old_;
          assert !NearCoords(t.latitude, t.longitude, cityData.latitude, cityData.longitude);
          NearCoordsSymmetric(t.latitude, t.longitude, cityData.latitude, cityData.longitude);
        } else {
          assert cities[i] == old_[i - 1] && cities[j] == old_[j - 1];
        }
      }
    }
  }

  /** Removing never creates a near-duplicate pair: the result is a
      subsequence. */
  lemma RemoveKeepsNoNearDuplicates(s: Session, cityId: string)
    requires NoNearDuplicates(s.additionalCities)
    ensures NoNearDuplicates(RemoveCity(s, cityId).additionalCities)
  {
    var ok := (a: TrackedCity, b: TrackedCity) => !NearTracked(a, b);
    Seqs.SubsequencePairs(RemoveCity(s, cityId).additionalCities, s.additionalCities, ok);
  }

  /** No two tracked cities share an id. */
  predicate UniqueIds(cities: seq<TrackedCity>)
  {
    forall i, j | 0 <= i < j < |cities| :: cities[i].id != cities[j].id
  }

  /** With a fresh id from the generator, ids stay unique. */
  lemma AddKeepsIdsUnique(s: Session, cityData: City, freshId: string)
    requires UniqueIds(s.additionalCities)
    requires forall t | t in s.additionalCities :: t.id != freshId
    ensures UniqueIds(AddCity(s, cityData, freshId).session.additionalCities)
  {
    var r := AddCity(s, cityData, freshId);
    if r.outcome.Added? {
      var cities := r.session.additionalCities;
      forall i, j | 0 <= i < j < |cities|
        ensures cities[i].id != cities[j].id
      {
        assert cities[j] == s.additionalCities[j - 1];
        if i > 0 {
          assert cities[i] == s.additionalCities[i - 1];
        } else {
          assert cities[j] in s.additionalCities;
        }
      }
    }
  }

  /** Removing an id nobody has changes no entry, but still saves. */
  lemma RemoveUnknownIdKeepsList(s: Session, cityId: string)
    requires forall t | t in s.additionalCities :: t.id != cityId
    ensures RemoveCity(s, cityId).additionalCities == s.additionalCities
    ensures IsSaved(RemoveCity(s, cityId))
  {
    Seqs.FilterKeepsAll(s.additionalCities, (t: TrackedCity) => t.id != cityId);
  }

  /** Removing the city just added under a fresh id restores the old list. */
  lemma RemoveUndoesAdd(s: Session, cityData: City, freshId: string)
    requires forall t | t in s.additionalCities :: t.id != freshId
    requires !IsDuplicate(s.additionalCities, cityData)
    ensures RemoveCity(AddCity(s, cityData, freshId).session, freshId).additionalCities == s.additionalCities
  {
    var added := AddCity(s, cityData, freshId).session;
    var keep := (t: TrackedCity) => t.id != freshId;
    assert added.additionalCities == [Track(cityData, freshId)] + s.additionalCities;
    Seqs.FilterKeepsAll(s.additionalCities, keep);
    assert added.additionalCities[1..] == s.additionalCities;
  }

  /** Both operations keep the session consistent. */
  lemma ChangesKeepConsistency(s: Session, cityData: City, freshId: string, cityId: string)
    requires Consistent(s)
    ensures Consistent(AddCity(s, cityData, freshId).session)
    ensures Consistent(RemoveCity(s, cityId))
  {
    AddKeepsNoNearDuplicates(s, cityData, freshId);
    RemoveKeepsNoNearDuplicates(s, cityId);
  }
}
