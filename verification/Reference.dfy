/**
 The from-scratch meaning of the serving tables: what is bad and what is live,
 as a function of the set of all events ever delivered.
 */
module Reference {
  import opened Events

  ghost predicate BadId(seen: set<Event>, id: string) {
    exists a, b :: a in seen && b in seen && a.id == id && b.id == id && a != b
  }

  /** Two completions of the trip disagree. */
  ghost predicate Contradicted(seen: set<Event>, trip: string) {
    exists a, b :: a in seen && b in seen && a.completed && b.completed &&
      a.trip == Some(trip) && b.trip == Some(trip) && SignatureOf(a) != SignatureOf(b)
  }

  /** Some event of the trip has an id that was used for two different events. */
  ghost predicate Tainted(seen: set<Event>, trip: string) {
    exists e :: e in seen && e.trip == Some(trip) && BadId(seen, e.id)
  }

  ghost predicate BadTrip(seen: set<Event>, trip: string) {
    Contradicted(seen, trip) || Tainted(seen, trip)
  }

  ghost predicate HasBadTrip(seen: set<Event>, e: Event) {
    e.trip.Some? && BadTrip(seen, e.trip.value)
  }

  ghost predicate Live(seen: set<Event>, e: Event) {
    e in seen && !BadId(seen, e.id) && !HasBadTrip(seen, e)
  }

  lemma BadIdGrows(seen: set<Event>, more: set<Event>, id: string)
    requires BadId(seen, id)
    ensures BadId(seen + more, id)
  {
    var a, b :| a in seen && b in seen && a.id == id && b.id == id && a != b;
    assert a in seen + more && b in seen + more;
  }

  lemma BadTripGrows(seen: set<Event>, more: set<Event>, trip: string)
    requires BadTrip(seen, trip)
    ensures BadTrip(seen + more, trip)
  {
    if Contradicted(seen, trip) {
      var a, b :| a in seen && b in seen && a.completed && b.completed &&
        a.trip == Some(trip) && b.trip == Some(trip) && SignatureOf(a) != SignatureOf(b);
      assert a in seen + more && b in seen + more;
    } else {
      var e :| e in seen && e.trip == Some(trip) && BadId(seen, e.id);
      BadIdGrows(seen, more, e.id);
      assert e in seen + more;
    }
  }

  /** Blocking is monotone: an event that was dead stays dead. */
  lemma LiveShrinks(seen: set<Event>, more: set<Event>, e: Event)
    requires Live(seen + more, e) && e in seen
    ensures Live(seen, e)
  {
    if BadId(seen, e.id) { BadIdGrows(seen, more, e.id); }
    if HasBadTrip(seen, e) { BadTripGrows(seen, more, e.trip.value); }
  }

  /** Live completions of one trip always agree, so the completed-trip view is single-valued. */
  lemma LiveCompletionsAgree(seen: set<Event>, a: Event, b: Event)
    requires Live(seen, a) && Live(seen, b)
    requires a.completed && b.completed && a.trip.Some? && a.trip == b.trip
    ensures SignatureOf(a) == SignatureOf(b)
  {
    assert !Contradicted(seen, a.trip.value);
  }
}
