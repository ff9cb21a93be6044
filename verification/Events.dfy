/** A telemetry event reduced to the fields that make up its business identity. */
module Events {
  import Text

  datatype Option<+T> = None | Some(value: T)

  datatype Status = Idle | Enroute | OnTrip

  /** Exactly the identity fields. `ts` is an instant in microseconds, so two spellings of one instant are one value. */
  datatype Event = Event(
    id: string, trip: Option<string>, driver: string, vehicle: string,
    lat: real, lon: real, speed: real, status: Status, fare: nat,
    completed: bool, zone: string, ts: int, trace: string)

  /** What two completions of one trip must agree on. */
  datatype Signature = Signature(vehicle: string, fare: nat, ts: int, zone: string)

  /** Where Kafka keeps a record. A position determines its record for good. */
  datatype Position = Position(partition: nat, offset: nat)

  const MINUTE: int := 60_000_000
  const DAY: int := 86_400_000_000

  /** The UTC day of an instant, and the start of its minute. */
  function DayOf(ts: int): int { ts / DAY }

  function WindowOf(ts: int): int { ts - ts % MINUTE }

  /** The day that contains the instant, and the whole minute that does. */
  lemma CalendarOf(ts: int)
    ensures DayOf(ts) * 86_400_000_000 <= ts < (DayOf(ts) + 1) * 86_400_000_000
    ensures WindowOf(ts) % 60_000_000 == 0 && WindowOf(ts) <= ts < WindowOf(ts) + 60_000_000
  {
    DayContains(ts);
    MinuteContains(ts);
    hide DayOf, WindowOf;
  }

  lemma DayContains(ts: int)
    ensures DayOf(ts) * 86_400_000_000 <= ts < (DayOf(ts) + 1) * 86_400_000_000
  {
    var d := ts / DAY;
    assert ts == d * DAY + ts % DAY;
  }

  lemma MinuteContains(ts: int)
    ensures WindowOf(ts) % 60_000_000 == 0 && WindowOf(ts) <= ts < WindowOf(ts) + 60_000_000
  {
    var m := ts / MINUTE;
    assert ts == m * MINUTE + ts % MINUTE;
    assert WindowOf(ts) == m * 60_000_000;
  }

  function SignatureOf(e: Event): Signature {
    Signature(e.vehicle, e.fare, e.ts, e.zone)
  }

  /** Prefix of the ids the conflict ledger invents for trips. */
  const PRIOR := "prior:"

  function PriorId(trip: string): string {
    PRIOR + trip
  }

  lemma PriorIdIsInjective()
    ensures forall s, t :: PriorId(s) == PriorId(t) ==> s == t
  {
    forall s, t | PriorId(s) == PriorId(t) ensures s == t {
      assert PriorId(s)[|PRIOR|..] == s && PriorId(t)[|PRIOR|..] == t;
    }
  }

  /** What stream validation guarantees, plus the convention that producers never use the `prior:` prefix. */
  predicate Valid(e: Event) {
    (e.completed ==> e.trip.Some? && e.trip.value != "") && !(PRIOR <= e.id)
  }

  function EventSet(events: seq<Event>): set<Event> {
    set e | e in events
  }

  function IdsOf(events: set<Event>): set<string> {
    set e | e in events :: e.id
  }

  predicate AllValid(events: set<Event>) {
    forall e :: e in events ==> Valid(e)
  }

  /** Time order, ties broken by event id: the order both serving paths use. */
  predicate Before(a: Event, b: Event) {
    a.ts < b.ts || (a.ts == b.ts && Text.Less(a.id, b.id))
  }

  predicate OnePerId(events: set<Event>) {
    forall a, b :: a in events && b in events && a.id == b.id ==> a == b
  }

  lemma BeforeIsTotal(a: Event, b: Event)
    ensures Before(a, b) || Before(b, a) || (a.id == b.id && a.ts == b.ts)
    ensures !(Before(a, b) && Before(b, a))
  {
    Text.LessIsTotal(a.id, b.id);
    Text.LessIsAsymmetric(a.id, b.id);
  }

  lemma BeforeIsTransitive(a: Event, b: Event, c: Event)
    requires Before(a, b) && Before(b, c)
    ensures Before(a, c)
  {
    if a.ts == b.ts == c.ts {
      Text.LessIsTransitive(a.id, b.id, c.id);
    }
  }

  /** Every nonempty set of events has a last one in time order. */
  lemma {:induction false} LastExists(events: set<Event>)
    requires events != {}
    ensures exists l :: l in events && forall e :: e in events ==> !Before(l, e)
  {
    hide Before;
    var x :| x in events;
    BeforeIsTotal(x, x);
    var rest := events - {x};
    assert events == rest + {x};
    if rest == {} {
      assert events == {x};
      assert forall e :: e in events ==> !Before(x, e);
    } else {
      LastExists(rest);
      var m :| m in rest && forall e :: e in rest ==> !Before(m, e);
      LaterOfTwo(rest, m, x);
    }
  }

  lemma LaterOfTwo(rest: set<Event>, m: Event, x: Event)
    requires m in rest && (forall e :: e in rest ==> !Before(m, e)) && !Before(x, x)
    ensures exists l :: l in rest + {x} && forall e :: e in rest + {x} ==> !Before(l, e)
  {
    hide Before;
    if Before(m, x) {
      forall e | e in rest ensures !Before(x, e) {
        if Before(x, e) {
          BeforeIsTransitive(m, x, e);
        }
      }
      assert x in rest + {x};
    } else {
      assert m in rest + {x};
    }
  }
}
