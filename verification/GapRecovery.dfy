/** Gap repair before it writes: choosing the missing interval from a Kafka snapshot, checking identities, one file per day. */
module GapRecovery {
  import opened Events
  import opened Ledgers
  import opened LedgerProof
  import opened Manifests
  import opened ArchiveProtocol

  /** A retained record: where it is and the event it holds, absent when validation rejects it. */
  datatype Message = Message(at: Position, event: Option<Event>)

  /** A record that belongs to the gap: below the snapshot's end offset, valid, after the raw maximum (at it, when the
      boundary is included) and not after the live maximum. */
  predicate InGap(m: Message, ends: map<nat, nat>, rawMax: int, liveMax: int, includeBoundary: bool) {
    && m.at.partition in ends && m.at.offset < ends[m.at.partition]
    && m.event.Some?
    && (if includeBoundary then m.event.value.ts >= rawMax else m.event.value.ts > rawMax)
    && m.event.value.ts <= liveMax
  }

  function Gap(messages: seq<Message>, ends: map<nat, nat>, rawMax: int, liveMax: int, includeBoundary: bool): seq<Event> {
    if messages == [] then []
    else
      var most, m := Gap(messages[..|messages| - 1], ends, rawMax, liveMax, includeBoundary), messages[|messages| - 1];
      if InGap(m, ends, rawMax, liveMax, includeBoundary) then most + [m.event.value] else most
  }

  /** The polling loop over the messages in the order they arrive. */
  method Recover(messages: seq<Message>, ends: map<nat, nat>, rawMax: int, liveMax: int, includeBoundary: bool)
    returns (recovered: seq<Event>)
    ensures recovered == Gap(messages, ends, rawMax, liveMax, includeBoundary)
  {
    recovered := [];
    for i := 0 to |messages|
      invariant recovered == Gap(messages[..i], ends, rawMax, liveMax, includeBoundary)
    {
      assert messages[..i + 1][..i] == messages[..i];
      var m := messages[i];
      if m.at.partition in ends && m.at.offset < ends[m.at.partition] && m.event.Some? {
        var event := m.event.value;
        var boundary := if includeBoundary then event.ts >= rawMax else event.ts > rawMax;
        if boundary && event.ts <= liveMax {
          recovered := recovered + [event];
        }
      }
    }
    assert messages[..|messages|] == messages;
  }

  /** The record holds this event, lies below the end of its partition in the snapshot, and between the two maxima. */
  ghost predicate Holds(m: Message, e: Event, ends: map<nat, nat>, rawMax: int, liveMax: int, includeBoundary: bool) {
    && m.event == Some(e) && m.at.partition in ends && m.at.offset < ends[m.at.partition]
    && rawMax <= e.ts <= liveMax && (e.ts == rawMax ==> includeBoundary)
  }

  /** Exactly the valid events of such records are recovered: strictly after the raw maximum unless the boundary is
      included, and never after the live maximum. */
  lemma {:induction false} GapIsExact(
    messages: seq<Message>, ends: map<nat, nat>, rawMax: int, liveMax: int, includeBoundary: bool, e: Event)
    ensures e in Gap(messages, ends, rawMax, liveMax, includeBoundary) <==>
              exists i :: 0 <= i < |messages| && Holds(messages[i], e, ends, rawMax, liveMax, includeBoundary)
    decreases |messages|
  {
    if messages != [] {
      var most, last := messages[..|messages| - 1], messages[|messages| - 1];
      GapIsExact(most, ends, rawMax, liveMax, includeBoundary, e);
      assert InGap(last, ends, rawMax, liveMax, includeBoundary) && last.event == Some(e) <==> Holds(last, e, ends, rawMax, liveMax, includeBoundary);
      hide InGap, Holds;
      if i :| 0 <= i < |most| && Holds(most[i], e, ends, rawMax, liveMax, includeBoundary) {
        assert messages[i] == most[i];
      }
      if i :| 0 <= i < |messages| && Holds(messages[i], e, ends, rawMax, liveMax, includeBoundary) {
        assert i < |messages| - 1 ==> most[i] == messages[i];
      }
    }
  }

  /* ---- identities ---- */

  /** Every recovered event is the accepted one of its id, or its id is in the conflict ledger without an accepted one. */
  ghost predicate IdentitiesHold(rows: seq<Event>, keys: Keys, conflicts: Conflicts) {
    forall e :: e in rows ==>
      && (e.id in keys ==> keys[e.id].fingerprint == e)
      && (e.id in keys || e.id in ConflictedIds(conflicts))
  }

  type Fingerprints = map<string, set<Event>>

  ghost predicate Collects(rows: seq<Event>, byId: Fingerprints) {
    && (forall e :: e in rows ==> e.id in byId && e in byId[e.id])
    && (forall id :: id in byId ==> byId[id] != {} && forall e :: e in byId[id] ==> e in rows && e.id == id)
  }

  /** Collect the fingerprints per id, then compare every id with the ledgers. */
  method VerifyIdentities(rows: seq<Event>, keys: Keys, conflicts: Conflicts) returns (ok: bool)
    ensures ok <==> IdentitiesHold(rows, keys, conflicts)
  {
    var byId: Fingerprints := map[];
    for i := 0 to |rows|
      invariant Collects(rows[..i], byId)
    {
      assert rows[..i + 1] == rows[..i] + [rows[i]];
      var e := rows[i];
      byId := byId[e.id := (if e.id in byId then byId[e.id] else {}) + {e}];
    }
    assert rows[..|rows|] == rows;
    var todo := byId.Keys;
    while todo != {}
      invariant todo <= byId.Keys
      invariant forall id :: id in byId && id !in todo ==> IdHolds(id, byId[id], keys, conflicts)
      decreases todo
    {
      var id :| id in todo;
      if id in keys && byId[id] != {keys[id].fingerprint} {
        BrokenId(rows, byId, id, keys, conflicts);
        return false;
      }
      if id !in keys && id !in ConflictedIds(conflicts) {
        BrokenId(rows, byId, id, keys, conflicts);
        return false;
      }
      todo := todo - {id};
    }
    return true;
  }

  predicate IdHolds(id: string, signatures: set<Event>, keys: Keys, conflicts: Conflicts) {
    (id in keys ==> signatures == {keys[id].fingerprint}) && (id in keys || id in ConflictedIds(conflicts))
  }

  lemma BrokenId(rows: seq<Event>, byId: Fingerprints, id: string, keys: Keys, conflicts: Conflicts)
    requires Collects(rows, byId) && id in byId && !IdHolds(id, byId[id], keys, conflicts)
    ensures !IdentitiesHold(rows, keys, conflicts)
  {
    hide ConflictedIds;
    if id in keys {
      var f := SomethingElse(byId[id], keys[id].fingerprint);
      assert f in rows && f.id == id;
    } else {
      var e :| e in byId[id];
      assert e in rows && e.id == id;
    }
  }

  lemma SomethingElse(events: set<Event>, e: Event) returns (f: Event)
    requires events != {} && events != {e}
    ensures f in events && f != e
  {
    f :| f in events;
    if f == e {
      var rest := events - {e};
      assert events == rest + {e};
      f :| f in rest;
    }
  }

  /** Of events that the serving path has seen, a recovery is refused exactly when it contains another event under an id
      that was accepted: an id that never was is known as a conflict. */
  lemma {:induction false} SeenEventsVerifyExactly(rows: seq<Event>, t: Tables, seen: set<Event>)
    requires KeysMirror(t, seen) && forall e :: e in rows ==> e in seen
    ensures IdentitiesHold(rows, t.keys, t.conflicts) <==> forall e :: e in rows && e.id in t.keys ==> t.keys[e.id].fingerprint == e
  {
    hide ConflictedIds;
    forall e | e in rows ensures e.id in t.keys || e.id in ConflictedIds(t.conflicts) {
      assert e in seen;
    }
  }

  /* ---- one file per day ---- */

  type ByDate = map<int, seq<Event>>

  const FILE := "recovered-gap.parquet"

  function RelOf(iso: int -> string, day: int): Rel {
    Rel(false, [DT + iso(day), FILE])
  }

  ghost predicate Injective(iso: int -> string) {
    forall a, b :: iso(a) == iso(b) ==> a == b
  }

  /** No two days share a file. */
  lemma RelsDiffer(iso: int -> string)
    requires Injective(iso)
    ensures forall a, b :: RelOf(iso, a) == RelOf(iso, b) ==> a == b
  {
    forall a, b | RelOf(iso, a) == RelOf(iso, b) ensures a == b {
      assert (DT + iso(a))[|DT|..] == iso(a) && (DT + iso(b))[|DT|..] == iso(b);
      assert RelOf(iso, a).parts[0] == RelOf(iso, b).parts[0];
    }
  }

  ghost predicate Grouped(events: seq<Event>, byDate: ByDate) {
    && (forall e :: e in events ==> DayOf(e.ts) in byDate && e in byDate[DayOf(e.ts)])
    && (forall d :: d in byDate ==> byDate[d] != [] && forall e :: e in byDate[d] ==> e in events && DayOf(e.ts) == d)
  }

  function FilesOf(byDate: ByDate, iso: int -> string, encode: seq<Event> -> string): Items
    requires Injective(iso)
  {
    RelsDiffer(iso);
    map d | d in byDate :: RelOf(iso, d) := Item(encode(byDate[d]), |byDate[d]|)
  }

  ghost function RowsFor(byDate: ByDate, iso: int -> string, encode: seq<Event> -> string): nat
    requires Injective(iso)
  {
    TotalRows(FilesOf(byDate, iso, encode))
  }

  /** One more event in its day's file adds one row to the total. */
  lemma {:induction false} AppendAddsOneRow(byDate: ByDate, e: Event, iso: int -> string, encode: seq<Event> -> string)
    requires Injective(iso)
    ensures RowsFor(Appended(byDate, e), iso, encode) == RowsFor(byDate, iso, encode) + 1
  {
    hide TotalRows, RelOf;
    RelsDiffer(iso);
    var d := DayOf(e.ts);
    var rel, before, after := RelOf(iso, d), FilesOf(byDate, iso, encode), FilesOf(Appended(byDate, e), iso, encode);
    TotalTakesAny(after, rel);
    if d in byDate {
      TotalTakesAny(before, rel);
      assert after - {rel} == before - {rel};
    } else {
      assert after - {rel} == before;
    }
  }

  function Appended(byDate: ByDate, e: Event): ByDate {
    byDate[DayOf(e.ts) := (if DayOf(e.ts) in byDate then byDate[DayOf(e.ts)] else []) + [e]]
  }

  /** Group by UTC date: every recovered event is in its day's list, and the lists hold as many rows as there are events. */
  method GroupByDate(recovered: seq<Event>, iso: int -> string, encode: seq<Event> -> string) returns (byDate: ByDate)
    requires Injective(iso)
    ensures Grouped(recovered, byDate) && RowsFor(byDate, iso, encode) == |recovered|
  {
    hide *;
    byDate := map[];
    ghost var done: seq<Event> := [];
    NothingGrouped(done, byDate, iso, encode);
    for i := 0 to |recovered|
      invariant done == recovered[..i] && Grouped(done, byDate)
      invariant RowsFor(byDate, iso, encode) == i
    {
      AppendAddsOneRow(byDate, recovered[i], iso, encode);
      GroupGrows(done, byDate, recovered[i]);
      byDate := Appended(byDate, recovered[i]);
      done := done + [recovered[i]];
    }
    assert done == recovered;
  }

  /** One nonempty data file per date, together holding every recovered event: what the repair writes. */
  method DescribeFiles(recovered: seq<Event>, iso: int -> string, encode: seq<Event> -> string) returns (byDate: ByDate, files: Items)
    requires Injective(iso)
    ensures Grouped(recovered, byDate) && files == FilesOf(byDate, iso, encode)
    ensures GoodFiles(files, |recovered|) && (recovered != [] ==> files != map[])
  {
    byDate := GroupByDate(recovered, iso, encode);
    files := FilesOf(byDate, iso, encode);
    hide *;
    FilesAreGood(byDate, recovered, iso, encode);
  }

  lemma NothingGrouped(events: seq<Event>, byDate: ByDate, iso: int -> string, encode: seq<Event> -> string)
    requires Injective(iso) && events == [] && byDate == map[]
    ensures Grouped(events, byDate) && RowsFor(byDate, iso, encode) == 0
  {
    assert FilesOf(byDate, iso, encode) == map[];
  }

  lemma GroupGrows(events: seq<Event>, byDate: ByDate, e: Event)
    requires Grouped(events, byDate)
    ensures Grouped(events + [e], Appended(byDate, e))
  {
    var d, all := DayOf(e.ts), events + [e];
    assert forall f :: f in all <==> f in events || f == e;
    assert forall f :: f in Appended(byDate, e)[d] <==> (d in byDate && f in byDate[d]) || f == e;
  }

  lemma DataOfOneDay(iso: int -> string, day: int)
    ensures forall d :: OfDay(RelOf(iso, day), d) <==> d == iso(day)
  {
    forall d | OfDay(RelOf(iso, day), d) ensures d == iso(day) {
      assert (DT + d)[|DT|..] == d && (DT + iso(day))[|DT|..] == iso(day);
    }
  }

  /** The file of a day is found by the glob and is read for exactly that day. */
  lemma RelIsData(iso: int -> string, day: int)
    ensures IsData(RelOf(iso, day))
    ensures forall d :: OfDay(RelOf(iso, day), d) <==> d == iso(day)
  {
    DataOfOneDay(iso, day);
    assert RelOf(iso, day).parts[0][..|DT|] == DT;
    assert FILE[|FILE| - |PARQUET|..] == PARQUET;
  }

  lemma FilesAreGood(byDate: ByDate, recovered: seq<Event>, iso: int -> string, encode: seq<Event> -> string)
    requires Injective(iso)
    requires Grouped(recovered, byDate) && RowsFor(byDate, iso, encode) == |recovered|
    ensures GoodFiles(FilesOf(byDate, iso, encode), |recovered|)
    ensures recovered != [] ==> FilesOf(byDate, iso, encode) != map[]
  {
    hide TotalRows;
    var files := FilesOf(byDate, iso, encode);
    forall rel | rel in files ensures IsData(rel) && files[rel].rows > 0 {
      var d :| d in byDate && rel == RelOf(iso, d);
      RelIsData(iso, d);
    }
    hide RelOf;
    if recovered != [] {
      assert recovered[0] in recovered;
      assert RelOf(iso, DayOf(recovered[0].ts)) in files;
    }
  }
}
