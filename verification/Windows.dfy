/**
 One-minute window rows: Spark writes them, the serving merge corrects every
 window that loses a contribution, and a corrected row is never overwritten by Spark.
 */
module Windows {
  import Sums
  import opened Events
  import opened Ledgers

  datatype WindowKey = WindowKey(start: int, zone: string)

  /** A row of `rt_zone_metrics`; the idle ratio is exact and null over no vehicles. */
  datatype WindowRow = WindowRow(
    reporting: nat, active: nat, idleRatio: Option<real>, trips: nat, earnings: nat, corrected: bool)

  type WindowTable = map<WindowKey, WindowRow>

  function Members(cs: Contributions, w: WindowKey): set<string> {
    set k | k in cs && cs[k].window == w.start && cs[k].zone == w.zone
  }

  function Completed(cs: Contributions, w: WindowKey): set<string> {
    set k | k in Members(cs, w) && cs[k].completed
  }

  function Fares(cs: Contributions): map<string, nat> {
    map k | k in cs :: cs[k].fare
  }

  function SumFares(cs: Contributions, ids: set<string>): nat
    requires ids <= cs.Keys
  {
    Sums.Sum(Fares(cs), ids)
  }

  /** The aggregate query over the contributions of one window. */
  function Aggregate(cs: Contributions, w: WindowKey): WindowRow {
    var members := Members(cs, w);
    var vehicles := set k | k in members :: cs[k].vehicle;
    var active := set k | k in members && cs[k].status != Idle :: cs[k].vehicle;
    var idle := set k | k in members && cs[k].status == Idle :: cs[k].vehicle;
    WindowRow(|vehicles|, |active|, if vehicles == {} then None else Some(|idle| as real / |vehicles| as real),
              |Completed(cs, w)|, SumFares(cs, Completed(cs, w)), true)
  }

  /** `stage_affected_windows`: windows of retracted contributions and of rejected rows. */
  function Affected(cs: Contributions, batch: set<Event>, ids: set<string>, trips: set<string>): set<WindowKey> {
    (set k | k in cs && (k in ids || TripIn(cs[k].trip, trips)) :: WindowKey(cs[k].window, cs[k].zone))
    + (set e | e in batch && Rejects(ids, trips, e) :: WindowKey(WindowOf(e.ts), e.zone))
  }

  /** The authoritative upsert, run after the accepted contributions are in. */
  function Correct(table: WindowTable, affected: set<WindowKey>, cs: Contributions): WindowTable {
    table + map w | w in affected :: Aggregate(cs, w)
  }

  /** Spark's upsert: new windows start uncorrected, corrected rows keep their values. */
  function SparkUpsert(table: WindowTable, rows: WindowTable): WindowTable {
    table + map w | w in rows && (w in table ==> !table[w].corrected) :: rows[w].(corrected := false)
  }

  /* ---- one merge ---- */

  /** Retraction: a window that loses a contribution is corrected, and its row is what remains. */
  lemma LostContributionCorrects(table: WindowTable, before: Contributions, after: Contributions,
                                 batch: set<Event>, ids: set<string>, trips: set<string>, k: string)
    requires WithoutEvents(before, ids, trips).Keys <= after.Keys
    requires k in before && k !in after
    ensures var w := WindowKey(before[k].window, before[k].zone);
            var result := Correct(table, Affected(before, batch, ids, trips), after);
            && w in Affected(before, batch, ids, trips)
            && w in result && result[w] == Aggregate(after, w)
  {
    assert k !in WithoutEvents(before, ids, trips);
    assert WindowKey(before[k].window, before[k].zone) in Affected(before, batch, ids, trips);
  }

  /** What a retraction takes out of a window: exactly the trips and fares of the lost completed rows. */
  lemma {:induction false} RetractionIsExact(before: Contributions, after: Contributions, w: WindowKey)
    requires forall k :: k in Members(after, w) ==> k in Members(before, w) && after[k] == before[k]
    ensures var lost := Completed(before, w) - Completed(after, w);
            && Aggregate(before, w).earnings == Aggregate(after, w).earnings + SumFares(before, lost)
            && Aggregate(before, w).trips == Aggregate(after, w).trips + |lost|
  {
    var was, now := Completed(before, w), Completed(after, w);
    SplitSum(before, after, was, now);
  }

  lemma {:induction false} SplitSum(before: Contributions, after: Contributions, was: set<string>, now: set<string>)
    requires now <= was <= before.Keys && now <= after.Keys && forall k :: k in now ==> after[k] == before[k]
    ensures SumFares(before, was) == SumFares(after, now) + SumFares(before, was - now)
    ensures |was| == |now| + |was - now|
  {
    assert was == now + (was - now);
    Sums.SumIsAdditive(Fares(before), now, was - now);
    Sums.SumIsLocal(Fares(before), Fares(after), now);
  }

  /* ---- what gains do to a row ---- */

  predicate SameShare(a: Contribution, b: Contribution) {
    a.vehicle == b.vehicle && (a.status == Idle <==> b.status == Idle)
  }

  /** Every added contribution shows no completed trip and a vehicle that was counted before: as idle if it is idle, as
      active if it is not. */
  ghost predicate AddsNothing(before: Contributions, after: Contributions, w: WindowKey) {
    forall k :: k in Members(after, w) && k !in Members(before, w) ==>
      !after[k].completed && exists m :: m in Members(before, w) && SameShare(before[m], after[k])
  }

  /** The idle or the active vehicles of a window. */
  function Share(cs: Contributions, w: WindowKey, idle: bool): set<string> {
    set k | k in Members(cs, w) && (cs[k].status == Idle <==> idle) :: cs[k].vehicle
  }

  /** When a window only gains contributions, its aggregate stays the same exactly if the gains add nothing. */
  lemma {:induction false} GainsKeepAggregateExactly(before: Contributions, after: Contributions, w: WindowKey)
    requires forall k :: k in Members(before, w) ==> k in after && after[k] == before[k]
    ensures Aggregate(before, w) == Aggregate(after, w) <==> AddsNothing(before, after, w)
  {
    SharesGrow(before, after, w);
    AddsNothingMeans(before, after, w);
    hide *;
    EqualAggregates(before, after, w);
  }

  lemma SharesGrow(before: Contributions, after: Contributions, w: WindowKey)
    requires forall k :: k in Members(before, w) ==> k in after && after[k] == before[k]
    ensures forall idle :: Share(before, w, idle) <= Share(after, w, idle)
    ensures Completed(before, w) <= Completed(after, w)
    ensures forall k :: k in Completed(before, w) ==> after[k] == before[k]
  {
    forall idle, v | v in Share(before, w, idle) ensures v in Share(after, w, idle) {
      var k :| k in Members(before, w) && (before[k].status == Idle <==> idle) && before[k].vehicle == v;
      assert k in Members(after, w);
    }
  }

  lemma {:induction false} AddsNothingMeans(before: Contributions, after: Contributions, w: WindowKey)
    requires forall k :: k in Members(before, w) ==> k in after && after[k] == before[k]
    ensures AddsNothing(before, after, w) <==>
              (forall idle :: Share(after, w, idle) <= Share(before, w, idle)) && Completed(after, w) <= Completed(before, w)
  {
    if AddsNothing(before, after, w) {
      forall idle, v | v in Share(after, w, idle) ensures v in Share(before, w, idle) {
        var k :| k in Members(after, w) && (after[k].status == Idle <==> idle) && after[k].vehicle == v;
        if k !in Members(before, w) {
          var m :| m in Members(before, w) && SameShare(before[m], after[k]);
          assert before[m].vehicle in Share(before, w, idle);
        } else {
          assert before[k].vehicle in Share(before, w, idle);
        }
      }
    }
    if (forall idle :: Share(after, w, idle) <= Share(before, w, idle)) && Completed(after, w) <= Completed(before, w) {
      forall k | k in Members(after, w) && k !in Members(before, w)
        ensures !after[k].completed && exists m :: m in Members(before, w) && SameShare(before[m], after[k])
      {
        assert after[k].completed ==> k in Completed(after, w);
        var idle := after[k].status == Idle;
        assert after[k].vehicle in Share(after, w, idle);
        assert after[k].vehicle in Share(before, w, idle);
        var m :| m in Members(before, w) && (before[m].status == Idle <==> idle) && before[m].vehicle == after[k].vehicle;
        assert SameShare(before[m], after[k]);
      }
    }
  }

  /** The aggregate in terms of the two shares. */
  lemma AggregateOfShares(cs: Contributions, w: WindowKey)
    ensures var idle, active := Share(cs, w, true), Share(cs, w, false);
            Aggregate(cs, w) == WindowRow(
              |idle + active|, |active|, if idle + active == {} then None else Some(|idle| as real / |idle + active| as real),
              |Completed(cs, w)|, SumFares(cs, Completed(cs, w)), true)
  {
    assert (set k | k in Members(cs, w) :: cs[k].vehicle) == Share(cs, w, true) + Share(cs, w, false);
    assert (set k | k in Members(cs, w) && cs[k].status == Idle :: cs[k].vehicle) == Share(cs, w, true);
    assert (set k | k in Members(cs, w) && cs[k].status != Idle :: cs[k].vehicle) == Share(cs, w, false);
  }

  lemma {:induction false} EqualAggregates(before: Contributions, after: Contributions, w: WindowKey)
    requires forall idle :: Share(before, w, idle) <= Share(after, w, idle)
    requires Completed(before, w) <= Completed(after, w) && Completed(before, w) <= before.Keys && Completed(after, w) <= after.Keys
    requires forall k :: k in Completed(before, w) ==> after[k] == before[k]
    ensures Aggregate(before, w) == Aggregate(after, w) <==>
              (forall idle :: Share(after, w, idle) <= Share(before, w, idle)) && Completed(after, w) <= Completed(before, w)
  {
    AggregateOfShares(before, w);
    AggregateOfShares(after, w);
    hide *;
    var was, now := Share(before, w, true), Share(after, w, true);
    var wasActive, nowActive := Share(before, w, false), Share(after, w, false);
    if Aggregate(before, w) == Aggregate(after, w) {
      Sums.EqualSizeIsEqual(wasActive, nowActive);
      Sums.EqualSizeIsEqual(Completed(before, w), Completed(after, w));
      Sums.EqualSizeIsEqual(was + wasActive, now + nowActive);
      if now + nowActive != {} {
        SameRatio(|was|, |now|, |now + nowActive|);
        Sums.EqualSizeIsEqual(was, now);
      }
    }
    if (forall idle :: Share(after, w, idle) <= Share(before, w, idle)) && Completed(after, w) <= Completed(before, w) {
      assert was == now && wasActive == nowActive && Completed(before, w) == Completed(after, w);
      SameFares(before, after, Completed(after, w));
    }
  }

  lemma SameRatio(a: nat, b: nat, n: nat)
    requires n > 0 && a as real / n as real == b as real / n as real
    ensures a == b
  {}

  lemma SameFares(before: Contributions, after: Contributions, ids: set<string>)
    requires ids <= before.Keys && ids <= after.Keys && forall k :: k in ids ==> after[k] == before[k]
    ensures SumFares(before, ids) == SumFares(after, ids)
  {
    Sums.SumIsLocal(Fares(before), Fares(after), ids);
  }

  /** No later Spark update changes a corrected row. */
  lemma SparkKeepsCorrected(table: WindowTable, rows: WindowTable, w: WindowKey)
    requires w in table && table[w].corrected
    ensures w in SparkUpsert(table, rows) && SparkUpsert(table, rows)[w] == table[w]
  {}
}
