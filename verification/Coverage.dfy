/** Telemetry coverage of one vehicle and day: how many ticks a day has and when none of them is missing. */
module Coverage {
  import Sums
  import Text

  /** Round up, as `math.ceil`. */
  function Ceil(x: real): int {
    -((-x).Floor)
  }

  lemma CeilBounds(x: real)
    ensures Ceil(x) as real - 1.0 < x <= Ceil(x) as real
  {}

  /** `k` is at or after x exactly if it is at or after the ceiling of x. */
  lemma CeilIsLeast(x: real, k: int)
    ensures k as real >= x <==> k >= Ceil(x)
  {}

  /** Simulated seconds between two ticks. */
  function StepOf(interval: real, daySeconds: real): real
    requires daySeconds > 0.0
  {
    interval * 86400.0 / daySeconds
  }

  lemma StepIsPositive(interval: real, daySeconds: real)
    requires interval > 0.0 && daySeconds > 0.0
    ensures StepOf(interval, daySeconds) > 0.0
  {}

  /** `expected_observations`: times in seconds since the simulation start. */
  function Expected(start: real, end: real, step: real): int
    requires step > 0.0
  {
    Ceil(end / step) - Ceil(start / step)
  }

  predicate TickIn(k: int, start: real, end: real, step: real) {
    start <= k as real * step < end
  }

  lemma DivideBySteps(k: int, x: real, step: real)
    requires step > 0.0
    ensures k as real * step >= x <==> k as real >= x / step
  {
    assert x / step * step == x;
    if k as real >= x / step {
      assert (k as real - x / step) * step >= 0.0;
    } else {
      assert (x / step - k as real) * step > 0.0;
    }
  }

  /** The ticks of the day are exactly the integers between the two ceilings. */
  lemma TicksAreAnInterval(k: int, start: real, end: real, step: real)
    requires step > 0.0
    ensures TickIn(k, start, end, step) <==> Ceil(start / step) <= k < Ceil(end / step)
  {
    DivideBySteps(k, start, step);
    DivideBySteps(k, end, step);
    CeilIsLeast(start / step, k);
    CeilIsLeast(end / step, k);
  }

  function Interval(a: int, b: int): (r: set<int>)
    ensures forall k :: k in r <==> a <= k < b
    ensures a <= b ==> |r| == b - a
    decreases b - a
  {
    if a >= b then {} else Interval(a, b - 1) + {b - 1}
  }

  function Ticks(start: real, end: real, step: real): set<int>
    requires step > 0.0
  {
    Interval(Ceil(start / step), Ceil(end / step))
  }

  lemma {:induction false} CeilIsMonotone(x: real, y: real)
    requires x <= y
    ensures Ceil(x) <= Ceil(y)
  {
    CeilBounds(x);
    CeilBounds(y);
  }

  /** The difference of the ceilings counts exactly the ticks k*step inside [start, end). */
  lemma {:induction false} ExpectedCountsTicks(start: real, end: real, step: real)
    requires step > 0.0 && start <= end
    ensures forall k :: k in Ticks(start, end, step) <==> TickIn(k, start, end, step)
    ensures |Ticks(start, end, step)| == Expected(start, end, step)
  {
    forall k ensures k in Ticks(start, end, step) <==> TickIn(k, start, end, step) {
      TicksAreAnInterval(k, start, end, step);
    }
    QuotientIsMonotone(start, end, step);
    CeilIsMonotone(start / step, end / step);
  }

  lemma QuotientIsMonotone(x: real, y: real, step: real)
    requires step > 0.0 && x <= y
    ensures x / step <= y / step
  {
    assert (y - x) / step >= 0.0;
    assert (y - x) / step == y / step - x / step;
  }

  /* ---- the completeness verdict ---- */

  datatype Observation = Observation(time: real, zone: string)

  predicate Ordered(rows: seq<Observation>) {
    forall i, j :: 0 <= i < j < |rows| ==> rows[i].time <= rows[j].time
  }

  /** Largest gap between neighbouring rows; zero over fewer than two rows. */
  function MaxGap(rows: seq<Observation>): real {
    if |rows| < 2 then 0.0
    else
      var gap, rest := rows[|rows| - 1].time - rows[|rows| - 2].time, MaxGap(rows[..|rows| - 1]);
      if gap > rest then gap else rest
  }

  /** The verdict on the distinct, time-ordered observations of one vehicle. */
  predicate IsComplete(rows: seq<Observation>, start: real, end: real, step: real)
    requires step > 0.0
  {
    && rows != []
    && rows[0].time - start <= step + 0.001
    && end - rows[|rows| - 1].time <= step + 0.001
    && MaxGap(rows) <= step * 1.5
    && |rows| >= Expected(start, end, step)
  }

  /** Observed only at ticks of the day, in one zone: distinct rows are distinct ticks. */
  ghost predicate AtTicks(rows: seq<Observation>, ks: seq<int>, start: real, end: real, step: real) {
    && |rows| == |ks|
    && (forall i :: 0 <= i < |ks| ==> rows[i].time == ks[i] as real * step && TickIn(ks[i], start, end, step))
    && (forall i, j :: 0 <= i < j < |ks| ==> ks[i] < ks[j])
  }

  ghost predicate Occurs(ks: seq<int>, k: int) {
    exists i :: 0 <= i < |ks| && ks[i] == k
  }

  /** A strictly increasing sequence of integers from [a, b) is no longer than the interval, and as long only if it is all of it. */
  lemma {:induction false} IncreasingFits(ks: seq<int>, a: int, b: int)
    requires forall i, j :: 0 <= i < j < |ks| ==> ks[i] < ks[j]
    requires forall i :: 0 <= i < |ks| ==> a <= ks[i] < b
    requires a <= b
    ensures |ks| <= b - a
    ensures |ks| == b - a ==> forall i :: 0 <= i < |ks| ==> ks[i] == a + i
  {
    if ks != [] {
      IncreasingFits(ks[..|ks| - 1], a, ks[|ks| - 1]);
    }
  }

  lemma EarlierOccurs(ks: seq<int>, k: int)
    requires ks != [] && Occurs(ks, k) && k != ks[|ks| - 1]
    ensures Occurs(ks[..|ks| - 1], k)
  {
    var i :| 0 <= i < |ks| && ks[i] == k;
    assert ks[..|ks| - 1][i] == k;
  }

  /** If every integer of [a, b) occurs, the sequence has all b - a of them. */
  lemma {:induction false} AllOccurFills(ks: seq<int>, a: int, b: int)
    requires forall i, j :: 0 <= i < j < |ks| ==> ks[i] < ks[j]
    requires forall i :: 0 <= i < |ks| ==> a <= ks[i] < b
    requires a <= b && forall k :: a <= k < b ==> Occurs(ks, k)
    ensures |ks| == b - a
    decreases b - a
  {
    if a < b {
      assert Occurs(ks, b - 1);
      var last := |ks| - 1;
      var at :| 0 <= at < |ks| && ks[at] == b - 1;
      assert forall i :: 0 <= i < last ==> ks[i] < ks[last];
      var most := ks[..last];
      forall k | a <= k < b - 1 ensures Occurs(most, k) {
        assert Occurs(ks, k);
        EarlierOccurs(ks, k);
      }
      AllOccurFills(most, a, b - 1);
    }
  }

  lemma {:induction false} RegularGaps(rows: seq<Observation>, ks: seq<int>, a: int, step: real)
    requires step > 0.0 && |rows| == |ks|
    requires forall i :: 0 <= i < |ks| ==> ks[i] == a + i && rows[i].time == ks[i] as real * step
    ensures MaxGap(rows) <= step
  {
    if |rows| >= 2 {
      RegularGaps(rows[..|rows| - 1], ks[..|ks| - 1], a, step);
      NextTick(ks[|ks| - 2], step);
    }
  }

  lemma NextTick(k: int, step: real)
    ensures (k + 1) as real * step - k as real * step == step
  {
    assert (k + 1) as real == k as real + 1.0;
  }

  /** The first tick of the day lies less than one step after its start, the last at most one step before its end. */
  lemma EdgeTicks(start: real, end: real, step: real)
    requires step > 0.0
    ensures Ceil(start / step) as real * step - start < step
    ensures end - (Ceil(end / step) - 1) as real * step <= step
  {
    CeilBounds(start / step);
    CeilBounds(end / step);
    ScaleBelow(Ceil(start / step) as real - 1.0, start / step, step);
    ScaleAtMost(end / step, Ceil(end / step) as real, step);
    assert start / step * step == start && end / step * step == end;
    assert (Ceil(start / step) as real - 1.0) * step == Ceil(start / step) as real * step - step;
    assert (Ceil(end / step) - 1) as real == Ceil(end / step) as real - 1.0;
    assert (Ceil(end / step) as real - 1.0) * step == Ceil(end / step) as real * step - step;
  }

  lemma ScaleBelow(x: real, y: real, step: real)
    requires step > 0.0 && x < y
    ensures x * step < y * step
  {
    assert (y - x) * step > 0.0;
  }

  lemma ScaleAtMost(x: real, y: real, step: real)
    requires step > 0.0 && x <= y
    ensures x * step <= y * step
  {
    assert (y - x) * step >= 0.0;
  }

  /** For a vehicle seen only at ticks and in one zone, on a day with at least one tick: the verdict is
      `complete` exactly if no tick of the day is missing. */
  lemma {:induction false} CompleteMeansNoTickMissing(rows: seq<Observation>, ks: seq<int>, start: real, end: real, step: real)
    requires step > 0.0 && start <= end && AtTicks(rows, ks, start, end, step)
    requires Expected(start, end, step) >= 1
    ensures IsComplete(rows, start, end, step) <==> forall k :: TickIn(k, start, end, step) ==> Occurs(ks, k)
  {
    var a, b := Ceil(start / step), Ceil(end / step);
    forall k ensures TickIn(k, start, end, step) <==> a <= k < b {
      TicksAreAnInterval(k, start, end, step);
    }
    hide TickIn, Ceil, MaxGap;
    IncreasingFits(ks, a, b);
    if forall k :: TickIn(k, start, end, step) ==> Occurs(ks, k) {
      AllOccurFills(ks, a, b);
      AllTicksComplete(rows, ks, start, end, step);
    }
    if IsComplete(rows, start, end, step) {
      forall k | TickIn(k, start, end, step) ensures Occurs(ks, k) {
        assert ks[k - a] == k;
      }
    }
  }

  lemma {:induction false} AllTicksComplete(rows: seq<Observation>, ks: seq<int>, start: real, end: real, step: real)
    requires step > 0.0 && |rows| == |ks| == Expected(start, end, step) >= 1
    requires forall i :: 0 <= i < |ks| ==> ks[i] == Ceil(start / step) + i && rows[i].time == ks[i] as real * step
    ensures IsComplete(rows, start, end, step)
  {
    hide Ceil;
    EdgeTicks(start, end, step);
    RegularGaps(rows, ks, Ceil(start / step), step);
    var last := |rows| - 1;
    assert ks[last] == Ceil(end / step) - 1;
    assert rows[last].time == (Ceil(end / step) - 1) as real * step;
  }

  /* ---- vehicles seen in several zones ---- */

  /** Observed only at ticks of the day, in any number of zones per tick. */
  ghost predicate AtTicksInZones(rows: seq<Observation>, ks: seq<int>, start: real, end: real, step: real) {
    TicksOf(rows, ks, step) && forall i :: 0 <= i < |ks| ==> TickIn(ks[i], start, end, step)
  }

  ghost predicate Missing(ks: seq<int>, k: int, start: real, end: real, step: real) {
    TickIn(k, start, end, step) && !Occurs(ks, k)
  }

  /** A missing tick within a millisecond of an edge of the day, outside everything observed. */
  ghost predicate OnTheEdge(ks: seq<int>, k: int, start: real, end: real, step: real)
    requires ks != []
  {
    (k < ks[0] && k as real * step - start <= 0.001) || (k > ks[|ks| - 1] && end - k as real * step <= 0.001)
  }

  ghost predicate TicksOf(rows: seq<Observation>, ks: seq<int>, step: real) {
    && |rows| == |ks|
    && (forall i :: 0 <= i < |ks| ==> rows[i].time == ks[i] as real * step)
    && (forall i, j :: 0 <= i < j < |ks| ==> ks[i] <= ks[j])
  }

  lemma LastTicks(rows: seq<Observation>, ks: seq<int>, step: real)
    requires step > 0.0 && TicksOf(rows, ks, step) && |rows| >= 2
    ensures var n := |rows| - 1;
            TicksOf(rows[..n], ks[..n], step) && (rows[n].time - rows[n - 1].time <= step * 1.5 <==> ks[n] <= ks[n - 1] + 1)
  {
    var n := |rows| - 1;
    GapOfTicks(ks[n - 1], ks[n], step, rows[n - 1].time, rows[n].time);
  }

  /** The largest gap is at most 1.5 steps exactly if neighbouring rows are at most one tick apart. */
  lemma {:induction false} GapsInTicks(rows: seq<Observation>, ks: seq<int>, step: real)
    requires step > 0.0 && |rows| == |ks| && TicksOf(rows, ks, step)
    ensures MaxGap(rows) <= step * 1.5 <==> StepsOfOne(ks)
  {
    if |rows| < 2 {
      assert StepsOfOne(ks) && MaxGap(rows) == 0.0;
    } else {
      hide TicksOf, StepsOfOne, MaxGap;
      var n := |rows| - 1;
      LastTicks(rows, ks, step);
      GapsInTicks(rows[..n], ks[..n], step);
      OneMoreStep(ks);
      MaxGapUnfolds(rows, step * 1.5);
    }
  }

  predicate StepsOfOne(ks: seq<int>) {
    forall i :: 0 < i < |ks| ==> ks[i] <= ks[i - 1] + 1
  }

  lemma OneMoreStep(ks: seq<int>)
    requires |ks| >= 2
    ensures StepsOfOne(ks) <==> StepsOfOne(ks[..|ks| - 1]) && ks[|ks| - 1] <= ks[|ks| - 2] + 1
  {
    var most := ks[..|ks| - 1];
    if StepsOfOne(ks) {
      forall i | 0 < i < |most| ensures most[i] <= most[i - 1] + 1 {
        assert ks[i] <= ks[i - 1] + 1;
      }
    }
    if StepsOfOne(most) {
      forall i | 0 < i < |most| ensures ks[i] <= ks[i - 1] + 1 {
        assert most[i] <= most[i - 1] + 1;
      }
    }
  }

  lemma MaxGapUnfolds(rows: seq<Observation>, bound: real)
    requires |rows| >= 2
    ensures MaxGap(rows) <= bound <==> MaxGap(rows[..|rows| - 1]) <= bound && rows[|rows| - 1].time - rows[|rows| - 2].time <= bound
  {}

  lemma GapOfTicks(a: int, b: int, step: real, x: real, y: real)
    requires step > 0.0 && a <= b && x == a as real * step && y == b as real * step
    ensures y - x <= step * 1.5 <==> b <= a + 1
  {
    var d := (b - a) as real;
    assert b as real * step - a as real * step == d * step;
    if b <= a + 1 {
      assert d <= 1.0;
      ScaleAtMost(d, 1.5, step);
    } else {
      assert d >= 2.0;
      ScaleBelow(1.5, d, step);
    }
  }

  /** Neighbouring ticks at most one apart mean that no tick in between is missing. */
  lemma {:induction false} StepsOfOneCover(ks: seq<int>, k: int)
    requires ks != [] && StepsOfOne(ks)
    requires ks[0] <= k <= ks[|ks| - 1]
    ensures Occurs(ks, k)
  {
    var last := |ks| - 1;
    if ks[last] == k {
      assert Occurs(ks, k);
    } else {
      StepsOfOneCover(ks[..last], k);
      var i :| 0 <= i < last && ks[..last][i] == k;
      assert ks[i] == k;
    }
  }

  lemma {:induction false} CoverMeansStepsOfOne(ks: seq<int>, i: nat)
    requires forall i, j :: 0 <= i < j < |ks| ==> ks[i] <= ks[j]
    requires 0 < i < |ks| && Occurs(ks, ks[i - 1] + 1)
    ensures ks[i] <= ks[i - 1] + 1
  {
    var j :| 0 <= j < |ks| && ks[j] == ks[i - 1] + 1;
    assert j >= i;
  }

  lemma ShiftTick(k: int, step: real)
    ensures (k + 1) as real * step == k as real * step + step && (k - 1) as real * step == k as real * step - step
  {
    assert (k + 1) as real == k as real + 1.0 && (k - 1) as real == k as real - 1.0;
  }

  lemma TickOrder(a: int, b: int, step: real)
    requires step > 0.0 && a <= b
    ensures a as real * step <= b as real * step
  {
    ScaleAtMost(a as real, b as real, step);
  }

  /** The verdict on a vehicle seen only at ticks, in any zones: complete exactly if it was seen, there are as many rows as
      ticks, and every missing tick lies on an edge. Ticks between observed ones are never hidden. */
  lemma {:induction false} CompleteExactly(rows: seq<Observation>, ks: seq<int>, start: real, end: real, step: real)
    requires step > 0.0 && start <= end && AtTicksInZones(rows, ks, start, end, step)
    ensures IsComplete(rows, start, end, step) <==>
              && rows != [] && |rows| >= Expected(start, end, step)
              && forall k :: Missing(ks, k, start, end, step) ==> OnTheEdge(ks, k, start, end, step)
  {
    if rows != [] {
      GapsInTicks(rows, ks, step);
      hide Expected, MaxGap, TickIn, Occurs, StepsOfOne, AtTicksInZones, Missing, OnTheEdge;
      if IsComplete(rows, start, end, step) {
        forall k | Missing(ks, k, start, end, step) ensures OnTheEdge(ks, k, start, end, step) {
          MissingIsOnEdge(rows, ks, k, start, end, step);
        }
      }
      if |rows| >= Expected(start, end, step) && forall k :: Missing(ks, k, start, end, step) ==> OnTheEdge(ks, k, start, end, step) {
        EdgesOnlyComplete(rows, ks, start, end, step);
      }
    }
  }

  lemma {:induction false} MissingIsOnEdge(rows: seq<Observation>, ks: seq<int>, k: int, start: real, end: real, step: real)
    requires step > 0.0 && AtTicksInZones(rows, ks, start, end, step) && rows != []
    requires rows[0].time - start <= step + 0.001 && end - rows[|rows| - 1].time <= step + 0.001
    requires StepsOfOne(ks)
    requires Missing(ks, k, start, end, step)
    ensures OnTheEdge(ks, k, start, end, step)
  {
    hide TickIn, Occurs;
    var first, last := ks[0], ks[|ks| - 1];
    if first <= k <= last {
      StepsOfOneCover(ks, k);
    }
    ShiftTick(first, step);
    ShiftTick(last, step);
    if k < first {
      TickOrder(k, first - 1, step);
    }
    if k > last {
      TickOrder(last + 1, k, step);
    }
  }

  lemma {:induction false} EdgesOnlyComplete(rows: seq<Observation>, ks: seq<int>, start: real, end: real, step: real)
    requires step > 0.0 && start <= end && AtTicksInZones(rows, ks, start, end, step) && rows != []
    requires |rows| >= Expected(start, end, step)
    requires forall k :: Missing(ks, k, start, end, step) ==> OnTheEdge(ks, k, start, end, step)
    ensures IsComplete(rows, start, end, step)
  {
    hide Expected, MaxGap, TickIn, Missing, OnTheEdge, Occurs, IsComplete;
    forall i | 0 < i < |ks| ensures ks[i] <= ks[i - 1] + 1 {
      InnerGapIsOne(ks, i, start, end, step);
    }
    assert StepsOfOne(ks);
    GapsInTicks(rows, ks, step);
    FirstTickIsEarly(ks, start, end, step);
    LastTickIsLate(ks, start, end, step);
    CompleteMeans(rows, start, end, step);
  }

  lemma CompleteMeans(rows: seq<Observation>, start: real, end: real, step: real)
    requires step > 0.0 && rows != [] && MaxGap(rows) <= step * 1.5 && |rows| >= Expected(start, end, step)
    requires rows[0].time - start <= step + 0.001 && end - rows[|rows| - 1].time <= step + 0.001
    ensures IsComplete(rows, start, end, step)
  {
    hide MaxGap, Expected;
  }

  lemma {:induction false} InnerGapIsOne(ks: seq<int>, i: nat, start: real, end: real, step: real)
    requires step > 0.0 && 0 < i < |ks| && TickIn(ks[0], start, end, step) && TickIn(ks[|ks| - 1], start, end, step)
    requires forall i, j :: 0 <= i < j < |ks| ==> ks[i] <= ks[j]
    requires forall k :: Missing(ks, k, start, end, step) ==> OnTheEdge(ks, k, start, end, step)
    ensures ks[i] <= ks[i - 1] + 1
  {
    if ks[i] > ks[i - 1] {
      var k := ks[i - 1] + 1;
      assert ks[0] <= k <= ks[|ks| - 1];
      BetweenTicks(ks[0], ks[|ks| - 1], k, start, end, step);
      hide TickIn, Occurs;
      assert !Missing(ks, k, start, end, step);
      CoverMeansStepsOfOne(ks, i);
    }
  }

  lemma BetweenTicks(a: int, b: int, k: int, start: real, end: real, step: real)
    requires step > 0.0 && TickIn(a, start, end, step) && TickIn(b, start, end, step) && a <= k <= b
    ensures TickIn(k, start, end, step)
  {
    var x, y, z := a as real * step, k as real * step, b as real * step;
    assert start <= x && z < end;
    TickOrder(a, k, step);
    TickOrder(k, b, step);
    assert x <= y <= z;
  }

  lemma {:induction false} FirstTickIsEarly(ks: seq<int>, start: real, end: real, step: real)
    requires step > 0.0 && ks != [] && TickIn(ks[0], start, end, step)
    requires forall i, j :: 0 <= i < j < |ks| ==> ks[i] <= ks[j]
    requires forall k :: Missing(ks, k, start, end, step) ==> OnTheEdge(ks, k, start, end, step)
    ensures ks[0] as real * step - start <= step + 0.001
  {
    var k := ks[0] - 1;
    ShiftTick(ks[0], step);
    if k as real * step >= start {
      assert TickIn(k, start, end, step);
      assert forall i :: 0 <= i < |ks| ==> ks[0] <= ks[i];
      assert Missing(ks, k, start, end, step);
      assert k <= ks[|ks| - 1];
    }
  }

  lemma {:induction false} LastTickIsLate(ks: seq<int>, start: real, end: real, step: real)
    requires step > 0.0 && ks != [] && TickIn(ks[|ks| - 1], start, end, step)
    requires forall i, j :: 0 <= i < j < |ks| ==> ks[i] <= ks[j]
    requires forall k :: Missing(ks, k, start, end, step) ==> OnTheEdge(ks, k, start, end, step)
    ensures end - ks[|ks| - 1] as real * step <= step + 0.001
  {
    var last := |ks| - 1;
    var k := ks[last] + 1;
    ShiftTick(ks[last], step);
    if k as real * step < end {
      assert TickIn(k, start, end, step);
      assert forall i :: 0 <= i < |ks| ==> ks[i] <= ks[last];
      assert Missing(ks, k, start, end, step);
    }
  }

  function Elements(ks: seq<int>): set<int> {
    set i | 0 <= i < |ks| :: ks[i]
  }

  /** The count condition in terms of zones: rows beyond the first at a tick make up for the ticks that are missing. */
  lemma {:induction false} ExtraZonesMakeUp(rows: seq<Observation>, ks: seq<int>, start: real, end: real, step: real)
    requires step > 0.0 && start <= end && AtTicksInZones(rows, ks, start, end, step)
    ensures |rows| >= Expected(start, end, step) <==> |rows| - |Elements(ks)| >= |Ticks(start, end, step) - Elements(ks)|
  {
    var ticks, seen := Ticks(start, end, step), Elements(ks);
    ExpectedCountsTicks(start, end, step);
    forall k | k in seen ensures k in ticks {
      assert TickIn(k, start, end, step);
    }
    assert ticks == (ticks - seen) + seen;
  }

  /** In any number of zones: if no tick of the day is missing, the verdict is `complete`. */
  lemma {:induction false} NoTickMissingIsComplete(rows: seq<Observation>, ks: seq<int>, start: real, end: real, step: real)
    requires step > 0.0 && start <= end && AtTicksInZones(rows, ks, start, end, step) && Expected(start, end, step) >= 1
    requires forall k :: !Missing(ks, k, start, end, step)
    ensures IsComplete(rows, start, end, step)
  {
    var a, b := Ceil(start / step), Ceil(end / step);
    forall k | a <= k < b ensures Occurs(ks, k) {
      TicksAreAnInterval(k, start, end, step);
      assert !Missing(ks, k, start, end, step);
    }
    assert Occurs(ks, a);
    CoversIsLong(ks, a, b);
    CompleteExactly(rows, ks, start, end, step);
  }

  /** A sequence in which every integer of [a, b) occurs has at least b - a elements. */
  lemma {:induction false} CoversIsLong(ks: seq<int>, a: int, b: int)
    requires a <= b && forall k :: a <= k < b ==> Occurs(ks, k)
    ensures |ks| >= b - a
  {
    var seen := Elements(ks);
    forall k | k in Interval(a, b) ensures k in seen {
      assert Occurs(ks, k);
    }
    Sums.SubsetIsNoLarger(Interval(a, b), seen);
    ElementsAreNoMore(ks);
  }

  lemma {:induction false} ElementsAreNoMore(ks: seq<int>)
    ensures |Elements(ks)| <= |ks|
  {
    if ks != [] {
      var most := ks[..|ks| - 1];
      ElementsAreNoMore(most);
      OneMoreElement(ks);
    }
  }

  lemma OneMoreElement(ks: seq<int>)
    requires ks != []
    ensures Elements(ks) == Elements(ks[..|ks| - 1]) + {ks[|ks| - 1]}
  {
    var most, last := ks[..|ks| - 1], ks[|ks| - 1];
    forall x ensures x in Elements(ks) <==> x in Elements(most) + {last} {
      if x in Elements(ks) {
        var i :| 0 <= i < |ks| && ks[i] == x;
        assert i < |most| ==> most[i] == x;
      }
      if x in Elements(most) {
        var i :| 0 <= i < |most| && most[i] == x;
        assert ks[i] == x;
      }
    }
  }

  /** On every real day with ticks at midnight, eight and sixteen o'clock: a second zone at one tick makes up for the missing
      midnight tick. */
  lemma TwoZonesHideMidnight(day: int, one: string, two: string)
    requires one != two
    ensures var start, step := day as real * 86400.0, 28800.0;
            var rows := [Observation(start + step, one), Observation(start + step, two), Observation(start + 2.0 * step, one)];
            && IsComplete(rows, start, start + 86400.0, step)
            && TickIn(3 * day, start, start + 86400.0, step) && forall o :: o in rows ==> o.time != start
  {
    var start, step := day as real * 86400.0, 28800.0;
    var end := start + 86400.0;
    var ks := [3 * day + 1, 3 * day + 1, 3 * day + 2];
    var rows := [Observation(start + step, one), Observation(start + step, two), Observation(start + 2.0 * step, one)];
    assert (3 * day) as real * step == start;
    assert (3 * day + 1) as real == (3 * day) as real + 1.0 && (3 * day + 2) as real == (3 * day) as real + 2.0;
    assert start / step == (3 * day) as real && end / step == (3 * day + 3) as real;
    assert Expected(start, end, step) == 3;
    forall k | Missing(ks, k, start, end, step) ensures OnTheEdge(ks, k, start, end, step) {
      TicksAreAnInterval(k, start, end, step);
      assert ks[0] == 3 * day + 1 && ks[2] == 3 * day + 2;
      assert Occurs(ks, 3 * day + 1) && Occurs(ks, 3 * day + 2);
      assert k == 3 * day;
    }
    CompleteExactly(rows, ks, start, end, step);
  }

  /* ---- the order of observations at one instant does not matter ---- */

  /** Time order, ties by zone: one of the orders a time-ordered window may use. */
  predicate NotAfter(a: Observation, b: Observation) {
    a.time < b.time || (a.time == b.time && Text.AtMost(a.zone, b.zone))
  }

  predicate IsFirst(seen: set<Observation>, o: Observation) {
    o in seen && forall p :: p in seen ==> NotAfter(o, p)
  }

  lemma {:induction false} FirstExists(seen: set<Observation>)
    requires seen != {}
    ensures exists o :: IsFirst(seen, o)
  {
    var x :| x in seen;
    Text.AtMostIsTotal(x.zone, x.zone);
    if seen == {x} {
      assert IsFirst(seen, x);
    } else {
      var rest := seen - {x};
      FirstExists(rest);
      var o :| IsFirst(rest, o);
      Text.AtMostIsTotal(x.zone, o.zone);
      var first := if NotAfter(x, o) then x else o;
      forall p | p in seen ensures NotAfter(first, p) {
        if p in rest && x.time == o.time == p.time && first == x {
          Text.AtMostIsTransitive(x.zone, o.zone, p.zone);
        }
      }
      assert IsFirst(seen, first);
    }
  }

  lemma FirstIsUnique(seen: set<Observation>)
    ensures forall o, p :: IsFirst(seen, o) && IsFirst(seen, p) ==> o == p
  {
    forall o, p | IsFirst(seen, o) && IsFirst(seen, p) ensures o == p {
      assert NotAfter(o, p) && NotAfter(p, o);
      Text.AtMostIsAntisymmetric(o.zone, p.zone);
    }
  }

  /** A time-ordered listing of a set, each element once. */
  ghost predicate Lists(rows: seq<Observation>, seen: set<Observation>) {
    && Ordered(rows)
    && (forall o :: o in rows <==> o in seen)
    && (forall i, j :: 0 <= i < j < |rows| ==> rows[i] != rows[j])
  }

  function Arrange(seen: set<Observation>): (rows: seq<Observation>)
    ensures Lists(rows, seen) && |rows| == |seen|
  {
    if seen == {} then [] else
      FirstExists(seen);
      FirstIsUnique(seen);
      var first :| first in seen && IsFirst(seen, first);
      [first] + Arrange(seen - {first})
  }

  function FirstOf(rows: seq<Observation>, n: nat): set<Observation>
    requires n <= |rows|
  {
    set i | 0 <= i < n :: rows[i]
  }

  lemma {:induction false} FirstOfCounts(rows: seq<Observation>, n: nat)
    requires n <= |rows| && forall i, j :: 0 <= i < j < |rows| ==> rows[i] != rows[j]
    ensures |FirstOf(rows, n)| == n
  {
    if n > 0 {
      FirstOfCounts(rows, n - 1);
      assert FirstOf(rows, n) == FirstOf(rows, n - 1) + {rows[n - 1]};
    }
  }

  /** Two listings of one set show the same times: otherwise i + 1 early rows of one would be among i rows of the other. */
  lemma {:induction false} TimesAgree(a: seq<Observation>, b: seq<Observation>, seen: set<Observation>, i: nat)
    requires Lists(a, seen) && Lists(b, seen) && i < |a| && i < |b|
    ensures a[i].time >= b[i].time
  {
    if a[i].time < b[i].time {
      forall o | o in FirstOf(a, i + 1) ensures o in FirstOf(b, i) {
        assert o in a && o in b;
        var j :| 0 <= j < |b| && b[j] == o;
        assert o.time <= a[i].time;
      }
      FirstOfCounts(a, i + 1);
      FirstOfCounts(b, i);
      Sums.SubsetIsNoLarger(FirstOf(a, i + 1), FirstOf(b, i));
    }
  }

  lemma {:induction false} ListingsAreEquallyLong(a: seq<Observation>, seen: set<Observation>)
    requires Lists(a, seen)
    ensures |a| == |seen|
  {
    FirstOfCounts(a, |a|);
    assert FirstOf(a, |a|) == seen;
  }

  lemma {:induction false} SameTimesSameGap(a: seq<Observation>, b: seq<Observation>)
    requires |a| == |b| && forall i :: 0 <= i < |a| ==> a[i].time == b[i].time
    ensures MaxGap(a) == MaxGap(b)
  {
    if |a| >= 2 {
      SameTimesSameGap(a[..|a| - 1], b[..|b| - 1]);
    }
  }

  /** However a time-ordered window breaks ties, the verdict is that of one fixed listing: it depends on the set alone. */
  lemma {:induction false} TieOrderIsIrrelevant(rows: seq<Observation>, seen: set<Observation>, start: real, end: real, step: real)
    requires step > 0.0 && Lists(rows, seen)
    ensures IsComplete(rows, start, end, step) <==> IsComplete(Arrange(seen), start, end, step)
    ensures |rows| == |Arrange(seen)|
  {
    var fixed := Arrange(seen);
    ListingsAreEquallyLong(rows, seen);
    assert Lists(fixed, seen);
    hide *;
    forall i | 0 <= i < |rows| ensures rows[i].time == fixed[i].time {
      TimesAgree(rows, fixed, seen, i);
      TimesAgree(fixed, rows, seen, i);
    }
    SameTimesSameVerdict(rows, fixed, start, end, step);
  }

  lemma SameTimesSameVerdict(a: seq<Observation>, b: seq<Observation>, start: real, end: real, step: real)
    requires step > 0.0 && |a| == |b| && forall i :: 0 <= i < |a| ==> a[i].time == b[i].time
    ensures IsComplete(a, start, end, step) <==> IsComplete(b, start, end, step)
  {
    hide Expected, MaxGap;
    SameTimesSameGap(a, b);
  }

  /* ---- the verdicts of a day ---- */

  datatype Verdict = Verdict(complete: bool, observations: nat, conflict: bool)

  type Summary = map<string, set<Observation>>

  function VerdictOf(seen: set<Observation>, conflict: bool, start: real, end: real, step: real): Verdict
    requires step > 0.0
  {
    Verdict(IsComplete(Arrange(seen), start, end, step), |seen|, conflict)
  }

  function Verdicts(summary: Summary, known: set<string>, conflicted: set<string>, start: real, end: real, step: real): map<string, Verdict>
    requires step > 0.0
  {
    map v | v in summary.Keys + known ::
      if v in summary then VerdictOf(summary[v], v in conflicted, start, end, step) else Verdict(false, 0, v in conflicted)
  }

  /** Verdicts of the observed vehicles, then explicit unknowns for the known vehicles nobody heard from. */
  method FillCoverage(summary: Summary, known: set<string>, conflicted: set<string>, start: real, end: real, step: real)
    returns (coverage: map<string, Verdict>)
    requires step > 0.0
    ensures coverage == Verdicts(summary, known, conflicted, start, end, step)
  {
    hide VerdictOf;
    coverage := map[];
    var todo := summary.Keys;
    while todo != {}
      invariant todo <= summary.Keys && coverage.Keys == summary.Keys - todo
      invariant forall v :: v in coverage ==> coverage[v] == VerdictOf(summary[v], v in conflicted, start, end, step)
      decreases todo
    {
      var v :| v in todo;
      todo := todo - {v};
      coverage := coverage[v := VerdictOf(summary[v], v in conflicted, start, end, step)];
    }
    todo := known;
    while todo != {}
      invariant todo <= known && coverage.Keys == summary.Keys + (known - todo)
      invariant forall v :: v in summary ==> coverage[v] == VerdictOf(summary[v], v in conflicted, start, end, step)
      invariant forall v :: v in known && v !in todo && v !in summary ==> coverage[v] == Verdict(false, 0, v in conflicted)
      decreases todo
    {
      var v :| v in todo;
      todo := todo - {v};
      if v !in coverage {
        coverage := coverage[v := Verdict(false, 0, v in conflicted)];
      }
    }
  }
}
