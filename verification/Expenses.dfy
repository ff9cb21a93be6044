/** Validation of the daily expense file: every row is accepted or quarantined, duplicates as a whole. */
module Expenses {
  import opened Events

  /** A CSV row after parsing; amounts that do not parse to nonnegative cents are absent. */
  datatype ExpenseRow = ExpenseRow(
    columns: set<string>, vehicle: string, day: string, distance: Option<real>, flag: string,
    fuel: Option<nat>, maintenance: Option<nat>)

  datatype Cost = Cost(vehicle: string, fuel: nat, maintenance: nat)

  datatype Reason =
    | MissingColumns | UnknownVehicle | DuplicateVehicle | IncorrectDate | ImplausibleDistance | InvalidFlag | InvalidMoney

  datatype Quarantined = Quarantined(rowNumber: nat, reason: Reason)

  const FIELDS := {"vehicle_id", "fuel_cost", "maintenance_cost", "distance_covered", "service_flag", "report_date"}

  function CountOf(rows: seq<ExpenseRow>, vehicle: string): nat {
    if rows == [] then 0
    else CountOf(rows[..|rows| - 1], vehicle) + if rows[|rows| - 1].vehicle == vehicle then 1 else 0
  }

  /** The checks in order; the first that fails names the reason. */
  function Problem(row: ExpenseRow, copies: nat, day: string, known: set<string>): Option<Reason> {
    if !(FIELDS <= row.columns) then Some(MissingColumns)
    else if row.vehicle !in known then Some(UnknownVehicle)
    else if copies != 1 then Some(DuplicateVehicle)
    else if row.day != day then Some(IncorrectDate)
    else if row.distance.None? || !(0.0 <= row.distance.value <= 2000.0) then Some(ImplausibleDistance)
    else if row.flag !in {"true", "false", "0", "1"} then Some(InvalidFlag)
    else if row.fuel.None? || row.maintenance.None? then Some(InvalidMoney)
    else None
  }

  ghost predicate Accepts(rows: seq<ExpenseRow>, i: nat, day: string, known: set<string>)
    requires i < |rows|
  {
    Problem(rows[i], CountOf(rows, rows[i].vehicle), day, known).None?
  }

  /** The accepted costs of the first n rows, in file order. */
  ghost function ValidCosts(rows: seq<ExpenseRow>, n: nat, day: string, known: set<string>): (r: seq<Cost>)
    requires n <= |rows|
    ensures |r| <= n
  {
    if n == 0 then []
    else
      var most, row := ValidCosts(rows, n - 1, day, known), rows[n - 1];
      if Accepts(rows, n - 1, day, known) then most + [Cost(row.vehicle, row.fuel.value, row.maintenance.value)] else most
  }

  /** `Counter(row.get("vehicle_id") for row in rows)` */
  method CountVehicles(rows: seq<ExpenseRow>) returns (counts: map<string, nat>)
    ensures forall row :: row in rows ==> row.vehicle in counts && counts[row.vehicle] == CountOf(rows, row.vehicle)
  {
    counts := map[];
    for i := 0 to |rows|
      invariant forall v :: (if v in counts then counts[v] else 0) == CountOf(rows[..i], v)
      invariant forall j :: 0 <= j < i ==> rows[j].vehicle in counts
    {
      assert rows[..i + 1][..i] == rows[..i];
      var v := rows[i].vehicle;
      counts := counts[v := (if v in counts then counts[v] else 0) + 1];
    }
    assert rows[..|rows|] == rows;
  }

  /** What one row contributes to the accepted costs and to the quarantine. */
  ghost predicate CostOf(row: ExpenseRow, c: Cost) {
    row.fuel.Some? && row.maintenance.Some? && c == Cost(row.vehicle, row.fuel.value, row.maintenance.value)
  }

  method ValidateExpenses(rows: seq<ExpenseRow>, day: string, known: set<string>)
    returns (valid: seq<Cost>, rejected: seq<Quarantined>)
    ensures |valid| + |rejected| == |rows| && valid == ValidCosts(rows, |rows|, day, known)
    ensures forall c :: c in valid <==> exists i :: 0 <= i < |rows| && Accepts(rows, i, day, known) && CostOf(rows[i], c)
    ensures forall q :: q in rejected <==>
              exists i :: 0 <= i < |rows| && q.rowNumber == i + 2 && Problem(rows[i], CountOf(rows, rows[i].vehicle), day, known) == Some(q.reason)
    ensures DistinctVehicles(valid) && forall c :: c in valid ==> c.vehicle in known
  {
    hide Problem, CountOf;
    var counts := CountVehicles(rows);
    valid, rejected := [], [];
    for i := 0 to |rows|
      invariant |valid| + |rejected| == i && valid == ValidCosts(rows, i, day, known)
      invariant forall q :: q in rejected <==>
                  exists j :: 0 <= j < i && q.rowNumber == j + 2 && Problem(rows[j], CountOf(rows, rows[j].vehicle), day, known) == Some(q.reason)
    {
      assert rows[i] in rows;
      match Problem(rows[i], counts[rows[i].vehicle], day, known) {
        case None =>
          AcceptedRowIsWhole(rows[i], counts[rows[i].vehicle], day, known);
          valid := valid + [Cost(rows[i].vehicle, rows[i].fuel.value, rows[i].maintenance.value)];
        case Some(reason) =>
          rejected := rejected + [Quarantined(i + 2, reason)];
      }
    }
    ValidCostsAreDistinct(rows, |rows|, day, known);
  }

  lemma AcceptedRowIsWhole(row: ExpenseRow, copies: nat, day: string, known: set<string>)
    requires Problem(row, copies, day, known).None?
    ensures row.vehicle in known && row.fuel.Some? && row.maintenance.Some?
  {}

  predicate DistinctVehicles(costs: seq<Cost>) {
    forall i, j :: 0 <= i < j < |costs| ==> costs[i].vehicle != costs[j].vehicle
  }

  /** Two rows of one vehicle make its count at least two. */
  lemma {:induction false} TwoCopiesCount(rows: seq<ExpenseRow>, i: nat, j: nat)
    requires i < j < |rows| && rows[i].vehicle == rows[j].vehicle
    ensures CountOf(rows, rows[i].vehicle) >= 2
  {
    var most := rows[..|rows| - 1];
    if j < |rows| - 1 {
      TwoCopiesCount(most, i, j);
    } else {
      OneCopyCounts(most, i);
    }
  }

  lemma {:induction false} OneCopyCounts(rows: seq<ExpenseRow>, i: nat)
    requires i < |rows|
    ensures CountOf(rows, rows[i].vehicle) >= 1
  {
    if i < |rows| - 1 {
      OneCopyCounts(rows[..|rows| - 1], i);
    }
  }

  lemma {:induction false} NoSecondCopy(rows: seq<ExpenseRow>, i: nat, valid: seq<Cost>, day: string, known: set<string>)
    requires i < |rows| && Accepts(rows, i, day, known)
    requires forall c :: c in valid ==> exists j :: 0 <= j < i && Accepts(rows, j, day, known) && CostOf(rows[j], c)
    ensures forall c :: c in valid ==> c.vehicle != rows[i].vehicle
  {
    forall c | c in valid ensures c.vehicle != rows[i].vehicle {
      var j :| 0 <= j < i && Accepts(rows, j, day, known) && CostOf(rows[j], c);
      if rows[j].vehicle == rows[i].vehicle {
        TwoCopiesCount(rows, j, i);
      }
    }
  }

  /** Accepted costs come from accepted rows, one per vehicle. */
  lemma {:induction false} ValidCostsAreDistinct(rows: seq<ExpenseRow>, n: nat, day: string, known: set<string>)
    requires n <= |rows|
    ensures var valid := ValidCosts(rows, n, day, known);
            && DistinctVehicles(valid)
            && (forall c :: c in valid <==> exists j :: 0 <= j < n && Accepts(rows, j, day, known) && CostOf(rows[j], c))
            && forall c :: c in valid ==> c.vehicle in known
  {
    hide Problem, CountOf;
    if n > 0 {
      ValidCostsAreDistinct(rows, n - 1, day, known);
      if Accepts(rows, n - 1, day, known) {
        AcceptedRowIsWhole(rows[n - 1], CountOf(rows, rows[n - 1].vehicle), day, known);
        NoSecondCopy(rows, n - 1, ValidCosts(rows, n - 1, day, known), day, known);
      }
    }
  }

  /** A row that validation must accept: complete, of a known vehicle, the only row of that vehicle, of the report's date,
      with a plausible distance, an allowed flag and both amounts. */
  ghost predicate Flawless(rows: seq<ExpenseRow>, i: nat, day: string, known: set<string>)
    requires i < |rows|
  {
    var row := rows[i];
    && {"vehicle_id", "fuel_cost", "maintenance_cost", "distance_covered", "service_flag", "report_date"} <= row.columns
    && row.vehicle in known
    && (forall j :: 0 <= j < |rows| && rows[j].vehicle == row.vehicle ==> j == i)
    && row.day == day
    && row.distance.Some? && 0.0 <= row.distance.value <= 2000.0
    && (row.flag == "true" || row.flag == "false" || row.flag == "0" || row.flag == "1")
    && row.fuel.Some? && row.maintenance.Some?
  }

  /** A row is accepted exactly if it is flawless: otherwise it is quarantined. */
  lemma {:induction false} AcceptsExactly(rows: seq<ExpenseRow>, i: nat, day: string, known: set<string>)
    requires i < |rows|
    ensures Accepts(rows, i, day, known) <==> Flawless(rows, i, day, known)
  {
    OneCopyCounts(rows, i);
    if forall j :: 0 <= j < |rows| && rows[j].vehicle == rows[i].vehicle ==> j == i {
      OnlyCopyCounts(rows, i);
    } else {
      var j :| 0 <= j < |rows| && rows[j].vehicle == rows[i].vehicle && j != i;
      TwoCopiesCount(rows, if i < j then i else j, if i < j then j else i);
    }
  }

  lemma {:induction false} OnlyCopyCounts(rows: seq<ExpenseRow>, i: nat)
    requires i < |rows| && forall j :: 0 <= j < |rows| && rows[j].vehicle == rows[i].vehicle ==> j == i
    ensures CountOf(rows, rows[i].vehicle) == 1
  {
    var most := rows[..|rows| - 1];
    if i < |rows| - 1 {
      forall j | 0 <= j < |most| && most[j].vehicle == most[i].vehicle ensures j == i {
        assert rows[j].vehicle == rows[i].vehicle;
      }
      OnlyCopyCounts(most, i);
    } else {
      NoCopyCounts(most, rows[i].vehicle);
    }
  }

  lemma {:induction false} NoCopyCounts(rows: seq<ExpenseRow>, vehicle: string)
    requires forall j :: 0 <= j < |rows| ==> rows[j].vehicle != vehicle
    ensures CountOf(rows, vehicle) == 0
  {
    if rows != [] {
      NoCopyCounts(rows[..|rows| - 1], vehicle);
    }
  }

  ghost function FlawlessRows(rows: seq<ExpenseRow>, n: nat, day: string, known: set<string>): set<nat>
    requires n <= |rows|
  {
    set i: nat | i < n && Flawless(rows, i, day, known)
  }

  lemma OneMoreFlawless(rows: seq<ExpenseRow>, n: nat, day: string, known: set<string>)
    requires 0 < n <= |rows|
    ensures FlawlessRows(rows, n, day, known)
         == FlawlessRows(rows, n - 1, day, known) + if Flawless(rows, n - 1, day, known) then {n - 1} else {}
  {
    hide Flawless;
  }

  /** There are as many accepted costs as flawless rows. */
  lemma {:induction false} AcceptedCount(rows: seq<ExpenseRow>, n: nat, day: string, known: set<string>)
    requires n <= |rows|
    ensures |ValidCosts(rows, n, day, known)| == |FlawlessRows(rows, n, day, known)|
  {
    if n > 0 {
      AcceptedCount(rows, n - 1, day, known);
      AcceptsExactly(rows, n - 1, day, known);
      OneMoreFlawless(rows, n, day, known);
      assert n - 1 !in FlawlessRows(rows, n - 1, day, known);
      hide Flawless, Accepts, FlawlessRows;
    } else {
      assert FlawlessRows(rows, n, day, known) == {};
    }
  }

  /** Every copy of a duplicated vehicle is quarantined: no cost row is silently picked. */
  lemma DuplicatesAreQuarantined(rows: seq<ExpenseRow>, i: nat, j: nat, day: string, known: set<string>)
    requires i < j < |rows| && rows[i].vehicle == rows[j].vehicle
    ensures !Accepts(rows, i, day, known) && !Accepts(rows, j, day, known)
  {
    TwoCopiesCount(rows, i, j);
  }
}
