/**
 * The vehicle document of the MongoDB backend: its enums, embedded lists,
 * and the virtuals and methods that read the service and insurance dates
 * and sum maintenance costs. `today` (new Date()) is a parameter, in
 * milliseconds since the epoch; money and mileage are JavaScript numbers.
 */
module VehicleModel {
  import opened Outcome
  import opened Arith
  import opened Calendar
  import Js

  datatype VehicleStatus = Active | InMaintenance | OutOfService
  datatype FuelType = Petrol | Diesel | Electric | Hybrid
  datatype MaintenanceType = Routine | Repair | Inspection | Tire | OtherMaintenance
  datatype DocumentType = Invoice | License | Insurance | Registration | MaintenanceDoc | Fine | OtherDocument

  const DefaultVehicleStatus: VehicleStatus := Active

  /** An embedded document record; only the fields the rules read are kept. */
  datatype Document = Document(id: Id, title: string, docType: DocumentType, expiryDate: Option<Date>, addedBy: Id)

  /**
   * An embedded incident. Its fields are kept as the plain object the
   * handlers spread and merge (`status`, `cost`, `description`, ...).
   */
  datatype Incident = Incident(id: Id, fields: Js.Object)

  datatype Maintenance = Maintenance(
    id: Id,
    maintenanceType: MaintenanceType,
    date: Date,
    mileage: real,
    description: string,
    cost: real,
    performedBy: Id)

  function DocumentKey(d: Document): Id { d.id }
  function IncidentKey(i: Incident): Id { i.id }
  function MaintenanceKey(m: Maintenance): Id { m.id }

  datatype Vehicle = Vehicle(
    registrationNumber: string,
    status: VehicleStatus,
    fuelType: FuelType,
    mileage: real,
    lastService: Date,
    nextServiceDue: Date,
    insuranceExpiry: Date,
    documents: seq<Document>,
    incidents: seq<Incident>,
    maintenanceHistory: seq<Maintenance>)

  /** The `daysUntilService` virtual: Math.ceil of the time to the next service, in days. */
  function DaysUntilService(v: Vehicle, today: int): (days: int)
    ensures var diff := Millis(v.nextServiceDue) - today;
      (days - 1) * DayMs < diff <= days * DayMs
  {
    CeilDiv(Millis(v.nextServiceDue) - today, DayMs)
  }

  datatype InsuranceState = Valid | Expired

  /** The `insuranceStatus` virtual. */
  function InsuranceStatus(v: Vehicle, today: int): (s: InsuranceState)
    ensures s == Valid <==> Millis(v.insuranceExpiry) > today
  {
    if Millis(v.insuranceExpiry) > today then Valid else Expired
  }

  /** A whole number of days `k` bounds ceil(diff / day) exactly when it bounds diff in days. */
  lemma CeilDaysAtMost(diff: int, k: int)
    ensures CeilDiv(diff, DayMs) <= k <==> diff <= k * DayMs
  {
    var c := CeilDiv(diff, DayMs);
    if c <= k {
      MulMonotone(c, k, DayMs);
    } else {
      MulMonotone(k, c - 1, DayMs);
    }
  }

  /** isServiceDue(): at most seven (rounded-up) days to the next service, i.e. due within a week. */
  function IsServiceDue(v: Vehicle, today: int): (due: bool)
    ensures due <==> Millis(v.nextServiceDue) - today <= 7 * DayMs
  {
    CeilDaysAtMost(Millis(v.nextServiceDue) - today, 7);
    DaysUntilService(v, today) <= 7
  }

  /** isInsuranceExpiringSoon(days = 30): the expiry is at most `days` (rounded-up) days away. */
  function IsInsuranceExpiringSoon(v: Vehicle, today: int, days: Option<int>): (soon: bool)
    ensures var d := if days.Some? then days.value else 30;
      soon <==> Millis(v.insuranceExpiry) - today <= d * DayMs
  {
    var d := if days.Some? then days.value else 30;
    CeilDaysAtMost(Millis(v.insuranceExpiry) - today, d);
    CeilDiv(Millis(v.insuranceExpiry) - today, DayMs) <= d
  }

  /** A record falls in the window when each bound that is given holds. */
  predicate InWindow(m: Maintenance, start: Option<Date>, end: Option<Date>) {
    (start.None? || Millis(m.date) >= Millis(start.value)) &&
    (end.None? || Millis(m.date) <= Millis(end.value))
  }

  /** getTotalMaintenanceCost(startDate, endDate): the reduce over the history, in order. */
  function TotalMaintenanceCost(history: seq<Maintenance>, start: Option<Date>, end: Option<Date>): real
    decreases |history|
  {
    if history == [] then 0.0
    else
      var last := history[|history| - 1];
      TotalMaintenanceCost(history[..|history| - 1], start, end) + (if InWindow(last, start, end) then last.cost else 0.0)
  }

  /** The plain sum of all costs. */
  function SumCosts(history: seq<Maintenance>): real
    decreases |history|
  {
    if history == [] then 0.0 else history[0].cost + SumCosts(history[1..])
  }

  /** The cost sum splits over a concatenation of histories. */
  lemma {:induction false} TotalMaintenanceCostAppend(a: seq<Maintenance>, b: seq<Maintenance>, start: Option<Date>, end: Option<Date>)
    ensures TotalMaintenanceCost(a + b, start, end) == TotalMaintenanceCost(a, start, end) + TotalMaintenanceCost(b, start, end)
    decreases |b|
  {
    if b == [] {
      assert a + b == a;
    } else {
      assert (a + b)[..|a + b| - 1] == a + b[..|b| - 1];
      TotalMaintenanceCostAppend(a, b[..|b| - 1], start, end);
    }
  }

  lemma {:induction false} SumCostsAppend(a: seq<Maintenance>, b: seq<Maintenance>)
    ensures SumCosts(a + b) == SumCosts(a) + SumCosts(b)
    decreases |a|
  {
    if a != [] {
      assert (a + b)[0] == a[0] && (a + b)[1..] == a[1..] + b;
      SumCostsAppend(a[1..], b);
      assert SumCosts(a + b) == a[0].cost + SumCosts(a[1..] + b);
    } else {
      assert a + b == b;
    }
  }

  /** Without bounds every record counts: the total is the sum of all costs. */
  lemma {:induction false} UnboundedTotalIsSum(history: seq<Maintenance>)
    ensures TotalMaintenanceCost(history, None, None) == SumCosts(history)
    decreases |history|
  {
    if history != [] {
      var init, last := history[..|history| - 1], history[|history| - 1];
      UnboundedTotalIsSum(init);
      SumCostsAppend(init, [last]);
      assert init + [last] == history;
      assert SumCosts([last]) == last.cost + SumCosts([]);
    }
  }

  /** With non-negative costs a window's total never exceeds the unbounded total. */
  lemma {:induction false} WindowTotalBounded(history: seq<Maintenance>, start: Option<Date>, end: Option<Date>)
    requires forall i :: 0 <= i < |history| ==> history[i].cost >= 0.0
    ensures 0.0 <= TotalMaintenanceCost(history, start, end) <= TotalMaintenanceCost(history, None, None)
    decreases |history|
  {
    if history != [] {
      WindowTotalBounded(history[..|history| - 1], start, end);
    }
  }
}
