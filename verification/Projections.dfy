/**
 * services/admin-reporting/src/projections/projections.service.ts: daily read models updated
 * once for each event and projection, guarded by a row in processed_events.
 */
module Projections {
  import opened Wrappers
  import opened Sums

  datatype Projection = RidesDaily | DriverPerformance | PaymentMix | ViolationSummary

  datatype DomainEvent =
    | RideCompleted(driverId: Option<string>, zoneId: Option<string>, farePaisa: Option<int>)
    | RideCancelled(zoneId: Option<string>)
    | DispatchExhausted(zoneId: Option<string>)
    | PaymentCompleted(payMethod: string, amountPaisa: int)
    | ViolationDetected(violationZone: string)
    | ViolationClosed(violationZone: string)
    | ViolationEscalated(violationZone: string)
    | Untracked

  datatype RidesRow = RidesRow(
    date: int, zoneId: string, ridesCompleted: nat, ridesCancelled: nat, noDriverCount: nat,
    revenuePaisa: int, avgFarePaisa: real)

  datatype DriverRow = DriverRow(driverId: string, date: int, rides: nat, earningsPaisa: int)

  datatype MixRow = MixRow(date: int, payMethod: string, count: nat, amountPaisa: int)

  datatype ViolationRow = ViolationRow(zoneId: string, date: int, openedCount: nat, autoClosed: nat, escalated: nat)

  datatype Tables = Tables(
    rides: seq<RidesRow>, drivers: seq<DriverRow>, mix: seq<MixRow>, violations: seq<ViolationRow>,
    processed: set<(string, Projection)>)

  const NoTables := Tables([], [], [], [], {})

  const NIL_ZONE := "00000000-0000-0000-0000-000000000000"

  /** The UTC day of an epoch time in milliseconds. */
  function Day(atMs: int): int {
    atMs / 86400000
  }

  function NextAverage(oldAvg: real, oldCount: int, newValue: real): real {
    if oldCount <= 0 then newValue else (oldAvg * oldCount as real + newValue) / (oldCount + 1) as real
  }

  function ZoneOf(zoneId: Option<string>): string {
    if zoneId.Some? then zoneId.value else NIL_ZONE
  }

  function FareOf(farePaisa: Option<int>): int {
    if farePaisa.Some? then farePaisa.value else 0
  }

  /** A missing or empty driver id counts as no driver. */
  function HasDriver(driverId: Option<string>): bool {
    driverId.Some? && driverId.value != ""
  }

  /** The first row that satisfies the key test, or |rows|. */
  function FindIndex<R>(rows: seq<R>, isKey: R -> bool): (i: nat)
    ensures i <= |rows|
    ensures i < |rows| ==> isKey(rows[i])
    ensures forall j :: 0 <= j < i ==> !isKey(rows[j])
  {
    if rows == [] || isKey(rows[0]) then 0 else 1 + FindIndex(rows[1..], isKey)
  }

  /** Save a row: in place if it was found, else as a new one. */
  function Save<R>(rows: seq<R>, i: nat, row: R): seq<R>
    requires i <= |rows|
  {
    if i < |rows| then rows[i := row] else rows + [row]
  }

  function Found<R>(rows: seq<R>, i: nat, blank: R): R {
    if i < |rows| then rows[i] else blank
  }

  function RidesKey(date: int, zoneId: string): RidesRow -> bool {
    (r: RidesRow) => r.date == date && r.zoneId == zoneId
  }

  function DriverKey(driverId: string, date: int): DriverRow -> bool {
    (r: DriverRow) => r.driverId == driverId && r.date == date
  }

  function MixKey(date: int, payMethod: string): MixRow -> bool {
    (r: MixRow) => r.date == date && r.payMethod == payMethod
  }

  function ViolationKey(zoneId: string, date: int): ViolationRow -> bool {
    (r: ViolationRow) => r.zoneId == zoneId && r.date == date
  }

  /** What an event does to the row of its zone and day. */
  function OnRides(r: RidesRow, e: DomainEvent): RidesRow {
    match e
    case RideCompleted(_, _, fare) =>
      r.(ridesCompleted := r.ridesCompleted + 1,
         revenuePaisa := r.revenuePaisa + FareOf(fare),
         avgFarePaisa := NextAverage(r.avgFarePaisa, r.ridesCompleted, FareOf(fare) as real))
    case RideCancelled(_) => r.(ridesCancelled := r.ridesCancelled + 1)
    case DispatchExhausted(_) => r.(noDriverCount := r.noDriverCount + 1)
    case _ => r
  }

  function OnDriver(r: DriverRow, fare: int): DriverRow {
    r.(rides := r.rides + 1, earningsPaisa := r.earningsPaisa + fare)
  }

  function OnMix(r: MixRow, amount: int): MixRow {
    r.(count := r.count + 1, amountPaisa := r.amountPaisa + amount)
  }

  function OnViolation(r: ViolationRow, e: DomainEvent): ViolationRow {
    match e
    case ViolationDetected(_) => r.(openedCount := r.openedCount + 1)
    case ViolationClosed(_) => r.(autoClosed := r.autoClosed + 1)
    case ViolationEscalated(_) => r.(escalated := r.escalated + 1)
    case _ => r
  }

  /** The projections an event updates, in the order of their transactions. */
  function Targets(e: DomainEvent): seq<Projection> {
    match e
    case RideCompleted(driverId, _, _) => if HasDriver(driverId) then [RidesDaily, DriverPerformance] else [RidesDaily]
    case RideCancelled(_) => [RidesDaily]
    case DispatchExhausted(_) => [RidesDaily]
    case PaymentCompleted(_, _) => [PaymentMix]
    case ViolationDetected(_) => [ViolationSummary]
    case ViolationClosed(_) => [ViolationSummary]
    case ViolationEscalated(_) => [ViolationSummary]
    case Untracked => []
  }

  function RidesZone(e: DomainEvent): string {
    match e
    case RideCompleted(_, z, _) => ZoneOf(z)
    case RideCancelled(z) => ZoneOf(z)
    case DispatchExhausted(z) => ZoneOf(z)
    case _ => NIL_ZONE
  }

  function UpdateRides(rows: seq<RidesRow>, e: DomainEvent, date: int): seq<RidesRow> {
    var i := FindIndex(rows, RidesKey(date, RidesZone(e)));
    Save(rows, i, OnRides(Found(rows, i, RidesRow(date, RidesZone(e), 0, 0, 0, 0, 0.0)), e))
  }

  function UpdateDrivers(rows: seq<DriverRow>, driverId: string, fare: int, date: int): seq<DriverRow> {
    var i := FindIndex(rows, DriverKey(driverId, date));
    Save(rows, i, OnDriver(Found(rows, i, DriverRow(driverId, date, 0, 0)), fare))
  }

  function UpdateMix(rows: seq<MixRow>, payMethod: string, amount: int, date: int): seq<MixRow> {
    var i := FindIndex(rows, MixKey(date, payMethod));
    Save(rows, i, OnMix(Found(rows, i, MixRow(date, payMethod, 0, 0)), amount))
  }

  function UpdateViolations(rows: seq<ViolationRow>, zoneId: string, e: DomainEvent, date: int): seq<ViolationRow> {
    var i := FindIndex(rows, ViolationKey(zoneId, date));
    Save(rows, i, OnViolation(Found(rows, i, ViolationRow(zoneId, date, 0, 0, 0)), e))
  }

  /** The body of one projection's transaction. */
  function Apply(t: Tables, e: DomainEvent, date: int, p: Projection): Tables {
    match p
    case RidesDaily => t.(rides := UpdateRides(t.rides, e, date))
    case DriverPerformance =>
      if e.RideCompleted? && HasDriver(e.driverId) then
        t.(drivers := UpdateDrivers(t.drivers, e.driverId.value, FareOf(e.farePaisa), date))
      else t
    case PaymentMix =>
      if e.PaymentCompleted? then t.(mix := UpdateMix(t.mix, e.payMethod, e.amountPaisa, date)) else t
    case ViolationSummary =>
      if e.ViolationDetected? || e.ViolationClosed? || e.ViolationEscalated? then
        t.(violations := UpdateViolations(t.violations, e.violationZone, e, date))
      else t
  }

  /** One transaction: a duplicate (event, projection) key rolls it back whole. */
  function WithDedup(t: Tables, eventId: string, e: DomainEvent, date: int, p: Projection): Tables {
    if (eventId, p) in t.processed then t
    else Apply(t.(processed := t.processed + {(eventId, p)}), e, date, p)
  }

  /** A delivery whose handler got through only its first `commits` transactions. */
  function Handle(t: Tables, eventId: string, e: DomainEvent, date: int, commits: nat): Tables {
    var ps := Targets(e);
    if commits == 0 || ps == [] then t
    else
      var t1 := WithDedup(t, eventId, e, date, ps[0]);
      if commits == 1 || |ps| == 1 then t1 else WithDedup(t1, eventId, e, date, ps[1])
  }

  class ProjectionsService {
    var rides: seq<RidesRow>
    var drivers: seq<DriverRow>
    var mix: seq<MixRow>
    var violations: seq<ViolationRow>
    var processed: set<(string, Projection)>

    constructor ()
      ensures Snapshot() == NoTables
    {
      rides, drivers, mix, violations, processed := [], [], [], [], {};
    }

    ghost function Snapshot(): Tables
      reads this
    {
      Tables(rides, drivers, mix, violations, processed)
    }

    static method Find<R>(rows: seq<R>, isKey: R -> bool) returns (i: nat)
      ensures i == FindIndex(rows, isKey)
    {
      i := 0;
      while i < |rows| && !isKey(rows[i])
        invariant 0 <= i <= |rows| && FindIndex(rows, isKey) == i + FindIndex(rows[i..], isKey)
      {
        assert rows[i..][1..] == rows[i + 1..];
        i := i + 1;
      }
    }

    /** The insert into processed_events; false is the unique violation. */
    method Claim(eventId: string, p: Projection) returns (first: bool)
      modifies this`processed
      ensures first == ((eventId, p) !in old(processed))
      ensures processed == old(processed) + {(eventId, p)}
    {
      first := (eventId, p) !in processed;
      processed := processed + {(eventId, p)};
    }

    method OnRideCompleted(eventId: string, driverId: Option<string>, zoneId: Option<string>, farePaisa: Option<int>,
                           atMs: int, commits: nat) returns (done: bool)
      modifies this
      ensures Snapshot() == Handle(old(Snapshot()), eventId, RideCompleted(driverId, zoneId, farePaisa), Day(atMs), commits)
      ensures done == (commits >= |Targets(RideCompleted(driverId, zoneId, farePaisa))|)
    {
      var date, fare := Day(atMs), FareOf(farePaisa);
      if commits == 0 {
        return false;
      }
      var first := Claim(eventId, RidesDaily);
      if first {
        UpsertRides(RideCompleted(driverId, zoneId, farePaisa), date);
      }
      if HasDriver(driverId) {
        if commits == 1 {
          return false;
        }
        first := Claim(eventId, DriverPerformance);
        if first {
          UpsertDriver(driverId.value, fare, date);
        }
      }
      done := true;
    }

    method OnRideCancelledOrExhausted(eventId: string, e: DomainEvent, atMs: int, commits: nat) returns (done: bool)
      requires e.RideCancelled? || e.DispatchExhausted?
      modifies this
      ensures Snapshot() == Handle(old(Snapshot()), eventId, e, Day(atMs), commits)
      ensures done == (commits >= |Targets(e)|)
    {
      if commits == 0 {
        return false;
      }
      var first := Claim(eventId, RidesDaily);
      if first {
        UpsertRides(e, Day(atMs));
      }
      done := true;
    }

    method UpsertDriver(driverId: string, fare: int, date: int)
      modifies this`drivers
      ensures drivers == UpdateDrivers(old(drivers), driverId, fare, date)
    {
      var i := Find(drivers, DriverKey(driverId, date));
      if i == |drivers| {
        drivers := drivers + [DriverRow(driverId, date, 0, 0)];
      }
      var row := drivers[i];
      drivers := drivers[i := row.(rides := row.rides + 1, earningsPaisa := row.earningsPaisa + fare)];
    }

    method UpsertRides(e: DomainEvent, date: int)
      modifies this`rides
      ensures rides == UpdateRides(old(rides), e, date)
    {
      var zone := RidesZone(e);
      var i := Find(rides, RidesKey(date, zone));
      if i == |rides| {
        rides := rides + [RidesRow(date, zone, 0, 0, 0, 0, 0.0)];
      }
      var row := rides[i];
      match e {
        case RideCompleted(_, _, farePaisa) =>
          var fare := FareOf(farePaisa);
          row := row.(ridesCompleted := row.ridesCompleted + 1);
          row := row.(revenuePaisa := row.revenuePaisa + fare);
          row := row.(avgFarePaisa := NextAverage(row.avgFarePaisa, row.ridesCompleted - 1, fare as real));
        case RideCancelled(_) =>
          row := row.(ridesCancelled := row.ridesCancelled + 1);
        case DispatchExhausted(_) =>
          row := row.(noDriverCount := row.noDriverCount + 1);
        case _ =>
      }
      rides := rides[i := row];
    }

    method OnPaymentCompleted(eventId: string, payMethod: string, amountPaisa: int, atMs: int, commits: nat) returns (done: bool)
      modifies this
      ensures Snapshot() == Handle(old(Snapshot()), eventId, PaymentCompleted(payMethod, amountPaisa), Day(atMs), commits)
      ensures done == (commits >= 1)
    {
      if commits == 0 {
        return false;
      }
      var first := Claim(eventId, PaymentMix);
      if first {
        var date := Day(atMs);
        var i := Find(mix, MixKey(date, payMethod));
        if i == |mix| {
          mix := mix + [MixRow(date, payMethod, 0, 0)];
        }
        mix := mix[i := mix[i].(count := mix[i].count + 1, amountPaisa := mix[i].amountPaisa + amountPaisa)];
      }
      done := true;
    }

    method OnViolationEvent(eventId: string, e: DomainEvent, atMs: int, commits: nat) returns (done: bool)
      requires e.ViolationDetected? || e.ViolationClosed? || e.ViolationEscalated?
      modifies this
      ensures Snapshot() == Handle(old(Snapshot()), eventId, e, Day(atMs), commits)
      ensures done == (commits >= 1)
    {
      if commits == 0 {
        return false;
      }
      var first := Claim(eventId, ViolationSummary);
      if first {
        UpsertViolation(e, Day(atMs));
      }
      done := true;
    }

    method UpsertViolation(e: DomainEvent, date: int)
      requires e.ViolationDetected? || e.ViolationClosed? || e.ViolationEscalated?
      modifies this`violations
      ensures violations == UpdateViolations(old(violations), e.violationZone, e, date)
    {
      var i := Find(violations, ViolationKey(e.violationZone, date));
      if i == |violations| {
        violations := violations + [ViolationRow(e.violationZone, date, 0, 0, 0)];
      }
      var row := violations[i];
      if e.ViolationDetected? {
        row := row.(openedCount := row.openedCount + 1);
      } else if e.ViolationClosed? {
        row := row.(autoClosed := row.autoClosed + 1);
      } else {
        row := row.(escalated := row.escalated + 1);
      }
      violations := violations[i := row];
    }
  }

  // ------------------------------------------------------------------- measures

  /** The figures the read models keep, each summed over all days. */
  datatype Measure =
    | Completed(key: string) | Cancelled(key: string) | NoDriver(key: string) | Revenue(key: string)
    | Rides(key: string) | Earnings(key: string)
    | Payments(key: string) | PaidAmount(key: string)
    | Opened(key: string) | AutoClosed(key: string) | Escalated(key: string)

  function ProjectionOf(m: Measure): Projection {
    match m
    case Completed(_) => RidesDaily
    case Cancelled(_) => RidesDaily
    case NoDriver(_) => RidesDaily
    case Revenue(_) => RidesDaily
    case Rides(_) => DriverPerformance
    case Earnings(_) => DriverPerformance
    case Payments(_) => PaymentMix
    case PaidAmount(_) => PaymentMix
    case _ => ViolationSummary
  }

  function RidesFigure(m: Measure): RidesRow -> int {
    (r: RidesRow) =>
      if r.zoneId != m.key then 0
      else match m
        case Completed(_) => r.ridesCompleted
        case Cancelled(_) => r.ridesCancelled
        case NoDriver(_) => r.noDriverCount
        case Revenue(_) => r.revenuePaisa
        case _ => 0
  }

  function DriverFigure(m: Measure): DriverRow -> int {
    (r: DriverRow) =>
      if r.driverId != m.key then 0
      else match m
        case Rides(_) => r.rides
        case Earnings(_) => r.earningsPaisa
        case _ => 0
  }

  function MixFigure(m: Measure): MixRow -> int {
    (r: MixRow) =>
      if r.payMethod != m.key then 0
      else match m
        case Payments(_) => r.count
        case PaidAmount(_) => r.amountPaisa
        case _ => 0
  }

  function ViolationFigure(m: Measure): ViolationRow -> int {
    (r: ViolationRow) =>
      if r.zoneId != m.key then 0
      else match m
        case Opened(_) => r.openedCount
        case AutoClosed(_) => r.autoClosed
        case Escalated(_) => r.escalated
        case _ => 0
  }

  /** A figure as the read models report it. */
  function Total(t: Tables, m: Measure): int {
    match ProjectionOf(m)
    case RidesDaily => Sum(t.rides, RidesFigure(m))
    case DriverPerformance => Sum(t.drivers, DriverFigure(m))
    case PaymentMix => Sum(t.mix, MixFigure(m))
    case ViolationSummary => Sum(t.violations, ViolationFigure(m))
  }

  /** What one occurrence of an event is worth to a figure. */
  function Worth(e: DomainEvent, m: Measure): int {
    match e
    case RideCompleted(driverId, zoneId, fare) =>
      (match m
       case Completed(z) => if ZoneOf(zoneId) == z then 1 else 0
       case Revenue(z) => if ZoneOf(zoneId) == z then FareOf(fare) else 0
       case Rides(d) => if HasDriver(driverId) && driverId.value == d then 1 else 0
       case Earnings(d) => if HasDriver(driverId) && driverId.value == d then FareOf(fare) else 0
       case _ => 0)
    case RideCancelled(zoneId) => if m == Cancelled(ZoneOf(zoneId)) then 1 else 0
    case DispatchExhausted(zoneId) => if m == NoDriver(ZoneOf(zoneId)) then 1 else 0
    case PaymentCompleted(payMethod, amount) =>
      if m == Payments(payMethod) then 1 else if m == PaidAmount(payMethod) then amount else 0
    case ViolationDetected(z) => if m == Opened(z) then 1 else 0
    case ViolationClosed(z) => if m == AutoClosed(z) then 1 else 0
    case ViolationEscalated(z) => if m == Escalated(z) then 1 else 0
    case Untracked => 0
  }

  lemma SaveMovesSum<R>(rows: seq<R>, i: nat, row: R, f: R -> int)
    requires i <= |rows|
    ensures Sum(Save(rows, i, row), f) == Sum(rows, f) + f(row) - if i < |rows| then f(rows[i]) else 0
  {
    if i < |rows| {
      SumUpdate(rows, i, row, f);
    } else {
      SumSnoc(rows, row, f);
    }
  }

  lemma OnRidesFigure(r: RidesRow, e: DomainEvent, m: Measure)
    requires RidesDaily in Targets(e) && ProjectionOf(m) == RidesDaily && r.zoneId == RidesZone(e)
    ensures RidesFigure(m)(OnRides(r, e)) == RidesFigure(m)(r) + Worth(e, m)
  {
  }

  lemma RidesTotals(rows: seq<RidesRow>, e: DomainEvent, date: int, m: Measure)
    requires RidesDaily in Targets(e) && ProjectionOf(m) == RidesDaily
    ensures Sum(UpdateRides(rows, e, date), RidesFigure(m)) == Sum(rows, RidesFigure(m)) + Worth(e, m)
  {
    var i := FindIndex(rows, RidesKey(date, RidesZone(e)));
    var r := Found(rows, i, RidesRow(date, RidesZone(e), 0, 0, 0, 0, 0.0));
    OnRidesFigure(r, e, m);
    SaveMovesSum(rows, i, OnRides(r, e), RidesFigure(m));
  }

  lemma DriverTotals(rows: seq<DriverRow>, e: DomainEvent, date: int, m: Measure)
    requires e.RideCompleted? && HasDriver(e.driverId) && ProjectionOf(m) == DriverPerformance
    ensures Sum(UpdateDrivers(rows, e.driverId.value, FareOf(e.farePaisa), date), DriverFigure(m))
         == Sum(rows, DriverFigure(m)) + Worth(e, m)
  {
    var i := FindIndex(rows, DriverKey(e.driverId.value, date));
    SaveMovesSum(rows, i, OnDriver(Found(rows, i, DriverRow(e.driverId.value, date, 0, 0)), FareOf(e.farePaisa)), DriverFigure(m));
  }

  lemma MixTotals(rows: seq<MixRow>, e: DomainEvent, date: int, m: Measure)
    requires e.PaymentCompleted? && ProjectionOf(m) == PaymentMix
    ensures Sum(UpdateMix(rows, e.payMethod, e.amountPaisa, date), MixFigure(m)) == Sum(rows, MixFigure(m)) + Worth(e, m)
  {
    var i := FindIndex(rows, MixKey(date, e.payMethod));
    SaveMovesSum(rows, i, OnMix(Found(rows, i, MixRow(date, e.payMethod, 0, 0)), e.amountPaisa), MixFigure(m));
  }

  lemma OnViolationFigure(r: ViolationRow, e: DomainEvent, m: Measure)
    requires ViolationSummary in Targets(e) && ProjectionOf(m) == ViolationSummary && r.zoneId == e.violationZone
    ensures ViolationFigure(m)(OnViolation(r, e)) == ViolationFigure(m)(r) + Worth(e, m)
  {
  }

  lemma ViolationTotals(rows: seq<ViolationRow>, e: DomainEvent, date: int, m: Measure)
    requires ViolationSummary in Targets(e) && ProjectionOf(m) == ViolationSummary
    ensures Sum(UpdateViolations(rows, e.violationZone, e, date), ViolationFigure(m))
         == Sum(rows, ViolationFigure(m)) + Worth(e, m)
  {
    var i := FindIndex(rows, ViolationKey(e.violationZone, date));
    var r := Found(rows, i, ViolationRow(e.violationZone, date, 0, 0, 0));
    OnViolationFigure(r, e, m);
    SaveMovesSum(rows, i, OnViolation(r, e), ViolationFigure(m));
  }

  /** One transaction adds an event's worth once, and nothing if it was processed before. */
  lemma DedupAddsOnce(t: Tables, eventId: string, e: DomainEvent, date: int, p: Projection, m: Measure)
    requires p in Targets(e)
    ensures Total(WithDedup(t, eventId, e, date, p), m)
         == Total(t, m) + if ProjectionOf(m) == p && (eventId, p) !in t.processed then Worth(e, m) else 0
    ensures WithDedup(t, eventId, e, date, p).processed == t.processed + {(eventId, p)}
  {
    if ProjectionOf(m) == p && (eventId, p) !in t.processed {
      match p
      case RidesDaily => RidesTotals(t.rides, e, date, m);
      case DriverPerformance => DriverTotals(t.drivers, e, date, m);
      case PaymentMix => MixTotals(t.mix, e, date, m);
      case ViolationSummary => ViolationTotals(t.violations, e, date, m);
    }
  }

  lemma UntargetedIsWorthless(e: DomainEvent, m: Measure)
    ensures ProjectionOf(m) !in Targets(e) ==> Worth(e, m) == 0
  {
  }

  /** The keys a delivery that got through `commits` transactions leaves behind. */
  function Claims(eventId: string, e: DomainEvent, commits: nat): set<(string, Projection)> {
    var ps := Targets(e);
    if commits == 0 || ps == [] then {}
    else if commits == 1 || |ps| == 1 then {(eventId, ps[0])}
    else {(eventId, ps[0]), (eventId, ps[1])}
  }

  /** A delivery, whole or cut short, redelivered or not, adds to a figure only on its first claim. */
  lemma HandleAddsOnce(t: Tables, eventId: string, e: DomainEvent, date: int, commits: nat, m: Measure)
    ensures var u := Handle(t, eventId, e, date, commits); var key := (eventId, ProjectionOf(m));
      && u.processed == t.processed + Claims(eventId, e, commits)
      && Total(u, m) == Total(t, m) + if key in u.processed && key !in t.processed then Worth(e, m) else 0
  {
    var ps := Targets(e);
    if commits > 0 && ps != [] {
      DedupAddsOnce(t, eventId, e, date, ps[0], m);
      if commits > 1 && |ps| > 1 {
        DedupAddsOnce(WithDedup(t, eventId, e, date, ps[0]), eventId, e, date, ps[1], m);
      }
    }
  }

  /** A delivery claims only its own event's projections, and all of them once it gets through. */
  lemma HandleClaims(t: Tables, eventId: string, e: DomainEvent, date: int, commits: nat)
    ensures var u := Handle(t, eventId, e, date, commits);
      && t.processed <= u.processed
      && (forall key <- u.processed :: key in t.processed || (key.0 == eventId && key.1 in Targets(e)))
      && (commits >= |Targets(e)| ==> forall p <- Targets(e) :: (eventId, p) in u.processed)
  {
    HandleAddsOnce(t, eventId, e, date, commits, Completed(""));
  }

  // ----------------------------------------------------------- the running average

  ghost predicate AverageHolds(r: RidesRow) {
    r.avgFarePaisa * r.ridesCompleted as real == r.revenuePaisa as real
  }

  ghost predicate AveragesHold(rows: seq<RidesRow>) {
    forall i :: 0 <= i < |rows| ==> AverageHolds(rows[i])
  }

  ghost predicate KeysUnique(rows: seq<RidesRow>) {
    forall i, j :: 0 <= i < j < |rows| ==> rows[i].date != rows[j].date || rows[i].zoneId != rows[j].zoneId
  }

  /** The incremental mean is the mean: it keeps average times count equal to the sum. */
  lemma NextAverageIsMean(avg: real, n: nat, sum: real, x: real)
    requires avg * n as real == sum
    ensures NextAverage(avg, n, x) * (n + 1) as real == sum + x
  {
    if n > 0 {
      var d := (n + 1) as real;
      assert ((avg * n as real + x) / d) * d == avg * n as real + x;
    }
  }

  lemma OnRidesKeepsAverage(r: RidesRow, e: DomainEvent)
    requires AverageHolds(r)
    ensures AverageHolds(OnRides(r, e))
    ensures OnRides(r, e).date == r.date && OnRides(r, e).zoneId == r.zoneId
  {
    if e.RideCompleted? {
      NextAverageIsMean(r.avgFarePaisa, r.ridesCompleted, r.revenuePaisa as real, FareOf(e.farePaisa) as real);
    }
  }

  lemma SaveKeepsAverages(rows: seq<RidesRow>, i: nat, row: RidesRow)
    requires AveragesHold(rows) && KeysUnique(rows) && AverageHolds(row)
    requires i == FindIndex(rows, RidesKey(row.date, row.zoneId))
    ensures AveragesHold(Save(rows, i, row)) && KeysUnique(Save(rows, i, row))
  {
    assert forall j :: 0 <= j < i ==> !RidesKey(row.date, row.zoneId)(rows[j]);
  }

  lemma UpdateKeepsAverages(rows: seq<RidesRow>, e: DomainEvent, date: int)
    requires AveragesHold(rows) && KeysUnique(rows)
    ensures AveragesHold(UpdateRides(rows, e, date)) && KeysUnique(UpdateRides(rows, e, date))
  {
    var zone := RidesZone(e);
    var i := FindIndex(rows, RidesKey(date, zone));
    var r := Found(rows, i, RidesRow(date, zone, 0, 0, 0, 0, 0.0));
    assert AverageHolds(RidesRow(date, zone, 0, 0, 0, 0, 0.0));
    OnRidesKeepsAverage(r, e);
    SaveKeepsAverages(rows, i, OnRides(r, e));
  }

  lemma {:induction false} HandleKeepsAverages(t: Tables, eventId: string, e: DomainEvent, date: int, commits: nat)
    requires AveragesHold(t.rides) && KeysUnique(t.rides)
    ensures var u := Handle(t, eventId, e, date, commits); AveragesHold(u.rides) && KeysUnique(u.rides)
  {
    UpdateKeepsAverages(t.rides, e, date);
  }
}
