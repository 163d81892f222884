/**
 * On which day's row of services/admin-reporting/src/projections/projections.service.ts an event lands:
 * each figure day by day, and one row for each key and day.
 */
module ProjectionDays {
  import opened Wrappers
  import opened Sums
  import opened Projections

  const MS_PER_DAY := 24 * 60 * 60 * 1000

  /** The time lies in a UTC day, counted from the epoch. */
  predicate InDay(atMs: int, day: int) {
    day * MS_PER_DAY <= atMs < (day + 1) * MS_PER_DAY
  }

  lemma DayHoldsItsTime(atMs: int, day: int)
    ensures Day(atMs) == day <==> InDay(atMs, day)
  {
  }

  // ----------------------------------------------------------------- figures day by day

  function RidesOn(m: Measure, day: int): RidesRow -> int {
    (r: RidesRow) => if r.date == day then RidesFigure(m)(r) else 0
  }

  function DriversOn(m: Measure, day: int): DriverRow -> int {
    (r: DriverRow) => if r.date == day then DriverFigure(m)(r) else 0
  }

  function MixOn(m: Measure, day: int): MixRow -> int {
    (r: MixRow) => if r.date == day then MixFigure(m)(r) else 0
  }

  function ViolationsOn(m: Measure, day: int): ViolationRow -> int {
    (r: ViolationRow) => if r.date == day then ViolationFigure(m)(r) else 0
  }

  /** A figure as the read models report it for one day. */
  function TotalOn(t: Tables, m: Measure, day: int): int {
    match ProjectionOf(m)
    case RidesDaily => Sum(t.rides, RidesOn(m, day))
    case DriverPerformance => Sum(t.drivers, DriversOn(m, day))
    case PaymentMix => Sum(t.mix, MixOn(m, day))
    case ViolationSummary => Sum(t.violations, ViolationsOn(m, day))
  }

  function WorthOn(e: DomainEvent, m: Measure, date: int, day: int): int {
    if date == day then Worth(e, m) else 0
  }

  lemma RidesTotalsOn(rows: seq<RidesRow>, e: DomainEvent, date: int, m: Measure, day: int)
    requires RidesDaily in Targets(e) && ProjectionOf(m) == RidesDaily
    ensures Sum(UpdateRides(rows, e, date), RidesOn(m, day)) == Sum(rows, RidesOn(m, day)) + WorthOn(e, m, date, day)
  {
    var i := FindIndex(rows, RidesKey(date, RidesZone(e)));
    var r := Found(rows, i, RidesRow(date, RidesZone(e), 0, 0, 0, 0, 0.0));
    OnRidesFigure(r, e, m);
    SaveMovesSum(rows, i, OnRides(r, e), RidesOn(m, day));
  }

  lemma DriverTotalsOn(rows: seq<DriverRow>, e: DomainEvent, date: int, m: Measure, day: int)
    requires e.RideCompleted? && HasDriver(e.driverId) && ProjectionOf(m) == DriverPerformance
    ensures Sum(UpdateDrivers(rows, e.driverId.value, FareOf(e.farePaisa), date), DriversOn(m, day))
         == Sum(rows, DriversOn(m, day)) + WorthOn(e, m, date, day)
  {
    var i := FindIndex(rows, DriverKey(e.driverId.value, date));
    var r := Found(rows, i, DriverRow(e.driverId.value, date, 0, 0));
    var next := OnDriver(r, FareOf(e.farePaisa));
    assert r.driverId == e.driverId.value && r.date == date && (i == |rows| ==> r.rides == r.earningsPaisa == 0);
    assert DriverFigure(m)(next) == DriverFigure(m)(r) + Worth(e, m);
    SaveMovesSum(rows, i, next, DriversOn(m, day));
  }

  lemma MixTotalsOn(rows: seq<MixRow>, e: DomainEvent, date: int, m: Measure, day: int)
    requires e.PaymentCompleted? && ProjectionOf(m) == PaymentMix
    ensures Sum(UpdateMix(rows, e.payMethod, e.amountPaisa, date), MixOn(m, day)) == Sum(rows, MixOn(m, day)) + WorthOn(e, m, date, day)
  {
    var i := FindIndex(rows, MixKey(date, e.payMethod));
    var r := Found(rows, i, MixRow(date, e.payMethod, 0, 0));
    var next := OnMix(r, e.amountPaisa);
    assert r.payMethod == e.payMethod && r.date == date && (i == |rows| ==> r.count == r.amountPaisa == 0);
    assert MixFigure(m)(next) == MixFigure(m)(r) + Worth(e, m);
    SaveMovesSum(rows, i, next, MixOn(m, day));
  }

  lemma ViolationTotalsOn(rows: seq<ViolationRow>, e: DomainEvent, date: int, m: Measure, day: int)
    requires ViolationSummary in Targets(e) && ProjectionOf(m) == ViolationSummary
    ensures Sum(UpdateViolations(rows, e.violationZone, e, date), ViolationsOn(m, day))
         == Sum(rows, ViolationsOn(m, day)) + WorthOn(e, m, date, day)
  {
    var i := FindIndex(rows, ViolationKey(e.violationZone, date));
    var r := Found(rows, i, ViolationRow(e.violationZone, date, 0, 0, 0));
    OnViolationFigure(r, e, m);
    SaveMovesSum(rows, i, OnViolation(r, e), ViolationsOn(m, day));
  }

  lemma DedupAddsOnDay(t: Tables, eventId: string, e: DomainEvent, date: int, p: Projection, m: Measure, day: int)
    requires p in Targets(e)
    ensures TotalOn(WithDedup(t, eventId, e, date, p), m, day)
         == TotalOn(t, m, day) + if ProjectionOf(m) == p && (eventId, p) !in t.processed then WorthOn(e, m, date, day) else 0
  {
    if ProjectionOf(m) == p && (eventId, p) !in t.processed {
      match p
      case RidesDaily => RidesTotalsOn(t.rides, e, date, m, day);
      case DriverPerformance => DriverTotalsOn(t.drivers, e, date, m, day);
      case PaymentMix => MixTotalsOn(t.mix, e, date, m, day);
      case ViolationSummary => ViolationTotalsOn(t.violations, e, date, m, day);
    }
  }

  /** A delivery adds its event's worth to a figure of exactly the day its time lies in, on its first claim, and moves no other day's. */
  lemma HandleAddsOnItsDay(t: Tables, eventId: string, e: DomainEvent, atMs: int, commits: nat, m: Measure, day: int)
    ensures var u := Handle(t, eventId, e, Day(atMs), commits); var key := (eventId, ProjectionOf(m));
      TotalOn(u, m, day) == TotalOn(t, m, day)
        + if key in u.processed && key !in t.processed && InDay(atMs, day) then Worth(e, m) else 0
  {
    var ps, date := Targets(e), Day(atMs);
    DayHoldsItsTime(atMs, day);
    HandleAddsOnce(t, eventId, e, date, commits, m);
    if commits > 0 && ps != [] {
      DedupAddsOnDay(t, eventId, e, date, ps[0], m, day);
      if commits > 1 && |ps| > 1 {
        DedupAddsOnDay(WithDedup(t, eventId, e, date, ps[0]), eventId, e, date, ps[1], m, day);
      }
    }
  }

  /**
   * A completed ride without a zone counts for the nil zone, one without a fare for no revenue, and one
   * without a driver, or with an empty driver id, for no driver.
   */
  lemma AbsentFieldsCountAsNothing(zoneId: Option<string>, fare: Option<int>, driverId: Option<string>, key: string)
    ensures var z := if zoneId.Some? then zoneId.value else "00000000-0000-0000-0000-000000000000";
      var paisa, e := if fare.Some? then fare.value else 0, RideCompleted(driverId, zoneId, fare);
      var mine := driverId == Some(key) && key != "";
      && Worth(e, Completed(key)) == (if key == z then 1 else 0) && Worth(e, Revenue(key)) == (if key == z then paisa else 0)
      && Worth(e, Rides(key)) == (if mine then 1 else 0) && Worth(e, Earnings(key)) == (if mine then paisa else 0)
      && Worth(RideCancelled(zoneId), Cancelled(key)) == (if key == z then 1 else 0)
      && Worth(DispatchExhausted(zoneId), NoDriver(key)) == (if key == z then 1 else 0)
  {
  }

  // ------------------------------------------------------------- one row a key and day

  ghost predicate UniqueBy<R, K>(rows: seq<R>, key: R -> K) {
    forall i, j :: 0 <= i < j < |rows| ==> key(rows[i]) != key(rows[j])
  }

  function KeyOfRides(): RidesRow -> (int, string) {
    (r: RidesRow) => (r.date, r.zoneId)
  }

  function KeyOfDriver(): DriverRow -> (int, string) {
    (r: DriverRow) => (r.date, r.driverId)
  }

  function KeyOfMix(): MixRow -> (int, string) {
    (r: MixRow) => (r.date, r.payMethod)
  }

  function KeyOfViolations(): ViolationRow -> (int, string) {
    (r: ViolationRow) => (r.date, r.zoneId)
  }

  /** No table has two rows for one key and day. */
  ghost predicate OneRowADay(t: Tables) {
    UniqueBy(t.rides, KeyOfRides()) && UniqueBy(t.drivers, KeyOfDriver()) && UniqueBy(t.mix, KeyOfMix()) && UniqueBy(t.violations, KeyOfViolations())
  }

  lemma SaveKeepsUnique<R, K>(rows: seq<R>, i: nat, row: R, key: R -> K)
    requires i <= |rows| && UniqueBy(rows, key)
    requires i < |rows| ==> key(rows[i]) == key(row)
    requires forall j :: 0 <= j < i ==> key(rows[j]) != key(row)
    ensures UniqueBy(Save(rows, i, row), key)
  {
  }

  lemma ApplyKeepsOneRow(t: Tables, e: DomainEvent, date: int, p: Projection)
    requires OneRowADay(t)
    ensures OneRowADay(Apply(t, e, date, p))
  {
    match p
    case RidesDaily =>
      var i := FindIndex(t.rides, RidesKey(date, RidesZone(e)));
      var r := Found(t.rides, i, RidesRow(date, RidesZone(e), 0, 0, 0, 0, 0.0));
      assert forall j | 0 <= j < i :: !RidesKey(date, RidesZone(e))(t.rides[j]);
      SaveKeepsUnique(t.rides, i, OnRides(r, e), KeyOfRides());
    case DriverPerformance =>
      if e.RideCompleted? && HasDriver(e.driverId) {
        var i := FindIndex(t.drivers, DriverKey(e.driverId.value, date));
        var r := Found(t.drivers, i, DriverRow(e.driverId.value, date, 0, 0));
        assert forall j | 0 <= j < i :: !DriverKey(e.driverId.value, date)(t.drivers[j]);
        SaveKeepsUnique(t.drivers, i, OnDriver(r, FareOf(e.farePaisa)), KeyOfDriver());
      }
    case PaymentMix =>
      if e.PaymentCompleted? {
        var i := FindIndex(t.mix, MixKey(date, e.payMethod));
        var r := Found(t.mix, i, MixRow(date, e.payMethod, 0, 0));
        assert forall j | 0 <= j < i :: !MixKey(date, e.payMethod)(t.mix[j]);
        SaveKeepsUnique(t.mix, i, OnMix(r, e.amountPaisa), KeyOfMix());
      }
    case ViolationSummary =>
      if e.ViolationDetected? || e.ViolationClosed? || e.ViolationEscalated? {
        var i := FindIndex(t.violations, ViolationKey(e.violationZone, date));
        var r := Found(t.violations, i, ViolationRow(e.violationZone, date, 0, 0, 0));
        assert forall j | 0 <= j < i :: !ViolationKey(e.violationZone, date)(t.violations[j]);
        SaveKeepsUnique(t.violations, i, OnViolation(r, e), KeyOfViolations());
      }
  }

  /** However events are delivered, each read model keeps one row for each of its keys and days. */
  lemma HandleKeepsOneRowADay(t: Tables, eventId: string, e: DomainEvent, date: int, commits: nat)
    requires OneRowADay(t)
    ensures OneRowADay(Handle(t, eventId, e, date, commits))
  {
    var ps := Targets(e);
    if commits > 0 && ps != [] {
      ApplyKeepsOneRow(t.(processed := t.processed + {(eventId, ps[0])}), e, date, ps[0]);
      var t1 := WithDedup(t, eventId, e, date, ps[0]);
      if commits > 1 && |ps| > 1 {
        ApplyKeepsOneRow(t1.(processed := t1.processed + {(eventId, ps[1])}), e, date, ps[1]);
      }
    }
  }
}
