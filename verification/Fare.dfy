/** services/fare/src/domain/fare-formula.ts over exact reals; Math.round is floor(x + 1/2). */
module Fare {
  import opened Wrappers

  datatype Rounding = Nearest10 | NoRounding

  datatype FareConfig = FareConfig(
    version: int, basePaisa: real, perKmPaisa: real, perMinutePaisa: real,
    minimumPaisa: real, rounding: Rounding, nightMultiplier: Option<real>)

  datatype ZoneOverride = ZoneOverride(
    perKmPaisa: Option<real>, perMinutePaisa: Option<real>, multiplier: Option<real>)

  datatype FareInput = FareInput(
    distanceM: real, durationS: real, config: FareConfig, zoneOverride: Option<ZoneOverride>, isNight: bool)

  datatype FareBreakdown = FareBreakdown(
    basePaisa: int, distanceComponentPaisa: int, timeComponentPaisa: int, adjustmentsPaisa: int,
    subtotalPaisa: int, roundingAdjustmentPaisa: int, totalPaisa: int, configVersion: int)

  function OrElse(o: Option<real>, default: real): real {
    if o.Some? then o.value else default
  }

  function Round(x: real): int {
    (x + 0.5).Floor
  }

  function Max(a: real, b: real): real {
    if a < b then b else a
  }

  function PerKm(f: FareInput): real {
    if f.zoneOverride.Some? then OrElse(f.zoneOverride.value.perKmPaisa, f.config.perKmPaisa) else f.config.perKmPaisa
  }

  function PerMinute(f: FareInput): real {
    if f.zoneOverride.Some? then OrElse(f.zoneOverride.value.perMinutePaisa, f.config.perMinutePaisa)
    else f.config.perMinutePaisa
  }

  function Multiplier(f: FareInput): real {
    (if f.zoneOverride.Some? then OrElse(f.zoneOverride.value.multiplier, 1.0) else 1.0)
    * (if f.isNight then OrElse(f.config.nightMultiplier, 1.0) else 1.0)
  }

  function DistanceComponent(f: FareInput): real {
    PerKm(f) * (f.distanceM / 1000.0) * Multiplier(f)
  }

  function TimeComponent(f: FareInput): real {
    PerMinute(f) * (f.durationS / 60.0) * Multiplier(f)
  }

  function Subtotal(f: FareInput): real {
    f.config.basePaisa + DistanceComponent(f) + TimeComponent(f) + 0.0
  }

  function FlooredAtMinimum(f: FareInput): real {
    Max(Subtotal(f), f.config.minimumPaisa)
  }

  function RoundFare(paisa: real, rule: Rounding): int {
    match rule
    case NoRounding => Round(paisa)
    case Nearest10 => Round(paisa / 1000.0) * 1000
  }

  function ComputeFare(f: FareInput): FareBreakdown {
    var total := RoundFare(FlooredAtMinimum(f), f.config.rounding);
    FareBreakdown(
      Round(f.config.basePaisa),
      Round(DistanceComponent(f)),
      Round(TimeComponent(f)),
      Round(0.0),
      Round(Subtotal(f)),
      Round(total as real - FlooredAtMinimum(f)),
      total,
      f.config.version)
  }

  // ------------------------------------------------------------------ rounding

  lemma RoundIsNear(x: real)
    ensures x - 0.5 < Round(x) as real <= x + 0.5
  {
  }

  lemma RoundIsMonotone(x: real, y: real)
    requires x <= y
    ensures Round(x) <= Round(y)
  {
    RoundIsNear(x);
    RoundIsNear(y);
  }

  /** What the passenger pays is near the floored fare, and whole where the rule asks for it. */
  lemma TotalIsNearFlooredFare(f: FareInput)
    ensures var total := ComputeFare(f).totalPaisa;
      && (f.config.rounding == Nearest10 ==>
            total % 1000 == 0
            && FlooredAtMinimum(f) - 500.0 < total as real <= FlooredAtMinimum(f) + 500.0)
      && (f.config.rounding == NoRounding ==>
            FlooredAtMinimum(f) - 0.5 < total as real <= FlooredAtMinimum(f) + 0.5)
      && total >= RoundFare(f.config.minimumPaisa, f.config.rounding)
  {
    RoundIsNear(FlooredAtMinimum(f));
    RoundIsNear(FlooredAtMinimum(f) / 1000.0);
    RoundFareIsMonotone(f.config.minimumPaisa, FlooredAtMinimum(f), f.config.rounding);
    if f.config.rounding == Nearest10 {
      var n := Round(FlooredAtMinimum(f) / 1000.0);
      assert (n * 1000) as real == n as real * 1000.0;
      assert FlooredAtMinimum(f) / 1000.0 * 1000.0 == FlooredAtMinimum(f);
    }
  }

  /** The rounded parts of the receipt add up to its rounded subtotal, give or take one paisa. */
  lemma ComponentsSumToSubtotal(f: FareInput)
    ensures var b := ComputeFare(f);
      -1 <= b.subtotalPaisa - (b.basePaisa + b.distanceComponentPaisa + b.timeComponentPaisa + b.adjustmentsPaisa) <= 1
  {
    RoundIsNear(f.config.basePaisa);
    RoundIsNear(DistanceComponent(f));
    RoundIsNear(TimeComponent(f));
    RoundIsNear(Subtotal(f));
    var b := ComputeFare(f);
    var gap := b.subtotalPaisa - (b.basePaisa + b.distanceComponentPaisa + b.timeComponentPaisa);
    assert -2.0 < gap as real < 2.0;
  }

  /**
   * Subtotal and rounding adjustment reach the total within one paisa, except for the
   * top-up to the minimum fare, which the receipt does not itemize.
   */
  lemma ReceiptMissesTheMinimumTopUp(f: FareInput)
    ensures var b := ComputeFare(f);
      var gap := b.totalPaisa - (b.subtotalPaisa + b.roundingAdjustmentPaisa);
      && (Subtotal(f) >= f.config.minimumPaisa ==> -1 <= gap <= 0)
      && FlooredAtMinimum(f) - Subtotal(f) - 1.0 <= gap as real < FlooredAtMinimum(f) - Subtotal(f) + 1.0
  {
    var b := ComputeFare(f);
    RoundIsNear(Subtotal(f));
    RoundIsNear(b.totalPaisa as real - FlooredAtMinimum(f));
    var gap := b.totalPaisa - (b.subtotalPaisa + b.roundingAdjustmentPaisa);
    assert gap as real == b.totalPaisa as real - b.subtotalPaisa as real - b.roundingAdjustmentPaisa as real;
  }

  lemma StandstillCostsTheBase(f: FareInput, km: real, min: real, m: real)
    requires f.distanceM == 0.0 && f.durationS == 0.0 && PerKm(f) == km && PerMinute(f) == min && Multiplier(f) == m
    ensures Subtotal(f) == f.config.basePaisa
  {
    ComponentsScale(f, km, min, m);
    assert f.distanceM / 1000.0 == 0.0 && f.durationS / 60.0 == 0.0;
    assert km * 0.0 * m == 0.0 && min * 0.0 * m == 0.0;
  }

  /** Standing still under a base of 50 and a minimum of 150 rupees: the receipt adds up to a third of its total. */
  lemma MinimumFareReceiptDoesNotAddUp(f: FareInput)
    requires f.distanceM == 0.0 && f.durationS == 0.0 && f.config.rounding == Nearest10
    requires f.config.basePaisa == 5000.0 && f.config.minimumPaisa == 15000.0
    ensures var b := ComputeFare(f); b.totalPaisa == 15000 && b.subtotalPaisa + b.roundingAdjustmentPaisa == 5000
  {
    StandstillCostsTheBase(f, PerKm(f), PerMinute(f), Multiplier(f));
    assert FlooredAtMinimum(f) == 15000.0;
    assert FlooredAtMinimum(f) / 1000.0 == 15.0;
  }

  // ---------------------------------------------------------------- monotonicity

  lemma RoundFareIsMonotone(x: real, y: real, rule: Rounding)
    requires x <= y
    ensures RoundFare(x, rule) <= RoundFare(y, rule)
  {
    RoundIsMonotone(x, y);
    RoundIsMonotone(x / 1000.0, y / 1000.0);
  }

  ghost predicate NonNegativeRates(f: FareInput) {
    PerKm(f) >= 0.0 && PerMinute(f) >= 0.0 && Multiplier(f) >= 0.0
  }

  lemma ScaleIsMonotone(rate: real, x: real, y: real, multiplier: real)
    requires rate >= 0.0 && multiplier >= 0.0 && x <= y
    ensures rate * x * multiplier <= rate * y * multiplier
  {
    assert rate * (y - x) >= 0.0;
    assert (rate * (y - x)) * multiplier >= 0.0;
    assert (rate * (y - x)) * multiplier == rate * y * multiplier - rate * x * multiplier;
  }

  lemma ComponentsScale(f: FareInput, km: real, min: real, m: real)
    requires PerKm(f) == km && PerMinute(f) == min && Multiplier(f) == m
    ensures DistanceComponent(f) == km * (f.distanceM / 1000.0) * m
    ensures TimeComponent(f) == min * (f.durationS / 60.0) * m
  {
  }

  /** A longer or slower trip never costs less. */
  lemma FareIsMonotone(f: FareInput, distanceM: real, durationS: real)
    requires NonNegativeRates(f) && f.distanceM <= distanceM && f.durationS <= durationS
    ensures ComputeFare(f).totalPaisa <= ComputeFare(f.(distanceM := distanceM, durationS := durationS)).totalPaisa
  {
    var g := f.(distanceM := distanceM, durationS := durationS);
    var km, min, m := PerKm(f), PerMinute(f), Multiplier(f);
    assert PerKm(g) == km && PerMinute(g) == min && Multiplier(g) == m;
    ComponentsScale(f, km, min, m);
    ComponentsScale(g, km, min, m);
    ScaleIsMonotone(km, f.distanceM / 1000.0, distanceM / 1000.0, m);
    ScaleIsMonotone(min, f.durationS / 60.0, durationS / 60.0, m);
    assert DistanceComponent(f) <= DistanceComponent(g);
    assert TimeComponent(f) <= TimeComponent(g);
    assert Subtotal(f) <= Subtotal(g);
    RoundFareIsMonotone(FlooredAtMinimum(f), FlooredAtMinimum(g), f.config.rounding);
  }

  // ------------------------------------------------------------- which rates apply

  /** What the trip costs on top of the base, before the minimum and before rounding. */
  function Metered(f: FareInput): real {
    Subtotal(f) - f.config.basePaisa
  }

  /** By day and without a zone override a kilometre costs the rate of a kilometre, and a minute that of a minute. */
  lemma PlainTripCostsTheRates(f: FareInput)
    requires !f.isNight && f.zoneOverride.None?
    ensures Metered(f) == f.config.perKmPaisa * (f.distanceM / 1000.0) + f.config.perMinutePaisa * (f.durationS / 60.0)
  {
    ComponentsScale(f, f.config.perKmPaisa, f.config.perMinutePaisa, 1.0);
  }

  lemma MeteredIs(f: FareInput, m: real)
    requires Multiplier(f) == m
    ensures Metered(f) == (PerKm(f) * (f.distanceM / 1000.0) + PerMinute(f) * (f.durationS / 60.0)) * m
  {
    ComponentsScale(f, PerKm(f), PerMinute(f), m);
    var x, y := PerKm(f) * (f.distanceM / 1000.0), PerMinute(f) * (f.durationS / 60.0);
    assert (x + y) * m == x * m + y * m;
  }

  lemma Reassociates(trip: real, zone: real, night: real)
    ensures trip * (zone * night) == trip * (zone * 1.0) * night
    ensures trip * (zone * night) == trip * (1.0 * night) * zone
  {
  }

  /** The night multiplier scales the metered part exactly of a fare at night; without one, night costs what day does. */
  lemma NightScalesTheMeter(f: FareInput)
    ensures Metered(f) == Metered(f.(isNight := false)) *
      if f.isNight && f.config.nightMultiplier.Some? then f.config.nightMultiplier.value else 1.0
  {
    var g := f.(isNight := false);
    var zone, night := Multiplier(g), if f.isNight && f.config.nightMultiplier.Some? then f.config.nightMultiplier.value else 1.0;
    MeteredIs(g, zone);
    MeteredIs(f, zone * night);
    Reassociates(PerKm(f) * (f.distanceM / 1000.0) + PerMinute(f) * (f.durationS / 60.0), zone, night);
  }

  /** A zone's multiplier scales the metered part, by night as by day; a zone without one leaves it. */
  lemma ZoneScalesTheMeter(f: FareInput)
    requires f.zoneOverride.Some?
    ensures Metered(f) == Metered(f.(zoneOverride := Some(f.zoneOverride.value.(multiplier := None)))) *
      if f.zoneOverride.value.multiplier.Some? then f.zoneOverride.value.multiplier.value else 1.0
  {
    var g := f.(zoneOverride := Some(f.zoneOverride.value.(multiplier := None)));
    var night, zone := Multiplier(g), OrElse(f.zoneOverride.value.multiplier, 1.0);
    MeteredIs(g, night);
    MeteredIs(f, zone * night);
    Reassociates(PerKm(f) * (f.distanceM / 1000.0) + PerMinute(f) * (f.durationS / 60.0), zone, night);
  }

  /** A zone's rates take the place of the configured ones, each where the zone has it, and it changes nothing else. */
  lemma ZoneRatesReplaceConfigured(f: FareInput)
    requires f.zoneOverride.Some? && f.zoneOverride.value.multiplier.None?
    ensures var z, c := f.zoneOverride.value, f.config;
      Metered(f) == Metered(f.(zoneOverride := None, config := c.(
        perKmPaisa := if z.perKmPaisa.Some? then z.perKmPaisa.value else c.perKmPaisa,
        perMinutePaisa := if z.perMinutePaisa.Some? then z.perMinutePaisa.value else c.perMinutePaisa)))
  {
  }

  lemma DistanceItemIgnoresDuration(f: FareInput, durationS: real)
    ensures DistanceComponent(f) == DistanceComponent(f.(durationS := durationS))
  {
    ComponentsScale(f, PerKm(f), PerMinute(f), Multiplier(f));
    ComponentsScale(f.(durationS := durationS), PerKm(f), PerMinute(f), Multiplier(f));
  }

  lemma TimeItemIgnoresDistance(f: FareInput, distanceM: real)
    ensures TimeComponent(f) == TimeComponent(f.(distanceM := distanceM))
  {
    ComponentsScale(f, PerKm(f), PerMinute(f), Multiplier(f));
    ComponentsScale(f.(distanceM := distanceM), PerKm(f), PerMinute(f), Multiplier(f));
  }

  /** On the receipt the distance item does not depend on the duration, the time item not on the distance, and the base on neither. */
  lemma ItemsFollowTheirMeters(f: FareInput, distanceM: real, durationS: real)
    ensures ComputeFare(f).distanceComponentPaisa == ComputeFare(f.(durationS := durationS)).distanceComponentPaisa
    ensures ComputeFare(f).timeComponentPaisa == ComputeFare(f.(distanceM := distanceM)).timeComponentPaisa
    ensures ComputeFare(f).basePaisa == ComputeFare(f.(distanceM := distanceM, durationS := durationS)).basePaisa
  {
    DistanceItemIgnoresDuration(f, durationS);
    TimeItemIgnoresDistance(f, distanceM);
  }
}
