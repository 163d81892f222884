/**
 * services/tracking/src/trails/trail.service.ts: binding the GPS trail of a ride, and the
 * speed filter on its distance. The great-circle distance is a given non-negative metric.
 */
module Trail {
  import opened StableSort
  import Fare
  import Geo

  type Metric = (Geo.LatLon, Geo.LatLon) -> real

  datatype GpsLog = GpsLog(vehicleId: string, time: int, at: Geo.LatLon)

  datatype TrailSlice = TrailSlice(
    rideId: string, vehicleId: string, fromTs: int, toTs: int, distanceM: real, pointCount: nat)

  datatype OpenTrail = OpenTrail(vehicleId: string, startedAt: int)

  /** ride.started, and ride.ended or its fallback ride.completed; times are in milliseconds. */
  datatype RideEvent =
    | Started(rideId: string, vehicleId: string, occurredAt: int)
    | Finished(rideId: string, occurredAt: int)

  const MAX_KMH := 140.0

  function DtHours(a: GpsLog, b: GpsLog): real {
    (b.time - a.time) as real / 3600000.0
  }

  /** The distance one segment contributes: nothing when it implies more than 140 km/h. */
  function Leg(metric: Metric, a: GpsLog, b: GpsLog): real {
    var d := metric(a.at, b.at);
    var dtHours := DtHours(a, b);
    var impliedKmh := if dtHours > 0.0 then d / 1000.0 / dtHours else 0.0;
    if impliedKmh <= MAX_KMH then d else 0.0
  }

  function FilteredDistance(metric: Metric, points: seq<GpsLog>): real {
    if |points| < 2 then 0.0
    else
      var n := |points|;
      FilteredDistance(metric, points[..n - 1]) + Leg(metric, points[n - 2], points[n - 1])
  }

  /** The points of a vehicle's trail between two times, oldest first. */
  function Window(logs: seq<GpsLog>, vehicleId: string, fromTs: int, toTs: int): seq<GpsLog> {
    Sort(Filter(logs, Within(vehicleId, fromTs, toTs)), TimeOf())
  }

  function Within(vehicleId: string, fromTs: int, toTs: int): GpsLog -> bool {
    (l: GpsLog) => l.vehicleId == vehicleId && fromTs <= l.time <= toTs
  }

  function TimeOf(): GpsLog -> real {
    (l: GpsLog) => l.time as real
  }

  datatype State = State(openTrails: map<string, OpenTrail>, slices: seq<TrailSlice>)

  function HasSlice(slices: seq<TrailSlice>, rideId: string): bool {
    exists i :: 0 <= i < |slices| && slices[i].rideId == rideId
  }

  function SliceOf(metric: Metric, logs: seq<GpsLog>, rideId: string, trail: OpenTrail, endedAt: int): TrailSlice {
    var points := Window(logs, trail.vehicleId, trail.startedAt, endedAt);
    TrailSlice(rideId, trail.vehicleId, trail.startedAt, endedAt, FilteredDistance(metric, points), |points|)
  }

  function Step(metric: Metric, s: State, logs: seq<GpsLog>, e: RideEvent): State {
    match e
    case Started(rideId, vehicleId, at) =>
      if rideId != "" && vehicleId != "" then s.(openTrails := s.openTrails[rideId := OpenTrail(vehicleId, at)])
      else s
    case Finished(rideId, at) =>
      if rideId == "" || rideId !in s.openTrails then s
      else
        State(s.openTrails - {rideId},
              if HasSlice(s.slices, rideId) then s.slices
              else s.slices + [SliceOf(metric, logs, rideId, s.openTrails[rideId], at)])
  }

  class TrailService {
    const metric: Metric
    var logs: seq<GpsLog>
    var openTrails: map<string, OpenTrail>
    var slices: seq<TrailSlice>

    constructor (metric: Metric)
      ensures this.metric == metric && logs == [] && Snapshot() == State(map[], [])
    {
      this.metric := metric;
      logs, openTrails, slices := [], map[], [];
    }

    ghost function Snapshot(): State
      reads this
    {
      State(openTrails, slices)
    }

    method Handle(e: RideEvent)
      modifies this`openTrails, this`slices
      ensures Snapshot() == Step(metric, old(Snapshot()), logs, e)
    {
      match e
      case Started(rideId, vehicleId, at) =>
        if rideId != "" && vehicleId != "" {
          openTrails := openTrails[rideId := OpenTrail(vehicleId, at)];
        }
      case Finished(rideId, at) =>
        if rideId == "" || rideId !in openTrails {
          return;
        }
        Finalize(rideId, openTrails[rideId], at);
        openTrails := openTrails - {rideId};
    }

    method Finalize(rideId: string, trail: OpenTrail, endedAt: int)
      modifies this`slices
      ensures slices == if HasSlice(old(slices), rideId) then old(slices)
                        else old(slices) + [SliceOf(metric, logs, rideId, trail, endedAt)]
    {
      if HasSlice(slices, rideId) {
        return;
      }
      var points := Window(logs, trail.vehicleId, trail.startedAt, endedAt);
      var distanceM := FilterDistance(points);
      slices := slices + [TrailSlice(rideId, trail.vehicleId, trail.startedAt, endedAt, distanceM, |points|)];
    }

    method FilterDistance(points: seq<GpsLog>) returns (total: real)
      ensures total == FilteredDistance(metric, points)
    {
      total := 0.0;
      var i := 1;
      while i < |points|
        invariant 1 <= i && (i <= |points| || |points| == 0)
        invariant |points| > 0 ==> total == FilteredDistance(metric, points[..i])
        invariant |points| == 0 ==> total == 0.0
      {
        var a, b := points[i - 1], points[i];
        var d := metric(a.at, b.at);
        var dtHours := (b.time - a.time) as real / 3600000.0;
        var impliedKmh := if dtHours > 0.0 then d / 1000.0 / dtHours else 0.0;
        assert points[..i + 1][..i] == points[..i];
        if impliedKmh <= MAX_KMH {
          total := total + d;
        }
        i := i + 1;
      }
      assert points[..|points|] == points;
    }
  }

  // ------------------------------------------------------------- the speed limit

  /** What 140 km/h covers in a number of milliseconds, in metres. */
  function Reach(ms: int): real {
    MAX_KMH * 1000.0 * (ms as real / 3600000.0)
  }

  ghost predicate NonNegative(metric: Metric) {
    forall p, q :: metric(p, q) >= 0.0
  }

  ghost predicate TimesAscend(points: seq<GpsLog>) {
    forall i :: 0 < i < |points| ==> points[i - 1].time <= points[i].time
  }

  ghost predicate TimesAscendStrictly(points: seq<GpsLog>) {
    forall i :: 0 < i < |points| ==> points[i - 1].time < points[i].time
  }

  /** The part of the distance covered between points that share a timestamp. */
  function TimelessDistance(metric: Metric, points: seq<GpsLog>): real {
    if |points| < 2 then 0.0
    else
      var n := |points|;
      TimelessDistance(metric, points[..n - 1])
      + if points[n - 2].time == points[n - 1].time then metric(points[n - 2].at, points[n - 1].at) else 0.0
  }

  lemma LegIsCapped(metric: Metric, a: GpsLog, b: GpsLog)
    requires NonNegative(metric) && a.time <= b.time
    ensures a.time == b.time ==> Leg(metric, a, b) == metric(a.at, b.at)
    ensures a.time < b.time ==> Leg(metric, a, b) <= Reach(b.time - a.time)
  {
    if a.time < b.time {
      var d, h := metric(a.at, b.at), DtHours(a, b);
      assert h > 0.0;
      if d / 1000.0 / h <= MAX_KMH {
        QuotientBound(d / 1000.0, h, MAX_KMH);
      }
    }
  }

  lemma QuotientBound(x: real, h: real, bound: real)
    requires h > 0.0 && x / h <= bound
    ensures x <= bound * h
  {
    assert (bound - x / h) * h >= 0.0;
    assert (x / h) * h == x;
  }

  lemma ReachAdds(a: int, b: int)
    ensures Reach(a) + Reach(b) == Reach(a + b)
  {
  }

  // ------------------------------------------------------- exactly which legs count

  type LegTest = (GpsLog, GpsLog) -> bool

  /** The summed length of the legs between consecutive points that pass a test. */
  function LegsWhere(metric: Metric, points: seq<GpsLog>, keep: LegTest): real {
    if |points| < 2 then 0.0
    else
      var n := |points|;
      LegsWhere(metric, points[..n - 1], keep)
      + if keep(points[n - 2], points[n - 1]) then metric(points[n - 2].at, points[n - 1].at) else 0.0
  }

  function PathLength(metric: Metric, points: seq<GpsLog>): real {
    LegsWhere(metric, points, (a, b) => true)
  }

  /** In metres and milliseconds: 140000 metres an hour, that is every 3600000 ms, covers the leg. */
  predicate Plausible(metric: Metric, a: GpsLog, b: GpsLog) {
    3600000.0 * metric(a.at, b.at) <= 140000.0 * (b.time - a.time) as real
  }

  function KeptBy(metric: Metric): LegTest {
    (a: GpsLog, b: GpsLog) => a.time == b.time || Plausible(metric, a, b)
  }

  /** A leg that takes time counts whole if 140 km/h covers it, and else not at all. */
  lemma LegIsExact(metric: Metric, a: GpsLog, b: GpsLog)
    requires a.time < b.time
    ensures Leg(metric, a, b) == if Plausible(metric, a, b) then metric(a.at, b.at) else 0.0
    ensures Plausible(metric, a, b) <==> metric(a.at, b.at) <= Reach(b.time - a.time)
  {
    var d, h := metric(a.at, b.at), DtHours(a, b);
    QuotientComparison(d / 1000.0, h, 140.0);
  }

  lemma QuotientComparison(x: real, h: real, bound: real)
    requires h > 0.0
    ensures x / h <= bound <==> x <= bound * h
  {
    assert (x / h) * h == x;
    if x / h > bound {
      assert (x / h - bound) * h > 0.0;
    } else {
      assert (bound - x / h) * h >= 0.0;
    }
  }

  /** The distance of a trail in time order is the summed length of exactly its plausible legs and of those that take no time. */
  lemma {:induction false} FilterKeepsExactly(metric: Metric, points: seq<GpsLog>)
    requires TimesAscend(points)
    ensures FilteredDistance(metric, points) == LegsWhere(metric, points, KeptBy(metric))
  {
    if |points| > 1 {
      var a, b := points[|points| - 2], points[|points| - 1];
      assert points[|points| - 1 - 1].time <= b.time;
      FilterKeepsExactly(metric, points[..|points| - 1]);
      if a.time < b.time {
        LegIsExact(metric, a, b);
      }
    }
  }

  /** Consecutive points are within reach of each other, or share their time. */
  ghost predicate NoneDropped(metric: Metric, points: seq<GpsLog>) {
    forall i :: 0 < i < |points| ==> KeptBy(metric)(points[i - 1], points[i])
  }

  lemma {:induction false} KeptAreAtMostAll(metric: Metric, points: seq<GpsLog>, keep: LegTest)
    requires NonNegative(metric)
    ensures 0.0 <= LegsWhere(metric, points, keep) <= PathLength(metric, points)
  {
    if |points| > 1 {
      KeptAreAtMostAll(metric, points[..|points| - 1], keep);
    }
  }

  /** The filtered distance is the whole length of the path exactly if every leg is plausible or takes no time. */
  lemma {:induction false} WholePathExactlyWhenPlausible(metric: Metric, points: seq<GpsLog>)
    requires NonNegative(metric) && TimesAscend(points)
    ensures FilteredDistance(metric, points) == PathLength(metric, points) <==> NoneDropped(metric, points)
  {
    FilterKeepsExactly(metric, points);
    WholeExactlyWhenKept(metric, points);
  }

  lemma NoneDroppedSnoc(metric: Metric, points: seq<GpsLog>)
    requires |points| > 1
    ensures var n := |points|;
      NoneDropped(metric, points) <==> NoneDropped(metric, points[..n - 1]) && KeptBy(metric)(points[n - 2], points[n - 1])
  {
    var n := |points|;
    var init := points[..n - 1];
    if NoneDropped(metric, init) && KeptBy(metric)(points[n - 2], points[n - 1]) {
      forall i | 0 < i < n
        ensures KeptBy(metric)(points[i - 1], points[i])
      {
        assert i < n - 1 ==> init[i - 1] == points[i - 1] && init[i] == points[i];
      }
    }
    if NoneDropped(metric, points) {
      assert KeptBy(metric)(points[(n - 1) - 1], points[n - 1]);
      forall i | 0 < i < n - 1
        ensures KeptBy(metric)(init[i - 1], init[i])
      {
        assert init[i - 1] == points[i - 1] && init[i] == points[i];
      }
    }
  }

  lemma {:induction false} WholeExactlyWhenKept(metric: Metric, points: seq<GpsLog>)
    requires NonNegative(metric) && TimesAscend(points)
    ensures LegsWhere(metric, points, KeptBy(metric)) == PathLength(metric, points) <==> NoneDropped(metric, points)
  {
    if |points| > 1 {
      var n := |points|;
      var a, b := points[n - 2], points[n - 1];
      WholeExactlyWhenKept(metric, points[..n - 1]);
      KeptAreAtMostAll(metric, points[..n - 1], KeptBy(metric));
      NoneDroppedSnoc(metric, points);
      assert points[(n - 1) - 1].time <= b.time;
      if !KeptBy(metric)(a, b) {
        assert metric(a.at, b.at) > 0.0;
      }
    }
  }

  /** Of the filtered distance, all but the legs that take no time is within 140 km/h. */
  lemma {:induction false} FilterCapsDistance(metric: Metric, points: seq<GpsLog>)
    requires NonNegative(metric) && TimesAscend(points) && points != []
    ensures FilteredDistance(metric, points) - TimelessDistance(metric, points)
         <= Reach(points[|points| - 1].time - points[0].time)
  {
    var n := |points|;
    if n > 1 {
      var init, a, b := points[..n - 1], points[n - 2], points[n - 1];
      FilterCapsDistance(metric, init);
      LegIsCapped(metric, a, b);
      ReachAdds(a.time - points[0].time, b.time - a.time);
    }
  }

  lemma {:induction false} StrictTimesLeaveNothingOut(metric: Metric, points: seq<GpsLog>)
    requires TimesAscendStrictly(points)
    ensures TimelessDistance(metric, points) == 0.0
  {
    if |points| > 1 {
      assert points[|points| - 1 - 1].time < points[|points| - 1].time;
      StrictTimesLeaveNothingOut(metric, points[..|points| - 1]);
    }
  }

  /** With no two points at one time the trail is never faster than 140 km/h. */
  lemma {:induction false} StrictTrailIsCapped(metric: Metric, points: seq<GpsLog>)
    requires NonNegative(metric) && TimesAscendStrictly(points) && points != []
    ensures FilteredDistance(metric, points) <= Reach(points[|points| - 1].time - points[0].time)
  {
    StrictTimesLeaveNothingOut(metric, points);
    FilterCapsDistance(metric, points);
  }

  lemma {:induction false} TieKeepsWholeLeg(metric: Metric, points: seq<GpsLog>, i: nat)
    requires NonNegative(metric) && 0 < i < |points| && points[i - 1].time == points[i].time
    ensures FilteredDistance(metric, points) >= metric(points[i - 1].at, points[i].at)
  {
    var n := |points|;
    if i < n - 1 {
      TieKeepsWholeLeg(metric, points[..n - 1], i);
    } else {
      FilteredIsNonNegative(metric, points[..n - 1]);
    }
  }

  lemma {:induction false} FilteredIsNonNegative(metric: Metric, points: seq<GpsLog>)
    requires NonNegative(metric)
    ensures FilteredDistance(metric, points) >= 0.0
  {
    if |points| > 1 {
      FilteredIsNonNegative(metric, points[..|points| - 1]);
    }
  }

  function Elapsed(points: seq<GpsLog>): int
    requires points != []
  {
    points[|points| - 1].time - points[0].time
  }

  lemma {:induction false} TimesSpan(points: seq<GpsLog>)
    requires TimesAscend(points) && points != []
    ensures Elapsed(points) >= 0
  {
    if |points| > 1 {
      TimesSpan(points[..|points| - 1]);
    }
  }

  /** The 140 km/h cap holds for a trail, wherever its points lie, exactly when no two consecutive points share a time. */
  lemma {:induction false} CapHoldsExactlyForStrictTimes(points: seq<GpsLog>)
    requires points != [] && TimesAscend(points)
    ensures TimesAscendStrictly(points) <==>
      forall metric: Metric :: NonNegative(metric) ==> FilteredDistance(metric, points) <= Reach(Elapsed(points))
  {
    if TimesAscendStrictly(points) {
      forall metric: Metric | NonNegative(metric)
        ensures FilteredDistance(metric, points) <= Reach(Elapsed(points))
      {
        StrictTrailIsCapped(metric, points);
      }
    } else {
      var i :| 0 < i < |points| && points[i - 1].time >= points[i].time;
      var far := Reach(Elapsed(points)) + 1.0;
      var metric: Metric := (p: Geo.LatLon, q: Geo.LatLon) => far;
      TimesSpan(points);
      assert NonNegative(metric);
      TieKeepsWholeLeg(metric, points, i);
      assert FilteredDistance(metric, points) > Reach(Elapsed(points));
    }
  }

  /** Two points at one time pass the filter whole, however far apart they are. */
  lemma SharedTimestampEscapesFilter(metric: Metric, a: GpsLog, b: GpsLog)
    requires a.time == b.time
    ensures FilteredDistance(metric, [a, b]) == metric(a.at, b.at)
    ensures metric(a.at, b.at) > 0.0 ==> FilteredDistance(metric, [a, b]) > Reach(b.time - a.time)
  {
    assert [a, b][..1] == [a];
  }

  /** The fare of a capped trail is at most the fare of driving at the limit throughout. */
  lemma {:induction false} FareOfTrailIsCapped(metric: Metric, points: seq<GpsLog>, f: Fare.FareInput)
    requires NonNegative(metric) && TimesAscendStrictly(points) && points != []
    requires Fare.NonNegativeRates(f) && f.distanceM == FilteredDistance(metric, points)
    ensures Fare.ComputeFare(f).totalPaisa
         <= Fare.ComputeFare(f.(distanceM := Reach(points[|points| - 1].time - points[0].time))).totalPaisa
  {
    StrictTrailIsCapped(metric, points);
    Fare.FareIsMonotone(f, Reach(points[|points| - 1].time - points[0].time), f.durationS);
  }

  // ------------------------------------------------- from the log table to the slices

  /** No two log rows of one vehicle share a time. */
  ghost predicate DistinctTimes(logs: seq<GpsLog>) {
    forall i, j :: 0 <= i < j < |logs| && logs[i].vehicleId == logs[j].vehicleId ==> logs[i].time != logs[j].time
  }

  lemma {:induction false} FilterKeepsDistinct(logs: seq<GpsLog>, p: GpsLog -> bool)
    requires DistinctTimes(logs)
    ensures DistinctTimes(Filter(logs, p))
  {
    if logs != [] {
      FilterKeepsDistinct(logs[..|logs| - 1], p);
      var r := Filter(logs[..|logs| - 1], p);
      forall i | 0 <= i < |r| && r[i].vehicleId == logs[|logs| - 1].vehicleId
        ensures r[i].time != logs[|logs| - 1].time
      {
        assert r[i] in logs[..|logs| - 1];
      }
    }
  }

  lemma {:induction false} TwoMatchesCount<T>(xs: seq<T>, p: T -> bool, i: nat, j: nat)
    requires i < j < |xs| && p(xs[i]) && p(xs[j])
    ensures |Filter(xs, p)| >= 2
  {
    if j < |xs| - 1 {
      TwoMatchesCount(xs[..|xs| - 1], p, i, j);
    } else {
      assert xs[..|xs| - 1][i] in Filter(xs[..|xs| - 1], p);
    }
  }

  lemma TiesAreSingle(logs: seq<GpsLog>, vehicleId: string, k: real)
    requires DistinctTimes(logs) && forall i :: 0 <= i < |logs| ==> logs[i].vehicleId == vehicleId
    ensures |Filter(logs, KeyIs(TimeOf(), k))| <= 1
  {
    var r := Filter(logs, KeyIs(TimeOf(), k));
    if |r| > 1 {
      assert r[0] in logs && KeyIs(TimeOf(), k)(r[0]);
      assert r[1] in logs && KeyIs(TimeOf(), k)(r[1]);
      assert r[0].vehicleId == r[1].vehicleId && r[0].time == r[1].time;
      FilterKeepsDistinct(logs, KeyIs(TimeOf(), k));
    }
  }

  lemma SingleTiesAscend<T>(w: seq<T>, key: T -> real, i: nat)
    requires 0 < i < |w| && Sorted(w, key) && |Filter(w, KeyIs(key, key(w[i])))| <= 1
    ensures key(w[i - 1]) < key(w[i])
  {
    if key(w[i - 1]) == key(w[i]) {
      TwoMatchesCount(w, KeyIs(key, key(w[i])), i - 1, i);
    }
  }

  lemma SortedTimesDiffer(trail: seq<GpsLog>, vehicleId: string, i: nat)
    requires DistinctTimes(trail) && forall j :: 0 <= j < |trail| ==> trail[j].vehicleId == vehicleId
    requires 0 < i < |trail|
    ensures Sort(trail, TimeOf())[i - 1].time < Sort(trail, TimeOf())[i].time
  {
    var w := Sort(trail, TimeOf());
    var k := TimeOf()(w[i]);
    SortSorted(trail, TimeOf());
    SortIsStable(trail, TimeOf(), k);
    TiesAreSingle(trail, vehicleId, k);
    SingleTiesAscend(w, TimeOf(), i);
  }

  lemma SortedElements(trail: seq<GpsLog>, w: seq<GpsLog>, fromTs: int, toTs: int)
    requires forall i :: 0 <= i < |trail| ==> fromTs <= trail[i].time <= toTs
    requires multiset(w) == multiset(trail)
    ensures forall i :: 0 <= i < |w| ==> fromTs <= w[i].time <= toTs
  {
    forall i | 0 <= i < |w|
      ensures fromTs <= w[i].time <= toTs
    {
      assert w[i] in multiset(w);
      assert w[i] in trail;
    }
  }

  lemma WindowIsStrict(logs: seq<GpsLog>, vehicleId: string, fromTs: int, toTs: int)
    requires DistinctTimes(logs)
    ensures var w := Window(logs, vehicleId, fromTs, toTs);
      TimesAscendStrictly(w) && forall i :: 0 <= i < |w| ==> fromTs <= w[i].time <= toTs
  {
    var trail := Filter(logs, Within(vehicleId, fromTs, toTs));
    FilterKeepsDistinct(logs, Within(vehicleId, fromTs, toTs));
    assert forall i :: 0 <= i < |trail| ==> Within(vehicleId, fromTs, toTs)(trail[i]);
    var w := Sort(trail, TimeOf());
    SortedElements(trail, w, fromTs, toTs);
    forall i | 0 < i < |w|
      ensures w[i - 1].time < w[i].time
    {
      SortedTimesDiffer(trail, vehicleId, i);
    }
  }

  lemma WindowAscends(logs: seq<GpsLog>, vehicleId: string, fromTs: int, toTs: int)
    ensures var w := Window(logs, vehicleId, fromTs, toTs);
      TimesAscend(w) && forall i :: 0 <= i < |w| ==> fromTs <= w[i].time <= toTs
  {
    var trail := Filter(logs, Within(vehicleId, fromTs, toTs));
    assert forall i :: 0 <= i < |trail| ==> Within(vehicleId, fromTs, toTs)(trail[i]);
    var w := Sort(trail, TimeOf());
    SortedElements(trail, w, fromTs, toTs);
    SortSorted(trail, TimeOf());
    forall i | 0 < i < |w|
      ensures w[i - 1].time <= w[i].time
    {
      assert TimeOf()(w[i - 1]) <= TimeOf()(w[i]);
    }
  }

  lemma ReachIsMonotone(a: int, b: int)
    requires a <= b
    ensures Reach(a) <= Reach(b)
  {
  }

  /** What 140 km/h covers between a slice's ends, if they are in order. */
  function SliceReach(slice: TrailSlice): real {
    if slice.fromTs <= slice.toTs then Reach(slice.toTs - slice.fromTs) else 0.0
  }

  /** A slice is the filtered trail of its window in a log table, and all of it but the legs that take no time is within reach. */
  ghost predicate BoundTo(metric: Metric, slice: TrailSlice, logs: seq<GpsLog>) {
    var w := Window(logs, slice.vehicleId, slice.fromTs, slice.toTs);
    && slice.distanceM == FilteredDistance(metric, w) && slice.pointCount == |w|
    && slice.distanceM - TimelessDistance(metric, w) <= SliceReach(slice)
  }

  lemma SliceIsBound(metric: Metric, logs: seq<GpsLog>, rideId: string, trail: OpenTrail, endedAt: int)
    requires NonNegative(metric)
    ensures BoundTo(metric, SliceOf(metric, logs, rideId, trail, endedAt), logs)
  {
    var w := Window(logs, trail.vehicleId, trail.startedAt, endedAt);
    WindowAscends(logs, trail.vehicleId, trail.startedAt, endedAt);
    if w != [] {
      FilterCapsDistance(metric, w);
      ReachIsMonotone(w[|w| - 1].time - w[0].time, endedAt - trail.startedAt);
    }
  }

  ghost predicate OneSlicePerRide(slices: seq<TrailSlice>) {
    forall i, j :: 0 <= i < j < |slices| ==> slices[i].rideId != slices[j].rideId
  }

  /** One delivery, with the log table as it stood then. */
  datatype Delivery = Delivery(logs: seq<GpsLog>, event: RideEvent)

  function Run(metric: Metric, s: State, deliveries: seq<Delivery>): State {
    if deliveries == [] then s
    else
      var n := |deliveries|;
      Step(metric, Run(metric, s, deliveries[..n - 1]), deliveries[n - 1].logs, deliveries[n - 1].event)
  }

  /** Some delivery's log table is the one a slice was cut from. */
  ghost predicate CutFrom(metric: Metric, slice: TrailSlice, deliveries: seq<Delivery>) {
    exists n :: 0 <= n < |deliveries| && BoundTo(metric, slice, deliveries[n].logs)
  }

  /** A delivery adds nothing, or one slice to a ride that had none. */
  lemma StepAddsOneSlice(metric: Metric, s: State, logs: seq<GpsLog>, e: RideEvent)
    requires NonNegative(metric)
    ensures var t := Step(metric, s, logs, e);
      t.slices == s.slices
      || (|t.slices| == |s.slices| + 1 && t.slices == s.slices + [t.slices[|s.slices|]]
          && !HasSlice(s.slices, t.slices[|s.slices|].rideId) && BoundTo(metric, t.slices[|s.slices|], logs))
  {
    if e.Finished? && e.rideId != "" && e.rideId in s.openTrails && !HasSlice(s.slices, e.rideId) {
      var slice := SliceOf(metric, logs, e.rideId, s.openTrails[e.rideId], e.occurredAt);
      SliceIsBound(metric, logs, e.rideId, s.openTrails[e.rideId], e.occurredAt);
      assert Step(metric, s, logs, e).slices == s.slices + [slice];
    }
  }

  lemma SnocKeepsOneSlice(slices: seq<TrailSlice>, slice: TrailSlice)
    requires OneSlicePerRide(slices) && !HasSlice(slices, slice.rideId)
    ensures OneSlicePerRide(slices + [slice])
  {
  }

  lemma CutFromGrows(metric: Metric, slice: TrailSlice, deliveries: seq<Delivery>, d: Delivery)
    ensures CutFrom(metric, slice, deliveries) || BoundTo(metric, slice, d.logs) ==> CutFrom(metric, slice, deliveries + [d])
  {
    var all := deliveries + [d];
    if BoundTo(metric, slice, d.logs) {
      assert all[|deliveries|] == d;
    } else if CutFrom(metric, slice, deliveries) {
      var k :| 0 <= k < |deliveries| && BoundTo(metric, slice, deliveries[k].logs);
      assert all[k] == deliveries[k];
    }
  }

  /** Redelivered and reordered ride events never add a second slice to a ride, and every slice is bound to the logs it was cut from. */
  lemma {:induction false} RunKeepsSlices(metric: Metric, deliveries: seq<Delivery>)
    requires NonNegative(metric)
    ensures var s := Run(metric, State(map[], []), deliveries);
      OneSlicePerRide(s.slices) && forall i :: 0 <= i < |s.slices| ==> CutFrom(metric, s.slices[i], deliveries)
  {
    if deliveries != [] {
      var n := |deliveries|;
      var before := Run(metric, State(map[], []), deliveries[..n - 1]);
      var s := Run(metric, State(map[], []), deliveries);
      RunKeepsSlices(metric, deliveries[..n - 1]);
      StepAddsOneSlice(metric, before, deliveries[n - 1].logs, deliveries[n - 1].event);
      if s.slices != before.slices {
        SnocKeepsOneSlice(before.slices, s.slices[|before.slices|]);
      }
      assert deliveries == deliveries[..n - 1] + [deliveries[n - 1]];
      forall i | 0 <= i < |s.slices|
        ensures CutFrom(metric, s.slices[i], deliveries)
      {
        CutFromGrows(metric, s.slices[i], deliveries[..n - 1], deliveries[n - 1]);
        if i < |before.slices| {
          assert CutFrom(metric, before.slices[i], deliveries[..n - 1]);
        }
      }
    }
  }

  /** Where no vehicle has two fixes at one time, no slice is longer than 140 km/h allows. */
  lemma {:induction false} DistinctTimesCapSlices(metric: Metric, deliveries: seq<Delivery>, i: nat)
    requires NonNegative(metric) && forall k :: 0 <= k < |deliveries| ==> DistinctTimes(deliveries[k].logs)
    requires i < |Run(metric, State(map[], []), deliveries).slices|
    ensures var slice := Run(metric, State(map[], []), deliveries).slices[i]; slice.distanceM <= SliceReach(slice)
  {
    RunKeepsSlices(metric, deliveries);
    var slice := Run(metric, State(map[], []), deliveries).slices[i];
    assert CutFrom(metric, slice, deliveries);
    var n :| 0 <= n < |deliveries| && BoundTo(metric, slice, deliveries[n].logs);
    WindowIsStrict(deliveries[n].logs, slice.vehicleId, slice.fromTs, slice.toTs);
    StrictTimesLeaveNothingOut(metric, Window(deliveries[n].logs, slice.vehicleId, slice.fromTs, slice.toTs));
  }
}
