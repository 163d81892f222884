/**
 * Which slice each ride gets, read off the deliveries of services/tracking/src/trails/trail.service.ts:
 * who opened its trail, when it ended, and which fixes lie between.
 */
module TrailSlices {
  import opened StableSort
  import opened Trail

  // ----------------------------------------------------------------- the window's fixes

  lemma {:induction false} FilterCounts<T>(xs: seq<T>, p: T -> bool, x: T)
    ensures multiset(Filter(xs, p))[x] == if p(x) then multiset(xs)[x] else 0
  {
    if xs != [] {
      var init, last := xs[..|xs| - 1], xs[|xs| - 1];
      FilterCounts(init, p, x);
      assert xs == init + [last];
      FilterSnoc(init, last, p);
    }
  }

  /** A slice is cut from exactly the vehicle's fixes from its start to its end, both included, oldest first. */
  ghost predicate IsTrailOf(w: seq<GpsLog>, logs: seq<GpsLog>, vehicleId: string, fromTs: int, toTs: int) {
    && TimesAscend(w)
    && forall l: GpsLog :: multiset(w)[l] ==
         if l.vehicleId == vehicleId && fromTs <= l.time && l.time <= toTs then multiset(logs)[l] else 0
  }

  lemma WindowIsExact(logs: seq<GpsLog>, vehicleId: string, fromTs: int, toTs: int)
    ensures IsTrailOf(Window(logs, vehicleId, fromTs, toTs), logs, vehicleId, fromTs, toTs)
  {
    WindowAscends(logs, vehicleId, fromTs, toTs);
    var w := Window(logs, vehicleId, fromTs, toTs);
    forall l: GpsLog
      ensures multiset(w)[l] == if l.vehicleId == vehicleId && fromTs <= l.time && l.time <= toTs then multiset(logs)[l] else 0
    {
      FilterCounts(logs, Within(vehicleId, fromTs, toTs), l);
    }
  }

  // --------------------------------------------------------------- which trail is open

  predicate StartOf(d: Delivery, rideId: string) {
    && d.event.Started? && d.event.rideId == rideId && rideId != "" && d.event.vehicleId != ""
  }

  predicate FinishOf(d: Delivery, rideId: string) {
    d.event.Finished? && d.event.rideId == rideId && rideId != ""
  }

  /** Delivery k is the ride's latest start, and no finish of the ride has come since. */
  ghost predicate OpenedAt(deliveries: seq<Delivery>, rideId: string, k: nat) {
    && k < |deliveries| && StartOf(deliveries[k], rideId)
    && forall j :: k < j < |deliveries| ==> !StartOf(deliveries[j], rideId) && !FinishOf(deliveries[j], rideId)
  }

  function RunAll(metric: Metric, deliveries: seq<Delivery>): State {
    Run(metric, State(map[], []), deliveries)
  }

  lemma OpenedAtSnoc(deliveries: seq<Delivery>, d: Delivery, rideId: string, k: nat)
    ensures OpenedAt(deliveries + [d], rideId, k) <==>
      if StartOf(d, rideId) then k == |deliveries| else !FinishOf(d, rideId) && OpenedAt(deliveries, rideId, k)
  {
    var all := deliveries + [d];
    assert all[|deliveries|] == d;
    assert forall j | 0 <= j < |deliveries| :: all[j] == deliveries[j];
  }

  /** A trail is open exactly for a ride that was started and not finished since, as its latest start has it. */
  lemma {:induction false} OpenTrailsAreUnfinished(metric: Metric, deliveries: seq<Delivery>, rideId: string)
    ensures rideId in RunAll(metric, deliveries).openTrails <==> exists k: nat :: OpenedAt(deliveries, rideId, k)
    ensures forall k: nat :: OpenedAt(deliveries, rideId, k) ==>
      && rideId in RunAll(metric, deliveries).openTrails
      && RunAll(metric, deliveries).openTrails[rideId] == OpenTrail(deliveries[k].event.vehicleId, deliveries[k].event.occurredAt)
  {
    if deliveries != [] {
      var init, d := deliveries[..|deliveries| - 1], deliveries[|deliveries| - 1];
      OpenTrailsAreUnfinished(metric, init, rideId);
      assert deliveries == init + [d];
      forall k: nat
        ensures OpenedAt(deliveries, rideId, k) <==>
          if StartOf(d, rideId) then k == |init| else !FinishOf(d, rideId) && OpenedAt(init, rideId, k)
      {
        OpenedAtSnoc(init, d, rideId, k);
      }
      if StartOf(d, rideId) {
        assert OpenedAt(deliveries, rideId, |init|);
      } else if !FinishOf(d, rideId) && rideId in RunAll(metric, init).openTrails {
        var k: nat :| OpenedAt(init, rideId, k);
        assert OpenedAt(deliveries, rideId, k);
      }
    }
  }

  /** The slice of a ride that start opened and a finish at a time ends, over the fixes logged by then. */
  ghost predicate IsSliceOf(metric: Metric, slice: TrailSlice, start: RideEvent, endedAt: int, logs: seq<GpsLog>) {
    && start.Started? && slice.rideId == start.rideId && slice.vehicleId == start.vehicleId
    && slice.fromTs == start.occurredAt && slice.toTs == endedAt
    && exists w :: IsTrailOf(w, logs, start.vehicleId, start.occurredAt, endedAt)
         && slice.pointCount == |w| && slice.distanceM == LegsWhere(metric, w, KeptBy(metric))
  }

  /**
   * A finish of a ride that is open and has no slice adds exactly one: from the latest start to the finish,
   * over exactly that vehicle's fixes in between, as long as their plausible legs. Any other delivery adds none.
   */
  lemma {:induction false} FinishCutsSlice(metric: Metric, deliveries: seq<Delivery>, d: Delivery, k: nat)
    ensures var s, t := RunAll(metric, deliveries), RunAll(metric, deliveries + [d]);
      && (FinishOf(d, d.event.rideId) && OpenedAt(deliveries, d.event.rideId, k) && !HasSlice(s.slices, d.event.rideId) ==>
            && |t.slices| == |s.slices| + 1 && s.slices <= t.slices
            && IsSliceOf(metric, t.slices[|s.slices|], deliveries[k].event, d.event.occurredAt, d.logs))
    ensures var s, t := RunAll(metric, deliveries), RunAll(metric, deliveries + [d]);
      && (!FinishOf(d, d.event.rideId) ==> t.slices == s.slices)
      && (HasSlice(s.slices, d.event.rideId) ==> t.slices == s.slices)
      && ((forall j: nat :: !OpenedAt(deliveries, d.event.rideId, j)) ==> t.slices == s.slices)
  {
    var s, rideId := RunAll(metric, deliveries), d.event.rideId;
    assert (deliveries + [d])[..|deliveries|] == deliveries;
    OpenTrailsAreUnfinished(metric, deliveries, rideId);
    if FinishOf(d, rideId) && OpenedAt(deliveries, rideId, k) && !HasSlice(s.slices, rideId) {
      var start := deliveries[k].event;
      var w := Window(d.logs, start.vehicleId, start.occurredAt, d.event.occurredAt);
      WindowIsExact(d.logs, start.vehicleId, start.occurredAt, d.event.occurredAt);
      FilterKeepsExactly(metric, w);
      assert IsTrailOf(w, d.logs, start.vehicleId, start.occurredAt, d.event.occurredAt);
    }
  }
}
