/**
 * What the detector of services/geofence/src/violations does, read off the calls it received: which
 * positions are authorized, which stretches are detected, and what each call does to each row.
 */
module ViolationHistory {
  import opened Wrappers
  import opened ViolationDetector

  // -------------------------------------------- what authorizes a ping, read off the calls

  predicate EndsRideOf(c: Call, vehicleId: string) {
    c.RideEndedCall? && c.vehicleId == vehicleId
  }

  /** Call i is the latest that ended a ride of the vehicle. */
  ghost predicate LatestEnd(calls: seq<Call>, vehicleId: string, i: nat) {
    && i < |calls| && EndsRideOf(calls[i], vehicleId)
    && forall j :: i < j < |calls| ==> !EndsRideOf(calls[j], vehicleId)
  }

  /** Call i put the vehicle on a ride that no later call ended. */
  ghost predicate StillRiding(calls: seq<Call>, vehicleId: string, i: nat) {
    && i < |calls| && calls[i] == RideActiveCall(vehicleId)
    && forall j :: i < j < |calls| ==> !EndsRideOf(calls[j], vehicleId)
  }

  ghost predicate OnRide(calls: seq<Call>, vehicleId: string) {
    vehicleId != "" && exists i: nat :: StillRiding(calls, vehicleId, i)
  }

  /** The vehicle's latest ride ended at a non-zero time at most a return window ago. */
  ghost predicate Returning(cfg: Config, calls: seq<Call>, vehicleId: string, now: int) {
    && vehicleId != ""
    && exists i: nat :: LatestEnd(calls, vehicleId, i) && calls[i].at != 0 && now - calls[i].at <= cfg.returnWindowMs
  }

  ghost predicate Covered(cfg: Config, calls: seq<Call>, vehicleId: string, now: int, hasPass: bool) {
    OnRide(calls, vehicleId) || Returning(cfg, calls, vehicleId, now) || hasPass
  }

  lemma OnRideSnoc(calls: seq<Call>, c: Call, vehicleId: string)
    ensures OnRide(calls + [c], vehicleId) <==>
      vehicleId != "" && (c == RideActiveCall(vehicleId) || (OnRide(calls, vehicleId) && !EndsRideOf(c, vehicleId)))
  {
    var all := calls + [c];
    if OnRide(all, vehicleId) {
      var i: nat :| StillRiding(all, vehicleId, i);
      if i < |calls| {
        assert !EndsRideOf(all[|calls|], vehicleId);
        assert forall j | i < j < |calls| :: all[j] == calls[j];
        assert StillRiding(calls, vehicleId, i);
      }
    }
    if vehicleId != "" && c == RideActiveCall(vehicleId) {
      assert StillRiding(all, vehicleId, |calls|);
    }
    if OnRide(calls, vehicleId) && !EndsRideOf(c, vehicleId) {
      var i: nat :| StillRiding(calls, vehicleId, i);
      assert StillRiding(all, vehicleId, i);
    }
  }

  lemma LatestEndSnoc(calls: seq<Call>, c: Call, vehicleId: string, i: nat)
    ensures LatestEnd(calls + [c], vehicleId, i) <==>
      if EndsRideOf(c, vehicleId) then i == |calls| else LatestEnd(calls, vehicleId, i)
  {
    var all := calls + [c];
    assert all[|calls|] == c;
    assert forall j | 0 <= j < |calls| :: all[j] == calls[j];
  }

  /** Who is on a ride and when each vehicle's latest ride ended, read off the calls. */
  lemma {:induction false} AuthIsRideHistory(cfg: Config, calls: seq<Call>, vehicleId: string)
    ensures vehicleId in Run(cfg, calls).auth.onActiveRide <==> OnRide(calls, vehicleId)
    ensures vehicleId != "" ==> forall i: nat :: LatestEnd(calls, vehicleId, i) ==>
      vehicleId in Run(cfg, calls).auth.lastRideEndedAt && Run(cfg, calls).auth.lastRideEndedAt[vehicleId] == calls[i].at
    ensures vehicleId in Run(cfg, calls).auth.lastRideEndedAt ==> vehicleId != "" && exists i: nat :: LatestEnd(calls, vehicleId, i)
  {
    if calls != [] {
      var init, c := calls[..|calls| - 1], calls[|calls| - 1];
      AuthIsRideHistory(cfg, init, vehicleId);
      assert calls == init + [c];
      OnRideSnoc(init, c, vehicleId);
      forall i: nat
        ensures LatestEnd(calls, vehicleId, i) <==> if EndsRideOf(c, vehicleId) then i == |init| else LatestEnd(init, vehicleId, i)
      {
        LatestEndSnoc(init, c, vehicleId, i);
      }
      if vehicleId in Run(cfg, calls).auth.lastRideEndedAt {
        if EndsRideOf(c, vehicleId) {
          assert LatestEnd(calls, vehicleId, |init|);
        } else {
          var i: nat :| LatestEnd(init, vehicleId, i);
          assert LatestEnd(calls, vehicleId, i);
        }
      }
    }
  }

  /**
   * A position is authorized exactly if the vehicle was put on a ride that has not ended, or its latest
   * ride ended within the return window, or a pass covers it.
   */
  lemma AuthorizedExactlyByHistory(cfg: Config, calls: seq<Call>, vehicleId: string, now: int, hasPass: bool)
    ensures IsAuthorized(cfg, Run(cfg, calls).auth, vehicleId, now, hasPass) <==> Covered(cfg, calls, vehicleId, now, hasPass)
  {
    AuthIsRideHistory(cfg, calls, vehicleId);
  }

  predicate IsProcessed(c: Call, vehicleId: string) {
    c.LocationCall? && c.vehicleId == vehicleId && c.paired.Some?
  }

  /** Where the positions of one vehicle that found a paired zone stand among the calls. */
  function Positions(calls: seq<Call>, vehicleId: string): (ks: seq<nat>)
    ensures forall i :: 0 <= i < |ks| ==> ks[i] < |calls| && IsProcessed(calls[ks[i]], vehicleId)
    ensures forall i, j :: 0 <= i < j < |ks| ==> ks[i] < ks[j]
    ensures forall k :: 0 <= k < |calls| && IsProcessed(calls[k], vehicleId) ==> k in ks
  {
    if calls == [] then []
    else
      var n := |calls| - 1;
      var ks := Positions(calls[..n], vehicleId);
      assert forall i :: 0 <= i < |ks| ==> calls[..n][ks[i]] == calls[ks[i]];
      assert forall k :: 0 <= k < n && IsProcessed(calls[..n][k], vehicleId) ==> k in ks;
      if IsProcessed(calls[n], vehicleId) then ks + [n] else ks
  }

  /** What the vehicle's i-th ping holds, read off the calls. */
  ghost predicate PingIs(cfg: Config, calls: seq<Call>, vehicleId: string, p: D.Ping, k: nat)
    requires k < |calls| && calls[k].LocationCall?
  {
    var c := calls[k];
    && p.distanceM == c.distanceM && p.now == c.now
    && (p.authorized <==> Covered(cfg, calls[..k], vehicleId, c.now, c.hasPass))
  }

  /** The decider is given the vehicle's positions, each with its distance and time, authorized exactly if the calls before it cover it. */
  lemma {:induction false} HistoryIsPositions(cfg: Config, calls: seq<Call>, vehicleId: string)
    ensures |HistoryOf(cfg, calls, vehicleId)| == |Positions(calls, vehicleId)|
    ensures forall i :: 0 <= i < |Positions(calls, vehicleId)| ==>
      PingIs(cfg, calls, vehicleId, HistoryOf(cfg, calls, vehicleId)[i], Positions(calls, vehicleId)[i])
  {
    if calls != [] {
      var n := |calls| - 1;
      var init, c := calls[..n], calls[n];
      HistoryIsPositions(cfg, init, vehicleId);
      var ps, ks := HistoryOf(cfg, init, vehicleId), Positions(init, vehicleId);
      forall i | 0 <= i < |ks|
        ensures PingIs(cfg, calls, vehicleId, ps[i], ks[i])
      {
        assert PingIs(cfg, init, vehicleId, ps[i], ks[i]);
        assert init[..ks[i]] == calls[..ks[i]] && init[ks[i]] == calls[ks[i]];
      }
      if IsProcessed(c, vehicleId) {
        AuthorizedExactlyByHistory(cfg, init, vehicleId, c.now, c.hasPass);
      }
    }
  }

  /** Call k is a position of the vehicle that the calls before it do not cover. */
  ghost predicate Uncovered(cfg: Config, calls: seq<Call>, vehicleId: string, k: nat) {
    && k < |calls| && IsProcessed(calls[k], vehicleId)
    && !Covered(cfg, calls[..k], vehicleId, calls[k].now, calls[k].hasPass)
  }

  /** From call a to call b every position of the vehicle lies beyond the margin with nothing to authorize it, and the two are a dwell apart. */
  ghost predicate StrayStretch(cfg: Config, calls: seq<Call>, vehicleId: string, a: nat, b: nat) {
    && a <= b < |calls| && IsProcessed(calls[a], vehicleId) && IsProcessed(calls[b], vehicleId)
    && calls[b].now - calls[a].now >= cfg.hysteresis.dwellMs
    && forall k :: a <= k <= b && IsProcessed(calls[k], vehicleId) ==>
         calls[k].distanceM > cfg.hysteresis.marginM && Uncovered(cfg, calls, vehicleId, k)
  }

  /** The vehicle's positions from call e to call b all lie beyond the margin, and the one before them does not. */
  predicate Excursion(cfg: Config, calls: seq<Call>, vehicleId: string, e: nat, b: nat) {
    && e <= b < |calls|
    && (forall k :: e <= k <= b && IsProcessed(calls[k], vehicleId) ==> calls[k].distanceM > cfg.hysteresis.marginM)
    && (e > 0 ==> IsProcessed(calls[e - 1], vehicleId) && calls[e - 1].distanceM <= cfg.hysteresis.marginM)
  }

  /** m is the largest distance of the uncovered positions from call e to call b, or 0 if that is larger. */
  ghost predicate WorstUncovered(cfg: Config, calls: seq<Call>, vehicleId: string, e: nat, b: nat, m: real) {
    && m >= 0.0
    && (forall k :: e <= k <= b && Uncovered(cfg, calls, vehicleId, k) ==> calls[k].distanceM <= m)
    && (m == 0.0 || exists k :: e <= k <= b && Uncovered(cfg, calls, vehicleId, k) && calls[k].distanceM == m)
  }

  /**
   * Every detected event of a vehicle follows a dwell-long stretch of its positions, at none of which it
   * was on a ride, returning from one, or covered by a pass, and reports their excursion's worst distance.
   */
  lemma {:induction false} DetectedFollowsDwell(cfg: Config, calls: seq<Call>, vehicleId: string, j: nat)
      returns (e: nat, a: nat, b: nat)
    requires j < |DetectedDistances(Run(cfg, calls).table.outbox, vehicleId)|
    ensures StrayStretch(cfg, calls, vehicleId, a, b)
    ensures Excursion(cfg, calls, vehicleId, e, b)
    ensures WorstUncovered(cfg, calls, vehicleId, e, b, DetectedDistances(Run(cfg, calls).table.outbox, vehicleId)[j])
  {
    DetectorRefinesDecider(cfg, calls, vehicleId);
    HistoryIsPositions(cfg, calls, vehicleId);
    var h, ps, ks := cfg.hysteresis, HistoryOf(cfg, calls, vehicleId), Positions(calls, vehicleId);
    var last := OpeningOf(h, ps, j);
    D.OpensExactlyAtFirstDwell(h, ps, last);
    a := StretchOf(cfg, calls, vehicleId, last);
    b := ks[last];
    e := ExcursionOf(cfg, calls, vehicleId, last);
    WorstOf(cfg, calls, vehicleId, last, e, D.ActionAt(h, ps, last).maxDistanceM);
  }

  /** The stretch that ends with the history's opening at last, read off the calls. */
  lemma StretchOf(cfg: Config, calls: seq<Call>, vehicleId: string, last: nat) returns (a: nat)
    requires last < |HistoryOf(cfg, calls, vehicleId)| == |Positions(calls, vehicleId)|
    requires D.ActionAt(cfg.hysteresis, HistoryOf(cfg, calls, vehicleId), last).Open?
    ensures StrayStretch(cfg, calls, vehicleId, a, Positions(calls, vehicleId)[last])
  {
    var h, ps, ks := cfg.hysteresis, HistoryOf(cfg, calls, vehicleId), Positions(calls, vehicleId);
    var first := D.OpeningHasDwell(h, ps, last);
    a := ks[first];
    StrayAt(cfg, calls, vehicleId, first);
    StrayAt(cfg, calls, vehicleId, last);
    forall k | a <= k <= ks[last] && IsProcessed(calls[k], vehicleId)
      ensures calls[k].distanceM > h.marginM && Uncovered(cfg, calls, vehicleId, k)
    {
      var i := IndexOf(calls, vehicleId, k, first, last);
      StrayAt(cfg, calls, vehicleId, i);
      assert D.Stray(h, ps[i]);
    }
  }

  lemma PingAt(cfg: Config, calls: seq<Call>, vehicleId: string, i: nat)
    requires i < |Positions(calls, vehicleId)|
    ensures |HistoryOf(cfg, calls, vehicleId)| == |Positions(calls, vehicleId)|
    ensures PingIs(cfg, calls, vehicleId, HistoryOf(cfg, calls, vehicleId)[i], Positions(calls, vehicleId)[i])
  {
    HistoryIsPositions(cfg, calls, vehicleId);
  }

  lemma IndexOf(calls: seq<Call>, vehicleId: string, k: nat, first: nat, last: nat) returns (i: nat)
    requires k < |calls| && IsProcessed(calls[k], vehicleId) && first <= last < |Positions(calls, vehicleId)|
    requires k <= Positions(calls, vehicleId)[last]
    requires first == 0 || Positions(calls, vehicleId)[first - 1] < k
    ensures first <= i <= last && Positions(calls, vehicleId)[i] == k
  {
    var ks := Positions(calls, vehicleId);
    i :| 0 <= i < |ks| && ks[i] == k;
  }

  lemma PositionsAscend(calls: seq<Call>, vehicleId: string, i: nat, j: nat)
    requires i <= j < |Positions(calls, vehicleId)|
    ensures Positions(calls, vehicleId)[i] <= Positions(calls, vehicleId)[j]
    ensures i < j ==> Positions(calls, vehicleId)[i] < Positions(calls, vehicleId)[j]
  {
  }

  /** Where the excursion of the history's ping at last begins: just after the position that was last near. */
  function StartOf(h: D.Hysteresis, ps: seq<D.Ping>, ks: seq<nat>): nat
    requires |ps| <= |ks|
  {
    var start := D.ExcursionStart(h, ps);
    if start == 0 then 0 else ks[start - 1] + 1
  }

  lemma FarSinceStart(h: D.Hysteresis, ps: seq<D.Ping>, last: nat)
    requires last < |ps| && !D.Near(h, ps[last])
    ensures var start := D.ExcursionStart(h, ps[..last + 1]);
      && start <= last && (forall i :: start <= i <= last ==> !D.Near(h, ps[i])) && (start > 0 ==> D.Near(h, ps[start - 1]))
  {
    var now := ps[..last + 1];
    var start := D.ExcursionStart(h, now);
    assert !D.Near(h, now[last]);
    assert start > 0 ==> D.Near(h, now[start - 1]);
    forall i | start <= i <= last
      ensures !D.Near(h, ps[i])
    {
      assert !D.Near(h, now[i]);
    }
  }

  /** The excursion of the history's ping at last, read off the calls. */
  lemma ExcursionOf(cfg: Config, calls: seq<Call>, vehicleId: string, last: nat) returns (e: nat)
    requires last < |HistoryOf(cfg, calls, vehicleId)| == |Positions(calls, vehicleId)|
    requires !D.Near(cfg.hysteresis, HistoryOf(cfg, calls, vehicleId)[last])
    ensures Excursion(cfg, calls, vehicleId, e, Positions(calls, vehicleId)[last])
    ensures e == StartOf(cfg.hysteresis, HistoryOf(cfg, calls, vehicleId)[..last + 1], Positions(calls, vehicleId))
  {
    var h, ps, ks := cfg.hysteresis, HistoryOf(cfg, calls, vehicleId), Positions(calls, vehicleId);
    var start := D.ExcursionStart(h, ps[..last + 1]);
    FarSinceStart(h, ps, last);
    e := if start == 0 then 0 else ks[start - 1] + 1;
    if start > 0 {
      PingAt(cfg, calls, vehicleId, start - 1);
      PositionsAscend(calls, vehicleId, start - 1, last);
    }
    forall k | e <= k <= ks[last] && IsProcessed(calls[k], vehicleId)
      ensures calls[k].distanceM > cfg.hysteresis.marginM
    {
      var i := IndexOf(calls, vehicleId, k, start, last);
      PingAt(cfg, calls, vehicleId, i);
    }
  }

  /** A stray ping is an uncovered position beyond the margin. */
  lemma StrayAt(cfg: Config, calls: seq<Call>, vehicleId: string, i: nat)
    requires i < |Positions(calls, vehicleId)|
    ensures |HistoryOf(cfg, calls, vehicleId)| == |Positions(calls, vehicleId)|
    ensures var p, k := HistoryOf(cfg, calls, vehicleId)[i], Positions(calls, vehicleId)[i];
      && p.distanceM == calls[k].distanceM && p.now == calls[k].now
      && (D.Stray(cfg.hysteresis, p) <==> p.distanceM > cfg.hysteresis.marginM && Uncovered(cfg, calls, vehicleId, k))
  {
    PingAt(cfg, calls, vehicleId, i);
  }

  /** A position since the start of the excursion at last is no farther out than its worst. */
  lemma BelowWorst(cfg: Config, calls: seq<Call>, vehicleId: string, last: nat, m: real, k: nat)
    requires last < |HistoryOf(cfg, calls, vehicleId)| == |Positions(calls, vehicleId)|
    requires !D.Near(cfg.hysteresis, HistoryOf(cfg, calls, vehicleId)[last])
    requires D.IsWorst(cfg.hysteresis, HistoryOf(cfg, calls, vehicleId)[..last + 1], m)
    requires StartOf(cfg.hysteresis, HistoryOf(cfg, calls, vehicleId)[..last + 1], Positions(calls, vehicleId)) <= k
    requires k <= Positions(calls, vehicleId)[last] && Uncovered(cfg, calls, vehicleId, k)
    ensures calls[k].distanceM <= m
  {
    var h, ps := cfg.hysteresis, HistoryOf(cfg, calls, vehicleId);
    FarSinceStart(h, ps, last);
    var i := IndexOf(calls, vehicleId, k, D.ExcursionStart(h, ps[..last + 1]), last);
    StrayAt(cfg, calls, vehicleId, i);
    WorstBounds(h, ps, last, m, i);
  }

  /** The worst of the excursion at last is one of its uncovered positions. */
  lemma WorstIsAPosition(cfg: Config, calls: seq<Call>, vehicleId: string, last: nat, m: real) returns (k: nat)
    requires last < |HistoryOf(cfg, calls, vehicleId)| == |Positions(calls, vehicleId)|
    requires D.IsWorst(cfg.hysteresis, HistoryOf(cfg, calls, vehicleId)[..last + 1], m) && m != 0.0
    ensures StartOf(cfg.hysteresis, HistoryOf(cfg, calls, vehicleId)[..last + 1], Positions(calls, vehicleId)) <= k
    ensures k <= Positions(calls, vehicleId)[last] && Uncovered(cfg, calls, vehicleId, k) && calls[k].distanceM == m
  {
    var h, ps := cfg.hysteresis, HistoryOf(cfg, calls, vehicleId);
    var i := WorstAt(h, ps, last, m);
    StrayAt(cfg, calls, vehicleId, i);
    k := Positions(calls, vehicleId)[i];
    PositionsAscend(calls, vehicleId, i, last);
    var start := D.ExcursionStart(h, ps[..last + 1]);
    if start > 0 {
      PositionsAscend(calls, vehicleId, start - 1, i);
    }
  }

  lemma WorstOf(cfg: Config, calls: seq<Call>, vehicleId: string, last: nat, e: nat, m: real)
    requires last < |HistoryOf(cfg, calls, vehicleId)| == |Positions(calls, vehicleId)|
    requires !D.Near(cfg.hysteresis, HistoryOf(cfg, calls, vehicleId)[last])
    requires D.IsWorst(cfg.hysteresis, HistoryOf(cfg, calls, vehicleId)[..last + 1], m)
    requires e == StartOf(cfg.hysteresis, HistoryOf(cfg, calls, vehicleId)[..last + 1], Positions(calls, vehicleId))
    ensures WorstUncovered(cfg, calls, vehicleId, e, Positions(calls, vehicleId)[last], m)
  {
    forall k | e <= k <= Positions(calls, vehicleId)[last] && Uncovered(cfg, calls, vehicleId, k)
      ensures calls[k].distanceM <= m
    {
      BelowWorst(cfg, calls, vehicleId, last, m, k);
    }
    if m != 0.0 {
      var k := WorstIsAPosition(cfg, calls, vehicleId, last, m);
    }
  }

  lemma WorstBounds(h: D.Hysteresis, ps: seq<D.Ping>, last: nat, m: real, i: nat)
    requires last < |ps| && D.IsWorst(h, ps[..last + 1], m)
    requires D.ExcursionStart(h, ps[..last + 1]) <= i <= last && D.Stray(h, ps[i])
    ensures ps[i].distanceM <= m
  {
    assert ps[..last + 1][i] == ps[i];
  }

  lemma WorstAt(h: D.Hysteresis, ps: seq<D.Ping>, last: nat, m: real) returns (i: nat)
    requires last < |ps| && D.IsWorst(h, ps[..last + 1], m) && m != 0.0
    ensures D.ExcursionStart(h, ps[..last + 1]) <= i <= last && D.Stray(h, ps[i]) && ps[i].distanceM == m
  {
    var now := ps[..last + 1];
    i :| D.ExcursionStart(h, now) <= i < |now| && D.Stray(h, now[i]) && now[i].distanceM == m;
  }

  // --------------------------------------------------------- what a call does to a row

  /** The events about violation id other than its detection. */
  function ToldOf(id: nat): Event -> bool {
    (e: Event) => !e.ViolationDetected? && e.violationId == id
  }

  function EventsOf(outbox: seq<Event>, id: nat): seq<Event> {
    if outbox == [] then []
    else EventsOf(outbox[..|outbox| - 1], id) + if ToldOf(id)(outbox[|outbox| - 1]) then [outbox[|outbox| - 1]] else []
  }

  lemma EventsOfSnoc(outbox: seq<Event>, e: Event, id: nat)
    ensures EventsOf(outbox + [e], id) == EventsOf(outbox, id) + if ToldOf(id)(e) then [e] else []
  {
    assert (outbox + [e])[..|outbox|] == outbox;
  }

  /** The call reports the vehicle back within the margin of its zone. */
  predicate Returns(cfg: Config, c: Call, vehicleId: string) {
    IsProcessed(c, vehicleId) && c.distanceM <= cfg.hysteresis.marginM
  }

  /** What a call makes of row id, and what it announces about it. */
  function RowAfter(cfg: Config, r: Violation, id: nat, c: Call): (Violation, seq<Event>) {
    if Returns(cfg, c, r.vehicleId) && r.status == Open then
      (r.(status := AutoClosed, closedAt := Some(c.now)), [ViolationClosed(id, r.vehicleId, r.zoneId)])
    else if c.AcknowledgeCall? && c.violationId == id && r.status == Open then
      (r.(status := Acknowledged, ackBy := Some(c.adminId)), [])
    else if c.ResolveCall? && c.violationId == id && r.status != Resolved then
      (r.(status := Resolved, resolutionNote := Some(c.note), closedAt := if r.closedAt.Some? then r.closedAt else Some(c.resolvedAt)), [])
    else if c.EscalateCall? && c.violationId == id then
      (r.(status := Escalated), [ViolationEscalated(id, r.vehicleId, r.zoneId)])
    else (r, [])
  }

  lemma PositionChangesRow(cfg: Config, s: Sys, v: string, zoneId: string, p: D.Ping, id: nat)
    requires Inv(s) && id < |s.table.rows|
    ensures var r, t := s.table.rows[id], Located(cfg, s, v, zoneId, p).table;
      && id < |t.rows|
      && var back := v == r.vehicleId && p.distanceM <= cfg.hysteresis.marginM && r.status == Open;
      && t.rows[id] == (if back then r.(status := AutoClosed, closedAt := Some(p.now)) else r)
      && EventsOf(t.outbox, id) == EventsOf(s.table.outbox, id) + if back then [ViolationClosed(id, r.vehicleId, r.zoneId)] else []
  {
    var r, prev := s.table.rows[id], GeoOf(s.geo, v);
    assert RowOk(s, id);
    var (action, next) := D.Decide(cfg.hysteresis, prev, p);
    match action
    case Open(m) => EventsOfSnoc(s.table.outbox, ViolationDetected(|s.table.rows|, v, zoneId, m), id);
    case Close =>
      assert v in s.geo && NameOk(s, v);
      var ref := prev.openViolationId.value;
      EventsOfSnoc(s.table.outbox, ViolationClosed(ref.id, v, s.table.rows[ref.id].zoneId), id);
    case Nothing =>
  }

  /** What a call makes of row id from one table to the next. */
  ghost predicate RowChanges(cfg: Config, t: Table, u: Table, c: Call, id: nat)
    requires id < |t.rows|
  {
    && id < |u.rows|
    && u.rows[id] == RowAfter(cfg, t.rows[id], id, c).0
    && EventsOf(u.outbox, id) == EventsOf(t.outbox, id) + RowAfter(cfg, t.rows[id], id, c).1
  }

  lemma AdminChangesRow(cfg: Config, s: Sys, c: Call, id: nat)
    requires id < |s.table.rows| && (c.AcknowledgeCall? || c.ResolveCall? || c.EscalateCall?)
    ensures RowChanges(cfg, s.table, Step(cfg, s, c).table, c, id)
  {
    if c.EscalateCall? && c.violationId < |s.table.rows| {
      var v := s.table.rows[c.violationId];
      EventsOfSnoc(s.table.outbox, ViolationEscalated(c.violationId, v.vehicleId, v.zoneId), id);
    }
  }

  /**
   * After any calls a row changes, and is told of, exactly so: a return of its vehicle closes it if it is
   * open, an admin's acknowledgement takes it only while it is open, a resolution unless it is resolved
   * already, an escalation always. Nothing else touches it.
   */
  lemma {:induction false} RowChangesExactly(cfg: Config, calls: seq<Call>, c: Call, id: nat)
    requires id < |Run(cfg, calls).table.rows|
    ensures RowChanges(cfg, Run(cfg, calls).table, Run(cfg, calls + [c]).table, c, id)
  {
    RunKeepsInv(cfg, calls);
    var s := Run(cfg, calls);
    assert (calls + [c])[..|calls|] == calls;
    if c.LocationCall? {
      if c.paired.Some? {
        PositionChangesRow(cfg, s, c.vehicleId, c.paired.value, PingOf(cfg, s, c.vehicleId, c.distanceM, c.now, c.hasPass), id);
      }
    } else if c.AcknowledgeCall? || c.ResolveCall? || c.EscalateCall? {
      AdminChangesRow(cfg, s, c, id);
    }
  }

  /** Row id was opened by call k, a position of its vehicle in its zone, and its detected event tells vehicle, zone and distance. */
  ghost predicate OpenedBy(t: Table, calls: seq<Call>, id: nat, k: nat) {
    && id < |t.rows| && k < |calls| && IsProcessed(calls[k], t.rows[id].vehicleId)
    && var r := t.rows[id];
    && calls[k].paired == Some(r.zoneId) && calls[k].now == r.openedAt
    && ViolationDetected(id, r.vehicleId, r.zoneId, r.maxDistanceM) in t.outbox
  }

  lemma RowsOnlyGrow(cfg: Config, s: Sys, c: Call)
    ensures var t := Step(cfg, s, c);
      && |s.table.rows| <= |t.table.rows| <= |s.table.rows| + 1
      && s.table.outbox <= t.table.outbox
      && (forall i :: 0 <= i < |s.table.rows| ==>
            var r, r' := s.table.rows[i], t.table.rows[i];
            r'.vehicleId == r.vehicleId && r'.zoneId == r.zoneId && r'.openedAt == r.openedAt && r'.maxDistanceM == r.maxDistanceM)
    ensures var t, n := Step(cfg, s, c), |s.table.rows|;
      |t.table.rows| > n ==>
        && c.LocationCall? && c.paired.Some?
        && var r := t.table.rows[n];
        && r == Violation(c.vehicleId, c.paired.value, Open, c.now, None, r.maxDistanceM, None, None)
        && t.table.outbox == s.table.outbox + [ViolationDetected(n, r.vehicleId, r.zoneId, r.maxDistanceM)]
  {
  }

  /** Every row tells the position that opened it, and its detected event tells the row. */
  lemma {:induction false} RowsTellTheirPositions(cfg: Config, calls: seq<Call>, id: nat)
    requires id < |Run(cfg, calls).table.rows|
    ensures exists k :: OpenedBy(Run(cfg, calls).table, calls, id, k)
  {
    var n := |calls| - 1;
    var s, t := Run(cfg, calls[..n]), Run(cfg, calls);
    RowsOnlyGrow(cfg, s, calls[n]);
    if id < |s.table.rows| {
      RowsTellTheirPositions(cfg, calls[..n], id);
      var k :| OpenedBy(s.table, calls[..n], id, k);
      assert OpenedBy(t.table, calls, id, k);
    } else {
      assert OpenedBy(t.table, calls, id, n);
    }
  }
}
