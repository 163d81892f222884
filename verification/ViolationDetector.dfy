/**
 * services/geofence/src/violations: the detector that runs the decider for each vehicle, the
 * authorization it asks, and the rows it shares with the admins. One event or admin request is one
 * step. A vehicle's paired zone, its distance outside it and whether a movement pass covers it are
 * parameters of a ping; a violation's id is its place in insertion order. ViolationOverlap takes
 * pings apart at their awaits.
 */
module ViolationDetector {
  import opened Wrappers
  import opened Sums
  import D = ViolationDecider

  datatype Status = Open | AutoClosed | Acknowledged | Resolved | Escalated

  datatype Violation = Violation(
    vehicleId: string, zoneId: string, status: Status, openedAt: int, closedAt: Option<int>,
    maxDistanceM: real, ackBy: Option<string>, resolutionNote: Option<string>)

  datatype Event =
    | ViolationDetected(violationId: nat, vehicleId: string, zoneId: string, maxDistanceM: real)
    | ViolationClosed(violationId: nat, vehicleId: string, zoneId: string)
    | ViolationEscalated(violationId: nat, vehicleId: string, zoneId: string)

  datatype Auth = Auth(onActiveRide: set<string>, lastRideEndedAt: map<string, int>)

  datatype Table = Table(rows: seq<Violation>, outbox: seq<Event>)

  datatype Sys = Sys(auth: Auth, geo: map<string, D.GeoState>, table: Table)

  datatype Config = Config(hysteresis: D.Hysteresis, returnWindowMs: int)

  // -------------------------------------------------------------------- authorization

  function MarkRideActive(a: Auth, vehicleId: string): Auth {
    a.(onActiveRide := a.onActiveRide + {vehicleId})
  }

  function MarkRideEnded(a: Auth, vehicleId: string, at: int): Auth {
    Auth(a.onActiveRide - {vehicleId}, a.lastRideEndedAt[vehicleId := at])
  }

  predicate InReturnWindow(cfg: Config, a: Auth, vehicleId: string, now: int) {
    vehicleId in a.lastRideEndedAt && a.lastRideEndedAt[vehicleId] != 0 && now - a.lastRideEndedAt[vehicleId] <= cfg.returnWindowMs
  }

  predicate IsAuthorized(cfg: Config, a: Auth, vehicleId: string, now: int, hasPass: bool) {
    vehicleId in a.onActiveRide || InReturnWindow(cfg, a, vehicleId, now) || hasPass
  }

  // ------------------------------------------------------------------------- the rows

  function OpenRow(t: Table, vehicleId: string, zoneId: string, openedAt: int, maxDistanceM: real): Table {
    Table(t.rows + [Violation(vehicleId, zoneId, Open, openedAt, None, maxDistanceM, None, None)],
          t.outbox + [ViolationDetected(|t.rows|, vehicleId, zoneId, maxDistanceM)])
  }

  /** closeViolation: only a row that is still open is closed. */
  function CloseRow(t: Table, ref: D.ViolationRef, closedAt: int): Table {
    if ref.Pending? || ref.id >= |t.rows| || t.rows[ref.id].status != Open then t
    else
      var v := t.rows[ref.id];
      Table(t.rows[ref.id := v.(status := AutoClosed, closedAt := Some(closedAt))],
            t.outbox + [ViolationClosed(ref.id, v.vehicleId, v.zoneId)])
  }

  function AcknowledgeRow(t: Table, id: nat, adminId: string): Table {
    if id >= |t.rows| || t.rows[id].status != Open then t
    else t.(rows := t.rows[id := t.rows[id].(status := Acknowledged, ackBy := Some(adminId))])
  }

  function ResolveRow(t: Table, id: nat, note: string, now: int): Table {
    if id >= |t.rows| || t.rows[id].status == Resolved then t
    else
      var v := t.rows[id];
      t.(rows := t.rows[id := v.(status := Resolved, resolutionNote := Some(note),
                                 closedAt := if v.closedAt.Some? then v.closedAt else Some(now))])
  }

  function EscalateRow(t: Table, id: nat): Table {
    if id >= |t.rows| then t
    else
      var v := t.rows[id];
      Table(t.rows[id := v.(status := Escalated)], t.outbox + [ViolationEscalated(id, v.vehicleId, v.zoneId)])
  }

  // ---------------------------------------------------------------------- the detector

  function GeoOf(geo: map<string, D.GeoState>, vehicleId: string): D.GeoState {
    if vehicleId in geo then geo[vehicleId] else D.InitialGeoState
  }

  /** onLocation once it has decided: the row, then the state, which now names the new row. */
  function Carry(s: Sys, vehicleId: string, zoneId: string, now: int, prev: D.GeoState, action: D.Action, next: D.GeoState): Sys {
    match action
    case Open(maxDistanceM) =>
      s.(table := OpenRow(s.table, vehicleId, zoneId, now, maxDistanceM),
         geo := s.geo[vehicleId := next.(openViolationId := Some(D.Row(|s.table.rows|)))])
    case Close =>
      s.(table := if prev.openViolationId.Some? then CloseRow(s.table, prev.openViolationId.value, now) else s.table,
         geo := s.geo[vehicleId := next])
    case Nothing => s.(geo := s.geo[vehicleId := next])
  }

  function Located(cfg: Config, s: Sys, vehicleId: string, zoneId: string, p: D.Ping): Sys {
    var prev := GeoOf(s.geo, vehicleId);
    var (action, next) := D.Decide(cfg.hysteresis, prev, p);
    Carry(s, vehicleId, zoneId, p.now, prev, action, next)
  }

  /** What the detector makes of a position. */
  function PingOf(cfg: Config, s: Sys, vehicleId: string, distanceM: real, now: int, hasPass: bool): D.Ping {
    D.Ping(distanceM, now, IsAuthorized(cfg, s.auth, vehicleId, now, hasPass))
  }

  datatype Call =
    | LocationCall(vehicleId: string, paired: Option<string>, distanceM: real, now: int, hasPass: bool)
    | RideActiveCall(vehicleId: string)
    | RideEndedCall(vehicleId: string, at: int)
    | AcknowledgeCall(violationId: nat, adminId: string)
    | ResolveCall(violationId: nat, note: string, resolvedAt: int)
    | EscalateCall(violationId: nat)

  function Step(cfg: Config, s: Sys, c: Call): Sys {
    match c
    case LocationCall(v, paired, distanceM, now, hasPass) =>
      if paired.None? then s else Located(cfg, s, v, paired.value, PingOf(cfg, s, v, distanceM, now, hasPass))
    case RideActiveCall(v) => if v == "" then s else s.(auth := MarkRideActive(s.auth, v))
    case RideEndedCall(v, at) => if v == "" then s else s.(auth := MarkRideEnded(s.auth, v, at))
    case AcknowledgeCall(id, adminId) => s.(table := AcknowledgeRow(s.table, id, adminId))
    case ResolveCall(id, note, now) => s.(table := ResolveRow(s.table, id, note, now))
    case EscalateCall(id) => s.(table := EscalateRow(s.table, id))
  }

  function Run(cfg: Config, calls: seq<Call>): Sys {
    if calls == [] then Sys(Auth({}, map[]), map[], Table([], []))
    else Step(cfg, Run(cfg, calls[..|calls| - 1]), calls[|calls| - 1])
  }

  // ---------------------------------------------------------------------- the services

  class AuthorizationService {
    const config: Config
    var onActiveRide: set<string>
    var lastRideEndedAt: map<string, int>

    ghost function Snapshot(): Auth
      reads this
    {
      Auth(onActiveRide, lastRideEndedAt)
    }

    constructor (config: Config)
      ensures this.config == config && Snapshot() == Auth({}, map[])
    {
      this.config := config;
      onActiveRide, lastRideEndedAt := {}, map[];
    }

    method RideActive(vehicleId: string)
      modifies this
      ensures Snapshot() == MarkRideActive(old(Snapshot()), vehicleId)
    {
      onActiveRide := onActiveRide + {vehicleId};
    }

    method RideEnded(vehicleId: string, at: int)
      modifies this
      ensures Snapshot() == MarkRideEnded(old(Snapshot()), vehicleId, at)
    {
      onActiveRide := onActiveRide - {vehicleId};
      lastRideEndedAt := lastRideEndedAt[vehicleId := at];
    }

    method CheckAuthorized(vehicleId: string, now: int, hasPass: bool) returns (ok: bool)
      ensures ok == IsAuthorized(config, Snapshot(), vehicleId, now, hasPass)
    {
      if vehicleId in onActiveRide {
        return true;
      }
      if vehicleId in lastRideEndedAt {
        var endedAt := lastRideEndedAt[vehicleId];
        if endedAt != 0 && now - endedAt <= config.returnWindowMs {
          return true;
        }
      }
      ok := hasPass;
    }
  }

  /** The violations table and the outbox, as the detector and the admins share them. */
  class ViolationStore {
    var rows: seq<Violation>
    var outbox: seq<Event>

    ghost function Snapshot(): Table
      reads this
    {
      Table(rows, outbox)
    }

    constructor ()
      ensures Snapshot() == Table([], [])
    {
      rows, outbox := [], [];
    }
  }

  class ViolationsService {
    const store: ViolationStore

    constructor (store: ViolationStore)
      ensures this.store == store
    {
      this.store := store;
    }

    method Acknowledge(id: nat, adminId: string) returns (ok: bool)
      modifies store
      ensures ok == (id < |old(store.rows)| && old(store.rows)[id].status == Open)
      ensures store.Snapshot() == AcknowledgeRow(old(store.Snapshot()), id, adminId)
    {
      if id >= |store.rows| || store.rows[id].status != Open {
        return false;
      }
      var v := store.rows[id].(status := Acknowledged);
      store.rows := store.rows[id := v.(ackBy := Some(adminId))];
      ok := true;
    }

    method Resolve(id: nat, note: string, now: int) returns (ok: bool)
      modifies store
      ensures ok == (id < |old(store.rows)|)
      ensures store.Snapshot() == ResolveRow(old(store.Snapshot()), id, note, now)
    {
      if id >= |store.rows| {
        return false;
      }
      ok := true;
      var v := store.rows[id];
      if v.status == Resolved {
        return;
      }
      v := v.(status := Resolved, resolutionNote := Some(note));
      if v.closedAt.None? {
        v := v.(closedAt := Some(now));
      }
      store.rows := store.rows[id := v];
    }

    method Escalate(id: nat) returns (ok: bool)
      modifies store
      ensures ok == (id < |old(store.rows)|)
      ensures store.Snapshot() == EscalateRow(old(store.Snapshot()), id)
    {
      if id >= |store.rows| {
        return false;
      }
      var v := store.rows[id].(status := Escalated);
      store.rows := store.rows[id := v];
      store.outbox := store.outbox + [ViolationEscalated(id, v.vehicleId, v.zoneId)];
      ok := true;
    }
  }

  class ViolationDetectorService {
    const config: Config
    const authz: AuthorizationService
    const store: ViolationStore
    var geo: map<string, D.GeoState>

    ghost function Snapshot(): Sys
      reads this, authz, store
    {
      Sys(authz.Snapshot(), geo, store.Snapshot())
    }

    constructor (config: Config, authz: AuthorizationService, store: ViolationStore)
      requires authz.config == config
      ensures this.config == config && this.authz == authz && this.store == store
      ensures Snapshot() == Sys(authz.Snapshot(), map[], store.Snapshot())
    {
      this.config, this.authz, this.store := config, authz, store;
      geo := map[];
    }

    method OnLocation(vehicleId: string, paired: Option<string>, distanceM: real, now: int, hasPass: bool)
      requires authz.config == config
      modifies this, store
      ensures Snapshot() == Step(config, old(Snapshot()), LocationCall(vehicleId, paired, distanceM, now, hasPass))
    {
      if paired.None? {
        return;
      }
      var authorized := authz.CheckAuthorized(vehicleId, now, hasPass);
      var prev := D.InitialGeoState;
      if vehicleId in geo {
        prev := geo[vehicleId];
      }
      var (action, next) := D.Decide(config.hysteresis, prev, D.Ping(distanceM, now, authorized));
      if action.Open? {
        var id := OpenViolation(vehicleId, paired.value, now, action.maxDistanceM);
        next := next.(openViolationId := Some(D.Row(id)));
      } else if action.Close? {
        if prev.openViolationId.Some? {
          CloseViolation(prev.openViolationId.value, now);
        }
      }
      geo := geo[vehicleId := next];
    }

    method OpenViolation(vehicleId: string, zoneId: string, openedAt: int, maxDistanceM: real) returns (id: nat)
      modifies store
      ensures id == |old(store.rows)|
      ensures store.Snapshot() == OpenRow(old(store.Snapshot()), vehicleId, zoneId, openedAt, maxDistanceM)
    {
      id := |store.rows|;
      store.rows := store.rows + [Violation(vehicleId, zoneId, Open, openedAt, None, maxDistanceM, None, None)];
      store.outbox := store.outbox + [ViolationDetected(id, vehicleId, zoneId, maxDistanceM)];
    }

    method CloseViolation(ref: D.ViolationRef, closedAt: int)
      modifies store
      ensures store.Snapshot() == CloseRow(old(store.Snapshot()), ref, closedAt)
    {
      if ref.Pending? || ref.id >= |store.rows| || store.rows[ref.id].status != Open {
        return;
      }
      var v := store.rows[ref.id].(status := AutoClosed);
      v := v.(closedAt := Some(closedAt));
      store.rows := store.rows[ref.id := v];
      store.outbox := store.outbox + [ViolationClosed(ref.id, v.vehicleId, v.zoneId)];
    }
  }

  // ------------------------------------------------------- a vehicle's processed pings

  /** The pings of one vehicle that the detector has processed, as it saw them. */
  function HistoryOf(cfg: Config, calls: seq<Call>, vehicleId: string): seq<D.Ping> {
    if calls == [] then []
    else
      var init, c := calls[..|calls| - 1], calls[|calls| - 1];
      HistoryOf(cfg, init, vehicleId) +
      if c.LocationCall? && c.vehicleId == vehicleId && c.paired.Some?
      then [PingOf(cfg, Run(cfg, init), vehicleId, c.distanceM, c.now, c.hasPass)] else []
  }

  /** The distances the detector announced for a vehicle, in order. */
  function DetectedDistances(outbox: seq<Event>, vehicleId: string): seq<real> {
    if outbox == [] then []
    else
      var e := outbox[|outbox| - 1];
      DetectedDistances(outbox[..|outbox| - 1], vehicleId) +
      if e.ViolationDetected? && e.vehicleId == vehicleId then [e.maxDistanceM] else []
  }

  /** The distances of the openings the decider makes over a history. */
  function OpenedDistances(h: D.Hysteresis, ps: seq<D.Ping>): seq<real> {
    if ps == [] then []
    else
      var action := D.ActionAt(h, ps, |ps| - 1);
      OpenedDistances(h, ps[..|ps| - 1]) + if action.Open? then [action.maxDistanceM] else []
  }

  /** The same state but for which row is open. */
  predicate SameBut(a: D.GeoState, b: D.GeoState) {
    a.pendingOutsideSince == b.pendingOutsideSince && a.maxDistanceM == b.maxDistanceM && a.openViolationId.Some? == b.openViolationId.Some?
  }

  lemma DecideIgnoresRef(h: D.Hysteresis, a: D.GeoState, b: D.GeoState, p: D.Ping)
    requires SameBut(a, b)
    ensures D.Decide(h, a, p).0 == D.Decide(h, b, p).0 && SameBut(D.Decide(h, a, p).1, D.Decide(h, b, p).1)
  {
  }

  lemma DetectedSnoc(outbox: seq<Event>, e: Event, vehicleId: string)
    ensures DetectedDistances(outbox + [e], vehicleId) ==
      DetectedDistances(outbox, vehicleId) + if e.ViolationDetected? && e.vehicleId == vehicleId then [e.maxDistanceM] else []
  {
    assert (outbox + [e])[..|outbox|] == outbox;
  }

  lemma OpenedSnoc(h: D.Hysteresis, ps: seq<D.Ping>, p: D.Ping)
    ensures D.Fold(h, ps + [p]) == D.Decide(h, D.Fold(h, ps), p).1
    ensures D.ActionAt(h, ps + [p], |ps|) == D.Decide(h, D.Fold(h, ps), p).0
    ensures OpenedDistances(h, ps + [p]) == OpenedDistances(h, ps) +
      if D.ActionAt(h, ps + [p], |ps|).Open? then [D.ActionAt(h, ps + [p], |ps|).maxDistanceM] else []
  {
    assert (ps + [p])[..|ps|] == ps;
  }

  lemma OtherPingsLeaveVehicle(cfg: Config, s: Sys, v: string, zoneId: string, p: D.Ping, vehicleId: string)
    requires v != vehicleId
    ensures var t := Located(cfg, s, v, zoneId, p);
      GeoOf(t.geo, vehicleId) == GeoOf(s.geo, vehicleId)
      && DetectedDistances(t.table.outbox, vehicleId) == DetectedDistances(s.table.outbox, vehicleId)
  {
    var prev := GeoOf(s.geo, v);
    var action := D.Decide(cfg.hysteresis, prev, p).0;
    match action
    case Open(maxDistanceM) => DetectedSnoc(s.table.outbox, ViolationDetected(|s.table.rows|, v, zoneId, maxDistanceM), vehicleId);
    case Close =>
      if prev.openViolationId.Some? {
        ClosingLeavesDetected(s.table, prev.openViolationId.value, p.now, vehicleId);
      }
    case Nothing =>
  }

  lemma ClosingLeavesDetected(t: Table, ref: D.ViolationRef, now: int, vehicleId: string)
    ensures DetectedDistances(CloseRow(t, ref, now).outbox, vehicleId) == DetectedDistances(t.outbox, vehicleId)
  {
    if ref.Row? && ref.id < |t.rows| {
      DetectedSnoc(t.outbox, ViolationClosed(ref.id, t.rows[ref.id].vehicleId, t.rows[ref.id].zoneId), vehicleId);
    }
  }

  /** Only a vehicle's own processed pings touch its state and announce violations for it. */
  lemma OtherCallsLeaveVehicle(cfg: Config, s: Sys, c: Call, vehicleId: string)
    requires !(c.LocationCall? && c.vehicleId == vehicleId && c.paired.Some?)
    ensures var t := Step(cfg, s, c);
      GeoOf(t.geo, vehicleId) == GeoOf(s.geo, vehicleId)
      && DetectedDistances(t.table.outbox, vehicleId) == DetectedDistances(s.table.outbox, vehicleId)
  {
    if c.LocationCall? && c.paired.Some? {
      OtherPingsLeaveVehicle(cfg, s, c.vehicleId, c.paired.value, PingOf(cfg, s, c.vehicleId, c.distanceM, c.now, c.hasPass), vehicleId);
    } else if c.EscalateCall? && c.violationId < |s.table.rows| {
      var v := s.table.rows[c.violationId];
      DetectedSnoc(s.table.outbox, ViolationEscalated(c.violationId, v.vehicleId, v.zoneId), vehicleId);
    }
  }

  lemma OwnPingFollowsDecider(cfg: Config, s: Sys, vehicleId: string, zoneId: string, p: D.Ping)
    ensures var t := Located(cfg, s, vehicleId, zoneId, p);
      var (action, next) := D.Decide(cfg.hysteresis, GeoOf(s.geo, vehicleId), p);
      && SameBut(GeoOf(t.geo, vehicleId), next)
      && DetectedDistances(t.table.outbox, vehicleId) ==
           DetectedDistances(s.table.outbox, vehicleId) + if action.Open? then [action.maxDistanceM] else []
  {
    var prev := GeoOf(s.geo, vehicleId);
    var action := D.Decide(cfg.hysteresis, prev, p).0;
    match action
    case Open(maxDistanceM) => DetectedSnoc(s.table.outbox, ViolationDetected(|s.table.rows|, vehicleId, zoneId, maxDistanceM), vehicleId);
    case Close =>
      if prev.openViolationId.Some? {
        ClosingLeavesDetected(s.table, prev.openViolationId.value, p.now, vehicleId);
      }
    case Nothing =>
  }

  /**
   * Whatever admins and other vehicles do in between, the detector's state for a vehicle is the decider
   * folded over the pings it processed, and what it announced are exactly that fold's openings.
   */
  lemma {:induction false} DetectorRefinesDecider(cfg: Config, calls: seq<Call>, vehicleId: string)
    ensures var s, ps := Run(cfg, calls), HistoryOf(cfg, calls, vehicleId);
      && SameBut(GeoOf(s.geo, vehicleId), D.Fold(cfg.hysteresis, ps))
      && DetectedDistances(s.table.outbox, vehicleId) == OpenedDistances(cfg.hysteresis, ps)
  {
    if calls != [] {
      var init, c := calls[..|calls| - 1], calls[|calls| - 1];
      var s, ps := Run(cfg, init), HistoryOf(cfg, init, vehicleId);
      DetectorRefinesDecider(cfg, init, vehicleId);
      if c.LocationCall? && c.vehicleId == vehicleId && c.paired.Some? {
        var p := PingOf(cfg, s, vehicleId, c.distanceM, c.now, c.hasPass);
        OwnPingFollowsDecider(cfg, s, vehicleId, c.paired.value, p);
        DecideIgnoresRef(cfg.hysteresis, GeoOf(s.geo, vehicleId), D.Fold(cfg.hysteresis, ps), p);
        OpenedSnoc(cfg.hysteresis, ps, p);
        assert HistoryOf(cfg, calls, vehicleId) == ps + [p];
      } else {
        OtherCallsLeaveVehicle(cfg, s, c, vehicleId);
        assert HistoryOf(cfg, calls, vehicleId) == ps;
      }
    }
  }

  lemma {:induction false} OpeningOf(h: D.Hysteresis, ps: seq<D.Ping>, j: nat) returns (k: nat)
    requires j < |OpenedDistances(h, ps)|
    ensures k < |ps| && D.ActionAt(h, ps, k) == D.Open(OpenedDistances(h, ps)[j])
  {
    var n := |ps| - 1;
    if j < |OpenedDistances(h, ps[..n])| {
      k := OpeningOf(h, ps[..n], j);
      assert ps[..n][..k] == ps[..k] && ps[..n][k] == ps[k];
    } else {
      k := n;
    }
  }

  // -------------------------------------------------------------------- the shared rows

  function DetectedFor(id: nat): Event -> int {
    (e: Event) => if e.ViolationDetected? && e.violationId == id then 1 else 0
  }

  function ClosedFor(id: nat): Event -> int {
    (e: Event) => if e.ViolationClosed? && e.violationId == id then 1 else 0
  }

  /** An open row is the one its vehicle's state names. */
  predicate RowOk(s: Sys, id: nat)
    requires id < |s.table.rows|
  {
    var v := s.table.rows[id];
    && (v.status == Open ==> v.vehicleId in s.geo && s.geo[v.vehicleId].openViolationId == Some(D.Row(id)))
    && Sum(s.table.outbox, DetectedFor(id)) == 1
    && Sum(s.table.outbox, ClosedFor(id)) <= (if v.status == Open then 0 else 1)
  }

  predicate NameOk(s: Sys, vehicleId: string)
    requires vehicleId in s.geo
  {
    s.geo[vehicleId].openViolationId.Some? ==>
      var ref := s.geo[vehicleId].openViolationId.value;
      ref.Row? && ref.id < |s.table.rows| && s.table.rows[ref.id].vehicleId == vehicleId
  }

  ghost predicate Inv(s: Sys) {
    && (forall id {:trigger RowOk(s, id)} :: 0 <= id < |s.table.rows| ==> RowOk(s, id))
    && (forall v {:trigger NameOk(s, v)} :: v in s.geo ==> NameOk(s, v))
    && (forall id: nat {:trigger Unused(s, id)} :: id >= |s.table.rows| ==> Unused(s, id))
  }

  predicate Unused(s: Sys, id: nat) {
    Sum(s.table.outbox, DetectedFor(id)) == 0 && Sum(s.table.outbox, ClosedFor(id)) == 0
  }

  lemma EventCounts(outbox: seq<Event>, e: Event, id: nat)
    ensures Sum(outbox + [e], DetectedFor(id)) == Sum(outbox, DetectedFor(id)) + DetectedFor(id)(e)
    ensures Sum(outbox + [e], ClosedFor(id)) == Sum(outbox, ClosedFor(id)) + ClosedFor(id)(e)
  {
    SumSnoc(outbox, e, DetectedFor(id));
    SumSnoc(outbox, e, ClosedFor(id));
  }

  /** A row changed by hand: it keeps its vehicle and is not open any more; nothing is detected or closed. */
  lemma AdminKeepsInv(s: Sys, id: nat, v: Violation, events: seq<Event>)
    requires Inv(s) && id < |s.table.rows| && v.vehicleId == s.table.rows[id].vehicleId && v.status != Open
    requires events == [] || (|events| == 1 && events[0].ViolationEscalated?)
    ensures Inv(s.(table := Table(s.table.rows[id := v], s.table.outbox + events)))
  {
    var t := s.(table := Table(s.table.rows[id := v], s.table.outbox + events));
    forall i: nat
      ensures Sum(t.table.outbox, DetectedFor(i)) == Sum(s.table.outbox, DetectedFor(i))
      ensures Sum(t.table.outbox, ClosedFor(i)) == Sum(s.table.outbox, ClosedFor(i))
    {
      if events != [] {
        assert events == [events[0]];
        EventCounts(s.table.outbox, events[0], i);
      } else {
        assert t.table.outbox == s.table.outbox;
      }
    }
    forall i | 0 <= i < |t.table.rows|
      ensures RowOk(t, i)
    {
      assert RowOk(s, i);
    }
    forall w | w in t.geo
      ensures NameOk(t, w)
    {
      assert NameOk(s, w);
    }
    forall i: nat | i >= |t.table.rows|
      ensures Unused(t, i)
    {
      assert Unused(s, i);
    }
  }

  lemma OpenKeepsInv(s: Sys, vehicleId: string, zoneId: string, now: int, maxDistanceM: real, next: D.GeoState)
    requires Inv(s) && GeoOf(s.geo, vehicleId).openViolationId.None?
    ensures Inv(Carry(s, vehicleId, zoneId, now, GeoOf(s.geo, vehicleId), D.Open(maxDistanceM), next))
  {
    var n := |s.table.rows|;
    var e := ViolationDetected(n, vehicleId, zoneId, maxDistanceM);
    var t := Carry(s, vehicleId, zoneId, now, GeoOf(s.geo, vehicleId), D.Open(maxDistanceM), next);
    forall i: nat | i > n
      ensures Unused(t, i)
    {
      assert Unused(s, i);
      EventCounts(s.table.outbox, e, i);
    }
    forall i | 0 <= i < |t.table.rows|
      ensures RowOk(t, i)
    {
      EventCounts(s.table.outbox, e, i);
      if i < n {
        assert RowOk(s, i);
      } else {
        assert Unused(s, i);
      }
    }
    forall w | w in t.geo
      ensures NameOk(t, w)
    {
      if w != vehicleId {
        assert NameOk(s, w);
      }
    }
  }

  /** The vehicle's state is set to name no row it did not name, and its open row, if it named one, is closed. */
  lemma CloseKeepsInv(s: Sys, vehicleId: string, now: int, next: D.GeoState)
    requires Inv(s) && vehicleId in s.geo && s.geo[vehicleId].openViolationId.Some? && next.openViolationId.None?
    ensures Inv(s.(table := CloseRow(s.table, s.geo[vehicleId].openViolationId.value, now), geo := s.geo[vehicleId := next]))
  {
    var ref := s.geo[vehicleId].openViolationId.value;
    assert NameOk(s, vehicleId);
    var t := s.(table := CloseRow(s.table, ref, now), geo := s.geo[vehicleId := next]);
    var e := ViolationClosed(ref.id, vehicleId, s.table.rows[ref.id].zoneId);
    assert t.table.outbox == s.table.outbox || t.table.outbox == s.table.outbox + [e];
    forall i | 0 <= i < |t.table.rows|
      ensures RowOk(t, i)
    {
      assert RowOk(s, i);
      EventCounts(s.table.outbox, e, i);
    }
    forall w | w in t.geo
      ensures NameOk(t, w)
    {
      if w != vehicleId {
        assert NameOk(s, w);
      }
    }
    forall i: nat | i >= |t.table.rows|
      ensures Unused(t, i)
    {
      assert Unused(s, i);
      EventCounts(s.table.outbox, e, i);
    }
  }

  lemma QuietKeepsInv(s: Sys, vehicleId: string, next: D.GeoState)
    requires Inv(s) && next.openViolationId == GeoOf(s.geo, vehicleId).openViolationId
    ensures Inv(s.(geo := s.geo[vehicleId := next]))
  {
    var t := s.(geo := s.geo[vehicleId := next]);
    forall i | 0 <= i < |t.table.rows|
      ensures RowOk(t, i)
    {
      assert RowOk(s, i);
    }
    forall w | w in t.geo
      ensures NameOk(t, w)
    {
      if w in s.geo {
        assert NameOk(s, w);
      }
    }
    forall i: nat | i >= |t.table.rows|
      ensures Unused(t, i)
    {
      assert Unused(s, i);
    }
  }

  lemma LocatedKeepsInv(cfg: Config, s: Sys, vehicleId: string, zoneId: string, p: D.Ping)
    requires Inv(s)
    ensures Inv(Located(cfg, s, vehicleId, zoneId, p))
  {
    var prev := GeoOf(s.geo, vehicleId);
    var (action, next) := D.Decide(cfg.hysteresis, prev, p);
    match action
    case Open(maxDistanceM) => OpenKeepsInv(s, vehicleId, zoneId, p.now, maxDistanceM, next);
    case Close => CloseKeepsInv(s, vehicleId, p.now, next);
    case Nothing => QuietKeepsInv(s, vehicleId, next);
  }

  lemma AuthKeepsInv(s: Sys, auth: Auth)
    requires Inv(s)
    ensures Inv(s.(auth := auth))
  {
    var t := s.(auth := auth);
    forall i | 0 <= i < |t.table.rows|
      ensures RowOk(t, i)
    {
      assert RowOk(s, i);
    }
    forall w | w in t.geo
      ensures NameOk(t, w)
    {
      assert NameOk(s, w);
    }
    forall i: nat | i >= |t.table.rows|
      ensures Unused(t, i)
    {
      assert Unused(s, i);
    }
  }

  lemma StepKeepsInv(cfg: Config, s: Sys, c: Call)
    requires Inv(s)
    ensures Inv(Step(cfg, s, c))
  {
    match c
    case LocationCall(v, paired, distanceM, now, hasPass) =>
      if paired.Some? {
        LocatedKeepsInv(cfg, s, v, paired.value, PingOf(cfg, s, v, distanceM, now, hasPass));
      }
    case RideActiveCall(v) => AuthKeepsInv(s, MarkRideActive(s.auth, v));
    case RideEndedCall(v, at) => AuthKeepsInv(s, MarkRideEnded(s.auth, v, at));
    case AcknowledgeCall(id, adminId) =>
      if Step(cfg, s, c) != s {
        AdminKeepsInv(s, id, s.table.rows[id].(status := Acknowledged, ackBy := Some(adminId)), []);
        assert s.table.outbox + [] == s.table.outbox;
      }
    case ResolveCall(id, note, now) =>
      if Step(cfg, s, c) != s {
        AdminKeepsInv(s, id, Step(cfg, s, c).table.rows[id], []);
        assert s.table.outbox + [] == s.table.outbox;
      }
    case EscalateCall(id) =>
      if id < |s.table.rows| {
        var v := s.table.rows[id];
        AdminKeepsInv(s, id, v.(status := Escalated), [ViolationEscalated(id, v.vehicleId, v.zoneId)]);
      }
  }

  lemma {:induction false} RunKeepsInv(cfg: Config, calls: seq<Call>)
    ensures Inv(Run(cfg, calls))
  {
    if calls == [] {
      forall id: nat
        ensures Unused(Run(cfg, calls), id)
      {
      }
    } else {
      RunKeepsInv(cfg, calls[..|calls| - 1]);
      StepKeepsInv(cfg, Run(cfg, calls[..|calls| - 1]), calls[|calls| - 1]);
    }
  }

  predicate IsOpenFor(rows: seq<Violation>, id: nat, vehicleId: string) {
    id < |rows| && rows[id].status == Open && rows[id].vehicleId == vehicleId
  }

  /** Whatever admins do, a vehicle has at most one open violation, and it is the one its state names. */
  lemma {:induction false} OneOpenViolationAndItIsTracked(cfg: Config, calls: seq<Call>, vehicleId: string, id: nat)
    requires IsOpenFor(Run(cfg, calls).table.rows, id, vehicleId)
    ensures var s := Run(cfg, calls);
      && GeoOf(s.geo, vehicleId).openViolationId == Some(D.Row(id))
      && forall j: nat :: IsOpenFor(s.table.rows, j, vehicleId) ==> j == id
  {
    RunKeepsInv(cfg, calls);
    var s := Run(cfg, calls);
    forall j: nat | IsOpenFor(s.table.rows, j, vehicleId)
      ensures GeoOf(s.geo, vehicleId).openViolationId == Some(D.Row(j))
    {
      assert RowOk(s, j);
    }
    assert GeoOf(s.geo, vehicleId).openViolationId == Some(D.Row(id));
  }

  /** Each violation is detected exactly once and closed by the detector at most once, never while it is open. */
  lemma {:induction false} DetectedOnceClosedAtMostOnce(cfg: Config, calls: seq<Call>, id: nat)
    ensures var t := Run(cfg, calls).table;
      && Sum(t.outbox, DetectedFor(id)) == (if id < |t.rows| then 1 else 0)
      && Sum(t.outbox, ClosedFor(id)) <= (if id < |t.rows| && t.rows[id].status != Open then 1 else 0)
  {
    RunKeepsInv(cfg, calls);
    var s := Run(cfg, calls);
    if id < |s.table.rows| {
      assert RowOk(s, id);
    } else {
      assert Unused(s, id);
    }
  }
}
