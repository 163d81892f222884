/**
 * Every run of the ride service under a clock that never runs back: what a ride's audit rows look
 * like, what its columns say at each stage, which events went out, and who may have an active ride.
 */
module RideLifecycle {
  import opened Wrappers
  import opened Sums
  import opened RideStateMachine
  import opened RideService

  datatype Sys = Sys(now: int, db: Db)

  datatype Timed = Timed(at: int, call: Call)

  /** A call stamped earlier than now does not happen. */
  function Step(cfg: RideConfig, s: Sys, c: Timed): Sys {
    if c.at < s.now then s else Sys(c.at, Perform(cfg, s.db, c.call, c.at).0)
  }

  function Run(cfg: RideConfig, start: int, calls: seq<Timed>): Sys {
    if calls == [] then Sys(start, Db([], [], []))
    else Step(cfg, Run(cfg, start, calls[..|calls| - 1]), calls[|calls| - 1])
  }

  // ------------------------------------------------------------------ reading the audit

  /** A ride's audit rows, in order. */
  function HistoryOf(audit: seq<Row>, id: nat): seq<Row> {
    if audit == [] then []
    else
      var last := audit[|audit| - 1];
      HistoryOf(audit[..|audit| - 1], id) + if last.rideId == id then [last] else []
  }

  /** What the service can do to a ride: a transition it issues, or the driver's cancel at the cap while a driver is attached. */
  ghost predicate Edge(s: Status, t: Status) {
    || (exists a :: a != RetryPayment && Transition(s, a) == Some(t))
    || (t == CancelledByDriver && s !in {Requested, Matching, NoDriverFound})
  }

  /** One connected path that starts null, requested, matching. */
  ghost predicate Path(h: seq<Row>) {
    && |h| >= 2
    && h[0].from == None && h[0].to == Requested
    && h[1].from == Some(Requested) && h[1].to == Matching
    && forall k :: 2 <= k < |h| ==> h[k].from == Some(h[k - 1].to) && Edge(h[k - 1].to, h[k].to)
  }

  /** Rows that return a ride to matching. */
  function ReturnsOf(id: nat): Row -> int {
    (row: Row) => if row.rideId == id && row.to == Matching && row.from != Some(Requested) then 1 else 0
  }

  /** Rows that leave null or a state that is not terminal. */
  function ActiveRowsOf(id: nat): Row -> int {
    (row: Row) => if row.rideId == id && (row.from.None? || !IsTerminal(row.from.value)) then 1 else 0
  }

  function CompletionsOf(id: nat): Row -> int {
    (row: Row) => if row.rideId == id && row.to == Completed then 1 else 0
  }

  // ------------------------------------------------------------------- reading a ride

  function Reached(r: Ride): nat {
    if r.endedAt.Some? then 4 else if r.startedAt.Some? then 3 else if r.arrivedAt.Some? then 2 else if r.assignedAt.Some? then 1 else 0
  }

  /** How many of driver assigned, arrived, started and ended a status has behind it. */
  predicate StageOk(r: Ride) {
    match r.status
    case Requested => false
    case Matching => Reached(r) == 0
    case NoDriverFound => Reached(r) == 0
    case Assigned => Reached(r) == 1
    case Arriving => Reached(r) == 2
    case CancelledNoShow => Reached(r) == 2
    case InProgress => Reached(r) == 3
    case PendingPayment => Reached(r) == 4
    case PaymentFailed => Reached(r) == 4
    case Completed => Reached(r) == 4
    case CancelledByPassenger => Reached(r) <= 2
    case CancelledByDriver => Reached(r) >= 1
  }

  /** Each stage has the ones before it, in time order; the driver is there exactly from the assignment on. */
  predicate InOrder(r: Ride, now: int) {
    && r.requestedAt <= now
    && (r.assignedAt.Some? <==> r.driverId.Some?)
    && (r.driverId.None? ==> r.vehicleId.None?)
    && (r.assignedAt.Some? ==> r.requestedAt <= r.assignedAt.value <= now)
    && (r.arrivedAt.Some? ==> r.assignedAt.Some? && r.assignedAt.value <= r.arrivedAt.value <= now)
    && (r.startedAt.Some? ==> r.arrivedAt.Some? && r.arrivedAt.value <= r.startedAt.value <= now)
    && (r.endedAt.Some? ==>
          && r.startedAt.Some? && r.startedAt.value <= r.endedAt.value <= now
          && r.durationS == Some(RoundedSeconds(r.endedAt.value - r.startedAt.value)))
  }

  // ----------------------------------------------------------------- reading the outbox

  datatype Kind = RequestedKind | AssignedKind | StartedKind | EndedKind | CompletedKind | CancelledKind

  datatype Notice = Notice(rideId: nat, kind: Kind)

  function NoticeOf(e: Event): Notice {
    match e
    case RideRequested(id, _) => Notice(id, RequestedKind)
    case RideAssigned(id, _, _) => Notice(id, AssignedKind)
    case RideStarted(id, _) => Notice(id, StartedKind)
    case RideEnded(id, _, _, _, _) => Notice(id, EndedKind)
    case RideCompleted(id, _, _, _, _, _, _) => Notice(id, CompletedKind)
    case RideCancelled(id, _, _) => Notice(id, CancelledKind)
  }

  function Notices(outbox: seq<Event>): seq<Notice> {
    seq(|outbox|, i requires 0 <= i < |outbox| => NoticeOf(outbox[i]))
  }

  /** What a change of status announces; arriving and a failed payment are not announced. */
  function AnnouncedBy(row: Row): seq<Notice> {
    match row.to
    case Requested => []
    case Matching => [Notice(row.rideId, RequestedKind)]
    case Assigned => [Notice(row.rideId, AssignedKind)]
    case Arriving => []
    case InProgress => [Notice(row.rideId, StartedKind)]
    case PendingPayment => [Notice(row.rideId, EndedKind)]
    case PaymentFailed => []
    case Completed => [Notice(row.rideId, CompletedKind)]
    case CancelledByPassenger => [Notice(row.rideId, CancelledKind)]
    case CancelledByDriver => [Notice(row.rideId, CancelledKind)]
    case CancelledNoShow => [Notice(row.rideId, CancelledKind)]
    case NoDriverFound => [Notice(row.rideId, CancelledKind)]
  }

  function Announced(audit: seq<Row>): seq<Notice> {
    if audit == [] then [] else Announced(audit[..|audit| - 1]) + AnnouncedBy(audit[|audit| - 1])
  }

  function CompletedNotices(id: nat): Notice -> int {
    (n: Notice) => if n == Notice(id, CompletedKind) then 1 else 0
  }

  // ---------------------------------------------------------------------- the invariant

  ghost predicate HistoryOk(audit: seq<Row>, id: nat, r: Ride) {
    var h := HistoryOf(audit, id);
    Path(h) && h[|h| - 1].to == r.status
  }

  predicate CountsOk(cfg: RideConfig, audit: seq<Row>, id: nat, r: Ride) {
    && Sum(audit, ReturnsOf(id)) == r.rematchCount <= cfg.maxAutoRematch
    && Sum(audit, ActiveRowsOf(id)) + Rank(r.status) <= 3 * r.rematchCount + 8
    && Sum(audit, CompletionsOf(id)) <= (if r.status == Completed || r.status == CancelledByDriver then 1 else 0)
  }

  ghost predicate RideOk(cfg: RideConfig, db: Db, id: nat, r: Ride, now: int) {
    HistoryOk(db.audit, id, r) && CountsOk(cfg, db.audit, id, r) && StageOk(r) && InOrder(r, now)
  }

  ghost predicate RidesOk(cfg: RideConfig, db: Db, now: int) {
    forall id {:trigger RideOk(cfg, db, id, db.rides[id], now)} :: 0 <= id < |db.rides| ==> RideOk(cfg, db, id, db.rides[id], now)
  }

  /** All but a passenger's newest ride are over, and the unique indexes hold. */
  predicate TableOk(rides: seq<Ride>) {
    && (forall i, j :: 0 <= i < j < |rides| && rides[i].passengerId == rides[j].passengerId ==> IsTerminal(rides[i].status))
    && (forall i, j :: 0 <= i < j < |rides| ==> !Clash(rides[i], rides[j]))
  }

  predicate NotedOk(db: Db) {
    && (forall k :: 0 <= k < |db.audit| ==> db.audit[k].rideId < |db.rides|)
    && Notices(db.outbox) == Announced(db.audit)
  }

  ghost predicate Inv(cfg: RideConfig, db: Db, now: int) {
    RidesOk(cfg, db, now) && TableOk(db.rides) && NotedOk(db)
  }

  lemma AppendedRow(audit: seq<Row>, row: Row, id: nat)
    ensures HistoryOf(audit + [row], id) == HistoryOf(audit, id) + if row.rideId == id then [row] else []
    ensures Sum(audit + [row], ReturnsOf(id)) == Sum(audit, ReturnsOf(id)) + ReturnsOf(id)(row)
    ensures Sum(audit + [row], ActiveRowsOf(id)) == Sum(audit, ActiveRowsOf(id)) + ActiveRowsOf(id)(row)
    ensures Sum(audit + [row], CompletionsOf(id)) == Sum(audit, CompletionsOf(id)) + CompletionsOf(id)(row)
    ensures Announced(audit + [row]) == Announced(audit) + AnnouncedBy(row)
  {
    assert (audit + [row])[..|audit|] == audit;
    SumSnoc(audit, row, ReturnsOf(id));
    SumSnoc(audit, row, ActiveRowsOf(id));
    SumSnoc(audit, row, CompletionsOf(id));
  }

  lemma PathGrows(h: seq<Row>, row: Row)
    requires Path(h) && row.from == Some(h[|h| - 1].to) && Edge(h[|h| - 1].to, row.to)
    ensures Path(h + [row])
  {
    var g := h + [row];
    forall k | 2 <= k < |g|
      ensures g[k].from == Some(g[k - 1].to) && Edge(g[k - 1].to, g[k].to)
    {
    }
  }

  /** An edge goes down the ranks, unless it returns to matching, which costs at most two. */
  lemma EdgesGoDown(s: Status, t: Status)
    requires Edge(s, t) && s != Requested
    ensures t == Matching ==> !IsTerminal(s) && Rank(t) <= Rank(s) + 2
    ensures t != Matching && !IsTerminal(s) ==> Rank(t) < Rank(s)
    ensures IsTerminal(s) ==> t == CancelledByDriver
    ensures t == Completed ==> s == PendingPayment || s == PaymentFailed
  {
    if exists a :: a != RetryPayment && Transition(s, a) == Some(t) {
      var a :| a != RetryPayment && Transition(s, a) == Some(t);
      TransitionsGoDownTheRanks(s, a);
    }
  }

  /** What a call makes of a ride's row when it moves it. */
  ghost predicate Moves(cfg: RideConfig, r: Ride, next: Ride, now: int) {
    && Edge(r.status, next.status) && next.passengerId == r.passengerId
    && next.rematchCount == r.rematchCount + (if next.status == Matching then 1 else 0)
    && next.rematchCount <= cfg.maxAutoRematch
    && StageOk(next) && InOrder(next, now)
  }

  lemma MovedRideOk(cfg: RideConfig, db: Db, id: nat, next: Ride, row: Row, now: int)
    requires id < |db.rides| && RideOk(cfg, db, id, db.rides[id], now) && Moves(cfg, db.rides[id], next, now)
    requires row.rideId == id && row.from == Some(db.rides[id].status) && row.to == next.status
    ensures HistoryOk(db.audit + [row], id, next) && CountsOk(cfg, db.audit + [row], id, next)
  {
    AppendedRow(db.audit, row, id);
    PathGrows(HistoryOf(db.audit, id), row);
    EdgesGoDown(db.rides[id].status, next.status);
  }

  lemma OtherRideOk(cfg: RideConfig, audit: seq<Row>, id: nat, r: Ride, row: Row)
    requires HistoryOk(audit, id, r) && CountsOk(cfg, audit, id, r) && row.rideId != id
    ensures HistoryOk(audit + [row], id, r) && CountsOk(cfg, audit + [row], id, r)
  {
    AppendedRow(audit, row, id);
    assert HistoryOf(audit + [row], id) == HistoryOf(audit, id);
  }

  lemma SavedRidesOk(cfg: RideConfig, db: Db, d: Db, id: nat, next: Ride, row: Row, now: int)
    requires RidesOk(cfg, db, now) && id < |db.rides| && Moves(cfg, db.rides[id], next, now)
    requires row.rideId == id && row.from == Some(db.rides[id].status) && row.to == next.status
    requires d.rides == db.rides[id := next] && d.audit == db.audit + [row]
    ensures RidesOk(cfg, d, now)
  {
    forall i | 0 <= i < |d.rides|
      ensures RideOk(cfg, d, i, d.rides[i], now)
    {
      assert RideOk(cfg, db, i, db.rides[i], now);
      if i == id {
        MovedRideOk(cfg, db, id, next, row, now);
      } else {
        OtherRideOk(cfg, db.audit, i, db.rides[i], row);
      }
    }
  }

  lemma SavedTableOk(rides: seq<Ride>, id: nat, next: Ride)
    requires TableOk(rides) && id < |rides| && !Violates(rides, id, next)
    requires next.passengerId == rides[id].passengerId && (IsTerminal(rides[id].status) ==> IsTerminal(next.status))
    ensures TableOk(rides[id := next])
  {
    var t := rides[id := next];
    forall i, j | 0 <= i < j < |t|
      ensures !Clash(t[i], t[j])
    {
      assert !Clash(rides[i], rides[j]);
      assert i != id ==> !Clash(rides[i], next);
      assert j != id ==> !Clash(rides[j], next);
    }
  }

  lemma NotedAppends(db: Db, d: Db, row: Row, events: seq<Event>)
    requires NotedOk(db) && |db.rides| <= |d.rides| && row.rideId < |d.rides|
    requires d.audit == db.audit + [row] && d.outbox == db.outbox + events && Notices(events) == AnnouncedBy(row)
    ensures NotedOk(d)
  {
    AppendedRow(db.audit, row, row.rideId);
    assert Notices(d.outbox) == Notices(db.outbox) + Notices(events);
  }

  lemma SaveKeepsInv(cfg: RideConfig, db: Db, id: nat, next: Ride, actor: Actor, actorId: Option<string>, events: seq<Event>, now: int)
    requires Inv(cfg, db, now) && id < |db.rides| && Moves(cfg, db.rides[id], next, now)
    requires Notices(events) == AnnouncedBy(Row(id, Some(db.rides[id].status), next.status, actor, actorId))
    ensures Inv(cfg, Save(db, id, next, actor, actorId, events).0, now)
  {
    if !Violates(db.rides, id, next) {
      var row := Row(id, Some(db.rides[id].status), next.status, actor, actorId);
      var d := Db(db.rides[id := next], db.audit + [row], db.outbox + events);
      assert RideOk(cfg, db, id, db.rides[id], now);
      EdgesGoDown(db.rides[id].status, next.status);
      SavedRidesOk(cfg, db, d, id, next, row, now);
      SavedTableOk(db.rides, id, next);
      NotedAppends(db, d, row, events);
    }
  }

  lemma FirstRows(audit: seq<Row>, id: nat, a: Row, b: Row)
    requires forall k :: 0 <= k < |audit| ==> audit[k].rideId < id
    requires a == Row(id, None, Requested, a.actor, a.actorId) && b == Row(id, Some(Requested), Matching, b.actor, b.actorId)
    ensures var t := audit + [a] + [b];
      && HistoryOf(t, id) == [a, b] && Sum(t, ReturnsOf(id)) == 0 && Sum(t, ActiveRowsOf(id)) == 2 && Sum(t, CompletionsOf(id)) == 0
  {
    AppendedRow(audit, a, id);
    AppendedRow(audit + [a], b, id);
    NoRowsYet(audit, id);
    SumOfEqual(audit, ReturnsOf(id), 0);
    SumOfEqual(audit, ActiveRowsOf(id), 0);
    SumOfEqual(audit, CompletionsOf(id), 0);
  }

  lemma {:induction false} NoRowsYet(audit: seq<Row>, id: nat)
    requires forall k :: 0 <= k < |audit| ==> audit[k].rideId < id
    ensures HistoryOf(audit, id) == []
  {
    if audit != [] {
      NoRowsYet(audit[..|audit| - 1], id);
    }
  }

  lemma NewRidesOk(cfg: RideConfig, db: Db, d: Db, r: Ride, a: Row, b: Row, now: int)
    requires RidesOk(cfg, db, now) && NotedOk(db) && r == NewRide(r.passengerId, now)
    requires var id := |db.rides|; a == Row(id, None, Requested, a.actor, a.actorId) && b == Row(id, Some(Requested), Matching, b.actor, b.actorId)
    requires d.rides == db.rides + [r] && d.audit == db.audit + [a] + [b]
    ensures RidesOk(cfg, d, now)
  {
    var id := |db.rides|;
    FirstRows(db.audit, id, a, b);
    forall i | 0 <= i < |d.rides|
      ensures RideOk(cfg, d, i, d.rides[i], now)
    {
      if i < id {
        assert RideOk(cfg, db, i, db.rides[i], now);
        OtherRideOk(cfg, db.audit, i, db.rides[i], a);
        OtherRideOk(cfg, db.audit + [a], i, db.rides[i], b);
      }
    }
  }

  lemma NewTableOk(rides: seq<Ride>, r: Ride)
    requires TableOk(rides) && !Violates(rides, |rides|, r)
    requires forall i :: 0 <= i < |rides| && rides[i].passengerId == r.passengerId ==> IsTerminal(rides[i].status)
    ensures TableOk(rides + [r])
  {
    var t := rides + [r];
    forall i, j | 0 <= i < j < |t|
      ensures !Clash(t[i], t[j])
    {
      if j == |rides| {
        assert !Clash(rides[i], r);
      } else {
        assert !Clash(rides[i], rides[j]);
      }
    }
  }

  lemma RequestKeepsInv(cfg: RideConfig, db: Db, passengerId: string, now: int)
    requires Inv(cfg, db, now)
    ensures Inv(cfg, RequestRide(db, passengerId, now).0, now)
  {
    var (d, reply) := RequestRide(db, passengerId, now);
    if reply.Ok? {
      var id, r := |db.rides|, NewRide(passengerId, now);
      var a, b := Row(id, None, Requested, ByPassenger, Some(passengerId)), Row(id, Some(Requested), Matching, BySystem, None);
      assert d.audit == db.audit + [a] + [b] && d.outbox == db.outbox + [] + [RideRequested(id, passengerId)];
      NewRidesOk(cfg, db, d, r, a, b, now);
      NewestIsTheOneToCheck(db.rides, passengerId);
      NewTableOk(db.rides, r);
      NotedAppends(db, Db(d.rides, db.audit + [a], db.outbox + []), a, []);
      NotedAppends(Db(d.rides, db.audit + [a], db.outbox + []), d, b, [RideRequested(id, passengerId)]);
    }
  }

  /** Looking at the newest ride is enough: if it is terminal, all the passenger's rides are. */
  lemma NewestIsTheOneToCheck(rides: seq<Ride>, passengerId: string)
    requires TableOk(rides)
    ensures var n := Newest(rides, passengerId);
      (n.Some? ==> n.value < |rides|)
      && ((n.None? || IsTerminal(rides[n.value].status)) <==>
          forall i :: 0 <= i < |rides| && rides[i].passengerId == passengerId ==> IsTerminal(rides[i].status))
  {
    NewestIsLast(rides, passengerId);
  }

  /** What the invariant says of one row's columns. */
  lemma RowIsOk(cfg: RideConfig, db: Db, id: nat, now: int)
    requires Inv(cfg, db, now) && id < |db.rides|
    ensures StageOk(db.rides[id]) && InOrder(db.rides[id], now) && db.rides[id].rematchCount <= cfg.maxAutoRematch
  {
    assert RideOk(cfg, db, id, db.rides[id], now);
  }

  /** The columns an action leaves fit the status it leads to, if it is legal at all. */
  predicate Fits(cfg: RideConfig, r: Ride, action: RideAction, changed: Ride, now: int) {
    var to := Transition(r.status, action);
    to.Some? ==>
      var next := changed.(status := to.value);
      && next.passengerId == r.passengerId
      && next.rematchCount == r.rematchCount + (if to.value == Matching then 1 else 0)
      && next.rematchCount <= cfg.maxAutoRematch
      && StageOk(next) && InOrder(next, now)
  }

  predicate Tells(id: nat, r: Ride, action: RideAction, events: seq<Event>) {
    var to := Transition(r.status, action);
    to.Some? ==> Notices(events) == AnnouncedBy(Row(id, Some(r.status), to.value, BySystem, None))
  }

  lemma ApplyKeepsInv(cfg: RideConfig, db: Db, id: nat, action: RideAction, changed: Ride, actor: Actor, actorId: Option<string>, events: seq<Event>, now: int)
    requires Inv(cfg, db, now) && id < |db.rides| && action != RetryPayment
    requires Fits(cfg, db.rides[id], action, changed, now) && Tells(id, db.rides[id], action, events)
    ensures Inv(cfg, Apply(db, id, action, changed, actor, actorId, events).0, now)
  {
    var to := Transition(db.rides[id].status, action);
    if to.Some? {
      assert Edge(db.rides[id].status, to.value);
      SaveKeepsInv(cfg, db, id, changed.(status := to.value), actor, actorId, events, now);
    }
  }

  lemma LateCancelKeepsInv(cfg: RideConfig, db: Db, id: nat, driverId: string, reason: string, now: int)
    requires Inv(cfg, db, now) && DriverCheck(db, id, driverId).None? && db.rides[id].rematchCount >= cfg.maxAutoRematch
    ensures Inv(cfg, CancelByDriver(cfg, db, id, driverId, reason).0, now)
  {
    var next := db.rides[id].(status := CancelledByDriver, cancelReason := Some(reason));
    RowIsOk(cfg, db, id, now);
    LateCancelMoves(cfg, db.rides[id], next, now);
    SaveKeepsInv(cfg, db, id, next, ByDriver, Some(driverId), [RideCancelled(id, ByDriver, reason)], now);
  }

  function Rematched(r: Ride): Ride {
    r.(driverId := None, vehicleId := None, assignedAt := None, arrivedAt := None, rematchCount := r.rematchCount + 1)
  }

  lemma RematchFits(cfg: RideConfig, r: Ride, now: int)
    requires StageOk(r) && InOrder(r, now) && r.rematchCount < cfg.maxAutoRematch
    ensures Fits(cfg, r, DriverCancel, Rematched(r), now)
  {
  }

  lemma RematchKeepsInv(cfg: RideConfig, db: Db, id: nat, driverId: string, reason: string, now: int)
    requires Inv(cfg, db, now) && DriverCheck(db, id, driverId).None? && db.rides[id].rematchCount < cfg.maxAutoRematch
    ensures Inv(cfg, CancelByDriver(cfg, db, id, driverId, reason).0, now)
  {
    var r := db.rides[id];
    RowIsOk(cfg, db, id, now);
    RematchFits(cfg, r, now);
    RematchTells(id, r);
    ApplyKeepsInv(cfg, db, id, DriverCancel, Rematched(r), ByDriver, Some(driverId), [RideRequested(id, r.passengerId)], now);
    RematchIsApply(cfg, db, id, driverId, reason);
  }

  lemma RematchTells(id: nat, r: Ride)
    ensures Tells(id, r, DriverCancel, [RideRequested(id, r.passengerId)])
  {
  }

  lemma RematchIsApply(cfg: RideConfig, db: Db, id: nat, driverId: string, reason: string)
    requires DriverCheck(db, id, driverId).None? && db.rides[id].rematchCount < cfg.maxAutoRematch
    ensures CancelByDriver(cfg, db, id, driverId, reason)
         == Apply(db, id, DriverCancel, Rematched(db.rides[id]), ByDriver, Some(driverId), [RideRequested(id, db.rides[id].passengerId)])
  {
  }

  lemma CancelKeepsInv(cfg: RideConfig, db: Db, id: nat, driverId: string, reason: string, now: int)
    requires Inv(cfg, db, now)
    ensures Inv(cfg, CancelByDriver(cfg, db, id, driverId, reason).0, now)
  {
    if DriverCheck(db, id, driverId).Some? {
      assert CancelByDriver(cfg, db, id, driverId, reason).0 == db;
    } else if db.rides[id].rematchCount >= cfg.maxAutoRematch {
      LateCancelKeepsInv(cfg, db, id, driverId, reason, now);
    } else {
      RematchKeepsInv(cfg, db, id, driverId, reason, now);
    }
  }

  lemma LateCancelMoves(cfg: RideConfig, r: Ride, next: Ride, now: int)
    requires StageOk(r) && InOrder(r, now) && r.driverId.Some? && r.rematchCount <= cfg.maxAutoRematch
    requires next == r.(status := CancelledByDriver, cancelReason := next.cancelReason)
    ensures Moves(cfg, r, next, now)
  {
  }

  lemma ArriveKeepsInv(cfg: RideConfig, db: Db, id: nat, driverId: string, now: int)
    requires Inv(cfg, db, now)
    ensures Inv(cfg, MarkArrived(db, id, driverId, now).0, now)
  {
    if DriverCheck(db, id, driverId).None? {
      var r := db.rides[id];
      RowIsOk(cfg, db, id, now);
      ApplyKeepsInv(cfg, db, id, Arrive, r.(arrivedAt := Some(now)), ByDriver, Some(driverId), [], now);
    }
  }

  lemma StartKeepsInv(cfg: RideConfig, db: Db, id: nat, driverId: string, dist: real, now: int)
    requires Inv(cfg, db, now)
    ensures Inv(cfg, StartRide(cfg, db, id, driverId, dist, now).0, now)
  {
    if DriverCheck(db, id, driverId).None? {
      var r := db.rides[id];
      RowIsOk(cfg, db, id, now);
      ApplyKeepsInv(cfg, db, id, Start, r.(startedAt := Some(now)), ByDriver, Some(driverId), [RideStarted(id, r.vehicleId)], now);
    }
  }

  lemma EndKeepsInv(cfg: RideConfig, db: Db, id: nat, driverId: string, now: int)
    requires Inv(cfg, db, now)
    ensures Inv(cfg, EndRide(db, id, driverId, now).0, now)
  {
    if DriverCheck(db, id, driverId).None? {
      var r := db.rides[id];
      RowIsOk(cfg, db, id, now);
      var durationS := if r.startedAt.Some? then RoundedSeconds(now - r.startedAt.value) else 0;
      ApplyKeepsInv(cfg, db, id, End, r.(endedAt := Some(now), durationS := Some(durationS)), ByDriver, Some(driverId),
                    [RideEnded(id, r.vehicleId, r.startedAt, now, durationS)], now);
    }
  }

  lemma NoShowKeepsInv(cfg: RideConfig, db: Db, id: nat, driverId: string, dist: real, now: int)
    requires Inv(cfg, db, now)
    ensures Inv(cfg, ReportNoShow(cfg, db, id, driverId, dist, now).0, now)
  {
    if DriverCheck(db, id, driverId).None? {
      var r := db.rides[id];
      RowIsOk(cfg, db, id, now);
      ApplyKeepsInv(cfg, db, id, NoShow, r.(cancelReason := Some("passenger_no_show")), ByDriver, Some(driverId),
                    [RideCancelled(id, BySystem, "no_show")], now);
    }
  }

  lemma ExhaustedKeepsInv(cfg: RideConfig, db: Db, id: nat, now: int)
    requires Inv(cfg, db, now)
    ensures Inv(cfg, OnDispatchExhausted(db, id).0, now)
  {
    if id < |db.rides| {
      RowIsOk(cfg, db, id, now);
      ApplyKeepsInv(cfg, db, id, Exhausted, db.rides[id], BySystem, None, [RideCancelled(id, BySystem, "no_driver_found")], now);
    }
  }

  lemma PaidKeepsInv(cfg: RideConfig, db: Db, id: nat, paymentMethod: string, now: int)
    requires Inv(cfg, db, now)
    ensures Inv(cfg, OnPaymentCompleted(db, id, paymentMethod).0, now)
  {
    if id < |db.rides| {
      var r := db.rides[id];
      RowIsOk(cfg, db, id, now);
      ApplyKeepsInv(cfg, db, id, PaymentSuccess, r.(paymentMethod := Some(paymentMethod)), BySystem, None,
                    [RideCompleted(id, r.passengerId, r.driverId, r.distanceM, r.durationS, r.farePaisa, paymentMethod)], now);
    }
  }

  lemma UnpaidKeepsInv(cfg: RideConfig, db: Db, id: nat, now: int)
    requires Inv(cfg, db, now)
    ensures Inv(cfg, OnPaymentFailed(db, id).0, now)
  {
    if id < |db.rides| {
      RowIsOk(cfg, db, id, now);
      ApplyKeepsInv(cfg, db, id, FailPayment, db.rides[id], BySystem, None, [], now);
    }
  }

  lemma PassengerCancelKeepsInv(cfg: RideConfig, db: Db, id: nat, passengerId: string, reason: string, now: int)
    requires Inv(cfg, db, now)
    ensures Inv(cfg, CancelByPassenger(db, id, passengerId, reason).0, now)
  {
    if id < |db.rides| {
      RowIsOk(cfg, db, id, now);
      ApplyKeepsInv(cfg, db, id, PassengerCancel, db.rides[id].(cancelReason := Some(reason)), ByPassenger, Some(passengerId),
                    [RideCancelled(id, ByPassenger, reason)], now);
    }
  }

  lemma AcceptKeepsInv(cfg: RideConfig, db: Db, id: nat, driverId: string, claim: ClaimReply, now: int)
    requires Inv(cfg, db, now)
    ensures Inv(cfg, Accept(db, id, driverId, claim, now).0, now)
  {
    if id < |db.rides| && claim.Won? {
      RowIsOk(cfg, db, id, now);
      ApplyKeepsInv(cfg, db, id, Assign, db.rides[id].(driverId := Some(driverId), vehicleId := claim.vehicleId, assignedAt := Some(now)),
                    ByDriver, Some(driverId), [RideAssigned(id, driverId, claim.vehicleId)], now);
    }
  }

  lemma FareKeepsInv(cfg: RideConfig, db: Db, id: nat, fare: int, version: int, distanceM: Option<real>, now: int)
    requires Inv(cfg, db, now)
    ensures Inv(cfg, OnFareCalculated(db, id, fare, version, distanceM).0, now)
  {
    if id < |db.rides| {
      var d := OnFareCalculated(db, id, fare, version, distanceM).0;
      FareLeavesTable(db.rides, id, d.rides[id]);
      forall i | 0 <= i < |d.rides|
        ensures RideOk(cfg, d, i, d.rides[i], now)
      {
        assert RideOk(cfg, db, i, db.rides[i], now);
      }
    }
  }

  lemma FareLeavesTable(rides: seq<Ride>, id: nat, next: Ride)
    requires TableOk(rides) && id < |rides|
    requires next.passengerId == rides[id].passengerId && next.driverId == rides[id].driverId && next.status == rides[id].status
    ensures TableOk(rides[id := next])
  {
    var t := rides[id := next];
    forall i, j | 0 <= i < j < |t|
      ensures !Clash(t[i], t[j])
    {
      assert !Clash(rides[i], rides[j]);
    }
  }

  lemma PerformKeepsInv(cfg: RideConfig, db: Db, call: Call, now: int)
    requires Inv(cfg, db, now)
    ensures Inv(cfg, Perform(cfg, db, call, now).0, now)
  {
    match call
    case RequestCall(p) => RequestKeepsInv(cfg, db, p, now);
    case PassengerCancelCall(id, p, reason) => PassengerCancelKeepsInv(cfg, db, id, p, reason, now);
    case AcceptCall(id, d, claim) => AcceptKeepsInv(cfg, db, id, d, claim, now);
    case ArrivedCall(id, d) => ArriveKeepsInv(cfg, db, id, d, now);
    case StartCall(id, d, dist) => StartKeepsInv(cfg, db, id, d, dist, now);
    case EndCall(id, d) => EndKeepsInv(cfg, db, id, d, now);
    case NoShowCall(id, d, dist) => NoShowKeepsInv(cfg, db, id, d, dist, now);
    case DriverCancelCall(id, d, reason) => CancelKeepsInv(cfg, db, id, d, reason, now);
    case DispatchExhaustedCall(id) => ExhaustedKeepsInv(cfg, db, id, now);
    case FareCalculatedCall(id, fare, version, distance) => FareKeepsInv(cfg, db, id, fare, version, distance, now);
    case PaymentCompletedCall(id, m) => PaidKeepsInv(cfg, db, id, m, now);
    case PaymentFailedCall(id) => UnpaidKeepsInv(cfg, db, id, now);
  }

  lemma ClockKeepsInv(cfg: RideConfig, db: Db, now: int, later: int)
    requires Inv(cfg, db, now) && now <= later
    ensures Inv(cfg, db, later)
  {
    forall id | 0 <= id < |db.rides|
      ensures RideOk(cfg, db, id, db.rides[id], later)
    {
      assert RideOk(cfg, db, id, db.rides[id], now);
    }
  }

  lemma {:induction false} RunKeepsInv(cfg: RideConfig, start: int, calls: seq<Timed>)
    ensures var s := Run(cfg, start, calls); Inv(cfg, s.db, s.now)
  {
    if calls != [] {
      var s, c := Run(cfg, start, calls[..|calls| - 1]), calls[|calls| - 1];
      RunKeepsInv(cfg, start, calls[..|calls| - 1]);
      if c.at >= s.now {
        ClockKeepsInv(cfg, s.db, s.now, c.at);
        PerformKeepsInv(cfg, s.db, c.call, c.at);
      }
    }
  }

  // ------------------------------------------------------------------------ main results

  lemma {:induction false} RideIsOk(cfg: RideConfig, start: int, calls: seq<Timed>, id: nat)
    requires id < |Run(cfg, start, calls).db.rides|
    ensures var s := Run(cfg, start, calls); RideOk(cfg, s.db, id, s.db.rides[id], s.now)
  {
    RunKeepsInv(cfg, start, calls);
  }

  lemma OkRideHasPath(cfg: RideConfig, db: Db, id: nat, now: int)
    requires id < |db.rides| && RideOk(cfg, db, id, db.rides[id], now)
    ensures var h := HistoryOf(db.audit, id);
      && Path(h) && h[|h| - 1].to == db.rides[id].status
      && db.rides[id].rematchCount == Sum(db.audit, ReturnsOf(id)) <= cfg.maxAutoRematch
  {
  }

  /**
   * A ride's audit rows are one path null, requested, matching, ... to its status; rematchCount counts
   * the returns to matching and stays within the cap.
   */
  lemma {:induction false} AuditIsOnePath(cfg: RideConfig, start: int, calls: seq<Timed>, id: nat)
    requires id < |Run(cfg, start, calls).db.rides|
    ensures var db := Run(cfg, start, calls).db;
      var h := HistoryOf(db.audit, id);
      && Path(h) && h[|h| - 1].to == db.rides[id].status
      && db.rides[id].rematchCount == Sum(db.audit, ReturnsOf(id)) <= cfg.maxAutoRematch
  {
    RideIsOk(cfg, start, calls, id);
    var s := Run(cfg, start, calls);
    OkRideHasPath(cfg, s.db, id, s.now);
  }

  /** A status tells which of driver, assigned, arrived, started and ended are set; those that are set are in time order. */
  lemma {:induction false} ColumnsFollowStatus(cfg: RideConfig, start: int, calls: seq<Timed>, id: nat)
    requires id < |Run(cfg, start, calls).db.rides|
    ensures var s := Run(cfg, start, calls); StageOk(s.db.rides[id]) && InOrder(s.db.rides[id], s.now)
  {
    RideIsOk(cfg, start, calls, id);
  }

  /** However it is called, the service writes a bounded number of rows that leave null or an active state. */
  lemma {:induction false} ActiveRowsAreBounded(cfg: RideConfig, start: int, calls: seq<Timed>, id: nat)
    ensures Sum(Run(cfg, start, calls).db.audit, ActiveRowsOf(id)) <= 3 * cfg.maxAutoRematch + 8
  {
    RunKeepsInv(cfg, start, calls);
    var s := Run(cfg, start, calls);
    if id < |s.db.rides| {
      assert RideOk(cfg, s.db, id, s.db.rides[id], s.now);
    } else {
      SumOfEqual(s.db.audit, ActiveRowsOf(id), 0);
    }
  }

  lemma SingleNotice(n: Notice, id: nat)
    ensures Sum([n], CompletedNotices(id)) == CompletedNotices(id)(n)
  {
    SumSnoc([], n, CompletedNotices(id));
    assert [] + [n] == [n];
  }

  lemma RowNotesCompletion(row: Row, id: nat)
    ensures Sum(AnnouncedBy(row), CompletedNotices(id)) == CompletionsOf(id)(row)
  {
    if AnnouncedBy(row) != [] {
      SingleNotice(AnnouncedBy(row)[0], id);
    }
  }

  lemma {:induction false} CompletionsAreNoted(audit: seq<Row>, id: nat)
    ensures Sum(Announced(audit), CompletedNotices(id)) == Sum(audit, CompletionsOf(id))
  {
    if audit != [] {
      var init, row := audit[..|audit| - 1], audit[|audit| - 1];
      CompletionsAreNoted(init, id);
      SumAppend(Announced(init), AnnouncedBy(row), CompletedNotices(id));
      RowNotesCompletion(row, id);
    }
  }

  /** The outbox is exactly what the audit rows announce, in their order; a ride announces its completion at most once. */
  lemma {:induction false} OutboxAnnouncesTheAudit(cfg: RideConfig, start: int, calls: seq<Timed>, id: nat)
    ensures var db := Run(cfg, start, calls).db;
      && Notices(db.outbox) == Announced(db.audit)
      && Sum(Notices(db.outbox), CompletedNotices(id)) <= 1
  {
    RunKeepsInv(cfg, start, calls);
    var s := Run(cfg, start, calls);
    CompletionsAreNoted(s.db.audit, id);
    if id < |s.db.rides| {
      assert RideOk(cfg, s.db, id, s.db.rides[id], s.now);
    } else {
      SumOfEqual(s.db.audit, CompletionsOf(id), 0);
    }
  }

  /** A ride of the passenger that is not over. */
  predicate IsActiveRide(rides: seq<Ride>, i: nat, passengerId: string) {
    i < |rides| && rides[i].passengerId == passengerId && !IsTerminal(rides[i].status)
  }

  /** Of a passenger's rides only the newest can be active, so a look at the newest is as good as a look at all. */
  lemma {:induction false} OnlyNewestRideIsActive(cfg: RideConfig, start: int, calls: seq<Timed>, passengerId: string)
    ensures var rides := Run(cfg, start, calls).db.rides;
      var n := Newest(rides, passengerId);
      && (forall i: nat :: IsActiveRide(rides, i, passengerId) ==> n == Some(i))
      && ((n.Some? && IsActiveRide(rides, n.value, passengerId)) <==> exists i: nat :: IsActiveRide(rides, i, passengerId))
  {
    RunKeepsInv(cfg, start, calls);
    NewestAloneIsActive(Run(cfg, start, calls).db.rides, passengerId);
  }

  lemma NewestAloneIsActive(rides: seq<Ride>, passengerId: string)
    requires TableOk(rides)
    ensures forall i: nat :: IsActiveRide(rides, i, passengerId) ==> Newest(rides, passengerId) == Some(i)
  {
    NewestIsLast(rides, passengerId);
    var n := Newest(rides, passengerId);
    assert n.Some? ==> forall i :: 0 <= i < n.value && rides[i].passengerId == rides[n.value].passengerId ==> IsTerminal(rides[i].status);
  }

  predicate DriverIsBusy(rides: seq<Ride>, except: nat, driverId: string) {
    exists i :: 0 <= i < |rides| && i != except && rides[i].driverId == Some(driverId) && HoldsDriver(rides[i].status)
  }

  /** A row that keeps its passenger and takes up no index it did not take up before clashes with nobody. */
  lemma OldClaimsDoNotClash(rides: seq<Ride>, id: nat, next: Ride)
    requires TableOk(rides) && id < |rides| && next.passengerId == rides[id].passengerId
    requires IsTerminal(rides[id].status) ==> IsTerminal(next.status)
    requires HoldsDriver(next.status) && next.driverId.Some? ==> next.driverId == rides[id].driverId && HoldsDriver(rides[id].status)
    ensures !Violates(rides, id, next)
  {
    forall i | 0 <= i < |rides| && i != id
      ensures !Clash(rides[i], next)
    {
      if i < id {
        assert !Clash(rides[i], rides[id]);
      } else {
        assert !Clash(rides[id], rides[i]);
      }
    }
  }

  lemma ApplyNeverClashes(db: Db, id: nat, action: RideAction, changed: Ride, actor: Actor, actorId: Option<string>, events: seq<Event>)
    requires TableOk(db.rides) && id < |db.rides| && action != Assign
    requires changed.passengerId == db.rides[id].passengerId && changed.driverId in {None, db.rides[id].driverId}
    ensures Apply(db, id, action, changed, actor, actorId, events).1 != Err(UniqueViolation)
  {
    var to := Transition(db.rides[id].status, action);
    if to.Some? {
      OldClaimsDoNotClash(db.rides, id, changed.(status := to.value));
    }
  }

  lemma DriverCallsNeverClash(cfg: RideConfig, db: Db, call: Call, now: int)
    requires TableOk(db.rides)
    requires call.ArrivedCall? || call.StartCall? || call.EndCall? || call.NoShowCall? || call.DriverCancelCall?
    ensures Perform(cfg, db, call, now).1 != Err(UniqueViolation)
  {
    var id, driverId := call.rideId, call.driverId;
    if DriverCheck(db, id, driverId).None? {
      var r, d := db.rides[id], Some(driverId);
      match call
      case ArrivedCall(_, _) => ApplyNeverClashes(db, id, Arrive, r.(arrivedAt := Some(now)), ByDriver, d, []);
      case StartCall(_, _, dist) => ApplyNeverClashes(db, id, Start, r.(startedAt := Some(now)), ByDriver, d, [RideStarted(id, r.vehicleId)]);
      case EndCall(_, _) =>
        var durationS := if r.startedAt.Some? then RoundedSeconds(now - r.startedAt.value) else 0;
        ApplyNeverClashes(db, id, End, r.(endedAt := Some(now), durationS := Some(durationS)), ByDriver, d,
                          [RideEnded(id, r.vehicleId, r.startedAt, now, durationS)]);
      case NoShowCall(_, _, dist) =>
        ApplyNeverClashes(db, id, NoShow, r.(cancelReason := Some("passenger_no_show")), ByDriver, d, [RideCancelled(id, BySystem, "no_show")]);
      case DriverCancelCall(_, _, reason) =>
        OldClaimsDoNotClash(db.rides, id, r.(status := CancelledByDriver, cancelReason := Some(reason)));
        ApplyNeverClashes(db, id, DriverCancel,
                          r.(driverId := None, vehicleId := None, assignedAt := None, arrivedAt := None, rematchCount := r.rematchCount + 1),
                          ByDriver, d, [RideRequested(id, r.passengerId)]);
    }
  }

  lemma OtherCallsNeverClash(cfg: RideConfig, db: Db, call: Call, now: int)
    requires TableOk(db.rides)
    requires call.PassengerCancelCall? || call.DispatchExhaustedCall? || call.FareCalculatedCall? || call.PaymentCompletedCall? || call.PaymentFailedCall?
    ensures Perform(cfg, db, call, now).1 != Err(UniqueViolation)
  {
    var id := call.rideId;
    if id < |db.rides| {
      var r := db.rides[id];
      match call
      case PassengerCancelCall(_, p, reason) =>
        ApplyNeverClashes(db, id, PassengerCancel, r.(cancelReason := Some(reason)), ByPassenger, Some(p), [RideCancelled(id, ByPassenger, reason)]);
      case DispatchExhaustedCall(_) =>
        ApplyNeverClashes(db, id, Exhausted, r, BySystem, None, [RideCancelled(id, BySystem, "no_driver_found")]);
      case FareCalculatedCall(_, _, _, _) =>
      case PaymentCompletedCall(_, m) =>
        ApplyNeverClashes(db, id, PaymentSuccess, r.(paymentMethod := Some(m)), BySystem, None,
                          [RideCompleted(id, r.passengerId, r.driverId, r.distanceM, r.durationS, r.farePaisa, m)]);
      case PaymentFailedCall(_) => ApplyNeverClashes(db, id, FailPayment, r, BySystem, None, []);
    }
  }

  lemma AcceptClashesForBusyDrivers(cfg: RideConfig, db: Db, id: nat, driverId: string, claim: ClaimReply, now: int)
    requires TableOk(db.rides)
    ensures Accept(db, id, driverId, claim, now).1 == Err(UniqueViolation) <==>
      id < |db.rides| && db.rides[id].status == Matching && claim.Won? && DriverIsBusy(db.rides, id, driverId)
  {
    if id < |db.rides| && db.rides[id].status == Matching && claim.Won? {
      var r := db.rides[id];
      var next := r.(driverId := Some(driverId), vehicleId := claim.vehicleId, assignedAt := Some(now), status := Assigned);
      forall i | 0 <= i < |db.rides| && i != id
        ensures Clash(db.rides[i], next) <==> db.rides[i].driverId == Some(driverId) && HoldsDriver(db.rides[i].status)
      {
        if i < id {
          assert !Clash(db.rides[i], r);
        } else {
          assert !Clash(r, db.rides[i]);
        }
      }
    }
  }

  /** The indexes refuse one call only: accepting for a driver who is on another ride. The passenger index never fires. */
  lemma {:induction false} IndexesRefuseOnlyBusyDrivers(cfg: RideConfig, start: int, calls: seq<Timed>, call: Call, at: int)
    ensures var db := Run(cfg, start, calls).db;
      Perform(cfg, db, call, at).1 == Err(UniqueViolation) <==>
        call.AcceptCall? && call.claim.Won? && call.rideId < |db.rides| && db.rides[call.rideId].status == Matching
        && DriverIsBusy(db.rides, call.rideId, call.driverId)
  {
    RunKeepsInv(cfg, start, calls);
    var db := Run(cfg, start, calls).db;
    if call.AcceptCall? {
      AcceptClashesForBusyDrivers(cfg, db, call.rideId, call.driverId, call.claim, at);
    } else if call.RequestCall? {
      RequestNeverClashes(db, call.passengerId, at);
    } else if call.ArrivedCall? || call.StartCall? || call.EndCall? || call.NoShowCall? || call.DriverCancelCall? {
      DriverCallsNeverClash(cfg, db, call, at);
    } else {
      OtherCallsNeverClash(cfg, db, call, at);
    }
  }

  lemma RequestNeverClashes(db: Db, passengerId: string, now: int)
    requires TableOk(db.rides)
    ensures RequestRide(db, passengerId, now).1 != Err(UniqueViolation)
  {
    NewestIsTheOneToCheck(db.rides, passengerId);
  }
}
