/**
 * services/ride/src/rides/ride.service.ts: the calls that move a ride, with their audit rows and
 * outbox rows. One call is one step: it reads the row, writes in one transaction, and nothing comes
 * between. A ride's id is its place in creation order. Times are milliseconds and distances metres;
 * the distance from the driver to the pickup and Dispatch's answer to a claim are parameters.
 */
module RideService {
  import opened Wrappers
  import opened RideStateMachine

  datatype Actor = ByPassenger | ByDriver | BySystem

  datatype Ride = Ride(
    passengerId: string, driverId: Option<string>, vehicleId: Option<string>, status: Status,
    requestedAt: int, assignedAt: Option<int>, arrivedAt: Option<int>, startedAt: Option<int>, endedAt: Option<int>,
    distanceM: Option<real>, durationS: Option<int>, farePaisa: Option<int>, fareConfigVersion: Option<int>,
    paymentMethod: Option<string>, cancelReason: Option<string>, rematchCount: nat)

  datatype Row = Row(rideId: nat, from: Option<Status>, to: Status, actor: Actor, actorId: Option<string>)

  datatype Event =
    | RideRequested(rideId: nat, passengerId: string)
    | RideAssigned(rideId: nat, driverId: string, vehicleId: Option<string>)
    | RideStarted(rideId: nat, vehicleId: Option<string>)
    | RideEnded(rideId: nat, vehicleId: Option<string>, startedAt: Option<int>, endedAt: int, durationS: int)
    | RideCompleted(rideId: nat, passengerId: string, drivenBy: Option<string>, distanceM: Option<real>,
                    rideDurationS: Option<int>, farePaisa: Option<int>, paymentMethod: string)
    | RideCancelled(rideId: nat, actor: Actor, reason: string)

  datatype RideError =
    | RideNotFound | NotYourRide | ActiveRideExists | NotMatching | OfferLost
    | TooFarFromPickup | NotArrived | TooSoon | NotAtPickup | IllegalRideTransition | UniqueViolation

  datatype ClaimReply = Lost | Won(vehicleId: Option<string>)

  datatype RideConfig = RideConfig(startProximityMeters: real, noShowMinutes: int, maxAutoRematch: nat)

  datatype Db = Db(rides: seq<Ride>, audit: seq<Row>, outbox: seq<Event>)

  type Reply = Result<Ride, RideError>

  // ---------------------------------------------------------------- the unique indexes

  predicate HoldsDriver(s: Status) {
    s in {Assigned, Arriving, InProgress, PendingPayment, PaymentFailed}
  }

  /** Whether two rows may not stand beside each other. */
  predicate Clash(a: Ride, b: Ride) {
    || (a.passengerId == b.passengerId && !IsTerminal(a.status) && !IsTerminal(b.status))
    || (a.driverId.Some? && a.driverId == b.driverId && HoldsDriver(a.status) && HoldsDriver(b.status))
  }

  /** Whether a row written at an index (or appended, at the end) violates a unique index. */
  predicate Violates(rides: seq<Ride>, id: nat, next: Ride) {
    exists i :: 0 <= i < |rides| && i != id && Clash(rides[i], next)
  }

  // ------------------------------------------------------------------------- the calls

  /** The passenger's most recently created ride. */
  function Newest(rides: seq<Ride>, passengerId: string): Option<nat> {
    if rides == [] then None
    else if rides[|rides| - 1].passengerId == passengerId then Some(|rides| - 1)
    else Newest(rides[..|rides| - 1], passengerId)
  }

  /** One transaction: the row, its audit row and its events, or nothing. */
  function Save(db: Db, id: nat, next: Ride, actor: Actor, actorId: Option<string>, events: seq<Event>): (Db, Reply)
    requires id < |db.rides|
  {
    if Violates(db.rides, id, next) then (db, Err(UniqueViolation))
    else (Db(db.rides[id := next], db.audit + [Row(id, Some(db.rides[id].status), next.status, actor, actorId)], db.outbox + events), Ok(next))
  }

  /** apply: the change goes through the transition table. */
  function Apply(db: Db, id: nat, action: RideAction, changed: Ride, actor: Actor, actorId: Option<string>, events: seq<Event>): (Db, Reply)
    requires id < |db.rides|
  {
    match Transition(db.rides[id].status, action)
    case None => (db, Err(IllegalRideTransition))
    case Some(to) => Save(db, id, changed.(status := to), actor, actorId, events)
  }

  function NewRide(passengerId: string, now: int): Ride {
    Ride(passengerId, None, None, Matching, now, None, None, None, None, None, None, None, None, None, None, 0)
  }

  function RequestRide(db: Db, passengerId: string, now: int): (Db, Reply) {
    var newest := Newest(db.rides, passengerId);
    var id, r := |db.rides|, NewRide(passengerId, now);
    if newest.Some? && newest.value < |db.rides| && !IsTerminal(db.rides[newest.value].status) then (db, Err(ActiveRideExists))
    else if Violates(db.rides, id, r) then (db, Err(UniqueViolation))
    else
      (Db(db.rides + [r],
          db.audit + [Row(id, None, Requested, ByPassenger, Some(passengerId)), Row(id, Some(Requested), Matching, BySystem, None)],
          db.outbox + [RideRequested(id, passengerId)]),
       Ok(r))
  }

  function CancelByPassenger(db: Db, id: nat, passengerId: string, reason: string): (Db, Reply) {
    if id >= |db.rides| then (db, Err(RideNotFound))
    else if db.rides[id].passengerId != passengerId then (db, Err(NotYourRide))
    else Apply(db, id, PassengerCancel, db.rides[id].(cancelReason := Some(reason)), ByPassenger, Some(passengerId),
               [RideCancelled(id, ByPassenger, reason)])
  }

  function Accept(db: Db, id: nat, driverId: string, claim: ClaimReply, now: int): (Db, Reply) {
    if id >= |db.rides| then (db, Err(RideNotFound))
    else if db.rides[id].status != Matching then (db, Err(NotMatching))
    else if claim.Lost? then (db, Err(OfferLost))
    else Apply(db, id, Assign, db.rides[id].(driverId := Some(driverId), vehicleId := claim.vehicleId, assignedAt := Some(now)),
               ByDriver, Some(driverId), [RideAssigned(id, driverId, claim.vehicleId)])
  }

  /** requireDriver's errors. */
  function DriverCheck(db: Db, id: nat, driverId: string): Option<RideError> {
    if id >= |db.rides| then Some(RideNotFound)
    else if db.rides[id].driverId != Some(driverId) then Some(NotYourRide)
    else None
  }

  function MarkArrived(db: Db, id: nat, driverId: string, now: int): (Db, Reply) {
    match DriverCheck(db, id, driverId)
    case Some(e) => (db, Err(e))
    case None => Apply(db, id, Arrive, db.rides[id].(arrivedAt := Some(now)), ByDriver, Some(driverId), [])
  }

  function StartRide(cfg: RideConfig, db: Db, id: nat, driverId: string, dist: real, now: int): (Db, Reply) {
    match DriverCheck(db, id, driverId)
    case Some(e) => (db, Err(e))
    case None =>
      if dist > cfg.startProximityMeters then (db, Err(TooFarFromPickup))
      else Apply(db, id, Start, db.rides[id].(startedAt := Some(now)), ByDriver, Some(driverId),
                 [RideStarted(id, db.rides[id].vehicleId)])
  }

  /** Math.round of a number of milliseconds in seconds. */
  function RoundedSeconds(ms: int): int {
    (ms + 500) / 1000
  }

  function EndRide(db: Db, id: nat, driverId: string, now: int): (Db, Reply) {
    match DriverCheck(db, id, driverId)
    case Some(e) => (db, Err(e))
    case None =>
      var r := db.rides[id];
      var durationS := if r.startedAt.Some? then RoundedSeconds(now - r.startedAt.value) else 0;
      Apply(db, id, End, r.(endedAt := Some(now), durationS := Some(durationS)), ByDriver, Some(driverId),
            [RideEnded(id, r.vehicleId, r.startedAt, now, durationS)])
  }

  function ReportNoShow(cfg: RideConfig, db: Db, id: nat, driverId: string, dist: real, now: int): (Db, Reply) {
    match DriverCheck(db, id, driverId)
    case Some(e) => (db, Err(e))
    case None =>
      var r := db.rides[id];
      if r.arrivedAt.None? then (db, Err(NotArrived))
      else if now - r.arrivedAt.value < cfg.noShowMinutes * 60000 then (db, Err(TooSoon))
      else if dist > cfg.startProximityMeters then (db, Err(NotAtPickup))
      else Apply(db, id, NoShow, r.(cancelReason := Some("passenger_no_show")), ByDriver, Some(driverId),
                 [RideCancelled(id, BySystem, "no_show")])
  }

  /** At the cap the row is written without asking the transition table. */
  function CancelByDriver(cfg: RideConfig, db: Db, id: nat, driverId: string, reason: string): (Db, Reply) {
    match DriverCheck(db, id, driverId)
    case Some(e) => (db, Err(e))
    case None =>
      var r := db.rides[id];
      if r.rematchCount >= cfg.maxAutoRematch then
        Save(db, id, r.(status := CancelledByDriver, cancelReason := Some(reason)), ByDriver, Some(driverId),
             [RideCancelled(id, ByDriver, reason)])
      else
        Apply(db, id, DriverCancel,
              r.(driverId := None, vehicleId := None, assignedAt := None, arrivedAt := None, rematchCount := r.rematchCount + 1),
              ByDriver, Some(driverId), [RideRequested(id, r.passengerId)])
  }

  /** A saga handler that has nothing to do answers with the row as it is, if there is one. */
  function Unchanged(db: Db, id: nat): (Db, Reply) {
    (db, if id < |db.rides| then Ok(db.rides[id]) else Err(RideNotFound))
  }

  function OnDispatchExhausted(db: Db, id: nat): (Db, Reply) {
    if id >= |db.rides| || db.rides[id].status != Matching then Unchanged(db, id)
    else Apply(db, id, Exhausted, db.rides[id], BySystem, None, [RideCancelled(id, BySystem, "no_driver_found")])
  }

  function OnFareCalculated(db: Db, id: nat, farePaisa: int, version: int, distanceM: Option<real>): (Db, Reply) {
    if id >= |db.rides| then Unchanged(db, id)
    else
      var r := db.rides[id];
      var next := r.(farePaisa := Some(farePaisa), fareConfigVersion := Some(version),
                     distanceM := if distanceM.Some? then distanceM else r.distanceM);
      (db.(rides := db.rides[id := next]), Ok(next))
  }

  function OnPaymentCompleted(db: Db, id: nat, paymentMethod: string): (Db, Reply) {
    if id >= |db.rides| || db.rides[id].status == Completed then Unchanged(db, id)
    else
      var r := db.rides[id];
      Apply(db, id, PaymentSuccess, r.(paymentMethod := Some(paymentMethod)), BySystem, None,
            [RideCompleted(id, r.passengerId, r.driverId, r.distanceM, r.durationS, r.farePaisa, paymentMethod)])
  }

  function OnPaymentFailed(db: Db, id: nat): (Db, Reply) {
    if id >= |db.rides| || db.rides[id].status != PendingPayment then Unchanged(db, id)
    else Apply(db, id, FailPayment, db.rides[id], BySystem, None, [])
  }

  datatype Call =
    | RequestCall(passengerId: string)
    | PassengerCancelCall(rideId: nat, passengerId: string, reason: string)
    | AcceptCall(rideId: nat, driverId: string, claim: ClaimReply)
    | ArrivedCall(rideId: nat, driverId: string)
    | StartCall(rideId: nat, driverId: string, dist: real)
    | EndCall(rideId: nat, driverId: string)
    | NoShowCall(rideId: nat, driverId: string, dist: real)
    | DriverCancelCall(rideId: nat, driverId: string, reason: string)
    | DispatchExhaustedCall(rideId: nat)
    | FareCalculatedCall(rideId: nat, farePaisa: int, version: int, distanceM: Option<real>)
    | PaymentCompletedCall(rideId: nat, paymentMethod: string)
    | PaymentFailedCall(rideId: nat)

  function Perform(cfg: RideConfig, db: Db, call: Call, now: int): (Db, Reply) {
    match call
    case RequestCall(p) => RequestRide(db, p, now)
    case PassengerCancelCall(id, p, reason) => CancelByPassenger(db, id, p, reason)
    case AcceptCall(id, d, claim) => Accept(db, id, d, claim, now)
    case ArrivedCall(id, d) => MarkArrived(db, id, d, now)
    case StartCall(id, d, dist) => StartRide(cfg, db, id, d, dist, now)
    case EndCall(id, d) => EndRide(db, id, d, now)
    case NoShowCall(id, d, dist) => ReportNoShow(cfg, db, id, d, dist, now)
    case DriverCancelCall(id, d, reason) => CancelByDriver(cfg, db, id, d, reason)
    case DispatchExhaustedCall(id) => OnDispatchExhausted(db, id)
    case FareCalculatedCall(id, fare, version, distance) => OnFareCalculated(db, id, fare, version, distance)
    case PaymentCompletedCall(id, m) => OnPaymentCompleted(db, id, m)
    case PaymentFailedCall(id) => OnPaymentFailed(db, id)
  }

  // ----------------------------------------------------------------------- the service

  class Service {
    const config: RideConfig
    var rides: seq<Ride>
    var audit: seq<Row>
    var outbox: seq<Event>

    ghost function Snapshot(): Db
      reads this
    {
      Db(rides, audit, outbox)
    }

    constructor (config: RideConfig)
      ensures this.config == config && Snapshot() == Db([], [], [])
    {
      this.config := config;
      rides, audit, outbox := [], [], [];
    }

    /** The unique indexes, as the database looks them up. */
    method FindClash(id: nat, next: Ride) returns (found: bool)
      ensures found == Violates(rides, id, next)
    {
      var i := 0;
      while i < |rides|
        invariant 0 <= i <= |rides|
        invariant forall j :: 0 <= j < i && j != id ==> !Clash(rides[j], next)
      {
        if i != id && Clash(rides[i], next) {
          return true;
        }
        i := i + 1;
      }
      found := false;
    }

    method FindNewest(passengerId: string) returns (newest: Option<nat>)
      ensures newest == Newest(rides, passengerId)
      ensures newest.Some? ==> newest.value < |rides| && rides[newest.value].passengerId == passengerId
    {
      var n := |rides|;
      assert rides[..n] == rides;
      while n > 0
        invariant 0 <= n <= |rides| && Newest(rides, passengerId) == Newest(rides[..n], passengerId)
      {
        assert rides[..n][..n - 1] == rides[..n - 1];
        if rides[n - 1].passengerId == passengerId {
          return Some(n - 1);
        }
        n := n - 1;
      }
      newest := None;
    }

    /** apply; with skip, the status that the caller has put into `changed` stands. */
    method Persist(id: nat, action: RideAction, skip: bool, changed: Ride, actor: Actor, actorId: Option<string>, events: seq<Event>)
      returns (r: Reply)
      requires id < |rides|
      modifies this
      ensures (Snapshot(), r) ==
        if skip then Save(old(Snapshot()), id, changed, actor, actorId, events)
        else Apply(old(Snapshot()), id, action, changed, actor, actorId, events)
    {
      var from, next := rides[id].status, changed;
      if !skip {
        var to := Transition(from, action);
        if to.None? {
          return Err(IllegalRideTransition);
        }
        next := next.(status := to.value);
      }
      var clash := FindClash(id, next);
      if clash {
        return Err(UniqueViolation);
      }
      rides := rides[id := next];
      audit := audit + [Row(id, Some(from), next.status, actor, actorId)];
      outbox := outbox + events;
      r := Ok(next);
    }

    method Request(passengerId: string, now: int) returns (r: Reply)
      modifies this
      ensures (Snapshot(), r) == RequestRide(old(Snapshot()), passengerId, now)
    {
      var newest := FindNewest(passengerId);
      if newest.Some? && !IsTerminal(rides[newest.value].status) {
        return Err(ActiveRideExists);
      }
      var id, ride := |rides|, NewRide(passengerId, now);
      var clash := FindClash(id, ride);
      if clash {
        return Err(UniqueViolation);
      }
      rides := rides + [ride];
      audit := audit + [Row(id, None, Requested, ByPassenger, Some(passengerId))];
      audit := audit + [Row(id, Some(Requested), Matching, BySystem, None)];
      outbox := outbox + [RideRequested(id, passengerId)];
      assert audit == old(audit) + [Row(id, None, Requested, ByPassenger, Some(passengerId)), Row(id, Some(Requested), Matching, BySystem, None)];
      r := Ok(ride);
    }

    method PassengerCancels(id: nat, passengerId: string, reason: string) returns (r: Reply)
      modifies this
      ensures (Snapshot(), r) == CancelByPassenger(old(Snapshot()), id, passengerId, reason)
    {
      if id >= |rides| {
        return Err(RideNotFound);
      }
      if rides[id].passengerId != passengerId {
        return Err(NotYourRide);
      }
      r := Persist(id, PassengerCancel, false, rides[id].(cancelReason := Some(reason)), ByPassenger, Some(passengerId),
                   [RideCancelled(id, ByPassenger, reason)]);
    }

    method DriverAccepts(id: nat, driverId: string, claim: ClaimReply, now: int) returns (r: Reply)
      modifies this
      ensures (Snapshot(), r) == Accept(old(Snapshot()), id, driverId, claim, now)
    {
      if id >= |rides| {
        return Err(RideNotFound);
      }
      if rides[id].status != Matching {
        return Err(NotMatching);
      }
      if claim.Lost? {
        return Err(OfferLost);
      }
      r := Persist(id, Assign, false, rides[id].(driverId := Some(driverId), vehicleId := claim.vehicleId, assignedAt := Some(now)),
                   ByDriver, Some(driverId), [RideAssigned(id, driverId, claim.vehicleId)]);
    }

    method RequireDriver(id: nat, driverId: string) returns (e: Option<RideError>)
      ensures e == DriverCheck(Snapshot(), id, driverId)
      ensures e.None? ==> id < |rides|
    {
      if id >= |rides| {
        return Some(RideNotFound);
      }
      if rides[id].driverId != Some(driverId) {
        return Some(NotYourRide);
      }
      e := None;
    }

    method DriverArrives(id: nat, driverId: string, now: int) returns (r: Reply)
      modifies this
      ensures (Snapshot(), r) == MarkArrived(old(Snapshot()), id, driverId, now)
    {
      var e := RequireDriver(id, driverId);
      if e.Some? {
        return Err(e.value);
      }
      r := Persist(id, Arrive, false, rides[id].(arrivedAt := Some(now)), ByDriver, Some(driverId), []);
    }

    method DriverStarts(id: nat, driverId: string, dist: real, now: int) returns (r: Reply)
      modifies this
      ensures (Snapshot(), r) == StartRide(config, old(Snapshot()), id, driverId, dist, now)
    {
      var e := RequireDriver(id, driverId);
      if e.Some? {
        return Err(e.value);
      }
      if dist > config.startProximityMeters {
        return Err(TooFarFromPickup);
      }
      r := Persist(id, Start, false, rides[id].(startedAt := Some(now)), ByDriver, Some(driverId), [RideStarted(id, rides[id].vehicleId)]);
    }

    method DriverEnds(id: nat, driverId: string, now: int) returns (r: Reply)
      modifies this
      ensures (Snapshot(), r) == EndRide(old(Snapshot()), id, driverId, now)
    {
      var e := RequireDriver(id, driverId);
      if e.Some? {
        return Err(e.value);
      }
      var ride := rides[id];
      var durationS := 0;
      if ride.startedAt.Some? {
        durationS := RoundedSeconds(now - ride.startedAt.value);
      }
      r := Persist(id, End, false, ride.(endedAt := Some(now), durationS := Some(durationS)), ByDriver, Some(driverId),
                   [RideEnded(id, ride.vehicleId, ride.startedAt, now, durationS)]);
    }

    method DriverReportsNoShow(id: nat, driverId: string, dist: real, now: int) returns (r: Reply)
      modifies this
      ensures (Snapshot(), r) == ReportNoShow(config, old(Snapshot()), id, driverId, dist, now)
    {
      var e := RequireDriver(id, driverId);
      if e.Some? {
        return Err(e.value);
      }
      var ride := rides[id];
      if ride.arrivedAt.None? {
        return Err(NotArrived);
      }
      if now - ride.arrivedAt.value < config.noShowMinutes * 60000 {
        return Err(TooSoon);
      }
      if dist > config.startProximityMeters {
        return Err(NotAtPickup);
      }
      r := Persist(id, NoShow, false, ride.(cancelReason := Some("passenger_no_show")), ByDriver, Some(driverId),
                   [RideCancelled(id, BySystem, "no_show")]);
    }

    method DriverCancels(id: nat, driverId: string, reason: string) returns (r: Reply)
      modifies this
      ensures (Snapshot(), r) == CancelByDriver(config, old(Snapshot()), id, driverId, reason)
    {
      var e := RequireDriver(id, driverId);
      if e.Some? {
        return Err(e.value);
      }
      var ride := rides[id];
      if ride.rematchCount >= config.maxAutoRematch {
        r := Persist(id, PassengerCancel, true, ride.(status := CancelledByDriver, cancelReason := Some(reason)),
                     ByDriver, Some(driverId), [RideCancelled(id, ByDriver, reason)]);
        return;
      }
      ride := ride.(driverId := None, vehicleId := None, assignedAt := None, arrivedAt := None);
      r := Persist(id, DriverCancel, false, ride.(rematchCount := ride.rematchCount + 1), ByDriver, Some(driverId),
                   [RideRequested(id, ride.passengerId)]);
    }

    method HandleDispatchExhausted(id: nat) returns (r: Reply)
      modifies this
      ensures (Snapshot(), r) == OnDispatchExhausted(old(Snapshot()), id)
    {
      if id >= |rides| {
        return Err(RideNotFound);
      }
      if rides[id].status != Matching {
        return Ok(rides[id]);
      }
      r := Persist(id, Exhausted, false, rides[id], BySystem, None, [RideCancelled(id, BySystem, "no_driver_found")]);
    }

    method HandleFareCalculated(id: nat, farePaisa: int, version: int, distanceM: Option<real>) returns (r: Reply)
      modifies this
      ensures (Snapshot(), r) == OnFareCalculated(old(Snapshot()), id, farePaisa, version, distanceM)
    {
      if id >= |rides| {
        return Err(RideNotFound);
      }
      var ride := rides[id].(farePaisa := Some(farePaisa), fareConfigVersion := Some(version));
      if distanceM.Some? {
        ride := ride.(distanceM := distanceM);
      }
      rides := rides[id := ride];
      r := Ok(ride);
    }

    method HandlePaymentCompleted(id: nat, paymentMethod: string) returns (r: Reply)
      modifies this
      ensures (Snapshot(), r) == OnPaymentCompleted(old(Snapshot()), id, paymentMethod)
    {
      if id >= |rides| {
        return Err(RideNotFound);
      }
      var ride := rides[id];
      if ride.status == Completed {
        return Ok(ride);
      }
      r := Persist(id, PaymentSuccess, false, ride.(paymentMethod := Some(paymentMethod)), BySystem, None,
                   [RideCompleted(id, ride.passengerId, ride.driverId, ride.distanceM, ride.durationS, ride.farePaisa, paymentMethod)]);
    }

    method HandlePaymentFailed(id: nat) returns (r: Reply)
      modifies this
      ensures (Snapshot(), r) == OnPaymentFailed(old(Snapshot()), id)
    {
      if id >= |rides| {
        return Err(RideNotFound);
      }
      if rides[id].status != PendingPayment {
        return Ok(rides[id]);
      }
      r := Persist(id, FailPayment, false, rides[id], BySystem, None, []);
    }
  }

  lemma {:induction false} NewestIsLast(rides: seq<Ride>, passengerId: string)
    ensures match Newest(rides, passengerId)
      case None => forall i :: 0 <= i < |rides| ==> rides[i].passengerId != passengerId
      case Some(n) => n < |rides| && rides[n].passengerId == passengerId
                      && forall i :: n < i < |rides| ==> rides[i].passengerId != passengerId
  {
    if rides != [] {
      NewestIsLast(rides[..|rides| - 1], passengerId);
    }
  }
}
