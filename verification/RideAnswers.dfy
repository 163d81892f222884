/**
 * Who may move a ride, when, and what each call leaves behind in every run of the ride service, told in
 * rows alone: the statuses a call is let through from, the columns, audit row and events it writes, and
 * that it touches no other ride.
 */
module RideAnswers {
  import opened Wrappers
  import opened RideStateMachine
  import opened RideService
  import opened RideLifecycle

  /** What a call does to one ride: its row, who the audit names, and what goes out. */
  datatype Effect = Effect(row: Ride, actor: Actor, actorId: Option<string>, events: seq<Event>)

  ghost predicate IsDriver(db: Db, id: nat, driverId: string) {
    id < |db.rides| && db.rides[id].driverId == Some(driverId)
  }

  /** The driver has another ride that is under way or not paid for. */
  ghost predicate OnAnotherRide(db: Db, id: nat, driverId: string) {
    exists i :: 0 <= i < |db.rides| && i != id && db.rides[i].driverId == Some(driverId)
      && db.rides[i].status in {Assigned, Arriving, InProgress, PendingPayment, PaymentFailed}
  }

  /** A call that moves a ride is let through. */
  ghost predicate MayMove(cfg: RideConfig, db: Db, c: Call, now: int) {
    match c
    case PassengerCancelCall(id, p, _) =>
      id < |db.rides| && db.rides[id].passengerId == p && db.rides[id].status in {Requested, Matching, Assigned, Arriving}
    case AcceptCall(id, d, claim) => id < |db.rides| && db.rides[id].status == Matching && claim.Won? && !OnAnotherRide(db, id, d)
    case ArrivedCall(id, d) => IsDriver(db, id, d) && db.rides[id].status == Assigned
    case StartCall(id, d, dist) => IsDriver(db, id, d) && db.rides[id].status == Arriving && dist <= cfg.startProximityMeters
    case EndCall(id, d) => IsDriver(db, id, d) && db.rides[id].status == InProgress
    case NoShowCall(id, d, dist) =>
      && IsDriver(db, id, d) && db.rides[id].status == Arriving && dist <= cfg.startProximityMeters
      && db.rides[id].arrivedAt.Some? && now >= db.rides[id].arrivedAt.value + cfg.noShowMinutes * 60000
    case DriverCancelCall(id, d, _) =>
      IsDriver(db, id, d) && (db.rides[id].rematchCount >= cfg.maxAutoRematch || db.rides[id].status in {Assigned, Arriving})
    case DispatchExhaustedCall(id) => id < |db.rides| && db.rides[id].status == Matching
    case PaymentCompletedCall(id, _) => id < |db.rides| && db.rides[id].status in {PendingPayment, PaymentFailed}
    case PaymentFailedCall(id) => id < |db.rides| && db.rides[id].status == PendingPayment
    case RequestCall(_) => false
    case FareCalculatedCall(_, _, _, _) => false
  }

  /** What a call that is let through does to its ride. */
  function EffectOf(cfg: RideConfig, id: nat, r: Ride, c: Call, now: int): Effect {
    match c
    case PassengerCancelCall(_, p, reason) =>
      Effect(r.(status := CancelledByPassenger, cancelReason := Some(reason)), ByPassenger, Some(p), [RideCancelled(id, ByPassenger, reason)])
    case AcceptCall(_, d, claim) =>
      var v := if claim.Won? then claim.vehicleId else None;
      Effect(r.(status := Assigned, driverId := Some(d), vehicleId := v, assignedAt := Some(now)), ByDriver, Some(d), [RideAssigned(id, d, v)])
    case ArrivedCall(_, d) => Effect(r.(status := Arriving, arrivedAt := Some(now)), ByDriver, Some(d), [])
    case StartCall(_, d, _) => Effect(r.(status := InProgress, startedAt := Some(now)), ByDriver, Some(d), [RideStarted(id, r.vehicleId)])
    case EndCall(_, d) =>
      var seconds := if r.startedAt.Some? then RoundedSeconds(now - r.startedAt.value) else 0;
      Effect(r.(status := PendingPayment, endedAt := Some(now), durationS := Some(seconds)), ByDriver, Some(d),
             [RideEnded(id, r.vehicleId, r.startedAt, now, seconds)])
    case NoShowCall(_, d, _) =>
      Effect(r.(status := CancelledNoShow, cancelReason := Some("passenger_no_show")), ByDriver, Some(d), [RideCancelled(id, BySystem, "no_show")])
    case DriverCancelCall(_, d, reason) =>
      if r.rematchCount >= cfg.maxAutoRematch then
        Effect(r.(status := CancelledByDriver, cancelReason := Some(reason)), ByDriver, Some(d), [RideCancelled(id, ByDriver, reason)])
      else
        Effect(r.(status := Matching, driverId := None, vehicleId := None, assignedAt := None, arrivedAt := None, rematchCount := r.rematchCount + 1),
               ByDriver, Some(d), [RideRequested(id, r.passengerId)])
    case DispatchExhaustedCall(_) => Effect(r.(status := NoDriverFound), BySystem, None, [RideCancelled(id, BySystem, "no_driver_found")])
    case PaymentCompletedCall(_, m) =>
      Effect(r.(status := Completed, paymentMethod := Some(m)), BySystem, None,
             [RideCompleted(id, r.passengerId, r.driverId, r.distanceM, r.durationS, r.farePaisa, m)])
    case PaymentFailedCall(_) => Effect(r.(status := PaymentFailed), BySystem, None, [])
    case RequestCall(_) => Effect(r, BySystem, None, [])
    case FareCalculatedCall(_, _, _, _) => Effect(r, BySystem, None, [])
  }

  /** The seconds a duration in milliseconds is rounded to, half a second upwards. */
  lemma RoundedSecondsAreNearest(ms: int, s: int)
    ensures RoundedSeconds(ms) == s <==> 1000 * s - 500 <= ms < 1000 * s + 500
  {
  }

  /** The call has exactly its effect on its ride if it may move it, and none otherwise. */
  ghost predicate DoesExactly(cfg: RideConfig, db: Db, c: Call, now: int, t: Db)
    requires !c.RequestCall? && !c.FareCalculatedCall?
  {
    var id := c.rideId;
    if MayMove(cfg, db, c, now) then
      var r, x := db.rides[id], EffectOf(cfg, id, db.rides[id], c, now);
      t == Db(db.rides[id := x.row], db.audit + [Row(id, Some(r.status), x.row.status, x.actor, x.actorId)], db.outbox + x.events)
    else t == db
  }

  lemma DriverDoesExactly(cfg: RideConfig, db: Db, c: Call, now: int)
    requires c.ArrivedCall? || c.StartCall? || c.EndCall? || c.NoShowCall?
    requires Perform(cfg, db, c, now).1 != Err(UniqueViolation)
    ensures DoesExactly(cfg, db, c, now, Perform(cfg, db, c, now).0)
    ensures Perform(cfg, db, c, now).1.Ok? <==> MayMove(cfg, db, c, now)
  {
  }

  lemma CancelDoesExactly(cfg: RideConfig, db: Db, c: Call, now: int)
    requires c.DriverCancelCall? || c.PassengerCancelCall?
    requires Perform(cfg, db, c, now).1 != Err(UniqueViolation)
    ensures DoesExactly(cfg, db, c, now, Perform(cfg, db, c, now).0)
    ensures Perform(cfg, db, c, now).1.Ok? <==> MayMove(cfg, db, c, now)
  {
  }

  lemma AcceptDoesExactly(cfg: RideConfig, db: Db, c: Call, now: int)
    requires c.AcceptCall?
    requires Perform(cfg, db, c, now).1 == Err(UniqueViolation) <==>
      c.claim.Won? && c.rideId < |db.rides| && db.rides[c.rideId].status == Matching && OnAnotherRide(db, c.rideId, c.driverId)
    ensures DoesExactly(cfg, db, c, now, Perform(cfg, db, c, now).0)
    ensures Perform(cfg, db, c, now).1.Ok? <==> MayMove(cfg, db, c, now)
  {
  }

  lemma SagaDoesExactly(cfg: RideConfig, db: Db, c: Call, now: int)
    requires c.DispatchExhaustedCall? || c.PaymentCompletedCall? || c.PaymentFailedCall?
    requires Perform(cfg, db, c, now).1 != Err(UniqueViolation)
    ensures DoesExactly(cfg, db, c, now, Perform(cfg, db, c, now).0)
  {
  }

  /**
   * A call that moves a ride goes through exactly if it may, and then writes exactly that ride's row, one
   * audit row from its status to the new one, and its events; otherwise it changes nothing at all.
   */
  lemma {:induction false} MovesExactlyWhenAllowed(cfg: RideConfig, start: int, calls: seq<Timed>, c: Timed)
    requires Run(cfg, start, calls).now <= c.at && !c.call.RequestCall? && !c.call.FareCalculatedCall?
    ensures DoesExactly(cfg, Run(cfg, start, calls).db, c.call, c.at, Step(cfg, Run(cfg, start, calls), c).db)
  {
    IndexesRefuseOnlyBusyDrivers(cfg, start, calls, c.call, c.at);
    var db := Run(cfg, start, calls).db;
    if c.call.AcceptCall? {
      assert DriverIsBusy(db.rides, c.call.rideId, c.call.driverId) <==> OnAnotherRide(db, c.call.rideId, c.call.driverId);
      AcceptDoesExactly(cfg, db, c.call, c.at);
    } else if c.call.DriverCancelCall? || c.call.PassengerCancelCall? {
      CancelDoesExactly(cfg, db, c.call, c.at);
    } else if c.call.DispatchExhaustedCall? || c.call.PaymentCompletedCall? || c.call.PaymentFailedCall? {
      SagaDoesExactly(cfg, db, c.call, c.at);
    } else {
      DriverDoesExactly(cfg, db, c.call, c.at);
    }
  }

  /** A passenger's or a driver's call is answered with the ride exactly if it may move it, and with an error otherwise. */
  lemma {:induction false} AnswersOkExactlyWhenAllowed(cfg: RideConfig, start: int, calls: seq<Timed>, c: Call, at: int)
    requires c.PassengerCancelCall? || c.AcceptCall? || c.ArrivedCall? || c.StartCall? || c.EndCall? || c.NoShowCall? || c.DriverCancelCall?
    ensures var db := Run(cfg, start, calls).db; Perform(cfg, db, c, at).1.Ok? <==> MayMove(cfg, db, c, at)
  {
    IndexesRefuseOnlyBusyDrivers(cfg, start, calls, c, at);
    var db := Run(cfg, start, calls).db;
    if c.AcceptCall? {
      assert DriverIsBusy(db.rides, c.rideId, c.driverId) <==> OnAnotherRide(db, c.rideId, c.driverId);
      AcceptDoesExactly(cfg, db, c, at);
    } else if c.DriverCancelCall? || c.PassengerCancelCall? {
      CancelDoesExactly(cfg, db, c, at);
    } else {
      DriverDoesExactly(cfg, db, c, at);
    }
  }

  /**
   * A passenger gets a new ride exactly if none of theirs is active, older rides included: a row in matching,
   * its two audit rows and one event.
   */
  lemma {:induction false} RequestsExactlyWhenFree(cfg: RideConfig, start: int, calls: seq<Timed>, passengerId: string, at: int)
    requires Run(cfg, start, calls).now <= at
    ensures var db := Run(cfg, start, calls).db;
      var t, id := Step(cfg, Run(cfg, start, calls), Timed(at, RequestCall(passengerId))).db, |db.rides|;
      if forall i :: 0 <= i < id && db.rides[i].passengerId == passengerId ==>
           db.rides[i].status in {Completed, CancelledByPassenger, CancelledByDriver, CancelledNoShow, NoDriverFound}
      then
        && t.rides == db.rides + [Ride(passengerId, None, None, Matching, at, None, None, None, None, None, None, None, None, None, None, 0)]
        && t.audit == db.audit + [Row(id, None, Requested, ByPassenger, Some(passengerId)), Row(id, Some(Requested), Matching, BySystem, None)]
        && t.outbox == db.outbox + [RideRequested(id, passengerId)]
      else t == db
  {
    var db := Run(cfg, start, calls).db;
    OnlyNewestRideIsActive(cfg, start, calls, passengerId);
    IndexesRefuseOnlyBusyDrivers(cfg, start, calls, RequestCall(passengerId), at);
    var n := Newest(db.rides, passengerId);
    if n.Some? && n.value < |db.rides| && !IsTerminal(db.rides[n.value].status) {
      RunKeepsInv(cfg, start, calls);
      NewestIsLast(db.rides, passengerId);
      assert IsActiveRide(db.rides, n.value, passengerId);
    } else {
      forall i | 0 <= i < |db.rides| && db.rides[i].passengerId == passengerId
        ensures IsTerminal(db.rides[i].status)
      {
        assert !IsActiveRide(db.rides, i, passengerId);
      }
    }
  }

  /** A calculated fare sets the fare, its version and, if it came along, the distance of a ride that exists, and nothing else. */
  lemma FareSetsExactly(cfg: RideConfig, s: Sys, at: int, id: nat, farePaisa: int, version: int, distanceM: Option<real>)
    requires s.now <= at
    ensures var t := Step(cfg, s, Timed(at, FareCalculatedCall(id, farePaisa, version, distanceM))).db;
      && t.audit == s.db.audit && t.outbox == s.db.outbox && |t.rides| == |s.db.rides|
      && forall i :: 0 <= i < |t.rides| ==>
           var r := s.db.rides[i];
           t.rides[i] == if i != id then r else
             r.(farePaisa := Some(farePaisa), fareConfigVersion := Some(version), distanceM := if distanceM.Some? then distanceM else r.distanceM)
  {
  }
}
