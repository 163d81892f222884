/**
 * What the ride events say: each agrees with its ride's row when it goes out; what of that lasts for
 * ever; and exactly when the fare and distance of a completed ride stop agreeing.
 */
module RideEvents {
  import opened Wrappers
  import opened RideStateMachine
  import opened RideService
  import opened RideLifecycle
  import RideTerminal

  /** What of an event its ride's row bears out for ever. Assignments and cancellations can be overtaken, fares recalculated. */
  predicate Says(r: Ride, e: Event) {
    match e
    case RideRequested(_, passengerId) => r.passengerId == passengerId
    case RideAssigned(_, _, _) => true
    case RideStarted(_, vehicleId) => r.startedAt.Some? && r.vehicleId == vehicleId
    case RideEnded(_, vehicleId, startedAt, endedAt, durationS) =>
      r.vehicleId == vehicleId && r.startedAt == startedAt && r.endedAt == Some(endedAt) && r.durationS == Some(durationS)
    case RideCompleted(_, passengerId, drivenBy, _, durationS, _, paymentMethod) =>
      && IsTerminal(r.status) && r.endedAt.Some?
      && r.passengerId == passengerId && r.driverId == drivenBy && r.durationS == durationS && r.paymentMethod == Some(paymentMethod)
    case RideCancelled(_, _, _) => true
  }

  predicate EventTrue(db: Db, k: nat)
    requires k < |db.outbox|
  {
    db.outbox[k].rideId < |db.rides| && Says(db.rides[db.outbox[k].rideId], db.outbox[k])
  }

  predicate AllTrue(db: Db) {
    forall k {:trigger EventTrue(db, k)} :: 0 <= k < |db.outbox| ==> EventTrue(db, k)
  }

  /** Once started, vehicle and start stay; once ended, the end, duration and driver; once over, the payment method. */
  predicate Settles(r: Ride, next: Ride) {
    && next.passengerId == r.passengerId
    && (r.startedAt.Some? ==> next.startedAt == r.startedAt && next.vehicleId == r.vehicleId)
    && (r.endedAt.Some? ==> r.startedAt.Some? && next.endedAt == r.endedAt && next.durationS == r.durationS && next.driverId == r.driverId)
    && (IsTerminal(r.status) ==> IsTerminal(next.status) && next.paymentMethod == r.paymentMethod)
  }

  lemma SettledRowsStillSay(r: Ride, next: Ride, e: Event)
    requires Settles(r, next) && Says(r, e)
    ensures Says(next, e)
  {
  }

  lemma WriteKeepsTrue(db: Db, id: nat, next: Ride, d: Db, events: seq<Event>)
    requires AllTrue(db) && id < |db.rides| && Settles(db.rides[id], next)
    requires d.rides == db.rides[id := next] && d.outbox == db.outbox + events
    requires |events| <= 1 && (events != [] ==> events[0].rideId == id && Says(next, events[0]))
    ensures AllTrue(d)
  {
    forall k | 0 <= k < |d.outbox|
      ensures EventTrue(d, k)
    {
      if k < |db.outbox| {
        assert EventTrue(db, k);
        if db.outbox[k].rideId == id {
          SettledRowsStillSay(db.rides[id], next, db.outbox[k]);
        }
      }
    }
  }

  /** What a legal action writes and says. */
  predicate Truthful(id: nat, r: Ride, action: RideAction, changed: Ride, events: seq<Event>) {
    var to := Transition(r.status, action);
    to.Some? ==>
      var next := changed.(status := to.value);
      Settles(r, next) && |events| <= 1 && (events != [] ==> events[0].rideId == id && Says(next, events[0]))
  }

  lemma ApplyKeepsTrue(db: Db, id: nat, action: RideAction, changed: Ride, actor: Actor, actorId: Option<string>, events: seq<Event>)
    requires AllTrue(db) && id < |db.rides| && Truthful(id, db.rides[id], action, changed, events)
    ensures AllTrue(Apply(db, id, action, changed, actor, actorId, events).0)
  {
    var to := Transition(db.rides[id].status, action);
    if to.Some? {
      var next := changed.(status := to.value);
      if !Violates(db.rides, id, next) {
        WriteKeepsTrue(db, id, next, Apply(db, id, action, changed, actor, actorId, events).0, events);
      }
    }
  }

  lemma RequestKeepsTrue(db: Db, passengerId: string, now: int)
    requires AllTrue(db)
    ensures AllTrue(RequestRide(db, passengerId, now).0)
  {
    var d := RequestRide(db, passengerId, now).0;
    forall k | 0 <= k < |d.outbox|
      ensures EventTrue(d, k)
    {
      if k < |db.outbox| {
        assert EventTrue(db, k);
      }
    }
  }

  /** The calls by the ride's driver. */
  lemma DriverKeepsTrue(cfg: RideConfig, db: Db, call: Call, now: int)
    requires AllTrue(db)
    requires call.ArrivedCall? || call.StartCall? || call.EndCall? || call.NoShowCall?
    requires call.rideId < |db.rides| ==> StageOk(db.rides[call.rideId])
    ensures AllTrue(Perform(cfg, db, call, now).0)
  {
    var id := call.rideId;
    if DriverCheck(db, id, call.driverId).None? {
      var r, d := db.rides[id], Some(call.driverId);
      match call
      case ArrivedCall(_, _) => ApplyKeepsTrue(db, id, Arrive, r.(arrivedAt := Some(now)), ByDriver, d, []);
      case StartCall(_, _, _) => ApplyKeepsTrue(db, id, Start, r.(startedAt := Some(now)), ByDriver, d, [RideStarted(id, r.vehicleId)]);
      case EndCall(_, _) =>
        var durationS := if r.startedAt.Some? then RoundedSeconds(now - r.startedAt.value) else 0;
        ApplyKeepsTrue(db, id, End, r.(endedAt := Some(now), durationS := Some(durationS)), ByDriver, d,
                       [RideEnded(id, r.vehicleId, r.startedAt, now, durationS)]);
      case NoShowCall(_, _, _) =>
        ApplyKeepsTrue(db, id, NoShow, r.(cancelReason := Some("passenger_no_show")), ByDriver, d, [RideCancelled(id, BySystem, "no_show")]);
    }
  }

  lemma CancelKeepsTrue(cfg: RideConfig, db: Db, id: nat, driverId: string, reason: string)
    requires AllTrue(db) && (id < |db.rides| ==> StageOk(db.rides[id]) && (db.rides[id].endedAt.Some? ==> db.rides[id].startedAt.Some?))
    ensures AllTrue(CancelByDriver(cfg, db, id, driverId, reason).0)
  {
    if DriverCheck(db, id, driverId).None? {
      var r := db.rides[id];
      if r.rematchCount >= cfg.maxAutoRematch {
        var next := r.(status := CancelledByDriver, cancelReason := Some(reason));
        if !Violates(db.rides, id, next) {
          WriteKeepsTrue(db, id, next, CancelByDriver(cfg, db, id, driverId, reason).0, [RideCancelled(id, ByDriver, reason)]);
        }
      } else {
        ApplyKeepsTrue(db, id, DriverCancel,
                       r.(driverId := None, vehicleId := None, assignedAt := None, arrivedAt := None, rematchCount := r.rematchCount + 1),
                       ByDriver, Some(driverId), [RideRequested(id, r.passengerId)]);
      }
    }
  }

  /** The calls by the passenger, Dispatch, Fare and Payment, and a driver's accept. */
  lemma OthersKeepTrue(cfg: RideConfig, db: Db, call: Call, now: int)
    requires AllTrue(db)
    requires call.PassengerCancelCall? || call.AcceptCall? || call.DispatchExhaustedCall? || call.FareCalculatedCall?
      || call.PaymentCompletedCall? || call.PaymentFailedCall?
    requires call.rideId < |db.rides| ==>
      StageOk(db.rides[call.rideId]) && (db.rides[call.rideId].endedAt.Some? ==> db.rides[call.rideId].startedAt.Some?)
    ensures AllTrue(Perform(cfg, db, call, now).0)
  {
    var id := call.rideId;
    if id < |db.rides| {
      var r := db.rides[id];
      match call
      case PassengerCancelCall(_, p, reason) =>
        ApplyKeepsTrue(db, id, PassengerCancel, r.(cancelReason := Some(reason)), ByPassenger, Some(p), [RideCancelled(id, ByPassenger, reason)]);
      case AcceptCall(_, driverId, claim) =>
        if claim.Won? {
          ApplyKeepsTrue(db, id, Assign, r.(driverId := Some(driverId), vehicleId := claim.vehicleId, assignedAt := Some(now)),
                         ByDriver, Some(driverId), [RideAssigned(id, driverId, claim.vehicleId)]);
        }
      case DispatchExhaustedCall(_) =>
        ApplyKeepsTrue(db, id, Exhausted, r, BySystem, None, [RideCancelled(id, BySystem, "no_driver_found")]);
      case FareCalculatedCall(_, fare, version, distance) =>
        var d := OnFareCalculated(db, id, fare, version, distance).0;
        assert d.outbox == db.outbox + [];
        WriteKeepsTrue(db, id, d.rides[id], d, []);
      case PaymentCompletedCall(_, m) =>
        ApplyKeepsTrue(db, id, PaymentSuccess, r.(paymentMethod := Some(m)), BySystem, None,
                       [RideCompleted(id, r.passengerId, r.driverId, r.distanceM, r.durationS, r.farePaisa, m)]);
      case PaymentFailedCall(_) => ApplyKeepsTrue(db, id, FailPayment, r, BySystem, None, []);
    }
  }

  lemma PerformKeepsTrue(cfg: RideConfig, db: Db, call: Call, now: int, before: int)
    requires AllTrue(db) && Inv(cfg, db, before)
    ensures AllTrue(Perform(cfg, db, call, now).0)
  {
    if call.RequestCall? {
      RequestKeepsTrue(db, call.passengerId, now);
    } else {
      if call.rideId < |db.rides| {
        RowIsOk(cfg, db, call.rideId, before);
      }
      if call.DriverCancelCall? {
        CancelKeepsTrue(cfg, db, call.rideId, call.driverId, call.reason);
      } else if call.ArrivedCall? || call.StartCall? || call.EndCall? || call.NoShowCall? {
        DriverKeepsTrue(cfg, db, call, now);
      } else {
        OthersKeepTrue(cfg, db, call, now);
      }
    }
  }

  /** In every run the passenger, vehicle, times, duration, driver and payment method of each event are its row's, ever after. */
  lemma {:induction false} EventsAgreeWithTheirRides(cfg: RideConfig, start: int, calls: seq<Timed>)
    ensures AllTrue(Run(cfg, start, calls).db)
  {
    if calls != [] {
      var s, c := Run(cfg, start, calls[..|calls| - 1]), calls[|calls| - 1];
      EventsAgreeWithTheirRides(cfg, start, calls[..|calls| - 1]);
      RunKeepsInv(cfg, start, calls[..|calls| - 1]);
      if c.at >= s.now {
        PerformKeepsTrue(cfg, s.db, c.call, c.at, s.now);
      }
    }
  }

  // ------------------------------------------------------- when an event goes out

  /** The row agrees with the event in full: its status, and every column the event carries. */
  predicate Agrees(r: Ride, e: Event) {
    match e
    case RideRequested(_, passengerId) => r.status == Matching && r.passengerId == passengerId && r.driverId.None?
    case RideAssigned(_, driverId, vehicleId) => r.status == Assigned && r.driverId == Some(driverId) && r.vehicleId == vehicleId
    case RideStarted(_, vehicleId) => r.status == InProgress && r.startedAt.Some? && r.vehicleId == vehicleId
    case RideEnded(_, vehicleId, startedAt, endedAt, durationS) =>
      && r.status == PendingPayment && r.vehicleId == vehicleId
      && r.startedAt == startedAt && r.endedAt == Some(endedAt) && r.durationS == Some(durationS)
    case RideCompleted(_, passengerId, drivenBy, distanceM, durationS, farePaisa, paymentMethod) =>
      && r.status == Completed && r.passengerId == passengerId && r.driverId == drivenBy
      && r.distanceM == distanceM && r.durationS == durationS && r.farePaisa == farePaisa && r.paymentMethod == Some(paymentMethod)
    case RideCancelled(_, actor, reason) =>
      match actor
      case ByPassenger => r.status == CancelledByPassenger && r.cancelReason == Some(reason)
      case ByDriver => r.status == CancelledByDriver && r.cancelReason == Some(reason)
      case BySystem =>
        || (reason == "no_show" && r.status == CancelledNoShow && r.cancelReason == Some("passenger_no_show"))
        || (reason == "no_driver_found" && r.status == NoDriverFound)
  }

  /** What a call adds to the outbox agrees with the rows it leaves. */
  predicate AddsAgreeing(db: Db, d: Db) {
    && db.outbox <= d.outbox
    && forall k :: |db.outbox| <= k < |d.outbox| ==> d.outbox[k].rideId < |d.rides| && Agrees(d.rides[d.outbox[k].rideId], d.outbox[k])
  }

  lemma ApplyAddsAgreeing(db: Db, id: nat, action: RideAction, changed: Ride, actor: Actor, actorId: Option<string>, events: seq<Event>)
    requires id < |db.rides| && |events| <= 1
    requires Transition(db.rides[id].status, action).Some? && events != [] ==>
      events[0].rideId == id && Agrees(changed.(status := Transition(db.rides[id].status, action).value), events[0])
    ensures AddsAgreeing(db, Apply(db, id, action, changed, actor, actorId, events).0)
  {
  }

  lemma DriverCancelAddsAgreeing(cfg: RideConfig, db: Db, id: nat, driverId: string, reason: string)
    ensures AddsAgreeing(db, CancelByDriver(cfg, db, id, driverId, reason).0)
  {
    if DriverCheck(db, id, driverId).None? {
      var r := db.rides[id];
      ApplyAddsAgreeing(db, id, DriverCancel,
                        r.(driverId := None, vehicleId := None, assignedAt := None, arrivedAt := None, rematchCount := r.rematchCount + 1),
                        ByDriver, Some(driverId), [RideRequested(id, r.passengerId)]);
    }
  }

  lemma DriverAddsAgreeing(cfg: RideConfig, db: Db, call: Call, now: int)
    requires call.ArrivedCall? || call.StartCall? || call.EndCall? || call.NoShowCall?
    ensures AddsAgreeing(db, Perform(cfg, db, call, now).0)
  {
    var id := call.rideId;
    if DriverCheck(db, id, call.driverId).None? {
      var r, d := db.rides[id], Some(call.driverId);
      match call
      case ArrivedCall(_, _) => ApplyAddsAgreeing(db, id, Arrive, r.(arrivedAt := Some(now)), ByDriver, d, []);
      case StartCall(_, _, _) => ApplyAddsAgreeing(db, id, Start, r.(startedAt := Some(now)), ByDriver, d, [RideStarted(id, r.vehicleId)]);
      case EndCall(_, _) =>
        var durationS := if r.startedAt.Some? then RoundedSeconds(now - r.startedAt.value) else 0;
        ApplyAddsAgreeing(db, id, End, r.(endedAt := Some(now), durationS := Some(durationS)), ByDriver, d,
                          [RideEnded(id, r.vehicleId, r.startedAt, now, durationS)]);
      case NoShowCall(_, _, _) =>
        ApplyAddsAgreeing(db, id, NoShow, r.(cancelReason := Some("passenger_no_show")), ByDriver, d, [RideCancelled(id, BySystem, "no_show")]);
    }
  }

  lemma OthersAddAgreeing(cfg: RideConfig, db: Db, call: Call, now: int)
    requires call.PassengerCancelCall? || call.AcceptCall? || call.DispatchExhaustedCall? || call.FareCalculatedCall?
      || call.PaymentCompletedCall? || call.PaymentFailedCall?
    ensures AddsAgreeing(db, Perform(cfg, db, call, now).0)
  {
    var id := call.rideId;
    if id < |db.rides| {
      var r := db.rides[id];
      match call
      case PassengerCancelCall(_, p, reason) =>
        ApplyAddsAgreeing(db, id, PassengerCancel, r.(cancelReason := Some(reason)), ByPassenger, Some(p), [RideCancelled(id, ByPassenger, reason)]);
      case AcceptCall(_, driverId, claim) =>
        if claim.Won? {
          ApplyAddsAgreeing(db, id, Assign, r.(driverId := Some(driverId), vehicleId := claim.vehicleId, assignedAt := Some(now)),
                            ByDriver, Some(driverId), [RideAssigned(id, driverId, claim.vehicleId)]);
        }
      case DispatchExhaustedCall(_) =>
        ApplyAddsAgreeing(db, id, Exhausted, r, BySystem, None, [RideCancelled(id, BySystem, "no_driver_found")]);
      case FareCalculatedCall(_, _, _, _) =>
      case PaymentCompletedCall(_, m) =>
        ApplyAddsAgreeing(db, id, PaymentSuccess, r.(paymentMethod := Some(m)), BySystem, None,
                          [RideCompleted(id, r.passengerId, r.driverId, r.distanceM, r.durationS, r.farePaisa, m)]);
      case PaymentFailedCall(_) => ApplyAddsAgreeing(db, id, FailPayment, r, BySystem, None, []);
    }
  }

  lemma StepAddsAgreeing(cfg: RideConfig, s: Sys, c: Timed)
    ensures AddsAgreeing(s.db, Step(cfg, s, c).db)
  {
    if c.at >= s.now && !c.call.RequestCall? {
      if c.call.DriverCancelCall? {
        DriverCancelAddsAgreeing(cfg, s.db, c.call.rideId, c.call.driverId, c.call.reason);
      } else if c.call.ArrivedCall? || c.call.StartCall? || c.call.EndCall? || c.call.NoShowCall? {
        DriverAddsAgreeing(cfg, s.db, c.call, c.at);
      } else {
        OthersAddAgreeing(cfg, s.db, c.call, c.at);
      }
    }
  }

  /** Step n of a run sent the k-th event, and its ride's row then agreed with it in full. */
  predicate SentAt(cfg: RideConfig, start: int, calls: seq<Timed>, k: nat, n: nat)
    requires n < |calls| && k < |Run(cfg, start, calls).db.outbox|
  {
    var e, d := Run(cfg, start, calls).db.outbox[k], Run(cfg, start, calls[..n + 1]).db;
    && |Run(cfg, start, calls[..n]).db.outbox| <= k < |d.outbox|
    && e.rideId < |d.rides| && Agrees(d.rides[e.rideId], e)
  }

  /** Every ride event, of all six kinds, agrees in full with its ride's row when it goes out. */
  lemma {:induction false} EventsAgreeWhenSent(cfg: RideConfig, start: int, calls: seq<Timed>, k: nat)
    requires k < |Run(cfg, start, calls).db.outbox|
    ensures exists n :: 0 <= n < |calls| && SentAt(cfg, start, calls, k, n)
  {
    var n := |calls| - 1;
    var init := calls[..n];
    var s, t := Run(cfg, start, init), Run(cfg, start, calls);
    StepAddsAgreeing(cfg, s, calls[n]);
    if k < |s.db.outbox| {
      EventsAgreeWhenSent(cfg, start, init, k);
      var i :| 0 <= i < |init| && SentAt(cfg, start, init, k, i);
      assert init[..i] == calls[..i] && init[..i + 1] == calls[..i + 1];
      assert SentAt(cfg, start, calls, k, i);
    } else {
      assert calls[..n + 1] == calls;
      assert SentAt(cfg, start, calls, k, n);
    }
  }

  // ------------------------------------------------- fare and distance, after the event

  predicate IsCharged(db: Db, id: nat, distanceM: Option<real>, farePaisa: Option<int>) {
    id < |db.rides| && db.rides[id].distanceM == distanceM && db.rides[id].farePaisa == farePaisa
  }

  /** A fare.calculated for the ride, heard at the time, with another fare or another distance. */
  predicate ChargesOtherwise(s: Sys, c: Timed, id: nat, distanceM: Option<real>, farePaisa: Option<int>) {
    && c.at >= s.now && c.call.FareCalculatedCall? && c.call.rideId == id
    && (Some(c.call.farePaisa) != farePaisa || (c.call.distanceM.Some? && c.call.distanceM != distanceM))
  }

  lemma OtherCallsLeaveCharge(cfg: RideConfig, db: Db, call: Call, now: int, id: nat)
    requires id < |db.rides| && !(call.FareCalculatedCall? && call.rideId == id)
    ensures var d := Perform(cfg, db, call, now).0;
      id < |d.rides| && d.rides[id].distanceM == db.rides[id].distanceM && d.rides[id].farePaisa == db.rides[id].farePaisa
  {
  }

  lemma ChargeChangesExactlyByFare(cfg: RideConfig, s: Sys, c: Timed, id: nat, distanceM: Option<real>, farePaisa: Option<int>)
    requires IsCharged(s.db, id, distanceM, farePaisa)
    ensures IsCharged(Step(cfg, s, c).db, id, distanceM, farePaisa) <==> !ChargesOtherwise(s, c, id, distanceM, farePaisa)
  {
    if c.at >= s.now && !(c.call.FareCalculatedCall? && c.call.rideId == id) {
      OtherCallsLeaveCharge(cfg, s.db, c.call, c.at, id);
    }
  }

  function RunFrom(cfg: RideConfig, s: Sys, more: seq<Timed>): Sys {
    if more == [] then s else Step(cfg, RunFrom(cfg, s, more[..|more| - 1]), more[|more| - 1])
  }

  /** Charged like this now and after every step. */
  predicate ChargedThroughout(cfg: RideConfig, s: Sys, more: seq<Timed>, id: nat, distanceM: Option<real>, farePaisa: Option<int>) {
    && IsCharged(RunFrom(cfg, s, more).db, id, distanceM, farePaisa)
    && (more == [] || ChargedThroughout(cfg, s, more[..|more| - 1], id, distanceM, farePaisa))
  }

  predicate NeverChargedOtherwise(cfg: RideConfig, s: Sys, more: seq<Timed>, id: nat, distanceM: Option<real>, farePaisa: Option<int>) {
    more == [] ||
    var init := more[..|more| - 1];
    && NeverChargedOtherwise(cfg, s, init, id, distanceM, farePaisa)
    && !ChargesOtherwise(RunFrom(cfg, s, init), more[|more| - 1], id, distanceM, farePaisa)
  }

  /** The fare and distance a ride's event told stay its row's exactly as long as no fare.calculated tells another, before completion or after. */
  lemma {:induction false} ChargeLastsExactlyWithoutOtherFare(cfg: RideConfig, s: Sys, more: seq<Timed>, id: nat, distanceM: Option<real>, farePaisa: Option<int>)
    requires IsCharged(s.db, id, distanceM, farePaisa)
    ensures ChargedThroughout(cfg, s, more, id, distanceM, farePaisa) <==> NeverChargedOtherwise(cfg, s, more, id, distanceM, farePaisa)
  {
    if more != [] {
      var init := more[..|more| - 1];
      ChargeLastsExactlyWithoutOtherFare(cfg, s, init, id, distanceM, farePaisa);
      if IsCharged(RunFrom(cfg, s, init).db, id, distanceM, farePaisa) {
        ChargeChangesExactlyByFare(cfg, RunFrom(cfg, s, init), more[|more| - 1], id, distanceM, farePaisa);
      }
    }
  }

  /** For every configuration some completed ride is charged anew. */
  lemma CompletedRideIsRecharged(cfg: RideConfig) returns (calls: seq<Timed>, c: Timed)
    ensures var s := Run(cfg, 0, calls);
      && |s.db.rides| == 1 && s.db.rides[0].status == Completed
      && var t := Step(cfg, s, c);
      |t.db.rides| == 1 && t.db.rides[0].status == Completed && t.db.rides[0].farePaisa != s.db.rides[0].farePaisa
  {
    calls := RideTerminal.BoundIsMet(cfg);
    var fare := Run(cfg, 0, calls).db.rides[0].farePaisa;
    c := Timed(0, FareCalculatedCall(0, if fare.Some? then fare.value + 1 else 0, 1, None));
  }
}
