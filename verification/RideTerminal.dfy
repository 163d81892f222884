/**
 * Rides that are over, and how long the others can go on: what the driver's cancel at the cap does to
 * a terminal ride, and runs that meet the bound on active audit rows for every cap.
 */
module RideTerminal {
  import opened Wrappers
  import opened Sums
  import opened RideStateMachine
  import opened RideService
  import opened RideLifecycle

  /** A driver's cancel by the driver still on the row, at or over the rematch cap. */
  predicate LateDriverCancel(cfg: RideConfig, db: Db, call: Call, id: nat) {
    && call.DriverCancelCall? && call.rideId == id && id < |db.rides|
    && db.rides[id].driverId == Some(call.driverId) && db.rides[id].rematchCount >= cfg.maxAutoRematch
  }

  lemma StepMovesOneRide(cfg: RideConfig, db: Db, call: Call, now: int)
    ensures var d := Perform(cfg, db, call, now).0;
      && |db.rides| <= |d.rides|
      && forall id :: 0 <= id < |db.rides| && (call.RequestCall? || call.rideId != id) ==> d.rides[id] == db.rides[id]
  {
  }

  /**
   * The audit of a ride that is over grows exactly by a late driver cancel, which turns it to
   * cancelled_by_driver; nothing else gets past the transition table.
   */
  lemma {:induction false} TerminalIsLeftExactlyByLateCancel(cfg: RideConfig, start: int, calls: seq<Timed>, c: Timed, id: nat)
    requires var s := Run(cfg, start, calls); id < |s.db.rides| && IsTerminal(s.db.rides[id].status) && c.at >= s.now
    ensures var s, t := Run(cfg, start, calls), Step(cfg, Run(cfg, start, calls), c);
      && (HistoryOf(t.db.audit, id) != HistoryOf(s.db.audit, id) <==> LateDriverCancel(cfg, s.db, c.call, id))
      && id < |t.db.rides|
      && t.db.rides[id].status == (if LateDriverCancel(cfg, s.db, c.call, id) then CancelledByDriver else s.db.rides[id].status)
  {
    var s := Run(cfg, start, calls);
    RunKeepsInv(cfg, start, calls);
    StepMovesOneRide(cfg, s.db, c.call, c.at);
    if c.call.RequestCall? || c.call.rideId != id {
      OthersKeepHistory(cfg, s.db, c.call, c.at, id);
    } else if LateDriverCancel(cfg, s.db, c.call, id) {
      LateCancelLands(cfg, s.db, c.call, c.at, id);
    } else {
      TerminalCallsLeaveAudit(cfg, s.db, c.call, c.at);
    }
  }

  lemma LateCancelLands(cfg: RideConfig, db: Db, call: Call, now: int, id: nat)
    requires TableOk(db.rides) && LateDriverCancel(cfg, db, call, id) && IsTerminal(db.rides[id].status)
    ensures var d := Perform(cfg, db, call, now).0;
      && HistoryOf(d.audit, id) != HistoryOf(db.audit, id) && |d.rides| == |db.rides| && d.rides[id].status == CancelledByDriver
  {
    var r := db.rides[id];
    var next := r.(status := CancelledByDriver, cancelReason := Some(call.reason));
    OldClaimsDoNotClash(db.rides, id, next);
    var row := Row(id, Some(r.status), CancelledByDriver, ByDriver, Some(call.driverId));
    AppendedRow(db.audit, row, id);
    var d := Perform(cfg, db, call, now).0;
    assert d.audit == db.audit + [row];
    assert |HistoryOf(d.audit, id)| == |HistoryOf(db.audit, id)| + 1;
  }

  lemma TerminalCallsLeaveAudit(cfg: RideConfig, db: Db, call: Call, now: int)
    requires !call.RequestCall? && call.rideId < |db.rides| && IsTerminal(db.rides[call.rideId].status)
    requires !LateDriverCancel(cfg, db, call, call.rideId)
    ensures var d := Perform(cfg, db, call, now).0;
      d.audit == db.audit && |d.rides| == |db.rides| && d.rides[call.rideId].status == db.rides[call.rideId].status
  {
  }

  lemma OthersKeepHistory(cfg: RideConfig, db: Db, call: Call, now: int, id: nat)
    requires id < |db.rides| && (call.RequestCall? || call.rideId != id)
    ensures HistoryOf(Perform(cfg, db, call, now).0.audit, id) == HistoryOf(db.audit, id)
  {
    var d := Perform(cfg, db, call, now).0;
    if call.RequestCall? {
      if d != db {
        var a, b := d.audit[|db.audit|], d.audit[|db.audit| + 1];
        assert d.audit == db.audit + [a] + [b];
        AppendedRow(db.audit, a, id);
        AppendedRow(db.audit + [a], b, id);
      }
    } else {
      RowsNameTheirRide(cfg, db, call, now);
      if d.audit != db.audit {
        AppendedRow(db.audit, d.audit[|db.audit|], id);
      }
    }
  }

  lemma RowsNameTheirRide(cfg: RideConfig, db: Db, call: Call, now: int)
    requires !call.RequestCall?
    ensures var d := Perform(cfg, db, call, now).0;
      d.audit == db.audit || (|d.audit| == |db.audit| + 1 && d.audit == db.audit + [d.audit[|db.audit|]] && d.audit[|db.audit|].rideId == call.rideId)
  {
  }

  predicate IsOver(s: Sys, id: nat) {
    id < |s.db.rides| && IsTerminal(s.db.rides[id].status)
  }

  lemma {:induction false} StepKeepsTerminal(cfg: RideConfig, start: int, calls: seq<Timed>, c: Timed, id: nat)
    requires IsOver(Run(cfg, start, calls), id)
    ensures IsOver(Step(cfg, Run(cfg, start, calls), c), id)
  {
    if c.at >= Run(cfg, start, calls).now {
      TerminalIsLeftExactlyByLateCancel(cfg, start, calls, c, id);
    }
  }

  /** A ride that is over is never active again, whatever follows. */
  lemma {:induction false} TerminalStaysTerminal(cfg: RideConfig, start: int, calls: seq<Timed>, more: seq<Timed>, id: nat)
    requires IsOver(Run(cfg, start, calls), id)
    ensures IsOver(Run(cfg, start, calls + more), id)
  {
    if more == [] {
      assert calls + more == calls;
    } else {
      var init, c := more[..|more| - 1], more[|more| - 1];
      TerminalStaysTerminal(cfg, start, calls, init, id);
      StepKeepsTerminal(cfg, start, calls + init, c, id);
      RunSnoc(cfg, start, calls + init, c);
      assert calls + more == calls + init + [c];
    }
  }

  // ------------------------------------------------- one ride, taken as far as it can go

  /** One ride of one passenger, waiting for a driver after n rematches, with every row so far an active one. */
  predicate Waiting(s: Sys, n: nat) {
    && s.now == 0 && s.db.rides == [NewRide("p", 0).(rematchCount := n)]
    && Sum(s.db.audit, ActiveRowsOf(0)) == 3 * n + 2
  }

  lemma MovesAlone(db: Db, action: RideAction, changed: Ride, actor: Actor, actorId: Option<string>, events: seq<Event>)
    requires |db.rides| == 1 && Transition(db.rides[0].status, action).Some?
    ensures var d := Apply(db, 0, action, changed, actor, actorId, events).0;
      && d.rides == [changed.(status := Transition(db.rides[0].status, action).value)]
      && Sum(d.audit, ActiveRowsOf(0)) == Sum(db.audit, ActiveRowsOf(0)) + 1
  {
    var to := Transition(db.rides[0].status, action).value;
    var row := Row(0, Some(db.rides[0].status), to, actor, actorId);
    SavesAlone(db, changed.(status := to), actor, actorId, events);
    AppendedRow(db.audit, row, 0);
  }

  lemma SavesAlone(db: Db, next: Ride, actor: Actor, actorId: Option<string>, events: seq<Event>)
    requires |db.rides| == 1
    ensures var d := Save(db, 0, next, actor, actorId, events).0;
      d.rides == [next] && d.audit == db.audit + [Row(0, Some(db.rides[0].status), next.status, actor, actorId)]
  {
    assert !Violates(db.rides, 0, next);
    assert db.rides[0 := next] == [next];
  }

  const VEHICLE := Some("v")

  function Carried(n: nat, status: Status): Ride {
    NewRide("p", 0).(rematchCount := n, driverId := Some("d"), vehicleId := VEHICLE, assignedAt := Some(0), status := status)
  }

  lemma AcceptAndArrive(cfg: RideConfig, s: Sys, n: nat)
    requires Waiting(s, n)
    ensures var t := Step(cfg, Step(cfg, s, Timed(0, AcceptCall(0, "d", Won(VEHICLE)))), Timed(0, ArrivedCall(0, "d")));
      && t.now == 0 && t.db.rides == [Carried(n, Arriving).(arrivedAt := Some(0))]
      && Sum(t.db.audit, ActiveRowsOf(0)) == 3 * n + 4
  {
    MovesAlone(s.db, Assign, Carried(n, Matching), ByDriver, Some("d"), [RideAssigned(0, "d", VEHICLE)]);
    var u := Step(cfg, s, Timed(0, AcceptCall(0, "d", Won(VEHICLE))));
    assert u.db.rides == [Carried(n, Assigned)];
    MovesAlone(u.db, Arrive, Carried(n, Assigned).(arrivedAt := Some(0)), ByDriver, Some("d"), []);
  }

  lemma RunSnoc(cfg: RideConfig, start: int, calls: seq<Timed>, c: Timed)
    ensures Run(cfg, start, calls + [c]) == Step(cfg, Run(cfg, start, calls), c)
  {
    assert (calls + [c])[..|calls|] == calls;
  }

  lemma ReachArriving(cfg: RideConfig, calls: seq<Timed>, n: nat) returns (more: seq<Timed>)
    requires Waiting(Run(cfg, 0, calls), n)
    ensures var t := Run(cfg, 0, more);
      && t.now == 0 && t.db.rides == [Carried(n, Arriving).(arrivedAt := Some(0))]
      && Sum(t.db.audit, ActiveRowsOf(0)) == 3 * n + 4
  {
    var a, b := Timed(0, AcceptCall(0, "d", Won(VEHICLE))), Timed(0, ArrivedCall(0, "d"));
    RunSnoc(cfg, 0, calls, a);
    RunSnoc(cfg, 0, calls + [a], b);
    AcceptAndArrive(cfg, Run(cfg, 0, calls), n);
    more := calls + [a] + [b];
  }

  lemma FirstRequest(cfg: RideConfig) returns (calls: seq<Timed>)
    ensures Waiting(Run(cfg, 0, calls), 0)
  {
    var c := Timed(0, RequestCall("p"));
    calls := [] + [c];
    RunSnoc(cfg, 0, [], c);
    var a, b := Row(0, None, Requested, ByPassenger, Some("p")), Row(0, Some(Requested), Matching, BySystem, None);
    assert Run(cfg, 0, calls).db.audit == [] + [a] + [b];
    FirstRows([], 0, a, b);
  }

  lemma Rematch(cfg: RideConfig, s: Sys, n: nat)
    requires n < cfg.maxAutoRematch && s.now == 0 && s.db.rides == [Carried(n, Arriving).(arrivedAt := Some(0))]
    requires Sum(s.db.audit, ActiveRowsOf(0)) == 3 * n + 4
    ensures Waiting(Step(cfg, s, Timed(0, DriverCancelCall(0, "d", "flat tyre"))), n + 1)
  {
    var r := s.db.rides[0];
    MovesAlone(s.db, DriverCancel,
               r.(driverId := None, vehicleId := None, assignedAt := None, arrivedAt := None, rematchCount := r.rematchCount + 1),
               ByDriver, Some("d"), [RideRequested(0, "p")]);
  }

  lemma {:induction false} RematchTo(cfg: RideConfig, n: nat) returns (calls: seq<Timed>)
    requires n <= cfg.maxAutoRematch
    ensures Waiting(Run(cfg, 0, calls), n)
  {
    if n == 0 {
      calls := FirstRequest(cfg);
    } else {
      var before := RematchTo(cfg, n - 1);
      var arrived := ReachArriving(cfg, before, n - 1);
      var c := Timed(0, DriverCancelCall(0, "d", "flat tyre"));
      RunSnoc(cfg, 0, arrived, c);
      Rematch(cfg, Run(cfg, 0, arrived), n - 1);
      calls := arrived + [c];
    }
  }

  lemma StartIsApply(cfg: RideConfig, db: Db, driverId: string)
    requires |db.rides| == 1 && db.rides[0].driverId == Some(driverId)
    ensures StartRide(cfg, db, 0, driverId, cfg.startProximityMeters, 0)
         == Apply(db, 0, Start, db.rides[0].(startedAt := Some(0)), ByDriver, Some(driverId), [RideStarted(0, db.rides[0].vehicleId)])
  {
    assert DriverCheck(db, 0, driverId).None?;
  }

  lemma EndIsApply(db: Db, driverId: string)
    requires |db.rides| == 1 && db.rides[0].driverId == Some(driverId) && db.rides[0].startedAt == Some(0)
    ensures EndRide(db, 0, driverId, 0)
         == Apply(db, 0, End, db.rides[0].(endedAt := Some(0), durationS := Some(0)), ByDriver, Some(driverId),
                  [RideEnded(0, db.rides[0].vehicleId, db.rides[0].startedAt, 0, 0)])
  {
    assert DriverCheck(db, 0, driverId).None?;
    assert RoundedSeconds(0) == 0;
  }

  lemma SetOff(cfg: RideConfig, s: Sys)
    requires s.now == 0 && |s.db.rides| == 1 && s.db.rides[0].status == Arriving && s.db.rides[0].driverId == Some("d")
    ensures var t := Step(cfg, s, Timed(0, StartCall(0, "d", cfg.startProximityMeters)));
      && t.now == 0 && t.db.rides == [s.db.rides[0].(startedAt := Some(0), status := InProgress)]
      && Sum(t.db.audit, ActiveRowsOf(0)) == Sum(s.db.audit, ActiveRowsOf(0)) + 1
  {
    StartIsApply(cfg, s.db, "d");
    MovesAlone(s.db, Start, s.db.rides[0].(startedAt := Some(0)), ByDriver, Some("d"), [RideStarted(0, s.db.rides[0].vehicleId)]);
  }

  lemma PullUp(cfg: RideConfig, s: Sys)
    requires s.now == 0 && |s.db.rides| == 1 && s.db.rides[0].status == InProgress
    requires s.db.rides[0].startedAt == Some(0) && s.db.rides[0].driverId == Some("d")
    ensures var t := Step(cfg, s, Timed(0, EndCall(0, "d")));
      && t.now == 0 && t.db.rides == [s.db.rides[0].(status := PendingPayment, endedAt := Some(0), durationS := Some(0))]
      && Sum(t.db.audit, ActiveRowsOf(0)) == Sum(s.db.audit, ActiveRowsOf(0)) + 1
  {
    EndIsApply(s.db, "d");
    MovesAlone(s.db, End, s.db.rides[0].(endedAt := Some(0), durationS := Some(0)), ByDriver, Some("d"),
               [RideEnded(0, s.db.rides[0].vehicleId, s.db.rides[0].startedAt, 0, 0)]);
  }

  lemma Drive(cfg: RideConfig, s: Sys)
    requires s.now == 0 && s.db.rides == [Carried(cfg.maxAutoRematch, Arriving).(arrivedAt := Some(0))]
    ensures var t := Step(cfg, Step(cfg, s, Timed(0, StartCall(0, "d", cfg.startProximityMeters))), Timed(0, EndCall(0, "d")));
      && t.now == 0 && |t.db.rides| == 1 && t.db.rides[0].status == PendingPayment
      && t.db.rides[0].driverId == Some("d") && t.db.rides[0].rematchCount == cfg.maxAutoRematch
      && Sum(t.db.audit, ActiveRowsOf(0)) == Sum(s.db.audit, ActiveRowsOf(0)) + 2
  {
    SetOff(cfg, s);
    PullUp(cfg, Step(cfg, s, Timed(0, StartCall(0, "d", cfg.startProximityMeters))));
  }

  lemma FailToPay(cfg: RideConfig, s: Sys)
    requires s.now == 0 && |s.db.rides| == 1 && s.db.rides[0].status == PendingPayment
    ensures var t := Step(cfg, s, Timed(0, PaymentFailedCall(0)));
      && t.now == 0 && t.db.rides == [s.db.rides[0].(status := PaymentFailed)]
      && Sum(t.db.audit, ActiveRowsOf(0)) == Sum(s.db.audit, ActiveRowsOf(0)) + 1
  {
    MovesAlone(s.db, FailPayment, s.db.rides[0], BySystem, None, []);
  }

  lemma PaidAlone(db: Db, paymentMethod: string)
    requires |db.rides| == 1 && db.rides[0].status == PaymentFailed
    ensures var d := OnPaymentCompleted(db, 0, paymentMethod).0;
      && d.rides == [db.rides[0].(status := Completed, paymentMethod := Some(paymentMethod))]
      && Sum(d.audit, ActiveRowsOf(0)) == Sum(db.audit, ActiveRowsOf(0)) + 1
  {
    var r := db.rides[0];
    MovesAlone(db, PaymentSuccess, r.(paymentMethod := Some(paymentMethod)), BySystem, None,
               [RideCompleted(0, r.passengerId, r.driverId, r.distanceM, r.durationS, r.farePaisa, paymentMethod)]);
  }

  lemma PayAfterAll(cfg: RideConfig, s: Sys)
    requires s.now == 0 && |s.db.rides| == 1 && s.db.rides[0].status == PaymentFailed
    ensures var t := Step(cfg, s, Timed(0, PaymentCompletedCall(0, "cash")));
      && t.now == 0 && t.db.rides == [s.db.rides[0].(status := Completed, paymentMethod := Some("cash"))]
      && Sum(t.db.audit, ActiveRowsOf(0)) == Sum(s.db.audit, ActiveRowsOf(0)) + 1
  {
    PaidAlone(s.db, "cash");
  }

  /** For every cap some run meets the bound on active rows, and completes its ride. */
  lemma {:induction false} BoundIsMet(cfg: RideConfig) returns (calls: seq<Timed>)
    ensures var s := Run(cfg, 0, calls);
      && Sum(s.db.audit, ActiveRowsOf(0)) == 3 * cfg.maxAutoRematch + 8
      && s.now == 0 && |s.db.rides| == 1 && s.db.rides[0].status == Completed
      && s.db.rides[0].driverId == Some("d") && s.db.rides[0].rematchCount == cfg.maxAutoRematch
  {
    var waiting := RematchTo(cfg, cfg.maxAutoRematch);
    var arrived := ReachArriving(cfg, waiting, cfg.maxAutoRematch);
    var a, b := Timed(0, StartCall(0, "d", cfg.startProximityMeters)), Timed(0, EndCall(0, "d"));
    RunSnoc(cfg, 0, arrived, a);
    RunSnoc(cfg, 0, arrived + [a], b);
    Drive(cfg, Run(cfg, 0, arrived));
    var ended := arrived + [a] + [b];
    var c, d := Timed(0, PaymentFailedCall(0)), Timed(0, PaymentCompletedCall(0, "cash"));
    RunSnoc(cfg, 0, ended, c);
    RunSnoc(cfg, 0, ended + [c], d);
    FailToPay(cfg, Run(cfg, 0, ended));
    PayAfterAll(cfg, Run(cfg, 0, ended + [c]));
    calls := ended + [c] + [d];
  }

  /** Terminal rides are not immutable: under every cap a completed, paid ride can turn to cancelled by its driver. */
  lemma {:induction false} CompletedRideIsCancelled(cfg: RideConfig) returns (calls: seq<Timed>, c: Timed)
    ensures var s, t := Run(cfg, 0, calls), Run(cfg, 0, calls + [c]);
      && |s.db.rides| == |t.db.rides| == 1
      && s.db.rides[0].status == Completed && t.db.rides[0].status == CancelledByDriver
  {
    calls := BoundIsMet(cfg);
    c := Timed(0, DriverCancelCall(0, "d", "late"));
    RunSnoc(cfg, 0, calls, c);
    TerminalIsLeftExactlyByLateCancel(cfg, 0, calls, c, 0);
    StepMovesOneRide(cfg, Run(cfg, 0, calls).db, c.call, 0);
  }
}
