/**
 * What each call of the payment service leaves behind in every run, told in rows and events: which row it
 * writes, what that row holds, which event goes out with it, and that every other row stays as it was.
 */
module PaymentAnswers {
  import opened Wrappers
  import opened Idempotency
  import opened Payments
  import opened PaymentRuns

  ghost predicate HasSuccess(payments: seq<Payment>, rideId: string) {
    exists i :: 0 <= i < |payments| && payments[i].rideId == rideId && payments[i].status == Succeeded
  }

  ghost predicate RefTaken(payments: seq<Payment>, txnRef: string) {
    exists i :: 0 <= i < |payments| && payments[i].gatewayTxnRef == Some(txnRef)
  }

  /** The reply is the ride's succeeded row. */
  ghost predicate AnswersSuccess(payments: seq<Payment>, rideId: string, r: Reply) {
    r.Row? && r.payment in payments && r.payment.rideId == rideId && r.payment.status == Succeeded
  }

  /** The next attempt of a ride, neither answered nor settled. */
  function Attempt(rideId: string, means: Means, amountPaisa: int, n: nat): Payment {
    Payment(rideId, means, amountPaisa, PendingGateway, n, IdempotencyKey(rideId, n), None, None)
  }

  /** The reply to a call after others. */
  function ReplyTo(policy: Policy, calls: seq<Timed>, c: Timed): Reply {
    Perform(policy, Run(policy, calls), c).1
  }

  // -------------------------------------------------------------------- the unique indexes

  lemma NextKeyIsFree(policy: Policy, payments: seq<Payment>, p: Payment)
    requires AttemptsOk(policy, payments) && p.attemptN == CountOf(payments, p.rideId) + 1
    requires p.idempotencyKey == IdempotencyKey(p.rideId, p.attemptN) && p.gatewayTxnRef.None?
    requires p.status == Succeeded ==> !HasSuccess(payments, p.rideId)
    ensures Find(payments, WithKey(p.idempotencyKey)).None?
    ensures !Violates(payments, |payments|, p)
  {
    KeyTakenExactlyUpToCount(policy, payments, p.rideId, p.attemptN);
    forall i | 0 <= i < |payments|
      ensures !Clash(payments[i], p)
    {
      assert !Matches(WithKey(p.idempotencyKey), payments[i]);
    }
  }

  /** A newest row of a table whose other rows do not clash violates an index exactly by its reference or as a second success. */
  lemma LastClashes(init: seq<Payment>, p: Payment, q: Payment)
    requires !Violates(init, |init|, p) && q == p.(status := q.status, gatewayTxnRef := q.gatewayTxnRef, settledAt := q.settledAt)
    ensures Violates(init + [p], |init|, q) <==>
      (q.gatewayTxnRef.Some? && RefTaken(init, q.gatewayTxnRef.value)) || (q.status == Succeeded && HasSuccess(init, q.rideId))
  {
    var all := init + [p];
    if Violates(all, |init|, q) {
      var i :| 0 <= i < |all| && i != |init| && Clash(all[i], q);
      assert !Clash(init[i], p);
    }
    if q.gatewayTxnRef.Some? && RefTaken(init, q.gatewayTxnRef.value) {
      var i :| 0 <= i < |init| && init[i].gatewayTxnRef == q.gatewayTxnRef;
      assert Clash(all[i], q);
    }
    if q.status == Succeeded && HasSuccess(init, q.rideId) {
      var i :| 0 <= i < |init| && init[i].rideId == q.rideId && init[i].status == Succeeded;
      assert Clash(all[i], q);
    }
  }

  lemma SuccessFound(payments: seq<Payment>, rideId: string)
    ensures HasSuccess(payments, rideId) <==> Find(payments, SuccessOf(rideId)).Some?
  {
    var f := Find(payments, SuccessOf(rideId));
    if i :| 0 <= i < |payments| && payments[i].rideId == rideId && payments[i].status == Succeeded {
      assert Matches(SuccessOf(rideId), payments[i]);
    }
  }

  // ------------------------------------------------------------------------------------ pay

  /** The row and the events that an answer leaves of a new attempt p under id n, and the reply. */
  ghost predicate Answered(before: seq<Payment>, p: Payment, n: nat, outcome: GatewayOutcome, at: int, row: Payment, events: seq<Event>, r: Reply) {
    match outcome
    case Rejected => row == p.(status := Failed) && events == [PaymentFailed(p.rideId, n, p.means)] && r == Row(row)
    case Unreachable => row == p && events == [] && r == Refused(GatewayError)
    case Pending(txnRef) =>
      && events == []
      && if RefTaken(before, txnRef) then row == p && r == Refused(UniqueViolation)
         else row == p.(gatewayTxnRef := Some(txnRef)) && r == Row(row)
    case Accepted(txnRef) =>
      if HasSuccess(before, p.rideId) then row == p && events == [] && AnswersSuccess(before, p.rideId, r)
      else if RefTaken(before, txnRef) then row == p && events == [] && r == Refused(UniqueViolation)
      else
        && row == p.(status := Succeeded, gatewayTxnRef := Some(txnRef), settledAt := Some(at))
        && events == [PaymentCompleted(p.rideId, n, p.means, p.amountPaisa, Some(txnRef))] && r == Row(row)
  }

  lemma AnswerIsExact(db: Db, p: Payment, outcome: GatewayOutcome, at: int)
    requires !Violates(db.payments, |db.payments|, p) && p.status == PendingGateway && p.gatewayTxnRef.None?
    ensures var n := |db.payments|;
      var (t, r) := Conclude(db.(payments := db.payments + [p]), n, p, outcome, at);
      && |t.payments| == n + 1 && t.payments[..n] == db.payments && t.payable == db.payable
      && exists events :: t.outbox == db.outbox + events && Answered(db.payments, p, n, outcome, at, t.payments[n], events, r)
  {
    var n, all := |db.payments|, db.payments + [p];
    var (t, r) := Conclude(db.(payments := all), n, p, outcome, at);
    assert all[..n] == db.payments && db.outbox + [] == db.outbox;
    match outcome
    case Rejected =>
      LastClashes(db.payments, p, p.(status := Failed));
      assert Answered(db.payments, p, n, outcome, at, t.payments[n], [PaymentFailed(p.rideId, n, p.means)], r);
    case Unreachable => assert Answered(db.payments, p, n, outcome, at, t.payments[n], [], r);
    case Pending(txnRef) =>
      LastClashes(db.payments, p, p.(gatewayTxnRef := Some(txnRef)));
      assert Answered(db.payments, p, n, outcome, at, t.payments[n], [], r);
    case Accepted(txnRef) =>
      LastClashes(db.payments, p, Settled(p, Some(txnRef), at));
      SuccessFound(db.payments, p.rideId);
      assert Find(all, SuccessOf(p.rideId)) == Find(db.payments, SuccessOf(p.rideId));
      if HasSuccess(db.payments, p.rideId) || RefTaken(db.payments, txnRef) {
        assert Answered(db.payments, p, n, outcome, at, t.payments[n], [], r);
      } else {
        assert Answered(db.payments, p, n, outcome, at, t.payments[n], [PaymentCompleted(p.rideId, n, p.means, p.amountPaisa, Some(txnRef))], r);
      }
  }

  /**
   * A digital payment of a priced ride with retries left always adds exactly one row, the ride's next
   * attempt at its price, and the gateway's answer decides its state, its event and the reply: a rejection
   * fails it and announces it, a pending one waits under the gateway's reference, an accepted one settles it
   * and announces it unless the ride has a success, which is then the answer. Otherwise nothing changes.
   */
  lemma {:induction false} PayDoesExactly(policy: Policy, calls: seq<Timed>, at: int, rideId: string, means: Means, outcome: GatewayOutcome)
    ensures var c := Timed(at, PayCall(rideId, means, outcome));
      var db, t, r := Run(policy, calls), Run(policy, calls + [c]), ReplyTo(policy, calls, c);
      var n, prior := |db.payments|, CountOf(db.payments, rideId);
      if means == Cash then t == db && r == Refused(UseCashReceived)
      else if rideId !in db.payable then t == db && r == Refused(RideNotPayable)
      else if prior >= policy.maxDigitalRetries then t == db && r == Refused(MaxRetriesExceeded)
      else
        && |t.payments| == n + 1 && t.payments[..n] == db.payments && t.payable == db.payable
        && exists events :: t.outbox == db.outbox + events
             && Answered(db.payments, Attempt(rideId, means, db.payable[rideId].amountPaisa, prior + 1), n, outcome, at, t.payments[n], events, r)
  {
    var db := Run(policy, calls);
    RunSnoc(policy, calls, Timed(at, PayCall(rideId, means, outcome)));
    RunKeepsInv(policy, calls);
    if means != Cash && rideId in db.payable && CountOf(db.payments, rideId) < policy.maxDigitalRetries {
      var p := Attempt(rideId, means, db.payable[rideId].amountPaisa, CountOf(db.payments, rideId) + 1);
      NextKeyIsFree(policy, db.payments, p);
      AnswerIsExact(db, p, outcome, at);
    }
  }

  // ------------------------------------------------------------------------------------ cash

  /** Cash for a priced ride without a success adds exactly its settled next attempt and one event; with one it answers with it. */
  lemma {:induction false} CashDoesExactly(policy: Policy, calls: seq<Timed>, at: int, rideId: string)
    ensures var c := Timed(at, CashCall(rideId));
      var db, t, r := Run(policy, calls), Run(policy, calls + [c]), ReplyTo(policy, calls, c);
      if rideId !in db.payable then t == db && r == Refused(RideNotPayable)
      else if HasSuccess(db.payments, rideId) then t == db && AnswersSuccess(db.payments, rideId, r)
      else
        var amount := db.payable[rideId].amountPaisa;
        var row := Attempt(rideId, Cash, amount, CountOf(db.payments, rideId) + 1).(status := Succeeded, settledAt := Some(at));
        && t.payments == db.payments + [row] && t.payable == db.payable && r == Row(row)
        && t.outbox == db.outbox + [PaymentCompleted(rideId, |db.payments|, Cash, amount, None)]
  {
    var db := Run(policy, calls);
    RunSnoc(policy, calls, Timed(at, CashCall(rideId)));
    RunKeepsInv(policy, calls);
    SuccessFound(db.payments, rideId);
    if rideId in db.payable && !HasSuccess(db.payments, rideId) {
      var p := Attempt(rideId, Cash, db.payable[rideId].amountPaisa, CountOf(db.payments, rideId) + 1);
      NextKeyIsFree(policy, db.payments, Settled(p, None, at));
    }
  }

  // -------------------------------------------------------------------------------- callback

  /** Row i is the one a callback is about: it bears the reference, or no row does and it is the ride's newest pending one. */
  ghost predicate IsTarget(payments: seq<Payment>, c: Callback, i: nat) {
    && i < |payments|
    && (payments[i].gatewayTxnRef == Some(c.txnRef)
        || (!RefTaken(payments, c.txnRef) && IsNewestPending(payments, c.rideId, i)))
  }

  ghost predicate IsNewestPending(payments: seq<Payment>, rideId: string, i: nat) {
    && i < |payments| && payments[i].rideId == rideId && payments[i].status == PendingGateway
    && forall j :: i < j < |payments| ==> !(payments[j].rideId == rideId && payments[j].status == PendingGateway)
  }

  lemma TargetIsFound(payments: seq<Payment>, c: Callback, i: nat)
    requires NoClashes(payments)
    ensures IsTarget(payments, c, i) <==> Target(payments, c) == Some(i)
  {
    var f, g := Find(payments, WithRef(c.txnRef)), Find(payments, PendingOf(c.rideId));
    if f.Some? {
      assert RefTaken(payments, c.txnRef);
      if i < |payments| && payments[i].gatewayTxnRef == Some(c.txnRef) && i != f.value {
        assert Clash(payments[i], payments[f.value]) && Clash(payments[f.value], payments[i]);
        assert false;
      }
    } else {
      assert !RefTaken(payments, c.txnRef) by {
        forall j | 0 <= j < |payments|
          ensures payments[j].gatewayTxnRef != Some(c.txnRef)
        {
          assert !Matches(WithRef(c.txnRef), payments[j]);
        }
      }
      if IsTarget(payments, c, i) {
        assert Matches(PendingOf(c.rideId), payments[i]);
        assert Matches(PendingOf(c.rideId), payments[g.value]);
      }
      if g == Some(i) {
        forall j | i < j < |payments|
          ensures !(payments[j].rideId == c.rideId && payments[j].status == PendingGateway)
        {
          assert !Matches(PendingOf(c.rideId), payments[j]);
        }
      }
    }
  }

  lemma TargetSaves(db: Db, i: nat, q: Payment)
    requires NoClashes(db.payments) && i < |db.payments|
    requires q == db.payments[i].(status := q.status, gatewayTxnRef := q.gatewayTxnRef, settledAt := q.settledAt)
    requires q.gatewayTxnRef.Some? && q.gatewayTxnRef != db.payments[i].gatewayTxnRef ==> !RefTaken(db.payments, q.gatewayTxnRef.value)
    requires q.status == Succeeded ==> !HasSuccess(db.payments, q.rideId)
    ensures !Violates(db.payments, i, q)
  {
    forall j | 0 <= j < |db.payments| && j != i
      ensures !Clash(db.payments[j], q)
    {
      assert if j < i then !Clash(db.payments[j], db.payments[i]) else !Clash(db.payments[i], db.payments[j]);
    }
  }

  ghost predicate AboutUnsettled(payments: seq<Payment>, c: Callback, i: nat) {
    IsTarget(payments, c, i) && payments[i].status != Succeeded
  }

  /** What a signed callback makes of row i, which has not succeeded, what it announces, and the reply. */
  ghost predicate CallbackAnswered(db: Db, t: Db, c: Callback, i: nat, at: int, r: Reply)
    requires i < |db.payments|
  {
    var p := db.payments[i];
    if !c.success then
      var row := p.(status := Failed);
      && t == db.(payments := db.payments[i := row], outbox := db.outbox + [PaymentFailed(p.rideId, i, p.means)])
      && r == Row(row)
    else if HasSuccess(db.payments, p.rideId) then t == db && AnswersSuccess(db.payments, p.rideId, r)
    else
      var row := p.(status := Succeeded, gatewayTxnRef := Some(c.txnRef), settledAt := Some(at));
      && t == db.(payments := db.payments[i := row], outbox := db.outbox + [PaymentCompleted(p.rideId, i, p.means, p.amountPaisa, Some(c.txnRef))])
      && r == Row(row)
  }

  lemma TargetAnswered(db: Db, c: Callback, i: nat, at: int)
    requires NoClashes(db.payments) && AboutUnsettled(db.payments, c, i) && c.signed
    ensures var (t, r) := HandleCallback(db, c, at); CallbackAnswered(db, t, c, i, at, r)
  {
    var p := db.payments[i];
    TargetIsFound(db.payments, c, i);
    SuccessFound(db.payments, p.rideId);
    if !c.success {
      TargetSaves(db, i, p.(status := Failed));
    } else if !HasSuccess(db.payments, p.rideId) {
      TargetSaves(db, i, Settled(p, Some(c.txnRef), at));
    }
  }

  /**
   * A callback changes nothing unless it is signed and about a row that has not succeeded. Then a failure
   * fails that row and announces it, and a success settles it under the callback's reference and announces
   * it, unless the ride has a success, which is then the answer. No other row changes.
   */
  lemma {:induction false} CallbackDoesExactly(policy: Policy, calls: seq<Timed>, at: int, c: Callback)
    ensures var db, t := Run(policy, calls), Run(policy, calls + [Timed(at, CallbackCall(c))]);
      var r := ReplyTo(policy, calls, Timed(at, CallbackCall(c)));
      && (!c.signed ==> t == db && r == Refused(BadSignature))
      && (c.signed && (forall i: nat :: !AboutUnsettled(db.payments, c, i)) ==> t == db && r == Nothing)
      && (forall i: nat :: c.signed && AboutUnsettled(db.payments, c, i) ==> CallbackAnswered(db, t, c, i, at, r))
  {
    var db := Run(policy, calls);
    RunSnoc(policy, calls, Timed(at, CallbackCall(c)));
    RunKeepsInv(policy, calls);
    var found := Target(db.payments, c);
    if found.Some? {
      TargetIsFound(db.payments, c, found.value);
      assert db.payments[found.value].status != Succeeded ==> AboutUnsettled(db.payments, c, found.value);
    }
    forall i: nat | c.signed && AboutUnsettled(db.payments, c, i)
      ensures CallbackAnswered(db, Run(policy, calls + [Timed(at, CallbackCall(c))]), c, i, at, ReplyTo(policy, calls, Timed(at, CallbackCall(c))))
    {
      TargetIsFound(db.payments, c, i);
      TargetAnswered(db, c, i, at);
    }
  }

  // -------------------------------------------------------------------------------- failures

  /** Some payment.failed tells of the row under its id, ride and means. */
  predicate FailureAnnounced(db: Db, id: nat)
    requires id < |db.payments|
  {
    PaymentFailed(db.payments[id].rideId, id, db.payments[id].means) in db.outbox
  }

  ghost predicate FailuresAnnounced(db: Db) {
    forall id {:trigger FailureAnnounced(db, id)} :: 0 <= id < |db.payments| && db.payments[id].status == Failed ==> FailureAnnounced(db, id)
  }

  lemma GrowthKeepsAnnounced(db: Db, t: Db, id: nat)
    requires FailuresAnnounced(db) && db.outbox <= t.outbox && id < |db.payments| && id < |t.payments|
    requires t.payments[id] == db.payments[id] && t.payments[id].status == Failed
    ensures FailureAnnounced(t, id)
  {
    assert FailureAnnounced(db, id);
    var e := PaymentFailed(t.payments[id].rideId, id, t.payments[id].means);
    var k :| 0 <= k < |db.outbox| && db.outbox[k] == e;
    assert t.outbox[k] == e;
  }

  lemma {:induction false} PayAnnounces(policy: Policy, calls: seq<Timed>, at: int, rideId: string, means: Means, outcome: GatewayOutcome)
    requires FailuresAnnounced(Run(policy, calls))
    ensures FailuresAnnounced(Run(policy, calls + [Timed(at, PayCall(rideId, means, outcome))]))
  {
    var db, t := Run(policy, calls), Run(policy, calls + [Timed(at, PayCall(rideId, means, outcome))]);
    PayDoesExactly(policy, calls, at, rideId, means, outcome);
    forall id | 0 <= id < |t.payments| && t.payments[id].status == Failed
      ensures FailureAnnounced(t, id)
    {
      if id < |db.payments| {
        assert t == db || t.payments[..|db.payments|][id] == db.payments[id];
        GrowthKeepsAnnounced(db, t, id);
      } else {
        assert t.outbox[|db.outbox|] == PaymentFailed(t.payments[id].rideId, id, t.payments[id].means);
      }
    }
  }

  lemma {:induction false} CallbackAnnounces(policy: Policy, calls: seq<Timed>, at: int, c: Callback)
    requires FailuresAnnounced(Run(policy, calls))
    ensures FailuresAnnounced(Run(policy, calls + [Timed(at, CallbackCall(c))]))
  {
    var db, t := Run(policy, calls), Run(policy, calls + [Timed(at, CallbackCall(c))]);
    CallbackDoesExactly(policy, calls, at, c);
    if t != db {
      var i: nat :| AboutUnsettled(db.payments, c, i);
      forall id | 0 <= id < |t.payments| && t.payments[id].status == Failed
        ensures FailureAnnounced(t, id)
      {
        if id != i {
          GrowthKeepsAnnounced(db, t, id);
        } else {
          assert t.outbox[|db.outbox|] == PaymentFailed(t.payments[id].rideId, id, t.payments[id].means);
        }
      }
    }
  }

  /** In every run each failed row was announced as failed, under its own id, ride and means. */
  lemma {:induction false} FailedRowsWereAnnounced(policy: Policy, calls: seq<Timed>)
    ensures FailuresAnnounced(Run(policy, calls))
  {
    if calls != [] {
      var init, c := calls[..|calls| - 1], calls[|calls| - 1];
      FailedRowsWereAnnounced(policy, init);
      assert calls == init + [c];
      var db, t := Run(policy, init), Run(policy, calls);
      match c.call
      case PayCall(rideId, means, outcome) => PayAnnounces(policy, init, c.at, rideId, means, outcome);
      case CallbackCall(callback) => CallbackAnnounces(policy, init, c.at, callback);
      case CashCall(rideId) => CashDoesExactly(policy, init, c.at, rideId);
        forall id | 0 <= id < |t.payments| && t.payments[id].status == Failed
          ensures FailureAnnounced(t, id)
        {
          GrowthKeepsAnnounced(db, t, id);
        }
      case FareCall(_, _, _) =>
        forall id | 0 <= id < |t.payments| && t.payments[id].status == Failed
          ensures FailureAnnounced(t, id)
        {
          GrowthKeepsAnnounced(db, t, id);
        }
    }
  }
}
