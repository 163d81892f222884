/**
 * services/payment/src/payments/payments.service.ts, with canAttempt of domain/payment-policy.ts.
 * A payment's id is its place in insertion order, which is also the order of initiatedAt. What a
 * gateway answers and whether a callback's signature holds are parameters. Here each call is one
 * step; PaymentsInterleaving takes them apart at every await.
 */
module Payments {
  import opened Wrappers
  import opened Idempotency

  datatype Means = Cash | JazzCash | Card

  datatype PaymentStatus = PendingGateway | Succeeded | Failed

  datatype Payment = Payment(
    rideId: string, means: Means, amountPaisa: int, status: PaymentStatus, attemptN: nat,
    idempotencyKey: string, gatewayTxnRef: Option<string>, settledAt: Option<int>)

  datatype Payable = Payable(amountPaisa: int, fareConfigVersion: int)

  datatype Event =
    | PaymentCompleted(rideId: string, paymentId: nat, means: Means, amountPaisa: int, gatewayTxnRef: Option<string>)
    | PaymentFailed(rideId: string, paymentId: nat, means: Means)

  datatype PaymentError = UseCashReceived | RideNotPayable | MaxRetriesExceeded | BadSignature | UniqueViolation | GatewayError

  datatype Reply = Row(payment: Payment) | Nothing | Refused(error: PaymentError)

  /** What a gateway makes of a payment; Unreachable stands for a call that throws. */
  datatype GatewayOutcome = Accepted(txnRef: string) | Rejected | Pending(txnRef: string) | Unreachable

  datatype Db = Db(payable: map<string, Payable>, payments: seq<Payment>, outbox: seq<Event>)

  datatype Policy = Policy(maxDigitalRetries: int)

  // --------------------------------------------------------------------------- queries

  datatype Query = SuccessOf(rideId: string) | WithRef(txnRef: string) | WithKey(idempotencyKey: string) | PendingOf(rideId: string)

  predicate Matches(q: Query, p: Payment) {
    match q
    case SuccessOf(rideId) => p.rideId == rideId && p.status == Succeeded
    case WithRef(txnRef) => p.gatewayTxnRef == Some(txnRef)
    case WithKey(key) => p.idempotencyKey == key
    case PendingOf(rideId) => p.rideId == rideId && p.status == PendingGateway
  }

  /** The newest row that matches; for all but PendingOf there is at most one. */
  function Find(payments: seq<Payment>, q: Query): (r: Option<nat>)
    ensures r.Some? ==> r.value < |payments| && Matches(q, payments[r.value])
    ensures r.Some? ==> forall i :: r.value < i < |payments| ==> !Matches(q, payments[i])
    ensures r.None? ==> forall i :: 0 <= i < |payments| ==> !Matches(q, payments[i])
  {
    if payments == [] then None
    else if Matches(q, payments[|payments| - 1]) then Some(|payments| - 1)
    else Find(payments[..|payments| - 1], q)
  }

  function CountOf(payments: seq<Payment>, rideId: string): nat {
    if payments == [] then 0
    else CountOf(payments[..|payments| - 1], rideId) + if payments[|payments| - 1].rideId == rideId then 1 else 0
  }

  /** The three unique indexes. */
  predicate Clash(a: Payment, b: Payment) {
    || a.idempotencyKey == b.idempotencyKey
    || (a.gatewayTxnRef.Some? && a.gatewayTxnRef == b.gatewayTxnRef)
    || (a.rideId == b.rideId && a.status == Succeeded && b.status == Succeeded)
  }

  predicate Violates(payments: seq<Payment>, id: nat, p: Payment) {
    exists i :: 0 <= i < |payments| && i != id && Clash(payments[i], p)
  }

  // --------------------------------------------------------------------------- updates

  /** A row written over, or appended under the next id. */
  function Put(payments: seq<Payment>, id: nat, p: Payment): seq<Payment>
    requires id <= |payments|
  {
    if id < |payments| then payments[id := p] else payments + [p]
  }

  /** One transaction: the row and its events, or nothing. */
  function Save(db: Db, id: nat, p: Payment, events: seq<Event>): (Db, Reply)
    requires id <= |db.payments|
  {
    if Violates(db.payments, id, p) then (db, Refused(UniqueViolation))
    else (db.(payments := Put(db.payments, id, p), outbox := db.outbox + events), Row(p))
  }

  function Settled(p: Payment, txnRef: Option<string>, now: int): Payment {
    p.(status := Succeeded, gatewayTxnRef := txnRef, settledAt := Some(now))
  }

  /** The transaction of markSucceeded. */
  function CommitSuccess(db: Db, id: nat, p: Payment, txnRef: Option<string>, now: int): (Db, Reply)
    requires id <= |db.payments|
  {
    Save(db, id, Settled(p, txnRef, now), [PaymentCompleted(p.rideId, id, p.means, p.amountPaisa, txnRef)])
  }

  /** A second success is not recorded: the first one is the answer. */
  function MarkSucceeded(db: Db, id: nat, p: Payment, txnRef: Option<string>, now: int): (Db, Reply)
    requires id <= |db.payments|
  {
    var other := Find(db.payments, SuccessOf(p.rideId));
    if other.Some? && other.value != id then (db, Row(db.payments[other.value]))
    else CommitSuccess(db, id, p, txnRef, now)
  }

  function MarkFailed(db: Db, id: nat, p: Payment): (Db, Reply)
    requires id <= |db.payments|
  {
    Save(db, id, p.(status := Failed), [PaymentFailed(p.rideId, id, p.means)])
  }

  /** A pending outcome: the row as pay holds it, with the reference. */
  function Park(db: Db, id: nat, p: Payment, txnRef: string): (Db, Reply)
    requires id <= |db.payments|
  {
    Save(db, id, p.(gatewayTxnRef := Some(txnRef)), [])
  }

  // ----------------------------------------------------------------------------- calls

  function OnFareCalculated(db: Db, rideId: string, totalPaisa: int, version: int): Db {
    if rideId in db.payable then db else db.(payable := db.payable[rideId := Payable(totalPaisa, version)])
  }

  predicate CanAttempt(means: Means, priorAttempts: nat, policy: Policy) {
    means == Cash || priorAttempts < policy.maxDigitalRetries
  }

  function NewPayment(rideId: string, means: Means, amountPaisa: int, attemptN: nat): Payment {
    Payment(rideId, means, amountPaisa, PendingGateway, attemptN, IdempotencyKey(rideId, attemptN), None, None)
  }

  /** pay after its insert: what the gateway's answer does to the new row. */
  function Conclude(db: Db, id: nat, p: Payment, outcome: GatewayOutcome, now: int): (Db, Reply)
    requires id < |db.payments|
  {
    match outcome
    case Accepted(txnRef) => MarkSucceeded(db, id, p, Some(txnRef), now)
    case Rejected => MarkFailed(db, id, p)
    case Pending(txnRef) => Park(db, id, p, txnRef)
    case Unreachable => (db, Refused(GatewayError))
  }

  /** pay from its insert on. */
  function Initiate(db: Db, p: Payment, outcome: GatewayOutcome, now: int): (Db, Reply) {
    if Violates(db.payments, |db.payments|, p) then (db, Refused(UniqueViolation))
    else Conclude(db.(payments := db.payments + [p]), |db.payments|, p, outcome, now)
  }

  function Pay(policy: Policy, db: Db, rideId: string, means: Means, outcome: GatewayOutcome, now: int): (Db, Reply) {
    if means == Cash then (db, Refused(UseCashReceived))
    else if rideId !in db.payable then (db, Refused(RideNotPayable))
    else
      var prior := CountOf(db.payments, rideId);
      if !CanAttempt(means, prior, policy) then (db, Refused(MaxRetriesExceeded))
      else
        var existing := Find(db.payments, WithKey(IdempotencyKey(rideId, prior + 1)));
        if existing.Some? then (db, Row(db.payments[existing.value]))
        else
          Initiate(db, NewPayment(rideId, means, db.payable[rideId].amountPaisa, prior + 1), outcome, now)
  }

  function CashReceived(db: Db, rideId: string, now: int): (Db, Reply) {
    if rideId !in db.payable then (db, Refused(RideNotPayable))
    else
      var success := Find(db.payments, SuccessOf(rideId));
      if success.Some? then (db, Row(db.payments[success.value]))
      else
        var p := NewPayment(rideId, Cash, db.payable[rideId].amountPaisa, CountOf(db.payments, rideId) + 1);
        MarkSucceeded(db, |db.payments|, p, None, now)
  }

  datatype Callback = Callback(rideId: string, txnRef: string, success: bool, signed: bool)

  /** The row a callback is about: the one with its reference, or else the ride's newest pending one. */
  function Target(payments: seq<Payment>, c: Callback): Option<nat> {
    var existing := Find(payments, WithRef(c.txnRef));
    if existing.Some? then existing else Find(payments, PendingOf(c.rideId))
  }

  function HandleCallback(db: Db, c: Callback, now: int): (Db, Reply) {
    if !c.signed then (db, Refused(BadSignature))
    else
      var t := Target(db.payments, c);
      if t.None? || db.payments[t.value].status == Succeeded then (db, Nothing)
      else if c.success then MarkSucceeded(db, t.value, db.payments[t.value], Some(c.txnRef), now)
      else MarkFailed(db, t.value, db.payments[t.value])
  }

  // --------------------------------------------------------------------------- service

  class PaymentsService {
    const policy: Policy
    var payable: map<string, Payable>
    var payments: seq<Payment>
    var outbox: seq<Event>

    ghost function Snapshot(): Db
      reads this
    {
      Db(payable, payments, outbox)
    }

    constructor (policy: Policy)
      ensures this.policy == policy && Snapshot() == Db(map[], [], [])
    {
      this.policy := policy;
      payable, payments, outbox := map[], [], [];
    }

    method FindRow(q: Query) returns (r: Option<nat>)
      ensures r == Find(payments, q)
    {
      var n := |payments|;
      assert payments[..n] == payments;
      while n > 0
        invariant 0 <= n <= |payments| && Find(payments, q) == Find(payments[..n], q)
      {
        assert payments[..n][..n - 1] == payments[..n - 1];
        if Matches(q, payments[n - 1]) {
          return Some(n - 1);
        }
        n := n - 1;
      }
      r := None;
    }

    method Count(rideId: string) returns (n: nat)
      ensures n == CountOf(payments, rideId)
    {
      n := 0;
      var i := 0;
      while i < |payments|
        invariant 0 <= i <= |payments| && n == CountOf(payments[..i], rideId)
      {
        assert payments[..i + 1][..i] == payments[..i];
        if payments[i].rideId == rideId {
          n := n + 1;
        }
        i := i + 1;
      }
      assert payments[..i] == payments;
    }

    method FindClash(id: nat, p: Payment) returns (found: bool)
      ensures found == Violates(payments, id, p)
    {
      var i := 0;
      while i < |payments|
        invariant 0 <= i <= |payments|
        invariant forall j :: 0 <= j < i && j != id ==> !Clash(payments[j], p)
      {
        if i != id && Clash(payments[i], p) {
          return true;
        }
        i := i + 1;
      }
      found := false;
    }

    method SaveRow(id: nat, p: Payment, events: seq<Event>) returns (r: Reply)
      requires id <= |payments|
      modifies this`payments, this`outbox
      ensures (Snapshot(), r) == Save(old(Snapshot()), id, p, events)
    {
      var clash := FindClash(id, p);
      if clash {
        return Refused(UniqueViolation);
      }
      if id < |payments| {
        payments := payments[id := p];
      } else {
        payments := payments + [p];
      }
      outbox := outbox + events;
      r := Row(p);
    }

    method Succeed(id: nat, p: Payment, txnRef: Option<string>, now: int) returns (r: Reply)
      requires id <= |payments|
      modifies this`payments, this`outbox
      ensures (Snapshot(), r) == MarkSucceeded(old(Snapshot()), id, p, txnRef, now)
    {
      var other := FindRow(SuccessOf(p.rideId));
      if other.Some? && other.value != id {
        return Row(payments[other.value]);
      }
      var next := p.(status := Succeeded);
      next := next.(gatewayTxnRef := txnRef);
      next := next.(settledAt := Some(now));
      r := SaveRow(id, next, [PaymentCompleted(p.rideId, id, p.means, p.amountPaisa, txnRef)]);
    }

    method Fail(id: nat, p: Payment) returns (r: Reply)
      requires id <= |payments|
      modifies this`payments, this`outbox
      ensures (Snapshot(), r) == MarkFailed(old(Snapshot()), id, p)
    {
      r := SaveRow(id, p.(status := Failed), [PaymentFailed(p.rideId, id, p.means)]);
    }

    method HandleFareCalculated(rideId: string, totalPaisa: int, version: int)
      modifies this`payable
      ensures Snapshot() == OnFareCalculated(old(Snapshot()), rideId, totalPaisa, version)
    {
      if rideId in payable {
        return;
      }
      payable := payable[rideId := Payable(totalPaisa, version)];
    }

    method PayDigitally(rideId: string, means: Means, outcome: GatewayOutcome, now: int) returns (r: Reply)
      modifies this`payments, this`outbox
      ensures (Snapshot(), r) == Pay(policy, old(Snapshot()), rideId, means, outcome, now)
    {
      if means == Cash {
        return Refused(UseCashReceived);
      }
      if rideId !in payable {
        return Refused(RideNotPayable);
      }
      var prior := Count(rideId);
      if prior >= policy.maxDigitalRetries {
        return Refused(MaxRetriesExceeded);
      }
      var attemptN := prior + 1;
      var existing := FindRow(WithKey(IdempotencyKey(rideId, attemptN)));
      if existing.Some? {
        return Row(payments[existing.value]);
      }
      r := InsertAndAsk(NewPayment(rideId, means, payable[rideId].amountPaisa, attemptN), outcome, now);
    }

    method InsertAndAsk(p: Payment, outcome: GatewayOutcome, now: int) returns (r: Reply)
      modifies this`payments, this`outbox
      ensures (Snapshot(), r) == Initiate(old(Snapshot()), p, outcome, now)
    {
      var id := |payments|;
      r := SaveRow(id, p, []);
      if r.Refused? {
        return;
      }
      assert Snapshot() == old(Snapshot()).(payments := old(payments) + [p]);
      r := ActOnOutcome(id, p, outcome, now);
    }

    method ActOnOutcome(id: nat, p: Payment, outcome: GatewayOutcome, now: int) returns (r: Reply)
      requires id < |payments|
      modifies this`payments, this`outbox
      ensures (Snapshot(), r) == Conclude(old(Snapshot()), id, p, outcome, now)
    {
      if outcome.Accepted? {
        r := Succeed(id, p, Some(outcome.txnRef), now);
      } else if outcome.Rejected? {
        r := Fail(id, p);
      } else if outcome.Pending? {
        r := SaveRow(id, p.(gatewayTxnRef := Some(outcome.txnRef)), []);
      } else {
        r := Refused(GatewayError);
      }
    }

    method ConfirmCash(rideId: string, now: int) returns (r: Reply)
      modifies this`payments, this`outbox
      ensures (Snapshot(), r) == CashReceived(old(Snapshot()), rideId, now)
    {
      if rideId !in payable {
        return Refused(RideNotPayable);
      }
      var success := FindRow(SuccessOf(rideId));
      if success.Some? {
        return Row(payments[success.value]);
      }
      var prior := Count(rideId);
      var p := NewPayment(rideId, Cash, payable[rideId].amountPaisa, prior + 1);
      r := Succeed(|payments|, p, None, now);
    }

    method ReceiveCallback(c: Callback, now: int) returns (r: Reply)
      modifies this`payments, this`outbox
      ensures (Snapshot(), r) == HandleCallback(old(Snapshot()), c, now)
    {
      if !c.signed {
        return Refused(BadSignature);
      }
      var target := FindRow(WithRef(c.txnRef));
      if target.Some? && payments[target.value].status == Succeeded {
        return Nothing;
      }
      if target.None? {
        target := FindRow(PendingOf(c.rideId));
      }
      if target.None? {
        return Nothing;
      }
      if c.success {
        r := Succeed(target.value, payments[target.value], Some(c.txnRef), now);
      } else {
        r := Fail(target.value, payments[target.value]);
      }
    }
  }
}
