/** Every run of the payment service with each call as one step: one success a ride, kept for good and announced once. */
module PaymentRuns {
  import opened Wrappers
  import opened Sums
  import opened Idempotency
  import opened Payments

  datatype Call =
    | FareCall(rideId: string, totalPaisa: int, version: int)
    | PayCall(rideId: string, means: Means, outcome: GatewayOutcome)
    | CashCall(rideId: string)
    | CallbackCall(callback: Callback)

  datatype Timed = Timed(at: int, call: Call)

  function Perform(policy: Policy, db: Db, c: Timed): (Db, Reply) {
    match c.call
    case FareCall(rideId, totalPaisa, version) => (OnFareCalculated(db, rideId, totalPaisa, version), Nothing)
    case PayCall(rideId, means, outcome) => Pay(policy, db, rideId, means, outcome, c.at)
    case CashCall(rideId) => CashReceived(db, rideId, c.at)
    case CallbackCall(callback) => HandleCallback(db, callback, c.at)
  }

  function Run(policy: Policy, calls: seq<Timed>): Db {
    if calls == [] then Db(map[], [], [])
    else Perform(policy, Run(policy, calls[..|calls| - 1]), calls[|calls| - 1]).0
  }

  // --------------------------------------------------------------------------- attempts

  /** A row is its ride's next attempt, under that attempt's key, and digital only within the retries. */
  predicate AttemptOk(policy: Policy, payments: seq<Payment>, k: nat)
    requires k < |payments|
  {
    var p := payments[k];
    && p.attemptN == CountOf(payments[..k + 1], p.rideId)
    && p.idempotencyKey == IdempotencyKey(p.rideId, p.attemptN)
    && (p.means != Cash ==> p.attemptN <= policy.maxDigitalRetries)
  }

  predicate AttemptsOk(policy: Policy, payments: seq<Payment>) {
    forall k {:trigger AttemptOk(policy, payments, k)} :: 0 <= k < |payments| ==> AttemptOk(policy, payments, k)
  }

  /** What no update of a row changes. */
  predicate SameAttempt(a: Payment, b: Payment) {
    a.rideId == b.rideId && a.means == b.means && a.amountPaisa == b.amountPaisa && a.attemptN == b.attemptN && a.idempotencyKey == b.idempotencyKey
  }

  lemma {:induction false} UpdatesKeepCount(payments: seq<Payment>, id: nat, p: Payment, rideId: string)
    requires id < |payments| && p.rideId == payments[id].rideId
    ensures CountOf(payments[id := p], rideId) == CountOf(payments, rideId)
  {
    var n := |payments| - 1;
    if id == n {
      assert payments[id := p][..n] == payments[..n];
    } else {
      assert payments[id := p][..n] == payments[..n][id := p];
      UpdatesKeepCount(payments[..n], id, p, rideId);
    }
  }

  lemma UpdateKeepsAttempts(policy: Policy, payments: seq<Payment>, id: nat, p: Payment)
    requires AttemptsOk(policy, payments) && id < |payments| && SameAttempt(payments[id], p)
    ensures AttemptsOk(policy, payments[id := p])
  {
    var t := payments[id := p];
    forall k | 0 <= k < |t|
      ensures AttemptOk(policy, t, k)
    {
      assert AttemptOk(policy, payments, k);
      if id <= k {
        assert t[..k + 1] == payments[..k + 1][id := p];
        UpdatesKeepCount(payments[..k + 1], id, p, t[k].rideId);
      } else {
        assert t[..k + 1] == payments[..k + 1];
      }
    }
  }

  lemma InsertKeepsAttempts(policy: Policy, payments: seq<Payment>, p: Payment)
    requires AttemptsOk(policy, payments)
    requires p.attemptN == CountOf(payments, p.rideId) + 1 && p.idempotencyKey == IdempotencyKey(p.rideId, p.attemptN)
    requires p.means != Cash ==> p.attemptN <= policy.maxDigitalRetries
    ensures AttemptsOk(policy, payments + [p])
  {
    var t := payments + [p];
    assert t[..|payments|] == payments && t[..|t|] == t;
    forall k | 0 <= k < |t|
      ensures AttemptOk(policy, t, k)
    {
      if k < |payments| {
        assert AttemptOk(policy, payments, k);
        assert t[..k + 1] == payments[..k + 1];
      }
    }
  }

  lemma {:induction false} CountGrows(payments: seq<Payment>, k: nat, rideId: string)
    requires k <= |payments|
    ensures CountOf(payments[..k], rideId) <= CountOf(payments, rideId)
  {
    if k < |payments| {
      CountGrows(payments[..|payments| - 1], k, rideId);
      assert payments[..|payments| - 1][..k] == payments[..k];
    } else {
      assert payments[..k] == payments;
    }
  }

  /** A ride's rows take each number from 1 to their count. */
  lemma {:induction false} EveryNumberIsTaken(policy: Policy, payments: seq<Payment>, rideId: string, n: nat)
    requires AttemptsOk(policy, payments) && 1 <= n <= CountOf(payments, rideId)
    ensures exists k :: 0 <= k < |payments| && payments[k].rideId == rideId && payments[k].attemptN == n
  {
    var m := |payments| - 1;
    assert AttemptOk(policy, payments, m);
    assert payments[..m + 1] == payments;
    if payments[m].rideId == rideId && payments[m].attemptN == n {
    } else {
      forall k | 0 <= k < m
        ensures AttemptOk(policy, payments[..m], k)
      {
        assert AttemptOk(policy, payments, k);
        assert payments[..m][..k + 1] == payments[..k + 1];
      }
      EveryNumberIsTaken(policy, payments[..m], rideId, n);
      var k :| 0 <= k < m && payments[..m][k].rideId == rideId && payments[..m][k].attemptN == n;
      assert payments[k].rideId == rideId && payments[k].attemptN == n;
    }
  }

  /** An attempt's key is in the table exactly when the ride has had that many attempts; keys of other rides never get in the way. */
  lemma KeyTakenExactlyUpToCount(policy: Policy, payments: seq<Payment>, rideId: string, n: nat)
    requires AttemptsOk(policy, payments) && n >= 1
    ensures Find(payments, WithKey(IdempotencyKey(rideId, n))).Some? <==> n <= CountOf(payments, rideId)
  {
    var found := Find(payments, WithKey(IdempotencyKey(rideId, n)));
    if n <= CountOf(payments, rideId) {
      EveryNumberIsTaken(policy, payments, rideId, n);
      var k :| 0 <= k < |payments| && payments[k].rideId == rideId && payments[k].attemptN == n;
      assert AttemptOk(policy, payments, k);
      assert Matches(WithKey(IdempotencyKey(rideId, n)), payments[k]);
    }
    if found.Some? {
      var k := found.value;
      assert AttemptOk(policy, payments, k);
      KeyInjective(payments[k].rideId, payments[k].attemptN, rideId, n);
      CountGrows(payments, k + 1, rideId);
    }
  }

  // ---------------------------------------------------------------------------- balance

  function SucceededOf(rideId: string): Payment -> int {
    (p: Payment) => if p.rideId == rideId && p.status == Succeeded then 1 else 0
  }

  function CompletedFor(rideId: string): Event -> int {
    (e: Event) => if e.PaymentCompleted? && e.rideId == rideId then 1 else 0
  }

  /** A ride has as many payment.completed rows as it has succeeded payments. */
  predicate BalancedFor(db: Db, rideId: string) {
    Sum(db.outbox, CompletedFor(rideId)) == Sum(db.payments, SucceededOf(rideId))
  }

  lemma PutCounts(payments: seq<Payment>, id: nat, p: Payment, rideId: string)
    requires id <= |payments|
    ensures Sum(Put(payments, id, p), SucceededOf(rideId)) ==
      Sum(payments, SucceededOf(rideId)) - (if id < |payments| then SucceededOf(rideId)(payments[id]) else 0) + SucceededOf(rideId)(p)
  {
    if id < |payments| {
      SumUpdate(payments, id, p, SucceededOf(rideId));
    } else {
      SumSnoc(payments, p, SucceededOf(rideId));
    }
  }

  lemma EventCounts(outbox: seq<Event>, e: Event, rideId: string)
    ensures Sum(outbox + [e], CompletedFor(rideId)) == Sum(outbox, CompletedFor(rideId)) + CompletedFor(rideId)(e)
  {
    SumSnoc(outbox, e, CompletedFor(rideId));
  }

  // -------------------------------------------------------------------------- invariant

  predicate PricedOk(db: Db) {
    forall k :: 0 <= k < |db.payments| ==>
      db.payments[k].rideId in db.payable && db.payments[k].amountPaisa == db.payable[db.payments[k].rideId].amountPaisa
  }

  predicate NoClashes(payments: seq<Payment>) {
    forall i, j :: 0 <= i < j < |payments| ==> !Clash(payments[i], payments[j])
  }

  /** A payment.completed row says what its payment row says. */
  predicate EventOk(payments: seq<Payment>, e: Event) {
    e.PaymentCompleted? ==>
      && e.paymentId < |payments|
      && var p := payments[e.paymentId];
      p.status == Succeeded && p.rideId == e.rideId && p.means == e.means && p.amountPaisa == e.amountPaisa && p.gatewayTxnRef == e.gatewayTxnRef
  }

  ghost predicate Inv(policy: Policy, db: Db) {
    && AttemptsOk(policy, db.payments) && PricedOk(db) && NoClashes(db.payments)
    && (forall rideId :: BalancedFor(db, rideId))
    && (forall k :: 0 <= k < |db.outbox| ==> EventOk(db.payments, db.outbox[k]))
  }

  /** A row that may be written at an id: an update of an unsettled row, or the ride's next attempt. */
  predicate MayWrite(policy: Policy, db: Db, id: nat, p: Payment) {
    && id <= |db.payments|
    && if id < |db.payments| then SameAttempt(db.payments[id], p) && db.payments[id].status != Succeeded
       else
         && p.attemptN == CountOf(db.payments, p.rideId) + 1 && p.idempotencyKey == IdempotencyKey(p.rideId, p.attemptN)
         && (p.means != Cash ==> p.attemptN <= policy.maxDigitalRetries)
         && p.rideId in db.payable && p.amountPaisa == db.payable[p.rideId].amountPaisa
  }

  lemma PutKeepsNoClashes(payments: seq<Payment>, id: nat, p: Payment)
    requires NoClashes(payments) && id <= |payments| && !Violates(payments, id, p)
    ensures NoClashes(Put(payments, id, p))
  {
    var t := Put(payments, id, p);
    forall i, j | 0 <= i < j < |t|
      ensures !Clash(t[i], t[j])
    {
      if i != id && j != id {
        assert !Clash(payments[i], payments[j]);
      } else if i != id {
        assert !Clash(payments[i], p);
      } else {
        assert !Clash(payments[j], p);
      }
    }
  }

  lemma WriteKeepsRows(policy: Policy, db: Db, id: nat, p: Payment)
    requires Inv(policy, db) && MayWrite(policy, db, id, p) && !Violates(db.payments, id, p)
    ensures var t := Put(db.payments, id, p);
      AttemptsOk(policy, t) && PricedOk(db.(payments := t)) && NoClashes(t)
      && forall k :: 0 <= k < |db.outbox| ==> EventOk(t, db.outbox[k])
  {
    PutKeepsNoClashes(db.payments, id, p);
    if id < |db.payments| {
      UpdateKeepsAttempts(policy, db.payments, id, p);
    } else {
      InsertKeepsAttempts(policy, db.payments, p);
    }
    forall k | 0 <= k < |db.outbox|
      ensures EventOk(Put(db.payments, id, p), db.outbox[k])
    {
      assert EventOk(db.payments, db.outbox[k]);
    }
  }

  lemma CommitKeepsInv(policy: Policy, db: Db, id: nat, p: Payment, txnRef: Option<string>, now: int)
    requires Inv(policy, db) && MayWrite(policy, db, id, Settled(p, txnRef, now))
    ensures Inv(policy, CommitSuccess(db, id, p, txnRef, now).0)
  {
    var next := Settled(p, txnRef, now);
    if !Violates(db.payments, id, next) {
      WriteKeepsRows(policy, db, id, next);
      var d := CommitSuccess(db, id, p, txnRef, now).0;
      var e := PaymentCompleted(p.rideId, id, p.means, p.amountPaisa, txnRef);
      forall rideId
        ensures BalancedFor(d, rideId)
      {
        assert BalancedFor(db, rideId);
        PutCounts(db.payments, id, next, rideId);
        EventCounts(db.outbox, e, rideId);
      }
      assert EventOk(d.payments, e);
    }
  }

  lemma QuietWriteKeepsInv(policy: Policy, db: Db, id: nat, p: Payment, events: seq<Event>)
    requires Inv(policy, db) && MayWrite(policy, db, id, p) && p.status != Succeeded
    requires events == [] || (|events| == 1 && events[0].PaymentFailed?)
    ensures Inv(policy, Save(db, id, p, events).0)
  {
    if !Violates(db.payments, id, p) {
      WriteKeepsRows(policy, db, id, p);
      var d := Save(db, id, p, events).0;
      forall rideId
        ensures BalancedFor(d, rideId)
      {
        assert BalancedFor(db, rideId);
        PutCounts(db.payments, id, p, rideId);
        if events != [] {
          assert events == [events[0]];
          EventCounts(db.outbox, events[0], rideId);
        } else {
          assert d.outbox == db.outbox;
        }
      }
    }
  }

  lemma FareKeepsInv(policy: Policy, db: Db, rideId: string, totalPaisa: int, version: int)
    requires Inv(policy, db)
    ensures Inv(policy, OnFareCalculated(db, rideId, totalPaisa, version))
  {
    var d := OnFareCalculated(db, rideId, totalPaisa, version);
    forall r
      ensures BalancedFor(d, r)
    {
      assert BalancedFor(db, r);
    }
  }

  lemma ConcludeKeepsInv(policy: Policy, db: Db, id: nat, p: Payment, outcome: GatewayOutcome, now: int)
    requires Inv(policy, db) && id < |db.payments| && db.payments[id] == p && p.status == PendingGateway
    ensures Inv(policy, Conclude(db, id, p, outcome, now).0)
  {
    match outcome
    case Accepted(txnRef) => CommitKeepsInv(policy, db, id, p, Some(txnRef), now);
    case Rejected => QuietWriteKeepsInv(policy, db, id, p.(status := Failed), [PaymentFailed(p.rideId, id, p.means)]);
    case Pending(txnRef) => QuietWriteKeepsInv(policy, db, id, p.(gatewayTxnRef := Some(txnRef)), []);
    case Unreachable =>
  }

  lemma InsertKeepsInv(policy: Policy, db: Db, p: Payment)
    requires Inv(policy, db) && MayWrite(policy, db, |db.payments|, p) && p.status != Succeeded && !Violates(db.payments, |db.payments|, p)
    ensures Inv(policy, db.(payments := db.payments + [p]))
  {
    QuietWriteKeepsInv(policy, db, |db.payments|, p, []);
    assert db.outbox + [] == db.outbox;
  }

  lemma PayKeepsInv(policy: Policy, db: Db, rideId: string, means: Means, outcome: GatewayOutcome, now: int)
    requires Inv(policy, db)
    ensures Inv(policy, Pay(policy, db, rideId, means, outcome, now).0)
  {
    if means != Cash && rideId in db.payable {
      var prior := CountOf(db.payments, rideId);
      var id, p := |db.payments|, NewPayment(rideId, means, db.payable[rideId].amountPaisa, prior + 1);
      if CanAttempt(means, prior, policy) && !Violates(db.payments, id, p) {
        InsertKeepsInv(policy, db, p);
        ConcludeKeepsInv(policy, db.(payments := db.payments + [p]), id, p, outcome, now);
      }
    }
  }

  lemma PerformKeepsInv(policy: Policy, db: Db, c: Timed)
    requires Inv(policy, db)
    ensures Inv(policy, Perform(policy, db, c).0)
  {
    match c.call
    case FareCall(rideId, totalPaisa, version) => FareKeepsInv(policy, db, rideId, totalPaisa, version);
    case PayCall(rideId, means, outcome) => PayKeepsInv(policy, db, rideId, means, outcome, c.at);
    case CashCall(rideId) =>
      if rideId in db.payable {
        var p := NewPayment(rideId, Cash, db.payable[rideId].amountPaisa, CountOf(db.payments, rideId) + 1);
        CommitKeepsInv(policy, db, |db.payments|, p, None, c.at);
      }
    case CallbackCall(callback) => CallbackKeepsInv(policy, db, callback, c.at);
  }

  lemma CallbackKeepsInv(policy: Policy, db: Db, c: Callback, now: int)
    requires Inv(policy, db)
    ensures Inv(policy, HandleCallback(db, c, now).0)
  {
    var t := Target(db.payments, c);
    if t.Some? && db.payments[t.value].status != Succeeded {
      var p := db.payments[t.value];
      CommitKeepsInv(policy, db, t.value, p, Some(c.txnRef), now);
      QuietWriteKeepsInv(policy, db, t.value, p.(status := Failed), [PaymentFailed(p.rideId, t.value, p.means)]);
    }
  }

  lemma {:induction false} RunKeepsInv(policy: Policy, calls: seq<Timed>)
    ensures Inv(policy, Run(policy, calls))
  {
    if calls == [] {
      forall rideId
        ensures BalancedFor(Run(policy, calls), rideId)
      {
      }
    } else {
      RunKeepsInv(policy, calls[..|calls| - 1]);
      PerformKeepsInv(policy, Run(policy, calls[..|calls| - 1]), calls[|calls| - 1]);
    }
  }

  // ----------------------------------------------------------------------- main results

  lemma {:induction false} OneSuccess(payments: seq<Payment>, rideId: string)
    requires NoClashes(payments)
    ensures Sum(payments, SucceededOf(rideId)) <= 1
    ensures (forall i :: 0 <= i < |payments| ==> SucceededOf(rideId)(payments[i]) == 0) ==> Sum(payments, SucceededOf(rideId)) == 0
  {
    if payments != [] {
      var n := |payments| - 1;
      OneSuccess(payments[..n], rideId);
      if SucceededOf(rideId)(payments[n]) == 1 {
        forall i | 0 <= i < n
          ensures SucceededOf(rideId)(payments[..n][i]) == 0
        {
          assert !Clash(payments[i], payments[n]);
        }
      }
    }
  }

  /** A ride has at most one succeeded payment and announces each exactly once, with that row's content. */
  lemma {:induction false} OneSuccessAnnouncedOnce(policy: Policy, calls: seq<Timed>, rideId: string)
    ensures var db := Run(policy, calls);
      && Sum(db.outbox, CompletedFor(rideId)) == Sum(db.payments, SucceededOf(rideId)) <= 1
      && forall k :: 0 <= k < |db.outbox| ==> EventOk(db.payments, db.outbox[k])
  {
    RunKeepsInv(policy, calls);
    var db := Run(policy, calls);
    assert BalancedFor(db, rideId);
    OneSuccess(db.payments, rideId);
  }

  /** Rows stay, keep their attempt, and stay as they are once succeeded; prices stay. */
  predicate Keeps(a: Db, b: Db) {
    && |a.payments| <= |b.payments|
    && (forall i :: 0 <= i < |a.payments| ==> SameAttempt(a.payments[i], b.payments[i]))
    && (forall i :: 0 <= i < |a.payments| && a.payments[i].status == Succeeded ==> b.payments[i] == a.payments[i])
    && (forall r :: r in a.payable ==> r in b.payable && b.payable[r] == a.payable[r])
  }

  lemma KeepsComposes(a: Db, b: Db, d: Db)
    requires Keeps(a, b) && Keeps(b, d)
    ensures Keeps(a, d)
  {
  }

  lemma SaveKeeps(db: Db, id: nat, p: Payment, events: seq<Event>)
    requires id <= |db.payments| && (id < |db.payments| ==> SameAttempt(db.payments[id], p) && db.payments[id].status != Succeeded)
    ensures Keeps(db, Save(db, id, p, events).0)
  {
  }

  lemma ConcludeKeeps(db: Db, id: nat, p: Payment, outcome: GatewayOutcome, now: int)
    requires id < |db.payments| && db.payments[id] == p && p.status == PendingGateway
    ensures Keeps(db, Conclude(db, id, p, outcome, now).0)
  {
    match outcome
    case Accepted(txnRef) =>
      SaveKeeps(db, id, Settled(p, Some(txnRef), now), [PaymentCompleted(p.rideId, id, p.means, p.amountPaisa, Some(txnRef))]);
    case Rejected => SaveKeeps(db, id, p.(status := Failed), [PaymentFailed(p.rideId, id, p.means)]);
    case Pending(txnRef) => SaveKeeps(db, id, p.(gatewayTxnRef := Some(txnRef)), []);
    case Unreachable =>
  }

  lemma PayKeeps(policy: Policy, db: Db, rideId: string, means: Means, outcome: GatewayOutcome, now: int)
    ensures Keeps(db, Pay(policy, db, rideId, means, outcome, now).0)
  {
    if means != Cash && rideId in db.payable {
      var id, p := |db.payments|, NewPayment(rideId, means, db.payable[rideId].amountPaisa, CountOf(db.payments, rideId) + 1);
      var d := db.(payments := db.payments + [p]);
      ConcludeKeeps(d, id, p, outcome, now);
      KeepsComposes(db, d, Conclude(d, id, p, outcome, now).0);
    }
  }

  lemma CashKeeps(db: Db, rideId: string, now: int)
    ensures Keeps(db, CashReceived(db, rideId, now).0)
  {
    if rideId in db.payable {
      var p := NewPayment(rideId, Cash, db.payable[rideId].amountPaisa, CountOf(db.payments, rideId) + 1);
      SaveKeeps(db, |db.payments|, Settled(p, None, now), [PaymentCompleted(rideId, |db.payments|, Cash, p.amountPaisa, None)]);
    }
  }

  lemma CallbackKeeps(db: Db, c: Callback, now: int)
    ensures Keeps(db, HandleCallback(db, c, now).0)
  {
    var t := Target(db.payments, c);
    if t.Some? && db.payments[t.value].status != Succeeded {
      var p := db.payments[t.value];
      SaveKeeps(db, t.value, Settled(p, Some(c.txnRef), now),
                [PaymentCompleted(p.rideId, t.value, p.means, p.amountPaisa, Some(c.txnRef))]);
      SaveKeeps(db, t.value, p.(status := Failed), [PaymentFailed(p.rideId, t.value, p.means)]);
    }
  }

  lemma StepKeepsSucceeded(policy: Policy, db: Db, c: Timed)
    ensures Keeps(db, Perform(policy, db, c).0)
  {
    match c.call
    case FareCall(rideId, totalPaisa, version) =>
    case PayCall(rideId, means, outcome) => PayKeeps(policy, db, rideId, means, outcome, c.at);
    case CashCall(rideId) => CashKeeps(db, rideId, c.at);
    case CallbackCall(callback) => CallbackKeeps(db, callback, c.at);
  }

  /** A succeeded row never changes again, no row ever changes its ride, amount or attempt, and a ride's price is the first one calculated. */
  lemma {:induction false} SuccessIsForever(policy: Policy, calls: seq<Timed>, more: seq<Timed>)
    ensures Keeps(Run(policy, calls), Run(policy, calls + more))
  {
    if more == [] {
      assert calls + more == calls;
    } else {
      var n := |more| - 1;
      SuccessIsForever(policy, calls, more[..n]);
      assert (calls + more)[..|calls + more| - 1] == calls + more[..n];
      StepKeepsSucceeded(policy, Run(policy, calls + more[..n]), more[n]);
      KeepsComposes(Run(policy, calls), Run(policy, calls + more[..n]), Run(policy, calls + more));
    }
  }

  predicate IsFareOf(c: Timed, rideId: string) {
    c.call.FareCall? && c.call.rideId == rideId
  }

  lemma ConcludeLeavesPrices(db: Db, id: nat, p: Payment, outcome: GatewayOutcome, now: int)
    requires id < |db.payments|
    ensures Conclude(db, id, p, outcome, now).0.payable == db.payable
  {
  }

  lemma OtherCallsLeavePrices(policy: Policy, db: Db, c: Timed)
    requires !c.call.FareCall?
    ensures Perform(policy, db, c).0.payable == db.payable
  {
    if c.call.PayCall? {
      var rideId, means := c.call.rideId, c.call.means;
      if means != Cash && rideId in db.payable {
        var p := NewPayment(rideId, means, db.payable[rideId].amountPaisa, CountOf(db.payments, rideId) + 1);
        ConcludeLeavesPrices(db.(payments := db.payments + [p]), |db.payments|, p, c.call.outcome, c.at);
      }
    }
  }

  lemma {:induction false} OnlyFaresPrice(policy: Policy, calls: seq<Timed>, rideId: string)
    requires forall i :: 0 <= i < |calls| ==> !IsFareOf(calls[i], rideId)
    ensures rideId !in Run(policy, calls).payable
  {
    if calls != [] {
      var db, c := Run(policy, calls[..|calls| - 1]), calls[|calls| - 1];
      OnlyFaresPrice(policy, calls[..|calls| - 1], rideId);
      if !c.call.FareCall? {
        OtherCallsLeavePrices(policy, db, c);
      }
    }
  }

  /** Every payment row of a ride carries the amount its first fare.calculated fixed. */
  lemma {:induction false} AmountsAreTheFirstFare(policy: Policy, calls: seq<Timed>, n: nat, rideId: string)
    requires n < |calls| && IsFareOf(calls[n], rideId) && forall i :: 0 <= i < n ==> !IsFareOf(calls[i], rideId)
    ensures forall k :: 0 <= k < |Run(policy, calls).payments| && Run(policy, calls).payments[k].rideId == rideId ==>
      Run(policy, calls).payments[k].amountPaisa == calls[n].call.totalPaisa
  {
    RunKeepsInv(policy, calls);
    OnlyFaresPrice(policy, calls[..n], rideId);
    assert calls[..n + 1][..n] == calls[..n];
    assert Run(policy, calls[..n + 1]) == Perform(policy, Run(policy, calls[..n]), calls[n]).0;
    assert calls == calls[..n + 1] + calls[n + 1..];
    SuccessIsForever(policy, calls[..n + 1], calls[n + 1..]);
  }

  // ---------------------------------------------------------------- replayed callbacks

  function PendingCount(payments: seq<Payment>, rideId: string): nat {
    if payments == [] then 0
    else PendingCount(payments[..|payments| - 1], rideId) + if Matches(PendingOf(rideId), payments[|payments| - 1]) then 1 else 0
  }

  lemma {:induction false} PendingCountFinds(payments: seq<Payment>, rideId: string)
    ensures PendingCount(payments, rideId) == 0 <==> Find(payments, PendingOf(rideId)).None?
  {
    if payments != [] {
      PendingCountFinds(payments[..|payments| - 1], rideId);
      assert Matches(PendingOf(rideId), payments[|payments| - 1]) ==> PendingCount(payments, rideId) > 0;
    }
  }

  lemma {:induction false} FailingLowersPending(payments: seq<Payment>, id: nat)
    requires id < |payments| && payments[id].status == PendingGateway
    ensures PendingCount(payments[id := payments[id].(status := Failed)], payments[id].rideId) == PendingCount(payments, payments[id].rideId) - 1
  {
    var n := |payments| - 1;
    var t := payments[id := payments[id].(status := Failed)];
    if id == n {
      assert t[..n] == payments[..n];
    } else {
      FailingLowersPending(payments[..n], id);
      assert t[..n] == payments[..n][id := payments[id].(status := Failed)];
    }
  }

  /** What a replay would find: the row with the reference, settled, or nothing left to fail. */
  predicate ReplayFindsNothing(db: Db, c: Callback) {
    var byRef := Find(db.payments, WithRef(c.txnRef));
    || !c.signed || c.success
    || (if byRef.Some? then db.payments[byRef.value].status == Succeeded else PendingCount(db.payments, c.rideId) <= 1)
  }

  lemma NoLaterRef(payments: seq<Payment>, id: nat, txnRef: string)
    requires NoClashes(payments) && id < |payments| && payments[id].gatewayTxnRef == Some(txnRef)
    ensures forall j :: id < j < |payments| ==> !Matches(WithRef(txnRef), payments[j])
  {
    forall j | id < j < |payments|
      ensures payments[j].gatewayTxnRef != Some(txnRef)
    {
      assert !Clash(payments[id], payments[j]);
    }
  }

  lemma RefIsUnique(payments: seq<Payment>, id: nat, txnRef: string)
    requires NoClashes(payments) && id < |payments| && payments[id].gatewayTxnRef == Some(txnRef)
    ensures Find(payments, WithRef(txnRef)) == Some(id)
  {
    assert Matches(WithRef(txnRef), payments[id]);
    NoLaterRef(payments, id, txnRef);
  }

  lemma SuccessReplayIsNoOp(policy: Policy, db: Db, c: Callback, now: int, later: int)
    requires Inv(policy, db) && c.signed && c.success
    ensures var d := HandleCallback(db, c, now).0; HandleCallback(d, c, later).0 == d
  {
    var d := HandleCallback(db, c, now).0;
    var t := Target(db.payments, c);
    if d != db {
      assert d.payments[t.value].gatewayTxnRef == Some(c.txnRef) && d.payments[t.value].status == Succeeded;
      CallbackKeepsInv(policy, db, c, now);
      RefIsUnique(d.payments, t.value, c.txnRef);
    } else {
      MarkSucceededIgnoresTime(db, c, now, later);
    }
  }

  lemma MarkSucceededIgnoresTime(db: Db, c: Callback, now: int, later: int)
    requires HandleCallback(db, c, now).0 == db && c.success
    ensures HandleCallback(db, c, later).0 == db
  {
    var t := Target(db.payments, c);
    if c.signed && t.Some? && db.payments[t.value].status != Succeeded {
      var p := db.payments[t.value];
      assert Settled(p, Some(c.txnRef), now) == Settled(p, Some(c.txnRef), later).(settledAt := Some(now));
    }
  }

  lemma FailureReplay(policy: Policy, db: Db, c: Callback, now: int, later: int)
    requires Inv(policy, db) && c.signed && !c.success
    ensures var d := HandleCallback(db, c, now).0; HandleCallback(d, c, later).0 == d <==> ReplayFindsNothing(db, c)
  {
    var byRef, t := Find(db.payments, WithRef(c.txnRef)), Target(db.payments, c);
    var d := HandleCallback(db, c, now).0;
    CallbackKeepsInv(policy, db, c, now);
    if t.Some? && db.payments[t.value].status != Succeeded {
      FailingAlwaysSaves(db.payments, t.value);
      assert d.payments == db.payments[t.value := db.payments[t.value].(status := Failed)];
      FindRefIgnoresStatus(db.payments, t.value, c.txnRef);
      if byRef.None? {
        FailingLowersPending(db.payments, t.value);
      }
    }
    PendingCountFinds(db.payments, c.rideId);
    PendingCountFinds(d.payments, c.rideId);
    var u := Target(d.payments, c);
    if u.Some? && d.payments[u.value].status != Succeeded {
      FailingAlwaysSaves(d.payments, u.value);
      assert |HandleCallback(d, c, later).0.outbox| == |d.outbox| + 1;
    }
  }

  lemma FailingAlwaysSaves(payments: seq<Payment>, id: nat)
    requires NoClashes(payments) && id < |payments|
    ensures !Violates(payments, id, payments[id].(status := Failed))
  {
    forall i | 0 <= i < |payments| && i != id
      ensures !Clash(payments[i], payments[id].(status := Failed))
    {
      if i < id {
        assert !Clash(payments[i], payments[id]);
      } else {
        assert !Clash(payments[id], payments[i]);
      }
    }
  }

  lemma FindRefIgnoresStatus(payments: seq<Payment>, id: nat, txnRef: string)
    requires id < |payments|
    ensures Find(payments[id := payments[id].(status := Failed)], WithRef(txnRef)) == Find(payments, WithRef(txnRef))
  {
    var t := payments[id := payments[id].(status := Failed)];
    forall i | 0 <= i < |payments|
      ensures Matches(WithRef(txnRef), t[i]) <==> Matches(WithRef(txnRef), payments[i])
    {
    }
    var a, b := Find(payments, WithRef(txnRef)), Find(t, WithRef(txnRef));
    assert a.Some? ==> Matches(WithRef(txnRef), t[a.value]);
    assert b.Some? ==> Matches(WithRef(txnRef), payments[b.value]);
  }

  /**
   * A callback that is replayed at once changes nothing exactly when it reports success, or its row is
   * settled, or it had no row by reference and at most one pending row to fail.
   */
  lemma {:induction false} ImmediateReplayIsNoOpExactlyWhen(policy: Policy, calls: seq<Timed>, c: Callback, now: int, later: int)
    ensures var db := Run(policy, calls);
      var d := HandleCallback(db, c, now).0;
      HandleCallback(d, c, later).0 == d <==> ReplayFindsNothing(db, c)
  {
    RunKeepsInv(policy, calls);
    var db := Run(policy, calls);
    if c.signed && c.success {
      SuccessReplayIsNoOp(policy, db, c, now, later);
    } else if c.signed {
      FailureReplay(policy, db, c, now, later);
    }
  }

  // ------------------------------------------------- replays after any other calls

  function RunFrom(policy: Policy, db: Db, more: seq<Timed>): Db {
    if more == [] then db else Perform(policy, RunFrom(policy, db, more[..|more| - 1]), more[|more| - 1]).0
  }

  /** Whatever is called before it, and whenever it comes, a replay changes nothing. */
  ghost predicate ReplayIsAlwaysNoOp(policy: Policy, d: Db, c: Callback) {
    forall more, later :: HandleCallback(RunFrom(policy, d, more), c, later).0 == RunFrom(policy, d, more)
  }

  /** A row bears the reference, and is settled, or is to be settled in a ride that already is. */
  predicate SpentByRef(db: Db, c: Callback) {
    var r := Find(db.payments, WithRef(c.txnRef));
    r.Some? && (db.payments[r.value].status == Succeeded
                || (c.success && Find(db.payments, SuccessOf(db.payments[r.value].rideId)).Some?))
  }

  lemma SpentReplayIsNoOp(db: Db, c: Callback, later: int)
    requires SpentByRef(db, c)
    ensures HandleCallback(db, c, later).0 == db
  {
  }

  /** An unsettled row of a settled ride keeps its reference: nothing can settle it any more. */
  lemma StepKeepsRef(policy: Policy, db: Db, c: Timed, i: nat)
    requires i < |db.payments| && db.payments[i].status != Succeeded
    requires Find(db.payments, SuccessOf(db.payments[i].rideId)).Some?
    ensures var d := Perform(policy, db, c).0; i < |d.payments| && d.payments[i].gatewayTxnRef == db.payments[i].gatewayTxnRef
  {
    match c.call
    case FareCall(rideId, totalPaisa, version) =>
    case PayCall(rideId, means, outcome) => PayLeavesOldRows(policy, db, rideId, means, outcome, c.at, i);
    case CashCall(rideId) =>
    case CallbackCall(callback) =>
  }

  lemma PayLeavesOldRows(policy: Policy, db: Db, rideId: string, means: Means, outcome: GatewayOutcome, now: int, i: nat)
    requires i < |db.payments|
    ensures var d := Pay(policy, db, rideId, means, outcome, now).0; i < |d.payments| && d.payments[i] == db.payments[i]
  {
    if means != Cash && rideId in db.payable {
      var p := NewPayment(rideId, means, db.payable[rideId].amountPaisa, CountOf(db.payments, rideId) + 1);
      ConcludeLeavesOldRows(db.(payments := db.payments + [p]), |db.payments|, p, outcome, now, i);
    }
  }

  lemma ConcludeLeavesOldRows(db: Db, id: nat, p: Payment, outcome: GatewayOutcome, now: int, i: nat)
    requires id < |db.payments| && i < id
    ensures var d := Conclude(db, id, p, outcome, now).0; i < |d.payments| && d.payments[i] == db.payments[i]
  {
  }

  lemma StepKeepsSpent(policy: Policy, db: Db, call: Timed, c: Callback)
    requires Inv(policy, db) && SpentByRef(db, c)
    ensures SpentByRef(Perform(policy, db, call).0, c)
  {
    var d := Perform(policy, db, call).0;
    var r := Find(db.payments, WithRef(c.txnRef)).value;
    StepKeepsSucceeded(policy, db, call);
    PerformKeepsInv(policy, db, call);
    if db.payments[r].status != Succeeded {
      var s := Find(db.payments, SuccessOf(db.payments[r].rideId)).value;
      StepKeepsRef(policy, db, call, r);
      assert Matches(SuccessOf(d.payments[r].rideId), d.payments[s]);
    }
    RefIsUnique(d.payments, r, c.txnRef);
  }

  lemma {:induction false} SpentForEver(policy: Policy, db: Db, more: seq<Timed>, c: Callback)
    requires Inv(policy, db) && SpentByRef(db, c)
    ensures var e := RunFrom(policy, db, more); Inv(policy, e) && SpentByRef(e, c)
  {
    if more != [] {
      var n := |more| - 1;
      SpentForEver(policy, db, more[..n], c);
      StepKeepsSpent(policy, RunFrom(policy, db, more[..n]), more[n], c);
      PerformKeepsInv(policy, RunFrom(policy, db, more[..n]), more[n]);
    }
  }

  predicate AllSettled(payments: seq<Payment>) {
    forall i :: 0 <= i < |payments| ==> payments[i].status == Succeeded
  }

  lemma StepKeepsAllSettled(policy: Policy, db: Db, c: Timed)
    requires policy.maxDigitalRetries < 1 && AllSettled(db.payments)
    ensures AllSettled(Perform(policy, db, c).0.payments)
  {
  }

  /** Without digital attempts there are only settled cash rows, and no callback finds anything to do. */
  lemma {:induction false} WithoutRetriesAllIsSettled(policy: Policy, db: Db, more: seq<Timed>)
    requires policy.maxDigitalRetries < 1 && AllSettled(db.payments)
    ensures AllSettled(RunFrom(policy, db, more).payments)
  {
    if more != [] {
      var n := |more| - 1;
      WithoutRetriesAllIsSettled(policy, db, more[..n]);
      StepKeepsAllSettled(policy, RunFrom(policy, db, more[..n]), more[n]);
    }
  }

  lemma {:induction false} RunIsRunFrom(policy: Policy, calls: seq<Timed>)
    ensures Run(policy, calls) == RunFrom(policy, Db(map[], [], []), calls)
  {
    if calls != [] {
      RunIsRunFrom(policy, calls[..|calls| - 1]);
    }
  }

  /** A replay that finds an unsettled row by its reference acts on it, unless it would be a second success. */
  lemma UnspentReplayActs(policy: Policy, db: Db, c: Callback, later: int)
    requires Inv(policy, db) && c.signed && !SpentByRef(db, c) && Find(db.payments, WithRef(c.txnRef)).Some?
    ensures HandleCallback(db, c, later).0 != db
  {
    var r := Find(db.payments, WithRef(c.txnRef)).value;
    var p := db.payments[r];
    var next := if c.success then Settled(p, Some(c.txnRef), later) else p.(status := Failed);
    forall i | 0 <= i < |db.payments| && i != r
      ensures !Clash(db.payments[i], next)
    {
      if i < r {
        assert !Clash(db.payments[i], p);
      } else {
        assert !Clash(p, db.payments[i]);
      }
      assert c.success ==> !Matches(SuccessOf(p.rideId), db.payments[i]);
    }
    assert !Violates(db.payments, r, next);
    assert |HandleCallback(db, c, later).0.outbox| == |db.outbox| + 1;
  }

  lemma {:induction false} FreshRide(payments: seq<Payment>) returns (rideId: string)
    ensures forall i :: 0 <= i < |payments| ==> |payments[i].rideId| < |rideId|
  {
    if payments == [] {
      rideId := "";
    } else {
      var last := payments[|payments| - 1].rideId;
      rideId := FreshRide(payments[..|payments| - 1]);
      if |rideId| <= |last| {
        rideId := last + "r";
      }
    }
  }

  lemma {:induction false} NoneCounted(payments: seq<Payment>, rideId: string)
    requires forall i :: 0 <= i < |payments| ==> payments[i].rideId != rideId
    ensures CountOf(payments, rideId) == 0
  {
    if payments != [] {
      NoneCounted(payments[..|payments| - 1], rideId);
    }
  }

  /** A first card attempt of a ride, to which the gateway gives a reference no row bears. */
  lemma FirstAttemptTakesRef(policy: Policy, db: Db, rideId: string, txnRef: string)
    requires Inv(policy, db) && policy.maxDigitalRetries >= 1 && rideId in db.payable
    requires forall i :: 0 <= i < |db.payments| ==> db.payments[i].rideId != rideId
    requires Find(db.payments, WithRef(txnRef)).None?
    ensures var p := NewPayment(rideId, Card, db.payable[rideId].amountPaisa, 1).(gatewayTxnRef := Some(txnRef));
      Pay(policy, db, rideId, Card, Pending(txnRef), 0).0 == db.(payments := db.payments + [p])
  {
    NoneCounted(db.payments, rideId);
    KeyTakenExactlyUpToCount(policy, db.payments, rideId, 1);
    var id, p := |db.payments|, NewPayment(rideId, Card, db.payable[rideId].amountPaisa, 1);
    forall i | 0 <= i < id
      ensures !Clash(db.payments[i], p) && !Clash(db.payments[i], p.(gatewayTxnRef := Some(txnRef)))
    {
      assert !Matches(WithKey(p.idempotencyKey), db.payments[i]) && !Matches(WithRef(txnRef), db.payments[i]);
    }
    assert !Violates(db.payments, id, p);
    var d := db.(payments := db.payments + [p]);
    assert !Violates(d.payments, id, p.(gatewayTxnRef := Some(txnRef)));
    assert d.payments[id := p.(gatewayTxnRef := Some(txnRef))] == db.payments + [p.(gatewayTxnRef := Some(txnRef))];
    assert d.outbox + [] == db.outbox;
  }

  lemma RunFromSnoc(policy: Policy, db: Db, more: seq<Timed>, c: Timed)
    ensures RunFrom(policy, db, more + [c]) == Perform(policy, RunFrom(policy, db, more), c).0
  {
    assert (more + [c])[..|more|] == more;
  }

  /** While no row bears the reference, some later attempt can be given it, and the replay then acts on that. */
  lemma UnknownRefCanReturn(policy: Policy, db: Db, c: Callback) returns (more: seq<Timed>)
    requires Inv(policy, db) && policy.maxDigitalRetries >= 1 && c.signed && Find(db.payments, WithRef(c.txnRef)).None?
    ensures HandleCallback(RunFrom(policy, db, more), c, 0).0 != RunFrom(policy, db, more)
  {
    var rideId := FreshRide(db.payments);
    var fare, pay := Timed(0, FareCall(rideId, 1, 1)), Timed(0, PayCall(rideId, Card, Pending(c.txnRef)));
    more := [] + [fare] + [pay];
    RunFromSnoc(policy, db, [], fare);
    RunFromSnoc(policy, db, [] + [fare], pay);
    var priced := OnFareCalculated(db, rideId, 1, 1);
    assert RunFrom(policy, db, [] + [fare]) == priced;
    FareKeepsInv(policy, db, rideId, 1, 1);
    FirstAttemptTakesRef(policy, priced, rideId, c.txnRef);
    PerformKeepsInv(policy, priced, pay);
    var e := RunFrom(policy, db, more);
    assert e == Pay(policy, priced, rideId, Card, Pending(c.txnRef), 0).0;
    var last := |db.payments|;
    RefIsUnique(e.payments, last, c.txnRef);
    var success := Find(e.payments, SuccessOf(rideId));
    assert success.None?;
    UnspentReplayActs(policy, e, c, 0);
  }

  /**
   * A callback, once handled, can be replayed after whatever else has been called and changes nothing,
   * exactly when it is unsigned, or a row bears its reference that is settled or, for a reported
   * success, belongs to a settled ride, or the policy allows no digital attempt at all.
   */
  lemma {:induction false} ReplayIsNoOpExactlyWhen(policy: Policy, calls: seq<Timed>, c: Callback, now: int)
    ensures var d := HandleCallback(Run(policy, calls), c, now).0;
      ReplayIsAlwaysNoOp(policy, d, c) <==> !c.signed || SpentByRef(d, c) || policy.maxDigitalRetries < 1
  {
    var d := HandleCallback(Run(policy, calls), c, now).0;
    RunKeepsInv(policy, calls);
    CallbackKeepsInv(policy, Run(policy, calls), c, now);
    if !c.signed {
    } else if SpentByRef(d, c) {
      forall more, later
        ensures HandleCallback(RunFrom(policy, d, more), c, later).0 == RunFrom(policy, d, more)
      {
        SpentForEver(policy, d, more, c);
        SpentReplayIsNoOp(RunFrom(policy, d, more), c, later);
      }
    } else if policy.maxDigitalRetries < 1 {
      RunIsRunFrom(policy, calls);
      WithoutRetriesAllIsSettled(policy, Db(map[], [], []), calls);
      StepKeepsAllSettled(policy, Run(policy, calls), Timed(now, CallbackCall(c)));
      forall more, later
        ensures HandleCallback(RunFrom(policy, d, more), c, later).0 == RunFrom(policy, d, more)
      {
        WithoutRetriesAllIsSettled(policy, d, more);
      }
    } else if Find(d.payments, WithRef(c.txnRef)).Some? {
      UnspentReplayActs(policy, d, c, now);
      assert RunFrom(policy, d, []) == d;
    } else {
      var more := UnknownRefCanReturn(policy, d, c);
      assert HandleCallback(RunFrom(policy, d, more), c, 0).0 != RunFrom(policy, d, more);
    }
  }

  // --------------------------------------------------------- two replays that do harm

  const PRICED: Db := Db(map["r" := Payable(100, 1)], [], [])

  lemma RunSnoc(policy: Policy, calls: seq<Timed>, c: Timed)
    ensures Run(policy, calls + [c]) == Perform(policy, Run(policy, calls), c).0
  {
    assert (calls + [c])[..|calls|] == calls;
  }

  function CardAttempt(n: nat): Payment {
    NewPayment("r", Card, 100, n)
  }

  lemma UnansweredAttempts(policy: Policy)
    requires policy.maxDigitalRetries >= 2
    ensures Pay(policy, PRICED, "r", Card, Unreachable, 0).0 == PRICED.(payments := [CardAttempt(1)])
    ensures Pay(policy, PRICED.(payments := [CardAttempt(1)]), "r", Card, Unreachable, 0).0
         == PRICED.(payments := [CardAttempt(1), CardAttempt(2)])
  {
    var one := [CardAttempt(1)];
    assert CountOf(one, "r") == 1 by {
      assert one[..0] == [];
    }
    assert IdempotencyKey("r", 1) != IdempotencyKey("r", 2) by {
      if IdempotencyKey("r", 1) == IdempotencyKey("r", 2) {
        KeyInjective("r", 1, "r", 2);
      }
    }
    assert PRICED.payments + one == one;
    assert one + [CardAttempt(2)] == [CardAttempt(1), CardAttempt(2)];
  }

  function FailedAttempt(n: nat): Payment {
    CardAttempt(n).(status := Failed)
  }

  lemma FailureTakesNewestPending(db: Db, c: Callback)
    requires c == Callback("r", "t", false, true)
    ensures db.payments == [CardAttempt(1), CardAttempt(2)] ==>
      HandleCallback(db, c, 0).0.payments == [CardAttempt(1), FailedAttempt(2)]
    ensures db.payments == [CardAttempt(1), FailedAttempt(2)] ==>
      HandleCallback(db, c, 0).0.payments == [FailedAttempt(1), FailedAttempt(2)]
  {
    if IdempotencyKey("r", 1) == IdempotencyKey("r", 2) {
      KeyInjective("r", 1, "r", 2);
    }
  }

  /** Two card attempts the gateway never answered; one failure callback, sent twice, fails both. */
  lemma ReplayedFailureFailsAnotherAttempt(policy: Policy) returns (calls: seq<Timed>, c: Callback)
    requires policy.maxDigitalRetries >= 2
    ensures var d := HandleCallback(Run(policy, calls), c, 0).0;
      d.payments == [CardAttempt(1), FailedAttempt(2)] && HandleCallback(d, c, 0).0.payments == [FailedAttempt(1), FailedAttempt(2)]
  {
    var fare, pay := Timed(0, FareCall("r", 100, 1)), Timed(0, PayCall("r", Card, Unreachable));
    calls := [] + [fare] + [pay] + [pay];
    c := Callback("r", "t", false, true);
    RunSnoc(policy, [], fare);
    RunSnoc(policy, [] + [fare], pay);
    RunSnoc(policy, [] + [fare] + [pay], pay);
    assert Run(policy, [] + [fare]) == PRICED;
    UnansweredAttempts(policy);
    FailureTakesNewestPending(Run(policy, calls), c);
    FailureTakesNewestPending(HandleCallback(Run(policy, calls), c, 0).0, c);
  }

  lemma SuccessTakesPending(db: Db, c: Callback)
    requires c == Callback("r", "t", true, true) && db.payments == [CardAttempt(1).(gatewayTxnRef := Some("u"))]
    ensures HandleCallback(db, c, 0).0.payments == [Settled(CardAttempt(1), Some("t"), 0)]
  {
    assert !Violates(db.payments, 0, Settled(CardAttempt(1), Some("t"), 0));
  }

  /** A success callback that comes before there is an attempt is dropped; its replay settles an attempt of another reference. */
  lemma ReplayedSuccessSettlesLaterAttempt(policy: Policy)
    requires policy.maxDigitalRetries >= 1
    ensures var c := Callback("r", "t", true, true);
      var d := HandleCallback(Run(policy, [Timed(0, FareCall("r", 100, 1))]), c, 0).0;
      var e := Pay(policy, d, "r", Card, Pending("u"), 0).0;
      && d == Run(policy, [Timed(0, FareCall("r", 100, 1))])
      && e.payments == [CardAttempt(1).(gatewayTxnRef := Some("u"))]
      && HandleCallback(e, c, 0).0.payments == [Settled(CardAttempt(1), Some("t"), 0)]
  {
    var fare := Timed(0, FareCall("r", 100, 1));
    RunSnoc(policy, [], fare);
    assert [] + [fare] == [fare];
    assert Run(policy, [fare]) == PRICED;
    RunKeepsInv(policy, [fare]);
    FirstAttemptTakesRef(policy, PRICED, "r", "u");
    SuccessTakesPending(Pay(policy, PRICED, "r", Card, Pending("u"), 0).0, Callback("r", "t", true, true));
  }
}
