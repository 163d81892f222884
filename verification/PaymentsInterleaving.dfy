/**
 * The payment service taken apart at every await: each call is a process that holds what it has read,
 * one step is one query or transaction, and steps of any number of calls interleave. Only the unique
 * indexes guard the writes, and a save writes the row as the process holds it.
 */
module PaymentsInterleaving {
  import opened Wrappers
  import opened Sums
  import opened Idempotency
  import opened Payments
  import opened PaymentRuns

  /** What a process does next, with what it has read so far. A cash payment has no id until its commit. */
  datatype Proc =
    | CountingAttempts(rideId: string, means: Means, amountPaisa: int)
    | LookingUpKey(rideId: string, means: Means, amountPaisa: int, attemptN: nat)
    | Inserting(rideId: string, means: Means, amountPaisa: int, attemptN: nat)
    | AwaitingGateway(rowId: nat, row: Payment)
    | LookingForSuccess(rideId: string, amountPaisa: int)
    | CountingForCash(rideId: string, amountPaisa: int)
    | LookingUpRef(callback: Callback)
    | LookingForPending(callback: Callback)
    | GuardingSuccess(id: Option<nat>, row: Payment, txnRef: Option<string>)
    | Committing(id: Option<nat>, row: Payment, txnRef: Option<string>)
    | Failing(rowId: nat, row: Payment)
    | Parking(rowId: nat, row: Payment, gatewayRef: string)
    | Finished

  datatype Sys = Sys(db: Db, procs: seq<Proc>)

  datatype Action =
    | FareArrives(rideId: string, totalPaisa: int, version: int)
    | PayBegins(rideId: string, means: Means)
    | CashBegins(rideId: string)
    | CallbackArrives(callback: Callback)
    | Advance(proc: nat, outcome: GatewayOutcome, now: int)

  function IdOrNext(id: Option<nat>, db: Db): nat {
    if id.Some? then id.value else |db.payments|
  }

  /** markSucceeded or markFailed of a row a callback has found. */
  function Act(c: Callback, id: nat, row: Payment): Proc {
    if c.success then GuardingSuccess(Some(id), row, Some(c.txnRef)) else Failing(id, row)
  }

  function Advanced(policy: Policy, db: Db, p: Proc, outcome: GatewayOutcome, now: int): (Db, Proc) {
    match p
    case CountingAttempts(rideId, means, amount) =>
      var prior := CountOf(db.payments, rideId);
      (db, if CanAttempt(means, prior, policy) then LookingUpKey(rideId, means, amount, prior + 1) else Finished)
    case LookingUpKey(rideId, means, amount, attemptN) =>
      (db, if Find(db.payments, WithKey(IdempotencyKey(rideId, attemptN))).Some? then Finished else Inserting(rideId, means, amount, attemptN))
    case Inserting(rideId, means, amount, attemptN) =>
      var id, row := |db.payments|, NewPayment(rideId, means, amount, attemptN);
      var (d, reply) := Save(db, id, row, []);
      (d, if reply.Refused? then Finished else AwaitingGateway(id, row))
    case AwaitingGateway(id, row) =>
      (db, match outcome
           case Accepted(txnRef) => GuardingSuccess(Some(id), row, Some(txnRef))
           case Rejected => Failing(id, row)
           case Pending(txnRef) => Parking(id, row, txnRef)
           case Unreachable => Finished)
    case LookingForSuccess(rideId, amount) =>
      (db, if Find(db.payments, SuccessOf(rideId)).Some? then Finished else CountingForCash(rideId, amount))
    case CountingForCash(rideId, amount) =>
      (db, GuardingSuccess(None, NewPayment(rideId, Cash, amount, CountOf(db.payments, rideId) + 1), None))
    case LookingUpRef(c) =>
      var existing := Find(db.payments, WithRef(c.txnRef));
      (db, if existing.None? then LookingForPending(c)
           else if db.payments[existing.value].status == Succeeded then Finished
           else Act(c, existing.value, db.payments[existing.value]))
    case LookingForPending(c) =>
      var pending := Find(db.payments, PendingOf(c.rideId));
      (db, if pending.None? then Finished else Act(c, pending.value, db.payments[pending.value]))
    case GuardingSuccess(id, row, txnRef) =>
      var other := Find(db.payments, SuccessOf(row.rideId));
      (db, if other.Some? && id != other then Finished else Committing(id, row, txnRef))
    case Committing(id, row, txnRef) =>
      (if IdOrNext(id, db) > |db.payments| then db else CommitSuccess(db, IdOrNext(id, db), row, txnRef, now).0, Finished)
    case Failing(id, row) => (if id > |db.payments| then db else MarkFailed(db, id, row).0, Finished)
    case Parking(id, row, txnRef) => (if id > |db.payments| then db else Park(db, id, row, txnRef).0, Finished)
    case Finished => (db, Finished)
  }

  function Step(policy: Policy, s: Sys, a: Action): Sys {
    match a
    case FareArrives(rideId, totalPaisa, version) => s.(db := OnFareCalculated(s.db, rideId, totalPaisa, version))
    case PayBegins(rideId, means) =>
      if means == Cash || rideId !in s.db.payable then s
      else s.(procs := s.procs + [CountingAttempts(rideId, means, s.db.payable[rideId].amountPaisa)])
    case CashBegins(rideId) =>
      if rideId !in s.db.payable then s
      else s.(procs := s.procs + [LookingForSuccess(rideId, s.db.payable[rideId].amountPaisa)])
    case CallbackArrives(c) => if c.signed then s.(procs := s.procs + [LookingUpRef(c)]) else s
    case Advance(k, outcome, now) =>
      if k >= |s.procs| then s
      else
        var (d, p) := Advanced(policy, s.db, s.procs[k], outcome, now);
        Sys(d, s.procs[k := p])
  }

  function Run(policy: Policy, actions: seq<Action>): Sys {
    if actions == [] then Sys(Db(map[], [], []), [])
    else Step(policy, Run(policy, actions[..|actions| - 1]), actions[|actions| - 1])
  }

  // -------------------------------------------------------------------------- invariant

  /** A copy a process holds of a stored row: some of its columns may be out of date, never the attempt. */
  predicate CopyOf(payments: seq<Payment>, id: nat, row: Payment) {
    id < |payments| && SameAttempt(payments[id], row)
  }

  predicate ProcOk(policy: Policy, payments: seq<Payment>, p: Proc) {
    match p
    case CountingAttempts(_, means, _) => means != Cash
    case LookingUpKey(rideId, means, _, attemptN) =>
      means != Cash && 1 <= attemptN <= policy.maxDigitalRetries && attemptN <= CountOf(payments, rideId) + 1
    case Inserting(rideId, means, _, attemptN) =>
      means != Cash && 1 <= attemptN <= policy.maxDigitalRetries && attemptN <= CountOf(payments, rideId) + 1
    case AwaitingGateway(id, row) => CopyOf(payments, id, row) && row.status == PendingGateway
    case GuardingSuccess(id, row, _) => if id.Some? then CopyOf(payments, id.value, row) else FreshCash(payments, row)
    case Committing(id, row, _) => if id.Some? then CopyOf(payments, id.value, row) else FreshCash(payments, row)
    case Failing(id, row) => CopyOf(payments, id, row)
    case Parking(id, row, _) => CopyOf(payments, id, row) && row.status == PendingGateway
    case _ => true
  }

  predicate FreshCash(payments: seq<Payment>, row: Payment) {
    && row == NewPayment(row.rideId, Cash, row.amountPaisa, row.attemptN)
    && 1 <= row.attemptN <= CountOf(payments, row.rideId) + 1
  }

  ghost predicate Inv(policy: Policy, s: Sys) {
    && AttemptsOk(policy, s.db.payments) && NoClashes(s.db.payments)
    && forall k :: 0 <= k < |s.procs| ==> ProcOk(policy, s.db.payments, s.procs[k])
  }

  /** Rows are only added, and keep their attempt. */
  ghost predicate Grows(a: seq<Payment>, b: seq<Payment>) {
    && |a| <= |b|
    && (forall i :: 0 <= i < |a| ==> SameAttempt(a[i], b[i]))
    && (forall rideId :: CountOf(a, rideId) <= CountOf(b, rideId))
  }

  lemma GrowthKeepsProc(policy: Policy, a: seq<Payment>, b: seq<Payment>, p: Proc)
    requires Grows(a, b) && ProcOk(policy, a, p)
    ensures ProcOk(policy, b, p)
  {
  }

  lemma PutGrows(payments: seq<Payment>, id: nat, p: Payment)
    requires id <= |payments| && (id < |payments| ==> SameAttempt(payments[id], p))
    ensures Grows(payments, Put(payments, id, p))
  {
    forall rideId
      ensures CountOf(payments, rideId) <= CountOf(Put(payments, id, p), rideId)
    {
      if id < |payments| {
        UpdatesKeepCount(payments, id, p, rideId);
      } else {
        assert (payments + [p])[..|payments|] == payments;
      }
    }
  }

  /** An index lets an attempt in only if its number is the next one. */
  lemma OnlyNextAttemptIsInserted(policy: Policy, payments: seq<Payment>, p: Payment)
    requires AttemptsOk(policy, payments) && 1 <= p.attemptN <= CountOf(payments, p.rideId) + 1
    requires p.idempotencyKey == IdempotencyKey(p.rideId, p.attemptN) && !Violates(payments, |payments|, p)
    ensures p.attemptN == CountOf(payments, p.rideId) + 1
  {
    KeyTakenExactlyUpToCount(policy, payments, p.rideId, p.attemptN);
  }

  lemma SaveKeepsTable(policy: Policy, db: Db, id: nat, p: Payment, events: seq<Event>)
    requires AttemptsOk(policy, db.payments) && NoClashes(db.payments) && id <= |db.payments|
    requires if id < |db.payments| then SameAttempt(db.payments[id], p)
      else 1 <= p.attemptN <= CountOf(db.payments, p.rideId) + 1 && p.idempotencyKey == IdempotencyKey(p.rideId, p.attemptN)
           && (p.means != Cash ==> p.attemptN <= policy.maxDigitalRetries)
    ensures var d := Save(db, id, p, events).0;
      AttemptsOk(policy, d.payments) && NoClashes(d.payments) && Grows(db.payments, d.payments)
  {
    if !Violates(db.payments, id, p) {
      PutKeepsNoClashes(db.payments, id, p);
      PutGrows(db.payments, id, p);
      if id < |db.payments| {
        UpdateKeepsAttempts(policy, db.payments, id, p);
      } else {
        OnlyNextAttemptIsInserted(policy, db.payments, p);
        InsertKeepsAttempts(policy, db.payments, p);
      }
    }
  }

  predicate Writes(p: Proc) {
    p.Inserting? || p.Committing? || p.Failing? || p.Parking?
  }

  lemma ReadsKeepTable(policy: Policy, db: Db, p: Proc, outcome: GatewayOutcome, now: int)
    requires !Writes(p) && ProcOk(policy, db.payments, p)
    ensures var (d, q) := Advanced(policy, db, p, outcome, now);
      d == db && ProcOk(policy, db.payments, q)
  {
  }

  lemma WritesKeepTable(policy: Policy, db: Db, p: Proc, outcome: GatewayOutcome, now: int)
    requires Writes(p) && AttemptsOk(policy, db.payments) && NoClashes(db.payments) && ProcOk(policy, db.payments, p)
    ensures var d := Advanced(policy, db, p, outcome, now).0;
      AttemptsOk(policy, d.payments) && NoClashes(d.payments) && Grows(db.payments, d.payments)
  {
    match p
    case Inserting(rideId, means, amount, attemptN) =>
      SaveKeepsTable(policy, db, |db.payments|, NewPayment(rideId, means, amount, attemptN), []);
    case Committing(id, row, txnRef) =>
      SaveKeepsTable(policy, db, IdOrNext(id, db), Settled(row, txnRef, now),
                     [PaymentCompleted(row.rideId, IdOrNext(id, db), row.means, row.amountPaisa, txnRef)]);
    case Failing(id, row) => SaveKeepsTable(policy, db, id, row.(status := PaymentStatus.Failed), [PaymentFailed(row.rideId, id, row.means)]);
    case Parking(id, row, txnRef) => SaveKeepsTable(policy, db, id, row.(gatewayTxnRef := Some(txnRef)), []);
  }

  lemma AdvanceKeepsTable(policy: Policy, db: Db, p: Proc, outcome: GatewayOutcome, now: int)
    requires AttemptsOk(policy, db.payments) && NoClashes(db.payments) && ProcOk(policy, db.payments, p)
    ensures var (d, q) := Advanced(policy, db, p, outcome, now);
      AttemptsOk(policy, d.payments) && NoClashes(d.payments) && Grows(db.payments, d.payments) && ProcOk(policy, d.payments, q)
  {
    if Writes(p) {
      WritesKeepTable(policy, db, p, outcome, now);
    } else {
      ReadsKeepTable(policy, db, p, outcome, now);
    }
  }

  lemma StepKeepsInv(policy: Policy, s: Sys, a: Action)
    requires Inv(policy, s)
    ensures Inv(policy, Step(policy, s, a))
  {
    if a.Advance? && a.proc < |s.procs| {
      AdvanceKeepsTable(policy, s.db, s.procs[a.proc], a.outcome, a.now);
      var t := Step(policy, s, a);
      forall k | 0 <= k < |t.procs|
        ensures ProcOk(policy, t.db.payments, t.procs[k])
      {
        if k != a.proc {
          GrowthKeepsProc(policy, s.db.payments, t.db.payments, s.procs[k]);
        }
      }
    }
  }

  lemma {:induction false} RunKeepsInv(policy: Policy, actions: seq<Action>)
    ensures Inv(policy, Run(policy, actions))
  {
    if actions != [] {
      RunKeepsInv(policy, actions[..|actions| - 1]);
      StepKeepsInv(policy, Run(policy, actions[..|actions| - 1]), actions[|actions| - 1]);
    }
  }

  // ----------------------------------------------------------------------- main results

  predicate HasAttempt(payments: seq<Payment>, k: nat, rideId: string, n: nat) {
    k < |payments| && payments[k].rideId == rideId && payments[k].attemptN == n
  }

  lemma LaterIsAnotherAttempt(policy: Policy, payments: seq<Payment>, rideId: string, n: nat, j: nat, k: nat)
    requires AttemptsOk(policy, payments) && j < k && HasAttempt(payments, j, rideId, n)
    ensures !HasAttempt(payments, k, rideId, n)
  {
    if k < |payments| && payments[k].rideId == rideId {
      assert AttemptOk(policy, payments, j) && AttemptOk(policy, payments, k);
      assert payments[..k + 1][..k] == payments[..k];
      assert payments[..k][..j + 1] == payments[..j + 1];
      CountGrows(payments[..k], j + 1, rideId);
    }
  }

  /**
   * Under any interleaving a ride's attempt numbers are exactly 1..n, each once and under its own key,
   * the digital ones within the retry limit, and at most one of them succeeded.
   */
  lemma {:induction false} AttemptsAreExactlyOneToN(policy: Policy, actions: seq<Action>, rideId: string, n: nat)
    ensures var payments := Run(policy, actions).db.payments;
      && ((exists k: nat :: HasAttempt(payments, k, rideId, n)) <==> 1 <= n <= CountOf(payments, rideId))
      && (forall j: nat, k: nat :: HasAttempt(payments, j, rideId, n) && HasAttempt(payments, k, rideId, n) ==> j == k)
      && (forall k: nat :: HasAttempt(payments, k, rideId, n) ==>
            payments[k].idempotencyKey == IdempotencyKey(rideId, n) && (payments[k].means != Cash ==> n <= policy.maxDigitalRetries))
      && Sum(payments, SucceededOf(rideId)) <= 1
  {
    RunKeepsInv(policy, actions);
    var payments := Run(policy, actions).db.payments;
    OneSuccess(payments, rideId);
    forall k: nat | HasAttempt(payments, k, rideId, n)
      ensures 1 <= n <= CountOf(payments, rideId) && payments[k].idempotencyKey == IdempotencyKey(rideId, n)
      ensures payments[k].means != Cash ==> n <= policy.maxDigitalRetries
    {
      assert AttemptOk(policy, payments, k);
      CountGrows(payments, k + 1, rideId);
    }
    forall j: nat, k: nat | j < k && HasAttempt(payments, j, rideId, n)
      ensures !HasAttempt(payments, k, rideId, n)
    {
      LaterIsAnotherAttempt(policy, payments, rideId, n, j, k);
    }
    if 1 <= n <= CountOf(payments, rideId) {
      EveryNumberIsTaken(policy, payments, rideId, n);
      var k :| 0 <= k < |payments| && payments[k].rideId == rideId && payments[k].attemptN == n;
      assert HasAttempt(payments, k, rideId, n);
    }
  }

  /** The indexes refuse a pay's insert exactly when the number it read is out of date. */
  lemma {:induction false} InsertRefusedExactlyWhenOvertaken(policy: Policy, actions: seq<Action>, k: nat)
    requires var s := Run(policy, actions); k < |s.procs| && s.procs[k].Inserting?
    ensures var s := Run(policy, actions);
      var p := s.procs[k];
      Violates(s.db.payments, |s.db.payments|, NewPayment(p.rideId, p.means, p.amountPaisa, p.attemptN)) <==>
      p.attemptN != CountOf(s.db.payments, p.rideId) + 1
  {
    RunKeepsInv(policy, actions);
    var s := Run(policy, actions);
    var p := s.procs[k];
    assert ProcOk(policy, s.db.payments, p);
    KeyTakenExactlyUpToCount(policy, s.db.payments, p.rideId, p.attemptN);
    var row := NewPayment(p.rideId, p.means, p.amountPaisa, p.attemptN);
    if i :| 0 <= i < |s.db.payments| && i != |s.db.payments| && Clash(s.db.payments[i], row) {
      assert Matches(WithKey(IdempotencyKey(p.rideId, p.attemptN)), s.db.payments[i]);
    }
  }

  // ------------------------------------------------------ when success and event part ways

  function WrittenRow(p: Proc, now: int): Payment
    requires p.Committing? || p.Failing? || p.Parking?
  {
    match p
    case Committing(_, row, txnRef) => Settled(row, txnRef, now)
    case Failing(_, row) => row.(status := PaymentStatus.Failed)
    case Parking(_, row, txnRef) => row.(gatewayTxnRef := Some(txnRef))
  }

  function WrittenId(p: Proc, db: Db): nat
    requires p.Committing? || p.Failing? || p.Parking?
  {
    match p
    case Committing(id, _, _) => IdOrNext(id, db)
    case Failing(id, _) => id
    case Parking(id, _, _) => id
  }

  /** A last write that goes through and lands on a row of the ride that has succeeded since it was read. */
  predicate OverwritesSuccess(s: Sys, a: Action, rideId: string) {
    && a.Advance? && a.proc < |s.procs|
    && var p := s.procs[a.proc];
    && (p.Committing? || p.Failing? || p.Parking?)
    && var id := WrittenId(p, s.db);
    && id < |s.db.payments| && s.db.payments[id].status == Succeeded && s.db.payments[id].rideId == rideId
    && !Violates(s.db.payments, id, WrittenRow(p, a.now))
  }

  /** From a balanced state exactly the overwriting of a success unbalances a ride's events and succeeded rows. */
  lemma BalanceBreaksExactlyByOverwriting(policy: Policy, s: Sys, a: Action, rideId: string)
    requires Inv(policy, s) && BalancedFor(s.db, rideId)
    ensures BalancedFor(Step(policy, s, a).db, rideId) <==> !OverwritesSuccess(s, a, rideId)
  {
    if a.Advance? && a.proc < |s.procs| {
      var p := s.procs[a.proc];
      assert ProcOk(policy, s.db.payments, p);
      if p.Committing? || p.Failing? || p.Parking? {
        var id, row := WrittenId(p, s.db), WrittenRow(p, a.now);
        PutCounts(s.db.payments, id, row, rideId);
        WritesCount(policy, s.db, p, a.outcome, a.now, rideId);
      } else if p.Inserting? {
        var row := NewPayment(p.rideId, p.means, p.amountPaisa, p.attemptN);
        PutCounts(s.db.payments, |s.db.payments|, row, rideId);
        assert s.db.outbox + [] == s.db.outbox;
      }
    }
  }

  lemma WritesCount(policy: Policy, db: Db, p: Proc, outcome: GatewayOutcome, now: int, rideId: string)
    requires (p.Committing? || p.Failing? || p.Parking?) && ProcOk(policy, db.payments, p)
    ensures var d, id := Advanced(policy, db, p, outcome, now).0, WrittenId(p, db);
      if Violates(db.payments, id, WrittenRow(p, now)) then d == db
      else d.payments == Put(db.payments, id, WrittenRow(p, now))
           && Sum(d.outbox, CompletedFor(rideId)) == Sum(db.outbox, CompletedFor(rideId)) + if p.Committing? && p.row.rideId == rideId then 1 else 0
  {
    match p
    case Committing(id, row, txnRef) =>
      EventCounts(db.outbox, PaymentCompleted(row.rideId, IdOrNext(id, db), row.means, row.amountPaisa, txnRef), rideId);
    case Failing(id, row) => EventCounts(db.outbox, PaymentFailed(row.rideId, id, row.means), rideId);
    case Parking(id, row, txnRef) => assert db.outbox + [] == db.outbox;
  }

  /** Balanced now and after every earlier step. */
  predicate BalancedThroughout(policy: Policy, actions: seq<Action>, rideId: string) {
    && BalancedFor(Run(policy, actions).db, rideId)
    && (actions == [] || BalancedThroughout(policy, actions[..|actions| - 1], rideId))
  }

  predicate NeverOverwrites(policy: Policy, actions: seq<Action>, rideId: string) {
    actions == [] ||
    var init := actions[..|actions| - 1];
    NeverOverwrites(policy, init, rideId) && !OverwritesSuccess(Run(policy, init), actions[|actions| - 1], rideId)
  }

  /** In every run a ride's payment.completed rows match its succeeded payments at all times iff no stale write ever lands on a success. */
  lemma {:induction false} BalancedExactlyWithoutOverwrites(policy: Policy, actions: seq<Action>, rideId: string)
    ensures BalancedThroughout(policy, actions, rideId) <==> NeverOverwrites(policy, actions, rideId)
  {
    if actions != [] {
      var init, a := actions[..|actions| - 1], actions[|actions| - 1];
      BalancedExactlyWithoutOverwrites(policy, init, rideId);
      if BalancedFor(Run(policy, init).db, rideId) {
        RunKeepsInv(policy, init);
        BalanceBreaksExactlyByOverwriting(policy, Run(policy, init), a, rideId);
      }
    }
  }

  // --------------------------------------------------------------- a ride charged twice

  lemma RunSnoc(policy: Policy, actions: seq<Action>, a: Action)
    ensures Run(policy, actions + [a]) == Step(policy, Run(policy, actions), a)
  {
    assert (actions + [a])[..|actions|] == actions;
  }

  const PRICE := 50000

  function CardRow(): Payment {
    NewPayment("r", Card, PRICE, 1)
  }

  function Priced(payments: seq<Payment>, outbox: seq<Event>): Db {
    Db(map["r" := Payable(PRICE, 1)], payments, outbox)
  }

  function Tick(k: nat): Action {
    Advance(k, Pending("t"), 0)
  }

  const CARD_SUCCEEDED := PaymentCompleted("r", 0, Card, PRICE, Some("t"))

  /** The card payment is stored, and its gateway has been called. */
  lemma CardIsWaiting(policy: Policy) returns (actions: seq<Action>)
    requires policy.maxDigitalRetries >= 1
    ensures Run(policy, actions) == Sys(Priced([CardRow()], []), [AwaitingGateway(0, CardRow())])
  {
    var a, b := FareArrives("r", PRICE, 1), PayBegins("r", Card);
    RunSnoc(policy, [], a);
    RunSnoc(policy, [] + [a], b);
    RunSnoc(policy, [] + [a] + [b], Tick(0));
    RunSnoc(policy, [] + [a] + [b] + [Tick(0)], Tick(0));
    RunSnoc(policy, [] + [a] + [b] + [Tick(0)] + [Tick(0)], Tick(0));
    assert Run(policy, [] + [a]) == Sys(Priced([], []), []);
    assert Run(policy, [] + [a] + [b]) == Sys(Priced([], []), [CountingAttempts("r", Card, PRICE)]);
    assert Run(policy, [] + [a] + [b] + [Tick(0)]) == Sys(Priced([], []), [LookingUpKey("r", Card, PRICE, 1)]);
    assert Run(policy, [] + [a] + [b] + [Tick(0)] + [Tick(0)]) == Sys(Priced([], []), [Inserting("r", Card, PRICE, 1)]);
    actions := [] + [a] + [b] + [Tick(0)] + [Tick(0)] + [Tick(0)];
  }

  /** Its callback comes before its reply, and settles it. */
  lemma CallbackSettlesIt(policy: Policy, before: seq<Action>) returns (actions: seq<Action>)
    requires Run(policy, before) == Sys(Priced([CardRow()], []), [AwaitingGateway(0, CardRow())])
    ensures Run(policy, actions) ==
      Sys(Priced([Settled(CardRow(), Some("t"), 0)], [CARD_SUCCEEDED]), [AwaitingGateway(0, CardRow()), Finished])
  {
    var c := Callback("r", "t", true, true);
    var a1 := before + [CallbackArrives(c)];
    var a2 := a1 + [Tick(1)];
    var a3 := a2 + [Tick(1)];
    var a4 := a3 + [Tick(1)];
    actions := a4 + [Tick(1)];
    RunSnoc(policy, before, CallbackArrives(c));
    RunSnoc(policy, a1, Tick(1));
    RunSnoc(policy, a2, Tick(1));
    RunSnoc(policy, a3, Tick(1));
    RunSnoc(policy, a4, Tick(1));
    var db, w := Priced([CardRow()], []), AwaitingGateway(0, CardRow());
    assert Run(policy, a1) == Sys(db, [w, LookingUpRef(c)]);
    assert Run(policy, a2) == Sys(db, [w, LookingForPending(c)]);
    assert Run(policy, a3) == Sys(db, [w, GuardingSuccess(Some(0), CardRow(), Some("t"))]);
    assert Run(policy, a4) == Sys(db, [w, Committing(Some(0), CardRow(), Some("t"))]);
  }

  const PARKED_ROW := CardRow().(gatewayTxnRef := Some("t"))

  /** The reply says pending, and its save puts the row back. */
  lemma ReplyUndoesIt(policy: Policy, before: seq<Action>) returns (actions: seq<Action>)
    requires Run(policy, before) ==
      Sys(Priced([Settled(CardRow(), Some("t"), 0)], [CARD_SUCCEEDED]), [AwaitingGateway(0, CardRow()), Finished])
    ensures Run(policy, actions) == Sys(Priced([PARKED_ROW], [CARD_SUCCEEDED]), [Finished, Finished])
  {
    var a1 := before + [Tick(0)];
    actions := a1 + [Tick(0)];
    RunSnoc(policy, before, Tick(0));
    RunSnoc(policy, a1, Tick(0));
    assert Run(policy, a1) ==
      Sys(Priced([Settled(CardRow(), Some("t"), 0)], [CARD_SUCCEEDED]), [Parking(0, CardRow(), "t"), Finished]);
  }

  lemma TickTo(policy: Policy, actions: seq<Action>, s: Sys, k: nat, d: Db, q: Proc)
    requires Run(policy, actions) == s && k < |s.procs| && Advanced(policy, s.db, s.procs[k], Pending("t"), 0) == (d, q)
    ensures Run(policy, actions + [Tick(k)]) == Sys(d, s.procs[k := q])
  {
    RunSnoc(policy, actions, Tick(k));
  }

  /** So the driver can confirm cash as well. */
  lemma CashIsTaken(policy: Policy, before: seq<Action>) returns (actions: seq<Action>)
    requires Run(policy, before) == Sys(Priced([PARKED_ROW], [CARD_SUCCEEDED]), [Finished, Finished])
    ensures Run(policy, actions).db.outbox == [CARD_SUCCEEDED, PaymentCompleted("r", 1, Cash, PRICE, None)]
  {
    var db, cash := Priced([PARKED_ROW], [CARD_SUCCEEDED]), NewPayment("r", Cash, PRICE, 2);
    var p1, p2 := LookingForSuccess("r", PRICE), CountingForCash("r", PRICE);
    var p3, p4 := GuardingSuccess(None, cash, None), Committing(None, cash, None);
    var a1 := before + [CashBegins("r")];
    RunSnoc(policy, before, CashBegins("r"));
    var s1, s2, s3, s4 := Sys(db, [Finished, Finished, p1]), Sys(db, [Finished, Finished, p2]), Sys(db, [Finished, Finished, p3]), Sys(db, [Finished, Finished, p4]);
    CashReads(policy, db);
    TickTo(policy, a1, s1, 2, db, p2);
    TickTo(policy, a1 + [Tick(2)], s2, 2, db, p3);
    TickTo(policy, a1 + [Tick(2)] + [Tick(2)], s3, 2, db, p4);
    CashCommits(policy, db);
    var end := Advanced(policy, db, p4, Pending("t"), 0);
    TickTo(policy, a1 + [Tick(2)] + [Tick(2)] + [Tick(2)], s4, 2, end.0, end.1);
    actions := a1 + [Tick(2)] + [Tick(2)] + [Tick(2)] + [Tick(2)];
  }

  lemma CashReads(policy: Policy, db: Db)
    requires db == Priced([PARKED_ROW], [CARD_SUCCEEDED])
    ensures var cash := NewPayment("r", Cash, PRICE, 2);
      && Advanced(policy, db, LookingForSuccess("r", PRICE), Pending("t"), 0) == (db, CountingForCash("r", PRICE))
      && Advanced(policy, db, CountingForCash("r", PRICE), Pending("t"), 0) == (db, GuardingSuccess(None, cash, None))
      && Advanced(policy, db, GuardingSuccess(None, cash, None), Pending("t"), 0) == (db, Committing(None, cash, None))
  {
    CountOfParked();
  }

  lemma CashCommits(policy: Policy, db: Db)
    requires db == Priced([PARKED_ROW], [CARD_SUCCEEDED])
    ensures Advanced(policy, db, Committing(None, NewPayment("r", Cash, PRICE, 2), None), Pending("t"), 0).0.outbox ==
      [CARD_SUCCEEDED, PaymentCompleted("r", 1, Cash, PRICE, None)]
  {
    KeysDiffer();
    var row := Settled(NewPayment("r", Cash, PRICE, 2), None, 0);
    assert !Clash(PARKED_ROW, row);
    assert !Violates(db.payments, 1, row);
  }

  lemma CountOfParked()
    ensures CountOf([PARKED_ROW], "r") == 1
  {
    assert [PARKED_ROW][..0] == [];
  }

  lemma KeysDiffer()
    ensures IdempotencyKey("r", 1) != IdempotencyKey("r", 2)
  {
    if IdempotencyKey("r", 1) == IdempotencyKey("r", 2) {
      KeyInjective("r", 1, "r", 2);
    }
  }

  /** With awaits interleaved, a ride can be announced paid twice: by card and, after a stale save, in cash. */
  lemma RideIsChargedTwice(policy: Policy) returns (actions: seq<Action>)
    requires policy.maxDigitalRetries >= 1
    ensures Sum(Run(policy, actions).db.outbox, CompletedFor("r")) == 2
  {
    var a := CardIsWaiting(policy);
    var b := CallbackSettlesIt(policy, a);
    var c := ReplyUndoesIt(policy, b);
    actions := CashIsTaken(policy, c);
    var cash := PaymentCompleted("r", 1, Cash, PRICE, None);
    EventCounts([], CARD_SUCCEEDED, "r");
    EventCounts([CARD_SUCCEEDED], cash, "r");
    assert [] + [CARD_SUCCEEDED] == [CARD_SUCCEEDED] && [CARD_SUCCEEDED] + [cash] == [CARD_SUCCEEDED, cash];
  }
}
