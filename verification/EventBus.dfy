/**
 * libs/events/src/event-bus.service.ts: one queue a service, retries with an attempts header,
 * dead-lettering, and what one publish can set off across all the services bound to its key.
 */
module EventBus {
  import opened Wrappers
  import opened Sums

  const MAX_RETRIES := 3

  datatype Registration = Registration(patterns: seq<string>, handler: nat)

  datatype Message = Message(routingKey: string, attemptsHeader: Option<nat>)

  /** What the consume callback does with a delivered message. */
  datatype Disposition =
    | AckUnhandled
    | AckHandled
    | DeadLetter
    | AckAndRepublish(attempts: nat, delayMs: nat)

  function Attempts(header: Option<nat>): nat {
    (if header.Some? then header.value else 0) + 1
  }

  /** The registration that gets a routing key: the first whose patterns list it. */
  function Target(handlers: seq<Registration>, key: string): (r: Option<Registration>)
    ensures r.Some? ==> r.value in handlers && key in r.value.patterns
    ensures r.None? ==> forall i :: 0 <= i < |handlers| ==> key !in handlers[i].patterns
  {
    if handlers == [] then None
    else if key in handlers[0].patterns then Some(handlers[0])
    else Target(handlers[1..], key)
  }

  function Dispose(handlers: seq<Registration>, msg: Message, succeeds: bool): Disposition {
    if Target(handlers, msg.routingKey).None? then AckUnhandled
    else if succeeds then AckHandled
    else if Attempts(msg.attemptsHeader) >= MAX_RETRIES then DeadLetter
    else AckAndRepublish(Attempts(msg.attemptsHeader), Attempts(msg.attemptsHeader) * 500)
  }

  class EventBusService {
    var handlers: seq<Registration>
    var bindings: seq<string>
    var consuming: bool
    /** channel.consume() calls so far; two would compete for the one queue. */
    var consumers: nat

    ghost predicate Valid()
      reads this
    {
      && consumers == (if consuming then 1 else 0)
      && (forall i, j :: 0 <= i < |handlers| && 0 <= j < |handlers[i].patterns| ==> handlers[i].patterns[j] in bindings)
    }

    constructor ()
      ensures Valid() && handlers == [] && bindings == [] && !consuming
    {
      handlers, bindings, consuming, consumers := [], [], false, 0;
    }

    /** However often it is called, the service's queue keeps a single consumer. */
    method Subscribe(patterns: seq<string>, handler: nat)
      requires Valid()
      modifies this
      ensures Valid() && consumers == 1
      ensures handlers == old(handlers) + [Registration(patterns, handler)]
      ensures bindings == old(bindings) + patterns
    {
      var i := 0;
      while i < |patterns|
        modifies this`bindings
        invariant 0 <= i <= |patterns| && bindings == old(bindings) + patterns[..i]
      {
        bindings := bindings + [patterns[i]];
        i := i + 1;
      }
      handlers := handlers + [Registration(patterns, handler)];
      if consuming {
        return;
      }
      consuming := true;
      consumers := consumers + 1;
    }

    method Consume(msg: Message, succeeds: bool) returns (d: Disposition)
      ensures d == Dispose(handlers, msg, succeeds)
    {
      var i := 0;
      while i < |handlers| && msg.routingKey !in handlers[i].patterns
        invariant 0 <= i <= |handlers|
        invariant Target(handlers, msg.routingKey) == Target(handlers[i..], msg.routingKey)
      {
        assert handlers[i..][1..] == handlers[i + 1..];
        i := i + 1;
      }
      if i == |handlers| {
        return AckUnhandled;
      }
      var attempts := (match msg.attemptsHeader case Some(n) => n case None => 0) + 1;
      if succeeds {
        return AckHandled;
      }
      if attempts >= MAX_RETRIES {
        return DeadLetter;
      }
      d := AckAndRepublish(attempts, attempts * 500);
    }
  }

  predicate Lists(handlers: seq<Registration>, i: nat, key: string)
    requires i < |handlers|
  {
    key in handlers[i].patterns
  }

  /** The earliest registration that lists the key gets it; a key nobody lists is acked and dropped. */
  lemma {:induction false} EarliestRegistrationAnswers(handlers: seq<Registration>, key: string, i: nat)
    requires i < |handlers| && Lists(handlers, i, key) && forall j :: 0 <= j < i ==> !Lists(handlers, j, key)
    ensures Target(handlers, key) == Some(handlers[i])
  {
    if i > 0 {
      assert !Lists(handlers, 0, key);
      forall j | 0 <= j < i - 1
        ensures !Lists(handlers[1..], j, key)
      {
        assert !Lists(handlers, j + 1, key);
      }
      EarliestRegistrationAnswers(handlers[1..], key, i - 1);
    }
  }

  /**
   * A message nobody lists is acked, as is one handled; the first two failures are republished after half a
   * second and a second, counted in the header, and the third and any later one is dead-lettered.
   */
  lemma DispositionsByAttempt(handlers: seq<Registration>, key: string, header: Option<nat>, i: nat)
    ensures (forall j :: 0 <= j < |handlers| ==> !Lists(handlers, j, key)) ==>
      Dispose(handlers, Message(key, header), true) == Dispose(handlers, Message(key, header), false) == AckUnhandled
    ensures i < |handlers| && Lists(handlers, i, key) ==>
      && Dispose(handlers, Message(key, header), true) == AckHandled
      && Dispose(handlers, Message(key, header), false) ==
           (if header.None? || header.value == 0 then AckAndRepublish(1, 500)
            else if header.value == 1 then AckAndRepublish(2, 1000)
            else DeadLetter)
  {
    if t :| t in handlers && key in t.patterns {
      var j :| 0 <= j < |handlers| && handlers[j] == t;
      assert Lists(handlers, j, key);
    }
  }

  // ------------------------------------------------- one publish across S bound queues

  /** Where a copy of the message stands. Waiting: acked, its delayed republish still to come. */
  datatype Status = Queued | Acked | Waiting | Republished | DeadLettered

  datatype Copy = Copy(queue: nat, header: nat, parent: Option<nat>, status: Status, failed: bool)

  /** Every copy ever queued, the handler runs so far, and the broker steps so far. */
  datatype Net = Net(copies: seq<Copy>, runs: nat, steps: nat)

  /** Which of the S services bound to the key also registered a handler for it. */
  datatype Topology = Topology(handled: seq<bool>) {
    function S(): nat { |handled| }
  }

  datatype Action = Deliver(copy: nat, succeeds: bool) | Fire(copy: nat)

  /** A publish puts one copy in each bound queue; so does a republish. */
  function Fanout(t: Topology, header: nat, parent: Option<nat>): (cs: seq<Copy>)
    ensures |cs| == t.S()
  {
    seq(t.S(), q requires 0 <= q < t.S() => Copy(q, header, parent, Queued, false))
  }

  function Publish(t: Topology): Net {
    Net(Fanout(t, 0, None), 0, 0)
  }

  /** The status a handler run leaves its copy in. */
  function AfterRun(header: nat, succeeds: bool): Status {
    if succeeds then Acked else if header + 1 >= MAX_RETRIES then DeadLettered else Waiting
  }

  /** The header a publish or a republish puts on the wire. */
  function HeaderOf(header: nat): Option<nat> {
    if header == 0 then None else Some(header)
  }

  /** The statuses above are the consume callback's decisions, and Fire carries its attempts on. */
  lemma AfterRunIsDispose(handlers: seq<Registration>, key: string, header: nat, succeeds: bool)
    requires Target(handlers, key).Some?
    ensures var d := Dispose(handlers, Message(key, HeaderOf(header)), succeeds);
      && (AfterRun(header, succeeds) == Acked <==> d == AckHandled)
      && (AfterRun(header, succeeds) == DeadLettered <==> d == DeadLetter)
      && (AfterRun(header, succeeds) == Waiting <==> d == AckAndRepublish(header + 1, (header + 1) * 500))
  {
  }

  predicate Handled(t: Topology, queue: nat) {
    queue < t.S() && t.handled[queue]
  }

  function DeliverTo(t: Topology, c: Copy, succeeds: bool): Copy {
    if Handled(t, c.queue) then c.(status := AfterRun(c.header, succeeds), failed := !succeeds)
    else c.(status := Acked)
  }

  function DeliverStep(t: Topology, n: Net, i: nat, succeeds: bool): Net
    requires i < |n.copies|
  {
    var c := n.copies[i];
    if c.status != Queued then n
    else Net(n.copies[i := DeliverTo(t, c, succeeds)], n.runs + (if Handled(t, c.queue) then 1 else 0), n.steps + 1)
  }

  function FireStep(t: Topology, n: Net, i: nat): Net
    requires i < |n.copies|
  {
    var c := n.copies[i];
    if c.status != Waiting then n
    else Net(n.copies[i := c.(status := Republished)] + Fanout(t, c.header + 1, Some(i)), n.runs, n.steps + 1)
  }

  function Step(t: Topology, n: Net, a: Action): Net {
    if a.copy >= |n.copies| then n
    else match a
      case Deliver(i, succeeds) => DeliverStep(t, n, i, succeeds)
      case Fire(i) => FireStep(t, n, i)
  }

  function Run(t: Topology, actions: seq<Action>): Net {
    if actions == [] then Publish(t)
    else Step(t, Run(t, actions[..|actions| - 1]), actions[|actions| - 1])
  }

  // ------------------------------------------------------------------- lineage

  /** A copy with header h descends from h failed runs, each a republish of the one before. */
  ghost predicate HasLineage(cs: seq<Copy>, i: nat)
    requires i < |cs|
  {
    var c := cs[i];
    && c.header <= 2
    && (c.status == Waiting || c.status == Republished ==> c.failed && c.header <= 1)
    && (c.status == DeadLettered ==> c.failed && c.header == 2)
    && (c.parent.None? ==> c.header == 0)
    && (c.parent.Some? ==> c.parent.value < i && cs[c.parent.value].status == Republished
                           && cs[c.parent.value].header + 1 == c.header)
  }

  ghost predicate Lineage(n: Net) {
    forall i :: 0 <= i < |n.copies| ==> HasLineage(n.copies, i)
  }

  lemma DeliverKeepsLineage(t: Topology, n: Net, k: nat, succeeds: bool)
    requires Lineage(n) && k < |n.copies|
    ensures Lineage(DeliverStep(t, n, k, succeeds))
  {
    var m := DeliverStep(t, n, k, succeeds);
    forall i | 0 <= i < |m.copies|
      ensures HasLineage(m.copies, i)
    {
      assert HasLineage(n.copies, i) && HasLineage(n.copies, k);
    }
  }

  lemma FireKeepsLineage(t: Topology, n: Net, k: nat)
    requires Lineage(n) && k < |n.copies|
    ensures Lineage(FireStep(t, n, k))
  {
    var m := FireStep(t, n, k);
    assert HasLineage(n.copies, k);
    forall i | 0 <= i < |m.copies|
      ensures HasLineage(m.copies, i)
    {
      if i < |n.copies| {
        assert HasLineage(n.copies, i);
      }
    }
  }

  lemma StepKeepsLineage(t: Topology, n: Net, a: Action)
    requires Lineage(n)
    ensures Lineage(Step(t, n, a))
  {
    if a.copy < |n.copies| {
      match a
      case Deliver(i, succeeds) => DeliverKeepsLineage(t, n, i, succeeds);
      case Fire(i) => FireKeepsLineage(t, n, i);
    }
  }

  lemma {:induction false} RunKeepsLineage(t: Topology, actions: seq<Action>)
    ensures Lineage(Run(t, actions))
  {
    if actions != [] {
      RunKeepsLineage(t, actions[..|actions| - 1]);
      StepKeepsLineage(t, Run(t, actions[..|actions| - 1]), actions[|actions| - 1]);
    }
  }

  /** A copy is dead-lettered only at the end of a chain of three failing runs. */
  lemma {:induction false} DeadLetterEndsThreeFailures(t: Topology, actions: seq<Action>, i: nat)
    requires i < |Run(t, actions).copies| && Run(t, actions).copies[i].status == DeadLettered
    ensures var cs := Run(t, actions).copies;
      && cs[i].failed && cs[i].parent.Some? && cs[i].parent.value < i
      && var j := cs[i].parent.value;
      && cs[j].failed && cs[j].status == Republished && cs[j].parent.Some? && cs[j].parent.value < j
      && var k := cs[j].parent.value;
      && cs[k].failed && cs[k].status == Republished && cs[k].parent.None?
  {
    RunKeepsLineage(t, actions);
    var cs := Run(t, actions).copies;
    assert HasLineage(cs, i);
    var j := cs[i].parent.value;
    assert HasLineage(cs, j);
    assert HasLineage(cs, cs[j].parent.value);
  }

  // ------------------------------------------------------- bounds on runs and steps

  /**
   * What a copy can still cost when each run costs one and each republish costs `fire`:
   * with fire = 0 this counts handler runs, with fire = 1 every broker step.
   */
  function QueuedCost(s: nat, fire: nat, header: nat): nat
    decreases 2 - header, 1
  {
    1 + if header < 2 then WaitingCost(s, fire, header) else 0
  }

  function WaitingCost(s: nat, fire: nat, header: nat): nat
    decreases 2 - header, 0
  {
    if header < 2 then fire + s * QueuedCost(s, fire, header + 1) else 0
  }

  function Cost(s: nat, fire: nat): Copy -> int {
    (c: Copy) =>
      match c.status
      case Queued => QueuedCost(s, fire, c.header)
      case Waiting => WaitingCost(s, fire, c.header)
      case _ => 0
  }

  function Spent(n: Net, fire: nat): nat {
    if fire == 0 then n.runs else n.steps
  }

  lemma FanoutCost(t: Topology, fire: nat, header: nat, parent: Option<nat>)
    ensures Sum(Fanout(t, header, parent), Cost(t.S(), fire)) == t.S() * QueuedCost(t.S(), fire, header)
  {
    SumOfEqual(Fanout(t, header, parent), Cost(t.S(), fire), QueuedCost(t.S(), fire, header));
  }

  lemma DeliverSpendsPotential(t: Topology, n: Net, i: nat, succeeds: bool, fire: nat)
    requires fire <= 1 && Lineage(n) && i < |n.copies|
    ensures var m := DeliverStep(t, n, i, succeeds); var f := Cost(t.S(), fire);
      && Spent(m, fire) + Sum(m.copies, f) <= Spent(n, fire) + Sum(n.copies, f)
      && (Handled(t, n.copies[i].queue) && !succeeds ==>
            Spent(m, fire) + Sum(m.copies, f) == Spent(n, fire) + Sum(n.copies, f))
  {
    assert HasLineage(n.copies, i);
    SumUpdate(n.copies, i, DeliverTo(t, n.copies[i], succeeds), Cost(t.S(), fire));
  }

  lemma FireSpendsPotential(t: Topology, n: Net, i: nat, fire: nat)
    requires fire <= 1 && Lineage(n) && i < |n.copies|
    ensures var m := FireStep(t, n, i); var f := Cost(t.S(), fire);
      Spent(m, fire) + Sum(m.copies, f) == Spent(n, fire) + Sum(n.copies, f)
  {
    var c, f := n.copies[i], Cost(t.S(), fire);
    assert HasLineage(n.copies, i);
    if c.status == Waiting {
      SumUpdate(n.copies, i, c.(status := Republished), f);
      FanoutCost(t, fire, c.header + 1, Some(i));
      SumAppend(n.copies[i := c.(status := Republished)], Fanout(t, c.header + 1, Some(i)), f);
    }
  }

  /** No step costs more than the potential it frees; a failing run frees exactly its cost. */
  lemma StepSpendsPotential(t: Topology, n: Net, a: Action, fire: nat)
    requires fire <= 1 && Lineage(n)
    ensures var m := Step(t, n, a); var f := Cost(t.S(), fire);
      && Spent(m, fire) + Sum(m.copies, f) <= Spent(n, fire) + Sum(n.copies, f)
      && (AllHandled(t) && QueuesInRange(t, n) && (a.Deliver? ==> !a.succeeds) ==>
            Spent(m, fire) + Sum(m.copies, f) == Spent(n, fire) + Sum(n.copies, f))
  {
    if a.copy < |n.copies| {
      match a
      case Deliver(i, succeeds) => DeliverSpendsPotential(t, n, i, succeeds, fire);
      case Fire(i) => FireSpendsPotential(t, n, i, fire);
    }
  }

  ghost predicate AllHandled(t: Topology) {
    forall q :: 0 <= q < t.S() ==> t.handled[q]
  }

  ghost predicate AllFail(actions: seq<Action>) {
    forall i :: 0 <= i < |actions| ==> actions[i].Deliver? ==> !actions[i].succeeds
  }

  lemma {:induction false} RunSpendsPotential(t: Topology, actions: seq<Action>, fire: nat)
    requires fire <= 1
    ensures var n := Run(t, actions); var total := t.S() * QueuedCost(t.S(), fire, 0);
      && Spent(n, fire) + Sum(n.copies, Cost(t.S(), fire)) <= total
      && (AllHandled(t) && AllFail(actions) ==>
            Spent(n, fire) + Sum(n.copies, Cost(t.S(), fire)) == total)
  {
    if actions == [] {
      FanoutCost(t, fire, 0, None);
    } else {
      var before, a := Run(t, actions[..|actions| - 1]), actions[|actions| - 1];
      RunSpendsPotential(t, actions[..|actions| - 1], fire);
      RunKeepsLineage(t, actions[..|actions| - 1]);
      RunStaysInRange(t, actions[..|actions| - 1]);
      StepSpendsPotential(t, before, a, fire);
    }
  }

  ghost predicate QueuesInRange(t: Topology, n: Net) {
    forall i :: 0 <= i < |n.copies| ==> n.copies[i].queue < t.S()
  }

  lemma {:induction false} RunStaysInRange(t: Topology, actions: seq<Action>)
    ensures QueuesInRange(t, Run(t, actions))
  {
    if actions != [] {
      RunStaysInRange(t, actions[..|actions| - 1]);
    }
  }

  lemma CopiesCostNothingNegative(t: Topology, n: Net, fire: nat)
    ensures Sum(n.copies, Cost(t.S(), fire)) >= 0
  {
    SumIsNatural(n.copies, Cost(t.S(), fire));
  }

  lemma RunCostOfPublish(s: nat)
    ensures s * QueuedCost(s, 0, 0) == s + s * s + s * s * s
  {
    assert QueuedCost(s, 0, 2) == 1;
    assert WaitingCost(s, 0, 1) == s * 1;
    assert QueuedCost(s, 0, 1) == 1 + s;
    assert WaitingCost(s, 0, 0) == s * (1 + s) == s + s * s;
    assert QueuedCost(s, 0, 0) == 1 + s + s * s;
    assert s * (1 + s + s * s) == s + s * s + s * (s * s);
  }

  ghost predicate Quiescent(n: Net) {
    forall i :: 0 <= i < |n.copies| ==> n.copies[i].status != Queued && n.copies[i].status != Waiting
  }

  /** One publish to S bound queues causes at most S + S^2 + S^3 handler runs. */
  lemma {:induction false} HandlerRunsAreBounded(t: Topology, actions: seq<Action>)
    ensures Run(t, actions).runs <= t.S() + t.S() * t.S() + t.S() * t.S() * t.S()
  {
    RunSpendsPotential(t, actions, 0);
    CopiesCostNothingNegative(t, Run(t, actions), 0);
    RunCostOfPublish(t.S());
  }

  /** The bound is met: when every run fails, draining the queues takes exactly that many. */
  lemma {:induction false} BoundIsMetWhenAllFail(t: Topology, actions: seq<Action>)
    requires AllHandled(t) && AllFail(actions) && Quiescent(Run(t, actions))
    ensures Run(t, actions).runs == t.S() + t.S() * t.S() + t.S() * t.S() * t.S()
  {
    var n := Run(t, actions);
    RunSpendsPotential(t, actions, 0);
    RunStaysInRange(t, actions);
    SumOfEqual(n.copies, Cost(t.S(), 0), 0);
    RunCostOfPublish(t.S());
  }

  /** Every run drains: the broker takes boundedly many steps in all. */
  lemma {:induction false} StepsAreBounded(t: Topology, actions: seq<Action>)
    ensures Run(t, actions).steps <= t.S() * QueuedCost(t.S(), 1, 0)
  {
    RunSpendsPotential(t, actions, 1);
    CopiesCostNothingNegative(t, Run(t, actions), 1);
  }

  /** While some copy is neither acked nor dead-lettered there is a step that makes progress. */
  lemma UnfinishedCopiesCanMove(t: Topology, n: Net, succeeds: bool)
    requires !Quiescent(n)
    ensures exists a: Action :: Step(t, n, a).steps == n.steps + 1
  {
    var i :| 0 <= i < |n.copies| && (n.copies[i].status == Queued || n.copies[i].status == Waiting);
    if n.copies[i].status == Queued {
      assert Step(t, n, Deliver(i, succeeds)).steps == n.steps + 1;
    } else {
      assert Step(t, n, Fire(i)).steps == n.steps + 1;
    }
  }

  /** Acked, in place or to be republished, or dead-lettered. */
  predicate Ended(c: Copy) {
    c.status == Acked || c.status == Republished || c.status == DeadLettered
  }

  /**
   * Every copy ends: no run takes more than boundedly many broker steps, and a run that no step can
   * extend has left every copy acked or dead-lettered.
   */
  lemma {:induction false} EveryCopyEnds(t: Topology, actions: seq<Action>)
    ensures var n := Run(t, actions);
      && n.steps <= t.S() * QueuedCost(t.S(), 1, 0)
      && ((forall a :: Step(t, n, a) == n) <==> forall i :: 0 <= i < |n.copies| ==> Ended(n.copies[i]))
  {
    var n := Run(t, actions);
    StepsAreBounded(t, actions);
    if Quiescent(n) {
      forall a
        ensures Step(t, n, a) == n
      {
      }
    } else {
      UnfinishedCopiesCanMove(t, n, true);
      var i :| 0 <= i < |n.copies| && (n.copies[i].status == Queued || n.copies[i].status == Waiting);
      assert !Ended(n.copies[i]);
    }
  }

  /** A retry goes to the exchange, so it reaches every bound queue and not only the one that failed. */
  lemma RetryReachesEveryQueue(t: Topology, n: Net, i: nat, q: nat)
    requires i < |n.copies| && n.copies[i].status == Waiting && n.copies[i].header <= 1 && q < t.S()
    ensures var m := Step(t, n, Fire(i));
      m.copies[|n.copies| + q] == Copy(q, n.copies[i].header + 1, Some(i), Queued, false)
  {
  }
}
