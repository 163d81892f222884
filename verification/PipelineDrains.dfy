/**
 * That the pipeline can always make up its arrears: from every state it can reach, some relay ticks,
 * timers and handler runs that meet no error leave nothing unsent, queued or waiting.
 */
module PipelineDrains {
  import opened Sums
  import opened Projections
  import opened Pipeline

  function UnsentEntry(): LogEntry -> int {
    (e: LogEntry) => if e.row.sent then 0 else 1
  }

  /** Steps left: two for each unsent row and the copy it becomes, a timer's firing, a queued copy's delivery. */
  function Arrears(s: Sys): int {
    3 * Sum(s.log, UnsentEntry()) + 2 * |s.timers| + |s.queue|
  }

  lemma ArrearsAreNatural(s: Sys)
    ensures Arrears(s) >= 0
    ensures Arrears(s) == 0 ==> Drained(s)
  {
    SumIsNatural(s.log, UnsentEntry());
  }

  /** What paying arrears leaves alone: the events logged so far, and those given up on. */
  predicate OnlyCatchesUp(s: Sys, t: Sys) {
    && |t.log| == |s.log| && (forall i :: 0 <= i < |s.log| ==> t.log[i].event == s.log[i].event && t.log[i].row.id == s.log[i].row.id)
    && t.dead == s.dead && t.lost == s.lost
  }

  /** A handler run that meets no error takes its copy from the queue and puts nothing back. */
  lemma DeliveryPays(s: Sys)
    requires s.queue != [] && s.queue[0].entry < |s.log|
    ensures var t := Step(s, Deliver(0, 2));
      && OnlyCatchesUp(s, t) && Arrears(t) == Arrears(s) - 1 && FullyProcessed(t.tables, s.log[s.queue[0].entry])
  {
    var c := s.queue[0];
    var e := s.log[c.entry];
    HandleClaims(s.tables, e.row.id, e.event, Day(c.atMs), 2);
  }

  lemma TimerPays(s: Sys)
    requires s.timers != []
    ensures var t := Step(s, TimerFires(0)); OnlyCatchesUp(s, t) && Arrears(t) == Arrears(s) - 1
  {
  }

  lemma RelayPays(s: Sys, i: nat, atMs: int)
    requires i < |s.log| && !s.log[i].row.sent
    ensures var t := Step(Step(s, RelayPublish(i, atMs)), RelayMark(i)); OnlyCatchesUp(s, t) && Arrears(t) == Arrears(s) - 2
  {
    var u := Step(s, RelayPublish(i, atMs));
    var t := Step(u, RelayMark(i));
    SumUpdate(s.log, i, u.log[i], UnsentEntry());
    SumUpdate(u.log, i, t.log[i], UnsentEntry());
  }

  lemma CatchingUpComposes(s: Sys, t: Sys, u: Sys)
    requires OnlyCatchesUp(s, t) && OnlyCatchesUp(t, u)
    ensures OnlyCatchesUp(s, u)
  {
  }

  /** Some steps that pay one or two of the arrears, at any time the relay may read. */
  lemma SomeStepsPay(s: Sys, atMs: int) returns (a: seq<Action>)
    requires Inv(s) && !Drained(s)
    ensures Inv(Run(s, a)) && OnlyCatchesUp(s, Run(s, a)) && Arrears(Run(s, a)) < Arrears(s)
  {
    assert Run(s, []) == s;
    if s.queue != [] {
      a := [] + [Deliver(0, 2)];
      RunSnoc(s, [], Deliver(0, 2));
      DeliveryPays(s);
      StepKeepsInv(s, Deliver(0, 2));
    } else if s.timers != [] {
      a := [] + [TimerFires(0)];
      RunSnoc(s, [], TimerFires(0));
      TimerPays(s);
      StepKeepsInv(s, TimerFires(0));
    } else {
      var i :| 0 <= i < |s.log| && !s.log[i].row.sent;
      var x, y := RelayPublish(i, atMs), RelayMark(i);
      a := [] + [x] + [y];
      RunSnoc(s, [], x);
      RunSnoc(s, [] + [x], y);
      RelayPays(s, i, atMs);
      StepKeepsInv(s, x);
      StepKeepsInv(Step(s, x), y);
    }
  }

  lemma {:induction false} RunAppend(s: Sys, a: seq<Action>, b: seq<Action>)
    ensures Run(s, a + b) == Run(Run(s, a), b)
  {
    if b == [] {
      assert a + b == a;
    } else {
      RunAppend(s, a, b[..|b| - 1]);
      assert (a + b)[..|a + b| - 1] == a + b[..|b| - 1];
    }
  }

  lemma {:induction false} SomeRunDrains(s: Sys, atMs: int) returns (more: seq<Action>)
    requires Inv(s)
    ensures Drained(Run(s, more)) && OnlyCatchesUp(s, Run(s, more))
    decreases Arrears(s)
  {
    if Drained(s) {
      more := [];
    } else {
      ArrearsAreNatural(s);
      var a := SomeStepsPay(s, atMs);
      var t := Run(s, a);
      ArrearsAreNatural(t);
      var b := SomeRunDrains(t, atMs);
      more := a + b;
      RunAppend(s, a, b);
      CatchingUpComposes(s, t, Run(t, b));
    }
  }

  lemma {:induction false} SameEventsSameDue(a: seq<LogEntry>, b: seq<LogEntry>, m: Measure)
    requires |a| == |b| && forall i :: 0 <= i < |a| ==> a[i].event == b[i].event
    ensures Sum(a, Due(m)) == Sum(b, Due(m))
  {
    if a != [] {
      SameEventsSameDue(a[..|a| - 1], b[..|b| - 1], m);
    }
  }

  /**
   * Whatever happened so far, unless something was dead-lettered or lost, some steps without an error bring
   * every figure to exactly the worth of all events committed by then.
   */
  lemma {:induction false} ArrearsCanBePaid(actions: seq<Action>, atMs: int) returns (more: seq<Action>)
    requires var s := Run(Init, actions); s.dead == [] && s.lost == []
    ensures var s, t := Run(Init, actions), Run(Init, actions + more);
      Drained(t) && forall m :: Total(t.tables, m) == Sum(s.log, Due(m))
  {
    var s := Run(Init, actions);
    RunKeepsInv(actions);
    more := SomeRunDrains(s, atMs);
    RunAppend(Init, actions, more);
    var t := Run(Init, actions + more);
    forall m
      ensures Total(t.tables, m) == Sum(s.log, Due(m))
    {
      DrainedTotalsAreCommitted(actions + more, m);
      SameEventsSameDue(t.log, s.log, m);
    }
  }
}
