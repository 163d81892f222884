/**
 * From committed events to the reporting totals: outbox relays, an at-least-once bus with
 * retries and dead-lettering, and the deduplicating projections, as one transition system.
 * Any producer's relay, any redelivery and any crash may interleave with anything else.
 */
module Pipeline {
  import opened Sums
  import opened Projections
  import EventBus
  import opened OutboxRelay

  /**
   * A committed outbox row and its event. Dispatch publishes dispatch.exhausted without an
   * outbox; such an event is logged here with its row already sent.
   */
  datatype LogEntry = LogEntry(row: OutboxRow, event: DomainEvent, published: bool)

  /** A message in the reporting queue: its log entry, the time its envelope carries, its attempts header. */
  datatype Copy = Copy(entry: nat, atMs: int, attempts: nat)

  /**
   * marking: rows a relay has published and not yet saved. timers: failed copies acked and
   * waiting in memory for their delayed republish. lost: timers wiped by a crash.
   */
  datatype Sys = Sys(
    log: seq<LogEntry>, marking: set<nat>,
    queue: seq<Copy>, timers: seq<Copy>, dead: seq<Copy>, lost: seq<Copy>,
    tables: Tables)

  datatype Action =
    | Commit(id: string, event: DomainEvent, createdAt: int)
    | PublishDirectly(id: string, event: DomainEvent, atMs: int)
    | RelayPublish(entry: nat, atMs: int)
    | RelayMark(entry: nat)
    | RelayAbort(entry: nat)
    /** The handler gets through `commits` transactions; with fewer than it needs, it throws. */
    | Deliver(copy: nat, commits: nat)
    /** The process dies after `commits` transactions: the message stays unacked, the timers are gone. */
    | DeliverAndDie(copy: nat, commits: nat)
    | TimerFires(timer: nat)
    /** A message is queued once more: another service's retry, or a redelivery by the broker. */
    | Requeue(entry: nat, atMs: int, attempts: nat)
    | ConsumerCrash

  const Init := Sys([], {}, [], [], [], [], NoTables)

  predicate KnownId(log: seq<LogEntry>, id: string) {
    exists i :: 0 <= i < |log| && log[i].row.id == id
  }

  function Remove<T>(s: seq<T>, i: nat): seq<T>
    requires i < |s|
  {
    s[..i] + s[i + 1..]
  }

  function Process(s: Sys, c: Copy, commits: nat): Tables
    requires c.entry < |s.log|
  {
    var e := s.log[c.entry];
    Handle(s.tables, e.row.id, e.event, Day(c.atMs), commits)
  }

  /** The message leaves the queue as the consume callback decides, over the tables its handler left. */
  function Settle(s: Sys, k: nat, succeeds: bool, tables: Tables): Sys
    requires k < |s.queue|
  {
    var c := s.queue[k];
    var t := s.(tables := tables, queue := Remove(s.queue, k));
    match EventBus.AfterRun(c.attempts, succeeds)
    case Waiting => t.(timers := t.timers + [c.(attempts := c.attempts + 1)])
    case DeadLettered => t.(dead := t.dead + [c])
    case _ => t
  }

  function DeliverStep(s: Sys, k: nat, commits: nat): Sys
    requires k < |s.queue| && s.queue[k].entry < |s.log|
  {
    var c := s.queue[k];
    Settle(s, k, commits >= |Targets(s.log[c.entry].event)|, Process(s, c, commits))
  }

  /** The process dies over the tables its handler left: its message stays queued, its timers are lost. */
  function DieStep(s: Sys, tables: Tables): Sys {
    s.(tables := tables, timers := [], lost := s.lost + s.timers)
  }

  function Step(s: Sys, a: Action): Sys {
    match a
    case Commit(id, event, createdAt) =>
      if KnownId(s.log, id) then s
      else s.(log := s.log + [LogEntry(OutboxRow(id, createdAt, false), event, false)])
    case PublishDirectly(id, event, atMs) =>
      if KnownId(s.log, id) then s
      else s.(log := s.log + [LogEntry(OutboxRow(id, atMs, true), event, true)],
              queue := s.queue + [Copy(|s.log|, atMs, 0)])
    case RelayPublish(i, atMs) =>
      if i >= |s.log| || s.log[i].row.sent then s
      else s.(log := s.log[i := s.log[i].(published := true)], marking := s.marking + {i},
              queue := s.queue + [Copy(i, atMs, 0)])
    case RelayMark(i) =>
      if i >= |s.log| || i !in s.marking then s
      else s.(log := s.log[i := s.log[i].(row := s.log[i].row.(sent := true))], marking := s.marking - {i})
    case RelayAbort(i) => s.(marking := s.marking - {i})
    case Deliver(k, commits) =>
      if k >= |s.queue| || s.queue[k].entry >= |s.log| then s else DeliverStep(s, k, commits)
    case DeliverAndDie(k, commits) =>
      if k >= |s.queue| || s.queue[k].entry >= |s.log| then s
      else DieStep(s, Process(s, s.queue[k], commits))
    case TimerFires(k) =>
      if k >= |s.timers| then s
      else s.(queue := s.queue + [s.timers[k]], timers := Remove(s.timers, k))
    case Requeue(i, atMs, attempts) =>
      if i >= |s.log| || !s.log[i].published then s
      else s.(queue := s.queue + [Copy(i, atMs, attempts)])
    case ConsumerCrash => s.(timers := [], lost := s.lost + s.timers)
  }

  function Run(s: Sys, actions: seq<Action>): Sys {
    if actions == [] then s else Step(Run(s, actions[..|actions| - 1]), actions[|actions| - 1])
  }

  // -------------------------------------------------------------------- invariants

  ghost predicate UniqueIds(log: seq<LogEntry>) {
    forall i, j :: 0 <= i < j < |log| ==> log[i].row.id != log[j].row.id
  }

  ghost predicate Refers(log: seq<LogEntry>, cs: seq<Copy>) {
    forall k :: 0 <= k < |cs| ==> cs[k].entry < |log| && log[cs[k].entry].published
  }

  /** Everything in the broker was published, and everything sent was. */
  ghost predicate WellFormed(s: Sys) {
    && UniqueIds(s.log)
    && Refers(s.log, s.queue) && Refers(s.log, s.timers) && Refers(s.log, s.dead) && Refers(s.log, s.lost)
    && (forall i :: 0 <= i < |s.log| && s.log[i].row.sent ==> s.log[i].published)
    && (forall i <- s.marking :: i < |s.log| && s.log[i].published)
  }

  /** Whoever was processed was a published event, for a projection it targets. */
  ghost predicate ProcessedWerePublished(s: Sys) {
    forall key <- s.tables.processed ::
      exists i :: 0 <= i < |s.log| && s.log[i].published && s.log[i].row.id == key.0 && key.1 in Targets(s.log[i].event)
  }

  function EntriesOf(cs: seq<Copy>): set<nat> {
    set k | 0 <= k < |cs| :: cs[k].entry
  }

  /** The entries some copy of which is still under way, dead-lettered or lost. */
  function Outstanding(s: Sys): set<nat> {
    EntriesOf(s.queue) + EntriesOf(s.timers) + EntriesOf(s.dead) + EntriesOf(s.lost)
  }

  ghost predicate FullyProcessed(t: Tables, e: LogEntry) {
    forall p <- Targets(e.event) :: (e.row.id, p) in t.processed
  }

  /** No published event is silently dropped. */
  ghost predicate Accounted(s: Sys) {
    forall i :: 0 <= i < |s.log| && s.log[i].published ==> FullyProcessed(s.tables, s.log[i]) || i in Outstanding(s)
  }

  ghost predicate Inv(s: Sys) {
    && WellFormed(s) && ProcessedWerePublished(s) && Accounted(s)
    && AveragesHold(s.tables.rides) && KeysUnique(s.tables.rides)
  }

  lemma EntriesOfSnoc(cs: seq<Copy>, c: Copy)
    ensures EntriesOf(cs + [c]) == EntriesOf(cs) + {c.entry}
  {
    assert (cs + [c])[|cs|] == c;
    assert forall k :: 0 <= k < |cs| ==> (cs + [c])[k] == cs[k];
  }

  lemma EntriesOfRemove(cs: seq<Copy>, k: nat)
    requires k < |cs|
    ensures EntriesOf(cs) == EntriesOf(Remove(cs, k)) + {cs[k].entry}
  {
    var r := Remove(cs, k);
    forall j | 0 <= j < |cs| && j != k
      ensures cs[j].entry in EntriesOf(r)
    {
      assert r[if j < k then j else j - 1] == cs[j];
    }
  }

  lemma EntriesOfAppend(a: seq<Copy>, b: seq<Copy>)
    ensures EntriesOf(a + b) == EntriesOf(a) + EntriesOf(b)
  {
    forall k | 0 <= k < |b|
      ensures b[k].entry in EntriesOf(a + b)
    {
      assert (a + b)[|a| + k] == b[k];
    }
    forall k | 0 <= k < |a|
      ensures a[k].entry in EntriesOf(a + b)
    {
      assert (a + b)[k] == a[k];
    }
  }

  /** A log that keeps its entries and only moves flags up keeps every record of what was done. */
  ghost predicate Extends(a: seq<LogEntry>, b: seq<LogEntry>) {
    && |a| <= |b|
    && forall i :: 0 <= i < |a| ==>
        a[i].row.id == b[i].row.id && a[i].event == b[i].event && (a[i].published ==> b[i].published)
  }

  lemma LogStepKeepsInv(s: Sys, t: Sys)
    requires Inv(s) && WellFormed(t) && Extends(s.log, t.log) && t.tables == s.tables
    requires Outstanding(s) <= Outstanding(t)
    requires forall i :: 0 <= i < |t.log| && t.log[i].published ==> (i < |s.log| && s.log[i].published) || i in Outstanding(t)
    ensures Inv(t)
  {
    forall key <- t.tables.processed
      ensures exists i :: 0 <= i < |t.log| && t.log[i].published && t.log[i].row.id == key.0 && key.1 in Targets(t.log[i].event)
    {
      var i :| 0 <= i < |s.log| && s.log[i].published && s.log[i].row.id == key.0 && key.1 in Targets(s.log[i].event);
      assert t.log[i].published;
    }
    forall i | 0 <= i < |t.log| && t.log[i].published
      ensures FullyProcessed(t.tables, t.log[i]) || i in Outstanding(t)
    {
      if i < |s.log| && s.log[i].published && FullyProcessed(s.tables, s.log[i]) {
        assert FullyProcessed(t.tables, t.log[i]);
      }
    }
  }

  /** What a handler run on entry i may have done to the tables. */
  ghost predicate Progress(before: Tables, after: Tables, e: LogEntry) {
    && before.processed <= after.processed
    && (forall key <- after.processed :: key in before.processed || (key.0 == e.row.id && key.1 in Targets(e.event)))
    && AveragesHold(after.rides) && KeysUnique(after.rides)
  }

  lemma ProcessProgresses(s: Sys, c: Copy, commits: nat)
    requires Inv(s) && c.entry < |s.log|
    ensures Progress(s.tables, Process(s, c, commits), s.log[c.entry])
    ensures commits >= |Targets(s.log[c.entry].event)| ==> FullyProcessed(Process(s, c, commits), s.log[c.entry])
  {
    var e := s.log[c.entry];
    HandleKeepsAverages(s.tables, e.row.id, e.event, Day(c.atMs), commits);
    HandleClaims(s.tables, e.row.id, e.event, Day(c.atMs), commits);
  }

  /** A handler run, whole or partial, whose message goes nowhere it cannot be found again. */
  lemma RunStepKeepsInv(s: Sys, t: Sys, i: nat)
    requires Inv(s) && WellFormed(t) && t.log == s.log && i < |s.log| && s.log[i].published
    requires Progress(s.tables, t.tables, s.log[i])
    requires Outstanding(s) <= Outstanding(t) + {i}
    requires FullyProcessed(t.tables, s.log[i]) || i in Outstanding(t)
    ensures Inv(t)
  {
    forall key <- t.tables.processed
      ensures exists j :: 0 <= j < |t.log| && t.log[j].published && t.log[j].row.id == key.0 && key.1 in Targets(t.log[j].event)
    {
      if key !in s.tables.processed {
        assert t.log[i].published && t.log[i].row.id == key.0 && key.1 in Targets(t.log[i].event);
      }
    }
    forall j | 0 <= j < |t.log| && t.log[j].published
      ensures FullyProcessed(t.tables, t.log[j]) || j in Outstanding(t)
    {
      if FullyProcessed(s.tables, s.log[j]) {
        assert FullyProcessed(t.tables, t.log[j]);
      }
    }
  }

  lemma QueueSnocKeepsWellFormed(s: Sys, log: seq<LogEntry>, c: Copy)
    requires WellFormed(s) && UniqueIds(log) && Extends(s.log, log) && c.entry < |log| && log[c.entry].published
    requires forall i :: 0 <= i < |log| && log[i].row.sent ==> log[i].published
    ensures WellFormed(s.(log := log, queue := s.queue + [c]))
    ensures Outstanding(s.(log := log, queue := s.queue + [c])) == Outstanding(s) + {c.entry}
  {
    EntriesOfSnoc(s.queue, c);
  }

  /** Taking copy k off the queue and putting it, with any header, on one of the other lists or nowhere. */
  lemma MoveKeepsWellFormed(s: Sys, k: nat, t: Sys, attempts: nat)
    requires WellFormed(s) && k < |s.queue|
    requires t.log == s.log && t.marking == s.marking && t.queue == Remove(s.queue, k) && t.lost == s.lost
    requires t.timers == s.timers || t.timers == s.timers + [s.queue[k].(attempts := attempts)]
    requires t.dead == s.dead || t.dead == s.dead + [s.queue[k]]
    ensures WellFormed(t) && Outstanding(s) <= Outstanding(t) + {s.queue[k].entry}
    ensures t.timers != s.timers || t.dead != s.dead ==> s.queue[k].entry in Outstanding(t)
  {
    EntriesOfRemove(s.queue, k);
    EntriesOfSnoc(s.timers, s.queue[k].(attempts := attempts));
    EntriesOfSnoc(s.dead, s.queue[k]);
  }

  lemma SettleKeepsInv(s: Sys, k: nat, succeeds: bool, tables: Tables)
    requires Inv(s) && k < |s.queue| && Progress(s.tables, tables, s.log[s.queue[k].entry])
    requires succeeds ==> FullyProcessed(tables, s.log[s.queue[k].entry])
    ensures Inv(Settle(s, k, succeeds, tables))
  {
    var t := Settle(s, k, succeeds, tables);
    MoveKeepsWellFormed(s, k, t, s.queue[k].attempts + 1);
    RunStepKeepsInv(s, t, s.queue[k].entry);
  }

  lemma DeliverKeepsInv(s: Sys, k: nat, commits: nat)
    requires Inv(s) && k < |s.queue|
    ensures Inv(DeliverStep(s, k, commits))
  {
    ProcessProgresses(s, s.queue[k], commits);
    SettleKeepsInv(s, k, commits >= |Targets(s.log[s.queue[k].entry].event)|, Process(s, s.queue[k], commits));
  }

  lemma CrashKeepsInv(s: Sys, t: Sys)
    requires Inv(s) && t == s.(timers := [], lost := s.lost + s.timers)
    ensures Inv(t) && Outstanding(t) == Outstanding(s)
  {
    EntriesOfAppend(s.lost, s.timers);
    LogStepKeepsInv(s, t);
  }

  lemma UnackedKeepsInv(s: Sys, k: nat, tables: Tables)
    requires Inv(s) && k < |s.queue| && Progress(s.tables, tables, s.log[s.queue[k].entry])
    ensures Inv(s.(tables := tables))
  {
    assert s.queue[k].entry in EntriesOf(s.queue);
    RunStepKeepsInv(s, s.(tables := tables), s.queue[k].entry);
  }

  lemma DieKeepsInv(s: Sys, k: nat, tables: Tables)
    requires Inv(s) && k < |s.queue| && Progress(s.tables, tables, s.log[s.queue[k].entry])
    ensures Inv(DieStep(s, tables))
  {
    UnackedKeepsInv(s, k, tables);
    var u := s.(tables := tables);
    CrashKeepsInv(u, u.(timers := [], lost := u.lost + u.timers));
  }

  lemma TimerKeepsInv(s: Sys, k: nat)
    requires Inv(s) && k < |s.timers|
    ensures Inv(Step(s, TimerFires(k)))
  {
    EntriesOfRemove(s.timers, k);
    EntriesOfSnoc(s.queue, s.timers[k]);
    LogStepKeepsInv(s, Step(s, TimerFires(k)));
  }

  /** Publishing, for the first time or again, with the log entry's flag raised. */
  lemma PublishKeepsInv(s: Sys, log: seq<LogEntry>, c: Copy, marking: set<nat>)
    requires Inv(s) && UniqueIds(log) && Extends(s.log, log) && c.entry < |log| && log[c.entry].published
    requires forall i :: 0 <= i < |log| && log[i].row.sent ==> log[i].published
    requires forall i :: 0 <= i < |log| && log[i].published && i != c.entry ==> i < |s.log| && s.log[i].published
    requires marking <= s.marking + {c.entry}
    ensures Inv(s.(log := log, queue := s.queue + [c], marking := marking))
  {
    var u := s.(log := log, queue := s.queue + [c]);
    QueueSnocKeepsWellFormed(s, log, c);
    LogStepKeepsInv(s, u.(marking := marking));
  }

  lemma FlagKeepsInv(s: Sys, t: Sys)
    requires Inv(s) && t.tables == s.tables && Extends(s.log, t.log) && UniqueIds(t.log)
    requires t.queue == s.queue && t.timers == s.timers && t.dead == s.dead && t.lost == s.lost && t.marking <= s.marking
    requires forall i :: 0 <= i < |t.log| && t.log[i].published ==> i < |s.log| && s.log[i].published
    requires forall i :: 0 <= i < |t.log| && t.log[i].row.sent ==> t.log[i].published
    ensures Inv(t)
  {
    LogStepKeepsInv(s, t);
  }

  /** The producers' side: commits, relays and the requeueing broker. */
  lemma ProducerStepKeepsInv(s: Sys, a: Action)
    requires Inv(s) && Step(s, a) != s
    requires a.Commit? || a.PublishDirectly? || a.RelayPublish? || a.RelayMark? || a.RelayAbort? || a.Requeue?
    ensures Inv(Step(s, a))
  {
    var t := Step(s, a);
    match a
    case Commit(_, _, _) => FlagKeepsInv(s, t);
    case PublishDirectly(_, _, atMs) => PublishKeepsInv(s, t.log, Copy(|s.log|, atMs, 0), s.marking);
    case RelayPublish(i, atMs) => PublishKeepsInv(s, t.log, Copy(i, atMs, 0), t.marking);
    case RelayMark(_) => FlagKeepsInv(s, t);
    case RelayAbort(_) => FlagKeepsInv(s, t);
    case Requeue(i, atMs, attempts) => PublishKeepsInv(s, s.log, Copy(i, atMs, attempts), s.marking);
  }

  lemma ConsumerStepKeepsInv(s: Sys, a: Action)
    requires Inv(s) && (a.Deliver? || a.DeliverAndDie? || a.TimerFires? || a.ConsumerCrash?)
    ensures Inv(Step(s, a))
  {
    match a
    case Deliver(k, commits) =>
      if k < |s.queue| {
        DeliverKeepsInv(s, k, commits);
      }
    case DeliverAndDie(k, commits) =>
      if k < |s.queue| {
        ProcessProgresses(s, s.queue[k], commits);
        DieKeepsInv(s, k, Process(s, s.queue[k], commits));
      }
    case TimerFires(k) =>
      if k < |s.timers| {
        TimerKeepsInv(s, k);
      }
    case ConsumerCrash => CrashKeepsInv(s, Step(s, a));
  }

  lemma StepKeepsInv(s: Sys, a: Action)
    requires Inv(s)
    ensures Inv(Step(s, a))
  {
    if a.Deliver? || a.DeliverAndDie? || a.TimerFires? || a.ConsumerCrash? {
      ConsumerStepKeepsInv(s, a);
    } else if Step(s, a) != s {
      ProducerStepKeepsInv(s, a);
    }
  }

  lemma {:induction false} RunKeepsInv(actions: seq<Action>)
    ensures Inv(Run(Init, actions))
  {
    if actions != [] {
      RunKeepsInv(actions[..|actions| - 1]);
      StepKeepsInv(Run(Init, actions[..|actions| - 1]), actions[|actions| - 1]);
    }
  }

  // ------------------------------------------------------------- exactly-once totals

  /** An event's worth to a figure, if the figure's projection has processed it. */
  function Credit(processed: set<(string, Projection)>, m: Measure): LogEntry -> int {
    (e: LogEntry) => if (e.row.id, ProjectionOf(m)) in processed then Worth(e.event, m) else 0
  }

  /** An event's worth to a figure, processed or not. */
  function Due(m: Measure): LogEntry -> int {
    (e: LogEntry) => Worth(e.event, m)
  }

  ghost predicate TotalsMatch(s: Sys, m: Measure) {
    Total(s.tables, m) == Sum(s.log, Credit(s.tables.processed, m))
  }

  lemma HandleKeepsTotals(s: Sys, tables: Tables, i: nat, atMs: int, commits: nat, m: Measure)
    requires WellFormed(s) && TotalsMatch(s, m) && i < |s.log|
    requires tables == Handle(s.tables, s.log[i].row.id, s.log[i].event, Day(atMs), commits)
    ensures Total(tables, m) == Sum(s.log, Credit(tables.processed, m))
  {
    var e := s.log[i];
    HandleAddsOnce(s.tables, e.row.id, e.event, Day(atMs), commits, m);
    var f, g := Credit(s.tables.processed, m), Credit(tables.processed, m);
    forall j | 0 <= j < |s.log| && j != i
      ensures f(s.log[j]) == g(s.log[j])
    {
      assert s.log[j].row.id != e.row.id;
    }
    SumDiffersAt(s.log, i, f, g);
  }

  lemma UnprocessedIsUncredited(s: Sys, e: LogEntry, m: Measure)
    requires ProcessedWerePublished(s) && !KnownId(s.log, e.row.id)
    ensures Credit(s.tables.processed, m)(e) == 0
  {
  }

  lemma NewEntryKeepsTotals(s: Sys, t: Sys, e: LogEntry, m: Measure)
    requires ProcessedWerePublished(s) && TotalsMatch(s, m) && !KnownId(s.log, e.row.id)
    requires t.log == s.log + [e] && t.tables == s.tables
    ensures TotalsMatch(t, m)
  {
    UnprocessedIsUncredited(s, e, m);
    SumSnoc(s.log, e, Credit(s.tables.processed, m));
  }

  /** Entry i is published or marked. */
  lemma FlagKeepsTotals(s: Sys, t: Sys, i: nat, m: Measure)
    requires TotalsMatch(s, m) && i < |s.log| == |t.log| && t.log == s.log[i := t.log[i]] && t.tables == s.tables
    requires t.log[i].row.id == s.log[i].row.id && t.log[i].event == s.log[i].event
    ensures TotalsMatch(t, m)
  {
    SumUpdate(s.log, i, t.log[i], Credit(s.tables.processed, m));
  }

  lemma LogStepKeepsTotals(s: Sys, a: Action, m: Measure)
    requires Inv(s) && TotalsMatch(s, m) && Step(s, a) != s
    requires a.Commit? || a.PublishDirectly? || a.RelayPublish? || a.RelayMark?
    ensures TotalsMatch(Step(s, a), m)
  {
    var t := Step(s, a);
    match a
    case Commit(_, _, _) => NewEntryKeepsTotals(s, t, t.log[|s.log|], m);
    case PublishDirectly(_, _, _) => NewEntryKeepsTotals(s, t, t.log[|s.log|], m);
    case RelayPublish(i, _) => FlagKeepsTotals(s, t, i, m);
    case RelayMark(i) => FlagKeepsTotals(s, t, i, m);
  }

  lemma StepKeepsTotals(s: Sys, a: Action, m: Measure)
    requires Inv(s) && TotalsMatch(s, m)
    ensures TotalsMatch(Step(s, a), m)
  {
    var t := Step(s, a);
    if a.Commit? || a.PublishDirectly? || a.RelayPublish? || a.RelayMark? {
      if t != s {
        LogStepKeepsTotals(s, a, m);
      }
    } else if (a.Deliver? || a.DeliverAndDie?) && a.copy < |s.queue| {
      HandleKeepsTotals(s, t.tables, s.queue[a.copy].entry, s.queue[a.copy].atMs, a.commits, m);
    }
  }

  /** In every run each figure is the sum over the distinct events its projection has processed. */
  lemma {:induction false} TotalsAreExactlyOnce(actions: seq<Action>, m: Measure)
    ensures var s := Run(Init, actions); Total(s.tables, m) == Sum(s.log, Credit(s.tables.processed, m))
  {
    if actions != [] {
      var before := Run(Init, actions[..|actions| - 1]);
      TotalsAreExactlyOnce(actions[..|actions| - 1], m);
      RunKeepsInv(actions[..|actions| - 1]);
      StepKeepsTotals(before, actions[|actions| - 1], m);
    }
  }

  /** Everything processed was published, and every day's average fare is its revenue over its rides. */
  lemma {:induction false} ProcessedEventsAndAverages(actions: seq<Action>)
    ensures var s := Run(Init, actions);
      ProcessedWerePublished(s) && AveragesHold(s.tables.rides) && KeysUnique(s.tables.rides)
  {
    RunKeepsInv(actions);
  }

  /** Every row sent, nothing queued and no retry pending. */
  ghost predicate Drained(s: Sys) {
    (forall i :: 0 <= i < |s.log| ==> s.log[i].row.sent) && s.queue == [] && s.timers == []
  }

  lemma {:induction false} CreditIsDue(log: seq<LogEntry>, t: Tables, m: Measure)
    requires forall i :: 0 <= i < |log| ==> FullyProcessed(t, log[i])
    ensures Sum(log, Credit(t.processed, m)) == Sum(log, Due(m))
  {
    forall i | 0 <= i < |log|
      ensures Credit(t.processed, m)(log[i]) == Due(m)(log[i])
    {
      assert FullyProcessed(t, log[i]);
      UntargetedIsWorthless(log[i].event, m);
    }
    SumAgrees(log, Credit(t.processed, m), Due(m));
  }

  /** Once drained, with nothing dead-lettered and no retry lost, the totals are the committed totals. */
  lemma {:induction false} DrainedTotalsAreCommitted(actions: seq<Action>, m: Measure)
    requires var s := Run(Init, actions); Drained(s) && s.dead == [] && s.lost == []
    ensures var s := Run(Init, actions); Total(s.tables, m) == Sum(s.log, Due(m))
  {
    var s := Run(Init, actions);
    RunKeepsInv(actions);
    TotalsAreExactlyOnce(actions, m);
    CreditIsDue(s.log, s.tables, m);
  }

  /** Once drained, an event is missing from a projection only if a copy of it was dead-lettered or lost. */
  lemma {:induction false} OnlyDeadOrLostGoMissing(actions: seq<Action>, i: nat, p: Projection)
    requires var s := Run(Init, actions);
      Drained(s) && i < |s.log| && p in Targets(s.log[i].event) && (s.log[i].row.id, p) !in s.tables.processed
    ensures var s := Run(Init, actions); i in EntriesOf(s.dead) + EntriesOf(s.lost)
  {
    var s := Run(Init, actions);
    RunKeepsInv(actions);
    assert !FullyProcessed(s.tables, s.log[i]);
  }

  // ------------------------------------------------------- when an event is stranded

  /** A copy is queued or waits for its retry. */
  predicate InFlight(s: Sys, i: nat) {
    i in EntriesOf(s.queue) || i in EntriesOf(s.timers)
  }

  /** Published, not processed by all its projections, and nothing under way that still could be. */
  ghost predicate Stranded(s: Sys, i: nat) {
    i < |s.log| && s.log[i].published && !FullyProcessed(s.tables, s.log[i]) && !InFlight(s, i)
  }

  /**
   * A crash while no copy of the event is queued, or the third failing run of its only copy; in each
   * case one that leaves the event not fully processed.
   */
  ghost predicate Strands(s: Sys, a: Action, i: nat) {
    && i < |s.log| && s.log[i].published
    && match a
       case ConsumerCrash => InFlight(s, i) && i !in EntriesOf(s.queue) && !FullyProcessed(s.tables, s.log[i])
       case DeliverAndDie(k, commits) =>
         && k < |s.queue| && s.queue[k].entry < |s.log|
         && InFlight(s, i) && i !in EntriesOf(s.queue) && !FullyProcessed(Process(s, s.queue[k], commits), s.log[i])
       case Deliver(k, commits) =>
         && k < |s.queue| && s.queue[k].entry == i
         && commits < |Targets(s.log[i].event)| && s.queue[k].attempts + 1 >= EventBus.MAX_RETRIES
         && i !in EntriesOf(Remove(s.queue, k)) && i !in EntriesOf(s.timers)
         && !FullyProcessed(Process(s, s.queue[k], commits), s.log[i])
       case _ => false
  }

  lemma ProducersStrandNothing(s: Sys, a: Action, i: nat)
    requires Inv(s) && !Stranded(s, i)
    requires a.Commit? || a.PublishDirectly? || a.RelayPublish? || a.RelayMark? || a.RelayAbort? || a.Requeue?
    ensures !Stranded(Step(s, a), i)
  {
    var t := Step(s, a);
    if |t.queue| == |s.queue| + 1 {
      assert t.queue == s.queue + [t.queue[|s.queue|]];
      EntriesOfSnoc(s.queue, t.queue[|s.queue|]);
    }
  }

  lemma TimerStrandsNothing(s: Sys, k: nat, i: nat)
    requires Inv(s) && !Stranded(s, i)
    ensures !Stranded(Step(s, TimerFires(k)), i)
  {
    if k < |s.timers| {
      EntriesOfRemove(s.timers, k);
      EntriesOfSnoc(s.queue, s.timers[k]);
    }
  }

  lemma CrashStrandsUnqueued(s: Sys, i: nat)
    requires Inv(s) && !Stranded(s, i)
    ensures Stranded(Step(s, ConsumerCrash), i) <==> Strands(s, ConsumerCrash, i)
  {
    assert EntriesOf([]) == {};
  }

  lemma DyingStrandsUnqueued(s: Sys, k: nat, commits: nat, i: nat)
    requires Inv(s) && !Stranded(s, i)
    ensures Stranded(Step(s, DeliverAndDie(k, commits)), i) <==> Strands(s, DeliverAndDie(k, commits), i)
  {
    if k < |s.queue| && i < |s.log| {
      ProcessProgresses(s, s.queue[k], commits);
      AfterProgress(s, Process(s, s.queue[k], commits), s.queue[k].entry, i);
      assert EntriesOf([]) == {};
    }
  }

  /** What was fully processed stays so. */
  lemma AfterProgress(s: Sys, tables: Tables, k: nat, i: nat)
    requires k < |s.log| && Progress(s.tables, tables, s.log[k]) && i < |s.log|
    ensures FullyProcessed(s.tables, s.log[i]) ==> FullyProcessed(tables, s.log[i])
  {
  }

  lemma SettlingStrandsOnlyTheDead(s: Sys, k: nat, succeeds: bool, tables: Tables, i: nat)
    requires Inv(s) && !Stranded(s, i) && k < |s.queue| && i < |s.log|
    requires Progress(s.tables, tables, s.log[s.queue[k].entry])
    requires succeeds ==> FullyProcessed(tables, s.log[s.queue[k].entry])
    ensures Stranded(Settle(s, k, succeeds, tables), i) <==>
      && s.log[i].published && s.queue[k].entry == i && !succeeds && s.queue[k].attempts + 1 >= EventBus.MAX_RETRIES
      && i !in EntriesOf(Remove(s.queue, k)) && i !in EntriesOf(s.timers) && !FullyProcessed(tables, s.log[i])
  {
    EntriesOfRemove(s.queue, k);
    EntriesOfSnoc(s.timers, s.queue[k].(attempts := s.queue[k].attempts + 1));
    AfterProgress(s, tables, s.queue[k].entry, i);
  }

  lemma DeliveryStrandsOnlyTheDead(s: Sys, k: nat, commits: nat, i: nat)
    requires Inv(s) && !Stranded(s, i)
    ensures Stranded(Step(s, Deliver(k, commits)), i) <==> Strands(s, Deliver(k, commits), i)
  {
    if k < |s.queue| && i < |s.log| {
      var e := s.log[s.queue[k].entry];
      ProcessProgresses(s, s.queue[k], commits);
      SettlingStrandsOnlyTheDead(s, k, commits >= |Targets(e.event)|, Process(s, s.queue[k], commits), i);
    }
  }

  /** Exactly these steps strand an event that was not stranded. */
  lemma StepStrandsExactly(s: Sys, a: Action, i: nat)
    requires Inv(s) && !Stranded(s, i)
    ensures Stranded(Step(s, a), i) <==> Strands(s, a, i)
  {
    match a
    case Deliver(k, commits) => DeliveryStrandsOnlyTheDead(s, k, commits, i);
    case DeliverAndDie(k, commits) => DyingStrandsUnqueued(s, k, commits, i);
    case TimerFires(k) => TimerStrandsNothing(s, k, i);
    case ConsumerCrash => CrashStrandsUnqueued(s, i);
    case Commit(_, _, _) => ProducersStrandNothing(s, a, i);
    case PublishDirectly(_, _, _) => ProducersStrandNothing(s, a, i);
    case RelayPublish(_, _) => ProducersStrandNothing(s, a, i);
    case RelayMark(_) => ProducersStrandNothing(s, a, i);
    case RelayAbort(_) => ProducersStrandNothing(s, a, i);
    case Requeue(_, _, _) => ProducersStrandNothing(s, a, i);
  }

  /** Not stranded now nor after any earlier step. */
  ghost predicate NeverStranded(actions: seq<Action>, i: nat) {
    !Stranded(Run(Init, actions), i) && (actions == [] || NeverStranded(actions[..|actions| - 1], i))
  }

  ghost predicate NothingStrands(actions: seq<Action>, i: nat) {
    actions == [] ||
    var init := actions[..|actions| - 1];
    NothingStrands(init, i) && !Strands(Run(Init, init), actions[|actions| - 1], i)
  }

  /** In every run an event is delivered or still under way at all times iff no such crash or third failure occurs. */
  lemma {:induction false} StrandedExactlyBySuchSteps(actions: seq<Action>, i: nat)
    ensures NeverStranded(actions, i) <==> NothingStrands(actions, i)
  {
    if actions != [] {
      var init, a := actions[..|actions| - 1], actions[|actions| - 1];
      StrandedExactlyBySuchSteps(init, i);
      if !Stranded(Run(Init, init), i) {
        RunKeepsInv(init);
        StepStrandsExactly(Run(Init, init), a, i);
      }
    }
  }

  lemma FailingDeliveryWaits(s: Sys, k: nat)
    requires k < |s.queue| && s.queue[k].entry < |s.log| && s.queue[k].attempts == 0
    requires Targets(s.log[s.queue[k].entry].event) != []
    ensures Step(s, Deliver(k, 0)) == s.(queue := Remove(s.queue, k), timers := s.timers + [s.queue[k].(attempts := 1)])
  {
    assert Process(s, s.queue[k], 0) == s.tables;
  }

  const CASH_PAYMENT := PaymentCompleted("cash", 500)

  /** One payment, committed, published and marked sent, and still to be handled. */
  function PaymentSent(): seq<Action> {
    [] + [Commit("a", CASH_PAYMENT, 0)] + [RelayPublish(0, 1)] + [RelayMark(0)]
  }

  function PaymentEntry(sent: bool, published: bool): LogEntry {
    LogEntry(OutboxRow("a", 0, sent), CASH_PAYMENT, published)
  }

  lemma PaymentSteps()
    ensures Step(Init, Commit("a", CASH_PAYMENT, 0)) == Init.(log := [PaymentEntry(false, false)])
    ensures Step(Init.(log := [PaymentEntry(false, false)]), RelayPublish(0, 1))
         == Init.(log := [PaymentEntry(false, true)], marking := {0}, queue := [Copy(0, 1, 0)])
    ensures Step(Init.(log := [PaymentEntry(false, true)], marking := {0}, queue := [Copy(0, 1, 0)]), RelayMark(0))
         == Init.(log := [PaymentEntry(true, true)], queue := [Copy(0, 1, 0)])
  {
    assert {0} - {0} == {};
  }

  lemma PaymentIsQueued()
    ensures Run(Init, PaymentSent()) == Init.(log := [PaymentEntry(true, true)], queue := [Copy(0, 1, 0)])
  {
    var a1, a2, a3 := Commit("a", CASH_PAYMENT, 0), RelayPublish(0, 1), RelayMark(0);
    RunSnoc(Init, [], a1);
    RunSnoc(Init, [] + [a1], a2);
    RunSnoc(Init, [] + [a1] + [a2], a3);
    PaymentSteps();
  }

  /** The handler fails, and the process dies while its retry waits. */
  lemma FailThenCrash(s: Sys)
    requires s == Init.(log := [PaymentEntry(true, true)], queue := [Copy(0, 1, 0)])
    ensures Step(Step(s, Deliver(0, 0)), ConsumerCrash) == Init.(log := [PaymentEntry(true, true)], lost := [Copy(0, 1, 1)])
  {
    FailingDeliveryWaits(s, 0);
    assert Remove(s.queue, 0) == [];
  }

  lemma PaymentIsDue()
    ensures Sum([PaymentEntry(true, true)], Due(Payments("cash"))) == 1
  {
    SumSnoc([], PaymentEntry(true, true), Due(Payments("cash")));
    assert [] + [PaymentEntry(true, true)] == [PaymentEntry(true, true)];
  }

  /** The exception is real: a crash during the retry delay drops an acked message for good. */
  lemma CrashDuringRetryDelayLosesEvent()
    ensures var s := Run(Init, PaymentSent() + [Deliver(0, 0)] + [ConsumerCrash]);
      Drained(s) && s.dead == [] && Total(s.tables, Payments("cash")) == 0 && Sum(s.log, Due(Payments("cash"))) == 1
  {
    PaymentIsQueued();
    RunSnoc(Init, PaymentSent(), Deliver(0, 0));
    RunSnoc(Init, PaymentSent() + [Deliver(0, 0)], ConsumerCrash);
    FailThenCrash(Run(Init, PaymentSent()));
    PaymentIsDue();
  }

  // ---------------------------------------------------------- a relay tick is such a run

  function RowsOf(log: seq<LogEntry>): (rows: seq<OutboxRow>)
    ensures |rows| == |log|
  {
    seq(|log|, i requires 0 <= i < |log| => log[i].row)
  }

  /** Publish then mark, row by row, each at its own time. */
  function RelayActions(batch: seq<nat>, times: seq<int>): seq<Action>
    requires |times| == |batch|
  {
    if batch == [] then []
    else
      var n := |batch| - 1;
      RelayActions(batch[..n], times[..n]) + [RelayPublish(batch[n], times[n])] + [RelayMark(batch[n])]
  }

  /** A tick as it ends: the rows it marks, and the row it published when saving the mark failed. */
  function TickActions(batch: seq<nat>, times: seq<int>, outcome: Outcome): seq<Action>
    requires |times| == |batch|
  {
    var m := Marked(batch, outcome);
    RelayActions(batch[..m], times[..m]) +
    if PublishedCount(batch, outcome) == m then [] else [RelayPublish(batch[m], times[m])] + [RelayAbort(batch[m])]
  }

  /** The messages a relay queues for a batch. */
  function Envelopes(batch: seq<nat>, times: seq<int>): seq<Copy>
    requires |times| == |batch|
  {
    seq(|batch|, k requires 0 <= k < |batch| => Copy(batch[k], times[k], 0))
  }

  lemma RunSnoc(s: Sys, actions: seq<Action>, a: Action)
    ensures Run(s, actions + [a]) == Step(Run(s, actions), a)
  {
    assert (actions + [a])[..|actions|] == actions;
  }

  /** A batch of rows of the log, each unsent, unmarked and listed once. */
  ghost predicate Fresh(s: Sys, batch: seq<nat>) {
    && (forall k :: 0 <= k < |batch| ==> batch[k] < |s.log| && !s.log[batch[k]].row.sent && batch[k] !in s.marking)
    && forall j, k :: 0 <= j < k < |batch| ==> batch[j] != batch[k]
  }

  /** What relaying a batch makes of the system: rows marked, messages queued, and nothing else. */
  ghost predicate Relayed(s: Sys, t: Sys, batch: seq<nat>, times: seq<int>)
    requires |times| == |batch|
  {
    && RowsOf(t.log) == MarkSent(RowsOf(s.log), batch)
    && t == s.(log := t.log, queue := s.queue + Envelopes(batch, times))
    && Extends(s.log, t.log)
  }

  lemma PublishThenMark(s: Sys, i: nat, atMs: int)
    requires i < |s.log| && !s.log[i].row.sent && i !in s.marking
    ensures var t := Step(Step(s, RelayPublish(i, atMs)), RelayMark(i));
      && RowsOf(t.log) == RowsOf(s.log)[i := s.log[i].row.(sent := true)]
      && t == s.(log := t.log, queue := s.queue + [Copy(i, atMs, 0)])
      && Extends(s.log, t.log)
  {
    var t := Step(Step(s, RelayPublish(i, atMs)), RelayMark(i));
    assert |t.log| == |s.log| && t.log[i].row == s.log[i].row.(sent := true);
    assert forall j :: 0 <= j < |s.log| && j != i ==> t.log[j] == s.log[j];
    assert s.marking + {i} - {i} == s.marking;
  }

  lemma MarkSentSnoc(rows: seq<OutboxRow>, batch: seq<nat>, i: nat)
    requires (forall k :: 0 <= k < |batch| ==> batch[k] < |rows|) && i < |rows|
    ensures MarkSent(rows, batch + [i]) == MarkSent(rows, batch)[i := MarkSent(rows, batch)[i].(sent := true)]
  {
    assert forall j :: 0 <= j < |rows| ==> (j in batch + [i] <==> j in batch || j == i);
  }

  lemma EnvelopesSnoc(batch: seq<nat>, times: seq<int>, m: nat)
    requires |times| == |batch| && m < |batch|
    ensures Envelopes(batch[..m + 1], times[..m + 1]) == Envelopes(batch[..m], times[..m]) + [Copy(batch[m], times[m], 0)]
  {
  }

  /** After part of a fresh batch the next row of it is still unsent and unmarked. */
  lemma NextIsFresh(s: Sys, u: Sys, batch: seq<nat>, times: seq<int>, m: nat)
    requires |times| == |batch| && m < |batch| && Fresh(s, batch) && Relayed(s, u, batch[..m], times[..m])
    ensures batch[m] < |u.log| && !u.log[batch[m]].row.sent && batch[m] !in u.marking
  {
    assert |RowsOf(u.log)| == |s.log|;
    assert batch[m] !in batch[..m];
    assert RowsOf(u.log)[batch[m]] == s.log[batch[m]].row;
  }

  lemma RelayedSnoc(s: Sys, u: Sys, batch: seq<nat>, times: seq<int>, m: nat)
    requires |times| == |batch| && m < |batch| && Fresh(s, batch) && Relayed(s, u, batch[..m], times[..m])
    ensures Relayed(s, Step(Step(u, RelayPublish(batch[m], times[m])), RelayMark(batch[m])), batch[..m + 1], times[..m + 1])
  {
    NextIsFresh(s, u, batch, times, m);
    PublishThenMark(u, batch[m], times[m]);
    assert batch[..m + 1] == batch[..m] + [batch[m]];
    MarkSentSnoc(RowsOf(s.log), batch[..m], batch[m]);
    EnvelopesSnoc(batch, times, m);
    assert s.queue + Envelopes(batch[..m], times[..m]) + [Copy(batch[m], times[m], 0)]
        == s.queue + (Envelopes(batch[..m], times[..m]) + [Copy(batch[m], times[m], 0)]);
  }

  lemma FreshPrefix(s: Sys, batch: seq<nat>, m: nat)
    requires Fresh(s, batch) && m <= |batch|
    ensures Fresh(s, batch[..m])
  {
  }

  lemma {:induction false} RelayIsARun(s: Sys, batch: seq<nat>, times: seq<int>)
    requires |times| == |batch| && Fresh(s, batch)
    ensures Relayed(s, Run(s, RelayActions(batch, times)), batch, times)
  {
    if batch == [] {
      assert MarkSent(RowsOf(s.log), batch) == RowsOf(s.log);
      assert s.queue + Envelopes(batch, times) == s.queue;
    } else {
      var n := |batch| - 1;
      var actions := RelayActions(batch[..n], times[..n]);
      FreshPrefix(s, batch, n);
      RelayIsARun(s, batch[..n], times[..n]);
      RelayedSnoc(s, Run(s, actions), batch, times, n);
      RunSnoc(s, actions, RelayPublish(batch[n], times[n]));
      RunSnoc(s, actions + [RelayPublish(batch[n], times[n])], RelayMark(batch[n]));
      assert batch[..n + 1] == batch && times[..n + 1] == times;
    }
  }

  /** What a tick, however it ends, makes of the system. */
  ghost predicate Ticked(s: Sys, t: Sys, batch: seq<nat>, times: seq<int>, outcome: Outcome)
    requires |times| == |batch|
  {
    var m, p := Marked(batch, outcome), PublishedCount(batch, outcome);
    && RowsOf(t.log) == MarkSent(RowsOf(s.log), batch[..m])
    && t == s.(log := t.log, queue := s.queue + Envelopes(batch[..p], times[..p]))
  }

  lemma AbortedTick(s: Sys, u: Sys, batch: seq<nat>, times: seq<int>, m: nat)
    requires |times| == |batch| && m < |batch| && Fresh(s, batch) && Relayed(s, u, batch[..m], times[..m])
    ensures var t := Step(Step(u, RelayPublish(batch[m], times[m])), RelayAbort(batch[m]));
      && RowsOf(t.log) == MarkSent(RowsOf(s.log), batch[..m])
      && t == s.(log := t.log, queue := s.queue + Envelopes(batch[..m + 1], times[..m + 1]))
  {
    NextIsFresh(s, u, batch, times, m);
    PublishThenAbort(u, batch[m], times[m]);
    EnvelopesSnoc(batch, times, m);
    assert s.queue + Envelopes(batch[..m], times[..m]) + [Copy(batch[m], times[m], 0)]
        == s.queue + (Envelopes(batch[..m], times[..m]) + [Copy(batch[m], times[m], 0)]);
  }

  /**
   * A relay tick, however it ends, is such a run: it marks exactly the rows and queues exactly the
   * messages that the relay's Tick does, and touches nothing else.
   */
  lemma {:induction false} TickIsARun(s: Sys, batch: seq<nat>, times: seq<int>, outcome: Outcome)
    requires |times| == |batch| && Fresh(s, batch)
    ensures Ticked(s, Run(s, TickActions(batch, times, outcome)), batch, times, outcome)
  {
    var m, p := Marked(batch, outcome), PublishedCount(batch, outcome);
    var actions := RelayActions(batch[..m], times[..m]);
    FreshPrefix(s, batch, m);
    RelayIsARun(s, batch[..m], times[..m]);
    if p == m {
      assert actions + [] == actions;
    } else {
      var a, b := RelayPublish(batch[m], times[m]), RelayAbort(batch[m]);
      AbortedTick(s, Run(s, actions), batch, times, m);
      RunSnoc(s, actions, a);
      RunSnoc(s, actions + [a], b);
      assert actions + ([a] + [b]) == actions + [a] + [b];
    }
  }

  lemma PublishThenAbort(s: Sys, i: nat, atMs: int)
    requires i < |s.log| && !s.log[i].row.sent && i !in s.marking
    ensures var t := Step(Step(s, RelayPublish(i, atMs)), RelayAbort(i));
      RowsOf(t.log) == RowsOf(s.log) && t == s.(log := t.log, queue := s.queue + [Copy(i, atMs, 0)])
  {
    var t := Step(Step(s, RelayPublish(i, atMs)), RelayAbort(i));
    assert forall j :: 0 <= j < |s.log| ==> t.log[j].row == s.log[j].row;
    assert s.marking + {i} - {i} == s.marking;
  }

  /** The batch a tick reads is fresh when no other relay is between publish and mark. */
  lemma BatchIsFresh(s: Sys)
    requires s.marking == {}
    ensures Fresh(s, Batch(RowsOf(s.log)))
  {
    PendingIsUnsent(RowsOf(s.log));
    PendingListsOnce(RowsOf(s.log));
  }
}
