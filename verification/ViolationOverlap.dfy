/**
 * The violation detector taken apart at its awaits: the bus hands it up to `prefetch` messages at a
 * time, each ping is a process, and one step of it is one stretch of code or one query. Between a ping's
 * decision and its state.set anything may happen, other pings of the vehicle and admins' saves included.
 */
module ViolationOverlap {
  import opened Wrappers
  import opened Sums
  import opened ViolationDetector

  /** Where one call of onLocation stands, with what it holds on to. */
  datatype Proc =
    | Authorizing(vehicleId: string, zoneId: string, ping: D.Ping)
    | Opening(vehicleId: string, zoneId: string, now: int, maxDistanceM: real, next: D.GeoState)
    | Reading(vehicleId: string, rowId: nat, now: int, next: D.GeoState)
    | Closing(vehicleId: string, rowId: nat, row: Violation, now: int, next: D.GeoState)
    | Storing(vehicleId: string, next: D.GeoState)
    | Finished

  datatype System = System(auth: Auth, geo: map<string, D.GeoState>, table: Table, procs: seq<Proc>)

  datatype Action =
    | Arrives(vehicleId: string, zoneId: string, distanceM: real, now: int, hasPass: bool)
    | Advances(proc: nat)
    /** Its query or transaction throws: nothing is written and the state is not set. */
    | Fails(proc: nat)
    | RideStarts(vehicleId: string)
    | RideEnds(vehicleId: string, at: int)
    /** An admin's request writes back the copy of a row it had read, whenever that was. */
    | AdminSaves(rowId: nat, copy: Violation, escalates: bool)

  function IsUnfinished(): Proc -> int {
    (p: Proc) => if p.Finished? then 0 else 1
  }

  function Decided(cfg: Config, s: System, v: string, ping: D.Ping): (D.Action, D.GeoState) {
    D.Decide(cfg.hysteresis, GeoOf(s.geo, v), ping)
  }

  /** onLocation after its authorization: decide, and go on without an await only if there is nothing to write. */
  function DecideStep(cfg: Config, s: System, k: nat, v: string, zoneId: string, ping: D.Ping): System
    requires k < |s.procs|
  {
    var prev := GeoOf(s.geo, v);
    var (action, next) := Decided(cfg, s, v, ping);
    match action
    case Nothing => s.(geo := s.geo[v := next], procs := s.procs[k := Finished])
    case Open(maxDistanceM) => s.(procs := s.procs[k := Opening(v, zoneId, ping.now, maxDistanceM, next)])
    case Close =>
      if prev.openViolationId.Some? && prev.openViolationId.value.Row?
      then s.(procs := s.procs[k := Reading(v, prev.openViolationId.value.id, ping.now, next)])
      else s.(procs := s.procs[k := Storing(v, next)])
  }

  /** The close's transaction saves the copy it read. */
  function CloseWith(t: Table, id: nat, row: Violation, closedAt: int): Table {
    if id >= |t.rows| then t
    else Table(t.rows[id := row.(status := AutoClosed, closedAt := Some(closedAt))], t.outbox + [ViolationClosed(id, row.vehicleId, row.zoneId)])
  }

  function AdvanceStep(cfg: Config, s: System, k: nat): System
    requires k < |s.procs|
  {
    match s.procs[k]
    case Authorizing(v, zoneId, ping) => DecideStep(cfg, s, k, v, zoneId, ping)
    case Opening(v, zoneId, now, maxDistanceM, next) =>
      s.(table := OpenRow(s.table, v, zoneId, now, maxDistanceM),
         procs := s.procs[k := Storing(v, next.(openViolationId := Some(D.Row(|s.table.rows|))))])
    case Reading(v, id, now, next) =>
      if id < |s.table.rows| && s.table.rows[id].status == Open
      then s.(procs := s.procs[k := Closing(v, id, s.table.rows[id], now, next)])
      else s.(procs := s.procs[k := Storing(v, next)])
    case Closing(v, id, row, now, next) =>
      s.(table := CloseWith(s.table, id, row, now), procs := s.procs[k := Storing(v, next)])
    case Storing(v, next) => s.(geo := s.geo[v := next], procs := s.procs[k := Finished])
    case Finished => s
  }

  function AdminSave(t: Table, id: nat, copy: Violation, escalates: bool): Table {
    if id >= |t.rows| || copy.status == Open || copy.vehicleId != t.rows[id].vehicleId then t
    else Table(t.rows[id := copy], t.outbox + if escalates then [ViolationEscalated(id, copy.vehicleId, copy.zoneId)] else [])
  }

  function Step(cfg: Config, prefetch: nat, s: System, a: Action): System {
    match a
    case Arrives(v, zoneId, distanceM, now, hasPass) =>
      if Sum(s.procs, IsUnfinished()) >= prefetch then s
      else s.(procs := s.procs + [Authorizing(v, zoneId, D.Ping(distanceM, now, IsAuthorized(cfg, s.auth, v, now, hasPass)))])
    case Advances(k) => if k < |s.procs| then AdvanceStep(cfg, s, k) else s
    case Fails(k) => if k < |s.procs| && !s.procs[k].Storing? then s.(procs := s.procs[k := Finished]) else s
    case RideStarts(v) => s.(auth := MarkRideActive(s.auth, v))
    case RideEnds(v, at) => s.(auth := MarkRideEnded(s.auth, v, at))
    case AdminSaves(id, copy, escalates) => s.(table := AdminSave(s.table, id, copy, escalates))
  }

  const Init := System(Auth({}, map[]), map[], Table([], []), [])

  function RunFrom(cfg: Config, prefetch: nat, s: System, actions: seq<Action>): System {
    if actions == [] then s
    else Step(cfg, prefetch, RunFrom(cfg, prefetch, s, actions[..|actions| - 1]), actions[|actions| - 1])
  }

  function Run(cfg: Config, prefetch: nat, actions: seq<Action>): System {
    RunFrom(cfg, prefetch, Init, actions)
  }

  // --------------------------------------------------------------------------- counting

  function OpenOf(v: string): Violation -> int {
    (r: Violation) => if r.vehicleId == v && r.status == Open then 1 else 0
  }

  function OpeningOf(v: string): Proc -> int {
    (p: Proc) => if p.Opening? && p.vehicleId == v then 1 else 0
  }

  function ClosingOf(id: nat): Proc -> int {
    (p: Proc) => if p.Closing? && p.rowId == id then 1 else 0
  }

  /** How many violations of a vehicle are open. */
  function OpenRows(s: System, v: string): int {
    Sum(s.table.rows, OpenOf(v))
  }

  /** How many are open or being opened. */
  function OpenOrOpening(s: System, v: string): int {
    OpenRows(s, v) + Sum(s.procs, OpeningOf(v))
  }

  /** How often a violation has been closed. */
  function Closes(s: System, id: nat): int {
    Sum(s.table.outbox, ClosedFor(id))
  }

  /** How often it has been or is being closed. */
  function ClosedOrClosing(s: System, id: nat): int {
    Closes(s, id) + Sum(s.procs, ClosingOf(id))
  }

  // ------------------------------------------------ two openings: the exact condition

  /** A ping of the vehicle decides to open while a violation of it is open or being opened. */
  predicate OpensBlindly(cfg: Config, s: System, a: Action, v: string) {
    && a.Advances? && a.proc < |s.procs| && s.procs[a.proc].Authorizing? && s.procs[a.proc].vehicleId == v
    && Decided(cfg, s, v, s.procs[a.proc].ping).0.Open?
    && OpenOrOpening(s, v) >= 1
  }

  lemma DecisionCountsOpenings(cfg: Config, s: System, k: nat, v: string)
    requires k < |s.procs| && s.procs[k].Authorizing?
    ensures var t, p := AdvanceStep(cfg, s, k), s.procs[k];
      OpenOrOpening(t, v) == OpenOrOpening(s, v) + if p.vehicleId == v && Decided(cfg, s, v, p.ping).0.Open? then 1 else 0
  {
    SumUpdate(s.procs, k, AdvanceStep(cfg, s, k).procs[k], OpeningOf(v));
  }

  /** Carrying an opening out moves it from the processes to the rows. */
  lemma OpeningCounts(cfg: Config, s: System, k: nat, v: string)
    requires k < |s.procs| && s.procs[k].Opening?
    ensures var t := AdvanceStep(cfg, s, k);
      && OpenOrOpening(t, v) == OpenOrOpening(s, v) && |t.procs| == |s.procs| && t.procs == s.procs[k := t.procs[k]]
      && t.procs[k].Storing?
  {
    var t := AdvanceStep(cfg, s, k);
    SumUpdate(s.procs, k, t.procs[k], OpeningOf(v));
    SumSnoc(s.table.rows, t.table.rows[|s.table.rows|], OpenOf(v));
  }

  lemma ClosingCountsOpenings(cfg: Config, s: System, k: nat, v: string)
    requires k < |s.procs| && s.procs[k].Closing?
    ensures OpenOrOpening(AdvanceStep(cfg, s, k), v) <= OpenOrOpening(s, v)
  {
    var t, p := AdvanceStep(cfg, s, k), s.procs[k];
    SumUpdate(s.procs, k, t.procs[k], OpeningOf(v));
    if p.rowId < |s.table.rows| {
      SumUpdate(s.table.rows, p.rowId, t.table.rows[p.rowId], OpenOf(v));
    }
  }

  lemma AdvanceCountsOpenings(cfg: Config, s: System, k: nat, v: string)
    requires k < |s.procs|
    ensures var t, p := AdvanceStep(cfg, s, k), s.procs[k];
      if p.Authorizing? && p.vehicleId == v && Decided(cfg, s, v, p.ping).0.Open? then OpenOrOpening(t, v) == OpenOrOpening(s, v) + 1
      else OpenOrOpening(t, v) <= OpenOrOpening(s, v)
  {
    var p := s.procs[k];
    if p.Authorizing? {
      DecisionCountsOpenings(cfg, s, k, v);
    } else if p.Opening? {
      OpeningCounts(cfg, s, k, v);
    } else if p.Closing? {
      ClosingCountsOpenings(cfg, s, k, v);
    } else {
      SumUpdate(s.procs, k, AdvanceStep(cfg, s, k).procs[k], OpeningOf(v));
    }
  }

  lemma StepOpensTwiceExactly(cfg: Config, prefetch: nat, s: System, a: Action, v: string)
    requires OpenOrOpening(s, v) <= 1
    ensures OpenOrOpening(Step(cfg, prefetch, s, a), v) <= 1 <==> !OpensBlindly(cfg, s, a, v)
  {
    var t := Step(cfg, prefetch, s, a);
    match a
    case Arrives(_, _, _, _, _) =>
      if t != s {
        SumSnoc(s.procs, t.procs[|s.procs|], OpeningOf(v));
      }
    case Advances(k) =>
      if k < |s.procs| {
        OpeningsAreNatural(s, v);
        AdvanceCountsOpenings(cfg, s, k, v);
      }
    case Fails(k) =>
      if k < |s.procs| {
        SumUpdate(s.procs, k, Finished, OpeningOf(v));
      }
    case RideStarts(_) =>
    case RideEnds(_, _) =>
    case AdminSaves(id, copy, _) =>
      if id < |s.table.rows| {
        SumUpdate(s.table.rows, id, copy, OpenOf(v));
      }
  }

  lemma OpeningsAreNatural(s: System, v: string)
    ensures OpenOrOpening(s, v) >= 0 && OpenRows(s, v) >= 0
  {
    SumIsNatural(s.table.rows, OpenOf(v));
    SumIsNatural(s.procs, OpeningOf(v));
  }

  /** At most one open or being opened, now and after every earlier step. */
  predicate SingleThroughout(cfg: Config, prefetch: nat, actions: seq<Action>, v: string) {
    && OpenOrOpening(Run(cfg, prefetch, actions), v) <= 1
    && (actions == [] || SingleThroughout(cfg, prefetch, actions[..|actions| - 1], v))
  }

  predicate NeverOpensBlindly(cfg: Config, prefetch: nat, actions: seq<Action>, v: string) {
    actions == [] ||
    var init := actions[..|actions| - 1];
    NeverOpensBlindly(cfg, prefetch, init, v) && !OpensBlindly(cfg, Run(cfg, prefetch, init), actions[|actions| - 1], v)
  }

  /** In every run a vehicle has at most one violation open or being opened at all times iff none of its pings opens blindly. */
  lemma {:induction false} SingleExactlyWithoutBlindOpens(cfg: Config, prefetch: nat, actions: seq<Action>, v: string)
    ensures SingleThroughout(cfg, prefetch, actions, v) <==> NeverOpensBlindly(cfg, prefetch, actions, v)
  {
    if actions != [] {
      var init := actions[..|actions| - 1];
      SingleExactlyWithoutBlindOpens(cfg, prefetch, init, v);
      if OpenOrOpening(Run(cfg, prefetch, init), v) <= 1 {
        StepOpensTwiceExactly(cfg, prefetch, Run(cfg, prefetch, init), actions[|actions| - 1], v);
      }
    }
  }

  lemma RunFromSnoc(cfg: Config, prefetch: nat, s: System, actions: seq<Action>, a: Action)
    ensures RunFrom(cfg, prefetch, s, actions + [a]) == Step(cfg, prefetch, RunFrom(cfg, prefetch, s, actions), a)
  {
    assert (actions + [a])[..|actions|] == actions;
  }

  lemma TakeNext(procs: seq<Proc>, n: nat, v: string)
    requires n < |procs|
    ensures Sum(procs[..n + 1], OpeningOf(v)) == Sum(procs[..n], OpeningOf(v)) + OpeningOf(v)(procs[n])
  {
    assert procs[..n + 1] == procs[..n] + [procs[n]];
    SumSnoc(procs[..n], procs[n], OpeningOf(v));
  }

  /** Carrying out the openings of a vehicle that are under way among the first n processes. */
  lemma {:induction false} OpeningsGoThroughUpTo(cfg: Config, prefetch: nat, s: System, v: string, n: nat) returns (more: seq<Action>)
    requires n <= |s.procs|
    ensures var t := RunFrom(cfg, prefetch, s, more);
      && |t.procs| == |s.procs| && OpenOrOpening(t, v) == OpenOrOpening(s, v) && Sum(t.procs[..n], OpeningOf(v)) == 0
  {
    if n == 0 {
      more := [];
    } else {
      var before := OpeningsGoThroughUpTo(cfg, prefetch, s, v, n - 1);
      var t := RunFrom(cfg, prefetch, s, before);
      TakeNext(t.procs, n - 1, v);
      if t.procs[n - 1].Opening? && t.procs[n - 1].vehicleId == v {
        var u := Step(cfg, prefetch, t, Advances(n - 1));
        RunFromSnoc(cfg, prefetch, s, before, Advances(n - 1));
        OpeningCounts(cfg, t, n - 1, v);
        assert u.procs[..n - 1] == t.procs[..n - 1];
        TakeNext(u.procs, n - 1, v);
        more := before + [Advances(n - 1)];
      } else {
        more := before;
      }
    }
  }

  /** What is open or being opened is what will be open if nothing else happens: two of them become two open violations. */
  lemma {:induction false} OpeningsGoThrough(cfg: Config, prefetch: nat, s: System, v: string) returns (more: seq<Action>)
    ensures OpenRows(RunFrom(cfg, prefetch, s, more), v) == OpenOrOpening(s, v)
  {
    more := OpeningsGoThroughUpTo(cfg, prefetch, s, v, |s.procs|);
    var t := RunFrom(cfg, prefetch, s, more);
    assert t.procs[..|s.procs|] == t.procs;
  }

  // -------------------------------------------------- two closes: the exact condition

  /** A row that is open has not been closed, and only existing rows are. */
  predicate CloseOk(s: System, id: nat) {
    && (id < |s.table.rows| && s.table.rows[id].status == Open ==> Closes(s, id) == 0)
    && (id >= |s.table.rows| ==> ClosedOrClosing(s, id) == 0)
  }

  /** A close reads its row open while another close of it is between its read and its write. */
  predicate ReadsTwice(s: System, a: Action, id: nat) {
    && a.Advances? && a.proc < |s.procs| && s.procs[a.proc].Reading? && s.procs[a.proc].rowId == id
    && id < |s.table.rows| && s.table.rows[id].status == Open
    && Sum(s.procs, ClosingOf(id)) >= 1
  }

  lemma ClosesAreNatural(s: System, id: nat)
    ensures Closes(s, id) >= 0 && Sum(s.procs, ClosingOf(id)) >= 0
  {
    SumIsNatural(s.table.outbox, ClosedFor(id));
    SumIsNatural(s.procs, ClosingOf(id));
  }

  lemma ClosingIsCounted(s: System, k: nat, id: nat)
    requires k < |s.procs| && s.procs[k].Closing? && s.procs[k].rowId == id && CloseOk(s, id)
    ensures id < |s.table.rows|
  {
    ClosesAreNatural(s, id);
    SumIsNatural(s.procs, ClosingOf(id));
    assert ClosingOf(id)(s.procs[k]) == 1;
  }

  lemma OpeningCountsNoClose(cfg: Config, s: System, k: nat, id: nat)
    requires k < |s.procs| && s.procs[k].Opening? && CloseOk(s, id)
    ensures var t := AdvanceStep(cfg, s, k); CloseOk(t, id) && ClosedOrClosing(t, id) == ClosedOrClosing(s, id)
  {
    var t := AdvanceStep(cfg, s, k);
    ClosesAreNatural(s, id);
    SumUpdate(s.procs, k, t.procs[k], ClosingOf(id));
    SumSnoc(s.table.outbox, t.table.outbox[|s.table.outbox|], ClosedFor(id));
  }

  /** Carrying a close out moves it from the processes to the events. */
  lemma ClosingCounts(cfg: Config, s: System, k: nat, id: nat)
    requires k < |s.procs| && s.procs[k].Closing? && CloseOk(s, id)
    ensures var t := AdvanceStep(cfg, s, k);
      CloseOk(t, id) && ClosedOrClosing(t, id) == ClosedOrClosing(s, id) && t.procs == s.procs[k := t.procs[k]]
  {
    var t, p := AdvanceStep(cfg, s, k), s.procs[k];
    SumUpdate(s.procs, k, t.procs[k], ClosingOf(id));
    if p.rowId == id {
      ClosingIsCounted(s, k, id);
    }
    if p.rowId < |s.table.rows| {
      SumSnoc(s.table.outbox, ViolationClosed(p.rowId, p.row.vehicleId, p.row.zoneId), ClosedFor(id));
    }
  }

  /** How a step of a process moves the count of closes. */
  lemma AdvanceCountsCloses(cfg: Config, s: System, k: nat, id: nat)
    requires k < |s.procs| && CloseOk(s, id)
    ensures var t, p := AdvanceStep(cfg, s, k), s.procs[k];
      && CloseOk(t, id)
      && ClosedOrClosing(t, id) == ClosedOrClosing(s, id)
           + if p.Reading? && p.rowId == id && id < |s.table.rows| && s.table.rows[id].status == Open then 1 else 0
  {
    var p := s.procs[k];
    if p.Opening? {
      OpeningCountsNoClose(cfg, s, k, id);
    } else if p.Closing? {
      ClosingCounts(cfg, s, k, id);
    } else {
      SumUpdate(s.procs, k, AdvanceStep(cfg, s, k).procs[k], ClosingOf(id));
    }
  }

  lemma AdminClosesNothing(s: System, i: nat, copy: Violation, escalates: bool, id: nat)
    requires CloseOk(s, id)
    ensures var t := s.(table := AdminSave(s.table, i, copy, escalates)); CloseOk(t, id) && ClosedOrClosing(t, id) == ClosedOrClosing(s, id)
  {
    var e := ViolationEscalated(i, copy.vehicleId, copy.zoneId);
    SumSnoc(s.table.outbox, e, ClosedFor(id));
    assert s.table.outbox + [] == s.table.outbox;
  }

  lemma FailingClosesNothing(s: System, k: nat, id: nat)
    requires CloseOk(s, id) && k < |s.procs|
    ensures var t := s.(procs := s.procs[k := Finished]); CloseOk(t, id) && ClosedOrClosing(t, id) <= ClosedOrClosing(s, id)
  {
    var t := s.(procs := s.procs[k := Finished]);
    SumUpdate(s.procs, k, Finished, ClosingOf(id));
    ClosesAreNatural(s, id);
    ClosesAreNatural(t, id);
  }

  lemma StepClosesTwiceExactly(cfg: Config, prefetch: nat, s: System, a: Action, id: nat)
    requires CloseOk(s, id)
    ensures var t := Step(cfg, prefetch, s, a);
      CloseOk(t, id) && (ClosedOrClosing(s, id) <= 1 ==> (ClosedOrClosing(t, id) <= 1 <==> !ReadsTwice(s, a, id)))
  {
    match a
    case Arrives(_, _, _, _, _) =>
      var t := Step(cfg, prefetch, s, a);
      if t != s {
        SumSnoc(s.procs, t.procs[|s.procs|], ClosingOf(id));
      }
    case Advances(k) =>
      if k < |s.procs| {
        ClosesAreNatural(s, id);
        AdvanceCountsCloses(cfg, s, k, id);
      }
    case Fails(k) =>
      if k < |s.procs| {
        FailingClosesNothing(s, k, id);
      }
    case RideStarts(_) =>
    case RideEnds(_, _) =>
    case AdminSaves(i, copy, escalates) => AdminClosesNothing(s, i, copy, escalates, id);
  }

  predicate ClosedOnceThroughout(cfg: Config, prefetch: nat, actions: seq<Action>, id: nat) {
    && ClosedOrClosing(Run(cfg, prefetch, actions), id) <= 1
    && (actions == [] || ClosedOnceThroughout(cfg, prefetch, actions[..|actions| - 1], id))
  }

  predicate NeverReadsTwice(cfg: Config, prefetch: nat, actions: seq<Action>, id: nat) {
    actions == [] ||
    var init := actions[..|actions| - 1];
    NeverReadsTwice(cfg, prefetch, init, id) && !ReadsTwice(Run(cfg, prefetch, init), actions[|actions| - 1], id)
  }

  lemma {:induction false} RunKeepsCloseOk(cfg: Config, prefetch: nat, actions: seq<Action>, id: nat)
    ensures CloseOk(Run(cfg, prefetch, actions), id)
  {
    if actions != [] {
      RunKeepsCloseOk(cfg, prefetch, actions[..|actions| - 1], id);
      StepClosesTwiceExactly(cfg, prefetch, Run(cfg, prefetch, actions[..|actions| - 1]), actions[|actions| - 1], id);
    }
  }

  /** In every run a violation has been or is being closed at most once at all times iff no close reads it while another is under way. */
  lemma {:induction false} ClosedOnceExactlyWithoutDoubleReads(cfg: Config, prefetch: nat, actions: seq<Action>, id: nat)
    ensures ClosedOnceThroughout(cfg, prefetch, actions, id) <==> NeverReadsTwice(cfg, prefetch, actions, id)
  {
    if actions != [] {
      var init := actions[..|actions| - 1];
      ClosedOnceExactlyWithoutDoubleReads(cfg, prefetch, init, id);
      RunKeepsCloseOk(cfg, prefetch, init, id);
      StepClosesTwiceExactly(cfg, prefetch, Run(cfg, prefetch, init), actions[|actions| - 1], id);
    }
  }
}
