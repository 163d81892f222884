/**
 * How far the bus may let pings overlap: the promises of the violation detector hold in every run if a
 * vehicle's pings are handled one at a time, and for the bus's prefetch limit exactly if it is one.
 */
module ViolationOneAtATime {
  import opened Wrappers
  import opened Sums
  import D = ViolationDecider
  import V = ViolationDetector
  import opened ViolationOverlap

  // -------------------------------------------------------------- one ping at a time

  /** A ping of the vehicle between its decision and its state.set. */
  predicate Busy(p: Proc, v: string) {
    (p.Opening? || p.Reading? || p.Closing? || p.Storing?) && p.vehicleId == v
  }

  predicate AnyBusy(s: System, v: string) {
    exists k :: 0 <= k < |s.procs| && Busy(s.procs[k], v)
  }

  predicate OpenRow(rows: seq<V.Violation>, id: nat, v: string) {
    id < |rows| && rows[id].vehicleId == v && rows[id].status == V.Open
  }

  /** Every open row of the vehicle is the one this state names. */
  ghost predicate Names(g: D.GeoState, rows: seq<V.Violation>, v: string) {
    forall id: nat :: OpenRow(rows, id, v) ==> g.openViolationId == Some(D.Row(id))
  }

  /** What holds while process p of the vehicle is busy. */
  ghost predicate BusyOk(s: System, p: Proc, v: string) {
    match p
    case Opening(_, _, _, _, _) => V.GeoOf(s.geo, v).openViolationId.None?
    case Reading(_, id, _, next) => V.GeoOf(s.geo, v).openViolationId == Some(D.Row(id)) && next.openViolationId.None?
    case Closing(_, id, _, _, next) => V.GeoOf(s.geo, v).openViolationId == Some(D.Row(id)) && next.openViolationId.None?
    case Storing(_, next) => Names(next, s.table.rows, v)
    case _ => true
  }

  /** At most one busy ping of the vehicle, and its open rows are named by the state, or by the one about to be stored. */
  ghost predicate Tracked(s: System, v: string) {
    && (forall j, k :: 0 <= j < k < |s.procs| ==> !(Busy(s.procs[j], v) && Busy(s.procs[k], v)))
    && (forall k :: 0 <= k < |s.procs| && Busy(s.procs[k], v) ==> BusyOk(s, s.procs[k], v))
    && ((forall k :: 0 <= k < |s.procs| && Busy(s.procs[k], v) ==> !s.procs[k].Storing?) ==> Names(V.GeoOf(s.geo, v), s.table.rows, v))
  }

  /** A ping of the vehicle decides while another of it is busy. */
  predicate Overlaps(s: System, a: Action, v: string) {
    && a.Advances? && a.proc < |s.procs| && s.procs[a.proc].Authorizing? && s.procs[a.proc].vehicleId == v
    && AnyBusy(s, v)
  }

  /** Rows that only stop being open, and processes of the vehicle that only finish. */
  lemma QuietStepKeepsTracked(s: System, t: System, v: string)
    requires Tracked(s, v) && V.GeoOf(t.geo, v) == V.GeoOf(s.geo, v)
    requires forall id: nat :: OpenRow(t.table.rows, id, v) ==> OpenRow(s.table.rows, id, v)
    requires forall k :: 0 <= k < |t.procs| && Busy(t.procs[k], v) ==> k < |s.procs| && t.procs[k] == s.procs[k]
    requires forall k :: 0 <= k < |s.procs| && Busy(s.procs[k], v) && s.procs[k].Storing? ==> k < |t.procs| && t.procs[k] == s.procs[k]
    ensures Tracked(t, v)
  {
  }

  lemma DecisionKeepsTracked(cfg: V.Config, s: System, k: nat, v: string)
    requires Tracked(s, v) && k < |s.procs| && s.procs[k].Authorizing? && s.procs[k].vehicleId == v && !AnyBusy(s, v)
    ensures Tracked(AdvanceStep(cfg, s, k), v)
  {
    var t, p := AdvanceStep(cfg, s, k), s.procs[k];
    assert forall j :: 0 <= j < |s.procs| ==> !Busy(s.procs[j], v);
    assert Names(V.GeoOf(s.geo, v), s.table.rows, v);
    assert forall j :: 0 <= j < |t.procs| && j != k ==> !Busy(t.procs[j], v);
  }

  lemma OthersAreNotBusy(s: System, v: string, j: nat, k: nat)
    requires Tracked(s, v) && j < |s.procs| && k < |s.procs| && j != k && Busy(s.procs[k], v)
    ensures !Busy(s.procs[j], v)
  {
  }

  /** The vehicle's one busy ping takes a step. */
  lemma BusyStepKeepsTracked(cfg: V.Config, s: System, k: nat, v: string)
    requires Tracked(s, v) && k < |s.procs| && Busy(s.procs[k], v)
    ensures Tracked(AdvanceStep(cfg, s, k), v)
  {
    var t, p := AdvanceStep(cfg, s, k), s.procs[k];
    assert BusyOk(s, p, v);
    forall j | 0 <= j < |t.procs| && j != k
      ensures !Busy(t.procs[j], v)
    {
      OthersAreNotBusy(s, v, j, k);
    }
    assert !p.Storing? ==> Busy(t.procs[k], v);
    if p.Opening? {
      assert forall id: nat :: !OpenRow(s.table.rows, id, v);
      assert forall id: nat :: OpenRow(t.table.rows, id, v) && id < |s.table.rows| ==> OpenRow(s.table.rows, id, v);
    } else if p.Reading? || p.Closing? {
      forall id: nat | OpenRow(t.table.rows, id, v)
        ensures OpenRow(s.table.rows, id, v)
      {
      }
    }
  }

  lemma OtherStepKeepsTracked(cfg: V.Config, s: System, k: nat, v: string)
    requires Tracked(s, v) && k < |s.procs| && (s.procs[k].Finished? || s.procs[k].vehicleId != v)
    ensures Tracked(AdvanceStep(cfg, s, k), v)
  {
    QuietStepKeepsTracked(s, AdvanceStep(cfg, s, k), v);
  }

  lemma StepKeepsTracked(cfg: V.Config, prefetch: nat, s: System, a: Action, v: string)
    requires Tracked(s, v) && !Overlaps(s, a, v)
    ensures Tracked(Step(cfg, prefetch, s, a), v)
  {
    if a.Advances? && a.proc < |s.procs| {
      var p := s.procs[a.proc];
      if p.Finished? || p.vehicleId != v {
        OtherStepKeepsTracked(cfg, s, a.proc, v);
      } else if p.Authorizing? {
        DecisionKeepsTracked(cfg, s, a.proc, v);
      } else {
        BusyStepKeepsTracked(cfg, s, a.proc, v);
      }
    } else {
      QuietStepKeepsTracked(s, Step(cfg, prefetch, s, a), v);
    }
  }

  predicate NeverOverlaps(cfg: V.Config, prefetch: nat, actions: seq<Action>, v: string) {
    actions == [] ||
    var init := actions[..|actions| - 1];
    NeverOverlaps(cfg, prefetch, init, v) && !Overlaps(Run(cfg, prefetch, init), actions[|actions| - 1], v)
  }

  lemma {:induction false} RunKeepsTracked(cfg: V.Config, prefetch: nat, actions: seq<Action>, v: string)
    requires NeverOverlaps(cfg, prefetch, actions, v)
    ensures Tracked(Run(cfg, prefetch, actions), v)
  {
    if actions != [] {
      var init := actions[..|actions| - 1];
      RunKeepsTracked(cfg, prefetch, init, v);
      StepKeepsTracked(cfg, prefetch, Run(cfg, prefetch, init), actions[|actions| - 1], v);
    }
  }

  lemma {:induction false} OnlyNamedIsCounted(rows: seq<V.Violation>, v: string, id: nat)
    requires forall i: nat :: OpenRow(rows, i, v) ==> i == id
    ensures Sum(rows, OpenOf(v)) <= 1
    ensures id >= |rows| ==> Sum(rows, OpenOf(v)) == 0
  {
    if rows != [] {
      var n := |rows| - 1;
      forall i: nat | OpenRow(rows[..n], i, v)
        ensures i == id
      {
        assert OpenRow(rows, i, v);
      }
      OnlyNamedIsCounted(rows[..n], v, id);
      if OpenOf(v)(rows[n]) == 1 {
        assert OpenRow(rows, n, v);
      }
    }
  }

  lemma NamedRowsAreOne(g: D.GeoState, rows: seq<V.Violation>, v: string)
    requires Names(g, rows, v)
    ensures Sum(rows, OpenOf(v)) <= 1
  {
    OnlyNamedIsCounted(rows, v, if g.openViolationId.Some? && g.openViolationId.value.Row? then g.openViolationId.value.id else |rows|);
  }

  lemma TrackedHasOneOpen(s: System, v: string)
    requires Tracked(s, v)
    ensures OpenRows(s, v) <= 1
  {
    if k :| 0 <= k < |s.procs| && Busy(s.procs[k], v) && s.procs[k].Storing? {
      assert BusyOk(s, s.procs[k], v);
      NamedRowsAreOne(s.procs[k].next, s.table.rows, v);
    } else {
      NamedRowsAreOne(V.GeoOf(s.geo, v), s.table.rows, v);
    }
  }

  /**
   * If no ping of a vehicle decides while another is between its decision and its state.set, the vehicle
   * has at most one open violation at all times, named by its state whenever none of its pings is busy,
   * whatever other vehicles and admins do meanwhile.
   */
  lemma {:induction false} OneAtATimeKeepsOneOpen(cfg: V.Config, prefetch: nat, actions: seq<Action>, v: string)
    requires NeverOverlaps(cfg, prefetch, actions, v)
    ensures var s := Run(cfg, prefetch, actions);
      OpenRows(s, v) <= 1 && (!AnyBusy(s, v) ==> Names(V.GeoOf(s.geo, v), s.table.rows, v))
  {
    RunKeepsTracked(cfg, prefetch, actions, v);
    TrackedHasOneOpen(Run(cfg, prefetch, actions), v);
  }

  // ------------------------------------------------------------- the prefetch limit

  lemma {:induction false} RunKeepsPrefetch(cfg: V.Config, prefetch: nat, actions: seq<Action>)
    ensures Sum(Run(cfg, prefetch, actions).procs, IsUnfinished()) <= prefetch
  {
    if actions != [] {
      var s, a := Run(cfg, prefetch, actions[..|actions| - 1]), actions[|actions| - 1];
      RunKeepsPrefetch(cfg, prefetch, actions[..|actions| - 1]);
      StepKeepsPrefetch(cfg, prefetch, s, a);
    }
  }

  lemma StepKeepsPrefetch(cfg: V.Config, prefetch: nat, s: System, a: Action)
    requires Sum(s.procs, IsUnfinished()) <= prefetch
    ensures Sum(Step(cfg, prefetch, s, a).procs, IsUnfinished()) <= prefetch
  {
    var t := Step(cfg, prefetch, s, a);
    if a.Arrives? && t != s {
      SumSnoc(s.procs, t.procs[|s.procs|], IsUnfinished());
    } else if (a.Advances? && a.proc < |s.procs|) || (a.Fails? && a.proc < |s.procs|) {
      assert t.procs == s.procs[a.proc := t.procs[a.proc]];
      SumUpdate(s.procs, a.proc, t.procs[a.proc], IsUnfinished());
    }
  }

  lemma {:induction false} UnfinishedIsAlone(procs: seq<Proc>, j: nat, k: nat)
    requires j < k < |procs| && !procs[j].Finished? && !procs[k].Finished?
    ensures Sum(procs, IsUnfinished()) >= 2
  {
    var n := |procs| - 1;
    if k < n {
      UnfinishedIsAlone(procs[..n], j, k);
      SumIsNatural(procs[n..], IsUnfinished());
    } else {
      SumIsNatural(procs[..n], IsUnfinished());
      assert IsUnfinished()(procs[..n][j]) == 1;
    }
  }

  lemma OneMessageNeverOverlaps(s: System, a: Action, v: string)
    requires Sum(s.procs, IsUnfinished()) <= 1
    ensures !Overlaps(s, a, v)
  {
    if a.Advances? && a.proc < |s.procs| && !s.procs[a.proc].Finished? {
      forall k | 0 <= k < |s.procs| && k != a.proc
        ensures s.procs[k].Finished?
      {
        if !s.procs[k].Finished? {
          UnfinishedIsAlone(s.procs, if k < a.proc then k else a.proc, if k < a.proc then a.proc else k);
        }
      }
    }
  }

  lemma {:induction false} OneMessageRunsAreSerial(cfg: V.Config, prefetch: nat, actions: seq<Action>, v: string)
    requires prefetch <= 1
    ensures NeverOverlaps(cfg, prefetch, actions, v)
  {
    if actions != [] {
      var init := actions[..|actions| - 1];
      OneMessageRunsAreSerial(cfg, prefetch, init, v);
      RunKeepsPrefetch(cfg, prefetch, init);
      OneMessageNeverOverlaps(Run(cfg, prefetch, init), actions[|actions| - 1], v);
    }
  }

  lemma OneMessageNeverReadsTwice(s: System, a: Action, id: nat)
    requires Sum(s.procs, IsUnfinished()) <= 1
    ensures !ReadsTwice(s, a, id)
  {
    if a.Advances? && a.proc < |s.procs| && s.procs[a.proc].Reading? {
      forall k | 0 <= k < |s.procs|
        ensures ClosingOf(id)(s.procs[k]) == 0
      {
        if k != a.proc && !s.procs[k].Finished? {
          UnfinishedIsAlone(s.procs, if k < a.proc then k else a.proc, if k < a.proc then a.proc else k);
        }
      }
      SumOfEqual(s.procs, ClosingOf(id), 0);
    }
  }

  lemma {:induction false} OneMessageRunsReadOnce(cfg: V.Config, prefetch: nat, actions: seq<Action>, id: nat)
    requires prefetch <= 1
    ensures NeverReadsTwice(cfg, prefetch, actions, id)
  {
    if actions != [] {
      var init := actions[..|actions| - 1];
      OneMessageRunsReadOnce(cfg, prefetch, init, id);
      RunKeepsPrefetch(cfg, prefetch, init);
      OneMessageNeverReadsTwice(Run(cfg, prefetch, init), actions[|actions| - 1], id);
    }
  }

  // ------------------------------------------- with two messages at a time both promises fail

  const V_ID := "v"

  const Z_ID := "z"

  /** What a vehicle's state becomes on its return. */
  const CLOSED := D.InitialGeoState

  /** No ride and no pass covers the vehicle of the runs below. */
  const NO_RIDES := V.Auth({}, map[])

  function Stray(cfg: V.Config, now: int): D.Ping {
    D.Ping(cfg.hysteresis.marginM + 1.0, now, false)
  }

  function Near(cfg: V.Config): D.Ping {
    D.Ping(cfg.hysteresis.marginM, 0, false)
  }

  function ArrivalOf(p: D.Ping): Action {
    Arrives(V_ID, Z_ID, p.distanceM, p.now, false)
  }

  function Done(n: nat): seq<Proc> {
    seq(n, (i: nat) => Finished)
  }

  lemma DoneIsFinished(n: nat)
    ensures Sum(Done(n), IsUnfinished()) == 0
  {
    SumOfEqual(Done(n), IsUnfinished(), 0);
  }

  lemma PairCounts(n: nat, p: Proc, q: Proc)
    ensures Sum(Done(n) + [p], IsUnfinished()) == IsUnfinished()(p)
    ensures Sum(Done(n) + [p] + [q], IsUnfinished()) == IsUnfinished()(p) + IsUnfinished()(q)
  {
    DoneIsFinished(n);
    SumSnoc(Done(n), p, IsUnfinished());
    SumSnoc(Done(n) + [p], q, IsUnfinished());
  }

  lemma OneArrives(cfg: V.Config, prefetch: nat, before: seq<Action>, s: System, p: D.Ping)
    requires Run(cfg, prefetch, before) == s && s.auth == NO_RIDES && Sum(s.procs, IsUnfinished()) < prefetch && !p.authorized
    ensures Run(cfg, prefetch, before + [ArrivalOf(p)]) == s.(procs := s.procs + [Authorizing(V_ID, Z_ID, p)])
  {
    RunFromSnoc(cfg, prefetch, Init, before, ArrivalOf(p));
    assert !V.IsAuthorized(cfg, s.auth, V_ID, p.now, false);
    assert p == D.Ping(p.distanceM, p.now, false);
  }

  /** Two pings arrive, and both wait for their authorization. */
  lemma TwoArrive(cfg: V.Config, prefetch: nat, before: seq<Action>, s: System, n: nat, p: D.Ping, q: D.Ping) returns (actions: seq<Action>)
    requires prefetch >= 2 && !p.authorized && !q.authorized
    requires Run(cfg, prefetch, before) == s && s.auth == NO_RIDES && s.procs == Done(n)
    ensures Run(cfg, prefetch, actions) == s.(procs := Done(n) + [Authorizing(V_ID, Z_ID, p)] + [Authorizing(V_ID, Z_ID, q)])
  {
    DoneIsFinished(n);
    PairCounts(n, Authorizing(V_ID, Z_ID, p), Finished);
    OneArrives(cfg, prefetch, before, s, p);
    OneArrives(cfg, prefetch, before + [ArrivalOf(p)], s.(procs := Done(n) + [Authorizing(V_ID, Z_ID, p)]), q);
    actions := before + [ArrivalOf(p)] + [ArrivalOf(q)];
  }

  lemma UpdateFirst(n: nat, p: Proc, q: Proc, r: Proc)
    ensures (Done(n) + [p] + [q])[n] == p && (Done(n) + [p] + [q])[n + 1] == q && |Done(n) + [p] + [q]| == n + 2
    ensures (Done(n) + [p] + [q])[n := r] == Done(n) + [r] + [q]
    ensures (Done(n) + [p] + [q])[n + 1 := r] == Done(n) + [p] + [r]
  {
  }

  /** The state where a stray ping opens a violation, with the vehicle's earlier pings done. */
  ghost predicate Ready(cfg: V.Config, s: System, n: nat, now: int) {
    && s.auth == NO_RIDES && s.table == V.Table([], []) && s.procs == Done(n)
    && D.Decide(cfg.hysteresis, V.GeoOf(s.geo, V_ID), Stray(cfg, now)).0.Open?
  }

  /** At once if there is no dwell, else after one stray ping. */
  lemma ReachReady(cfg: V.Config, prefetch: nat) returns (actions: seq<Action>, n: nat, now: int)
    requires prefetch >= 1
    ensures Ready(cfg, Run(cfg, prefetch, actions), n, now)
  {
    if cfg.hysteresis.dwellMs <= 0 {
      actions, n, now := [], 0, 0;
      assert Done(0) == [];
    } else {
      var p := Stray(cfg, 0);
      OneArrives(cfg, prefetch, [], Init, p);
      var s := Init.(procs := [] + [Authorizing(V_ID, Z_ID, p)]);
      RunFromSnoc(cfg, prefetch, Init, [] + [ArrivalOf(p)], Advances(0));
      actions, n, now := [] + [ArrivalOf(p)] + [Advances(0)], 1, cfg.hysteresis.dwellMs;
      var t := AdvanceStep(cfg, s, 0);
      assert t.procs == Done(1);
      assert t.geo == map[V_ID := D.Decide(cfg.hysteresis, D.InitialGeoState, p).1];
    }
  }

  /** What an advance of process k makes of a run. */
  lemma OneAdvances(cfg: V.Config, prefetch: nat, before: seq<Action>, s: System, k: nat)
    requires Run(cfg, prefetch, before) == s && k < |s.procs|
    ensures Run(cfg, prefetch, before + [Advances(k)]) == AdvanceStep(cfg, s, k)
  {
    RunFromSnoc(cfg, prefetch, Init, before, Advances(k));
  }

  function OpeningAt(cfg: V.Config, g: D.GeoState, now: int): Proc
    requires D.Decide(cfg.hysteresis, g, Stray(cfg, now)).0.Open?
  {
    var (action, next) := D.Decide(cfg.hysteresis, g, Stray(cfg, now));
    Opening(V_ID, Z_ID, now, action.maxDistanceM, next)
  }

  /** Both pings decide before either has written anything. */
  lemma BothDecideToOpen(cfg: V.Config, prefetch: nat) returns (actions: seq<Action>, n: nat, p: Proc)
    requires prefetch >= 2
    ensures var s := Run(cfg, prefetch, actions);
      p.Opening? && p.vehicleId == V_ID && s.auth == NO_RIDES && s.table == V.Table([], []) && s.procs == Done(n) + [p] + [p]
  {
    var before, m, now := ReachReady(cfg, prefetch);
    var s := Run(cfg, prefetch, before);
    var ping, waiting := Stray(cfg, now), Authorizing(V_ID, Z_ID, Stray(cfg, now));
    n, p := m, OpeningAt(cfg, V.GeoOf(s.geo, V_ID), now);
    var a := TwoArrive(cfg, prefetch, before, s, n, ping, ping);
    var s1 := s.(procs := Done(n) + [waiting] + [waiting]);
    UpdateFirst(n, waiting, waiting, p);
    OneAdvances(cfg, prefetch, a, s1, n);
    var s2 := s.(procs := Done(n) + [p] + [waiting]);
    UpdateFirst(n, p, waiting, p);
    OneAdvances(cfg, prefetch, a + [Advances(n)], s2, n + 1);
    actions := a + [Advances(n)] + [Advances(n + 1)];
  }

  lemma OpeningOpens(cfg: V.Config, s: System, k: nat)
    requires k < |s.procs| && s.procs[k].Opening? && s.procs[k].vehicleId == V_ID
    ensures OpenRows(AdvanceStep(cfg, s, k), V_ID) == OpenRows(s, V_ID) + 1
  {
    var t := AdvanceStep(cfg, s, k);
    SumSnoc(s.table.rows, t.table.rows[|s.table.rows|], OpenOf(V_ID));
  }

  /** Some run then has two open violations of one vehicle. */
  lemma TwoMessagesOpenTwice(cfg: V.Config, prefetch: nat) returns (actions: seq<Action>)
    requires prefetch >= 2
    ensures OpenRows(Run(cfg, prefetch, actions), V_ID) == 2
  {
    var a, n, p := BothDecideToOpen(cfg, prefetch);
    var s := Run(cfg, prefetch, a);
    UpdateFirst(n, p, p, Finished);
    OneAdvances(cfg, prefetch, a, s, n);
    OpeningOpens(cfg, s, n);
    var t := AdvanceStep(cfg, s, n);
    assert t.procs[n + 1] == p;
    OneAdvances(cfg, prefetch, a + [Advances(n)], t, n + 1);
    OpeningOpens(cfg, t, n + 1);
    actions := a + [Advances(n)] + [Advances(n + 1)];
  }

  /** What process k of a run becomes when it finishes its ping in the given number of steps. */
  lemma LastStores(cfg: V.Config, s: System, k: nat)
    requires k < |s.procs| && s.procs[k].Storing? && s.procs[k].vehicleId == V_ID
    ensures var t := AdvanceStep(cfg, s, k);
      t == s.(geo := t.geo, procs := s.procs[k := Finished]) && V.GeoOf(t.geo, V_ID) == s.procs[k].next
  {
  }

  /** Both openings carried out and stored: two open rows, of which the state names the second. */
  lemma BothOpeningsStored(cfg: V.Config, s: System, n: nat, p: Proc)
    requires p.Opening? && p.vehicleId == V_ID && s.table == V.Table([], []) && s.procs == Done(n) + [p] + [p]
    ensures var t := AdvanceStep(cfg, AdvanceStep(cfg, s, n), n + 1);
      var u := AdvanceStep(cfg, AdvanceStep(cfg, t, n), n + 1);
      && |u.table.rows| == 2 && OpenRow(u.table.rows, 0, V_ID) && OpenRow(u.table.rows, 1, V_ID)
      && u.auth == s.auth && u.procs == Done(n + 2) && V.GeoOf(u.geo, V_ID).openViolationId == Some(D.Row(1))
  {
    UpdateFirst(n, p, p, Finished);
    var t1 := AdvanceStep(cfg, s, n);
    var q0 := t1.procs[n];
    UpdateFirst(n, p, p, q0);
    UpdateFirst(n, q0, p, Finished);
    var t2 := AdvanceStep(cfg, t1, n + 1);
    var q1 := t2.procs[n + 1];
    UpdateFirst(n, q0, p, q1);
    UpdateFirst(n, q0, q1, Finished);
    LastStores(cfg, t2, n);
    var u1 := AdvanceStep(cfg, t2, n);
    UpdateFirst(n, Finished, q1, Finished);
    LastStores(cfg, u1, n + 1);
    assert Done(n) + [Finished] + [Finished] == Done(n + 2);
  }

  /** A near ping, on its own, closes the row its state names and no other. */
  lemma NearPingCloses(cfg: V.Config, s: System, n: nat)
    requires s.procs == Done(n) + [Authorizing(V_ID, Z_ID, Near(cfg))]
    requires |s.table.rows| == 2 && OpenRow(s.table.rows, 0, V_ID) && OpenRow(s.table.rows, 1, V_ID)
    requires V.GeoOf(s.geo, V_ID).openViolationId == Some(D.Row(1))
    ensures var t := AdvanceStep(cfg, AdvanceStep(cfg, s, n), n);
      var u := AdvanceStep(cfg, AdvanceStep(cfg, t, n), n);
      && |u.table.rows| == 2 && OpenRow(u.table.rows, 0, V_ID) && !OpenRow(u.table.rows, 1, V_ID)
      && u.procs == Done(n + 1) && V.GeoOf(u.geo, V_ID).openViolationId.None?
  {
    assert D.Decide(cfg.hysteresis, V.GeoOf(s.geo, V_ID), Near(cfg)) == (D.Close, CLOSED);
    var p0 := s.procs[n];
    var s1 := AdvanceStep(cfg, s, n);
    assert s1 == s.(procs := s.procs[n := Reading(V_ID, 1, 0, CLOSED)]);
    var s2 := AdvanceStep(cfg, s1, n);
    assert s2 == s.(procs := s.procs[n := Closing(V_ID, 1, s.table.rows[1], 0, CLOSED)]);
    var s3 := AdvanceStep(cfg, s2, n);
    assert s3.procs == s.procs[n := Storing(V_ID, CLOSED)];
    LastStores(cfg, s3, n);
    DoneSnoc(n, p0);
  }

  /**
   * Of two violations opened by overlapping pings one is never closed by the detector: in some run the
   * vehicle is back, nothing is under way, its state names no violation, and one is open.
   */
  lemma OneOfTwoStaysOpen(cfg: V.Config, prefetch: nat) returns (actions: seq<Action>)
    requires prefetch >= 2
    ensures var s := Run(cfg, prefetch, actions);
      && OpenRow(s.table.rows, 0, V_ID) && Sum(s.procs, IsUnfinished()) == 0
      && V.GeoOf(s.geo, V_ID).openViolationId.None?
  {
    var a, n, p := BothDecideToOpen(cfg, prefetch);
    var s := Run(cfg, prefetch, a);
    BothOpeningsStored(cfg, s, n, p);
    var s1 := AdvanceStep(cfg, s, n);
    var s2 := AdvanceStep(cfg, s1, n + 1);
    var s3 := AdvanceStep(cfg, s2, n);
    var t := AdvanceStep(cfg, s3, n + 1);
    OneAdvances(cfg, prefetch, a, s, n);
    OneAdvances(cfg, prefetch, a + [Advances(n)], s1, n + 1);
    OneAdvances(cfg, prefetch, a + [Advances(n)] + [Advances(n + 1)], s2, n);
    OneAdvances(cfg, prefetch, a + [Advances(n)] + [Advances(n + 1)] + [Advances(n)], s3, n + 1);
    var b := a + [Advances(n)] + [Advances(n + 1)] + [Advances(n)] + [Advances(n + 1)];
    DoneIsFinished(n + 2);
    OneArrives(cfg, prefetch, b, t, Near(cfg));
    var t0 := t.(procs := Done(n + 2) + [Authorizing(V_ID, Z_ID, Near(cfg))]);
    NearPingCloses(cfg, t0, n + 2);
    var t1 := AdvanceStep(cfg, t0, n + 2);
    var t2 := AdvanceStep(cfg, t1, n + 2);
    var t3 := AdvanceStep(cfg, t2, n + 2);
    var c := b + [ArrivalOf(Near(cfg))];
    OneAdvances(cfg, prefetch, c, t0, n + 2);
    OneAdvances(cfg, prefetch, c + [Advances(n + 2)], t1, n + 2);
    OneAdvances(cfg, prefetch, c + [Advances(n + 2)] + [Advances(n + 2)], t2, n + 2);
    OneAdvances(cfg, prefetch, c + [Advances(n + 2)] + [Advances(n + 2)] + [Advances(n + 2)], t3, n + 2);
    DoneIsFinished(n + 3);
    actions := c + [Advances(n + 2)] + [Advances(n + 2)] + [Advances(n + 2)] + [Advances(n + 2)];
  }

  /** One violation, open and named by its vehicle's state, and nothing under way. */
  ghost predicate OneOpen(s: System, n: nat) {
    && s.auth == NO_RIDES && s.procs == Done(n) && |s.table.rows| == 1 && s.table.rows[0].status == V.Open
    && V.GeoOf(s.geo, V_ID).openViolationId == Some(D.Row(0)) && Closes(s, 0) == 0
  }

  lemma DoneSnoc(n: nat, p: Proc)
    ensures |Done(n) + [p]| == n + 1 && (Done(n) + [p])[n] == p
    ensures (Done(n) + [p])[n := Finished] == Done(n + 1)
  {
  }

  lemma ReachOneOpen(cfg: V.Config, prefetch: nat) returns (actions: seq<Action>, n: nat)
    requires prefetch >= 1
    ensures OneOpen(Run(cfg, prefetch, actions), n)
  {
    var before, m, now := ReachReady(cfg, prefetch);
    var s, ping := Run(cfg, prefetch, before), Stray(cfg, now);
    var p0, p1 := Authorizing(V_ID, Z_ID, ping), OpeningAt(cfg, V.GeoOf(s.geo, V_ID), now);
    DoneIsFinished(m);
    OneArrives(cfg, prefetch, before, s, ping);
    DoneSnoc(m, p0);
    OneAdvances(cfg, prefetch, before + [ArrivalOf(ping)], s.(procs := Done(m) + [p0]), m);
    var s1 := s.(procs := Done(m) + [p1]);
    assert (Done(m) + [p0])[m := p1] == Done(m) + [p1];
    OneAdvances(cfg, prefetch, before + [ArrivalOf(ping)] + [Advances(m)], s1, m);
    var s2 := AdvanceStep(cfg, s1, m);
    var p2 := s2.procs[m];
    assert s2.procs == Done(m) + [p2];
    OneAdvances(cfg, prefetch, before + [ArrivalOf(ping)] + [Advances(m)] + [Advances(m)], s2, m);
    DoneSnoc(m, p2);
    OpenedOnce(cfg, s1, m);
    actions, n := before + [ArrivalOf(ping)] + [Advances(m)] + [Advances(m)] + [Advances(m)], m + 1;
  }

  lemma OpenedOnce(cfg: V.Config, s: System, k: nat)
    requires k < |s.procs| && s.procs[k].Opening? && s.procs[k].vehicleId == V_ID && s.table == V.Table([], [])
    ensures var t := AdvanceStep(cfg, AdvanceStep(cfg, s, k), k);
      && t.auth == s.auth && t.procs == s.procs[k := Finished] && |t.table.rows| == 1 && t.table.rows[0].status == V.Open
      && V.GeoOf(t.geo, V_ID).openViolationId == Some(D.Row(0)) && Closes(t, 0) == 0
  {
    var t := AdvanceStep(cfg, AdvanceStep(cfg, s, k), k);
    SumSnoc([], t.table.outbox[0], V.ClosedFor(0));
    assert t.table.outbox == [] + [t.table.outbox[0]];
  }

  /** Both pings decide to close and read the row, before either has written anything. */
  lemma BothReadToClose(cfg: V.Config, prefetch: nat) returns (actions: seq<Action>, n: nat, p: Proc)
    requires prefetch >= 2
    ensures var s := Run(cfg, prefetch, actions);
      && p.Closing? && p.rowId == 0 && s.procs == Done(n) + [p] + [p]
      && |s.table.rows| == 1 && Closes(s, 0) == 0
  {
    var before, m := ReachOneOpen(cfg, prefetch);
    var s := Run(cfg, prefetch, before);
    var near := Near(cfg);
    var p0, p1 := Authorizing(V_ID, Z_ID, near), Reading(V_ID, 0, 0, CLOSED);
    n, p := m, Closing(V_ID, 0, s.table.rows[0], 0, CLOSED);
    assert D.Decide(cfg.hysteresis, V.GeoOf(s.geo, V_ID), near) == (D.Close, CLOSED);
    var a := TwoArrive(cfg, prefetch, before, s, n, near, near);
    UpdateFirst(n, p0, p0, p1);
    OneAdvances(cfg, prefetch, a, s.(procs := Done(n) + [p0] + [p0]), n);
    UpdateFirst(n, p1, p0, p1);
    OneAdvances(cfg, prefetch, a + [Advances(n)], s.(procs := Done(n) + [p1] + [p0]), n + 1);
    UpdateFirst(n, p1, p1, p);
    OneAdvances(cfg, prefetch, a + [Advances(n)] + [Advances(n + 1)], s.(procs := Done(n) + [p1] + [p1]), n);
    UpdateFirst(n, p, p1, p);
    OneAdvances(cfg, prefetch, a + [Advances(n)] + [Advances(n + 1)] + [Advances(n)], s.(procs := Done(n) + [p] + [p1]), n + 1);
    actions := a + [Advances(n)] + [Advances(n + 1)] + [Advances(n)] + [Advances(n + 1)];
  }

  lemma ClosingCloses(cfg: V.Config, s: System, k: nat)
    requires k < |s.procs| && s.procs[k].Closing? && s.procs[k].rowId == 0 && |s.table.rows| == 1
    ensures var t := AdvanceStep(cfg, s, k); Closes(t, 0) == Closes(s, 0) + 1 && |t.table.rows| == 1
  {
    var t, p := AdvanceStep(cfg, s, k), s.procs[k];
    SumSnoc(s.table.outbox, V.ViolationClosed(0, p.row.vehicleId, p.row.zoneId), V.ClosedFor(0));
  }

  /** Some run then closes one violation twice. */
  lemma TwoMessagesCloseTwice(cfg: V.Config, prefetch: nat) returns (actions: seq<Action>)
    requires prefetch >= 2
    ensures Closes(Run(cfg, prefetch, actions), 0) == 2
  {
    var a, n, p := BothReadToClose(cfg, prefetch);
    var s := Run(cfg, prefetch, a);
    UpdateFirst(n, p, p, Finished);
    OneAdvances(cfg, prefetch, a, s, n);
    ClosingCloses(cfg, s, n);
    var t := AdvanceStep(cfg, s, n);
    assert t.procs[n + 1] == p;
    OneAdvances(cfg, prefetch, a + [Advances(n)], t, n + 1);
    ClosingCloses(cfg, t, n + 1);
    actions := a + [Advances(n)] + [Advances(n + 1)];
  }

  // ------------------------------------------------------------ overlap alone does no harm

  lemma SingleExtends(cfg: V.Config, prefetch: nat, actions: seq<Action>, a: Action, s: System)
    requires SingleThroughout(cfg, prefetch, actions, V_ID) && Run(cfg, prefetch, actions + [a]) == s && OpenOrOpening(s, V_ID) <= 1
    ensures SingleThroughout(cfg, prefetch, actions + [a], V_ID)
  {
    assert (actions + [a])[..|actions + [a]| - 1] == actions;
  }

  lemma CountsOf(s: System, p: Proc, q: Proc)
    requires s.procs == [p] + [q] && s.table.rows == []
    ensures OpenOrOpening(s, V_ID) == OpeningOf(V_ID)(p) + OpeningOf(V_ID)(q)
  {
    SumSnoc([], p, OpeningOf(V_ID));
    SumSnoc([p], q, OpeningOf(V_ID));
    assert [] + [p] == [p];
  }

  /**
   * A ping that decides while another's open is under way need not open: here it is near. So the exact
   * condition has to ask what the overlapping ping decides, as OpensBlindly does.
   */
  lemma HarmlessOverlap(cfg: V.Config) returns (actions: seq<Action>, a: Action)
    requires cfg.hysteresis.dwellMs <= 0
    ensures Overlaps(Run(cfg, 2, actions), a, V_ID) && SingleThroughout(cfg, 2, actions + [a], V_ID)
    ensures exists k :: 0 <= k < |Run(cfg, 2, actions).procs| && Run(cfg, 2, actions).procs[k].Opening?
  {
    var p, q := Authorizing(V_ID, Z_ID, Stray(cfg, 0)), Authorizing(V_ID, Z_ID, Near(cfg));
    var opening := OpeningAt(cfg, D.InitialGeoState, 0);
    var a1, a2 := ArrivalOf(Stray(cfg, 0)), ArrivalOf(Near(cfg));
    OneArrives(cfg, 2, [], Init, Stray(cfg, 0));
    var s1 := Init.(procs := [] + [p]);
    SumSnoc([], p, IsUnfinished());
    SumSnoc([], p, OpeningOf(V_ID));
    SingleExtends(cfg, 2, [], a1, s1);
    OneArrives(cfg, 2, [] + [a1], s1, Near(cfg));
    var s2 := Init.(procs := [p] + [q]);
    CountsOf(s2, p, q);
    SingleExtends(cfg, 2, [] + [a1], a2, s2);
    OneAdvances(cfg, 2, [] + [a1] + [a2], s2, 0);
    var s3 := Init.(procs := [opening] + [q]);
    assert s2.procs[0 := opening] == [opening] + [q];
    CountsOf(s3, opening, q);
    SingleExtends(cfg, 2, [] + [a1] + [a2], Advances(0), s3);
    actions, a := [] + [a1] + [a2] + [Advances(0)], Advances(1);
    assert s3.procs[0] == opening && s3.procs[1] == q;
    OneAdvances(cfg, 2, actions, s3, 1);
    var s4 := AdvanceStep(cfg, s3, 1);
    assert s4.procs == [opening] + [Finished];
    CountsOf(s4, opening, Finished);
    SingleExtends(cfg, 2, actions, a, s4);
  }

  // ----------------------------------------------------------------------- main results

  /** For any hysteresis, vehicles keep at most one open violation in every run exactly if the bus hands out one message at a time. */
  lemma OneOpenExactlyOneAtATime(cfg: V.Config, prefetch: nat)
    ensures (forall actions, v :: OpenRows(Run(cfg, prefetch, actions), v) <= 1) <==> prefetch <= 1
  {
    if prefetch <= 1 {
      forall actions, v
        ensures OpenRows(Run(cfg, prefetch, actions), v) <= 1
      {
        OneMessageRunsAreSerial(cfg, prefetch, actions, v);
        OneAtATimeKeepsOneOpen(cfg, prefetch, actions, v);
      }
    } else {
      var actions := TwoMessagesOpenTwice(cfg, prefetch);
      assert OpenRows(Run(cfg, prefetch, actions), V_ID) > 1;
    }
  }

  /** And exactly then each violation is closed at most once in every run. */
  lemma ClosedOnceExactlyOneAtATime(cfg: V.Config, prefetch: nat)
    ensures (forall actions, id: nat :: Closes(Run(cfg, prefetch, actions), id) <= 1) <==> prefetch <= 1
  {
    if prefetch <= 1 {
      forall actions, id: nat
        ensures Closes(Run(cfg, prefetch, actions), id) <= 1
      {
        OneMessageRunsReadOnce(cfg, prefetch, actions, id);
        ClosedOnceExactlyWithoutDoubleReads(cfg, prefetch, actions, id);
        ClosesAreNatural(Run(cfg, prefetch, actions), id);
      }
    } else {
      var actions := TwoMessagesCloseTwice(cfg, prefetch);
      assert Closes(Run(cfg, prefetch, actions), 0) > 1;
    }
  }
}
