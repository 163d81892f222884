/**
 * Whom a match offered its ride to, read off the dispatch.offer_broadcast events of a run: which
 * zones each round covered, who was listed, and that nobody else may claim.
 */
module MatchOffers {
  import opened Wrappers
  import opened Sums
  import opened ZoneSelection
  import opened DriverRegistry
  import opened Matching
  import opened ClaimProtocol
  import opened MatchRounds

  function BroadcastsOf(m: nat): Event -> int {
    (e: Event) => if e.OfferBroadcast? && e.matchId == m then 1 else 0
  }

  /** The n-th broadcast of a match is its round n, over the zones of that round. */
  predicate BroadcastOk(cfg: MatchConfig, core: Core, k: nat)
    requires k < |core.log| && core.log[k].OfferBroadcast?
  {
    var e := core.log[k];
    && e.matchId < |core.matches|
    && e.rideId == core.matches[e.matchId].rideId
    && e.round >= 1 && e.round == Sum(core.log[..k + 1], BroadcastsOf(e.matchId))
    && e.zoneIds == RoundZones(cfg, core.matches[e.matchId], e.round)
    && Elements(e.drivers) <= core.matches[e.matchId].offered
  }

  predicate WasOffered(core: Core, m: nat, driverId: string) {
    exists k :: 0 <= k < |core.log| && core.log[k].OfferBroadcast? && core.log[k].matchId == m && driverId in core.log[k].drivers
  }

  ghost predicate LogOk(cfg: MatchConfig, core: Core) {
    && (forall k :: 0 <= k < |core.log| && core.log[k].OfferBroadcast? ==> BroadcastOk(cfg, core, k))
    && (forall m :: 0 <= m < |core.matches| ==> core.matches[m].round == Sum(core.log, BroadcastsOf(m)))
    && (forall m: nat :: m >= |core.matches| ==> Sum(core.log, BroadcastsOf(m)) == 0)
    && (forall m, d :: 0 <= m < |core.matches| && d in core.matches[m].offered ==> WasOffered(core, m, d))
  }

  /** A core that offers nothing new: matches keep ride, ranking, round and offers, and no broadcast is logged. */
  ghost predicate OffersNothing(a: Core, b: Core) {
    && |a.matches| == |b.matches|
    && (forall m :: 0 <= m < |a.matches| ==>
          b.matches[m] == a.matches[m].(timerDue := b.matches[m].timerDue, resolved := b.matches[m].resolved))
    && a.log <= b.log
    && (forall k :: |a.log| <= k < |b.log| ==> !b.log[k].OfferBroadcast?)
  }

  lemma QuietTail(a: Core, b: Core, m: nat)
    requires a.log <= b.log && forall k :: |a.log| <= k < |b.log| ==> !b.log[k].OfferBroadcast?
    ensures Sum(b.log, BroadcastsOf(m)) == Sum(a.log, BroadcastsOf(m))
  {
    var tail := b.log[|a.log|..];
    assert b.log == a.log + tail;
    SumAppend(a.log, tail, BroadcastsOf(m));
    SumOfEqual(tail, BroadcastsOf(m), 0);
  }

  lemma OffersNothingKeepsLogOk(cfg: MatchConfig, a: Core, b: Core)
    requires LogOk(cfg, a) && OffersNothing(a, b)
    ensures LogOk(cfg, b)
  {
    forall m: nat
      ensures Sum(b.log, BroadcastsOf(m)) == Sum(a.log, BroadcastsOf(m))
    {
      QuietTail(a, b, m);
    }
    forall k | 0 <= k < |b.log| && b.log[k].OfferBroadcast?
      ensures BroadcastOk(cfg, b, k)
    {
      assert BroadcastOk(cfg, a, k);
      assert b.log[..k + 1] == a.log[..k + 1];
    }
    forall m, d | 0 <= m < |b.matches| && d in b.matches[m].offered
      ensures WasOffered(b, m, d)
    {
      assert WasOffered(a, m, d);
      var k :| 0 <= k < |a.log| && a.log[k].OfferBroadcast? && a.log[k].matchId == m && d in a.log[k].drivers;
      assert b.log[k] == a.log[k];
    }
  }

  lemma NewMatchKeepsLogOk(cfg: MatchConfig, a: Core, x: Match, active: map<string, nat>)
    requires LogOk(cfg, a) && x.round == 0 && x.offered == {}
    ensures LogOk(cfg, a.(matches := a.matches + [x], active := active))
  {
    var b := a.(matches := a.matches + [x], active := active);
    assert Sum(a.log, BroadcastsOf(|a.matches|)) == 0;
    forall k | 0 <= k < |b.log| && b.log[k].OfferBroadcast?
      ensures BroadcastOk(cfg, b, k)
    {
      assert BroadcastOk(cfg, a, k);
    }
    forall m, d | 0 <= m < |b.matches| && d in b.matches[m].offered
      ensures WasOffered(b, m, d)
    {
      assert WasOffered(a, m, d);
      var k :| 0 <= k < |a.log| && a.log[k].OfferBroadcast? && a.log[k].matchId == m && d in a.log[k].drivers;
      assert b.log[k] == a.log[k];
    }
  }

  lemma RoundKeepsLogOk(cfg: MatchConfig, a: Core, m: nat, now: int)
    requires LogOk(cfg, a) && m < |a.matches|
    ensures LogOk(cfg, RunRound(cfg, a, m, now))
  {
    var b := RunRound(cfg, a, m, now);
    var n := |a.log|;
    var e := b.log[n];
    assert b.log == a.log + [e];
    forall i: nat
      ensures Sum(b.log, BroadcastsOf(i)) == Sum(a.log, BroadcastsOf(i)) + if i == m then 1 else 0
    {
      SumSnoc(a.log, e, BroadcastsOf(i));
    }
    forall k | 0 <= k < |b.log| && b.log[k].OfferBroadcast?
      ensures BroadcastOk(cfg, b, k)
    {
      if k < n {
        assert BroadcastOk(cfg, a, k);
        assert b.log[..k + 1] == a.log[..k + 1];
      } else {
        assert b.log[..k + 1] == b.log;
      }
    }
    forall i, d | 0 <= i < |b.matches| && d in b.matches[i].offered
      ensures WasOffered(b, i, d)
    {
      if d in a.matches[i].offered {
        assert WasOffered(a, i, d);
        var k :| 0 <= k < |a.log| && a.log[k].OfferBroadcast? && a.log[k].matchId == i && d in a.log[k].drivers;
        assert b.log[k] == a.log[k];
      } else {
        assert d in e.drivers;
      }
    }
  }

  lemma StartKeepsLogOk(cfg: MatchConfig, core: Core, rideId: string, ranked: seq<RankedZone>, startedAt: int, now: int)
    requires LogOk(cfg, core)
    ensures LogOk(cfg, StartMatching(cfg, core, rideId, ranked, startedAt, now))
  {
    if rideId !in core.active && ranked != [] {
      var m, x := |core.matches|, Match(rideId, ranked, 0, startedAt, {}, None, false);
      NewMatchKeepsLogOk(cfg, core, x, core.active[rideId := m]);
      RoundKeepsLogOk(cfg, core.(matches := core.matches + [x], active := core.active[rideId := m]), m, now);
    } else {
      OffersNothingKeepsLogOk(cfg, core, StartMatching(cfg, core, rideId, ranked, startedAt, now));
    }
  }

  lemma ActKeepsLogOk(c: Config, s: Sys, a: Action)
    requires LogOk(c.matching, s.core)
    ensures LogOk(c.matching, Act(c, s, a).core)
  {
    if a.Start? {
      StartKeepsLogOk(c.matching, s.core, a.rideId, a.ranked, a.startedAt, s.now);
    } else if a.TimerFires? {
      TimerKeepsLogOk(c, s, a.matchId);
    } else {
      OffersNothingKeepsLogOk(c.matching, s.core, Act(c, s, a).core);
    }
  }

  lemma TimerKeepsLogOk(c: Config, s: Sys, m: nat)
    requires LogOk(c.matching, s.core)
    ensures LogOk(c.matching, Act(c, s, TimerFires(m)).core)
  {
    if m < |s.core.matches| && s.core.matches[m].timerDue.Some? && s.core.matches[m].timerDue.value <= s.now {
      var x := s.core.matches[m];
      var d := s.core.(matches := s.core.matches[m := x.(timerDue := None)]);
      OffersNothingKeepsLogOk(c.matching, s.core, d);
      if !x.resolved && ShouldContinue(s.now - x.startedAt, Params(c.matching, |x.ranked|)) {
        RoundKeepsLogOk(c.matching, d, m, s.now);
      } else {
        OffersNothingKeepsLogOk(c.matching, d, OnTimeout(c.matching, s.core, m, s.now));
      }
    }
  }

  lemma {:induction false} RunKeepsLogOk(c: Config, start: int, actions: seq<Timed>)
    ensures LogOk(c.matching, Run(c, start, actions).core)
  {
    if actions != [] {
      var s, a := Run(c, start, actions[..|actions| - 1]), actions[|actions| - 1];
      RunKeepsLogOk(c, start, actions[..|actions| - 1]);
      if a.at >= s.now {
        ActKeepsLogOk(c, s.(now := a.at), a.action);
      }
    }
  }

  /** Exactly the drivers its broadcasts listed can claim a match, and its broadcasts are its rounds in order, each over its zones. */
  lemma OffersAreTheBroadcasts(c: Config, start: int, actions: seq<Timed>, m: nat)
    requires m < |Run(c, start, actions).core.matches|
    ensures var core := Run(c, start, actions).core;
      && (forall d :: d in core.matches[m].offered <==> WasOffered(core, m, d))
      && core.matches[m].round == Sum(core.log, BroadcastsOf(m))
      && (forall k :: 0 <= k < |core.log| && core.log[k].OfferBroadcast? && core.log[k].matchId == m ==>
            && core.log[k].round >= 1 && core.log[k].round == Sum(core.log[..k + 1], BroadcastsOf(m))
            && core.log[k].zoneIds == RoundZones(c.matching, core.matches[m], core.log[k].round))
  {
    RunKeepsLogOk(c, start, actions);
    var core := Run(c, start, actions).core;
    forall k | 0 <= k < |core.log| && core.log[k].OfferBroadcast? && core.log[k].matchId == m
      ensures BroadcastOk(c.matching, core, k)
    {
    }
    forall d | WasOffered(core, m, d)
      ensures d in core.matches[m].offered
    {
      var k :| 0 <= k < |core.log| && core.log[k].OfferBroadcast? && core.log[k].matchId == m && d in core.log[k].drivers;
      assert BroadcastOk(c.matching, core, k);
      var i :| 0 <= i < |core.log[k].drivers| && core.log[k].drivers[i] == d;
      assert d in Elements(core.log[k].drivers);
    }
  }

  // ---------------------------------------------------------------- eligible when offered

  /** A broadcast listed exactly the drivers a registry holds eligible in its zones, each once. */
  ghost predicate Lists(r: Registry, e: Event)
    requires e.OfferBroadcast?
  {
    && (forall d :: d in e.drivers <==> Eligible(r, d, Elements(e.zoneIds)))
    && (forall i, j :: 0 <= i < j < |e.drivers| ==> e.drivers[i] != e.drivers[j])
  }

  /** The k-th event is a broadcast that reflects the registry at the step that logged it. */
  ghost predicate Sourced(c: Config, start: int, actions: seq<Timed>, k: nat)
    requires k < |Run(c, start, actions).core.log| && Run(c, start, actions).core.log[k].OfferBroadcast?
  {
    exists n :: 0 <= n < |actions| && LoggedAt(c, start, actions, k, n)
      && Lists(Run(c, start, actions[..n]).core.registry, Run(c, start, actions).core.log[k])
  }

  /** Step n of the run logged the k-th event. */
  predicate LoggedAt(c: Config, start: int, actions: seq<Timed>, k: nat, n: nat)
    requires n < |actions|
  {
    |Run(c, start, actions[..n]).core.log| <= k < |Run(c, start, actions[..n + 1]).core.log|
  }

  lemma RoundListsEligible(cfg: MatchConfig, core: Core, m: nat, now: int)
    requires m < |core.matches| && WellFormed(core.registry)
    ensures var d := RunRound(cfg, core, m, now);
      |d.log| == |core.log| + 1 && d.log[|core.log|].OfferBroadcast? && Lists(core.registry, d.log[|core.log|])
  {
    var d := RunRound(cfg, core, m, now);
    var e := d.log[|core.log|];
    var zones := Elements(e.zoneIds);
    var eligible := EligibleInZones(core.registry, zones);
    EligibleInZonesIsExact(core.registry, zones);
    assert e.drivers == DriverIds(eligible);
    forall x
      ensures x in e.drivers <==> Eligible(core.registry, x, zones)
    {
      if Eligible(core.registry, x, zones) {
        var y :| y in eligible && y.driverId == x;
        var i :| 0 <= i < |eligible| && eligible[i] == y;
        assert e.drivers[i] == x;
      }
      if x in e.drivers {
        var i :| 0 <= i < |e.drivers| && e.drivers[i] == x;
        assert eligible[i] in eligible && eligible[i].driverId == x;
      }
    }
  }

  /** The events from an index on are broadcasts that reflect the registry, or other events. */
  ghost predicate NewListsOk(r: Registry, from: nat, core: Core) {
    forall k :: from <= k < |core.log| && core.log[k].OfferBroadcast? ==> Lists(r, core.log[k])
  }

  lemma StartListsEligible(cfg: MatchConfig, core: Core, rideId: string, ranked: seq<RankedZone>, startedAt: int, now: int)
    requires WellFormed(core.registry)
    ensures var d := StartMatching(cfg, core, rideId, ranked, startedAt, now);
      d.registry == core.registry && NewListsOk(core.registry, |core.log|, d)
  {
    if rideId !in core.active && ranked != [] {
      var m := |core.matches|;
      var d := core.(matches := core.matches + [Match(rideId, ranked, 0, startedAt, {}, None, false)], active := core.active[rideId := m]);
      RoundListsEligible(cfg, d, m, now);
    }
  }

  lemma TimeoutListsEligible(cfg: MatchConfig, core: Core, m: nat, now: int)
    requires WellFormed(core.registry) && m < |core.matches|
    ensures var d := OnTimeout(cfg, core, m, now); d.registry == core.registry && NewListsOk(core.registry, |core.log|, d)
  {
    RoundListsEligible(cfg, core.(matches := core.matches[m := core.matches[m].(timerDue := None)]), m, now);
  }

  lemma StepListsEligible(c: Config, s: Sys, a: Timed)
    requires WellFormed(s.core.registry) && SoundStep(a)
    ensures var t := Step(c, s, a);
      && WellFormed(t.core.registry) && s.core.log <= t.core.log
      && NewListsOk(s.core.registry, |s.core.log|, t.core)
  {
    LogGrows(c, s, a);
    if a.at >= s.now {
      if a.action.Start? {
        StartListsEligible(c.matching, s.core, a.action.rideId, a.action.ranked, a.action.startedAt, a.at);
      } else if a.action.TimerFires? && a.action.matchId < |s.core.matches| {
        TimeoutListsEligible(c.matching, s.core, a.action.matchId, a.at);
      }
    }
  }

  /** Every driver a round was offered to was eligible in one of that round's zones when it went out, and no eligible driver was passed over. */
  lemma {:induction false} BroadcastsListExactlyEligible(c: Config, start: int, actions: seq<Timed>)
    requires Sound(actions)
    ensures var core := Run(c, start, actions).core;
      && WellFormed(core.registry)
      && forall k :: 0 <= k < |core.log| && core.log[k].OfferBroadcast? ==> Sourced(c, start, actions, k)
  {
    if actions != [] {
      var init := actions[..|actions| - 1];
      var s, t := Run(c, start, init), Run(c, start, actions);
      BroadcastsListExactlyEligible(c, start, init);
      StepListsEligible(c, s, actions[|actions| - 1]);
      assert actions[..|init|] == init && actions[..|init| + 1] == actions;
      forall k | 0 <= k < |t.core.log| && t.core.log[k].OfferBroadcast?
        ensures Sourced(c, start, actions, k)
      {
        if k < |s.core.log| {
          assert Sourced(c, start, init, k);
          var n :| 0 <= n < |init| && LoggedAt(c, start, init, k, n) && Lists(Run(c, start, init[..n]).core.registry, s.core.log[k]);
          assert init[..n] == actions[..n] && init[..n + 1] == actions[..n + 1];
          assert LoggedAt(c, start, actions, k, n);
        } else {
          assert LoggedAt(c, start, actions, k, |init|);
        }
      }
    }
  }
}
