/**
 * How a match of ClaimProtocol begins and ends, read off the published events and the claims sent: what
 * a start does, what a cancel stops for good, and what it cannot stop.
 */
module MatchEndings {
  import opened Wrappers
  import opened ZoneSelection
  import opened DriverRegistry
  import opened Matching
  import opened ClaimProtocol
  import opened MatchRounds
  import opened MatchOffers

  /** Every ride's entry names an unresolved match of that ride. */
  ghost predicate EntriesLive(core: Core) {
    forall r :: r in core.active ==>
      core.active[r] < |core.matches| && core.matches[core.active[r]].rideId == r && !core.matches[core.active[r]].resolved
  }

  lemma ResolveKeepsEntries(core: Core, m: nat)
    requires EntriesLive(core) && m < |core.matches|
    ensures EntriesLive(Resolve(core, m))
  {
  }

  lemma TimeoutKeepsEntries(cfg: MatchConfig, core: Core, m: nat, now: int)
    requires EntriesLive(core) && m < |core.matches|
    ensures EntriesLive(OnTimeout(cfg, core, m, now))
  {
    var d := core.(matches := core.matches[m := core.matches[m].(timerDue := None)]);
    assert EntriesLive(d);
    if HasActive(d, core.matches[m].rideId) {
      ResolveKeepsEntries(d, d.active[core.matches[m].rideId]);
    }
  }

  lemma StepKeepsEntries(c: Config, s: Sys, a: Timed)
    requires EntriesLive(s.core)
    ensures EntriesLive(Step(c, s, a).core)
  {
    if a.at >= s.now {
      match a.action
      case TimerFires(m) =>
        if m < |s.core.matches| {
          TimeoutKeepsEntries(c.matching, s.core, m, a.at);
        }
      case Reply(k) =>
        if k < |s.claims| && s.claims[k].matchId < |s.core.matches| {
          ResolveKeepsEntries(s.core, s.claims[k].matchId);
        }
      case CancelRide(r) =>
        if HasActive(s.core, r) {
          ResolveKeepsEntries(s.core, s.core.active[r]);
        }
      case _ =>
    }
  }

  lemma {:induction false} RunKeepsEntries(c: Config, start: int, actions: seq<Timed>)
    ensures EntriesLive(Run(c, start, actions).core)
  {
    if actions != [] {
      RunKeepsEntries(c, start, actions[..|actions| - 1]);
      StepKeepsEntries(c, Run(c, start, actions[..|actions| - 1]), actions[|actions| - 1]);
    }
  }

  // ------------------------------------------------------------------- how one begins

  /**
   * A start for a ride being matched changes nothing. Any other start exhausts the ride at once if there
   * are no zones, and else broadcasts round one of a new match, with its timer set, which the ride's entry names.
   */
  lemma StartBroadcastsOrExhausts(c: Config, s: Sys, at: int, r: string, ranked: seq<RankedZone>, startedAt: int)
    requires s.now <= at
    ensures var t := Step(c, s, Timed(at, Start(r, ranked, startedAt)));
      && t.claims == s.claims && t.keys == s.keys && t.core.registry == s.core.registry
      && if r in s.core.active then t.core == s.core
         else if ranked == [] then t.core.log == s.core.log + [Exhausted(r, at)] && t.core.active == s.core.active && t.core.matches == s.core.matches
         else
           var m := |s.core.matches|;
           && |t.core.matches| == m + 1 && t.core.matches[..m] == s.core.matches
           && IsLive(t.core, m) && t.core.matches[m].timerDue == Some(at + c.matching.offerMs) && t.core.matches[m].startedAt == startedAt
           && t.core.active == s.core.active[r := m]
           && |t.core.log| == |s.core.log| + 1 && s.core.log <= t.core.log
           && var e := t.core.log[|s.core.log|];
           e.OfferBroadcast? && e.matchId == m && e.rideId == r && e.round == 1 && e.at == at
  {
    if r !in s.core.active && ranked != [] {
      var m := |s.core.matches|;
      var d := s.core.(matches := s.core.matches + [Match(r, ranked, 0, startedAt, {}, None, false)], active := s.core.active[r := m]);
      var t := Step(c, s, Timed(at, Start(r, ranked, startedAt)));
      assert t.core == RunRound(c.matching, d, m, at);
      assert t.core.matches[..m] == d.matches[..m] == s.core.matches;
    }
  }

  // --------------------------------------------------------------------- how one ends

  /** Resolved, and named by no ride's entry. */
  predicate Retired(core: Core, m: nat) {
    && m < |core.matches| && core.matches[m].resolved
    && forall r :: r in core.active ==> core.active[r] != m
  }

  predicate Offers(e: Event, m: nat) {
    e.OfferBroadcast? && e.matchId == m
  }

  predicate Assigns(e: Event, m: nat) {
    e.Assigned? && e.matchId == m
  }

  predicate OffersSince(log: seq<Event>, from: nat, m: nat) {
    exists k :: from <= k < |log| && Offers(log[k], m)
  }

  predicate AssignsSince(log: seq<Event>, from: nat, m: nat) {
    exists k :: from <= k < |log| && Assigns(log[k], m)
  }

  /** Step a of a run in which m is retired is the reply that wins a claim on m. */
  predicate LateReply(c: Config, s: Sys, m: nat, a: Timed) {
    && a.at >= s.now && a.action.Reply? && a.action.claim < |s.claims|
    && var p := s.claims[a.action.claim];
    && p.matchId == m && p.phase.Won? && a.at - p.sentAt <= c.roundTripMs
  }

  /** A core step that leaves match m retired and makes it offer and assign nothing. */
  ghost predicate StaysRetired(a: Core, b: Core, m: nat) {
    && Retired(b, m) && a.log <= b.log
    && !OffersSince(b.log, |a.log|, m) && !AssignsSince(b.log, |a.log|, m)
  }

  lemma RetiredStart(cfg: MatchConfig, core: Core, m: nat, r: string, ranked: seq<RankedZone>, startedAt: int, now: int)
    requires Retired(core, m) && EntriesLive(core)
    ensures StaysRetired(core, StartMatching(cfg, core, r, ranked, startedAt, now), m)
  {
  }

  lemma RetiredTimeout(cfg: MatchConfig, core: Core, m: nat, i: nat, now: int)
    requires Retired(core, m) && EntriesLive(core) && i < |core.matches|
    ensures StaysRetired(core, OnTimeout(cfg, core, i, now), m)
  {
  }

  lemma RetiredStep(c: Config, s: Sys, m: nat, a: Timed)
    requires Retired(s.core, m) && EntriesLive(s.core)
    ensures var t := Step(c, s, a);
      && Retired(t.core, m) && s.core.log <= t.core.log
      && !OffersSince(t.core.log, |s.core.log|, m)
      && (AssignsSince(t.core.log, |s.core.log|, m) ==> LateReply(c, s, m, a))
      && |s.claims| <= |t.claims|
      && forall i :: |s.claims| <= i < |t.claims| ==> t.claims[i].matchId != m
  {
    LogGrows(c, s, a);
    if a.at >= s.now {
      match a.action
      case Start(r, ranked, startedAt) => RetiredStart(c.matching, s.core, m, r, ranked, startedAt, a.at);
      case TimerFires(i) =>
        if i < |s.core.matches| {
          RetiredTimeout(c.matching, s.core, m, i, a.at);
        }
      case _ =>
    }
  }

  lemma RunFromSnoc(c: Config, s: Sys, more: seq<Timed>, a: Timed)
    ensures RunFrom(c, s, more + [a]) == Step(c, RunFrom(c, s, more), a)
  {
    assert (more + [a])[..|more|] == more;
  }

  lemma {:induction false} RetiredRun(c: Config, s: Sys, m: nat, more: seq<Timed>)
    requires Retired(s.core, m) && EntriesLive(s.core)
    ensures var t := RunFrom(c, s, more);
      && Retired(t.core, m) && EntriesLive(t.core) && s.core.log <= t.core.log
      && !OffersSince(t.core.log, |s.core.log|, m)
      && |s.claims| <= |t.claims|
      && forall i :: |s.claims| <= i < |t.claims| ==> t.claims[i].matchId != m
  {
    if more != [] {
      var init, a := more[..|more| - 1], more[|more| - 1];
      RetiredRun(c, s, m, init);
      var t := RunFrom(c, s, init);
      RetiredStep(c, t, m, a);
      StepKeepsEntries(c, t, a);
      StepKeepsClaims(c, t, a);
    }
  }

  /** A claim keeps its match, ride, driver and time of sending. */
  lemma StepKeepsClaims(c: Config, s: Sys, a: Timed)
    ensures var t := Step(c, s, a);
      |s.claims| <= |t.claims| && forall i :: 0 <= i < |s.claims| ==> t.claims[i] == s.claims[i].(phase := t.claims[i].phase)
  {
  }

  /** The timer of a retired match does nothing any more. */
  lemma RetiredTimerIsSilent(c: Config, s: Sys, m: nat, at: int)
    requires Retired(s.core, m)
    ensures Step(c, s, Timed(at, TimerFires(m))).core.log == s.core.log
    ensures Step(c, s, Timed(at, TimerFires(m))).core.active == s.core.active
  {
  }

  /**
   * A cancel announces nothing and ends the match its ride's entry names for good: whatever follows, the
   * match never broadcasts again, no claim is sent for it, and its timer neither starts a round nor exhausts
   * the ride. The ride has no entry left, so that its next start begins another match.
   */
  lemma {:induction false} CancelEndsMatch(c: Config, start: int, actions: seq<Timed>, r: string, at: int, more: seq<Timed>)
    requires var s := Run(c, start, actions); s.now <= at && r in s.core.active
    ensures var s := Run(c, start, actions);
      var t := Step(c, s, Timed(at, CancelRide(r)));
      var u, m := RunFrom(c, t, more), s.core.active[r];
      && t.core.log == s.core.log && t.claims == s.claims && r !in t.core.active
      && s.core.log <= u.core.log && |s.claims| <= |u.claims|
      && (forall k :: |s.core.log| <= k < |u.core.log| ==> !(u.core.log[k].OfferBroadcast? && u.core.log[k].matchId == m))
      && (forall i :: |s.claims| <= i < |u.claims| ==> u.claims[i].matchId != m)
      && (forall later :: Step(c, u, Timed(later, TimerFires(m))).core.log == u.core.log)
  {
    var s := Run(c, start, actions);
    var t, m := Step(c, s, Timed(at, CancelRide(r))), s.core.active[r];
    RunKeepsEntries(c, start, actions);
    StepKeepsEntries(c, s, Timed(at, CancelRide(r)));
    assert Retired(t.core, m);
    RetiredRun(c, t, m, more);
    var u := RunFrom(c, t, more);
    forall k | |s.core.log| <= k < |u.core.log|
      ensures !(u.core.log[k].OfferBroadcast? && u.core.log[k].matchId == m)
    {
      assert !OffersSince(u.core.log, |t.core.log|, m);
      assert !Offers(u.core.log[k], m);
    }
    forall later
      ensures Step(c, u, Timed(later, TimerFires(m))).core.log == u.core.log
    {
      RetiredTimerIsSilent(c, u, m, later);
    }
  }

  /** A cancel of a ride without an entry changes nothing but the clock. */
  lemma CancelWithoutEntry(c: Config, s: Sys, r: string, at: int)
    requires s.now <= at && r !in s.core.active
    ensures Step(c, s, Timed(at, CancelRide(r))) == s.(now := at)
  {
  }

  // ------------------------------------------------------- what a cancel cannot stop

  /**
   * The claim can still win: its reply would be in time, and it has its key, or is yet to set it and the
   * key is free, or will be before the reply is due.
   */
  predicate CanStillWin(c: Config, s: Sys, p: PendingClaim) {
    && s.now <= p.sentAt + c.roundTripMs
    && (p.phase.Won? || (p.phase.Sent? && (p.rideId in s.keys ==> s.keys[p.rideId].expiresAt <= p.sentAt + c.roundTripMs)))
  }

  ghost predicate NoneCanWin(c: Config, s: Sys, m: nat) {
    forall i :: 0 <= i < |s.claims| && s.claims[i].matchId == m ==> !CanStillWin(c, s, s.claims[i])
  }

  lemma LosersStayLosers(c: Config, s: Sys, m: nat, a: Timed)
    requires Retired(s.core, m) && EntriesLive(s.core) && NoneCanWin(c, s, m)
    ensures NoneCanWin(c, Step(c, s, a), m) && !LateReply(c, s, m, a)
  {
    var t := Step(c, s, a);
    RetiredStep(c, s, m, a);
    if a.at >= s.now {
      forall i | 0 <= i < |t.claims| && t.claims[i].matchId == m
        ensures !CanStillWin(c, t, t.claims[i])
      {
        assert i < |s.claims| && !CanStillWin(c, s, s.claims[i]);
      }
    }
  }

  lemma {:induction false} NoneWinsLater(c: Config, s: Sys, m: nat, more: seq<Timed>)
    requires Retired(s.core, m) && EntriesLive(s.core) && NoneCanWin(c, s, m)
    ensures var t := RunFrom(c, s, more);
      && NoneCanWin(c, t, m) && s.core.log <= t.core.log && !AssignsSince(t.core.log, |s.core.log|, m)
  {
    if more != [] {
      var init, a := more[..|more| - 1], more[|more| - 1];
      var t, u := RunFrom(c, s, init), RunFrom(c, s, more);
      NoneWinsLater(c, s, m, init);
      RetiredRun(c, s, m, init);
      RetiredStep(c, t, m, a);
      LosersStayLosers(c, t, m, a);
      forall k | |s.core.log| <= k < |u.core.log|
        ensures !Assigns(u.core.log[k], m)
      {
        assert k < |t.core.log| ==> u.core.log[k] == t.core.log[k];
      }
    }
  }

  /** A registry in which the driver can be assigned. */
  function RegistryWith(driverId: string): Registry {
    Registry([driverId], map[driverId := DriverState(Some("v"), true, false)], map["v" := "z"], map[])
  }

  lemma WonClaimIsAssigned(c: Config, s: Sys, i: nat)
    requires i < |s.claims| && s.claims[i].phase.Won? && s.now <= s.claims[i].sentAt + c.roundTripMs
    requires s.claims[i].matchId < |s.core.matches|
    ensures var t := RunFrom(c, s, [Timed(s.now, ChangeRegistry(RegistryWith(s.claims[i].driverId))), Timed(s.now, Reply(i))]);
      s.core.log <= t.core.log && AssignsSince(t.core.log, |s.core.log|, s.claims[i].matchId)
  {
    var p := s.claims[i];
    var a1, a2 := Timed(s.now, ChangeRegistry(RegistryWith(p.driverId))), Timed(s.now, Reply(i));
    RunFromSnoc(c, s, [], a1);
    RunFromSnoc(c, s, [] + [a1], a2);
    assert [] + [a1] + [a2] == [a1, a2];
    var u := Step(c, s, a1);
    assert AssignmentFor(u.core.registry, p.driverId) == Some(EligibleDriver(p.driverId, "v", "z"));
    var t := Step(c, u, a2);
    assert t.core.log[|s.core.log|].Assigned?;
    assert Assigns(t.core.log[|s.core.log|], p.matchId);
  }

  lemma RunFromConcat(c: Config, s: Sys, a: Timed, more: seq<Timed>)
    ensures RunFrom(c, s, [a] + more) == RunFrom(c, Step(c, s, a), more)
  {
    if more == [] {
      RunFromSnoc(c, s, [], a);
      assert [] + [a] == [a] + more;
    } else {
      var init := more[..|more| - 1];
      RunFromConcat(c, s, a, init);
      assert ([a] + more)[..|more|] == [a] + init;
    }
  }

  /** A claim that can still win is assigned in some continuation. */
  lemma WinnerExists(c: Config, s: Sys, i: nat) returns (more: seq<Timed>)
    requires i < |s.claims| && CanStillWin(c, s, s.claims[i]) && s.claims[i].matchId < |s.core.matches|
    ensures AssignsSince(RunFrom(c, s, more).core.log, |s.core.log|, s.claims[i].matchId)
  {
    var p := s.claims[i];
    if p.phase.Won? {
      WonClaimIsAssigned(c, s, i);
      more := [Timed(s.now, ChangeRegistry(RegistryWith(p.driverId))), Timed(s.now, Reply(i))];
    } else {
      var at := if p.rideId in s.keys && s.keys[p.rideId].expiresAt > s.now then s.keys[p.rideId].expiresAt else s.now;
      var a := Timed(at, SetKey(i));
      var u := Step(c, s, a);
      assert u.claims[i] == p.(phase := Won(at)) && u.core == s.core && u.now == at;
      WonClaimIsAssigned(c, u, i);
      more := [Timed(at, ChangeRegistry(RegistryWith(p.driverId))), Timed(at, Reply(i))];
      RunFromConcat(c, s, a, more);
      more := [a] + more;
    }
  }

  /** In no continuation does match m publish dispatch.assigned past an index of the log. */
  ghost predicate NeverAssigns(c: Config, s: Sys, from: nat, m: nat) {
    forall more :: !AssignsSince(RunFrom(c, s, more).core.log, from, m)
  }

  /**
   * A cancelled ride is never assigned by the match it had exactly if, at the cancel, no claim on that match
   * can still win: a claim sent before goes through, for nothing looks at the match again after the key.
   */
  lemma {:induction false} CancelIsFinalExactly(c: Config, start: int, actions: seq<Timed>, r: string, at: int)
    requires var s := Run(c, start, actions); s.now <= at && r in s.core.active
    ensures var s := Run(c, start, actions);
      NeverAssigns(c, Step(c, s, Timed(at, CancelRide(r))), |s.core.log|, s.core.active[r]) <==>
      NoneCanWin(c, s.(now := at), s.core.active[r])
  {
    var s := Run(c, start, actions);
    var t, m := Step(c, s, Timed(at, CancelRide(r))), s.core.active[r];
    RunKeepsEntries(c, start, actions);
    StepKeepsEntries(c, s, Timed(at, CancelRide(r)));
    assert Retired(t.core, m) && t.claims == s.claims && t.keys == s.keys && t.core.log == s.core.log && t.now == at;
    if NoneCanWin(c, s.(now := at), m) {
      assert NoneCanWin(c, t, m);
      forall more
        ensures !AssignsSince(RunFrom(c, t, more).core.log, |s.core.log|, m)
      {
        NoneWinsLater(c, t, m, more);
      }
    } else {
      var i :| 0 <= i < |s.claims| && s.claims[i].matchId == m && CanStillWin(c, s.(now := at), s.claims[i]);
      assert CanStillWin(c, t, t.claims[i]);
      var more := WinnerExists(c, t, i);
      assert AssignsSince(RunFrom(c, t, more).core.log, |s.core.log|, m);
    }
  }

  /** Such a claim exists: for every configuration a ride cancelled in mid-claim is assigned after all. */
  lemma CancelledRideIsAssigned(c: Config) returns (actions: seq<Timed>, more: seq<Timed>)
    requires c.matching.initialZones >= 1 && c.matching.maxZones >= 1 && c.roundTripMs >= 0
    ensures var s := Run(c, 0, actions);
      && s.now == 0 && "r" in s.core.active
      && AssignsSince(RunFrom(c, Step(c, s, Timed(0, CancelRide("r"))), more).core.log, |s.core.log|, s.core.active["r"])
  {
    var before := OfferBoth(c);
    var a := Timed(0, Check("r", "a"));
    RunSnoc(c, 0, before, a);
    actions := before + [a];
    var s := Run(c, 0, actions);
    assert s.claims == [CLAIM_A];
    more := WinnerExists(c, Step(c, s, Timed(0, CancelRide("r"))), 0);
  }

  // ----------------------------------------------------------- who can claim a match

  /** A driver's Accept sends a claim exactly if the ride is being matched and some broadcast of its match listed the driver. */
  lemma {:induction false} CheckSendsExactly(c: Config, start: int, actions: seq<Timed>, at: int, r: string, d: string)
    requires Run(c, start, actions).now <= at
    ensures var s := Run(c, start, actions);
      var t := Step(c, s, Timed(at, Check(r, d)));
      && t.core == s.core && t.keys == s.keys
      && t.claims == if r in s.core.active && WasOffered(s.core, s.core.active[r], d)
                     then s.claims + [PendingClaim(s.core.active[r], r, d, at, Sent)] else s.claims
  {
    var s := Run(c, start, actions);
    RunKeepsEntries(c, start, actions);
    if r in s.core.active {
      OffersAreTheBroadcasts(c, start, actions, s.core.active[r]);
    }
  }

  // ----------------------------------------------------------- what an assignment ends

  /** Every match that has published dispatch.assigned is retired. */
  ghost predicate AssignedAreRetired(core: Core) {
    forall k {:trigger core.log[k]} :: 0 <= k < |core.log| && core.log[k].Assigned? ==> Retired(core, core.log[k].matchId)
  }

  lemma {:induction false} StepKeepsAssignedRetired(c: Config, s: Sys, a: Timed)
    requires EntriesLive(s.core) && AssignedAreRetired(s.core)
    ensures AssignedAreRetired(Step(c, s, a).core)
  {
    var t := Step(c, s, a);
    LogGrows(c, s, a);
    forall k | 0 <= k < |t.core.log| && t.core.log[k].Assigned?
      ensures Retired(t.core, t.core.log[k].matchId)
    {
      if k < |s.core.log| {
        RetiredStep(c, s, s.core.log[k].matchId, a);
      }
    }
  }

  /**
   * Once a match has published dispatch.assigned it broadcasts no more: its timer is silent, its ride has
   * no entry that names it, and every broadcast of it came before.
   */
  lemma {:induction false} AssignmentEndsMatch(c: Config, start: int, actions: seq<Timed>)
    ensures var core := Run(c, start, actions).core;
      && AssignedAreRetired(core)
      && forall j, k :: 0 <= j < k < |core.log| && core.log[j].Assigned? ==> !Offers(core.log[k], core.log[j].matchId)
  {
    if actions != [] {
      var s, a := Run(c, start, actions[..|actions| - 1]), actions[|actions| - 1];
      AssignmentEndsMatch(c, start, actions[..|actions| - 1]);
      RunKeepsEntries(c, start, actions[..|actions| - 1]);
      StepKeepsAssignedRetired(c, s, a);
      var t := Step(c, s, a);
      LogGrows(c, s, a);
      forall j, k | 0 <= j < k < |t.core.log| && t.core.log[j].Assigned?
        ensures !Offers(t.core.log[k], t.core.log[j].matchId)
      {
        if |s.core.log| <= k {
          AtMostOneEvent(c, s, a);
          RetiredStep(c, s, s.core.log[j].matchId, a);
          assert !OffersSince(t.core.log, |s.core.log|, s.core.log[j].matchId);
        }
      }
    }
  }

  lemma AtMostOneEvent(c: Config, s: Sys, a: Timed)
    ensures |Step(c, s, a).core.log| <= |s.core.log| + 1
  {
  }

  /**
   * The reply to a won claim, in time and with a driver who has a paired vehicle, announces exactly that
   * driver and vehicle for the ride; the driver is on a ride, offered to nobody, from then on, and no other
   * driver's state changes. Without a vehicle the claim is lost and nothing changes.
   */
  lemma WonReplyAssignsExactly(c: Config, start: int, actions: seq<Timed>, at: int, i: nat)
    requires var s := Run(c, start, actions);
      && s.now <= at && i < |s.claims| && s.claims[i].phase.Won? && at - s.claims[i].sentAt <= c.roundTripMs
      && s.claims[i].matchId < |s.core.matches|
    ensures var s := Run(c, start, actions);
      var t, p := Step(c, s, Timed(at, Reply(i))), s.claims[i];
      var x := AssignmentFor(s.core.registry, p.driverId);
      if x.None? then t.core == s.core && t.claims == s.claims[i := p.(phase := Dropped)]
      else
        && t.core.log == s.core.log + [Assigned(p.matchId, p.rideId, p.driverId, x.value.vehicleId, s.core.matches[p.matchId].round, at)]
        && t.claims == s.claims[i := p.(phase := Published(p.phase.setAt, at))]
        && Retired(t.core, p.matchId) && t.core.active == s.core.active - {s.core.matches[p.matchId].rideId}
        && (forall zones :: !Eligible(t.core.registry, p.driverId, zones))
        && (forall d, zones :: d != p.driverId ==> (Eligible(t.core.registry, d, zones) <==> Eligible(s.core.registry, d, zones)))
  {
    RunKeepsEntries(c, start, actions);
  }
}
