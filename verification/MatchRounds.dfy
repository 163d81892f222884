/**
 * How a match proceeds from round to round, in every run of ClaimProtocol: how many rounds it can
 * have, how it ends, and whom its rounds offered the ride to.
 */
module MatchRounds {
  import opened Wrappers
  import opened ZoneSelection
  import opened DriverRegistry
  import opened Matching
  import opened ClaimProtocol

  /** No match starts in the future, and every registry is one the setters can build. */
  ghost predicate Sound(actions: seq<Timed>) {
    forall i :: 0 <= i < |actions| ==> SoundStep(actions[i])
  }

  ghost predicate SoundStep(a: Timed) {
    && (a.action.Start? ==> a.action.startedAt <= a.at)
    && (a.action.ChangeRegistry? ==> WellFormed(a.action.registry))
  }

  // ------------------------------------------------------------------ how many rounds

  /** Each round took a full offer window so far, and a second round was only begun with time for it. */
  predicate MatchOk(cfg: MatchConfig, x: Match, now: int) {
    && x.round >= 1 && x.startedAt <= now
    && (x.timerDue.Some? ==> x.startedAt + x.round * cfg.offerMs <= x.timerDue.value)
    && (x.round >= 2 ==> x.round * cfg.offerMs <= cfg.maxTotalWaitMs)
  }

  /** The entry of a ride names a match of that ride which is unresolved and waits for its timer. */
  predicate ActiveMatchOk(core: Core, r: string)
    requires r in core.active
  {
    && core.active[r] < |core.matches|
    && var x := core.matches[core.active[r]];
    x.rideId == r && !x.resolved && x.timerDue.Some?
  }

  ghost predicate CoreOk(cfg: MatchConfig, core: Core, now: int) {
    && (forall m :: 0 <= m < |core.matches| ==> MatchOk(cfg, core.matches[m], now))
    && (forall r :: r in core.active ==> ActiveMatchOk(core, r))
  }

  lemma ExhaustKeepsCoreOk(cfg: MatchConfig, core: Core, rideId: string, now: int)
    requires CoreOk(cfg, core, now)
    ensures CoreOk(cfg, Exhaust(core, rideId, now), now)
  {
  }

  lemma ResolveKeepsCoreOk(cfg: MatchConfig, core: Core, m: nat, now: int)
    requires CoreOk(cfg, core, now) && m < |core.matches|
    ensures CoreOk(cfg, Resolve(core, m), now)
  {
    var d := Resolve(core, m);
    forall r | r in d.active
      ensures ActiveMatchOk(d, r)
    {
      assert ActiveMatchOk(core, r);
    }
  }

  lemma NextSpan(round: nat, offerMs: int)
    ensures (round + 1) * offerMs == round * offerMs + offerMs
  {
  }

  lemma RoundKeepsCoreOk(cfg: MatchConfig, core: Core, m: nat, now: int)
    requires m < |core.matches|
    requires var x := core.matches[m];
      && !x.resolved && x.startedAt <= now && x.startedAt + x.round * cfg.offerMs <= now
      && (x.round >= 1 ==> (x.round + 1) * cfg.offerMs <= cfg.maxTotalWaitMs)
    requires forall i :: 0 <= i < |core.matches| && i != m ==> MatchOk(cfg, core.matches[i], now)
    requires forall r :: r in core.active ==> if core.active[r] == m then core.matches[m].rideId == r else ActiveMatchOk(core, r)
    ensures CoreOk(cfg, RunRound(cfg, core, m, now), now)
  {
    NextSpan(core.matches[m].round, cfg.offerMs);
  }

  lemma StartKeepsCoreOk(cfg: MatchConfig, core: Core, rideId: string, ranked: seq<RankedZone>, startedAt: int, now: int)
    requires CoreOk(cfg, core, now) && startedAt <= now
    ensures CoreOk(cfg, StartMatching(cfg, core, rideId, ranked, startedAt, now), now)
  {
    if rideId !in core.active {
      ExhaustKeepsCoreOk(cfg, core, rideId, now);
      var m := |core.matches|;
      var d := core.(matches := core.matches + [Match(rideId, ranked, 0, startedAt, {}, None, false)], active := core.active[rideId := m]);
      forall r | r in d.active && r != rideId
        ensures d.active[r] != m && ActiveMatchOk(d, r)
      {
        assert ActiveMatchOk(core, r);
      }
      RoundKeepsCoreOk(cfg, d, m, now);
    }
  }

  lemma TimeoutKeepsCoreOk(cfg: MatchConfig, core: Core, m: nat, now: int)
    requires CoreOk(cfg, core, now) && m < |core.matches|
    requires core.matches[m].timerDue.Some? && core.matches[m].timerDue.value <= now
    ensures CoreOk(cfg, OnTimeout(cfg, core, m, now), now)
  {
    var x := core.matches[m];
    var d := core.(matches := core.matches[m := x.(timerDue := None)]);
    assert MatchOk(cfg, x, now);
    NextSpan(x.round, cfg.offerMs);
    forall r | r in d.active
      ensures if d.active[r] == m then d.matches[m].rideId == r && !x.resolved else ActiveMatchOk(d, r)
    {
      assert ActiveMatchOk(core, r);
    }
    if !x.resolved && ShouldContinue(now - x.startedAt, Params(cfg, |x.ranked|)) {
      RoundKeepsCoreOk(cfg, d, m, now);
    }
  }

  lemma CompleteKeepsCoreOk(cfg: MatchConfig, core: Core, m: nat, rideId: string, driverId: string, now: int)
    requires CoreOk(cfg, core, now) && m < |core.matches|
    ensures CoreOk(cfg, CompleteClaim(core, m, rideId, driverId, now).0, now)
  {
    ResolveKeepsCoreOk(cfg, core, m, now);
    var d, e := Resolve(core, m), CompleteClaim(core, m, rideId, driverId, now).0;
    assert e == core || (e.matches == d.matches && e.active == d.active);
    if e != core {
      forall r | r in e.active
        ensures ActiveMatchOk(e, r)
      {
        assert ActiveMatchOk(d, r);
      }
    }
  }

  lemma {:induction false} StepKeepsCoreOk(c: Config, s: Sys, a: Timed)
    requires CoreOk(c.matching, s.core, s.now) && SoundStep(a)
    ensures var t := Step(c, s, a); CoreOk(c.matching, t.core, t.now) && s.now <= t.now
  {
    if a.at >= s.now {
      var u := s.(now := a.at);
      assert CoreOk(c.matching, u.core, u.now);
      match a.action
      case Start(rideId, ranked, startedAt) => StartKeepsCoreOk(c.matching, u.core, rideId, ranked, startedAt, u.now);
      case TimerFires(m) =>
        if m < |u.core.matches| && u.core.matches[m].timerDue.Some? && u.core.matches[m].timerDue.value <= u.now {
          TimeoutKeepsCoreOk(c.matching, u.core, m, u.now);
        }
      case Check(rideId, driverId) =>
      case SetKey(k) =>
      case Reply(k) =>
        if k < |u.claims| && u.claims[k].matchId < |u.core.matches| {
          CompleteKeepsCoreOk(c.matching, u.core, u.claims[k].matchId, u.claims[k].rideId, u.claims[k].driverId, u.now);
        }
      case CancelRide(rideId) =>
        if HasActive(u.core, rideId) {
          ResolveKeepsCoreOk(c.matching, u.core, u.core.active[rideId], u.now);
        }
      case ChangeRegistry(registry) =>
        forall r | r in u.core.active
          ensures ActiveMatchOk(u.core.(registry := registry), r)
        {
          assert ActiveMatchOk(u.core, r);
        }
    }
  }

  lemma {:induction false} RunKeepsCoreOk(c: Config, start: int, actions: seq<Timed>)
    requires Sound(actions)
    ensures var s := Run(c, start, actions); CoreOk(c.matching, s.core, s.now)
  {
    if actions != [] {
      RunKeepsCoreOk(c, start, actions[..|actions| - 1]);
      StepKeepsCoreOk(c, Run(c, start, actions[..|actions| - 1]), actions[|actions| - 1]);
    }
  }

  /** The most rounds a match can have. */
  function RoundLimit(cfg: MatchConfig): int
    requires cfg.offerMs > 0
  {
    if cfg.maxTotalWaitMs / cfg.offerMs < 1 then 1 else cfg.maxTotalWaitMs / cfg.offerMs
  }

  lemma {:induction false} WithinLimit(cfg: MatchConfig, x: Match, now: int)
    requires cfg.offerMs > 0 && MatchOk(cfg, x, now)
    ensures 1 <= x.round <= RoundLimit(cfg)
  {
    if x.round >= 2 {
      QuotientBound(x.round, cfg.offerMs, cfg.maxTotalWaitMs);
    }
  }

  lemma QuotientBound(n: nat, d: int, total: int)
    requires d > 0 && n * d <= total
    ensures n <= total / d
  {
    var q := total / d;
    assert total < (q + 1) * d;
    CancelFactor(n, q + 1, d);
  }

  lemma CancelFactor(a: int, b: int, d: int)
    requires a * d < b * d && d > 0
    ensures a < b
  {
    assert (b - a) * d > 0;
  }

  /** No match, cancelled, claimed, exhausted or none of these, ever has more rounds than fit into the total wait. */
  lemma {:induction false} RoundsAreBounded(c: Config, start: int, actions: seq<Timed>, m: nat)
    requires Sound(actions) && c.matching.offerMs > 0
    ensures var s := Run(c, start, actions); m < |s.core.matches| ==> 1 <= s.core.matches[m].round <= RoundLimit(c.matching)
  {
    var s := Run(c, start, actions);
    RunKeepsCoreOk(c, start, actions);
    if m < |s.core.matches| {
      WithinLimit(c.matching, s.core.matches[m], s.now);
    }
  }

  // ---------------------------------------------------------------------- how it ends

  predicate IsActive(core: Core, m: nat) {
    m < |core.matches| && core.matches[m].rideId in core.active && core.active[core.matches[m].rideId] == m
  }

  /** A step that fires match m's timer. */
  predicate Fires(s: Sys, m: nat, a: Timed) {
    && a.action == TimerFires(m) && s.now <= a.at && m < |s.core.matches|
    && s.core.matches[m].timerDue.Some? && s.core.matches[m].timerDue.value <= a.at
  }

  /** Unresolved, with its timer armed; its ride's entry may name it, or another match, or be gone. */
  predicate IsLive(core: Core, m: nat) {
    m < |core.matches| && !core.matches[m].resolved && core.matches[m].timerDue.Some?
  }

  /** A step that cancels match m, or assigns it: the reply to a won claim on m whose driver can be assigned. */
  predicate ClaimsOrCancels(s: Sys, m: nat, a: Timed) {
    match a.action
    case CancelRide(r) => IsActive(s.core, m) && s.core.matches[m].rideId == r
    case Reply(k) =>
      k < |s.claims| && s.claims[k].phase.Won? && s.claims[k].matchId == m
      && AssignmentFor(s.core.registry, s.claims[k].driverId).Some?
    case _ => false
  }

  function RunFrom(c: Config, s: Sys, more: seq<Timed>): Sys {
    if more == [] then s else Step(c, RunFrom(c, s, more[..|more| - 1]), more[|more| - 1])
  }

  /** How often match m's timer fires. */
  function Firings(c: Config, s: Sys, m: nat, more: seq<Timed>): nat {
    if more == [] then 0
    else
      var init, a := more[..|more| - 1], more[|more| - 1];
      Firings(c, s, m, init) + if Fires(RunFrom(c, s, init), m, a) then 1 else 0
  }

  predicate NeverClaimedNorCancelled(c: Config, s: Sys, m: nat, more: seq<Timed>) {
    more == [] ||
    var init := more[..|more| - 1];
    NeverClaimedNorCancelled(c, s, m, init) && !ClaimsOrCancels(RunFrom(c, s, init), m, more[|more| - 1])
  }

  predicate ExhaustedSince(core: Core, from: nat, rideId: string) {
    exists k :: from <= k < |core.log| && core.log[k].Exhausted? && core.log[k].rideId == rideId
  }

  lemma LogGrows(c: Config, s: Sys, a: Timed)
    ensures s.core.log <= Step(c, s, a).core.log
  {
    if a.at >= s.now {
      var u := s.(now := a.at);
      match a.action
      case Start(rideId, ranked, startedAt) => StartGrows(c.matching, u.core, rideId, ranked, startedAt, u.now);
      case TimerFires(m) =>
        if m < |u.core.matches| {
          TimeoutGrows(c.matching, u.core, m, u.now);
        }
      case Check(rideId, driverId) =>
      case SetKey(k) =>
      case Reply(k) =>
      case CancelRide(rideId) =>
      case ChangeRegistry(registry) =>
    }
  }

  /** Its own timer starts exactly the next round, re-armed, while an offer window is left, and exhausts the ride after. */
  lemma TimeoutContinuesOrExhausts(c: Config, s: Sys, m: nat, a: Timed)
    requires CoreOk(c.matching, s.core, s.now) && IsActive(s.core, m) && Fires(s, m, a)
    ensures var x, t := s.core.matches[m], Step(c, s, a);
      m < |t.core.matches| &&
      if a.at - x.startedAt + c.matching.offerMs <= c.matching.maxTotalWaitMs then
        && t.core.matches[m] == x.(round := x.round + 1, offered := t.core.matches[m].offered, timerDue := Some(a.at + c.matching.offerMs))
        && IsActive(t.core, m) && t.core.active == s.core.active
        && |t.core.log| == |s.core.log| + 1 && s.core.log <= t.core.log && t.core.log[|s.core.log|].OfferBroadcast?
      else
        && t.core.matches[m] == x.(resolved := true, timerDue := None)
        && t.core.active == s.core.active - {x.rideId} && t.core.log == s.core.log + [Exhausted(x.rideId, a.at)]
  {
    assert ActiveMatchOk(s.core, s.core.matches[m].rideId);
  }

  lemma OwnTimerGoesOnOrExhausts(c: Config, s: Sys, m: nat, a: Timed)
    requires IsLive(s.core, m) && Fires(s, m, a)
    ensures var x, t := s.core.matches[m], Step(c, s, a);
      ExhaustedSince(t.core, |s.core.log|, x.rideId)
      || (IsLive(t.core, m) && t.core.matches[m].rideId == x.rideId && t.core.matches[m].round == x.round + 1)
  {
    var x, t := s.core.matches[m], Step(c, s, a);
    if !ShouldContinue(a.at - x.startedAt, Params(c.matching, |x.ranked|)) {
      assert t.core.log[|s.core.log|] == Exhausted(x.rideId, a.at);
    }
  }

  /** Another match's timer resolves m only by exhausting their common ride. */
  lemma OtherTimerLeavesOrExhausts(cfg: MatchConfig, core: Core, m: nat, i: nat, now: int)
    requires CoreOk(cfg, core, now) && IsLive(core, m) && i < |core.matches| && i != m
    ensures var d := OnTimeout(cfg, core, i, now);
      ExhaustedSince(d, |core.log|, core.matches[m].rideId) || (IsLive(d, m) && d.matches[m] == core.matches[m])
  {
    var d, rideId := OnTimeout(cfg, core, i, now), core.matches[i].rideId;
    if rideId in core.active && core.active[rideId] == m {
      assert ActiveMatchOk(core, rideId);
      if d.matches[m] != core.matches[m] {
        assert d.log[|core.log|] == Exhausted(rideId, now);
      }
    }
  }

  lemma OtherStepsLeaveOrExhaust(c: Config, s: Sys, m: nat, a: Timed)
    requires CoreOk(c.matching, s.core, s.now) && IsLive(s.core, m) && !Fires(s, m, a) && !ClaimsOrCancels(s, m, a)
    ensures var t := Step(c, s, a);
      ExhaustedSince(t.core, |s.core.log|, s.core.matches[m].rideId) || (IsLive(t.core, m) && t.core.matches[m] == s.core.matches[m])
  {
    if a.at >= s.now {
      var u := s.(now := a.at);
      match a.action
      case Start(r, ranked, startedAt) =>
      case TimerFires(i) =>
        if i != m && i < |u.core.matches| && u.core.matches[i].timerDue.Some? && u.core.matches[i].timerDue.value <= u.now {
          OtherTimerLeavesOrExhausts(c.matching, u.core, m, i, u.now);
        }
      case Check(r, driverId) =>
      case SetKey(k) =>
      case Reply(k) =>
      case CancelRide(r) =>
        if HasActive(u.core, r) {
          assert ActiveMatchOk(u.core, r);
        }
      case ChangeRegistry(registry) =>
    }
  }

  lemma {:induction false} RoundsCountFirings(c: Config, s: Sys, m: nat, more: seq<Timed>)
    requires CoreOk(c.matching, s.core, s.now) && IsLive(s.core, m) && Sound(more) && NeverClaimedNorCancelled(c, s, m, more)
    ensures var t := RunFrom(c, s, more);
      && CoreOk(c.matching, t.core, t.now) && s.core.log <= t.core.log
      && (ExhaustedSince(t.core, |s.core.log|, s.core.matches[m].rideId)
          || (IsLive(t.core, m) && t.core.matches[m].rideId == s.core.matches[m].rideId
              && t.core.matches[m].round == s.core.matches[m].round + Firings(c, s, m, more)))
  {
    if more != [] {
      var init, a := more[..|more| - 1], more[|more| - 1];
      RoundsCountFirings(c, s, m, init);
      var t := RunFrom(c, s, init);
      var u := Step(c, t, a);
      StepKeepsCoreOk(c, t, a);
      LogGrows(c, t, a);
      var rideId := s.core.matches[m].rideId;
      if ExhaustedSince(t.core, |s.core.log|, rideId) {
        var k :| |s.core.log| <= k < |t.core.log| && t.core.log[k].Exhausted? && t.core.log[k].rideId == rideId;
        assert u.core.log[k] == t.core.log[k];
      } else if Fires(t, m, a) {
        OwnTimerGoesOnOrExhausts(c, t, m, a);
      } else {
        OtherStepsLeaveOrExhaust(c, t, m, a);
      }
    }
  }

  /**
   * A match that is neither claimed nor cancelled is exhausted once its timer has fired as often as it
   * has rounds left and once more, however late the timer is and whatever else goes on in between:
   * lost claims, replies for earlier matches of the ride and their timers included.
   */
  lemma {:induction false} UnclaimedMatchIsExhausted(c: Config, start: int, actions: seq<Timed>, m: nat, more: seq<Timed>)
    requires c.matching.offerMs > 0 && Sound(actions) && Sound(more)
    requires var s := Run(c, start, actions);
      && IsLive(s.core, m) && NeverClaimedNorCancelled(c, s, m, more)
      && Firings(c, s, m, more) > RoundLimit(c.matching) - s.core.matches[m].round
    ensures var s := Run(c, start, actions);
      ExhaustedSince(RunFrom(c, s, more).core, |s.core.log|, s.core.matches[m].rideId)
  {
    var s := Run(c, start, actions);
    RunKeepsCoreOk(c, start, actions);
    RoundsCountFirings(c, s, m, more);
    var t := RunFrom(c, s, more);
    if !ExhaustedSince(t.core, |s.core.log|, s.core.matches[m].rideId) {
      WithinLimit(c.matching, t.core.matches[m], t.now);
    }
  }
}
