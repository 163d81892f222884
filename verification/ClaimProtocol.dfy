/**
 * Dispatch under every interleaving: each claim is checked, sets its Redis key and hears back
 * in three separate steps, and rounds, cancels, rematches and registry changes fall anywhere
 * between them. One clock serves Dispatch and Redis.
 */
module ClaimProtocol {
  import opened Wrappers
  import opened Sums
  import opened ZoneSelection
  import opened DriverRegistry
  import opened Matching
  import opened ClaimStore

  /** Where one call of claim stands; Published keeps when its key was set and when it published. */
  datatype Phase =
    | Sent
    | Won(setAt: int)
    | Refused
    | Dropped
    | Published(setAt: int, publishedAt: int)

  datatype PendingClaim = PendingClaim(matchId: nat, rideId: string, driverId: string, sentAt: int, phase: Phase)

  /** roundTripMs bounds the time from sending a command to Redis to acting on its reply. */
  datatype Config = Config(matching: MatchConfig, roundTripMs: int)

  const TTL_MS := 5000

  datatype Sys = Sys(now: int, core: Core, keys: map<string, Claim>, claims: seq<PendingClaim>)

  datatype Action =
    | Start(rideId: string, ranked: seq<RankedZone>, startedAt: int)
    | TimerFires(matchId: nat)
    | Check(rideId: string, driverId: string)
    | SetKey(claim: nat)
    | Reply(claim: nat)
    | CancelRide(rideId: string)
    | ChangeRegistry(registry: Registry)

  datatype Timed = Timed(at: int, action: Action)

  function Init(start: int): Sys {
    Sys(start, Core(map[], [], [], Registry([], map[], map[], map[])), map[], [])
  }

  function Act(c: Config, s: Sys, a: Action): Sys {
    match a
    case Start(rideId, ranked, startedAt) =>
      s.(core := StartMatching(c.matching, s.core, rideId, ranked, startedAt, s.now))
    case TimerFires(m) =>
      if m < |s.core.matches| && s.core.matches[m].timerDue.Some? && s.core.matches[m].timerDue.value <= s.now then
        s.(core := OnTimeout(c.matching, s.core, m, s.now))
      else s
    case Check(rideId, driverId) =>
      (match BeginClaim(s.core, rideId, driverId)
       case None => s
       case Some(m) => s.(claims := s.claims + [PendingClaim(m, rideId, driverId, s.now, Sent)]))
    case SetKey(k) =>
      if k >= |s.claims| || s.claims[k].phase != Sent then s
      else if HolderAt(s.keys, s.claims[k].rideId, s.now).Some? then
        s.(claims := s.claims[k := s.claims[k].(phase := Refused)])
      else
        s.(keys := s.keys[s.claims[k].rideId := Claim(s.claims[k].driverId, s.now + TTL_MS)],
           claims := s.claims[k := s.claims[k].(phase := Won(s.now))])
    case Reply(k) =>
      if k >= |s.claims| || s.claims[k].matchId >= |s.core.matches| || s.now - s.claims[k].sentAt > c.roundTripMs then s
      else (match s.claims[k].phase
        case Won(setAt) =>
          var p := s.claims[k];
          var (core, outcome) := CompleteClaim(s.core, p.matchId, p.rideId, p.driverId, s.now);
          s.(core := core, claims := s.claims[k := p.(phase := if outcome == Lost then Dropped else Published(setAt, s.now))])
        case Refused => s.(claims := s.claims[k := s.claims[k].(phase := Dropped)])
        case _ => s)
    case CancelRide(rideId) => s.(core := Cancel(s.core, rideId))
    case ChangeRegistry(registry) => s.(core := s.core.(registry := registry))
  }

  /** The clock never runs back; a step stamped earlier than now does not happen. */
  function Step(c: Config, s: Sys, a: Timed): Sys {
    if a.at < s.now then s else Act(c, s.(now := a.at), a.action)
  }

  function Run(c: Config, start: int, actions: seq<Timed>): Sys {
    if actions == [] then Init(start) else Step(c, Run(c, start, actions[..|actions| - 1]), actions[|actions| - 1])
  }

  // -------------------------------------------------------------------- counting

  function AssignedFor(m: nat): Event -> int {
    (e: Event) => if e.Assigned? && e.matchId == m then 1 else 0
  }

  function PublishedFor(m: nat): PendingClaim -> int {
    (p: PendingClaim) => if p.phase.Published? && p.matchId == m then 1 else 0
  }

  /** How often a match published dispatch.assigned. */
  function Assignments(s: Sys, m: nat): int {
    Sum(s.core.log, AssignedFor(m))
  }

  // -------------------------------------------------------------------- invariants

  predicate Holding(p: PendingClaim) {
    p.phase.Won? || p.phase.Published?
  }

  predicate Open(p: PendingClaim) {
    p.phase.Sent? || p.phase.Won?
  }

  /** Its match exists and offered the ride to this driver; its times are in order; its key was set for a full TTL. */
  ghost predicate ClaimOk(c: Config, s: Sys, p: PendingClaim) {
    && p.matchId < |s.core.matches|
    && s.core.matches[p.matchId].rideId == p.rideId
    && p.driverId in s.core.matches[p.matchId].offered
    && p.sentAt <= s.now
    && (Holding(p) ==>
        && p.sentAt <= p.phase.setAt <= s.now
        && p.rideId in s.keys && p.phase.setAt + TTL_MS <= s.keys[p.rideId].expiresAt)
    && (p.phase.Published? ==>
        && p.phase.setAt <= p.phase.publishedAt <= s.now
        && p.phase.publishedAt - p.sentAt <= c.roundTripMs
        && s.core.matches[p.matchId].resolved)
  }

  /** Two keys of one ride are set a TTL apart; a match is checked no later than it publishes, and publishes once. */
  ghost predicate PairOk(p: PendingClaim, q: PendingClaim) {
    && (Holding(p) && Holding(q) && p.rideId == q.rideId ==>
          p.phase.setAt + TTL_MS <= q.phase.setAt || q.phase.setAt + TTL_MS <= p.phase.setAt)
    && (p.phase.Published? && Open(q) && p.matchId == q.matchId ==> q.sentAt <= p.phase.publishedAt)
    && (q.phase.Published? && Open(p) && p.matchId == q.matchId ==> p.sentAt <= q.phase.publishedAt)
    && (p.phase.Published? && q.phase.Published? ==> p.matchId != q.matchId)
  }

  ghost predicate Inv(c: Config, s: Sys) {
    && (forall i :: 0 <= i < |s.claims| ==> ClaimOk(c, s, s.claims[i]))
    && (forall i, j :: 0 <= i < j < |s.claims| ==> PairOk(s.claims[i], s.claims[j]))
    && (forall m: nat :: Assignments(s, m) == Sum(s.claims, PublishedFor(m)))
    && (forall k :: 0 <= k < |s.core.log| && s.core.log[k].Assigned? ==>
          s.core.log[k].matchId < |s.core.matches|
          && s.core.log[k].driverId in s.core.matches[s.core.log[k].matchId].offered)
  }

  /** Matches are only added, resolved and widened, and nothing new is assigned. */
  ghost predicate CoreGrows(a: Core, b: Core) {
    && |a.matches| <= |b.matches|
    && (forall m :: 0 <= m < |a.matches| ==>
          && a.matches[m].rideId == b.matches[m].rideId && a.matches[m].offered <= b.matches[m].offered
          && (a.matches[m].resolved ==> b.matches[m].resolved))
    && a.log <= b.log
    && (forall k :: |a.log| <= k < |b.log| ==> !b.log[k].Assigned?)
  }

  lemma GrowthComposes(a: Core, b: Core, d: Core)
    requires CoreGrows(a, b) && CoreGrows(b, d)
    ensures CoreGrows(a, d)
  {
  }

  lemma ExhaustGrows(a: Core, rideId: string, now: int)
    ensures CoreGrows(a, Exhaust(a, rideId, now))
  {
  }

  lemma RoundGrows(cfg: MatchConfig, a: Core, m: nat, now: int)
    requires m < |a.matches|
    ensures CoreGrows(a, RunRound(cfg, a, m, now))
  {
  }

  lemma StartGrows(cfg: MatchConfig, a: Core, rideId: string, ranked: seq<RankedZone>, startedAt: int, now: int)
    ensures CoreGrows(a, StartMatching(cfg, a, rideId, ranked, startedAt, now))
  {
    ExhaustGrows(a, rideId, now);
    var m := |a.matches|;
    var b := a.(matches := a.matches + [Match(rideId, ranked, 0, startedAt, {}, None, false)], active := a.active[rideId := m]);
    RoundGrows(cfg, b, m, now);
    GrowthComposes(a, b, RunRound(cfg, b, m, now));
  }

  lemma TimeoutGrows(cfg: MatchConfig, a: Core, m: nat, now: int)
    requires m < |a.matches|
    ensures CoreGrows(a, OnTimeout(cfg, a, m, now))
  {
    var b := a.(matches := a.matches[m := a.matches[m].(timerDue := None)]);
    RoundGrows(cfg, b, m, now);
    ExhaustGrows(b, a.matches[m].rideId, now);
    GrowthComposes(a, b, RunRound(cfg, b, m, now));
    GrowthComposes(a, b, Exhaust(b, a.matches[m].rideId, now));
  }

  lemma {:induction false} NothingAssigned(tail: seq<Event>, m: nat)
    requires forall k :: 0 <= k < |tail| ==> !tail[k].Assigned?
    ensures Sum(tail, AssignedFor(m)) == 0
  {
    SumOfEqual(tail, AssignedFor(m), 0);
  }

  lemma GrowthKeepsInv(c: Config, s: Sys, core: Core, now: int)
    requires Inv(c, s) && CoreGrows(s.core, core) && s.now <= now
    ensures Inv(c, s.(core := core, now := now))
  {
    var t := s.(core := core, now := now);
    forall i | 0 <= i < |t.claims|
      ensures ClaimOk(c, t, t.claims[i])
    {
      assert ClaimOk(c, s, s.claims[i]);
    }
    forall m: nat
      ensures Assignments(t, m) == Sum(t.claims, PublishedFor(m))
    {
      assert core.log == s.core.log + core.log[|s.core.log|..];
      SumAppend(s.core.log, core.log[|s.core.log|..], AssignedFor(m));
      NothingAssigned(core.log[|s.core.log|..], m);
      assert Assignments(s, m) == Sum(s.claims, PublishedFor(m));
    }
  }

  lemma CheckKeepsInv(c: Config, s: Sys, rideId: string, driverId: string)
    requires Inv(c, s) && (HasActive(s.core, rideId) ==> s.core.matches[s.core.active[rideId]].rideId == rideId)
    ensures Inv(c, Act(c, s, Check(rideId, driverId)))
  {
    var begun := BeginClaim(s.core, rideId, driverId);
    if begun.Some? {
      var t := Act(c, s, Check(rideId, driverId));
      var p := t.claims[|s.claims|];
      forall i | 0 <= i < |s.claims|
        ensures ClaimOk(c, t, t.claims[i]) && PairOk(t.claims[i], p)
      {
        assert ClaimOk(c, s, s.claims[i]);
      }
      forall m: nat
        ensures Assignments(t, m) == Sum(t.claims, PublishedFor(m))
      {
        assert Assignments(s, m) == Sum(s.claims, PublishedFor(m));
        SumSnoc(s.claims, p, PublishedFor(m));
      }
    }
  }

  /** A claim that changes phase, neither from nor to Published, over a store whose keys only moved later. */
  lemma PhaseKeepsInv(c: Config, s: Sys, k: nat, p: PendingClaim, keys: map<string, Claim>)
    requires Inv(c, s) && k < |s.claims|
    requires p == s.claims[k].(phase := p.phase) && !p.phase.Published? && !s.claims[k].phase.Published?
    requires forall r :: r in s.keys ==> r in keys && s.keys[r].expiresAt <= keys[r].expiresAt
    requires ClaimOk(c, s.(keys := keys), p)
    requires forall i :: 0 <= i < |s.claims| && i != k ==> PairOk(s.claims[i], p) && PairOk(p, s.claims[i])
    ensures Inv(c, s.(keys := keys, claims := s.claims[k := p]))
  {
    var t := s.(keys := keys, claims := s.claims[k := p]);
    forall i | 0 <= i < |t.claims|
      ensures ClaimOk(c, t, t.claims[i])
    {
      assert ClaimOk(c, s, s.claims[i]);
    }
    forall m: nat
      ensures Assignments(t, m) == Sum(t.claims, PublishedFor(m))
    {
      assert Assignments(s, m) == Sum(s.claims, PublishedFor(m));
      SumUpdate(s.claims, k, p, PublishedFor(m));
    }
  }

  lemma PairOkIsSymmetric(p: PendingClaim, q: PendingClaim)
    ensures PairOk(p, q) <==> PairOk(q, p)
  {
  }

  lemma OthersPairWith(c: Config, s: Sys, k: nat, i: nat)
    requires Inv(c, s) && k < |s.claims| && i < |s.claims| && i != k
    ensures PairOk(s.claims[i], s.claims[k]) && PairOk(s.claims[k], s.claims[i])
  {
    PairOkIsSymmetric(s.claims[i], s.claims[k]);
  }

  lemma SetKeyKeepsInv(c: Config, s: Sys, k: nat)
    requires Inv(c, s)
    ensures Inv(c, Act(c, s, SetKey(k)))
  {
    if k < |s.claims| && s.claims[k].phase == Sent {
      var q, t := s.claims[k], Act(c, s, SetKey(k));
      var p := t.claims[k];
      assert ClaimOk(c, s, q);
      forall i | 0 <= i < |s.claims| && i != k
        ensures PairOk(s.claims[i], p) && PairOk(p, s.claims[i])
      {
        assert ClaimOk(c, s, s.claims[i]);
        OthersPairWith(c, s, k, i);
      }
      PhaseKeepsInv(c, s, k, p, t.keys);
    }
  }

  /** The heart of it: a reply that arrives in time finds its match unpublished. */
  lemma RepliesFindMatchUnpublished(c: Config, s: Sys, k: nat, i: nat)
    requires Inv(c, s) && k < |s.claims| && i < |s.claims| && i != k
    requires 2 * c.roundTripMs < TTL_MS && s.claims[k].phase.Won? && s.now - s.claims[k].sentAt <= c.roundTripMs
    ensures !(s.claims[i].phase.Published? && s.claims[i].matchId == s.claims[k].matchId)
  {
    OthersPairWith(c, s, k, i);
    assert ClaimOk(c, s, s.claims[i]) && ClaimOk(c, s, s.claims[k]);
  }

  lemma PublishKeepsInv(c: Config, s: Sys, k: nat)
    requires Inv(c, s) && 2 * c.roundTripMs < TTL_MS
    requires k < |s.claims| && s.claims[k].phase.Won? && s.now - s.claims[k].sentAt <= c.roundTripMs
    requires AssignmentFor(s.core.registry, s.claims[k].driverId).Some?
    ensures Inv(c, Act(c, s, Reply(k)))
  {
    var q, t := s.claims[k], Act(c, s, Reply(k));
    assert ClaimOk(c, s, q);
    var p, e := t.claims[k], t.core.log[|s.core.log|];
    assert p == q.(phase := Published(q.phase.setAt, s.now));
    assert t.core.log == s.core.log + [e] && e.Assigned? && e.matchId == q.matchId && e.driverId == q.driverId;
    forall i | 0 <= i < |t.claims|
      ensures ClaimOk(c, t, t.claims[i]) && (i != k ==> PairOk(t.claims[i], p) && PairOk(p, t.claims[i]))
    {
      assert ClaimOk(c, s, s.claims[i]);
      if i != k {
        OthersPairWith(c, s, k, i);
        RepliesFindMatchUnpublished(c, s, k, i);
      }
    }
    forall m: nat
      ensures Assignments(t, m) == Sum(t.claims, PublishedFor(m))
    {
      assert Assignments(s, m) == Sum(s.claims, PublishedFor(m));
      SumSnoc(s.core.log, e, AssignedFor(m));
      SumUpdate(s.claims, k, p, PublishedFor(m));
    }
  }

  lemma ReplyKeepsInv(c: Config, s: Sys, k: nat)
    requires Inv(c, s) && 2 * c.roundTripMs < TTL_MS
    ensures Inv(c, Act(c, s, Reply(k)))
  {
    if k < |s.claims| && s.now - s.claims[k].sentAt <= c.roundTripMs {
      var q := s.claims[k];
      assert ClaimOk(c, s, q);
      if q.phase.Won? && AssignmentFor(s.core.registry, q.driverId).Some? {
        PublishKeepsInv(c, s, k);
      } else if q.phase.Won? || q.phase.Refused? {
        forall i | 0 <= i < |s.claims| && i != k
          ensures PairOk(s.claims[i], q.(phase := Dropped)) && PairOk(q.(phase := Dropped), s.claims[i])
        {
          OthersPairWith(c, s, k, i);
        }
        PhaseKeepsInv(c, s, k, q.(phase := Dropped), s.keys);
      }
    }
  }

  /** A ride's entry names a match of that ride. */
  ghost predicate ActiveOk(core: Core) {
    forall r :: r in core.active ==> core.active[r] < |core.matches| && core.matches[core.active[r]].rideId == r
  }

  /** Matches keep their rides, and entries are only dropped. */
  lemma FewerEntriesKeepActiveOk(a: Core, b: Core)
    requires ActiveOk(a) && |a.matches| <= |b.matches| && b.active.Keys <= a.active.Keys
    requires forall m :: 0 <= m < |a.matches| ==> b.matches[m].rideId == a.matches[m].rideId
    requires forall r :: r in b.active ==> b.active[r] == a.active[r]
    ensures ActiveOk(b)
  {
  }

  lemma StartKeepsActiveOk(cfg: MatchConfig, a: Core, rideId: string, ranked: seq<RankedZone>, startedAt: int, now: int)
    requires ActiveOk(a)
    ensures ActiveOk(StartMatching(cfg, a, rideId, ranked, startedAt, now))
  {
  }

  lemma ResolveKeepsActiveOk(a: Core, m: nat)
    requires ActiveOk(a) && m < |a.matches|
    ensures ActiveOk(Resolve(a, m))
  {
    FewerEntriesKeepActiveOk(a, Resolve(a, m));
  }

  lemma TimeoutKeepsActiveOk(cfg: MatchConfig, a: Core, m: nat, now: int)
    requires ActiveOk(a) && m < |a.matches|
    ensures ActiveOk(OnTimeout(cfg, a, m, now))
  {
    FewerEntriesKeepActiveOk(a, OnTimeout(cfg, a, m, now));
  }

  lemma CompleteKeepsActiveOk(a: Core, m: nat, rideId: string, driverId: string, now: int)
    requires ActiveOk(a) && m < |a.matches|
    ensures ActiveOk(CompleteClaim(a, m, rideId, driverId, now).0)
  {
    ResolveKeepsActiveOk(a, m);
    FewerEntriesKeepActiveOk(a, CompleteClaim(a, m, rideId, driverId, now).0);
  }

  lemma StepKeepsActiveOk(c: Config, s: Sys, a: Timed)
    requires ActiveOk(s.core)
    ensures ActiveOk(Step(c, s, a).core)
  {
    if a.at >= s.now {
      match a.action
      case Start(rideId, ranked, startedAt) => StartKeepsActiveOk(c.matching, s.core, rideId, ranked, startedAt, a.at);
      case TimerFires(m) =>
        if m < |s.core.matches| {
          TimeoutKeepsActiveOk(c.matching, s.core, m, a.at);
        }
      case Check(_, _) =>
      case SetKey(_) =>
      case Reply(k) =>
        if k < |s.claims| && s.claims[k].matchId < |s.core.matches| {
          CompleteKeepsActiveOk(s.core, s.claims[k].matchId, s.claims[k].rideId, s.claims[k].driverId, a.at);
        }
      case CancelRide(rideId) =>
        if HasActive(s.core, rideId) {
          ResolveKeepsActiveOk(s.core, s.core.active[rideId]);
        }
      case ChangeRegistry(registry) => FewerEntriesKeepActiveOk(s.core, s.core.(registry := registry));
    }
  }

  lemma StepKeepsInv(c: Config, s: Sys, a: Timed)
    requires Inv(c, s) && ActiveOk(s.core) && 2 * c.roundTripMs < TTL_MS
    ensures Inv(c, Step(c, s, a))
  {
    if a.at >= s.now {
      GrowthKeepsInv(c, s, s.core, a.at);
      var u := s.(now := a.at);
      match a.action
      case Start(rideId, ranked, startedAt) =>
        StartGrows(c.matching, u.core, rideId, ranked, startedAt, u.now);
        GrowthKeepsInv(c, u, Act(c, u, a.action).core, u.now);
      case TimerFires(m) =>
        if m < |u.core.matches| {
          TimeoutGrows(c.matching, u.core, m, u.now);
        }
        GrowthKeepsInv(c, u, Act(c, u, a.action).core, u.now);
      case Check(rideId, driverId) => CheckKeepsInv(c, u, rideId, driverId);
      case SetKey(k) => SetKeyKeepsInv(c, u, k);
      case Reply(k) => ReplyKeepsInv(c, u, k);
      case CancelRide(rideId) =>
        GrowthKeepsInv(c, u, Act(c, u, a.action).core, u.now);
      case ChangeRegistry(registry) => GrowthKeepsInv(c, u, u.core.(registry := registry), u.now);
    }
  }

  lemma {:induction false} RunKeepsInv(c: Config, start: int, actions: seq<Timed>)
    requires 2 * c.roundTripMs < TTL_MS
    ensures var s := Run(c, start, actions); Inv(c, s) && ActiveOk(s.core)
  {
    if actions != [] {
      var before := Run(c, start, actions[..|actions| - 1]);
      RunKeepsInv(c, start, actions[..|actions| - 1]);
      StepKeepsActiveOk(c, before, actions[|actions| - 1]);
      StepKeepsInv(c, before, actions[|actions| - 1]);
    }
  }

  // ------------------------------------------------------------------ main results

  lemma {:induction false} PublishedAtMostOnce(claims: seq<PendingClaim>, m: nat)
    requires forall i, j :: 0 <= i < j < |claims| ==> PairOk(claims[i], claims[j])
    ensures Sum(claims, PublishedFor(m)) <= 1
    ensures (forall i :: 0 <= i < |claims| ==> PublishedFor(m)(claims[i]) == 0) ==> Sum(claims, PublishedFor(m)) == 0
  {
    if claims != [] {
      var init, last := claims[..|claims| - 1], claims[|claims| - 1];
      PublishedAtMostOnce(init, m);
      if PublishedFor(m)(last) == 1 {
        forall i | 0 <= i < |init|
          ensures PublishedFor(m)(init[i]) == 0
        {
          assert PairOk(claims[i], claims[|claims| - 1]);
        }
      }
    }
  }

  /** With round trips under half the TTL, a match publishes dispatch.assigned at most once, to a driver it offered. */
  lemma {:induction false} AssignedAtMostOnce(c: Config, start: int, actions: seq<Timed>, m: nat)
    requires 2 * c.roundTripMs < TTL_MS
    ensures Assignments(Run(c, start, actions), m) <= 1
    ensures var core := Run(c, start, actions).core;
      forall k :: 0 <= k < |core.log| && core.log[k].Assigned? ==>
        core.log[k].matchId < |core.matches| && core.log[k].driverId in core.matches[core.log[k].matchId].offered
  {
    var s := Run(c, start, actions);
    RunKeepsInv(c, start, actions);
    PublishedAtMostOnce(s.claims, m);
    assert Assignments(s, m) == Sum(s.claims, PublishedFor(m));
  }

  // ---------------------------------------------------- the bound on round trips is exact

  /** Two drivers with a vehicle each, both paired to zone z. */
  const TWO_DRIVERS := Registry(
    ["a", "b"],
    map["a" := DriverState(Some("v"), true, false), "b" := DriverState(Some("w"), true, false)],
    map["v" := "z", "w" := "z"],
    map[])

  const ONE_ZONE := [RankedZone("z", 0.0)]

  function SnocStep(c: Config, s: Sys, at: int, a: Action): Sys {
    Step(c, s, Timed(at, a))
  }

  lemma RunSnoc(c: Config, start: int, actions: seq<Timed>, a: Timed)
    ensures Run(c, start, actions + [a]) == Step(c, Run(c, start, actions), a)
  {
    assert (actions + [a])[..|actions|] == actions;
  }

  /** Both drivers have been offered the ride, and nothing else has happened. */
  ghost predicate BothOffered(s: Sys) {
    && s.now == 0 && s.claims == [] && s.keys == map[] && s.core.active == map["r" := 0]
    && |s.core.matches| == 1 && s.core.matches[0].rideId == "r" && !s.core.matches[0].resolved
    && s.core.matches[0].offered == {"a", "b"}
    && s.core.registry == TWO_DRIVERS
    && |s.core.log| == 1 && s.core.log[0].OfferBroadcast?
  }

  lemma BothAreEligible()
    ensures DriverIds(EligibleInZones(TWO_DRIVERS, {"z"})) == ["a", "b"]
  {
    var r, z := TWO_DRIVERS, {"z"};
    assert Eligible(r, "a", z) && Eligible(r, "b", z);
    assert r.order[0] == "a" && r.order[1] == "b";
    assert EligibleAmong(r, z, 0) == [];
    assert EligibleAmong(r, z, 1) == [Offer(r, "a", z)];
    assert EligibleAmong(r, z, 2) == [Offer(r, "a", z), Offer(r, "b", z)];
  }

  lemma OneZoneIsOffered(cfg: MatchConfig, x: Match)
    requires cfg.initialZones >= 1 && cfg.maxZones >= 1 && x.ranked == ONE_ZONE
    ensures Elements(RoundZones(cfg, x, 1)) == {"z"}
  {
    assert RoundZones(cfg, x, 1) == ["z"];
    assert ["z"][0] == "z";
  }

  lemma FirstRoundOffersBoth(c: Config, core: Core)
    requires c.matching.initialZones >= 1 && c.matching.maxZones >= 1
    requires core == Core(map[], [], [], TWO_DRIVERS)
    ensures BothOffered(Sys(0, StartMatching(c.matching, core, "r", ONE_ZONE, 0, 0), map[], []))
  {
    var x := Match("r", ONE_ZONE, 0, 0, {}, None, false);
    OneZoneIsOffered(c.matching, x);
    BothAreEligible();
    var ids := ["a", "b"];
    assert Elements(ids) == {"a", "b"} by {
      assert ids[0] == "a" && ids[1] == "b";
    }
    var begun := core.(matches := core.matches + [x], active := core.active["r" := 0]);
    assert begun.matches[0] == x;
    assert StartMatching(c.matching, core, "r", ONE_ZONE, 0, 0) == RunRound(c.matching, begun, 0, 0);
  }

  lemma OfferBoth(c: Config) returns (actions: seq<Timed>)
    requires c.matching.initialZones >= 1 && c.matching.maxZones >= 1
    ensures BothOffered(Run(c, 0, actions))
  {
    var a1, a2 := Timed(0, ChangeRegistry(TWO_DRIVERS)), Timed(0, Start("r", ONE_ZONE, 0));
    var core := Core(map[], [], [], TWO_DRIVERS);
    assert Run(c, 0, []) == Init(0);
    RunSnoc(c, 0, [], a1);
    assert Run(c, 0, [] + [a1]) == Sys(0, core, map[], []);
    RunSnoc(c, 0, [] + [a1], a2);
    FirstRoundOffersBoth(c, core);
    actions := [] + [a1] + [a2];
  }

  const CLAIM_A := PendingClaim(0, "r", "a", 0, Sent)

  const CLAIM_B := PendingClaim(0, "r", "b", 2500, Sent)

  /** The first driver wins and is slow to hear; the second checks just before. */
  lemma SlowReplyAssigns(c: Config, s: Sys)
    requires BothOffered(s) && 2 * c.roundTripMs >= TTL_MS
    ensures var t := SnocStep(c, SnocStep(c, SnocStep(c, SnocStep(c, s,
        0, Check("r", "a")), 0, SetKey(0)), 2500, Check("r", "b")), 2500, Reply(0));
      && t.now == 2500 && |t.core.matches| == 1 && t.keys == map["r" := Claim("a", 5000)]
      && |t.claims| == 2 && t.claims[1] == CLAIM_B
      && t.core.registry == SetOnRide(TWO_DRIVERS, "a", true)
      && Assignments(t, 0) == 1
  {
    var s1 := SnocStep(c, s, 0, Check("r", "a"));
    assert s1.claims == [CLAIM_A];
    var s2 := SnocStep(c, s1, 0, SetKey(0));
    assert s2.claims == [CLAIM_A.(phase := Won(0))] && s2.keys == map["r" := Claim("a", 5000)];
    var s3 := SnocStep(c, s2, 2500, Check("r", "b"));
    assert s3.claims == [CLAIM_A.(phase := Won(0)), CLAIM_B];
    var s4 := SnocStep(c, s3, 2500, Reply(0));
    assert AssignmentFor(TWO_DRIVERS, "a") == Some(EligibleDriver("a", "v", "z"));
    assert s4.core.log == s.core.log + [s4.core.log[1]] && AssignedFor(0)(s4.core.log[1]) == 1;
    assert s.core.log == [] + [s.core.log[0]];
    SumSnoc([], s.core.log[0], AssignedFor(0));
    SumSnoc(s.core.log, s4.core.log[1], AssignedFor(0));
  }

  /** The second wins when the key expires, and is assigned as well. */
  lemma SecondReplyAssigns(c: Config, s: Sys)
    requires 2 * c.roundTripMs >= TTL_MS
    requires s.now == 2500 && |s.core.matches| == 1 && s.keys == map["r" := Claim("a", 5000)]
    requires |s.claims| == 2 && s.claims[1] == CLAIM_B && s.core.registry == SetOnRide(TWO_DRIVERS, "a", true)
    ensures Assignments(SnocStep(c, SnocStep(c, s, 5000, SetKey(1)), 5000, Reply(1)), 0) == Assignments(s, 0) + 1
  {
    var s5 := SnocStep(c, s, 5000, SetKey(1));
    assert s5.claims[1] == CLAIM_B.(phase := Won(5000));
    var s6 := SnocStep(c, s5, 5000, Reply(1));
    assert AssignmentFor(s.core.registry, "b") == Some(EligibleDriver("b", "w", "z"));
    var e := s6.core.log[|s.core.log|];
    assert s6.core.log == s.core.log + [e] && AssignedFor(0)(e) == 1;
    SumSnoc(s.core.log, e, AssignedFor(0));
  }

  lemma SlowRepliesAssignTwice(c: Config, s: Sys)
    requires BothOffered(s) && 2 * c.roundTripMs >= TTL_MS
    ensures var t := SnocStep(c, SnocStep(c, SnocStep(c, SnocStep(c, SnocStep(c, SnocStep(c, s,
        0, Check("r", "a")), 0, SetKey(0)), 2500, Check("r", "b")), 2500, Reply(0)), 5000, SetKey(1)), 5000, Reply(1));
      Assignments(t, 0) == 2
  {
    SlowReplyAssigns(c, s);
    SecondReplyAssigns(c, SnocStep(c, SnocStep(c, SnocStep(c, SnocStep(c, s,
        0, Check("r", "a")), 0, SetKey(0)), 2500, Check("r", "b")), 2500, Reply(0)));
  }

  lemma SlowRunExists(c: Config) returns (actions: seq<Timed>)
    requires c.matching.initialZones >= 1 && c.matching.maxZones >= 1 && 2 * c.roundTripMs >= TTL_MS
    ensures Assignments(Run(c, 0, actions), 0) == 2
  {
    var a0 := OfferBoth(c);
    var a1, a2, a3 := Timed(0, Check("r", "a")), Timed(0, SetKey(0)), Timed(2500, Check("r", "b"));
    var a4, a5, a6 := Timed(2500, Reply(0)), Timed(5000, SetKey(1)), Timed(5000, Reply(1));
    SlowRepliesAssignTwice(c, Run(c, 0, a0));
    RunSnoc(c, 0, a0, a1);
    RunSnoc(c, 0, a0 + [a1], a2);
    RunSnoc(c, 0, a0 + [a1] + [a2], a3);
    RunSnoc(c, 0, a0 + [a1] + [a2] + [a3], a4);
    RunSnoc(c, 0, a0 + [a1] + [a2] + [a3] + [a4], a5);
    RunSnoc(c, 0, a0 + [a1] + [a2] + [a3] + [a4] + [a5], a6);
    actions := a0 + [a1] + [a2] + [a3] + [a4] + [a5] + [a6];
  }

  /** Half the TTL is the exact limit on the round trip, for any configuration that offers rides at all. */
  lemma ClaimIsSafeExactlyBelowHalfTtl(c: Config)
    requires c.matching.initialZones >= 1 && c.matching.maxZones >= 1
    ensures (forall start, actions, m: nat :: Assignments(Run(c, start, actions), m) <= 1) <==> 2 * c.roundTripMs < TTL_MS
  {
    if 2 * c.roundTripMs < TTL_MS {
      forall start, actions, m: nat
        ensures Assignments(Run(c, start, actions), m) <= 1
      {
        AssignedAtMostOnce(c, start, actions, m);
      }
    } else {
      var actions := SlowRunExists(c);
      assert Assignments(Run(c, 0, actions), 0) > 1;
    }
  }
}
