/**
 * services/dispatch/src/matching/matching.service.ts: timed offer rounds over a widening zone
 * set. Each stretch of code between two awaits is one function here and one method below;
 * ClaimProtocol interleaves them.
 */
module Matching {
  import opened Wrappers
  import opened ZoneSelection
  import opened DriverRegistry

  /** One match object; its index in the list stands for its identity. */
  datatype Match = Match(
    rideId: string, ranked: seq<RankedZone>, round: nat, startedAt: int,
    offered: set<string>, timerDue: Option<int>, resolved: bool)

  /** Published envelopes; matchId names the match object that published them. */
  datatype Event =
    | OfferBroadcast(matchId: nat, rideId: string, round: nat, zoneIds: seq<string>, drivers: seq<string>, at: int)
    | Assigned(matchId: nat, rideId: string, driverId: string, vehicleId: string, round: nat, at: int)
    | Exhausted(rideId: string, at: int)

  datatype MatchConfig = MatchConfig(initialZones: nat, maxZones: nat, offerMs: int, maxTotalWaitMs: int)

  datatype ClaimOutcome = Lost | WonRide(vehicleId: string, zoneId: string)

  datatype Core = Core(active: map<string, nat>, matches: seq<Match>, log: seq<Event>, registry: Registry)

  function Params(cfg: MatchConfig, available: nat): ExpansionParams {
    ExpansionParams(cfg.initialZones, cfg.maxZones, cfg.offerMs, cfg.maxTotalWaitMs, available)
  }

  function Elements(xs: seq<string>): set<string> {
    set k | 0 <= k < |xs| :: xs[k]
  }

  function DriverIds(es: seq<EligibleDriver>): (r: seq<string>)
    ensures |r| == |es|
  {
    seq(|es|, i requires 0 <= i < |es| => es[i].driverId)
  }

  predicate HasActive(c: Core, rideId: string) {
    rideId in c.active && c.active[rideId] < |c.matches|
  }

  /** Whatever match the ride's entry names, the entry goes. */
  function Resolve(c: Core, m: nat): Core
    requires m < |c.matches|
  {
    c.(matches := c.matches[m := c.matches[m].(resolved := true, timerDue := None)],
       active := c.active - {c.matches[m].rideId})
  }

  function Exhaust(c: Core, rideId: string, now: int): Core {
    var d := if HasActive(c, rideId) then Resolve(c, c.active[rideId]) else c;
    d.(log := d.log + [Exhausted(rideId, now)])
  }

  function RoundZones(cfg: MatchConfig, x: Match, round: nat): seq<string>
    requires round >= 1
  {
    ZonesForRound(x.ranked, round, cfg.initialZones, cfg.maxZones)
  }

  function RunRound(cfg: MatchConfig, c: Core, m: nat, now: int): Core
    requires m < |c.matches|
  {
    var x := c.matches[m];
    var zoneIds := RoundZones(cfg, x, x.round + 1);
    var ids := DriverIds(EligibleInZones(c.registry, Elements(zoneIds)));
    c.(matches := c.matches[m := x.(round := x.round + 1, offered := x.offered + Elements(ids), timerDue := Some(now + cfg.offerMs))],
       log := c.log + [OfferBroadcast(m, x.rideId, x.round + 1, zoneIds, ids, now)])
  }

  function StartMatching(cfg: MatchConfig, c: Core, rideId: string, ranked: seq<RankedZone>, startedAt: int, now: int): Core {
    if rideId in c.active then c
    else if ranked == [] then Exhaust(c, rideId, now)
    else
      var m := |c.matches|;
      RunRound(cfg, c.(matches := c.matches + [Match(rideId, ranked, 0, startedAt, {}, None, false)], active := c.active[rideId := m]), m, now)
  }

  /** The timer callback of match m, when it is due. */
  function OnTimeout(cfg: MatchConfig, c: Core, m: nat, now: int): Core
    requires m < |c.matches|
  {
    var x := c.matches[m];
    var d := c.(matches := c.matches[m := x.(timerDue := None)]);
    if x.resolved then d
    else if ShouldContinue(now - x.startedAt, Params(cfg, |x.ranked|)) then RunRound(cfg, d, m, now)
    else Exhaust(d, x.rideId, now)
  }

  function Cancel(c: Core, rideId: string): Core {
    if HasActive(c, rideId) then Resolve(c, c.active[rideId]) else c
  }

  /** claim, up to its await: the match whose key it goes on to set, or None for a lost claim. */
  function BeginClaim(c: Core, rideId: string, driverId: string): Option<nat> {
    if HasActive(c, rideId) && !c.matches[c.active[rideId]].resolved && driverId in c.matches[c.active[rideId]].offered
    then Some(c.active[rideId]) else None
  }

  /** claim, after its await, once the key was won; `resolved` is not looked at again. */
  function CompleteClaim(c: Core, m: nat, rideId: string, driverId: string, now: int): (Core, ClaimOutcome)
    requires m < |c.matches|
  {
    match AssignmentFor(c.registry, driverId)
    case None => (c, Lost)
    case Some(a) =>
      var d := Resolve(c, m);
      (d.(registry := SetOnRide(d.registry, driverId, true),
          log := d.log + [Assigned(m, rideId, driverId, a.vehicleId, c.matches[m].round, now)]),
       WonRide(a.vehicleId, a.zoneId))
  }

  class MatchingService {
    const config: MatchConfig
    const drivers: DriverRegistryService
    var active: map<string, nat>
    var matches: seq<Match>
    var log: seq<Event>

    ghost function Snapshot(): Core
      reads this, drivers
    {
      Core(active, matches, log, drivers.Snapshot())
    }

    ghost predicate Valid()
      reads this, drivers
    {
      drivers.Valid() && forall r :: r in active ==> active[r] < |matches|
    }

    constructor (config: MatchConfig, drivers: DriverRegistryService)
      requires drivers.Valid()
      ensures Valid() && this.config == config && this.drivers == drivers
      ensures Snapshot() == Core(map[], [], [], drivers.Snapshot())
    {
      this.config, this.drivers := config, drivers;
      active, matches, log := map[], [], [];
    }

    method Start(rideId: string, ranked: seq<RankedZone>, startedAt: int, now: int)
      requires Valid()
      modifies this
      ensures Valid() && Snapshot() == StartMatching(config, old(Snapshot()), rideId, ranked, startedAt, now)
    {
      if rideId in active {
        return;
      }
      if |ranked| == 0 {
        ExhaustRide(rideId, now);
        return;
      }
      var m := |matches|;
      matches := matches + [Match(rideId, ranked, 0, startedAt, {}, None, false)];
      active := active[rideId := m];
      StartRound(m, now);
    }

    method StartRound(m: nat, now: int)
      requires Valid() && m < |matches|
      modifies this`matches, this`log
      ensures Valid() && Snapshot() == RunRound(config, old(Snapshot()), m, now)
    {
      var x := matches[m];
      x := x.(round := x.round + 1);
      var zoneIds := ZonesForRound(x.ranked, x.round, config.initialZones, config.maxZones);
      var eligible := drivers.ListEligible(Elements(zoneIds));
      var ids := [];
      var k := 0;
      while k < |eligible|
        modifies {}
        invariant 0 <= k <= |eligible|
        invariant ids == DriverIds(eligible)[..k]
        invariant x == matches[m].(round := matches[m].round + 1, offered := matches[m].offered + Elements(ids))
      {
        ElementsSnoc(ids, eligible[k].driverId);
        x := x.(offered := x.offered + {eligible[k].driverId});
        ids := ids + [eligible[k].driverId];
        k := k + 1;
      }
      assert ids == DriverIds(eligible);
      log := log + [OfferBroadcast(m, x.rideId, x.round, zoneIds, ids, now)];
      matches := matches[m := x.(timerDue := Some(now + config.offerMs))];
    }

    method Timeout(m: nat, now: int)
      requires Valid() && m < |matches|
      modifies this
      ensures Valid() && Snapshot() == OnTimeout(config, old(Snapshot()), m, now)
    {
      matches := matches[m := matches[m].(timerDue := None)];
      if matches[m].resolved {
        return;
      }
      var elapsed := now - matches[m].startedAt;
      if elapsed + config.offerMs <= config.maxTotalWaitMs {
        StartRound(m, now);
      } else {
        ExhaustRide(matches[m].rideId, now);
      }
    }

    method CheckClaim(rideId: string, driverId: string) returns (m: Option<nat>)
      requires Valid()
      ensures m == BeginClaim(Snapshot(), rideId, driverId)
    {
      if rideId !in active {
        return None;
      }
      var i := active[rideId];
      if matches[i].resolved || driverId !in matches[i].offered {
        return None;
      }
      m := Some(i);
    }

    method FinishClaim(m: nat, rideId: string, driverId: string, now: int) returns (outcome: ClaimOutcome)
      requires Valid() && m < |matches|
      modifies this, drivers
      ensures Valid() && (Snapshot(), outcome) == CompleteClaim(old(Snapshot()), m, rideId, driverId, now)
    {
      var assignment := drivers.FindAssignment(driverId);
      if assignment.None? {
        return Lost;
      }
      ResolveMatch(m);
      drivers.SetOnRideStatus(driverId, true);
      log := log + [Assigned(m, rideId, driverId, assignment.value.vehicleId, matches[m].round, now)];
      outcome := WonRide(assignment.value.vehicleId, assignment.value.zoneId);
    }

    method CancelMatch(rideId: string)
      requires Valid()
      modifies this
      ensures Valid() && Snapshot() == Cancel(old(Snapshot()), rideId)
    {
      if rideId in active {
        ResolveMatch(active[rideId]);
      }
    }

    method ExhaustRide(rideId: string, now: int)
      requires Valid()
      modifies this
      ensures Valid() && Snapshot() == Exhaust(old(Snapshot()), rideId, now)
    {
      if rideId in active {
        ResolveMatch(active[rideId]);
      }
      log := log + [Exhausted(rideId, now)];
    }

    method ResolveMatch(m: nat)
      requires Valid() && m < |matches|
      modifies this`matches, this`active
      ensures Valid() && Snapshot() == Resolve(old(Snapshot()), m)
    {
      matches := matches[m := matches[m].(resolved := true)];
      if matches[m].timerDue.Some? {
        matches := matches[m := matches[m].(timerDue := None)];
      }
      active := active - {matches[m].rideId};
    }
  }

  lemma ElementsSnoc(xs: seq<string>, x: string)
    ensures Elements(xs + [x]) == Elements(xs) + {x}
  {
    assert (xs + [x])[|xs|] == x;
    assert forall k :: 0 <= k < |xs| ==> (xs + [x])[k] == xs[k];
  }
}
