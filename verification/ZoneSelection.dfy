/**
 * services/dispatch/src/domain: ranking zones by distance from a pickup (zone-selection.ts)
 * and the policy that widens a match round by round (expansion.ts).
 */
module ZoneSelection {
  import opened StableSort
  import opened Wrappers
  import Geo

  datatype ZoneGeometry = ZoneGeometry(zoneId: string, ring: seq<Geo.LatLon>)

  datatype RankedZone = RankedZone(zoneId: string, distanceM: real)

  datatype ExpansionParams = ExpansionParams(
    initialZones: nat, maxZones: nat, offerMs: int, maxTotalWaitMs: int, availableZoneCount: nat)

  function DistanceOf(): RankedZone -> real {
    (z: RankedZone) => z.distanceM
  }

  function Measured(distanceTo: seq<Geo.LatLon> -> real, zones: seq<ZoneGeometry>): (r: seq<RankedZone>)
    ensures |r| == |zones|
  {
    seq(|zones|, i requires 0 <= i < |zones| => RankedZone(zones[i].zoneId, distanceTo(zones[i].ring)))
  }

  /** distanceTo is the distance from the pickup to a zone's ring. */
  function RankZonesByDistance(distanceTo: seq<Geo.LatLon> -> real, zones: seq<ZoneGeometry>): seq<RankedZone> {
    Sort(Measured(distanceTo, zones), DistanceOf())
  }

  function Min(a: nat, b: nat): nat {
    if a < b then a else b
  }

  function ZoneCountForRound(round: nat, p: ExpansionParams): nat
    requires round >= 1
  {
    Min(Min(p.initialZones + (round - 1), p.maxZones), p.availableZoneCount)
  }

  function ShouldContinue(elapsedMs: int, p: ExpansionParams): bool {
    elapsedMs + p.offerMs <= p.maxTotalWaitMs
  }

  function Ids(ranked: seq<RankedZone>): (r: seq<string>)
    ensures |r| == |ranked|
  {
    seq(|ranked|, i requires 0 <= i < |ranked| => ranked[i].zoneId)
  }

  function ZonesForRound(ranked: seq<RankedZone>, round: nat, initialZones: nat, maxZones: nat): seq<string>
    requires round >= 1
  {
    var count := Min(Min(initialZones + (round - 1), maxZones), |ranked|);
    Ids(ranked[..count])
  }

  /** The ranking is a permutation of the measured zones, nearest first, with ties in input order. */
  lemma RankingIsSortedPermutation(distanceTo: seq<Geo.LatLon> -> real, zones: seq<ZoneGeometry>)
    ensures var r := RankZonesByDistance(distanceTo, zones);
      && multiset(r) == multiset(Measured(distanceTo, zones))
      && (forall i, j :: 0 <= i < j < |r| ==> r[i].distanceM <= r[j].distanceM)
      && (forall d :: Filter(r, KeyIs(DistanceOf(), d)) == Filter(Measured(distanceTo, zones), KeyIs(DistanceOf(), d)))
  {
    var m := Measured(distanceTo, zones);
    SortSorted(m, DistanceOf());
    forall d
      ensures Filter(Sort(m, DistanceOf()), KeyIs(DistanceOf(), d)) == Filter(m, KeyIs(DistanceOf(), d))
    {
      SortIsStable(m, DistanceOf(), d);
    }
    var r := RankZonesByDistance(distanceTo, zones);
    forall i, j | 0 <= i < j < |r|
      ensures r[i].distanceM <= r[j].distanceM
    {
      assert DistanceOf()(r[i]) <= DistanceOf()(r[j]);
    }
  }

  /** d is the squared distance from the pickup to a zone: 0 inside its ring, else to the nearest point of its boundary. */
  ghost predicate IsZoneDistanceSq(scale: Geo.Scale, pickup: Geo.LatLon, zone: ZoneGeometry, d: real) {
    if Geo.Inside(pickup, zone.ring) then d == 0.0 else Geo.IsBoundaryMinimum(scale, pickup, Geo.Edges(zone.ring), Some(d))
  }

  ghost predicate Measures(scale: Geo.Scale, pickup: Geo.LatLon, zones: seq<ZoneGeometry>, z: RankedZone) {
    exists i :: 0 <= i < |zones| && zones[i].zoneId == z.zoneId && IsZoneDistanceSq(scale, pickup, zones[i], z.distanceM)
  }

  /** Ranked by Geo's own distance, every entry carries its zone's true squared distance, and they ascend. */
  lemma ZonesRankByTrueDistance(scale: Geo.Scale, pickup: Geo.LatLon, zones: seq<ZoneGeometry>)
    requires forall i :: 0 <= i < |zones| ==> zones[i].ring != []
    ensures var r := RankZonesByDistance(Geo.ZoneDistanceSq(scale, pickup), zones);
      && (forall k :: 0 <= k < |r| ==> Measures(scale, pickup, zones, r[k]))
      && (forall j, k :: 0 <= j < k < |r| ==> r[j].distanceM <= r[k].distanceM)
  {
    var f := Geo.ZoneDistanceSq(scale, pickup);
    var m, r := Measured(f, zones), RankZonesByDistance(f, zones);
    RankingIsSortedPermutation(f, zones);
    forall k | 0 <= k < |r|
      ensures Measures(scale, pickup, zones, r[k])
    {
      assert r[k] in multiset(r);
      assert r[k] in m;
      var i :| 0 <= i < |m| && m[i] == r[k];
      Geo.BoundarySqIsMinimum(scale, pickup, Geo.Edges(zones[i].ring));
      assert IsZoneDistanceSq(scale, pickup, zones[i], f(zones[i].ring));
    }
  }

  /** A round takes the nearest zones: nothing it leaves out is nearer than anything it takes. */
  lemma RoundTakesNearestZones(distanceTo: seq<Geo.LatLon> -> real, zones: seq<ZoneGeometry>, p: ExpansionParams, round: nat)
    requires round >= 1 && p.availableZoneCount == |zones|
    ensures var r := RankZonesByDistance(distanceTo, zones);
      var n := ZoneCountForRound(round, p);
      && n <= |r| && ZonesForRound(r, round, p.initialZones, p.maxZones) == Ids(r)[..n]
      && forall i, j :: 0 <= i < n <= j < |r| ==> r[i].distanceM <= r[j].distanceM
  {
    RankingIsSortedPermutation(distanceTo, zones);
    var r := RankZonesByDistance(distanceTo, zones);
    assert |multiset(r)| == |r|;
  }

  /** Rounds are nested prefixes of the ranking that grow by at most one zone. */
  lemma RoundsAreNestedPrefixes(ranked: seq<RankedZone>, round: nat, initialZones: nat, maxZones: nat)
    requires round >= 1
    ensures var a, b := ZonesForRound(ranked, round, initialZones, maxZones), ZonesForRound(ranked, round + 1, initialZones, maxZones);
      && a <= b <= Ids(ranked) && |b| <= |a| + 1
      && |a| == ZoneCountForRound(round, ExpansionParams(initialZones, maxZones, 0, 0, |ranked|))
      && (round == 1 ==> |a| == Min(initialZones, Min(maxZones, |ranked|)))
      && (|b| == |a| ==> |a| == Min(maxZones, |ranked|))
  {
  }
}
