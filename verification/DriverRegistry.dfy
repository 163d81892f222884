/** services/dispatch/src/registries/driver-registry.service.ts: who may be offered a ride. */
module DriverRegistry {
  import opened Wrappers

  datatype DriverState = DriverState(vehicleId: Option<string>, online: bool, onRide: bool)

  datatype EligibleDriver = EligibleDriver(driverId: string, vehicleId: string, zoneId: string)

  /** The three maps; `order` is the insertion order JavaScript iterates `drivers` in. */
  datatype Registry = Registry(
    order: seq<string>, drivers: map<string, DriverState>,
    vehicleZone: map<string, string>, trackerOk: map<string, bool>)

  ghost predicate WellFormed(r: Registry) {
    && (forall i, j :: 0 <= i < j < |r.order| ==> r.order[i] != r.order[j])
    && (forall d :: d in r.drivers <==> d in r.order)
  }

  /** A non-empty value, as JavaScript's truth test on a string sees it. */
  function Truthy(s: Option<string>): bool {
    s.Some? && s.value != ""
  }

  function ZoneOfVehicle(r: Registry, vehicleId: string): Option<string> {
    if vehicleId in r.vehicleZone then Some(r.vehicleZone[vehicleId]) else None
  }

  predicate Eligible(r: Registry, driverId: string, zoneIds: set<string>) {
    && driverId in r.drivers
    && var s := r.drivers[driverId];
    && s.online && !s.onRide && Truthy(s.vehicleId)
    && Truthy(ZoneOfVehicle(r, s.vehicleId.value))
    && ZoneOfVehicle(r, s.vehicleId.value).value in zoneIds
    && !(s.vehicleId.value in r.trackerOk && !r.trackerOk[s.vehicleId.value])
  }

  function Offer(r: Registry, driverId: string, zoneIds: set<string>): EligibleDriver
    requires Eligible(r, driverId, zoneIds)
  {
    var v := r.drivers[driverId].vehicleId.value;
    EligibleDriver(driverId, v, r.vehicleZone[v])
  }

  /** The eligible drivers among the first n, in iteration order. */
  function EligibleAmong(r: Registry, zoneIds: set<string>, n: nat): (out: seq<EligibleDriver>)
    requires n <= |r.order|
    ensures forall e <- out :: Eligible(r, e.driverId, zoneIds) && e == Offer(r, e.driverId, zoneIds)
  {
    if n == 0 then []
    else
      var d := r.order[n - 1];
      EligibleAmong(r, zoneIds, n - 1) + if Eligible(r, d, zoneIds) then [Offer(r, d, zoneIds)] else []
  }

  function EligibleInZones(r: Registry, zoneIds: set<string>): seq<EligibleDriver> {
    EligibleAmong(r, zoneIds, |r.order|)
  }

  function AssignmentFor(r: Registry, driverId: string): Option<EligibleDriver> {
    if driverId !in r.drivers || !Truthy(r.drivers[driverId].vehicleId) then None
    else
      var v := r.drivers[driverId].vehicleId.value;
      if !Truthy(ZoneOfVehicle(r, v)) then None else Some(EligibleDriver(driverId, v, r.vehicleZone[v]))
  }

  function Put(r: Registry, driverId: string, s: DriverState): Registry {
    r.(order := if driverId in r.drivers then r.order else r.order + [driverId], drivers := r.drivers[driverId := s])
  }

  function SetOnline(r: Registry, driverId: string, vehicleId: Option<string>, online: bool): Registry {
    var s := if driverId in r.drivers then r.drivers[driverId] else DriverState(None, false, false);
    Put(r, driverId, DriverState(if Truthy(vehicleId) then vehicleId else s.vehicleId, online, s.onRide))
  }

  function SetOnRide(r: Registry, driverId: string, onRide: bool): Registry {
    Put(r, driverId,
        if driverId in r.drivers then r.drivers[driverId].(onRide := onRide) else DriverState(None, false, onRide))
  }

  class DriverRegistryService {
    var order: seq<string>
    var drivers: map<string, DriverState>
    var vehicleZone: map<string, string>
    var trackerOk: map<string, bool>

    ghost function Snapshot(): Registry
      reads this
    {
      Registry(order, drivers, vehicleZone, trackerOk)
    }

    ghost predicate Valid()
      reads this
    {
      WellFormed(Snapshot())
    }

    constructor ()
      ensures Valid() && Snapshot() == Registry([], map[], map[], map[])
    {
      order, drivers, vehicleZone, trackerOk := [], map[], map[], map[];
    }

    method SetDriver(driverId: string, s: DriverState)
      requires Valid()
      modifies this`order, this`drivers
      ensures Valid() && Snapshot() == Put(old(Snapshot()), driverId, s)
    {
      if driverId !in drivers {
        order := order + [driverId];
      }
      drivers := drivers[driverId := s];
    }

    method SetOnlineStatus(driverId: string, vehicleId: Option<string>, online: bool)
      requires Valid()
      modifies this
      ensures Valid() && Snapshot() == SetOnline(old(Snapshot()), driverId, vehicleId, online)
    {
      var s := if driverId in drivers then drivers[driverId] else DriverState(None, false, false);
      s := s.(online := online);
      if vehicleId.Some? && vehicleId.value != "" {
        s := s.(vehicleId := vehicleId);
      }
      SetDriver(driverId, s);
    }

    method SetOnRideStatus(driverId: string, onRide: bool)
      requires Valid()
      modifies this
      ensures Valid() && Snapshot() == SetOnRide(old(Snapshot()), driverId, onRide)
    {
      if driverId in drivers {
        SetDriver(driverId, drivers[driverId].(onRide := onRide));
      } else {
        SetDriver(driverId, DriverState(None, false, onRide));
      }
    }

    method SetVehicleZone(vehicleId: string, zoneId: string)
      requires Valid()
      modifies this`vehicleZone
      ensures Valid() && Snapshot() == old(Snapshot()).(vehicleZone := old(vehicleZone)[vehicleId := zoneId])
    {
      vehicleZone := vehicleZone[vehicleId := zoneId];
    }

    method SetTracker(vehicleId: string, ok: bool)
      requires Valid()
      modifies this`trackerOk
      ensures Valid() && Snapshot() == old(Snapshot()).(trackerOk := old(trackerOk)[vehicleId := ok])
    {
      trackerOk := trackerOk[vehicleId := ok];
    }

    method FindAssignment(driverId: string) returns (a: Option<EligibleDriver>)
      ensures a == AssignmentFor(Snapshot(), driverId)
    {
      if driverId !in drivers || drivers[driverId].vehicleId.None? || drivers[driverId].vehicleId.value == "" {
        return None;
      }
      var v := drivers[driverId].vehicleId.value;
      if v !in vehicleZone || vehicleZone[v] == "" {
        return None;
      }
      a := Some(EligibleDriver(driverId, v, vehicleZone[v]));
    }

    method ListEligible(zoneIds: set<string>) returns (out: seq<EligibleDriver>)
      requires Valid()
      ensures out == EligibleInZones(Snapshot(), zoneIds)
    {
      out := [];
      var i := 0;
      while i < |order|
        invariant 0 <= i <= |order| && out == EligibleAmong(Snapshot(), zoneIds, i)
      {
        var driverId := order[i];
        i := i + 1;
        var s := drivers[driverId];
        if !s.online || s.onRide || s.vehicleId.None? || s.vehicleId.value == "" {
          continue;
        }
        var v := s.vehicleId.value;
        if v !in vehicleZone || vehicleZone[v] == "" || vehicleZone[v] !in zoneIds {
          continue;
        }
        if v in trackerOk && !trackerOk[v] {
          continue;
        }
        out := out + [EligibleDriver(driverId, v, vehicleZone[v])];
      }
    }
  }

  lemma {:induction false} ListedAreScanned(r: Registry, zoneIds: set<string>, n: nat)
    requires n <= |r.order|
    ensures var out := EligibleAmong(r, zoneIds, n);
      && (forall k :: 0 <= k < n && Eligible(r, r.order[k], zoneIds) ==> Offer(r, r.order[k], zoneIds) in out)
      && (forall i :: 0 <= i < |out| ==> exists k :: 0 <= k < n && r.order[k] == out[i].driverId)
  {
    if n > 0 {
      ListedAreScanned(r, zoneIds, n - 1);
      var before, out, d := EligibleAmong(r, zoneIds, n - 1), EligibleAmong(r, zoneIds, n), r.order[n - 1];
      assert out == before + if Eligible(r, d, zoneIds) then [Offer(r, d, zoneIds)] else [];
      forall i | 0 <= i < |out|
        ensures exists k :: 0 <= k < n && r.order[k] == out[i].driverId
      {
        if i < |before| {
          var k :| 0 <= k < n - 1 && r.order[k] == before[i].driverId;
          assert r.order[k] == out[i].driverId;
        } else {
          assert r.order[n - 1] == out[i].driverId;
        }
      }
    }
  }

  lemma {:induction false} ListedOnce(r: Registry, zoneIds: set<string>, n: nat)
    requires WellFormed(r) && n <= |r.order|
    ensures var out := EligibleAmong(r, zoneIds, n);
      forall i, j :: 0 <= i < j < |out| ==> out[i].driverId != out[j].driverId
  {
    if n > 0 {
      ListedOnce(r, zoneIds, n - 1);
      ListedAreScanned(r, zoneIds, n - 1);
    }
  }

  /** Exactly the eligible drivers are listed, each once, with its vehicle and zone. */
  lemma EligibleInZonesIsExact(r: Registry, zoneIds: set<string>)
    requires WellFormed(r)
    ensures var out := EligibleInZones(r, zoneIds);
      && (forall d :: Eligible(r, d, zoneIds) <==> exists e :: e in out && e.driverId == d)
      && (forall e <- out :: e.zoneId in zoneIds && AssignmentFor(r, e.driverId) == Some(e))
      && (forall i, j :: 0 <= i < j < |out| ==> out[i].driverId != out[j].driverId)
  {
    ListedAreScanned(r, zoneIds, |r.order|);
    ListedOnce(r, zoneIds, |r.order|);
    var out := EligibleInZones(r, zoneIds);
    forall d | Eligible(r, d, zoneIds)
      ensures exists e :: e in out && e.driverId == d
    {
      assert d in r.order;
      assert Offer(r, d, zoneIds) in out;
    }
  }
}
