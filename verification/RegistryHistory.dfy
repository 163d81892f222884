/**
 * Who may be offered a ride, read off the calls that services/dispatch/src/registries/driver-registry.service.ts
 * received rather than off the maps it keeps.
 */
module RegistryHistory {
  import opened Wrappers
  import opened DriverRegistry

  datatype Call =
    | OnlineCall(driverId: string, reported: Option<string>, online: bool)
    | OnRideCall(driverId: string, onRide: bool)
    | ZoneCall(vehicleId: string, zoneId: string)
    | TrackerCall(vehicleId: string, ok: bool)

  function Perform(r: Registry, c: Call): Registry {
    match c
    case OnlineCall(d, vehicleId, online) => SetOnline(r, d, vehicleId, online)
    case OnRideCall(d, onRide) => SetOnRide(r, d, onRide)
    case ZoneCall(v, z) => r.(vehicleZone := r.vehicleZone[v := z])
    case TrackerCall(v, ok) => r.(trackerOk := r.trackerOk[v := ok])
  }

  function Run(calls: seq<Call>): Registry {
    if calls == [] then Registry([], map[], map[], map[]) else Perform(Run(calls[..|calls| - 1]), calls[|calls| - 1])
  }

  /** What a call may be about: a driver's being online, its vehicle, its ride, a vehicle's zone, its tracker. */
  datatype Topic = OnlineOf(d: string) | VehicleOf(d: string) | RideOf(d: string) | ZoneOf(v: string) | TrackerOf(v: string)

  predicate Tells(c: Call, t: Topic) {
    match t
    case OnlineOf(d) => c.OnlineCall? && c.driverId == d
    case VehicleOf(d) => c.OnlineCall? && c.driverId == d && c.reported.Some? && c.reported.value != ""
    case RideOf(d) => c.OnRideCall? && c.driverId == d
    case ZoneOf(v) => c.ZoneCall? && c.vehicleId == v
    case TrackerOf(v) => c.TrackerCall? && c.vehicleId == v
  }

  /** The latest call about a topic. */
  function Latest(calls: seq<Call>, t: Topic): (c: Option<Call>)
    ensures c.None? ==> forall i :: 0 <= i < |calls| ==> !Tells(calls[i], t)
    ensures c.Some? ==> Tells(c.value, t) && exists i :: 0 <= i < |calls| && calls[i] == c.value && forall j :: i < j < |calls| ==> !Tells(calls[j], t)
  {
    if calls == [] then None
    else
      var n := |calls| - 1;
      if Tells(calls[n], t) then Some(calls[n]) else Latest(calls[..n], t)
  }

  /** What the maps hold for a driver is what the calls last told. */
  ghost predicate DriverHeld(r: Registry, calls: seq<Call>, d: string) {
    var o, v, b := Latest(calls, OnlineOf(d)), Latest(calls, VehicleOf(d)), Latest(calls, RideOf(d));
    && (d in r.drivers <==> o.Some? || b.Some?)
    && (d in r.drivers ==> r.drivers[d] == DriverState(
          if v.Some? then v.value.reported else None, o.Some? && o.value.online, b.Some? && b.value.onRide))
  }

  lemma OnlineKeepsHeld(r: Registry, calls: seq<Call>, c: Call, d: string)
    requires DriverHeld(r, calls, d) && c.OnlineCall?
    ensures DriverHeld(Perform(r, c), calls + [c], d)
  {
    assert (calls + [c])[..|calls|] == calls;
    VehicleComesOnline(calls, d);
  }

  lemma OtherKeepsHeld(r: Registry, calls: seq<Call>, c: Call, d: string)
    requires DriverHeld(r, calls, d) && !c.OnlineCall?
    ensures DriverHeld(Perform(r, c), calls + [c], d)
  {
    assert (calls + [c])[..|calls|] == calls;
    VehicleComesOnline(calls, d);
  }

  /** A vehicle is only ever reported with the driver's going on or off line. */
  lemma {:induction false} VehicleComesOnline(calls: seq<Call>, d: string)
    ensures Latest(calls, VehicleOf(d)).Some? ==> Latest(calls, OnlineOf(d)).Some?
  {
    if calls != [] {
      VehicleComesOnline(calls[..|calls| - 1], d);
    }
  }

  lemma {:induction false} DriverIsLatest(calls: seq<Call>, d: string)
    ensures DriverHeld(Run(calls), calls, d)
  {
    if calls != [] {
      var init, c := calls[..|calls| - 1], calls[|calls| - 1];
      DriverIsLatest(init, d);
      assert calls == init + [c];
      if c.OnlineCall? {
        OnlineKeepsHeld(Run(init), init, c, d);
      } else {
        OtherKeepsHeld(Run(init), init, c, d);
      }
    }
  }

  lemma {:induction false} VehicleIsLatest(calls: seq<Call>, v: string)
    ensures var r, z, t := Run(calls), Latest(calls, ZoneOf(v)), Latest(calls, TrackerOf(v));
      && (v in r.vehicleZone <==> z.Some?) && (z.Some? ==> r.vehicleZone[v] == z.value.zoneId)
      && (v in r.trackerOk <==> t.Some?) && (t.Some? ==> r.trackerOk[v] == t.value.ok)
  {
    if calls != [] {
      VehicleIsLatest(calls[..|calls| - 1], v);
    }
  }

  /** Some vehicle was reported for the driver, last this one, and its latest zone is one of these, with no bad tracker. */
  predicate DrivesIn(calls: seq<Call>, d: string, zoneIds: set<string>) {
    && Latest(calls, VehicleOf(d)).Some?
    && var v := Latest(calls, VehicleOf(d)).value.reported.value;
    && Latest(calls, ZoneOf(v)).Some? && Latest(calls, ZoneOf(v)).value.zoneId != ""
    && Latest(calls, ZoneOf(v)).value.zoneId in zoneIds
    && (Latest(calls, TrackerOf(v)).Some? ==> Latest(calls, TrackerOf(v)).value.ok)
  }

  /**
   * A driver may be offered a ride exactly if last reported online, not last reported on a ride, and the
   * vehicle last reported for the driver was last paired to one of the zones and has not last lost its tracker.
   */
  lemma {:induction false} EligibleExactlyByHistory(calls: seq<Call>, d: string, zoneIds: set<string>)
    ensures Eligible(Run(calls), d, zoneIds) <==>
      && Latest(calls, OnlineOf(d)).Some? && Latest(calls, OnlineOf(d)).value.online
      && (Latest(calls, RideOf(d)).Some? ==> !Latest(calls, RideOf(d)).value.onRide)
      && DrivesIn(calls, d, zoneIds)
  {
    DriverIsLatest(calls, d);
    if Latest(calls, VehicleOf(d)).Some? {
      VehicleIsLatest(calls, Latest(calls, VehicleOf(d)).value.reported.value);
    }
  }

  /** A won claim names the vehicle last reported for the driver and the zone it was last paired to, if there are both. */
  lemma {:induction false} AssignmentIsLatest(calls: seq<Call>, d: string)
    ensures var a := AssignmentFor(Run(calls), d);
      var v := Latest(calls, VehicleOf(d));
      && (a.Some? <==> v.Some? && Latest(calls, ZoneOf(v.value.reported.value)).Some? && Latest(calls, ZoneOf(v.value.reported.value)).value.zoneId != "")
      && (a.Some? ==> a.value == EligibleDriver(d, v.value.reported.value, Latest(calls, ZoneOf(v.value.reported.value)).value.zoneId))
  {
    DriverIsLatest(calls, d);
    if Latest(calls, VehicleOf(d)).Some? {
      VehicleIsLatest(calls, Latest(calls, VehicleOf(d)).value.reported.value);
      VehicleComesOnline(calls, d);
    }
  }

  /** Every registry these calls build lists each of its drivers once. */
  lemma {:induction false} RunIsWellFormed(calls: seq<Call>)
    ensures WellFormed(Run(calls))
  {
    if calls != [] {
      RunIsWellFormed(calls[..|calls| - 1]);
    }
  }
}
