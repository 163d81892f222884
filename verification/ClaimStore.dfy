/** services/dispatch/src/claim/claim.store.ts: SET NX PX on one key a ride, over an expiring store. */
module ClaimStore {
  import opened Wrappers

  datatype Claim = Claim(driverId: string, expiresAt: int)

  /** The driver who holds the claim at a time; an expired key counts as absent. */
  function HolderAt(keys: map<string, Claim>, rideId: string, now: int): Option<string> {
    if rideId in keys && now < keys[rideId].expiresAt then Some(keys[rideId].driverId) else None
  }

  class RedisClaimStore {
    var keys: map<string, Claim>

    constructor ()
      ensures keys == map[]
    {
      keys := map[];
    }

    /** Only a free key can be claimed, and a claim is then the holder's until it expires. */
    method TryClaim(rideId: string, driverId: string, ttlMs: int, now: int) returns (won: bool)
      modifies this
      ensures won == HolderAt(old(keys), rideId, now).None?
      ensures won ==> keys == old(keys)[rideId := Claim(driverId, now + ttlMs)]
      ensures !won ==> keys == old(keys)
      ensures won ==> forall t :: now <= t < now + ttlMs ==> HolderAt(keys, rideId, t) == Some(driverId)
      ensures forall r, t :: r != rideId ==> HolderAt(keys, r, t) == HolderAt(old(keys), r, t)
    {
      if rideId in keys && now < keys[rideId].expiresAt {
        return false;
      }
      keys := keys[rideId := Claim(driverId, now + ttlMs)];
      won := true;
    }

    method Holder(rideId: string, now: int) returns (h: Option<string>)
      ensures h == HolderAt(keys, rideId, now)
    {
      h := None;
      if rideId in keys {
        var c := keys[rideId];
        if now < c.expiresAt {
          h := Some(c.driverId);
        }
      }
    }
  }
}
