/**
 * services/auth/src/tokens/token.service.ts: rotating refresh tokens in families, with reuse
 * detection. Random token strings are inputs; the hash is a given function.
 */
module Tokens {
  import opened Wrappers

  datatype RefreshToken = RefreshToken(
    tokenHash: string, userId: string, familyId: nat, deviceId: Option<string>,
    expiresAt: int, revokedAt: Option<int>)

  datatype AuthError = RefreshInvalid | RefreshReused | UserGone | DuplicateHash

  /**
   * The token table in insertion order, the families issued so far, and, for each row, the
   * index of the row whose rotation minted it (history the table itself does not keep).
   */
  datatype State = State(rows: seq<RefreshToken>, families: nat, mintedFrom: seq<Option<nat>>)

  const Empty := State([], 0, [])

  /** A clock reading and the random refresh token come with the call. */
  datatype Call =
    | IssuePair(userId: string, deviceId: Option<string>, refresh: string, now: int)
    | Rotate(presented: string, userExists: bool, refresh: string, now: int)
    | Revoke(presented: string, now: int)

  /** The hash function and the lifetime of a refresh token. */
  datatype Config = Config(hash: string -> string, ttlMs: int)

  /** The row findOne returns for a hash, or |rows| if there is none. */
  function IndexOf(rows: seq<RefreshToken>, tokenHash: string): (i: nat)
    ensures i <= |rows|
    ensures i < |rows| ==> rows[i].tokenHash == tokenHash
    ensures forall j :: 0 <= j < i ==> rows[j].tokenHash != tokenHash
  {
    if rows == [] then 0
    else if rows[0].tokenHash == tokenHash then 0
    else 1 + IndexOf(rows[1..], tokenHash)
  }

  function RevokeFamily(rows: seq<RefreshToken>, familyId: nat, now: int): (r: seq<RefreshToken>)
    ensures |r| == |rows|
  {
    seq(|rows|, i requires 0 <= i < |rows| =>
      if rows[i].familyId == familyId then rows[i].(revokedAt := Some(now)) else rows[i])
  }

  function RevokeHash(rows: seq<RefreshToken>, tokenHash: string, now: int): (r: seq<RefreshToken>)
    ensures |r| == |rows|
  {
    seq(|rows|, i requires 0 <= i < |rows| =>
      if rows[i].tokenHash == tokenHash then rows[i].(revokedAt := Some(now)) else rows[i])
  }

  /** Insert a new row, unless the unique index on the hash refuses it. */
  function Mint(c: Config, s: State, userId: string, familyId: nat, deviceId: Option<string>,
                refresh: string, now: int, from: Option<nat>): (State, Result<string, AuthError>)
  {
    if IndexOf(s.rows, c.hash(refresh)) < |s.rows| then (s, Err(DuplicateHash))
    else
      var row := RefreshToken(c.hash(refresh), userId, familyId, deviceId, now + c.ttlMs, None);
      (s.(rows := s.rows + [row], mintedFrom := s.mintedFrom + [from]), Ok(refresh))
  }

  function Step(c: Config, s: State, call: Call): (State, Result<string, AuthError>) {
    match call
    case IssuePair(userId, deviceId, refresh, now) =>
      Mint(c, s.(families := s.families + 1), userId, s.families, deviceId, refresh, now, None)
    case Rotate(presented, userExists, refresh, now) =>
      var i := IndexOf(s.rows, c.hash(presented));
      if i == |s.rows| then (s, Err(RefreshInvalid))
      else
        var existing := s.rows[i];
        if existing.revokedAt.Some? || existing.expiresAt < now then
          (s.(rows := RevokeFamily(s.rows, existing.familyId, now)), Err(RefreshReused))
        else
          var spent := s.(rows := s.rows[i := existing.(revokedAt := Some(now))]);
          if !userExists then (spent, Err(UserGone))
          else Mint(c, spent, existing.userId, existing.familyId, existing.deviceId, refresh, now, Some(i))
    case Revoke(presented, now) =>
      (s.(rows := RevokeHash(s.rows, c.hash(presented), now)), Ok(""))
  }

  class TokenService {
    const config: Config
    var rows: seq<RefreshToken>
    var families: nat
    ghost var mintedFrom: seq<Option<nat>>

    constructor (config: Config)
      ensures this.config == config && Snapshot() == Empty
    {
      this.config := config;
      rows, families, mintedFrom := [], 0, [];
    }

    ghost function Snapshot(): State
      reads this
    {
      State(rows, families, mintedFrom)
    }

    method IssuePair(userId: string, deviceId: Option<string>, refresh: string, now: int)
      returns (r: Result<string, AuthError>)
      modifies this
      ensures (Snapshot(), r) == Step(config, old(Snapshot()), Call.IssuePair(userId, deviceId, refresh, now))
    {
      var familyId := families;
      families := families + 1;
      r := MintRow(userId, familyId, deviceId, refresh, now, None);
    }

    method Rotate(presented: string, userExists: bool, refresh: string, now: int)
      returns (r: Result<string, AuthError>)
      modifies this
      ensures (Snapshot(), r) == Step(config, old(Snapshot()), Call.Rotate(presented, userExists, refresh, now))
    {
      var i := FindByHash(config.hash(presented));
      if i == |rows| {
        return Err(RefreshInvalid);
      }
      var existing := rows[i];
      if existing.revokedAt.Some? || existing.expiresAt < now {
        UpdateFamily(existing.familyId, now);
        return Err(RefreshReused);
      }
      rows := rows[i := existing.(revokedAt := Some(now))];
      if !userExists {
        return Err(UserGone);
      }
      r := MintRow(existing.userId, existing.familyId, existing.deviceId, refresh, now, Some(i));
    }

    method Revoke(presented: string, now: int)
      modifies this`rows
      ensures Snapshot() == Step(config, old(Snapshot()), Call.Revoke(presented, now)).0
    {
      var tokenHash := config.hash(presented);
      var i := 0;
      while i < |rows|
        invariant 0 <= i <= |rows| == |old(rows)|
        invariant forall j :: 0 <= j < i ==> rows[j] == RevokeHash(old(rows), tokenHash, now)[j]
        invariant forall j :: i <= j < |rows| ==> rows[j] == old(rows)[j]
      {
        if rows[i].tokenHash == tokenHash {
          rows := rows[i := rows[i].(revokedAt := Some(now))];
        }
        i := i + 1;
      }
    }

    method UpdateFamily(familyId: nat, now: int)
      modifies this`rows
      ensures rows == RevokeFamily(old(rows), familyId, now)
    {
      var i := 0;
      while i < |rows|
        invariant 0 <= i <= |rows| == |old(rows)|
        invariant forall j :: 0 <= j < i ==> rows[j] == RevokeFamily(old(rows), familyId, now)[j]
        invariant forall j :: i <= j < |rows| ==> rows[j] == old(rows)[j]
      {
        if rows[i].familyId == familyId {
          rows := rows[i := rows[i].(revokedAt := Some(now))];
        }
        i := i + 1;
      }
    }

    method FindByHash(tokenHash: string) returns (i: nat)
      ensures i == IndexOf(rows, tokenHash)
    {
      i := 0;
      while i < |rows| && rows[i].tokenHash != tokenHash
        invariant 0 <= i <= |rows|
        invariant IndexOf(rows, tokenHash) == i + IndexOf(rows[i..], tokenHash)
      {
        assert rows[i..][1..] == rows[i + 1..];
        i := i + 1;
      }
    }

    method MintRow(userId: string, familyId: nat, deviceId: Option<string>, refresh: string, now: int,
                   ghost from: Option<nat>) returns (r: Result<string, AuthError>)
      modifies this`rows, this`mintedFrom
      ensures (Snapshot(), r) == Mint(config, old(Snapshot()), userId, familyId, deviceId, refresh, now, from)
    {
      var i := FindByHash(config.hash(refresh));
      if i < |rows| {
        return Err(DuplicateHash);
      }
      rows := rows + [RefreshToken(config.hash(refresh), userId, familyId, deviceId, now + config.ttlMs, None)];
      mintedFrom := mintedFrom + [from];
      r := Ok(refresh);
    }
  }

  // --------------------------------------------------------------- family invariants

  /** In a family only the newest token may still be live. */
  ghost predicate OnlyNewestLive(s: State) {
    forall i, j :: 0 <= i < j < |s.rows| && s.rows[i].familyId == s.rows[j].familyId ==> s.rows[i].revokedAt.Some?
  }

  /**
   * A family is one chain: its first token was issued, and each later one was minted by
   * rotating the token just before it in the family, for the same user and device.
   */
  ghost predicate LinearChains(s: State) {
    && |s.mintedFrom| == |s.rows|
    && forall j :: 0 <= j < |s.rows| ==>
        match s.mintedFrom[j]
        case None => forall i :: 0 <= i < j ==> s.rows[i].familyId != s.rows[j].familyId
        case Some(p) =>
          && p < j && s.rows[p].familyId == s.rows[j].familyId
          && s.rows[p].userId == s.rows[j].userId && s.rows[p].deviceId == s.rows[j].deviceId
          && forall i :: p < i < j ==> s.rows[i].familyId != s.rows[j].familyId
  }

  ghost predicate FamiliesIssued(s: State) {
    forall i :: 0 <= i < |s.rows| ==> s.rows[i].familyId < s.families
  }

  ghost predicate UniqueHashes(s: State) {
    forall i, j :: 0 <= i < j < |s.rows| ==> s.rows[i].tokenHash != s.rows[j].tokenHash
  }

  ghost predicate Valid(s: State) {
    OnlyNewestLive(s) && LinearChains(s) && FamiliesIssued(s) && UniqueHashes(s)
  }

  lemma MintKeepsValid(c: Config, s: State, userId: string, familyId: nat, deviceId: Option<string>,
                       refresh: string, now: int, from: Option<nat>)
    requires Valid(s) && familyId < s.families
    requires forall i :: 0 <= i < |s.rows| && s.rows[i].familyId == familyId ==> s.rows[i].revokedAt.Some?
    requires match from
      case None => forall i :: 0 <= i < |s.rows| ==> s.rows[i].familyId != familyId
      case Some(p) => p < |s.rows| && s.rows[p].familyId == familyId
                      && s.rows[p].userId == userId && s.rows[p].deviceId == deviceId
                      && forall i :: p < i < |s.rows| ==> s.rows[i].familyId != familyId
    ensures Valid(Mint(c, s, userId, familyId, deviceId, refresh, now, from).0)
  {
  }

  /** A live token is the last of its family. */
  lemma LiveIsNewest(s: State, i: nat)
    requires OnlyNewestLive(s) && i < |s.rows| && s.rows[i].revokedAt.None?
    ensures forall j :: i < j < |s.rows| ==> s.rows[j].familyId != s.rows[i].familyId
    ensures forall j :: 0 <= j < |s.rows| && j != i && s.rows[j].familyId == s.rows[i].familyId ==>
      s.rows[j].revokedAt.Some?
  {
  }

  /** b is a, with at most some revocation times set or moved. */
  ghost predicate OnlyRevokes(a: seq<RefreshToken>, b: seq<RefreshToken>) {
    && |a| == |b|
    && forall i :: 0 <= i < |a| ==>
        && a[i].tokenHash == b[i].tokenHash && a[i].familyId == b[i].familyId
        && a[i].userId == b[i].userId && a[i].deviceId == b[i].deviceId
        && (a[i].revokedAt.Some? ==> b[i].revokedAt.Some?)
  }

  lemma RevokingKeepsValid(s: State, rows: seq<RefreshToken>)
    requires Valid(s) && OnlyRevokes(s.rows, rows)
    ensures Valid(s.(rows := rows))
  {
  }

  lemma SpendingKeepsValid(s: State, i: nat, now: int)
    requires Valid(s) && i < |s.rows|
    ensures Valid(s.(rows := s.rows[i := s.rows[i].(revokedAt := Some(now))]))
  {
    RevokingKeepsValid(s, s.rows[i := s.rows[i].(revokedAt := Some(now))]);
  }

  lemma StepKeepsValid(c: Config, s: State, call: Call)
    requires Valid(s)
    ensures Valid(Step(c, s, call).0)
  {
    match call
    case IssuePair(userId, deviceId, refresh, now) =>
      MintKeepsValid(c, s.(families := s.families + 1), userId, s.families, deviceId, refresh, now, None);
    case Rotate(presented, userExists, refresh, now) =>
      RotateKeepsValid(c, s, presented, userExists, refresh, now);
    case Revoke(presented, now) =>
      RevokingKeepsValid(s, RevokeHash(s.rows, c.hash(presented), now));
  }

  lemma RotateKeepsValid(c: Config, s: State, presented: string, userExists: bool, refresh: string, now: int)
    requires Valid(s)
    ensures Valid(Step(c, s, Rotate(presented, userExists, refresh, now)).0)
  {
    var i := IndexOf(s.rows, c.hash(presented));
    if i < |s.rows| {
      var e := s.rows[i];
      if e.revokedAt.Some? || e.expiresAt < now {
        RevokingKeepsValid(s, RevokeFamily(s.rows, e.familyId, now));
      } else {
        SpendingKeepsValid(s, i, now);
        if userExists {
          LiveIsNewest(s, i);
          MintKeepsValid(c, s.(rows := s.rows[i := e.(revokedAt := Some(now))]), e.userId, e.familyId, e.deviceId, refresh, now, Some(i));
        }
      }
    }
  }

  function Run(c: Config, s: State, calls: seq<Call>): State {
    if calls == [] then s else Step(c, Run(c, s, calls[..|calls| - 1]), calls[|calls| - 1]).0
  }

  /** After any calls, every family is a linear chain with at most its newest token live. */
  lemma {:induction false} FamiliesAreLinearChains(c: Config, calls: seq<Call>)
    ensures Valid(Run(c, Empty, calls))
  {
    if calls != [] {
      FamiliesAreLinearChains(c, calls[..|calls| - 1]);
      StepKeepsValid(c, Run(c, Empty, calls[..|calls| - 1]), calls[|calls| - 1]);
    }
  }

  /** No token is ever rotated successfully twice: two tokens never share a parent. */
  lemma {:induction false} RotatedAtMostOnce(c: Config, calls: seq<Call>, i: nat, j: nat)
    requires var s := Run(c, Empty, calls);
      i < j < |s.mintedFrom| && s.mintedFrom[i].Some? && s.mintedFrom[j].Some?
    ensures var s := Run(c, Empty, calls); s.mintedFrom[i] != s.mintedFrom[j]
  {
    FamiliesAreLinearChains(c, calls);
  }

  // ----------------------------------------------------------------- dead families

  /** An issued family without a live token. */
  ghost predicate Dead(s: State, familyId: nat) {
    familyId < s.families
    && forall i :: 0 <= i < |s.rows| && s.rows[i].familyId == familyId ==> s.rows[i].revokedAt.Some?
  }

  function CountFamily(rows: seq<RefreshToken>, familyId: nat): nat {
    if rows == [] then 0
    else CountFamily(rows[..|rows| - 1], familyId) + if rows[|rows| - 1].familyId == familyId then 1 else 0
  }

  lemma {:induction false} SameFamiliesSameCount(a: seq<RefreshToken>, b: seq<RefreshToken>, familyId: nat)
    requires |a| == |b| && forall i :: 0 <= i < |a| ==> a[i].familyId == b[i].familyId
    ensures CountFamily(a, familyId) == CountFamily(b, familyId)
  {
    if a != [] {
      SameFamiliesSameCount(a[..|a| - 1], b[..|b| - 1], familyId);
    }
  }

  lemma MintElsewhereKeepsDead(c: Config, s: State, userId: string, minted: nat, deviceId: Option<string>,
                               refresh: string, now: int, from: Option<nat>, familyId: nat)
    requires Dead(s, familyId) && minted != familyId
    ensures var t := Mint(c, s, userId, minted, deviceId, refresh, now, from).0;
      Dead(t, familyId) && CountFamily(t.rows, familyId) == CountFamily(s.rows, familyId)
  {
    var t := Mint(c, s, userId, minted, deviceId, refresh, now, from).0;
    assert t.rows[..|s.rows|] == s.rows;
  }

  lemma RevokingKeepsDead(s: State, rows: seq<RefreshToken>, familyId: nat)
    requires Dead(s, familyId) && OnlyRevokes(s.rows, rows)
    ensures Dead(s.(rows := rows), familyId) && CountFamily(rows, familyId) == CountFamily(s.rows, familyId)
  {
    SameFamiliesSameCount(s.rows, rows, familyId);
  }

  lemma StepKeepsDead(c: Config, s: State, call: Call, familyId: nat)
    requires Dead(s, familyId)
    ensures var t := Step(c, s, call).0;
      Dead(t, familyId) && CountFamily(t.rows, familyId) == CountFamily(s.rows, familyId)
  {
    match call
    case IssuePair(userId, deviceId, refresh, now) =>
      MintElsewhereKeepsDead(c, s.(families := s.families + 1), userId, s.families, deviceId, refresh, now, None, familyId);
    case Rotate(presented, userExists, refresh, now) =>
      var i := IndexOf(s.rows, c.hash(presented));
      if i < |s.rows| {
        var e := s.rows[i];
        if e.revokedAt.Some? || e.expiresAt < now {
          RevokingKeepsDead(s, RevokeFamily(s.rows, e.familyId, now), familyId);
        } else {
          var spent := s.rows[i := e.(revokedAt := Some(now))];
          RevokingKeepsDead(s, spent, familyId);
          MintElsewhereKeepsDead(c, s.(rows := spent), e.userId, e.familyId, e.deviceId, refresh, now, Some(i), familyId);
        }
      }
    case Revoke(presented, now) =>
      RevokingKeepsDead(s, RevokeHash(s.rows, c.hash(presented), now), familyId);
  }

  /** A dead family stays dead, and gains no token, whatever is presented later. */
  lemma {:induction false} DeadForever(c: Config, s: State, calls: seq<Call>, familyId: nat)
    requires Dead(s, familyId)
    ensures var t := Run(c, s, calls);
      Dead(t, familyId) && CountFamily(t.rows, familyId) == CountFamily(s.rows, familyId)
  {
    if calls != [] {
      DeadForever(c, s, calls[..|calls| - 1], familyId);
      StepKeepsDead(c, Run(c, s, calls[..|calls| - 1]), calls[|calls| - 1], familyId);
    }
  }

  /** A rotation that fails on a known token kills its family, for reuse, expiry or a lost user. */
  lemma FailedRotationKillsFamily(c: Config, s: State, presented: string, userExists: bool, refresh: string, now: int)
    requires Valid(s) && IndexOf(s.rows, c.hash(presented)) < |s.rows|
    ensures var (t, r) := Step(c, s, Rotate(presented, userExists, refresh, now));
      r.Err? ==> Dead(t, s.rows[IndexOf(s.rows, c.hash(presented))].familyId)
  {
    var i := IndexOf(s.rows, c.hash(presented));
    if s.rows[i].revokedAt.None? {
      LiveIsNewest(s, i);
    }
  }

  /** Exactly the live, unexpired token of an existing user rotates, and only into an unused hash. */
  lemma RotatesExactlyWhenLive(c: Config, s: State, presented: string, userExists: bool, refresh: string, now: int)
    requires Valid(s)
    ensures Step(c, s, Rotate(presented, userExists, refresh, now)).1.Ok? <==>
      && userExists
      && (forall j :: 0 <= j < |s.rows| ==> s.rows[j].tokenHash != c.hash(refresh))
      && exists i :: 0 <= i < |s.rows| && s.rows[i].tokenHash == c.hash(presented)
                     && s.rows[i].revokedAt.None? && now <= s.rows[i].expiresAt
  {
    var i := IndexOf(s.rows, c.hash(presented));
    if i < |s.rows| && userExists {
      var spent := s.rows[i := s.rows[i].(revokedAt := Some(now))];
      var k := IndexOf(spent, c.hash(refresh));
      assert forall j :: 0 <= j < |spent| ==> spent[j].tokenHash == s.rows[j].tokenHash;
    }
  }

  ghost predicate Injective(f: string -> string) {
    forall a, b :: f(a) == f(b) ==> a == b
  }

  /** Logging out with one token touches no other, when distinct tokens hash apart. */
  lemma LogoutIsLocal(c: Config, s: State, presented: string, other: string, now: int)
    requires Injective(c.hash) && presented != other
    ensures var t := Step(c, s, Revoke(presented, now)).0;
      forall i :: 0 <= i < |s.rows| && s.rows[i].tokenHash == c.hash(other) ==> t.rows[i] == s.rows[i]
  {
  }

  // ------------------------------------------------------------ what logging out ends

  /** The token with a hash is known and revoked. */
  ghost predicate Spent(s: State, tokenHash: string) {
    exists i :: 0 <= i < |s.rows| && s.rows[i].tokenHash == tokenHash && s.rows[i].revokedAt.Some?
  }

  lemma RevokingKeepsSpent(s: State, rows: seq<RefreshToken>, tokenHash: string)
    requires Spent(s, tokenHash) && OnlyRevokes(s.rows, rows)
    ensures Spent(s.(rows := rows), tokenHash)
  {
    var i :| 0 <= i < |s.rows| && s.rows[i].tokenHash == tokenHash && s.rows[i].revokedAt.Some?;
    assert rows[i].tokenHash == tokenHash && rows[i].revokedAt.Some?;
  }

  lemma MintKeepsSpent(c: Config, s: State, userId: string, familyId: nat, deviceId: Option<string>,
                       refresh: string, now: int, from: Option<nat>, tokenHash: string)
    requires Spent(s, tokenHash)
    ensures Spent(Mint(c, s, userId, familyId, deviceId, refresh, now, from).0, tokenHash)
  {
    var i :| 0 <= i < |s.rows| && s.rows[i].tokenHash == tokenHash && s.rows[i].revokedAt.Some?;
    var t := Mint(c, s, userId, familyId, deviceId, refresh, now, from).0;
    assert t.rows[i] == s.rows[i];
  }

  lemma StepKeepsSpent(c: Config, s: State, call: Call, tokenHash: string)
    requires Spent(s, tokenHash)
    ensures Spent(Step(c, s, call).0, tokenHash)
  {
    match call
    case IssuePair(userId, deviceId, refresh, now) =>
      MintKeepsSpent(c, s.(families := s.families + 1), userId, s.families, deviceId, refresh, now, None, tokenHash);
    case Rotate(presented, userExists, refresh, now) =>
      var i := IndexOf(s.rows, c.hash(presented));
      if i < |s.rows| {
        var e := s.rows[i];
        if e.revokedAt.Some? || e.expiresAt < now {
          RevokingKeepsSpent(s, RevokeFamily(s.rows, e.familyId, now), tokenHash);
        } else {
          var spent := s.rows[i := e.(revokedAt := Some(now))];
          RevokingKeepsSpent(s, spent, tokenHash);
          MintKeepsSpent(c, s.(rows := spent), e.userId, e.familyId, e.deviceId, refresh, now, Some(i), tokenHash);
        }
      }
    case Revoke(presented, now) =>
      RevokingKeepsSpent(s, RevokeHash(s.rows, c.hash(presented), now), tokenHash);
  }

  lemma {:induction false} SpentForever(c: Config, s: State, calls: seq<Call>, tokenHash: string)
    requires Spent(s, tokenHash)
    ensures Spent(Run(c, s, calls), tokenHash)
  {
    if calls != [] {
      SpentForever(c, s, calls[..|calls| - 1], tokenHash);
      StepKeepsSpent(c, Run(c, s, calls[..|calls| - 1]), calls[|calls| - 1], tokenHash);
    }
  }

  lemma {:induction false} ValidForever(c: Config, s: State, calls: seq<Call>)
    requires Valid(s)
    ensures Valid(Run(c, s, calls))
  {
    if calls != [] {
      ValidForever(c, s, calls[..|calls| - 1]);
      StepKeepsValid(c, Run(c, s, calls[..|calls| - 1]), calls[|calls| - 1]);
    }
  }

  lemma SpentIsReuse(c: Config, s: State, presented: string, userExists: bool, refresh: string, now: int)
    requires Valid(s) && Spent(s, c.hash(presented))
    ensures Step(c, s, Rotate(presented, userExists, refresh, now)).1 == Err(RefreshReused)
  {
    var i :| 0 <= i < |s.rows| && s.rows[i].tokenHash == c.hash(presented) && s.rows[i].revokedAt.Some?;
    assert IndexOf(s.rows, c.hash(presented)) == i;
  }

  /** A token logged out with is dead: whatever happens next, presenting it is refused as reuse. */
  lemma {:induction false} LogoutKillsToken(c: Config, calls: seq<Call>, presented: string, now: int, more: seq<Call>,
                                            userExists: bool, refresh: string, later: int)
    requires exists i :: 0 <= i < |Run(c, Empty, calls).rows| && Run(c, Empty, calls).rows[i].tokenHash == c.hash(presented)
    ensures var t := Run(c, Step(c, Run(c, Empty, calls), Revoke(presented, now)).0, more);
      Step(c, t, Rotate(presented, userExists, refresh, later)).1 == Err(RefreshReused)
  {
    var s := Run(c, Empty, calls);
    var t := Step(c, s, Revoke(presented, now)).0;
    var i :| 0 <= i < |s.rows| && s.rows[i].tokenHash == c.hash(presented);
    assert t.rows[i].tokenHash == c.hash(presented) && t.rows[i].revokedAt.Some?;
    FamiliesAreLinearChains(c, calls);
    StepKeepsValid(c, s, Revoke(presented, now));
    ValidForever(c, t, more);
    SpentForever(c, t, more, c.hash(presented));
    SpentIsReuse(c, Run(c, t, more), presented, userExists, refresh, later);
  }

  // ----------------------------------------------------------------- what is handed out

  /** A login opens a family of its own with one live token, for its user and device and a full lifetime. */
  lemma IssueOpensFamily(c: Config, s: State, userId: string, deviceId: Option<string>, refresh: string, now: int)
    requires Valid(s)
    ensures var (t, r) := Step(c, s, IssuePair(userId, deviceId, refresh, now));
      if r.Ok? then
        && r.value == refresh && |t.rows| == |s.rows| + 1 && t.rows[..|s.rows|] == s.rows
        && (forall i :: 0 <= i < |s.rows| ==> s.rows[i].familyId != t.rows[|s.rows|].familyId)
        && var x := t.rows[|s.rows|];
        x.tokenHash == c.hash(refresh) && x.userId == userId && x.deviceId == deviceId && x.expiresAt == now + c.ttlMs && x.revokedAt == None
      else t.rows == s.rows && exists i :: 0 <= i < |s.rows| && s.rows[i].tokenHash == c.hash(refresh)
  {
    var (t, r) := Step(c, s, IssuePair(userId, deviceId, refresh, now));
    if r.Err? {
      assert s.rows[IndexOf(s.rows, c.hash(refresh))].tokenHash == c.hash(refresh);
    } else {
      assert t.rows[..|s.rows|] == s.rows;
    }
  }

  /** A successful rotation revokes exactly the presented token and adds its successor, for the same user, family and device and a full lifetime. */
  lemma RotationReplacesToken(c: Config, s: State, presented: string, refresh: string, now: int, i: nat)
    requires Valid(s) && i < |s.rows| && s.rows[i].tokenHash == c.hash(presented)
    requires Step(c, s, Rotate(presented, true, refresh, now)).1.Ok?
    ensures var t := Step(c, s, Rotate(presented, true, refresh, now)).0;
      var x := s.rows[i];
      t.rows == s.rows[i := x.(revokedAt := Some(now))]
                + [RefreshToken(c.hash(refresh), x.userId, x.familyId, x.deviceId, now + c.ttlMs, None)]
    ensures Step(c, s, Rotate(presented, true, refresh, now)).1 == Ok(refresh)
  {
    assert IndexOf(s.rows, c.hash(presented)) == i;
  }

  /** A rotation touches no token of another family; a token nobody knows is invalid and touches none at all. */
  lemma RotationStaysInFamily(c: Config, s: State, presented: string, userExists: bool, refresh: string, now: int)
    requires Valid(s)
    ensures var (t, r) := Step(c, s, Rotate(presented, userExists, refresh, now));
      && (r == Err(RefreshInvalid) <==> forall i :: 0 <= i < |s.rows| ==> s.rows[i].tokenHash != c.hash(presented))
      && (r == Err(RefreshInvalid) ==> t == s)
      && |s.rows| <= |t.rows|
      && forall i, j :: 0 <= i < |s.rows| && s.rows[i].tokenHash == c.hash(presented) ==>
           (0 <= j < |s.rows| && s.rows[j].familyId != s.rows[i].familyId ==> t.rows[j] == s.rows[j])
  {
    var k := IndexOf(s.rows, c.hash(presented));
    if k < |s.rows| {
      assert forall i :: 0 <= i < |s.rows| && s.rows[i].tokenHash == c.hash(presented) ==> i == k;
    }
  }
}
