/** Refresh tokens, the table that stores them and the Redis blacklist in front of it. */
module Tokens {
  import opened Collections

  type Time = int
  type TokenId = nat
  type UserId = nat

  /** SHA-256 is taken to be injective: a digest remembers what was hashed. */
  datatype TokenHash = Sha256(raw: string)

  function HashToken(raw: string): TokenHash { Sha256(raw) }

  datatype RefreshToken = RefreshToken(
    id: TokenId, user: UserId, hash: TokenHash, expiresAt: Time, createdAt: Time, revokedAt: Option<Time>)
  {
    predicate IsRevoked() { revokedAt.Some? }

    predicate IsExpired(now: Time) { now > expiresAt }

    /** Time left until expiry, never negative: it reaches exactly to the expiry of a live token. */
    function RemainingLifetime(at: Time): (d: int)
      ensures d >= 0
      ensures at + d == if IsExpired(at) then at else expiresAt
    {
      if expiresAt - at < 0 then 0 else expiresAt - at
    }

    /** The columns no statement ever updates. */
    predicate SameIdentity(other: RefreshToken) {
      other.(revokedAt := None) == this.(revokedAt := None)
    }
  }

  type Table = map<TokenId, RefreshToken>

  /** The WHERE clause of the compare-and-set: the row exists and is not revoked yet. */
  predicate CanRevoke(rows: Table, id: TokenId) {
    id in rows && !rows[id].IsRevoked()
  }

  /** The compare-and-set: it changes the row only if nobody has revoked it before. */
  function RevokeRow(rows: Table, id: TokenId, now: Time): Table {
    if CanRevoke(rows, id) then rows[id := rows[id].(revokedAt := Some(now))] else rows
  }

  /** Revokes whatever of the user is not revoked yet; earlier revocations keep their instants. */
  function RevokeUser(rows: Table, user: UserId, now: Time): Table {
    map id | id in rows ::
      if rows[id].user == user && !rows[id].IsRevoked() then rows[id].(revokedAt := Some(now)) else rows[id]
  }

  /** What the lookup by hash may answer. The index is not unique, so any row carrying the hash is a
      legal answer. */
  predicate Answers(rows: Table, hash: TokenHash, found: Option<TokenId>) {
    match found
    case None => forall id :: id in rows ==> rows[id].hash != hash
    case Some(id) => id in rows && rows[id].hash == hash
  }

  /** Blacklisted hashes with the instant at which Redis drops them. */
  type Blacklist = map<TokenHash, Time>

  /** An entry is visible through its deadline. */
  predicate Listed(blacklist: Blacklist, hash: TokenHash, now: Time) {
    hash in blacklist && now <= blacklist[hash]
  }

  /** A key with a lifetime; a zero or negative lifetime writes nothing. */
  function Blacklisted(blacklist: Blacklist, hash: TokenHash, ttl: int, now: Time): Blacklist {
    if ttl <= 0 then blacklist else blacklist[hash := now + ttl]
  }

  /** However many tokens are in use, the generator has another one to give. */
  lemma UnusedRaw(hashes: set<TokenHash>) returns (raw: string)
    ensures HashToken(raw) !in hashes
  {
    var lengths: set<nat> := set h | h in hashes :: |h.raw|;
    var bound := UpperBound(lengths);
    raw := seq(bound, _ => '0');
    assert HashToken(raw) in hashes ==> |raw| in lengths;
  }
}
