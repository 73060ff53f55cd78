/** The stores behind the four requests, updated in place one statement at a time. */
module TokenStores {
  import opened Collections
  import opened Tokens
  import opened Rotation

  /** The `refresh_tokens` table. `links` and `heirs` are the history kept beside it. */
  class RefreshTokenRepository {
    var rows: Table
    var links: map<TokenId, Link>
    var heirs: map<TokenId, TokenId>

    constructor ()
      ensures rows == map[] && links == map[] && heirs == map[]
    {
      rows, links, heirs := map[], map[], map[];
    }

    /** INSERT. A lost answer leaves the row in place and reports an error all the same. */
    method Create(token: RefreshToken, link: Link, write: Write) returns (ok: bool)
      modifies this
      ensures ok <==> write.Applied?
      ensures rows == if write.Failed? then old(rows) else old(rows)[token.id := token]
      ensures links == if write.Failed? then old(links) else old(links)[token.id := link]
      ensures heirs == if write.Failed? || link.parent.None? then old(heirs)
                       else old(heirs)[link.parent.value := token.id]
    {
      ok := write.Applied?;
      if !write.Failed? {
        rows := rows[token.id := token];
        links := links[token.id := link];
        if link.parent.Some? {
          heirs := heirs[link.parent.value := token.id];
        }
      }
    }

    /** A failing query and an unknown hash are different errors. */
    method FindByHash(hash: TokenHash, up: bool) returns (found: Option<TokenId>, error: Option<Result>)
      ensures error == Some(Internal) <==> !up
      ensures error == Some(NotFound) <==> up && forall id :: id in rows ==> rows[id].hash != hash
      ensures error in {None, Some(Internal), Some(NotFound)}
      ensures error.None? <==> found.Some?
      ensures up ==> Answers(rows, hash, found)
    {
      if !up {
        return None, Some(Internal);
      }
      if id :| id in rows && rows[id].hash == hash {
        return Some(id), None;
      }
      return None, Some(NotFound);
    }

    /** The compare-and-set: it succeeds for at most one caller, and only on a row that exists. */
    method Revoke(id: TokenId, now: Time, write: Write) returns (error: Option<Result>)
      modifies `rows
      ensures error.None? <==> write.Applied? && CanRevoke(old(rows), id)
      ensures error == Some(NotFound) <==> write.Applied? && !CanRevoke(old(rows), id)
      ensures error in {None, Some(NotFound), Some(Internal)}
      ensures rows == if write.Failed? then old(rows) else RevokeRow(old(rows), id, now)
      ensures !write.Failed? ==> !CanRevoke(rows, id)
      ensures error.None? ==> rows == old(rows)[id := old(rows)[id].(revokedAt := Some(now))]
    {
      var affected := 0;
      if !write.Failed? && id in rows && !rows[id].IsRevoked() {
        rows := rows[id := rows[id].(revokedAt := Some(now))];
        affected := 1;
      }
      if !write.Applied? {
        return Some(Internal);
      }
      if affected == 0 {
        return Some(NotFound);
      }
      return None;
    }

    method RevokeAllForUser(user: UserId, now: Time, write: Write) returns (ok: bool)
      modifies `rows
      ensures ok <==> write.Applied?
      ensures rows == if write.Failed? then old(rows) else RevokeUser(old(rows), user, now)
      ensures !write.Failed? ==> forall id :: id in rows && rows[id].user == user ==> rows[id].IsRevoked()
      ensures rows.Keys == old(rows).Keys
      ensures forall id :: id in rows && (rows[id].user != user || old(rows)[id].IsRevoked()) ==> rows[id] == old(rows)[id]
      ensures forall id :: id in rows && rows[id] != old(rows)[id] ==> rows[id] == old(rows)[id].(revokedAt := Some(now))
    {
      ok := write.Applied?;
      if !write.Failed? {
        rows := map id | id in rows ::
          if rows[id].user == user && rows[id].revokedAt.None? then rows[id].(revokedAt := Some(now)) else rows[id];
      }
    }
  }

  /** The Redis blacklist; every entry carries the instant at which it disappears. */
  class TokenBlacklist {
    var entries: Blacklist

    constructor ()
      ensures entries == map[]
    {
      entries := map[];
    }

    method Revoke(hash: TokenHash, ttl: int, now: Time, write: Write)
      modifies this
      ensures entries == if write.Failed? then old(entries) else Blacklisted(old(entries), hash, ttl, now)
      ensures !write.Failed? && ttl > 0 ==> Listed(entries, hash, now + ttl) && !Listed(entries, hash, now + ttl + 1)
      ensures entries - {hash} == old(entries) - {hash} && (write.Failed? || ttl <= 0 ==> entries == old(entries))
    {
      if ttl <= 0 {
        return;
      }
      if !write.Failed? {
        entries := entries[hash := now + ttl];
      }
    }

    /** Fails closed: without an answer from Redis the caller gets an error, not a verdict. */
    method IsRevoked(hash: TokenHash, now: Time, up: bool) returns (revoked: bool, error: Option<Result>)
      ensures error == if up then None else Some(BlacklistUnavailable)
      ensures error.None? ==> (revoked <==> Listed(entries, hash, now))
      ensures error.Some? ==> !revoked
    {
      if !up {
        return false, Some(BlacklistUnavailable);
      }
      return hash in entries && now <= entries[hash], None;
    }
  }

  class UserRepository {
    var accounts: map<UserId, Account>

    constructor ()
      ensures accounts == map[]
    {
      accounts := map[];
    }

    method UpdatePassword(user: UserId, newHash: string, write: Write) returns (error: Option<Result>)
      modifies this
      ensures error.None? <==> write.Applied? && user in old(accounts)
      ensures error == Some(NotFound) <==> write.Applied? && user !in old(accounts)
      ensures error in {None, Some(NotFound), Some(Internal)}
      ensures accounts == if write.Failed? || user !in old(accounts) then old(accounts)
                          else old(accounts)[user := Account(newHash, old(accounts)[user].version + 1)]
    {
      if !write.Failed? && user in accounts {
        accounts := accounts[user := Account(newHash, accounts[user].version + 1)];
      }
      if !write.Applied? {
        return Some(Internal);
      }
      return if user in accounts then None else Some(NotFound);
    }
  }
}
