/** The session repository as an object: the table, and the cache it sweeps in place. */
module SessionRepositories {
  import opened Basics
  import opened SessionStore

  class SessionRepository {
    const users: map<Name, int>
    var rows: map<Name, SessionRow>
    var activeSessionCache: map<Name, CachedSession>

    constructor (users: map<Name, int>)
      ensures Now() == Fresh(users)
    {
      this.users, rows, activeSessionCache := users, map[], map[];
    }

    function Now(): SessionDb
      reads this
    {
      SessionDb(users, rows, activeSessionCache)
    }

    method CreateSession(usernameHash: Name, hash: Name, now: int) returns (created: bool)
      modifies this
      ensures Now() == Step(old(Now()), Create(usernameHash, hash, now))
      ensures created <==> SessionStore.CreateSession(old(Now()), usernameHash, hash, now).Some?
    {
      if usernameHash !in users || hash in rows { return false; }
      rows := rows[hash := SessionRow(users[usernameHash], now)];
      return true;
    }

    method GetUserIdBySession(hash: Name, now: int) returns (r: Result<int, LookupError>)
      modifies this
      ensures (Now(), r) == SessionStore.GetUserIdBySession(old(Now()), hash, now)
      ensures old(Mirrors(Now())) ==> Mirrors(Now()) && r == old(TableLookup(Now(), hash, now))
    {
      if hash in activeSessionCache {
        var cached := activeSessionCache[hash];
        if now > cached.expiresAt {
          activeSessionCache := activeSessionCache - {hash};
          return Err(SessionExpired);
        }
        return Ok(cached.uid);
      }
      if hash !in rows { return Err(NoSuchRow); }
      var row := rows[hash];
      var expiresAt := row.created + SESSION_DURATION;
      if now > expiresAt {
        DeleteSessionByHash(hash);
        return Err(SessionExpired);
      }
      activeSessionCache := activeSessionCache[hash := CachedSession(row.uid, expiresAt)];
      return Ok(row.uid);
    }

    method DeleteSessionByHash(hash: Name)
      modifies this
      ensures Now() == Forget(old(Now()), hash)
    {
      activeSessionCache := activeSessionCache - {hash};
      rows := rows - {hash};
    }

    /** The sweep visits the cached keys in any order. */
    method CleanupExpiredSessions(now: int, later: int)
      modifies this
      ensures Now() == SessionStore.CleanupExpiredSessions(old(Now()), now, later)
    {
      ghost var cache := activeSessionCache;
      var left := activeSessionCache.Keys;
      while left != {}
        invariant left <= cache.Keys && rows == old(rows)
        invariant activeSessionCache == map h | h in cache && (h in left || now <= cache[h].expiresAt) :: cache[h]
        decreases left
      {
        var key :| key in left;
        if now > activeSessionCache[key].expiresAt { activeSessionCache := activeSessionCache - {key}; }
        left := left - {key};
      }
      var threshold := later - SESSION_DURATION;
      rows := map h | h in rows && !(rows[h].created < threshold) :: rows[h];
    }
  }
}
