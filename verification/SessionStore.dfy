/** Login sessions: the table of sessions, the cache in front of it, and each repository call as a step
    with its clock reading. A session is known by the hash of its token. */
module SessionStore {
  import opened Basics

  const SESSION_DURATION: int := 24 * 60 * 60

  datatype SessionRow = SessionRow(uid: int, created: int)
  datatype CachedSession = CachedSession(uid: int, expiresAt: int)
  datatype SessionDb = SessionDb(users: map<Name, int>, rows: map<Name, SessionRow>, cache: map<Name, CachedSession>)

  datatype LookupError = NoSuchRow | SessionExpired

  /** `Cleanup` reads the clock once for the cache and again for the table. */
  datatype SessionOp =
    | Create(username: Name, hash: Name, now: int)
    | Lookup(hash: Name, now: int)
    | Delete(hash: Name, now: int)
    | Cleanup(now: int, later: int)
  {
    function Finished(): int {
      if Cleanup? then later else now
    }
  }

  function CacheEntry(row: SessionRow): CachedSession {
    CachedSession(row.uid, row.created + SESSION_DURATION)
  }

  function Forget(db: SessionDb, hash: Name): SessionDb {
    db.(rows := db.rows - {hash}, cache := db.cache - {hash})
  }

  /** None if the user is unknown or the hash is taken: nothing is inserted. */
  function CreateSession(db: SessionDb, username: Name, hash: Name, now: int): Option<SessionDb> {
    if username !in db.users || hash in db.rows then None
    else Some(db.(rows := db.rows[hash := SessionRow(db.users[username], now)]))
  }

  function GetUserIdBySession(db: SessionDb, hash: Name, now: int): (SessionDb, Result<int, LookupError>) {
    if hash in db.cache then
      if now > db.cache[hash].expiresAt then (db.(cache := db.cache - {hash}), Err(SessionExpired))
      else (db, Ok(db.cache[hash].uid))
    else if hash !in db.rows then (db, Err(NoSuchRow))
    else if now > db.rows[hash].created + SESSION_DURATION then (Forget(db, hash), Err(SessionExpired))
    else (db.(cache := db.cache[hash := CacheEntry(db.rows[hash])]), Ok(db.rows[hash].uid))
  }

  function CleanCache(cache: map<Name, CachedSession>, now: int): map<Name, CachedSession> {
    map h | h in cache && now <= cache[h].expiresAt :: cache[h]
  }

  function CleanupExpiredSessions(db: SessionDb, now: int, later: int): SessionDb {
    db.(cache := CleanCache(db.cache, now),
        rows := map h | h in db.rows && !(db.rows[h].created < later - SESSION_DURATION) :: db.rows[h])
  }

  function Step(db: SessionDb, op: SessionOp): SessionDb {
    match op
    case Create(username, hash, now) =>
      var created := CreateSession(db, username, hash, now);
      if created.Some? then created.value else db
    case Lookup(hash, now) => GetUserIdBySession(db, hash, now).0
    case Delete(hash, _) => Forget(db, hash)
    case Cleanup(now, later) => CleanupExpiredSessions(db, now, later)
  }

  function Run(db: SessionDb, ops: seq<SessionOp>): SessionDb
    decreases |ops|
  {
    if ops == [] then db else Step(Run(db, ops[..|ops| - 1]), ops[|ops| - 1])
  }

  /** The answer the table alone would give: the specification of a lookup. */
  function TableLookup(db: SessionDb, hash: Name, now: int): Result<int, LookupError> {
    if hash !in db.rows then Err(NoSuchRow)
    else if now > db.rows[hash].created + SESSION_DURATION then Err(SessionExpired)
    else Ok(db.rows[hash].uid)
  }

  // ----- One clock reading per call -----

  /** Every cache entry mirrors a row. */
  predicate Mirrors(db: SessionDb) {
    forall h :: h in db.cache ==> h in db.rows && db.cache[h] == CacheEntry(db.rows[h])
  }

  lemma StepKeepsMirror(db: SessionDb, op: SessionOp)
    requires Mirrors(db) && (op.Cleanup? ==> op.now == op.later)
    ensures Mirrors(Step(db, op))
  {
  }

  /** Main result: over every run in which each call reads the clock once, a lookup answers exactly what
      the table would, whatever the readings. */
  lemma {:induction false} LookupAgreesWithTable(db: SessionDb, ops: seq<SessionOp>, hash: Name, now: int)
    requires Mirrors(db)
    requires forall op <- ops :: op.Cleanup? ==> op.now == op.later
    ensures Mirrors(Run(db, ops))
    ensures GetUserIdBySession(Run(db, ops), hash, now).1 == TableLookup(Run(db, ops), hash, now)
    decreases |ops|
  {
    if ops != [] {
      LookupAgreesWithTable(db, ops[..|ops| - 1], hash, now);
      StepKeepsMirror(Run(db, ops[..|ops| - 1]), ops[|ops| - 1]);
    }
  }

  // ----- A cleanup that reads the clock twice, and what sessions are for -----

  function Clock(start: int, ops: seq<SessionOp>): int {
    if ops == [] then start else ops[|ops| - 1].Finished()
  }

  /** Clock readings never decrease, and no token is issued twice. */
  ghost predicate WellRun(start: int, ops: seq<SessionOp>) {
    && (forall i :: 0 <= i < |ops| ==> Clock(start, ops[..i]) <= ops[i].now <= ops[i].Finished())
    && (forall i, j :: 0 <= i < j < |ops| && ops[i].Create? && ops[j].Create? ==> ops[i].hash != ops[j].hash)
  }

  ghost predicate Mentions(ops: seq<SessionOp>, hash: Name) {
    exists op <- ops :: op.Create? && op.hash == hash
  }

  /** The session as the history alone tells it: issued by a login, and not logged out since. */
  function Issued(users: map<Name, int>, ops: seq<SessionOp>, hash: Name): Option<SessionRow>
    decreases |ops|
  {
    if ops == [] then None
    else
      var op, before := ops[|ops| - 1], ops[..|ops| - 1];
      if op.Create? && op.hash == hash && op.username in users then Some(SessionRow(users[op.username], op.now))
      else if op.Delete? && op.hash == hash then None
      else Issued(users, before, hash)
  }

  function Expired(row: SessionRow, now: int): bool {
    now > row.created + SESSION_DURATION
  }

  /** Rows are sessions of the history, a session without a row has expired, and a cache entry either
      mirrors its row or has expired. */
  predicate Faithful(db: SessionDb, issued: Option<SessionRow>, hash: Name, clock: int) {
    && (hash in db.rows ==> issued == Some(db.rows[hash]))
    && (issued.Some? && hash !in db.rows ==> Expired(issued.value, clock))
    && (hash in db.cache ==> issued.Some? && db.cache[hash] == CacheEntry(issued.value))
  }

  function Fresh(users: map<Name, int>): SessionDb {
    SessionDb(users, map[], map[])
  }

  lemma {:induction false} UnmentionedIsNotIssued(users: map<Name, int>, ops: seq<SessionOp>, hash: Name)
    requires !Mentions(ops, hash)
    ensures Issued(users, ops, hash).None?
    decreases |ops|
  {
    if ops != [] {
      var op := ops[|ops| - 1];
      assert op in ops;
      UnmentionedIsNotIssued(users, ops[..|ops| - 1], hash);
    }
  }

  lemma WellRunPrefix(start: int, ops: seq<SessionOp>)
    requires ops != [] && WellRun(start, ops)
    ensures WellRun(start, ops[..|ops| - 1])
    ensures ops[|ops| - 1].Create? ==> !Mentions(ops[..|ops| - 1], ops[|ops| - 1].hash)
    ensures Clock(start, ops[..|ops| - 1]) <= ops[|ops| - 1].now
  {
  }

  lemma StepStaysFaithful(db: SessionDb, issued: Option<SessionRow>, after: Option<SessionRow>, hash: Name, clock: int, op: SessionOp)
    requires Faithful(db, issued, hash, clock) && clock <= op.now <= op.Finished()
    requires op.Create? && op.hash == hash ==> issued.None?
    requires after == if op.Create? && op.hash == hash && op.username in db.users then Some(SessionRow(db.users[op.username], op.now))
                      else if op.Delete? && op.hash == hash then None
                      else issued
    ensures Faithful(Step(db, op), after, hash, op.Finished())
    ensures Step(db, op).users == db.users
  {
  }

  lemma {:induction false} RunStaysFaithful(users: map<Name, int>, start: int, ops: seq<SessionOp>, hash: Name)
    requires WellRun(start, ops)
    ensures Faithful(Run(Fresh(users), ops), Issued(users, ops, hash), hash, Clock(start, ops))
    ensures Run(Fresh(users), ops).users == users
    decreases |ops|
  {
    if ops != [] {
      var before, op := ops[..|ops| - 1], ops[|ops| - 1];
      assert ops[..|ops| - 1] == before && op.now <= op.Finished();
      WellRunPrefix(start, ops);
      RunStaysFaithful(users, start, before, hash);
      if op.Create? && op.hash == hash { UnmentionedIsNotIssued(users, before, hash); }
      StepStaysFaithful(Run(Fresh(users), before), Issued(users, before, hash), Issued(users, ops, hash), hash, Clock(start, before), op);
    }
  }

  /** Main result: with a clock that does not run backwards and tokens issued once, a lookup returns a user
      exactly when that user logged in with the token, has not logged out, and logged in at most a
      day ago; cleanups, cached answers and earlier lookups make no difference. */
  lemma LookupFollowsHistory(users: map<Name, int>, start: int, ops: seq<SessionOp>, hash: Name, now: int, uid: int)
    requires WellRun(start, ops) && Clock(start, ops) <= now
    ensures GetUserIdBySession(Run(Fresh(users), ops), hash, now).1 == Ok(uid)
            <==> exists created :: Issued(users, ops, hash) == Some(SessionRow(uid, created)) && now <= created + 86400
  {
    RunStaysFaithful(users, start, ops, hash);
    hide Run, Clock, WellRun;
    var issued := Issued(users, ops, hash);
    assert issued.Some? ==> issued == Some(SessionRow(issued.value.uid, issued.value.created));
  }

  /** Tokens must be issued once for that: a cleanup between two ticks of the clock can drop a row and
      keep its cache entry, which then hides a new session under the same hash. */
  lemma ReusedTokenIsHidden(users: map<Name, int>, username: Name, hash: Name, t: int)
    requires username in users
    ensures var ops := [Create(username, hash, t), Lookup(hash, t),
                        Cleanup(t + SESSION_DURATION, t + SESSION_DURATION + 1),
                        Create(username, hash, t + SESSION_DURATION + 1)];
            var db := Run(Fresh(users), ops);
            && TableLookup(db, hash, t + SESSION_DURATION + 1) == Ok(users[username])
            && GetUserIdBySession(db, hash, t + SESSION_DURATION + 1).1 == Err(SessionExpired)
  {
    var ops := [Create(username, hash, t), Lookup(hash, t),
                Cleanup(t + SESSION_DURATION, t + SESSION_DURATION + 1),
                Create(username, hash, t + SESSION_DURATION + 1)];
    var s0 := Fresh(users);
    var s1 := Step(s0, ops[0]);
    var s2 := Step(s1, ops[1]);
    var s3 := Step(s2, ops[2]);
    assert ops[..0] == [] && ops[..1][..0] == [] && ops[..2][..1] == ops[..1] && ops[..3][..2] == ops[..2];
    assert Run(s0, ops[..0]) == s0;
    assert Run(s0, ops[..1]) == s1;
    assert Run(s0, ops[..2]) == s2;
    assert Run(s0, ops[..3]) == s3;
  }

  // ----- A lookup that others interrupt -----

  /** The last step of a lookup that missed the cache and read `row`, others having run `ops` since. */
  function StoreAfter(db: SessionDb, hash: Name, row: SessionRow, ops: seq<SessionOp>): SessionDb {
    var now := Run(db, ops);
    now.(cache := now.cache[hash := CacheEntry(row)])
  }

  /** The cache still mirrors the table if and only if the row that the lookup read is still there. */
  lemma StoreAgreesIff(db: SessionDb, hash: Name, row: SessionRow, ops: seq<SessionOp>)
    requires Mirrors(db) && hash in db.rows && db.rows[hash] == row
    requires forall op <- ops :: op.Cleanup? ==> op.now == op.later
    ensures Mirrors(StoreAfter(db, hash, row, ops)) <==> hash in Run(db, ops).rows && CacheEntry(Run(db, ops).rows[hash]) == CacheEntry(row)
    ensures forall now :: now <= row.created + SESSION_DURATION ==>
              GetUserIdBySession(StoreAfter(db, hash, row, ops), hash, now).1 == Ok(row.uid)
  {
    LookupAgreesWithTable(db, ops, hash, 0);
    hide Run;
    assert hash in StoreAfter(db, hash, row, ops).cache;
  }

  /** Has the latest lookup of `hash` in `ops` put an entry in the cache that is still there? `cached` says
      whether there was one before. */
  predicate LeavesCached(ops: seq<SessionOp>, hash: Name, row: SessionRow, cached: bool)
    decreases |ops|
  {
    if ops == [] then cached
    else
      var op, before := ops[|ops| - 1], ops[..|ops| - 1];
      if op.Lookup? && op.hash == hash then !Expired(row, op.now)
      else LeavesCached(before, hash, row, cached) && !(op.Cleanup? && Expired(row, op.now))
  }

  /** The statements that take the row of a session away, told from the statements alone: a logout, a
      cleanup after its expiry, and a lookup after its expiry that finds nothing in the cache. */
  predicate TakesRow(ops: seq<SessionOp>, k: nat, hash: Name, row: SessionRow, cached: bool)
    requires k < |ops|
  {
    match ops[k]
    case Delete(h, _) => h == hash
    case Cleanup(_, later) => Expired(row, later)
    case Lookup(h, now) => h == hash && Expired(row, now) && !LeavesCached(ops[..k], hash, row, cached)
    case Create(_, _, _) => false
  }

  ghost predicate SomeTakesRow(ops: seq<SessionOp>, hash: Name, row: SessionRow, cached: bool) {
    exists k :: 0 <= k < |ops| && TakesRow(ops, k, hash, row, cached)
  }

  predicate NotIssuedIn(ops: seq<SessionOp>, hash: Name) {
    forall op <- ops :: op.Create? ==> op.hash != hash
  }

  lemma LastTakes(ops: seq<SessionOp>, hash: Name, row: SessionRow, cached: bool)
    requires ops != []
    ensures var n := |ops| - 1;
            SomeTakesRow(ops, hash, row, cached)
            <==> SomeTakesRow(ops[..n], hash, row, cached) || TakesRow(ops, n, hash, row, cached)
  {
    var n, before := |ops| - 1, ops[..|ops| - 1];
    assert forall k :: 0 <= k < n ==> before[..k] == ops[..k] && before[k] == ops[k];
    assert forall k :: 0 <= k < n ==> TakesRow(before, k, hash, row, cached) == TakesRow(ops, k, hash, row, cached);
  }

  /** What one statement does to the row of a session whose token is not issued again. */
  lemma StepOnRow(db: SessionDb, op: SessionOp, hash: Name, row: SessionRow)
    requires op.Create? ==> op.hash != hash
    requires hash in db.rows ==> db.rows[hash] == row
    requires hash in db.cache ==> db.cache[hash] == CacheEntry(row)
    ensures var after := Step(db, op);
            && (hash in after.rows ==> hash in db.rows && after.rows[hash] == row)
            && (hash in db.rows && hash !in after.rows <==>
                  hash in db.rows && ((op.Delete? && op.hash == hash) || (op.Cleanup? && Expired(row, op.later))
                  || (op.Lookup? && op.hash == hash && Expired(row, op.now) && hash !in db.cache)))
            && (hash in after.rows ==>
                  (hash in after.cache <==>
                     if op.Lookup? && op.hash == hash then !Expired(row, op.now)
                     else hash in db.cache && !(op.Cleanup? && Expired(row, op.now))))
            && (hash in after.cache ==> after.cache[hash] == CacheEntry(row))
  {
  }

  /** After any run the row is there exactly if no statement took it. */
  lemma {:induction false} RowStaysIff(db: SessionDb, hash: Name, row: SessionRow, ops: seq<SessionOp>)
    requires hash in db.rows && db.rows[hash] == row && (hash in db.cache ==> db.cache[hash] == CacheEntry(row))
    requires NotIssuedIn(ops, hash)
    ensures var after := Run(db, ops);
            && (hash in after.rows <==> !SomeTakesRow(ops, hash, row, hash in db.cache))
            && (hash in after.rows ==> after.rows[hash] == row && (hash in after.cache <==> LeavesCached(ops, hash, row, hash in db.cache)))
            && (hash in after.cache ==> after.cache[hash] == CacheEntry(row))
    decreases |ops|
  {
    if ops != [] {
      var before, op := ops[..|ops| - 1], ops[|ops| - 1];
      assert op in ops && forall o <- before :: o in ops;
      RowStaysIff(db, hash, row, before);
      StepOnRow(Run(db, before), op, hash, row);
      LastTakes(ops, hash, row, hash in db.cache);
      hide Step, SomeTakesRow, Expired;
    }
  }

  /** Main result: a lookup that missed the cache, read a row and stores it after others have run `ops`
      leaves the cache in agreement with the table if and only if none of them took the row: no
      logout, no cleanup after its expiry, and no lookup after its expiry that missed the cache too. Its
      token is not issued again meanwhile. */
  lemma InterruptedLookupAgreesIff(db: SessionDb, hash: Name, row: SessionRow, ops: seq<SessionOp>)
    requires Mirrors(db) && hash in db.rows && db.rows[hash] == row && hash !in db.cache
    requires forall op <- ops :: op.Cleanup? ==> op.now == op.later
    requires NotIssuedIn(ops, hash)
    ensures Mirrors(StoreAfter(db, hash, row, ops)) <==> !SomeTakesRow(ops, hash, row, false)
  {
    StoreAgreesIff(db, hash, row, ops);
    RowStaysIff(db, hash, row, ops);
    hide Run, SomeTakesRow;
  }

  /** One that does: after a logout in between, the table knows no session and the lookup still answers. */
  lemma LogoutDuringLookup(users: map<Name, int>, username: Name, hash: Name, t: int)
    requires username in users
    ensures var row := SessionRow(users[username], t);
            var db := Run(Fresh(users), [Create(username, hash, t)]);
            var after := StoreAfter(db, hash, row, [Delete(hash, t)]);
            && Mirrors(db) && hash !in db.cache && db.rows == map[hash := row]
            && TableLookup(after, hash, t) == Err(NoSuchRow)
            && GetUserIdBySession(after, hash, t).1 == Ok(users[username])
  {
    var ops, gone := [Create(username, hash, t)], [Delete(hash, t)];
    assert ops[..0] == [] && gone[..0] == [];
    assert Run(Fresh(users), ops[..0]) == Fresh(users);
    var db := Run(Fresh(users), ops);
    assert Run(db, gone[..0]) == db;
  }

  // ----- Interrupted lookups against the history -----

  /** The user that the history alone says is logged in with the token. */
  function HistoryLookup(users: map<Name, int>, ops: seq<SessionOp>, hash: Name, now: int): Option<int> {
    var issued := Issued(users, ops, hash);
    if issued.Some? && !Expired(issued.value, now) then Some(issued.value.uid) else None
  }

  predicate LoggedOut(ops: seq<SessionOp>, hash: Name) {
    exists op <- ops :: op.Delete? && op.hash == hash
  }

  lemma {:induction false} IssuedAppend(users: map<Name, int>, before: seq<SessionOp>, ops: seq<SessionOp>, hash: Name)
    requires NotIssuedIn(ops, hash)
    ensures Issued(users, before + ops, hash) == if LoggedOut(ops, hash) then None else Issued(users, before, hash)
    decreases |ops|
  {
    if ops == [] {
      assert before + ops == before;
    } else {
      var rest, op := ops[..|ops| - 1], ops[|ops| - 1];
      assert (before + ops)[..|before + ops| - 1] == before + rest;
      assert ops == rest + [op];
      assert op in ops && forall o <- rest :: o in ops;
      IssuedAppend(users, before, rest, hash);
      assert LoggedOut(ops, hash) <==> LoggedOut(rest, hash) || (op.Delete? && op.hash == hash);
    }
  }

  lemma {:induction false} IssuedMeansMentioned(users: map<Name, int>, ops: seq<SessionOp>, hash: Name)
    requires Issued(users, ops, hash).Some?
    ensures Mentions(ops, hash)
  {
    if !Mentions(ops, hash) { UnmentionedIsNotIssued(users, ops, hash); }
  }

  lemma StartIsWellRun(start: int, before: seq<SessionOp>, ops: seq<SessionOp>)
    requires WellRun(start, before + ops)
    ensures WellRun(start, before)
  {
    assert forall i :: 0 <= i < |before| ==> (before + ops)[i] == before[i] && (before + ops)[..i] == before[..i];
  }

  lemma NotIssuedTwice(start: int, before: seq<SessionOp>, ops: seq<SessionOp>, hash: Name)
    requires WellRun(start, before + ops) && Mentions(before, hash)
    ensures NotIssuedIn(ops, hash)
  {
    var all := before + ops;
    var i :| 0 <= i < |before| && before[i].Create? && before[i].hash == hash;
    forall op | op in ops && op.Create? ensures op.hash != hash {
      var j :| 0 <= j < |ops| && ops[j] == op;
      assert all[i] == before[i] && all[|before| + j] == op;
    }
  }

  /** Main result: with a clock that does not run backwards and tokens issued once, cleanups and lookups in
      the middle of a lookup are harmless, even cleanups that read the clock twice: the answers to come
      are those of the history if and only if there was no logout in between or the session has
      expired by then. */
  lemma InterruptedLookupFollowsHistoryIff(users: map<Name, int>, start: int, before: seq<SessionOp>, ops: seq<SessionOp>,
                                           hash: Name, now: int)
    requires WellRun(start, before + ops) && Clock(start, before + ops) <= now
    requires var db := Run(Fresh(users), before); hash in db.rows && hash !in db.cache
    ensures var db := Run(Fresh(users), before);
            var row := db.rows[hash];
            var answer := GetUserIdBySession(StoreAfter(db, hash, row, ops), hash, now).1;
            (if answer.Ok? then Some(answer.value) else None) == HistoryLookup(users, before + ops, hash, now)
            <==> !LoggedOut(ops, hash) || Expired(row, now)
  {
    var db := Run(Fresh(users), before);
    StartIsWellRun(start, before, ops);
    hide WellRun;
    RunStaysFaithful(users, start, before, hash);
    IssuedMeansMentioned(users, before, hash);
    NotIssuedTwice(start, before, ops, hash);
    IssuedAppend(users, before, ops, hash);
    hide Run, Clock, Issued, LoggedOut;
  }
}
