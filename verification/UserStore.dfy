/**
 * The user store: a map in memory, a set of tokens that have changed, and the
 * SQLite table they are flushed to. `Valid` states the write-behind agreement,
 * and every operation keeps it.
 */
module UserStore {
  import opened Options
  import opened Users

  datatype AuthResult = Success | Disabled | NotFound | Limited

  datatype Change<T> = Keep | Delete | Set(value: T)

  datatype PartialCounts = PartialCounts(input: Option<int>, output: Option<int>, legacy: Option<int>)

  /** Amounts of unknown families are stripped before an update gets here. */
  datatype UserUpdate = UserUpdate(
    token: Token, ip: Option<seq<string>>, kind: Option<UserType>, promptCount: Option<int>,
    tokenCounts: Option<map<Family, PartialCounts>>, tokenLimits: Option<map<Family, int>>, tokenRefresh: Option<map<Family, int>>,
    createdAt: Option<int>, nickname: Change<string>, lastUsedAt: Change<int>, disabledAt: Change<int>,
    disabledReason: Change<string>, expiresAt: Change<int>, maxIps: Change<int>, adminNote: Change<string>, meta: Change<Meta>)

  // ----- What each operation makes of a user -----

  function Changed<T>(before: Option<T>, change: Change<T>): Option<T> {
    match change
    case Keep => before
    case Delete => None
    case Set(v) => Some(v)
  }

  function Quotas(c: Config): map<Family, int> {
    map f | f in c.families :: Amount(c.tokenQuota, f)
  }

  function NewUser(c: Config, token: Token, now: int): User {
    User(token, [], None, Normal, 0, map f | f in c.families :: Counts(0, 0, None), Quotas(c), Quotas(c),
         now, None, None, None, None, None, None, Some(map[]))
  }

  /** Missing counts become zero; a legacy total survives an update that does not set one. */
  function FilledCount(existing: Option<Counts>, given: Option<PartialCounts>): Counts {
    var legacy := if existing.Some? then existing.value.legacy else None;
    match given
    case None => Counts(0, 0, legacy)
    case Some(p) => Counts(Or(p.input, 0), Or(p.output, 0), if p.legacy.Some? then p.legacy else legacy)
  }

  function Updated(c: Config, u: User, upd: UserUpdate): User {
    User(u.token, Or(upd.ip, u.ip), Changed(u.nickname, upd.nickname), Or(upd.kind, u.kind), Or(upd.promptCount, u.promptCount),
         if upd.tokenCounts.None? then u.tokenCounts
         else map f | f in c.families :: FilledCount(At(u.tokenCounts, f), At(upd.tokenCounts.value, f)),
         if upd.tokenLimits.None? then u.tokenLimits else map f | f in c.families :: Or(At(upd.tokenLimits.value, f), 0),
         if upd.tokenRefresh.None? then u.tokenRefresh else map f | f in c.families :: Or(At(upd.tokenRefresh.value, f), 0),
         Or(upd.createdAt, u.createdAt), Changed(u.lastUsedAt, upd.lastUsedAt), Changed(u.disabledAt, upd.disabledAt),
         Changed(u.disabledReason, upd.disabledReason), Changed(u.expiresAt, upd.expiresAt), Changed(u.maxIps, upd.maxIps),
         Changed(u.adminNote, upd.adminNote), Changed(u.meta, upd.meta))
  }

  function WithRefreshable(u: User, refreshable: bool): User {
    u.(meta := Some(Or(u.meta, map[])["refreshable" := if refreshable then "true" else "false"]))
  }

  function Banned(u: User, now: int, reason: Option<string>): User {
    WithRefreshable(u.(disabledAt := Some(now), disabledReason := reason), false)
  }

  /** A time that is zero counts as absent. */
  predicate IsSet(time: Option<int>) {
    time.Some? && time.value != 0
  }

  predicate IpsExhausted(c: Config, u: User, ip: string) {
    var limit := Or(u.maxIps, c.maxIpsPerUser);
    ip !in u.ip && u.kind != Special && limit != 0 && |u.ip| >= limit
  }

  function Authenticated(c: Config, u: User, ip: string, now: int): (AuthResult, User) {
    if IsSet(u.disabledAt) then (Disabled, u)
    else if IpsExhausted(c, u, ip) then
      if c.maxIpsAutoBan then (Disabled, Banned(u.(ip := u.ip + [ip]), now, Some("IP address limit exceeded."))) else (Limited, u)
    else (Success, u.(ip := if ip in u.ip then u.ip else u.ip + [ip], lastUsedAt := Some(now)))
  }

  predicate Expired(u: User, now: int) {
    IsSet(u.expiresAt) && u.expiresAt.value < now && !IsSet(u.disabledAt)
  }

  function DisabledAsExpired(c: Config, u: User, now: int): User {
    WithRefreshable(Banned(u, now, Some("Temporary token expired.")), c.captcha)
  }

  /** A temporary user past its expiry is disabled; one disabled for long enough is purged (`None`). */
  function CleanedUp(c: Config, u: User, now: int): Option<User> {
    if u.kind != Temporary then Some(u)
    else
      var v := if Expired(u, now) then DisabledAsExpired(c, u, now) else u;
      if IsSet(v.disabledAt) && v.disabledAt.value + c.purgeTimeout < now then None else Some(v)
  }

  /** Whether a cleanup disables or purges the user, and so marks it for the next flush. */
  predicate CleanupTouches(c: Config, u: User, now: int) {
    u.kind == Temporary && (Expired(u, now) || CleanedUp(c, u, now) == None)
  }

  /** The users that are left when the tokens in `rest` are still to be cleaned up. */
  function CleanedSoFar(c: Config, users: map<Token, User>, rest: set<Token>, now: int): map<Token, User> {
    map t | t in users && (t in rest || CleanedUp(c, users[t], now).Some?) ::
      if t in rest then users[t] else CleanedUp(c, users[t], now).value
  }

  function TouchedSoFar(c: Config, users: map<Token, User>, rest: set<Token>, now: int): set<Token> {
    set t | t in users && t !in rest && CleanupTouches(c, users[t], now)
  }

  lemma {:induction false} CleanedFromNoneToAll(c: Config, users: map<Token, User>, now: int)
    ensures CleanedSoFar(c, users, users.Keys, now) == users && TouchedSoFar(c, users, users.Keys, now) == {}
  {
    assert CleanedSoFar(c, users, users.Keys, now) == users;
  }

  lemma {:induction false} CleanedOneMore(c: Config, users: map<Token, User>, rest: set<Token>, t: Token, now: int)
    requires t in rest && t in users
    ensures var sofar, after := CleanedSoFar(c, users, rest, now), CleanedUp(c, users[t], now);
            && t in sofar && sofar[t] == users[t]
            && CleanedSoFar(c, users, rest - {t}, now) == (if after.Some? then sofar[t := after.value] else sofar - {t})
    ensures TouchedSoFar(c, users, rest - {t}, now) ==
              TouchedSoFar(c, users, rest, now) + if CleanupTouches(c, users[t], now) then {t} else {}
  {
    var sofar, after := CleanedSoFar(c, users, rest, now), CleanedUp(c, users[t], now);
    assert CleanedSoFar(c, users, rest - {t}, now) == if after.Some? then sofar[t := after.value] else sofar - {t};
  }

  // ----- The tables -----

  /** The row each user would be stored as. */
  function Rows(users: map<Token, User>): map<Token, Row> {
    map t | t in users :: Store(users[t])
  }

  /** Every changed token is replaced by its row, or deleted if it has none. */
  function Merged<R>(rows: map<Token, R>, changed: set<Token>, table: map<Token, R>): map<Token, R> {
    map t | t in table.Keys + changed && (t in changed ==> t in rows) :: if t in changed then rows[t] else table[t]
  }

  function Flushed(users: map<Token, User>, dirty: set<Token>, db: map<Token, Row>): map<Token, Row> {
    Merged(Rows(users), dirty, db)
  }

  function RefreshedUnlessTemporary(c: Config, u: User): User {
    if u.kind == Temporary then u else Refreshed(c, u)
  }

  function AllRefreshed(c: Config, users: map<Token, User>): map<Token, User> {
    map t | t in users :: RefreshedUnlessTemporary(c, users[t])
  }

  /** The tokens still to be refreshed are as they were. */
  function RefreshedSoFar(c: Config, users: map<Token, User>, rest: set<Token>): map<Token, User> {
    map t | t in users :: if t in rest then users[t] else RefreshedUnlessTemporary(c, users[t])
  }

  lemma {:induction false} RefreshedFromNoneToAll(c: Config, users: map<Token, User>)
    ensures RefreshedSoFar(c, users, users.Keys) == users && RefreshedSoFar(c, users, {}) == AllRefreshed(c, users)
  {
    assert RefreshedSoFar(c, users, users.Keys) == users;
    assert RefreshedSoFar(c, users, {}) == AllRefreshed(c, users);
  }

  lemma {:induction false} RefreshedOneMore(c: Config, users: map<Token, User>, rest: set<Token>, t: Token)
    requires t in rest && t in users
    ensures var now := RefreshedSoFar(c, users, rest);
            t in now && now[t] == users[t] && RefreshedSoFar(c, users, rest - {t}) == now[t := RefreshedUnlessTemporary(c, users[t])]
  {
    assert RefreshedSoFar(c, users, rest - {t}) == RefreshedSoFar(c, users, rest)[t := RefreshedUnlessTemporary(c, users[t])];
  }

  function LoadAll(c: Config, db: map<Token, Row>): map<Token, User> {
    map t | t in db :: Load(c, db[t])
  }

  /** Every token that is not waiting for a flush loads from the table to exactly what is in memory. */
  ghost predicate Agrees(c: Config, users: map<Token, User>, dirty: set<Token>, db: map<Token, Row>) {
    forall t :: t !in dirty ==>
      && (t in users <==> t in db)
      && (t in users && t in db ==> Load(c, db[t]) == WithMeta(users[t]))
  }

  ghost predicate UsersFit(c: Config, users: map<Token, User>) {
    forall t :: t in users ==> users[t].token == t && FitsFamilies(c, users[t])
  }

  /** The rows of all other tokens. */
  function Without(db: map<Token, Row>, rest: set<Token>): map<Token, Row> {
    map t | t in db && t !in rest :: db[t]
  }

  lemma {:induction false} LoadOneMore(c: Config, db: map<Token, Row>, rest: set<Token>, t: Token)
    requires t in rest && t in db
    ensures LoadAll(c, Without(db, rest - {t})) == LoadAll(c, Without(db, rest))[t := Load(c, db[t])]
  {
    assert LoadAll(c, Without(db, rest - {t})) == LoadAll(c, Without(db, rest))[t := Load(c, db[t])];
  }

  lemma {:induction false} LoadedTableAgrees(c: Config, db: map<Token, Row>)
    requires forall t :: t in db ==> db[t].token == t
    ensures UsersFit(c, LoadAll(c, db)) && Agrees(c, LoadAll(c, db), {}, db)
  {
    forall t | t in db ensures FitsFamilies(c, Load(c, db[t])) {
      MigrationIsIdempotent(c, db[t]);
    }
  }

  /** A flush leaves no token behind: afterwards the table agrees with memory everywhere. */
  lemma {:induction false} FlushRestoresAgreement(c: Config, users: map<Token, User>, dirty: set<Token>, db: map<Token, Row>)
    requires Agrees(c, users, dirty, db) && UsersFit(c, users)
    ensures Agrees(c, users, {}, Flushed(users, dirty, db))
  {
    forall t | t in dirty && t in users ensures Load(c, Store(users[t])) == WithMeta(users[t]) {
      LoadUndoesStoreExactlyWhen(c, users[t]);
    }
  }

  /** With nothing waiting for a flush, the table holds the whole map. */
  lemma {:induction false} AgreementLoadsEverything(c: Config, users: map<Token, User>, db: map<Token, Row>)
    requires Agrees(c, users, {}, db)
    ensures LoadAll(c, db) == map t | t in users :: WithMeta(users[t])
  {
    assert LoadAll(c, db).Keys == users.Keys;
  }

  lemma {:induction false} WithMetaOfAll(users: map<Token, User>)
    ensures (forall t :: t in users ==> users[t].meta.Some?) ==> (map t | t in users :: WithMeta(users[t])) == users
  {
  }

  /** A restart after a flush brings back every user, with nothing lost and nothing added. */
  lemma {:induction false} RestartAfterFlushRestoresEverything(c: Config, users: map<Token, User>, dirty: set<Token>, db: map<Token, Row>)
    requires Agrees(c, users, dirty, db) && UsersFit(c, users)
    ensures LoadAll(c, Flushed(users, dirty, db)) == map t | t in users :: WithMeta(users[t])
    ensures (forall t :: t in users ==> users[t].meta.Some?) ==> LoadAll(c, Flushed(users, dirty, db)) == users
  {
    FlushRestoresAgreement(c, users, dirty, db);
    AgreementLoadsEverything(c, users, Flushed(users, dirty, db));
    WithMetaOfAll(users);
  }

  /** A purged user stays gone: once flushed, no restart brings the token back. */
  lemma {:induction false} PurgedUserStaysGone(c: Config, users: map<Token, User>, dirty: set<Token>, db: map<Token, Row>, t: Token)
    requires Agrees(c, users, dirty, db) && UsersFit(c, users) && t !in users
    ensures t !in LoadAll(c, Flushed(users, dirty, db))
  {
  }

  lemma {:induction false} SpentFits(c: Config, u: User, f: Family, input: int, output: int)
    requires FitsFamilies(c, u) && f in c.families
    ensures FitsFamilies(c, Spent(u, f, input, output))
  {
    assert f in FamilySet(c);
  }

  lemma {:induction false} RefreshedFits(c: Config, u: User)
    requires FitsFamilies(c, u)
    ensures FitsFamilies(c, Refreshed(c, u)) && FitsFamilies(c, UsageReset(c, u))
  {
    assert Refreshed(c, u).tokenLimits.Keys == FamilySet(c);
    assert UsageReset(c, u).tokenCounts.Keys == FamilySet(c);
  }

  // ----- The store object -----

  class UserTable {
    const config: Config
    var users: map<Token, User>
    var usersToFlush: set<Token>
    var db: map<Token, Row>

    ghost predicate Valid()
      reads this
    {
      && UsersFit(config, users)
      && (forall t :: t in db ==> db[t].token == t)
      && Agrees(config, users, usersToFlush, db)
    }

    /** Starts from a table, in whatever format its rows are, and loads it. */
    constructor (config: Config, db: map<Token, Row>)
      requires forall t :: t in db ==> db[t].token == t
      ensures Valid() && this.config == config && this.db == db
      ensures users == LoadAll(config, db) && usersToFlush == {}
    {
      this.config := config;
      this.db := db;
      users := map[];
      usersToFlush := {};
      new;
      LoadUsersFromSQLite();
    }

    method MigrateTokenCountsProperty(column: Option<map<Family, Stored>>, defaults: map<Family, Stored>)
      returns (result: map<Family, Counts>)
      ensures result == MigratedCounts(config, column, defaults)
    {
      result := map[];
      for i := 0 to |config.families|
        invariant result == map f | f in config.families[..i] :: MigratedCount(Column(column, f), At(defaults, f))
      {
        var family := config.families[i];
        result := result[family := MigratedCount(Column(column, family), At(defaults, family))];
      }
      assert config.families[..|config.families|] == config.families;
    }

    method MigrateTokenLimitsProperty(column: Option<map<Family, Stored>>) returns (result: map<Family, int>)
      ensures result == MigratedLimits(config, column)
    {
      result := map[];
      for i := 0 to |config.families|
        invariant result == map f | f in config.families[..i] :: MigratedLimit(Column(column, f), Amount(config.tokenQuota, f))
      {
        var family := config.families[i];
        result := result[family := MigratedLimit(Column(column, family), Amount(config.tokenQuota, family))];
      }
      assert config.families[..|config.families|] == config.families;
    }

    method LoadUser(row: Row) returns (user: User)
      ensures user == Load(config, row)
    {
      var counts := MigrateTokenCountsProperty(row.tokenCounts, InitialTokens(config));
      var limits := MigrateTokenLimitsProperty(row.tokenLimits);
      var refresh := MigrateTokenLimitsProperty(row.tokenRefresh);
      user := User(row.token, Or(row.ip, []), row.nickname, row.kind, row.promptCount, counts, limits, refresh,
                   row.createdAt, row.lastUsedAt, row.disabledAt, row.disabledReason,
                   row.expiresAt, row.maxIps, row.adminNote, Some(Or(row.meta, map[])));
    }

    method LoadUsersFromSQLite()
      requires users == map[] && forall t :: t in db ==> db[t].token == t
      modifies this
      ensures Valid() && db == old(db)
      ensures users == LoadAll(config, db) && usersToFlush == {}
    {
      var rest := db.Keys;
      while rest != {}
        invariant rest <= db.Keys && db == old(db)
        invariant users == LoadAll(config, Without(db, rest))
      {
        var t :| t in rest;
        var user := LoadUser(db[t]);
        LoadOneMore(config, db, rest, t);
        users := users[user.token := user];
        rest := rest - {t};
      }
      usersToFlush := {};
      assert Without(db, {}) == db;
      LoadedTableAgrees(config, db);
    }

    /** The statements of one transaction; `fails` is the token whose statement throws, if any. */
    static method RunTransaction(rows: map<Token, Row>, dirty: set<Token>, db: map<Token, Row>, fails: Option<Token>)
      returns (committed: Option<map<Token, Row>>)
      ensures committed == if fails.Some? && fails.value in dirty then None else Some(Merged(rows, dirty, db))
    {
      var table := db;
      var rest := dirty;
      while rest != {}
        invariant rest <= dirty
        invariant forall t :: t in table <==> if t in dirty && t !in rest then t in rows else t in db
        invariant forall t :: t in table ==> table[t] == if t in dirty && t !in rest then rows[t] else db[t]
        invariant fails.Some? && fails.value in dirty ==> fails.value in rest
      {
        var t :| t in rest;
        if fails == Some(t) {
          return None;
        }
        rest := rest - {t};
        table := if t in rows then table[t := rows[t]] else table - {t};
      }
      assert table == Merged(rows, dirty, db);
      committed := Some(table);
    }

    /** The table and the set of changed tokens move together, or not at all. */
    method FlushUsersToSQLite(fails: Option<Token>)
      requires Valid()
      modifies this`db, this`usersToFlush
      ensures Valid()
      ensures if fails.Some? && fails.value in old(usersToFlush)
              then usersToFlush == old(usersToFlush) && db == old(db)
              else usersToFlush == {} && db == Flushed(users, old(usersToFlush), old(db))
    {
      if usersToFlush == {} {
        assert Flushed(users, {}, db) == db;
        return;
      }
      var committed := RunTransaction(Rows(users), usersToFlush, db, fails);
      if committed.Some? {
        FlushRestoresAgreement(config, users, usersToFlush, db);
        db := committed.value;
        usersToFlush := {};
      }
    }

    /** Every mutator ends here: a changed user whose token waits for the next flush. */
    method Put(u: User)
      requires Valid() && FitsFamilies(config, u)
      modifies this`users, this`usersToFlush
      ensures Valid()
      ensures users == old(users)[u.token := u] && usersToFlush == old(usersToFlush) + {u.token}
    {
      users := users[u.token := u];
      usersToFlush := usersToFlush + {u.token};
    }

    method CreateUser(token: Token, kind: Option<UserType>, expiresAt: Option<int>, tokenLimits: Option<map<Family, int>>,
                      tokenRefresh: Option<map<Family, int>>, now: int)
      requires Valid()
      requires tokenLimits.Some? ==> tokenLimits.value.Keys == FamilySet(config)
      requires tokenRefresh.Some? ==> tokenRefresh.value.Keys == FamilySet(config)
      modifies this
      ensures Valid() && db == old(db)
      ensures users == old(users)[token := NewUser(config, token, now).(
                kind := Or(kind, Normal), expiresAt := if kind == Some(Temporary) then expiresAt else None,
                tokenLimits := Or(tokenLimits, Quotas(config)), tokenRefresh := Or(tokenRefresh, Quotas(config)))]
      ensures usersToFlush == old(usersToFlush) + {token}
    {
      var newUser := NewUser(config, token, now).(tokenLimits := Or(tokenLimits, Quotas(config)),
                                                  tokenRefresh := Or(tokenRefresh, Quotas(config)));
      if kind == Some(Temporary) {
        newUser := newUser.(kind := Temporary, expiresAt := expiresAt);
      } else {
        newUser := newUser.(kind := Or(kind, Normal));
      }
      Put(newUser);
    }

    method UpsertUser(upd: UserUpdate, now: int)
      requires Valid()
      modifies this
      ensures Valid() && db == old(db)
      ensures var existing := if upd.token in old(users) then old(users)[upd.token] else NewUser(config, upd.token, now);
              users == old(users)[upd.token := Updated(config, existing, upd)]
      ensures usersToFlush == old(usersToFlush) + {upd.token}
    {
      var existing := if upd.token in users then users[upd.token] else NewUser(config, upd.token, now);
      Put(Updated(config, existing, upd));
    }

    method IncrementPromptCount(token: Token)
      requires Valid()
      modifies this
      ensures Valid() && db == old(db)
      ensures token !in old(users) ==> users == old(users) && usersToFlush == old(usersToFlush)
      ensures token in old(users) ==>
                && users == old(users)[token := old(users)[token].(promptCount := old(users)[token].promptCount + 1)]
                && usersToFlush == old(usersToFlush) + {token}
    {
      if token in users {
        Put(users[token].(promptCount := users[token].promptCount + 1));
      }
    }

    method IncrementTokenCount(token: Token, family: Family, input: int, output: int)
      requires Valid() && family in config.families
      modifies this
      ensures Valid() && db == old(db)
      ensures token !in old(users) ==> users == old(users) && usersToFlush == old(usersToFlush)
      ensures token in old(users) ==>
                && users == old(users)[token := Spent(old(users)[token], family, input, output)]
                && usersToFlush == old(usersToFlush) + {token}
    {
      if token !in users {
        return;
      }
      var user := users[token];
      SpentFits(config, user, family, input, output);
      Put(Spent(user, family, input, output));
    }

    method HasAvailableQuota(token: Token, family: Family, requested: int) returns (available: bool)
      ensures available <==> token in users && Admits(config, users[token], family, requested)
    {
      if token !in users {
        return false;
      }
      var user := users[token];
      if user.kind == Special {
        return true;
      }
      var totalConsumed := Usage(CountsAt(user.tokenCounts, family));
      var limit := LimitOf(config, user, family);
      if limit == 0 {
        return true;
      }
      available := totalConsumed + Max0(requested) <= limit;
    }

    method Authenticate(token: Token, ip: string, now: int) returns (result: AuthResult)
      requires Valid()
      modifies this
      ensures Valid() && db == old(db)
      ensures token !in old(users) ==> result == NotFound && users == old(users) && usersToFlush == old(usersToFlush)
      ensures token in old(users) ==>
                var (r, u) := Authenticated(config, old(users)[token], ip, now);
                && result == r && users == old(users)[token := u]
                && (usersToFlush == old(usersToFlush) || usersToFlush == old(usersToFlush) + {token})
                && (u != old(users)[token] ==> token in usersToFlush)
    {
      if token !in users {
        return NotFound;
      }
      var user := users[token];
      assert users == users[token := user];
      if IsSet(user.disabledAt) {
        return Disabled;
      }
      var newIp := ip !in user.ip;
      var userLimit := Or(user.maxIps, config.maxIpsPerUser);
      var enforced := user.kind != Special && userLimit != 0;
      if newIp && enforced && |user.ip| >= userLimit {
        if config.maxIpsAutoBan {
          Put(Banned(user.(ip := user.ip + [ip]), now, Some("IP address limit exceeded.")));
          return Disabled;
        }
        return Limited;
      } else if newIp {
        user := user.(ip := user.ip + [ip]);
      }
      Put(user.(lastUsedAt := Some(now)));
      result := Success;
    }

    method ComputeLimits(u: User) returns (tokenLimits: map<Family, int>)
      ensures tokenLimits == RefreshedLimits(config, u, config.families)
    {
      tokenLimits := u.tokenLimits;
      for i := 0 to |config.families|
        invariant tokenLimits == RefreshedLimits(config, u, config.families[..i])
      {
        var family := config.families[i];
        RefreshOneMoreFamily(config, u, config.families[..i], family);
        assert config.families[..i + 1] == config.families[..i] + [family];
        var limit := RefreshedLimit(config, u, family);
        if limit.Some? {
          tokenLimits := tokenLimits[family := limit.value];
        }
      }
      assert config.families[..|config.families|] == config.families;
    }

    method RefreshQuota(token: Token)
      requires Valid()
      modifies this`users, this`usersToFlush
      ensures Valid()
      ensures token !in old(users) ==> users == old(users) && usersToFlush == old(usersToFlush)
      ensures token in old(users) ==>
                && users == old(users)[token := Refreshed(config, old(users)[token])]
                && usersToFlush == old(usersToFlush) + {token}
    {
      if token in users {
        var tokenLimits := ComputeLimits(users[token]);
        RefreshedFits(config, users[token]);
        Put(users[token].(tokenLimits := tokenLimits));
      }
    }

    method RefreshAllQuotas()
      requires Valid()
      modifies this`users, this`usersToFlush
      ensures Valid()
      ensures users == AllRefreshed(config, old(users))
      ensures forall t :: t in usersToFlush <==> t in old(usersToFlush) || (t in old(users) && old(users)[t].kind != Temporary)
    {
      ghost var before := users;
      var rest := users.Keys;
      RefreshedFromNoneToAll(config, before);
      while rest != {}
        invariant Valid() && rest <= before.Keys
        invariant users == RefreshedSoFar(config, before, rest)
        invariant forall t :: t in usersToFlush <==> t in old(usersToFlush) || (t in before && t !in rest && before[t].kind != Temporary)
      {
        var t :| t in rest;
        RefreshedOneMore(config, before, rest, t);
        rest := rest - {t};
        RefreshOne(t);
      }
    }

    method RefreshOne(t: Token)
      requires Valid() && t in users
      modifies this`users, this`usersToFlush
      ensures Valid()
      ensures users == old(users)[t := RefreshedUnlessTemporary(config, old(users)[t])]
      ensures usersToFlush == old(usersToFlush) + if old(users)[t].kind == Temporary then {} else {t}
    {
      if users[t].kind != Temporary {
        RefreshQuota(t);
      } else {
        assert users == users[t := users[t]];
      }
    }

    method ZeroCounts(counts: map<Family, Counts>) returns (tokenCounts: map<Family, Counts>)
      ensures tokenCounts == ResetCounts(config, counts)
    {
      tokenCounts := counts;
      for i := 0 to |config.families|
        invariant forall f :: f in tokenCounts <==> f in counts || f in config.families[..i]
        invariant forall f :: f in tokenCounts ==>
                    tokenCounts[f] == if f in config.families[..i]
                                      then Counts(0, 0, CountsAt(counts, f).legacy) else counts[f]
      {
        var family := config.families[i];
        var legacy := CountsAt(tokenCounts, family).legacy;
        tokenCounts := tokenCounts[family := Counts(0, 0, legacy)];
      }
    }

    method ResetUsage(token: Token)
      requires Valid()
      modifies this
      ensures Valid() && db == old(db)
      ensures token !in old(users) ==> users == old(users) && usersToFlush == old(usersToFlush)
      ensures token in old(users) ==>
                && users == old(users)[token := UsageReset(config, old(users)[token])]
                && usersToFlush == old(usersToFlush) + {token}
    {
      if token in users {
        var tokenCounts := ZeroCounts(users[token].tokenCounts);
        RefreshedFits(config, users[token]);
        Put(users[token].(tokenCounts := tokenCounts));
      }
    }

    method DisableUser(token: Token, reason: Option<string>, now: int)
      requires Valid()
      modifies this`users, this`usersToFlush
      ensures Valid()
      ensures token !in old(users) ==> users == old(users) && usersToFlush == old(usersToFlush)
      ensures token in old(users) ==>
                && users == old(users)[token := Banned(old(users)[token], now, reason)]
                && usersToFlush == old(usersToFlush) + {token}
    {
      if token in users {
        Put(Banned(users[token], now, reason));
      }
    }

    method CleanupOne(t: Token, now: int)
      requires Valid() && t in users
      modifies this`users, this`usersToFlush
      ensures Valid()
      ensures var after := CleanedUp(config, old(users)[t], now);
              && users == (if after.Some? then old(users)[t := after.value] else old(users) - {t})
              && usersToFlush == old(usersToFlush) + if CleanupTouches(config, old(users)[t], now) then {t} else {}
    {
      assert users == users[t := users[t]];
      if users[t].kind != Temporary {
        return;
      }
      DisableExpired(t, now);
      if IsSet(users[t].disabledAt) && users[t].disabledAt.value + config.purgeTimeout < now {
        Purge(t);
      }
    }

    method DisableExpired(t: Token, now: int)
      requires Valid() && t in users
      modifies this`users, this`usersToFlush
      ensures Valid()
      ensures var u := old(users)[t];
              && users == old(users)[t := if Expired(u, now) then DisabledAsExpired(config, u, now) else u]
              && usersToFlush == old(usersToFlush) + if Expired(u, now) then {t} else {}
    {
      var user := users[t];
      assert users == users[t := user];
      if IsSet(user.expiresAt) && user.expiresAt.value < now && !IsSet(user.disabledAt) {
        DisableUser(t, Some("Temporary token expired."), now);
        Put(WithRefreshable(users[t], config.captcha));
        assert users == old(users)[t := users[t]];
      }
    }

    method Purge(t: Token)
      requires Valid()
      modifies this`users, this`usersToFlush
      ensures Valid() && users == old(users) - {t} && usersToFlush == old(usersToFlush) + {t}
    {
      users := users - {t};
      usersToFlush := usersToFlush + {t};
    }

    method CleanupExpiredTokens(now: int)
      requires Valid()
      modifies this`users, this`usersToFlush
      ensures Valid()
      ensures forall t :: t in users ==> t in old(users) && CleanedUp(config, old(users)[t], now) == Some(users[t])
      ensures forall t :: t in old(users) && t !in users ==> CleanedUp(config, old(users)[t], now) == None
      ensures forall t :: t in usersToFlush <==>
                t in old(usersToFlush) || (t in old(users) && CleanupTouches(config, old(users)[t], now))
    {
      ghost var before := users;
      var rest := users.Keys;
      CleanedFromNoneToAll(config, before, now);
      while rest != {}
        invariant Valid() && rest <= before.Keys
        invariant users == CleanedSoFar(config, before, rest, now)
        invariant usersToFlush == old(usersToFlush) + TouchedSoFar(config, before, rest, now)
      {
        var t :| t in rest;
        CleanedOneMore(config, before, rest, t, now);
        rest := rest - {t};
        CleanupOne(t, now);
      }
    }
  }
}
