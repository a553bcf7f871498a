/** A proxy user, its stored row, and the loader that migrates older rows. */
module Users {
  import opened Options

  type Token = string
  type Family = string

  datatype UserType = Normal | Special | Temporary

  datatype Counts = Counts(input: int, output: int, legacy: Option<int>)

  type Meta = map<string, string>

  datatype User = User(
    token: Token, ip: seq<string>, nickname: Option<string>, kind: UserType, promptCount: int,
    tokenCounts: map<Family, Counts>, tokenLimits: map<Family, int>, tokenRefresh: map<Family, int>,
    createdAt: int, lastUsedAt: Option<int>, disabledAt: Option<int>, disabledReason: Option<string>,
    expiresAt: Option<int>, maxIps: Option<int>, adminNote: Option<string>, meta: Option<Meta>)

  /** A number as it may stand in a stored JSON object: current, older, or unusable. */
  datatype Stored = Number(n: int) | Object(input: Option<int>, output: Option<int>, legacy: Option<int>) | Junk

  /** A row of the users table; a missing JSON column is `None`. */
  datatype Row = Row(
    token: Token, ip: Option<seq<string>>, nickname: Option<string>, kind: UserType, promptCount: int,
    tokenCounts: Option<map<Family, Stored>>, tokenLimits: Option<map<Family, Stored>>, tokenRefresh: Option<map<Family, Stored>>,
    createdAt: int, lastUsedAt: Option<int>, disabledAt: Option<int>, disabledReason: Option<string>,
    expiresAt: Option<int>, maxIps: Option<int>, adminNote: Option<string>, meta: Option<Meta>)

  datatype Config = Config(
    families: seq<Family>, tokenQuota: map<Family, int>, maxIpsPerUser: int, maxIpsAutoBan: bool,
    captcha: bool, purgeTimeout: int)

  function Or<T>(o: Option<T>, d: T): T {
    if o.Some? then o.value else d
  }

  function At<T>(m: map<Family, T>, f: Family): Option<T> {
    if f in m then Some(m[f]) else None
  }

  function Column<T>(o: Option<map<Family, T>>, f: Family): Option<T> {
    if o.Some? then At(o.value, f) else None
  }

  function Max0(n: int): int {
    if n < 0 then 0 else n
  }

  // ----- Loading and storing -----

  function CountsOf(v: Option<Stored>): Option<Counts> {
    match v
    case Some(Number(n)) => Some(Counts(0, 0, Some(n)))
    case Some(Object(i, o, legacy)) => if i.Some? || o.Some? then Some(Counts(Or(i, 0), Or(o, 0), legacy)) else None
    case _ => None
  }

  /** A stored count in whatever format, else the configured default, else zero. */
  function MigratedCount(v: Option<Stored>, default: Option<Stored>): Counts {
    Or(CountsOf(v), Or(CountsOf(default), Counts(0, 0, None)))
  }

  function MigratedCounts(c: Config, column: Option<map<Family, Stored>>, defaults: map<Family, Stored>): map<Family, Counts> {
    map f | f in c.families :: MigratedCount(Column(column, f), At(defaults, f))
  }

  function MigratedLimit(v: Option<Stored>, quota: int): int {
    match v
    case Some(Number(n)) => n
    case Some(Object(i, o, legacy)) =>
      var total := Or(i, 0) + Or(o, 0) + Or(legacy, 0);
      if total > 0 then total else quota
    case _ => quota
  }

  function MigratedLimits(c: Config, column: Option<map<Family, Stored>>): map<Family, int> {
    map f | f in c.families :: MigratedLimit(Column(column, f), Amount(c.tokenQuota, f))
  }

  function InitialTokens(c: Config): map<Family, Stored> {
    map f | f in c.families :: Object(Some(0), Some(0), None)
  }

  function Load(c: Config, row: Row): User {
    User(row.token, Or(row.ip, []), row.nickname, row.kind, row.promptCount,
         MigratedCounts(c, row.tokenCounts, InitialTokens(c)), MigratedLimits(c, row.tokenLimits), MigratedLimits(c, row.tokenRefresh),
         row.createdAt, row.lastUsedAt, row.disabledAt, row.disabledReason,
         row.expiresAt, row.maxIps, row.adminNote, Some(Or(row.meta, map[])))
  }

  function Store(u: User): Row {
    Row(u.token, Some(u.ip), u.nickname, u.kind, u.promptCount,
        Some(map f | f in u.tokenCounts :: Object(Some(u.tokenCounts[f].input), Some(u.tokenCounts[f].output), u.tokenCounts[f].legacy)),
        Some(map f | f in u.tokenLimits :: Number(u.tokenLimits[f])),
        Some(map f | f in u.tokenRefresh :: Number(u.tokenRefresh[f])),
        u.createdAt, u.lastUsedAt, u.disabledAt, u.disabledReason,
        u.expiresAt, u.maxIps, u.adminNote, Some(Or(u.meta, map[])))
  }

  ghost function FamilySet(c: Config): set<Family> {
    set f | f in c.families
  }

  /** The user has an amount for every family and for nothing else. */
  ghost predicate FitsFamilies(c: Config, u: User) {
    && u.tokenCounts.Keys == FamilySet(c)
    && u.tokenLimits.Keys == FamilySet(c)
    && u.tokenRefresh.Keys == FamilySet(c)
  }

  /** The rest of the code reads an absent `meta` and an empty one alike. */
  function WithMeta(u: User): User {
    u.(meta := Some(Or(u.meta, map[])))
  }

  lemma {:induction false} LoadOfStoreFillsFamilies(c: Config, u: User)
    ensures Load(c, Store(u)).tokenCounts.Keys == FamilySet(c)
    ensures Load(c, Store(u)).tokenLimits.Keys == FamilySet(c)
    ensures Load(c, Store(u)).tokenRefresh.Keys == FamilySet(c)
    ensures forall f :: f in c.families && f in u.tokenCounts ==> Load(c, Store(u)).tokenCounts[f] == u.tokenCounts[f]
    ensures forall f :: f in c.families && f in u.tokenLimits ==> Load(c, Store(u)).tokenLimits[f] == u.tokenLimits[f]
    ensures forall f :: f in c.families && f in u.tokenRefresh ==> Load(c, Store(u)).tokenRefresh[f] == u.tokenRefresh[f]
  {
  }

  lemma {:induction false} MapsAreEqual<T>(a: map<Family, T>, b: map<Family, T>)
    requires a.Keys == b.Keys && forall f :: f in a.Keys ==> a[f] == b[f]
    ensures a == b
  {
  }

  lemma {:induction false} LoadOfStoreKeepsAmounts(c: Config, u: User)
    requires FitsFamilies(c, u)
    ensures Load(c, Store(u)).tokenCounts == u.tokenCounts
    ensures Load(c, Store(u)).tokenLimits == u.tokenLimits
    ensures Load(c, Store(u)).tokenRefresh == u.tokenRefresh
  {
    LoadOfStoreFillsFamilies(c, u);
    var l := Load(c, Store(u));
    MapsAreEqual(l.tokenCounts, u.tokenCounts);
    MapsAreEqual(l.tokenLimits, u.tokenLimits);
    MapsAreEqual(l.tokenRefresh, u.tokenRefresh);
  }

  /** The migrating loader undoes the store exactly on users with every family's amounts, up to an absent `meta`. */
  lemma {:induction false} LoadUndoesStoreExactlyWhen(c: Config, u: User)
    ensures Load(c, Store(u)) == WithMeta(u) <==> FitsFamilies(c, u)
    ensures Load(c, Store(u)) == u <==> FitsFamilies(c, u) && u.meta.Some?
  {
    var l := Load(c, Store(u));
    if FitsFamilies(c, u) {
      LoadOfStoreKeepsAmounts(c, u);
    } else {
      LoadOfStoreFillsFamilies(c, u);
      assert l.tokenCounts != u.tokenCounts || l.tokenLimits != u.tokenLimits || l.tokenRefresh != u.tokenRefresh;
    }
  }

  /** Whatever the format of a row, loading it, storing it and loading it again changes nothing more. */
  lemma {:induction false} MigrationIsIdempotent(c: Config, row: Row)
    ensures FitsFamilies(c, Load(c, row))
    ensures Load(c, Store(Load(c, row))) == Load(c, row)
  {
    LoadUndoesStoreExactlyWhen(c, Load(c, row));
  }

  // ----- Quota -----

  function Usage(counts: Counts): int {
    Max0(counts.input) + Max0(counts.output) + Max0(Or(counts.legacy, 0))
  }

  function CountsAt(counts: map<Family, Counts>, f: Family): Counts {
    if f in counts then counts[f] else Counts(0, 0, None)
  }

  function Amount(m: map<Family, int>, f: Family): int {
    if f in m then m[f] else 0
  }

  function UsageOf(u: User, f: Family): int {
    Usage(CountsAt(u.tokenCounts, f))
  }

  function LimitOf(c: Config, u: User, f: Family): int {
    if f in u.tokenLimits then u.tokenLimits[f] else Amount(c.tokenQuota, f)
  }

  /** A limit of zero means no limit. */
  predicate Admits(c: Config, u: User, f: Family, requested: int) {
    u.kind == Special || LimitOf(c, u, f) == 0 || UsageOf(u, f) + Max0(requested) <= LimitOf(c, u, f)
  }

  function Spent(u: User, f: Family, input: int, output: int): User {
    var existing := CountsAt(u.tokenCounts, f);
    u.(tokenCounts := u.tokenCounts[f := Counts(existing.input + Max0(input), existing.output + Max0(output), existing.legacy)])
  }

  /** The user's own refresh amount, or the global quota when that is zero. */
  function RefreshAmount(c: Config, u: User, f: Family): int {
    if Amount(u.tokenRefresh, f) != 0 then Amount(u.tokenRefresh, f) else Amount(c.tokenQuota, f)
  }

  /** The new limit, for the families that have a refresh amount. */
  function RefreshedLimit(c: Config, u: User, f: Family): Option<int> {
    if RefreshAmount(c, u, f) > 0 then Some(UsageOf(u, f) + RefreshAmount(c, u, f)) else None
  }

  function NewLimits(c: Config, u: User, fs: seq<Family>): map<Family, int> {
    map f | f in fs && RefreshedLimit(c, u, f).Some? :: RefreshedLimit(c, u, f).value
  }

  function RefreshedLimits(c: Config, u: User, fs: seq<Family>): map<Family, int> {
    u.tokenLimits + NewLimits(c, u, fs)
  }

  function Refreshed(c: Config, u: User): User {
    u.(tokenLimits := RefreshedLimits(c, u, c.families))
  }

  function ResetCounts(c: Config, counts: map<Family, Counts>): map<Family, Counts> {
    counts + map f | f in c.families :: Counts(0, 0, CountsAt(counts, f).legacy)
  }

  function UsageReset(c: Config, u: User): User {
    u.(tokenCounts := ResetCounts(c, u.tokenCounts))
  }

  lemma {:induction false} NewLimitOfOneMoreFamily(c: Config, u: User, fs: seq<Family>, f: Family)
    ensures NewLimits(c, u, fs + [f]) ==
              var limit := RefreshedLimit(c, u, f);
              if limit.Some? then NewLimits(c, u, fs)[f := limit.value] else NewLimits(c, u, fs)
  {
  }

  lemma {:induction false} RefreshOneMoreFamily(c: Config, u: User, fs: seq<Family>, f: Family)
    ensures RefreshedLimits(c, u, fs + [f]) ==
              var limit := RefreshedLimit(c, u, f);
              if limit.Some? then RefreshedLimits(c, u, fs)[f := limit.value] else RefreshedLimits(c, u, fs)
  {
    NewLimitOfOneMoreFamily(c, u, fs, f);
  }

  // ----- Quota over a run of requests -----

  /** A request is checked, and if it is admitted its consumption is recorded before the next one is checked. */
  datatype QuotaEvent = Request(requested: int, input: int, output: int) | Refresh

  function QuotaStep(c: Config, u: User, f: Family, e: QuotaEvent): User {
    match e
    case Request(requested, input, output) => if Admits(c, u, f, requested) then Spent(u, f, input, output) else u
    case Refresh => Refreshed(c, u)
  }

  function QuotaRun(c: Config, u: User, f: Family, es: seq<QuotaEvent>): User {
    if es == [] then u else QuotaStep(c, QuotaRun(c, u, f, es[..|es| - 1]), f, es[|es| - 1])
  }

  ghost predicate ConsumesAtMostRequested(es: seq<QuotaEvent>) {
    forall e :: e in es && e.Request? ==> Max0(e.input) + Max0(e.output) <= Max0(e.requested)
  }

  /** Counts are never negative in a store that only adds non-negative amounts. */
  ghost predicate NonNegative(u: User, f: Family) {
    CountsAt(u.tokenCounts, f).input >= 0 && CountsAt(u.tokenCounts, f).output >= 0
  }

  lemma {:induction false} RefreshSetsTheLimit(c: Config, u: User, f: Family)
    requires f in c.families && RefreshAmount(c, u, f) > 0
    ensures LimitOf(c, Refreshed(c, u), f) == UsageOf(u, f) + RefreshAmount(c, u, f)
    ensures UsageOf(Refreshed(c, u), f) == UsageOf(u, f)
  {
    var limits := RefreshedLimits(c, u, c.families);
    assert RefreshedLimit(c, u, f).Some? && f in limits;
    assert limits[f] == RefreshedLimit(c, u, f).value;
    assert Refreshed(c, u).tokenLimits == limits;
  }

  /** Right after a refresh a request is admitted exactly when it fits the refresh amount. */
  lemma {:induction false} RefreshAdmitsExactlyItsAmount(c: Config, u: User, f: Family, requested: int)
    requires f in c.families && u.kind != Special && RefreshAmount(c, u, f) > 0
    ensures Admits(c, Refreshed(c, u), f, requested) <==> Max0(requested) <= RefreshAmount(c, u, f)
    ensures UsageOf(Refreshed(c, u), f) == UsageOf(u, f)
  {
    RefreshSetsTheLimit(c, u, f);
    UsageIsNotNegative(CountsAt(u.tokenCounts, f));
  }

  lemma {:induction false} UsageIsNotNegative(counts: Counts)
    ensures Usage(counts) >= 0
  {
  }

  lemma {:induction false} UsageGrowsByConsumption(counts: Counts, input: int, output: int)
    requires counts.input >= 0 && counts.output >= 0
    ensures Usage(Counts(counts.input + Max0(input), counts.output + Max0(output), counts.legacy)) ==
              Usage(counts) + Max0(input) + Max0(output)
  {
  }

  lemma {:induction false} SpentCounts(u: User, f: Family, input: int, output: int)
    ensures var counts := CountsAt(u.tokenCounts, f);
            CountsAt(Spent(u, f, input, output).tokenCounts, f) ==
              Counts(counts.input + Max0(input), counts.output + Max0(output), counts.legacy)
  {
  }

  lemma {:induction false} SpendAddsItsConsumption(u: User, f: Family, input: int, output: int)
    requires NonNegative(u, f)
    ensures NonNegative(Spent(u, f, input, output), f)
    ensures UsageOf(Spent(u, f, input, output), f) == UsageOf(u, f) + Max0(input) + Max0(output)
  {
    SpentCounts(u, f, input, output);
    UsageGrowsByConsumption(CountsAt(u.tokenCounts, f), input, output);
  }

  lemma {:induction false} RequestStaysWithinTheLimit(c: Config, u: User, f: Family, e: QuotaEvent)
    requires u.kind != Special && NonNegative(u, f) && LimitOf(c, u, f) > 0 && UsageOf(u, f) <= LimitOf(c, u, f)
    requires e.Request? && Max0(e.input) + Max0(e.output) <= Max0(e.requested)
    ensures var v := QuotaStep(c, u, f, e);
            && v.kind == u.kind && NonNegative(v, f) && LimitOf(c, v, f) == LimitOf(c, u, f)
            && UsageOf(v, f) <= LimitOf(c, u, f)
  {
    SpendAddsItsConsumption(u, f, e.input, e.output);
  }

  lemma {:induction false} SpendingStaysWithinTheLimit(c: Config, u: User, f: Family, es: seq<QuotaEvent>)
    requires u.kind != Special && NonNegative(u, f)
    requires LimitOf(c, u, f) > 0 && UsageOf(u, f) <= LimitOf(c, u, f)
    requires ConsumesAtMostRequested(es) && forall e :: e in es ==> e.Request?
    ensures var v := QuotaRun(c, u, f, es);
            && v.kind == u.kind && NonNegative(v, f) && LimitOf(c, v, f) == LimitOf(c, u, f)
            && UsageOf(v, f) <= LimitOf(c, u, f)
  {
    if es == [] {
    } else {
      var front := es[..|es| - 1];
      assert forall e :: e in front ==> e in es;
      SpendingStaysWithinTheLimit(c, u, f, front);
      assert es[|es| - 1] in es;
      RequestStaysWithinTheLimit(c, QuotaRun(c, u, f, front), f, es[|es| - 1]);
    }
  }

  lemma {:induction false} RunKeepsAmounts(c: Config, u: User, f: Family, es: seq<QuotaEvent>)
    requires NonNegative(u, f)
    ensures var v := QuotaRun(c, u, f, es);
            v.kind == u.kind && v.tokenRefresh == u.tokenRefresh && NonNegative(v, f)
  {
    if es == [] {
    } else {
      RunKeepsAmounts(c, u, f, es[..|es| - 1]);
    }
  }

  lemma {:induction false} RunOfSum(c: Config, u: User, f: Family, a: seq<QuotaEvent>, b: seq<QuotaEvent>)
    ensures QuotaRun(c, u, f, a + b) == QuotaRun(c, QuotaRun(c, u, f, a), f, b)
    decreases |b|
  {
    if b == [] {
      assert a + b == a;
    } else {
      assert (a + b)[..|a + b| - 1] == a + b[..|b| - 1];
      RunOfSum(c, u, f, a, b[..|b| - 1]);
    }
  }

  /** In any run, what is consumed after a refresh and before the next one is at most the refresh amount. */
  lemma {:induction false} QuotaPerPeriod(c: Config, u: User, f: Family, before: seq<QuotaEvent>, after: seq<QuotaEvent>)
    requires f in c.families && u.kind != Special && NonNegative(u, f) && RefreshAmount(c, u, f) > 0
    requires ConsumesAtMostRequested(after) && forall e :: e in after ==> e.Request?
    ensures UsageOf(QuotaRun(c, u, f, before + [Refresh] + after), f) - UsageOf(QuotaRun(c, u, f, before + [Refresh]), f)
            <= RefreshAmount(c, u, f)
  {
    RunKeepsAmounts(c, u, f, before);
    var v := QuotaRun(c, u, f, before);
    assert (before + [Refresh])[..|before + [Refresh]| - 1] == before;
    assert QuotaRun(c, u, f, before + [Refresh]) == Refreshed(c, v);
    RunOfSum(c, u, f, before + [Refresh], after);
    RefreshSetsTheLimit(c, v, f);
    UsageIsNotNegative(CountsAt(v.tokenCounts, f));
    SpendingStaysWithinTheLimit(c, Refreshed(c, v), f, after);
  }

  lemma {:induction false} SpendingTwice(u: User, f: Family, n: nat)
    requires NonNegative(u, f)
    ensures UsageOf(Spent(Spent(u, f, n, 0), f, n, 0), f) == UsageOf(u, f) + 2 * n
  {
    SpendAddsItsConsumption(u, f, n, 0);
    SpendAddsItsConsumption(Spent(u, f, n, 0), f, n, 0);
  }

  /** Two requests checked before either is recorded can together take twice the amount. */
  lemma {:induction false} ConcurrentChecksOverspend(c: Config, u: User, f: Family)
    requires f in c.families && u.kind != Special && NonNegative(u, f) && RefreshAmount(c, u, f) > 0
    ensures var r := Refreshed(c, u);
            var n := RefreshAmount(c, u, f);
            && Admits(c, r, f, n)
            && UsageOf(Spent(Spent(r, f, n, 0), f, n, 0), f) - UsageOf(u, f) == 2 * n
  {
    var n, r := RefreshAmount(c, u, f), Refreshed(c, u);
    RefreshAdmitsExactlyItsAmount(c, u, f, n);
    SpendingTwice(r, f, n);
  }
}
