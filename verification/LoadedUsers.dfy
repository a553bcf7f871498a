/** What a stored row means for its user's quota, in terms of the stored numbers alone. */
module LoadedUsers {
  import opened Options
  import opened Users

  /** The part of an amount that counts: nothing, if it is missing or negative. */
  ghost function Part(n: Option<int>): nat {
    if n.Some? && n.value > 0 then n.value else 0
  }

  /** Something the loader reads as a count: a number, or an object with an input or an output. */
  ghost predicate Usable(v: Option<Stored>) {
    v.Some? && (v.value.Number? || (v.value.Object? && (v.value.input.Some? || v.value.output.Some?)))
  }

  /** What a usable entry stands for. */
  ghost predicate StandsFor(v: Stored, counts: Counts) {
    match v
    case Number(n) => counts == Counts(0, 0, Some(n))
    case Object(i, o, legacy) =>
      && counts.legacy == legacy
      && (if i.Some? then counts.input == i.value else counts.input == 0)
      && (if o.Some? then counts.output == o.value else counts.output == 0)
    case Junk => false
  }

  ghost function EntryOf(column: Option<map<Family, Stored>>, f: Family): Option<Stored> {
    if column.None? || f !in column.value then None else Some(column.value[f])
  }

  /** A count is read from the row, else from the default, else it is zero. */
  lemma {:induction false} MigratedCountStandsFor(v: Option<Stored>, default: Option<Stored>)
    ensures Usable(v) ==> StandsFor(v.value, MigratedCount(v, default))
    ensures !Usable(v) && Usable(default) ==> StandsFor(default.value, MigratedCount(v, default))
    ensures !Usable(v) && !Usable(default) ==> MigratedCount(v, default) == Counts(0, 0, None)
  {
  }

  ghost function StoredUsage(v: Option<Stored>): nat {
    if !Usable(v) then 0
    else if v.value.Number? then Part(Some(v.value.n))
    else Part(v.value.input) + Part(v.value.output) + Part(v.value.legacy)
  }

  /**
   * Every known family is loaded with the counts its entry stands for, or with zeroes, and its usage is the
   * non-negative part of a stored number, or the sum of the non-negative parts of a stored object.
   */
  lemma {:induction false} LoadedUsageIsWhatIsStored(c: Config, row: Row, f: Family)
    requires f in c.families
    ensures f in Load(c, row).tokenCounts
    ensures var v := EntryOf(row.tokenCounts, f);
            if Usable(v) then StandsFor(v.value, Load(c, row).tokenCounts[f])
            else Load(c, row).tokenCounts[f] == Counts(0, 0, None)
    ensures UsageOf(Load(c, row), f) == StoredUsage(EntryOf(row.tokenCounts, f))
  {
  }

  /** The global quota of a family, zero if there is none. */
  ghost function QuotaOf(c: Config, f: Family): int {
    if f in c.tokenQuota then c.tokenQuota[f] else 0
  }

  ghost function Plain(n: Option<int>): int {
    if n.None? then 0 else n.value
  }

  /** A number stands for itself, an object for the sum of its parts if that is positive, all else for the quota. */
  ghost function StoredLimit(v: Option<Stored>, quota: int): int {
    if v == None || v.value == Junk then quota
    else if v.value.Number? then v.value.n
    else if Plain(v.value.input) + Plain(v.value.output) + Plain(v.value.legacy) <= 0 then quota
    else Plain(v.value.legacy) + Plain(v.value.output) + Plain(v.value.input)
  }

  lemma {:induction false} LoadedLimitIsWhatIsStored(c: Config, row: Row, f: Family)
    requires f in c.families
    ensures f in Load(c, row).tokenLimits && f in Load(c, row).tokenRefresh
    ensures Load(c, row).tokenLimits[f] == LimitOf(c, Load(c, row), f) == StoredLimit(EntryOf(row.tokenLimits, f), QuotaOf(c, f))
    ensures Load(c, row).tokenRefresh[f] == StoredLimit(EntryOf(row.tokenRefresh, f), QuotaOf(c, f))
  {
  }

  lemma {:induction false} OnlyKnownFamiliesAreLoaded(c: Config, row: Row, f: Family)
    requires f !in c.families
    ensures f !in Load(c, row).tokenCounts && f !in Load(c, row).tokenLimits && f !in Load(c, row).tokenRefresh
  {
    MigrationIsIdempotent(c, row);
  }

  lemma {:induction false} AbsentUsage(u: User, f: Family)
    requires f !in u.tokenCounts
    ensures UsageOf(u, f) == 0
  {
    assert CountsAt(u.tokenCounts, f) == Counts(0, 0, None);
  }

  lemma {:induction false} AbsentLimit(c: Config, u: User, f: Family)
    requires f !in u.tokenLimits
    ensures LimitOf(c, u, f) == QuotaOf(c, f)
  {
  }

  /** A family the proxy does not know is loaded with nothing: its usage is zero and its limit is the quota. */
  lemma {:induction false} UnknownFamilyIsDropped(c: Config, row: Row, f: Family)
    requires f !in c.families
    ensures f !in Load(c, row).tokenCounts && f !in Load(c, row).tokenLimits && f !in Load(c, row).tokenRefresh
    ensures UsageOf(Load(c, row), f) == 0 && LimitOf(c, Load(c, row), f) == QuotaOf(c, f)
  {
    OnlyKnownFamiliesAreLoaded(c, row, f);
    AbsentUsage(Load(c, row), f);
    AbsentLimit(c, Load(c, row), f);
  }

  /** A user of this kind who has used that much may ask for so many tokens more; a limit of zero is none. */
  ghost predicate MayAsk(kind: UserType, used: nat, limit: int, requested: int) {
    kind == Special || limit == 0 || (used <= limit && used + requested <= limit)
  }

  lemma {:induction false} AdmittedExactlyWhenItMayAsk(c: Config, u: User, f: Family, used: nat, limit: int, requested: int)
    requires UsageOf(u, f) == used && LimitOf(c, u, f) == limit
    ensures Admits(c, u, f, requested) == MayAsk(u.kind, used, limit, requested)
  {
  }

  lemma {:induction false} LoadedKind(c: Config, row: Row)
    ensures Load(c, row).kind == row.kind
  {
  }

  lemma {:induction false} LoadedQuota(c: Config, row: Row, u: User, f: Family, used: nat, limit: int)
    requires f in c.families && u == Load(c, row)
    requires used == StoredUsage(EntryOf(row.tokenCounts, f)) && limit == StoredLimit(EntryOf(row.tokenLimits, f), QuotaOf(c, f))
    ensures UsageOf(u, f) == used && LimitOf(c, u, f) == limit && u.kind == row.kind
  {
    LoadedUsageIsWhatIsStored(c, row, f);
    LoadedLimitIsWhatIsStored(c, row, f);
    LoadedKind(c, row);
  }

  /** Whether the first request after a restart is admitted, read off the stored row. */
  lemma {:induction false} LoadedUserIsAdmittedExactlyWhen(
    c: Config, row: Row, u: User, f: Family, used: nat, limit: int, requested: int)
    requires f in c.families && u == Load(c, row)
    requires used == StoredUsage(EntryOf(row.tokenCounts, f)) && limit == StoredLimit(EntryOf(row.tokenLimits, f), QuotaOf(c, f))
    ensures Admits(c, u, f, requested) == MayAsk(row.kind, used, limit, requested)
  {
    LoadedQuota(c, row, u, f, used, limit);
    AdmittedExactlyWhenItMayAsk(c, u, f, used, limit, requested);
  }

  /** Everything else is taken over as it is, a missing list of addresses or of metadata as an empty one. */
  lemma {:induction false} LoadedUserKeepsItsFields(c: Config, row: Row)
    ensures var u := Load(c, row);
            && u.token == row.token && u.nickname == row.nickname && u.kind == row.kind && u.promptCount == row.promptCount
            && u.createdAt == row.createdAt && u.lastUsedAt == row.lastUsedAt && u.expiresAt == row.expiresAt
            && u.disabledAt == row.disabledAt && u.disabledReason == row.disabledReason
            && u.maxIps == row.maxIps && u.adminNote == row.adminNote
            && (row.ip.Some? ==> u.ip == row.ip.value) && (row.ip.None? ==> u.ip == [])
            && (row.meta.Some? ==> u.meta == row.meta) && (row.meta.None? ==> u.meta == Some(map[]))
  {
  }
}
