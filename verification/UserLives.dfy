/**
 * What the store's operations add up to for one user: how a new one starts, what an update changes, which addresses
 * may use a token, and when a temporary user is disabled and purged.
 */
module UserLives {
  import opened Options
  import opened Users
  import opened UserStore
  import opened LoadedUsers

  // ----- New users -----

  /** A new user has used nothing and may use the quota of every known family; nothing else is known of them. */
  lemma {:induction false} NewUserStartsFromNothing(c: Config, token: Token, now: int, f: Family)
    requires f in c.families
    ensures var u := NewUser(c, token, now);
            && u.token == token && u.createdAt == now && u.kind == Normal && u.promptCount == 0 && u.ip == []
            && f in u.tokenCounts && u.tokenCounts[f] == Counts(0, 0, None)
            && f in u.tokenLimits && u.tokenLimits[f] == QuotaOf(c, f)
            && f in u.tokenRefresh && u.tokenRefresh[f] == QuotaOf(c, f)
            && u.lastUsedAt == None && u.disabledAt == None && u.disabledReason == None && u.expiresAt == None
            && u.nickname == None && u.maxIps == None && u.adminNote == None && u.meta == Some(map[])
  {
  }

  lemma {:induction false} NothingUsed(u: User, f: Family)
    requires f in u.tokenCounts && u.tokenCounts[f] == Counts(0, 0, None)
    ensures UsageOf(u, f) == 0
  {
  }

  lemma {:induction false} NewLimit(c: Config, token: Token, now: int, f: Family)
    requires f in c.families
    ensures LimitOf(c, NewUser(c, token, now), f) == QuotaOf(c, f) && NewUser(c, token, now).kind == Normal
  {
  }

  /** Nothing of the quota of a known family is used. */
  lemma {:induction false} NewUserHasItsQuota(c: Config, token: Token, now: int, f: Family, u: User)
    requires f in c.families && u == NewUser(c, token, now)
    ensures UsageOf(u, f) == 0 && LimitOf(c, u, f) == QuotaOf(c, f) && u.kind == Normal
  {
    NewUserStartsFromNothing(c, token, now, f);
    NewLimit(c, token, now, f);
    NothingUsed(u, f);
  }

  // ----- Updates -----

  ghost predicate Takes<T>(before: Option<T>, change: Change<T>, after: Option<T>) {
    match change
    case Keep => after == before
    case Delete => after == None
    case Set(v) => after == Some(v)
  }

  ghost predicate TakesIfGiven<T>(before: T, given: Option<T>, after: T) {
    if given == None then after == before else after == given.value
  }

  /** An update changes what it names and nothing else. */
  lemma {:induction false} UpdateChangesWhatItNames(c: Config, u: User, upd: UserUpdate)
    ensures var v := Updated(c, u, upd);
            && v.token == u.token
            && TakesIfGiven(u.ip, upd.ip, v.ip) && TakesIfGiven(u.kind, upd.kind, v.kind)
            && TakesIfGiven(u.promptCount, upd.promptCount, v.promptCount) && TakesIfGiven(u.createdAt, upd.createdAt, v.createdAt)
            && Takes(u.nickname, upd.nickname, v.nickname) && Takes(u.lastUsedAt, upd.lastUsedAt, v.lastUsedAt)
            && Takes(u.disabledAt, upd.disabledAt, v.disabledAt) && Takes(u.disabledReason, upd.disabledReason, v.disabledReason)
            && Takes(u.expiresAt, upd.expiresAt, v.expiresAt) && Takes(u.maxIps, upd.maxIps, v.maxIps)
            && Takes(u.adminNote, upd.adminNote, v.adminNote) && Takes(u.meta, upd.meta, v.meta)
            && (upd.tokenCounts == None ==> v.tokenCounts == u.tokenCounts)
            && (upd.tokenLimits == None ==> v.tokenLimits == u.tokenLimits)
            && (upd.tokenRefresh == None ==> v.tokenRefresh == u.tokenRefresh)
  {
  }

  /** The amounts an update gives for one family. */
  ghost predicate CountsTaken(before: map<Family, Counts>, given: map<Family, PartialCounts>, f: Family, after: Counts) {
    && after.input == (if f in given && given[f].input.Some? then given[f].input.value else 0)
    && after.output == (if f in given && given[f].output.Some? then given[f].output.value else 0)
    && after.legacy == (if f in given && given[f].legacy.Some? then given[f].legacy
                        else if f in before then before[f].legacy else None)
  }

  ghost predicate AmountsTaken(given: map<Family, int>, f: Family, after: int) {
    after == if f in given then given[f] else 0
  }

  /**
   * An update of amounts sets those of every known family, to zero where it gives none; but a legacy total that it
   * does not give stays.
   */
  lemma {:induction false} UpdatedAmounts(c: Config, u: User, upd: UserUpdate, f: Family)
    requires f in c.families
    ensures upd.tokenCounts.Some? ==> var counts := Updated(c, u, upd).tokenCounts;
              f in counts && CountsTaken(u.tokenCounts, upd.tokenCounts.value, f, counts[f])
    ensures upd.tokenLimits.Some? ==> var limits := Updated(c, u, upd).tokenLimits;
              f in limits && AmountsTaken(upd.tokenLimits.value, f, limits[f])
    ensures upd.tokenRefresh.Some? ==> var refresh := Updated(c, u, upd).tokenRefresh;
              f in refresh && AmountsTaken(upd.tokenRefresh.value, f, refresh[f])
  {
  }

  // ----- Refreshes and resets -----

  /** What a refresh adds: the user's own amount, or the quota where that is zero or missing. */
  ghost function AmountOf(c: Config, u: User, f: Family): int {
    if f in u.tokenRefresh && u.tokenRefresh[f] != 0 then u.tokenRefresh[f] else QuotaOf(c, f)
  }

  /**
   * A refresh sets the limit of every known family with a positive amount to that much above what is used, and
   * changes nothing else.
   */
  lemma {:induction false} RefreshSetsTheLimits(c: Config, u: User, f: Family)
    ensures Refreshed(c, u).(tokenLimits := u.tokenLimits) == u
    ensures f in c.families && AmountOf(c, u, f) > 0 ==>
              f in Refreshed(c, u).tokenLimits && Refreshed(c, u).tokenLimits[f] == UsageOf(u, f) + AmountOf(c, u, f)
    ensures f !in c.families || AmountOf(c, u, f) <= 0 ==> (f in Refreshed(c, u).tokenLimits <==> f in u.tokenLimits)
    ensures (f !in c.families || AmountOf(c, u, f) <= 0) && f in u.tokenLimits ==> Refreshed(c, u).tokenLimits[f] == u.tokenLimits[f]
  {
    assert RefreshAmount(c, u, f) == AmountOf(c, u, f);
  }

  /** The nightly refresh passes over temporary users, and refreshes everybody else. */
  lemma {:induction false} RefreshAllPassesOverTemporary(c: Config, users: map<Token, User>, t: Token)
    ensures t in AllRefreshed(c, users) <==> t in users
    ensures t in users && users[t].kind == Temporary ==> AllRefreshed(c, users)[t] == users[t]
    ensures t in users && users[t].kind != Temporary ==> AllRefreshed(c, users)[t] == Refreshed(c, users[t])
  {
  }

  /** A reset forgets what was used of every known family, but not what was used before amounts were split. */
  lemma {:induction false} ResetForgetsUsage(c: Config, u: User, f: Family)
    ensures UsageReset(c, u).(tokenCounts := u.tokenCounts) == u
    ensures f in c.families ==> var counts := UsageReset(c, u).tokenCounts;
              f in counts && counts[f].input == 0 && counts[f].output == 0
              && counts[f].legacy == (if f in u.tokenCounts then u.tokenCounts[f].legacy else None)
    ensures f !in c.families ==> (f in UsageReset(c, u).tokenCounts <==> f in u.tokenCounts)
    ensures f !in c.families && f in u.tokenCounts ==> UsageReset(c, u).tokenCounts[f] == u.tokenCounts[f]
  {
  }

  /** In a run of requests, one is counted as it was consumed exactly when it is admitted. */
  lemma {:induction false} OnlyTheAdmittedAreCounted(c: Config, u: User, f: Family, e: QuotaEvent)
    requires e.Request? && f in u.tokenCounts
    ensures var v := QuotaStep(c, u, f, e);
            if Admits(c, u, f, e.requested)
            then && v.(tokenCounts := u.tokenCounts) == u && f in v.tokenCounts
                 && v.tokenCounts[f].input == u.tokenCounts[f].input + Part(Some(e.input))
                 && v.tokenCounts[f].output == u.tokenCounts[f].output + Part(Some(e.output))
                 && v.tokenCounts[f].legacy == u.tokenCounts[f].legacy
                 && forall g :: g in u.tokenCounts && g != f ==> g in v.tokenCounts && v.tokenCounts[g] == u.tokenCounts[g]
            else v == u
  {
  }

  // ----- Addresses -----

  datatype Visit = Visit(ip: string, at: int)

  function VisitedBy(c: Config, u: User, visits: seq<Visit>): User {
    if visits == [] then u
    else Authenticated(c, VisitedBy(c, u, visits[..|visits| - 1]), visits[|visits| - 1].ip, visits[|visits| - 1].at).1
  }

  /** The different addresses of the visits, in the order they came. */
  ghost function Addresses(visits: seq<Visit>): seq<string> {
    if visits == [] then []
    else
      var before, ip := Addresses(visits[..|visits| - 1]), visits[|visits| - 1].ip;
      if ip in before then before else before + [ip]
  }

  /** How many addresses may use the token; any number, if there is no limit. */
  ghost function Room(c: Config, u: User): Option<nat> {
    var limit := if u.maxIps.Some? then u.maxIps.value else c.maxIpsPerUser;
    if u.kind == Special || limit == 0 then None else Some(if limit < 0 then 0 else limit)
  }

  ghost predicate HasRoomFor(room: Option<nat>, n: nat) {
    room.None? || n <= room.value
  }

  /** The first addresses, as many as there is room for. */
  ghost function Admitted(room: Option<nat>, addresses: seq<string>): seq<string> {
    if HasRoomFor(room, |addresses|) then addresses else addresses[..room.value]
  }

  /** A user nobody has used yet. */
  ghost predicate Unvisited(u: User) {
    u.ip == [] && !IsSet(u.disabledAt)
  }

  ghost predicate AfterMidnight(visits: seq<Visit>) {
    forall v :: v in visits ==> v.at > 0
  }

  /** Not banned: the addresses that fit are on the list. */
  ghost predicate ListsAdmitted(c: Config, u: User, visits: seq<Visit>, v: User) {
    && v.kind == u.kind && v.maxIps == u.maxIps && v.disabledAt == u.disabledAt
    && v.ip == Admitted(Room(c, u), Addresses(visits))
  }

  lemma {:induction false} AddressesOfOneMore(visits: seq<Visit>, visit: Visit)
    ensures Addresses(visits + [visit]) == if visit.ip in Addresses(visits) then Addresses(visits) else Addresses(visits) + [visit.ip]
  {
    assert (visits + [visit])[..|visits + [visit]| - 1] == visits;
  }

  lemma {:induction false} OneMoreVisit(c: Config, u: User, visits: seq<Visit>, visit: Visit)
    ensures VisitedBy(c, u, visits + [visit]) == Authenticated(c, VisitedBy(c, u, visits), visit.ip, visit.at).1
  {
    assert (visits + [visit])[..|visits + [visit]| - 1] == visits;
  }

  lemma {:induction false} AdmittedOfOneMore(room: Option<nat>, addresses: seq<string>, ip: string)
    requires ip !in addresses
    ensures Admitted(room, addresses + [ip]) ==
              if HasRoomFor(room, |addresses| + 1) then Admitted(room, addresses) + [ip] else Admitted(room, addresses)
  {
    if room.Some? && |addresses| >= room.value {
      assert (addresses + [ip])[..room.value] == addresses[..room.value];
    }
  }

  /** What one visit comes to for a user who is not banned, by the addresses on the list. */
  lemma {:induction false} VisitComesTo(c: Config, u: User, visit: Visit)
    requires !IsSet(u.disabledAt)
    ensures var (result, v) := Authenticated(c, u, visit.ip, visit.at);
            if visit.ip in u.ip then result == Success && v == u.(lastUsedAt := Some(visit.at))
            else if HasRoomFor(Room(c, u), |u.ip| + 1)
            then result == Success && v == u.(ip := u.ip + [visit.ip], lastUsedAt := Some(visit.at))
            else if !c.maxIpsAutoBan then result == Limited && v == u
            else
              && result == Disabled && v.ip == u.ip + [visit.ip] && v.disabledAt == Some(visit.at)
              && v.disabledReason == Some("IP address limit exceeded.")
              && v.meta.Some? && "refreshable" in v.meta.value && v.meta.value["refreshable"] == "false"
  {
  }

  lemma {:induction false} AdmittedIsNoLonger(room: Option<nat>, addresses: seq<string>)
    ensures HasRoomFor(room, |Admitted(room, addresses)|)
    ensures forall ip :: ip in Admitted(room, addresses) ==> ip in addresses
    ensures HasRoomFor(room, |Admitted(room, addresses)| + 1) <==> HasRoomFor(room, |addresses| + 1)
  {
  }

  lemma {:induction false} NextVisit(c: Config, u: User, visits: seq<Visit>, v: User, visit: Visit)
    requires ListsAdmitted(c, u, visits, v) && !IsSet(u.disabledAt)
    requires !c.maxIpsAutoBan || HasRoomFor(Room(c, u), |Addresses(visits + [visit])|)
    ensures ListsAdmitted(c, u, visits + [visit], Authenticated(c, v, visit.ip, visit.at).1)
    ensures Authenticated(c, v, visit.ip, visit.at).0 ==
              if visit.ip in Admitted(Room(c, u), Addresses(visits + [visit])) then Success else Limited
  {
    var room, addresses := Room(c, u), Addresses(visits);
    assert Room(c, v) == room;
    VisitComesTo(c, v, visit);
    AddressesOfOneMore(visits, visit);
    AdmittedIsNoLonger(room, addresses);
    if visit.ip !in addresses {
      AdmittedOfOneMore(room, addresses, visit.ip);
    }
  }

  /**
   * Without automatic bans, a token may be used from as many addresses as there is room for, those that came first,
   * and a visit succeeds exactly when it is from one of these.
   */
  lemma {:induction false} FirstAddressesMayUseTheToken(c: Config, u: User, visits: seq<Visit>, visit: Visit)
    requires Unvisited(u) && !c.maxIpsAutoBan
    ensures ListsAdmitted(c, u, visits, VisitedBy(c, u, visits))
    ensures Authenticated(c, VisitedBy(c, u, visits), visit.ip, visit.at).0 ==
              if visit.ip in Admitted(Room(c, u), Addresses(visits + [visit])) then Success else Limited
  {
    if visits != [] {
      var front, last := visits[..|visits| - 1], visits[|visits| - 1];
      FirstAddressesMayUseTheToken(c, u, front, last);
      assert visits == front + [last];
      NextVisit(c, u, front, VisitedBy(c, u, front), last);
    }
    NextVisit(c, u, visits, VisitedBy(c, u, visits), visit);
  }

  lemma {:induction false} AddressesGrow(visits: seq<Visit>, visit: Visit)
    ensures |Addresses(visits)| <= |Addresses(visits + [visit])| <= |Addresses(visits)| + 1
    ensures |Addresses(visits + [visit])| > |Addresses(visits)| ==> visit.ip !in Addresses(visits)
  {
    AddressesOfOneMore(visits, visit);
  }

  /**
   * With automatic bans, a token works from any address until one more comes than there is room for, and from none
   * from then on.
   */
  lemma {:induction false} OneAddressTooManyBans(c: Config, u: User, visits: seq<Visit>)
    requires Unvisited(u) && c.maxIpsAutoBan && AfterMidnight(visits)
    ensures IsSet(VisitedBy(c, u, visits).disabledAt) <==> !HasRoomFor(Room(c, u), |Addresses(visits)|)
    ensures HasRoomFor(Room(c, u), |Addresses(visits)|) ==> ListsAdmitted(c, u, visits, VisitedBy(c, u, visits))
  {
    if visits != [] {
      var front, last := visits[..|visits| - 1], visits[|visits| - 1];
      assert visits == front + [last] && last in visits;
      assert AfterMidnight(front);
      OneAddressTooManyBans(c, u, front);
      OneMoreVisit(c, u, front, last);
      AddressesGrow(front, last);
      var v := VisitedBy(c, u, front);
      if HasRoomFor(Room(c, u), |Addresses(visits)|) {
        NextVisit(c, u, front, v, last);
      } else if !IsSet(v.disabledAt) {
        VisitComesTo(c, v, last);
      } else {
        assert Authenticated(c, v, last.ip, last.at) == (Disabled, v);
      }
    }
  }

  // ----- Temporary users -----

  /** The user is not disabled, and its time was over before `now`. */
  ghost predicate HasRunOut(u: User, now: int) {
    && (u.disabledAt == None || u.disabledAt == Some(0))
    && u.expiresAt.Some? && u.expiresAt.value != 0 && u.expiresAt.value < now
  }

  /** The user was disabled so long ago that nothing is kept of it. */
  ghost predicate IsForgotten(c: Config, disabledAt: Option<int>, now: int) {
    disabledAt.Some? && disabledAt.value != 0 && disabledAt.value + c.purgeTimeout < now
  }

  /** `v` is `u` disabled for having run out; it may be renewed if captchas are in use. */
  ghost predicate IsEnded(c: Config, u: User, now: int, v: User) {
    && v.disabledAt == Some(now) && v.disabledReason == Some("Temporary token expired.")
    && v.meta.Some? && "refreshable" in v.meta.value && v.meta.value["refreshable"] == (if c.captcha then "true" else "false")
    && v.(disabledAt := u.disabledAt, disabledReason := u.disabledReason, meta := u.meta) == u
  }

  /**
   * A cleanup leaves alone whoever is not temporary. A temporary user whose time is over is disabled, and purged at
   * once if the purge timeout is negative; one disabled for longer than that is purged; any other is left alone.
   */
  lemma {:induction false} CleanupEndsTemporaryUsers(c: Config, u: User, now: int)
    requires now > 0
    ensures u.kind != Temporary ==> CleanedUp(c, u, now) == Some(u) && !CleanupTouches(c, u, now)
    ensures u.kind == Temporary && HasRunOut(u, now) ==>
              && CleanupTouches(c, u, now) && (CleanedUp(c, u, now) == None <==> c.purgeTimeout < 0)
              && (c.purgeTimeout >= 0 ==> IsEnded(c, u, now, CleanedUp(c, u, now).value))
    ensures u.kind == Temporary && IsForgotten(c, u.disabledAt, now) ==>
              CleanedUp(c, u, now) == None && CleanupTouches(c, u, now)
    ensures u.kind == Temporary && !HasRunOut(u, now) && !IsForgotten(c, u.disabledAt, now) ==>
              CleanedUp(c, u, now) == Some(u) && !CleanupTouches(c, u, now)
  {
  }

  /**
   * A temporary user that nobody but the cleanup touches is disabled by the first cleanup after its time is over,
   * and purged by any that comes more than the purge timeout after that one.
   */
  lemma {:induction false} TemporaryUserEnds(c: Config, u: User, first: int, later: int)
    requires u.kind == Temporary && HasRunOut(u, first) && 0 < first <= later && c.purgeTimeout >= 0
    ensures CleanedUp(c, u, first).Some?
    ensures CleanedUp(c, CleanedUp(c, u, first).value, later) == None <==> first + c.purgeTimeout < later
    ensures later <= first + c.purgeTimeout ==> CleanedUp(c, CleanedUp(c, u, first).value, later) == CleanedUp(c, u, first)
  {
  }
}
