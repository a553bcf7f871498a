/** What the limiter guarantees over whole runs of requests, refunds and prunes. */
module RateLimitRuns {
  import opened RateLimit

  datatype Action = Request(key: string, kind: Kind) | Refund(key: string) | Prune

  datatype Event = Event(at: Time, action: Action)

  /** The limiter's map, and for each key the attempts let through and not refunded since. */
  datatype State = State(stored: map<string, seq<Time>>, admitted: map<string, seq<Time>>)

  function Step(limits: Limits, s: State, e: Event): State {
    match e.action
    case Request(key, kind) =>
      State(
        if Skipped(limits, false) then s.stored else Recorded(s.stored, key, Limit(limits, kind), e.at),
        if Passes(limits, false, Attempts(s.stored, key), kind, e.at) then s.admitted[key := Attempts(s.admitted, key) + [e.at]]
        else s.admitted)
    case Refund(key) =>
      var attempts := Attempts(s.admitted, key);
      State(
        Refunded(s.stored, key),
        if Attempts(s.stored, key) == [] || attempts == [] then s.admitted else s.admitted[key := attempts[..|attempts| - 1]])
    case Prune => s.(stored := Pruned(s.stored, e.at))
  }

  function Run(limits: Limits, events: seq<Event>): State {
    if events == [] then State(map[], map[])
    else Step(limits, Run(limits, events[..|events| - 1]), events[|events| - 1])
  }

  ghost predicate Monotone(events: seq<Event>) {
    forall i :: 0 < i < |events| ==> events[i - 1].at <= events[i].at
  }

  // ----- Counting attempts in a minute -----

  function CountIn(attempts: seq<Time>, start: Time): (n: nat)
    ensures n <= |attempts|
  {
    if attempts == [] then 0
    else CountIn(attempts[..|attempts| - 1], start)
         + if start <= attempts[|attempts| - 1] < start + ONE_MINUTE_MS then 1 else 0
  }

  ghost predicate Sorted(attempts: seq<Time>) {
    forall i, j :: 0 <= i < j < |attempts| ==> attempts[i] <= attempts[j]
  }

  /** Attempts that are `limit` apart in the list are a minute apart in time. */
  ghost predicate Spaced(attempts: seq<Time>, limit: nat) {
    forall i, j :: 0 <= i && j == i + limit < |attempts| ==> attempts[j] - attempts[i] >= ONE_MINUTE_MS
  }

  lemma {:induction false} CountFrom(attempts: seq<Time>, start: Time, k: nat)
    requires k <= |attempts|
    requires forall i :: 0 <= i < k ==> attempts[i] < start
    ensures CountIn(attempts, start) <= |attempts| - k
    decreases |attempts|
  {
    if k < |attempts| {
      CountFrom(attempts[..|attempts| - 1], start, k);
    } else if attempts != [] {
      CountFrom(attempts[..|attempts| - 1], start, k - 1);
    }
  }

  lemma {:induction false} CountIsBounded(attempts: seq<Time>, limit: nat, start: Time)
    requires Sorted(attempts) && Spaced(attempts, limit) && limit > 0
    ensures CountIn(attempts, start) <= limit
  {
    var n := |attempts|;
    if n > limit {
      if attempts[n - 1] >= start + ONE_MINUTE_MS {
        CountIsBounded(attempts[..n - 1], limit, start);
      } else {
        assert attempts[n - 1] - attempts[n - 1 - limit] >= ONE_MINUTE_MS;
        CountFrom(attempts, start, n - limit);
      }
    }
  }

  lemma {:induction false} AllCounted(attempts: seq<Time>, start: Time)
    requires forall i :: 0 <= i < |attempts| ==> start <= attempts[i] < start + ONE_MINUTE_MS
    ensures CountIn(attempts, start) == |attempts|
  {
    if attempts == [] {
    } else {
      AllCounted(attempts[..|attempts| - 1], start);
    }
  }

  lemma {:induction false} CountOfSum(a: seq<Time>, b: seq<Time>, start: Time)
    ensures CountIn(a + b, start) == CountIn(a, start) + CountIn(b, start)
    decreases |b|
  {
    if b == [] {
      assert a + b == a;
    } else {
      CountOfSum(a, b[..|b| - 1], start);
      assert (a + b)[..|a + b| - 1] == a + b[..|b| - 1];
    }
  }

  // ----- The invariant of one key -----

  lemma {:induction false} RecentIsSuffix(attempts: seq<Time>, now: Time)
    requires Sorted(attempts)
    ensures Recent(attempts, now) == attempts[|attempts| - |Recent(attempts, now)|..]
    ensures forall i :: 0 <= i < |attempts| - |Recent(attempts, now)| ==> !IsRecent(now, attempts[i])
    decreases |attempts|
  {
    if attempts == [] {
    } else {
      if IsRecent(now, attempts[0]) {
        AllRecent(attempts, now);
      } else {
        RecentIsSuffix(attempts[1..], now);
        RecentBehindTheFirst(attempts, now);
        SuffixOfTail(attempts, |Recent(attempts, now)|);
      }
    }
  }

  lemma {:induction false} RecentBehindTheFirst(attempts: seq<Time>, now: Time)
    requires attempts != [] && !IsRecent(now, attempts[0])
    ensures Recent(attempts, now) == Recent(attempts[1..], now)
  {
  }

  lemma {:induction false} SuffixOfTail(attempts: seq<Time>, n: nat)
    requires n < |attempts|
    ensures attempts[1..][|attempts| - 1 - n..] == attempts[|attempts| - n..]
  {
  }

  lemma {:induction false} AllRecent(attempts: seq<Time>, now: Time)
    requires forall i :: 0 <= i < |attempts| ==> IsRecent(now, attempts[i])
    ensures Recent(attempts, now) == attempts
    decreases |attempts|
  {
    if attempts == [] {
    } else {
      AllRecent(attempts[1..], now);
    }
  }

  /** What is stored is the end of what was admitted; what is missing is over a minute old. */
  ghost predicate KeyInv(stored: seq<Time>, admitted: seq<Time>, limit: nat, now: Time) {
    && Sorted(admitted) && Spaced(admitted, limit) && (admitted != [] ==> admitted[|admitted| - 1] <= now)
    && |stored| <= |admitted| && stored == admitted[|admitted| - |stored|..]
    && forall i :: 0 <= i < |admitted| - |stored| ==> !IsRecent(now, admitted[i])
  }

  lemma {:induction false} KeyInvLater(stored: seq<Time>, admitted: seq<Time>, limit: nat, now: Time, later: Time)
    requires KeyInv(stored, admitted, limit, now) && now <= later
    ensures KeyInv(stored, admitted, limit, later)
    ensures KeyInv(Recent(stored, later), admitted, limit, later)
  {
    var gone := |admitted| - |stored|;
    forall i, j | 0 <= i < j < |stored| ensures stored[i] <= stored[j] {
      assert admitted[gone + i] <= admitted[gone + j];
    }
    RecentIsSuffix(stored, later);
    var valid := Recent(stored, later);
    forall i | 0 <= i < |admitted| - |valid| ensures !IsRecent(later, admitted[i]) {
      if i >= gone {
        assert admitted[i] == stored[i - gone];
      }
    }
  }

  lemma {:induction false} AppendingKeepsSpacing(admitted: seq<Time>, limit: nat, now: Time)
    requires Sorted(admitted) && Spaced(admitted, limit) && (admitted != [] ==> admitted[|admitted| - 1] <= now)
    requires limit > 0 && (limit <= |admitted| ==> !IsRecent(now, admitted[|admitted| - limit]))
    ensures Sorted(admitted + [now]) && Spaced(admitted + [now], limit)
  {
  }

  lemma {:induction false} AdmittingKeepsInv(stored: seq<Time>, admitted: seq<Time>, limit: nat, now: Time)
    requires KeyInv(stored, admitted, limit, now) && |Recent(stored, now)| < limit
    ensures KeyInv(Recent(stored, now) + [now], admitted + [now], limit, now)
  {
    KeyInvLater(stored, admitted, limit, now, now);
    AppendingKeepsSpacing(admitted, limit, now);
    var valid, next := Recent(stored, now), admitted + [now];
    assert next[|next| - |valid + [now]|..] == valid + [now];
  }

  lemma {:induction false} RefundingKeepsInv(stored: seq<Time>, admitted: seq<Time>, limit: nat, now: Time)
    requires KeyInv(stored, admitted, limit, now) && stored != []
    ensures KeyInv(stored[..|stored| - 1], admitted[..|admitted| - 1], limit, now)
  {
  }

  // ----- Runs -----

  /** Every request is under a limit that is positive and at most `limit`. */
  ghost predicate LimitedBy(limits: Limits, events: seq<Event>, limit: nat) {
    forall i :: 0 <= i < |events| && events[i].action.Request? ==> 0 < Limit(limits, events[i].action.kind) <= limit
  }

  ghost predicate NoneAfter(events: seq<Event>, now: Time) {
    forall i :: 0 <= i < |events| ==> events[i].at <= now
  }

  /** What one event does to the attempts of one key. */
  ghost function StoredAfter(limits: Limits, stored: seq<Time>, e: Event, key: string): seq<Time> {
    match e.action
    case Request(k, kind) =>
      if k == key && !Skipped(limits, false) && Decision(stored, Limit(limits, kind), e.at) == Admitted
      then Recent(stored, e.at) + [e.at] else stored
    case Refund(k) => if k == key && stored != [] then stored[..|stored| - 1] else stored
    case Prune => Recent(stored, e.at)
  }

  ghost function AdmittedAfter(limits: Limits, stored: seq<Time>, admitted: seq<Time>, e: Event, key: string): seq<Time> {
    match e.action
    case Request(k, kind) => if k == key && Passes(limits, false, stored, kind, e.at) then admitted + [e.at] else admitted
    case Refund(k) => if k == key && stored != [] && admitted != [] then admitted[..|admitted| - 1] else admitted
    case Prune => admitted
  }

  lemma {:induction false} StepOfOneKey(limits: Limits, s: State, e: Event, key: string)
    ensures Attempts(Step(limits, s, e).stored, key) == StoredAfter(limits, Attempts(s.stored, key), e, key)
    ensures Attempts(Step(limits, s, e).admitted, key) ==
              AdmittedAfter(limits, Attempts(s.stored, key), Attempts(s.admitted, key), e, key)
  {
  }

  lemma {:induction false} RequestKeepsKeyInv(limits: Limits, stored: seq<Time>, admitted: seq<Time>, e: Event, limit: nat, key: string)
    requires KeyInv(stored, admitted, limit, e.at)
    requires e.action.Request? && 0 < Limit(limits, e.action.kind) <= limit
    ensures KeyInv(StoredAfter(limits, stored, e, key), AdmittedAfter(limits, stored, admitted, e, key), limit, e.at)
  {
    if e.action.key == key && |Recent(stored, e.at)| < Limit(limits, e.action.kind) {
      AdmittingKeepsInv(stored, admitted, limit, e.at);
      RequestIsAdmitted(limits, stored, admitted, e, key);
    } else {
      RequestIsRefused(limits, stored, admitted, e, key);
    }
  }

  lemma {:induction false} RequestIsAdmitted(limits: Limits, stored: seq<Time>, admitted: seq<Time>, e: Event, key: string)
    requires e.action.Request? && e.action.key == key && |Recent(stored, e.at)| < Limit(limits, e.action.kind)
    ensures StoredAfter(limits, stored, e, key) == Recent(stored, e.at) + [e.at]
    ensures AdmittedAfter(limits, stored, admitted, e, key) == admitted + [e.at]
  {
  }

  lemma {:induction false} RequestIsRefused(limits: Limits, stored: seq<Time>, admitted: seq<Time>, e: Event, key: string)
    requires e.action.Request? && 0 < Limit(limits, e.action.kind)
    requires e.action.key != key || |Recent(stored, e.at)| >= Limit(limits, e.action.kind)
    ensures StoredAfter(limits, stored, e, key) == stored
    ensures AdmittedAfter(limits, stored, admitted, e, key) == admitted
  {
  }

  lemma {:induction false} EventKeepsKeyInv(limits: Limits, stored: seq<Time>, admitted: seq<Time>, e: Event, limit: nat, key: string)
    requires KeyInv(stored, admitted, limit, e.at)
    requires e.action.Request? ==> 0 < Limit(limits, e.action.kind) <= limit
    ensures KeyInv(StoredAfter(limits, stored, e, key), AdmittedAfter(limits, stored, admitted, e, key), limit, e.at)
  {
    if e.action.Request? {
      RequestKeepsKeyInv(limits, stored, admitted, e, limit, key);
    } else if e.action.Prune? {
      KeyInvLater(stored, admitted, limit, e.at, e.at);
    } else if e.action.key == key && stored != [] {
      RefundingKeepsInv(stored, admitted, limit, e.at);
    }
  }

  lemma {:induction false} KeyInvHoldsInEveryRun(limits: Limits, events: seq<Event>, limit: nat, key: string, now: Time)
    requires Monotone(events) && LimitedBy(limits, events, limit) && NoneAfter(events, now)
    ensures var s := Run(limits, events); KeyInv(Attempts(s.stored, key), Attempts(s.admitted, key), limit, now)
    decreases |events|
  {
    if events == [] {
    } else {
      var init, e := events[..|events| - 1], events[|events| - 1];
      assert NoneAfter(init, e.at) by {
        LastIsLatest(events);
      }
      KeyInvHoldsInEveryRun(limits, init, limit, key, e.at);
      var before, s := Run(limits, init), Run(limits, events);
      EventKeepsKeyInv(limits, Attempts(before.stored, key), Attempts(before.admitted, key), e, limit, key);
      StepOfOneKey(limits, before, e, key);
      KeyInvLater(Attempts(s.stored, key), Attempts(s.admitted, key), limit, e.at, now);
    }
  }

  lemma {:induction false} LastIsLatest(events: seq<Event>)
    requires Monotone(events) && events != []
    ensures NoneAfter(events, events[|events| - 1].at)
    decreases |events|
  {
    if |events| == 1 {
    } else {
      LastIsLatest(events[..|events| - 1]);
      assert events[|events| - 2].at <= events[|events| - 1].at;
    }
  }

  function Larger(limits: Limits): nat {
    if limits.text >= limits.image then limits.text else limits.image
  }

  /** In every run, no minute holds more unrefunded attempts of a key than the larger limit. */
  ghost predicate WindowsAreBounded(limits: Limits) {
    forall events: seq<Event>, key: string, start: Time ::
      Monotone(events) ==> CountIn(Attempts(Run(limits, events).admitted, key), start) <= Larger(limits)
  }

  lemma {:induction false} WindowIsBounded(limits: Limits, events: seq<Event>, key: string, start: Time)
    requires limits.text > 0 && limits.image > 0 && Monotone(events)
    ensures CountIn(Attempts(Run(limits, events).admitted, key), start) <= Larger(limits)
  {
    if events != [] {
      LastIsLatest(events);
      KeyInvHoldsInEveryRun(limits, events, Larger(limits), key, events[|events| - 1].at);
      CountIsBounded(Attempts(Run(limits, events).admitted, key), Larger(limits), start);
    }
  }

  function Repeated(kind: Kind, n: nat): (events: seq<Event>)
    ensures |events| == n
  {
    seq(n, _ => Event(0, Request("key", kind)))
  }

  lemma {:induction false} ZeroLimitAdmitsEverything(limits: Limits, kind: Kind, n: nat)
    requires Limit(limits, kind) == 0
    ensures Run(limits, Repeated(kind, n)).stored == map[]
    ensures CountIn(Attempts(Run(limits, Repeated(kind, n)).admitted, "key"), 0) == n
    decreases n
  {
    if n == 0 {
    } else {
      var events := Repeated(kind, n);
      assert events[..n - 1] == Repeated(kind, n - 1);
      ZeroLimitAdmitsEverything(limits, kind, n - 1);
      var before := Attempts(Run(limits, events[..n - 1]).admitted, "key");
      CountOfSum(before, [0], 0);
      AllCounted([0], 0);
    }
  }

  /** A limit of zero turns into no limit at all for requests of its kind. */
  lemma {:induction false} WindowsAreBoundedExactlyWhen(limits: Limits)
    ensures WindowsAreBounded(limits) <==> limits.text > 0 && limits.image > 0
  {
    if limits.text > 0 && limits.image > 0 {
      forall events: seq<Event>, key: string, start: Time | Monotone(events)
        ensures CountIn(Attempts(Run(limits, events).admitted, key), start) <= Larger(limits)
      {
        WindowIsBounded(limits, events, key, start);
      }
    } else {
      var kind := if limits.text == 0 then TextRequest else ImageRequest;
      var events := Repeated(kind, Larger(limits) + 1);
      ZeroLimitAdmitsEverything(limits, kind, Larger(limits) + 1);
      assert Monotone(events);
      assert CountIn(Attempts(Run(limits, events).admitted, "key"), 0) > Larger(limits);
    }
  }

  // ----- The reported wait -----

  lemma {:induction false} RecentOfRecent(attempts: seq<Time>, earlier: Time, now: Time)
    requires earlier <= now
    ensures Recent(Recent(attempts, earlier), now) == Recent(attempts, now)
  {
    if attempts == [] {
    } else {
      RecentOfRecent(attempts[1..], earlier, now);
      if IsRecent(earlier, attempts[0]) {
        assert Recent(attempts, earlier)[1..] == Recent(attempts[1..], earlier);
      } else {
        assert Recent(attempts, earlier) == Recent(attempts[1..], earlier);
        assert Recent(attempts, now) == Recent(attempts[1..], now);
      }
    }
  }

  lemma {:induction false} RunStep(limits: Limits, events: seq<Event>, e: Event)
    ensures Run(limits, events + [e]) == Step(limits, Run(limits, events), e)
  {
    assert (events + [e])[..|events + [e]| - 1] == events;
  }

  lemma {:induction false} PruneIsInvisible(limits: Limits, s: State, e: Event, key: string, now: Time)
    requires e.action == Prune && e.at <= now
    ensures Recent(Attempts(Step(limits, s, e).stored, key), now) == Recent(Attempts(s.stored, key), now)
  {
    StepOfOneKey(limits, s, e, key);
    RecentOfRecent(Attempts(s.stored, key), e.at, now);
  }

  /** Prunes in between cannot be noticed. */
  lemma {:induction false} PrunesAreInvisible(limits: Limits, events: seq<Event>, prunes: seq<Event>, key: string, now: Time)
    requires forall i :: 0 <= i < |prunes| ==> prunes[i].action == Prune && prunes[i].at <= now
    ensures Recent(Attempts(Run(limits, events + prunes).stored, key), now) == Recent(Attempts(Run(limits, events).stored, key), now)
    decreases |prunes|
  {
    if prunes == [] {
      assert events + prunes == events;
    } else {
      var init, last := prunes[..|prunes| - 1], prunes[|prunes| - 1];
      PrunesAreInvisible(limits, events, init, key, now);
      LastOfThePrunes(events, prunes);
      LastPruneIsInvisible(limits, events + init, last, key, now);
    }
  }

  lemma {:induction false} LastOfThePrunes(events: seq<Event>, prunes: seq<Event>)
    requires prunes != []
    ensures (events + prunes[..|prunes| - 1]) + [prunes[|prunes| - 1]] == events + prunes
  {
  }

  lemma {:induction false} LastPruneIsInvisible(limits: Limits, events: seq<Event>, last: Event, key: string, now: Time)
    requires last.action == Prune && last.at <= now
    ensures Recent(Attempts(Run(limits, events + [last]).stored, key), now) == Recent(Attempts(Run(limits, events).stored, key), now)
  {
    RunStep(limits, events, last);
    PruneIsInvisible(limits, Run(limits, events), last, key, now);
  }

  lemma {:induction false} RefusedUntilTheFirstExpires(attempts: seq<Time>, limit: nat, now: Time, retry: Time)
    requires Sorted(attempts) && (attempts != [] ==> attempts[|attempts| - 1] <= now)
    requires Decision(attempts, limit, now).RetryAfter? && now <= retry < now + Decision(attempts, limit, now).ms
    ensures Decision(attempts, limit, retry).RetryAfter?
  {
    RecentOfRecent(attempts, now, retry);
    RecentIsSorted(attempts, now);
    AllRecentUntilTheFirstExpires(Recent(attempts, now), retry);
  }

  lemma {:induction false} AllRecentUntilTheFirstExpires(valid: seq<Time>, retry: Time)
    requires Sorted(valid) && valid != [] && IsRecent(retry, valid[0])
    ensures Recent(valid, retry) == valid
  {
    AllRecent(valid, retry);
  }

  lemma {:induction false} EnoughExpireExactlyWhen(valid: seq<Time>, limit: nat)
    requires Sorted(valid) && 0 < limit <= |valid|
    ensures |Recent(valid, valid[0] + ONE_MINUTE_MS)| < limit <==> valid[|valid| - limit] == valid[0]
  {
    var end := valid[0] + ONE_MINUTE_MS;
    RecentIsSuffix(valid, end);
    var left := Recent(valid, end);
    var first := |valid| - |left|;
    if |left| >= limit {
      assert left[|valid| - limit - first] == valid[|valid| - limit];
    } else {
      assert !IsRecent(end, valid[|valid| - limit]);
    }
  }

  lemma {:induction false} RecentIsSorted(attempts: seq<Time>, now: Time)
    requires Sorted(attempts)
    ensures Sorted(Recent(attempts, now))
  {
    RecentIsSuffix(attempts, now);
  }

  /**
   * A caller who comes back before the reported wait is over is refused again. One who comes
   * back on time is let in exactly when enough attempts expire at that very moment, that is,
   * when the attempt that must go is as old as the first one.
   */
  lemma {:induction false} WaitIsExactExactlyWhen(attempts: seq<Time>, limit: nat, now: Time)
    requires Sorted(attempts) && (attempts != [] ==> attempts[|attempts| - 1] <= now)
    requires limit > 0 && Decision(attempts, limit, now).RetryAfter?
    ensures var valid, ms := Recent(attempts, now), Decision(attempts, limit, now).ms;
            && (forall retry :: now <= retry < now + ms ==> Decision(attempts, limit, retry).RetryAfter?)
            && (Decision(attempts, limit, now + ms) == Admitted <==> valid[|valid| - limit] == valid[0])
  {
    var valid, ms := Recent(attempts, now), Decision(attempts, limit, now).ms;
    forall retry | now <= retry < now + ms ensures Decision(attempts, limit, retry).RetryAfter? {
      RefusedUntilTheFirstExpires(attempts, limit, now, retry);
    }
    RecentIsSorted(attempts, now);
    RecentOfRecent(attempts, now, now + ms);
    EnoughExpireExactlyWhen(valid, limit);
  }

  ghost predicate OnlyKind(events: seq<Event>, kind: Kind) {
    forall i :: 0 <= i < |events| && events[i].action.Request? ==> events[i].action.kind == kind
  }

  lemma {:induction false} StoredIsSorted(stored: seq<Time>, admitted: seq<Time>, limit: nat, now: Time)
    requires KeyInv(stored, admitted, limit, now)
    ensures Sorted(stored) && (stored != [] ==> stored[|stored| - 1] <= now)
  {
    var gone := |admitted| - |stored|;
    forall i, j | 0 <= i < j < |stored| ensures stored[i] <= stored[j] {
      assert admitted[gone + i] <= admitted[gone + j];
    }
  }

  lemma {:induction false} ValidAreWithinTheLimit(stored: seq<Time>, admitted: seq<Time>, limit: nat, now: Time)
    requires KeyInv(stored, admitted, limit, now) && limit > 0
    ensures |Recent(stored, now)| <= limit
  {
    KeyInvLater(stored, admitted, limit, now, now);
    var valid := Recent(stored, now);
    StoredIsSorted(valid, admitted, limit, now);
    if |valid| > limit {
      MoreThanTheLimitIsAMinuteLong(admitted, valid, limit);
    }
  }

  lemma {:induction false} MoreThanTheLimitIsAMinuteLong(admitted: seq<Time>, valid: seq<Time>, limit: nat)
    requires Sorted(admitted) && Spaced(admitted, limit)
    requires limit < |valid| <= |admitted| && valid == admitted[|admitted| - |valid|..]
    ensures valid[|valid| - 1] - valid[0] >= ONE_MINUTE_MS
  {
    var gone := |admitted| - |valid|;
    assert admitted[gone + limit] - admitted[gone] >= ONE_MINUTE_MS;
  }

  /** With requests of one kind only, no more attempts are ever valid than the limit allows. */
  lemma {:induction false} OneKindStaysWithinTheLimit(limits: Limits, kind: Kind, events: seq<Event>, key: string, now: Time)
    requires Limit(limits, kind) > 0 && Monotone(events) && OnlyKind(events, kind) && NoneAfter(events, now)
    ensures var attempts := Attempts(Run(limits, events).stored, key);
            && Sorted(attempts) && (attempts != [] ==> attempts[|attempts| - 1] <= now)
            && |Recent(attempts, now)| <= Limit(limits, kind)
  {
    var limit, s := Limit(limits, kind), Run(limits, events);
    KeyInvHoldsInEveryRun(limits, events, limit, key, now);
    StoredIsSorted(Attempts(s.stored, key), Attempts(s.admitted, key), limit, now);
    ValidAreWithinTheLimit(Attempts(s.stored, key), Attempts(s.admitted, key), limit, now);
  }

  /** The wait reported on `attempts` at `now`: retries on `later` are refused before it is over and let in when it is. */
  ghost predicate WaitIsExact(attempts: seq<Time>, later: seq<Time>, limit: nat, now: Time, retry: Time)
    requires Decision(attempts, limit, now).RetryAfter?
  {
    var ms := Decision(attempts, limit, now).ms;
    && (now <= retry < now + ms ==> Decision(later, limit, retry).RetryAfter?)
    && (retry == now + ms ==> Decision(later, limit, retry) == Admitted)
  }

  lemma {:induction false} SameRecentSameDecision(a: seq<Time>, b: seq<Time>, limit: nat, now: Time)
    requires Recent(a, now) == Recent(b, now)
    ensures Decision(a, limit, now) == Decision(b, limit, now)
  {
  }

  lemma {:induction false} RefusedWithAFullList(attempts: seq<Time>, limit: nat, now: Time)
    requires 0 < limit && |Recent(attempts, now)| <= limit && Decision(attempts, limit, now).RetryAfter?
    ensures |Recent(attempts, now)| == limit
  {
  }

  lemma {:induction false} AdmittedWhenTheWaitIsOver(attempts: seq<Time>, limit: nat, now: Time, ms: Time)
    requires Sorted(attempts) && (attempts != [] ==> attempts[|attempts| - 1] <= now)
    requires 0 < limit && |Recent(attempts, now)| <= limit
    requires Decision(attempts, limit, now) == RetryAfter(ms)
    ensures Decision(attempts, limit, now + ms) == Admitted
  {
    RefusedWithAFullList(attempts, limit, now);
    WaitIsExactExactlyWhen(attempts, limit, now);
  }

  lemma {:induction false} FullLimitWaitIsExact(attempts: seq<Time>, later: seq<Time>, limit: nat, now: Time, retry: Time)
    requires Sorted(attempts) && (attempts != [] ==> attempts[|attempts| - 1] <= now)
    requires 0 < limit && |Recent(attempts, now)| <= limit && Decision(attempts, limit, now).RetryAfter?
    requires Recent(later, retry) == Recent(attempts, retry)
    ensures WaitIsExact(attempts, later, limit, now, retry)
  {
    var ms := Decision(attempts, limit, now).ms;
    SameRecentSameDecision(attempts, later, limit, retry);
    if now <= retry < now + ms {
      RefusedUntilTheFirstExpires(attempts, limit, now, retry);
    }
    if retry == now + ms {
      AdmittedWhenTheWaitIsOver(attempts, limit, now, ms);
    }
  }

  /**
   * With requests of one kind only, the reported wait is exact: whatever prunes come
   * between, retries before it is over are refused and one at that moment is let in.
   */
  lemma {:induction false} OneKindWaitIsExact(
    limits: Limits, kind: Kind, events: seq<Event>, prunes: seq<Event>, key: string, now: Time, retry: Time,
    attempts: seq<Time>, later: seq<Time>)
    requires Limit(limits, kind) > 0 && Monotone(events) && OnlyKind(events, kind) && NoneAfter(events, now)
    requires forall i :: 0 <= i < |prunes| ==> prunes[i].action == Prune && prunes[i].at <= retry
    requires attempts == Attempts(Run(limits, events).stored, key) && later == Attempts(Run(limits, events + prunes).stored, key)
    requires Decision(attempts, Limit(limits, kind), now).RetryAfter?
    ensures WaitIsExact(attempts, later, Limit(limits, kind), now, retry)
  {
    OneKindStaysWithinTheLimit(limits, kind, events, key, now);
    PrunesAreInvisible(limits, events, prunes, key, retry);
    FullLimitWaitIsExact(attempts, later, Limit(limits, kind), now, retry);
  }

  lemma {:induction false} TwoTextAttemptsAreStored(limits: Limits, e0: Event, e1: Event)
    requires limits == Limits(2, 1) && e0 == Event(0, Request("key", TextRequest)) && e1 == Event(1, Request("key", TextRequest))
    ensures Attempts(Run(limits, [e0, e1]).stored, "key") == [0, 1]
  {
    assert [e0, e1][..1] == [e0] && [e0][..0] == [];
    assert Run(limits, [e0]) == Step(limits, Run(limits, []), e0);
    assert Recent([], 0) == [] && Attempts(Run(limits, [e0]).stored, "key") == [0];
    AllRecent([0], 1);
  }

  lemma {:induction false} SecondOfTwoStillCounts()
    ensures Decision([0, 1], 1, 2) == RetryAfter(59998) && Decision([0, 1], 1, 60000).RetryAfter?
  {
    AllRecent([0, 1], 2);
    assert [0, 1][1..] == [1];
    AllRecent([1], 60000);
    assert Recent([0, 1], 60000) == [1];
  }

  /** With two kinds the wait can be too short: the second text attempt still counts against the image. */
  lemma {:induction false} TwoKindsWaitCanBeTooShort()
    ensures var limits := Limits(2, 1);
            var events := [Event(0, Request("key", TextRequest)), Event(1, Request("key", TextRequest))];
            var stored := Attempts(Run(limits, events).stored, "key");
            && Decision(stored, 1, 2) == RetryAfter(59998)
            && Decision(stored, 1, 60000).RetryAfter?
  {
    TwoTextAttemptsAreStored(Limits(2, 1), Event(0, Request("key", TextRequest)), Event(1, Request("key", TextRequest)));
    SecondOfTwoStillCounts();
  }

  // ----- The decision, spelled out -----

  /** How many attempts are less than a minute old. */
  ghost function Young(attempts: seq<Time>, now: Time): nat {
    if attempts == [] then 0 else (if now - attempts[0] < 60000 then 1 else 0) + Young(attempts[1..], now)
  }

  /** Attempt `i` is the first in the list that is less than a minute old. */
  ghost predicate FirstYoung(attempts: seq<Time>, i: int, now: Time) {
    0 <= i < |attempts| && now - attempts[i] < 60000 && forall j :: 0 <= j < i ==> now - attempts[j] >= 60000
  }

  lemma {:induction false} RecentAreTheYoung(attempts: seq<Time>, now: Time)
    ensures |Recent(attempts, now)| == Young(attempts, now)
    ensures Young(attempts, now) > 0 ==> exists i :: FirstYoung(attempts, i, now) && Recent(attempts, now)[0] == attempts[i]
  {
    if attempts == [] {
    } else {
      RecentAreTheYoung(attempts[1..], now);
      if IsRecent(now, attempts[0]) {
        assert FirstYoung(attempts, 0, now);
      } else if Young(attempts, now) > 0 {
        RecentBehindTheFirst(attempts, now);
        var i :| FirstYoung(attempts[1..], i, now) && Recent(attempts[1..], now)[0] == attempts[1..][i];
        assert FirstYoung(attempts, i + 1, now);
      }
    }
  }

  /**
   * A request passes exactly when its user is special, nothing is limited, no attempt is less than a minute old, or
   * fewer are than the limit of its kind. One that does not may come back when the first of those is a minute old.
   */
  lemma {:induction false} PassesExactlyWhen(limits: Limits, special: bool, attempts: seq<Time>, kind: Kind, now: Time)
    ensures Passes(limits, special, attempts, kind, now) <==>
              || special || (limits.text == 0 && limits.image == 0)
              || Young(attempts, now) == 0
              || Young(attempts, now) < (match kind case TextRequest => limits.text case ImageRequest => limits.image)
    ensures !Passes(limits, special, attempts, kind, now) ==>
              exists i :: FirstYoung(attempts, i, now) && now + Decision(attempts, Limit(limits, kind), now).ms == attempts[i] + 60000
  {
    RecentAreTheYoung(attempts, now);
  }

  lemma {:induction false} NoneYoungInFront(stored: seq<Time>, admitted: seq<Time>, now: Time)
    requires |stored| <= |admitted| && stored == admitted[|admitted| - |stored|..]
    requires forall i :: 0 <= i < |admitted| - |stored| ==> !IsRecent(now, admitted[i])
    ensures Young(stored, now) == Young(admitted, now)
    decreases |admitted|
  {
    if |stored| < |admitted| {
      assert stored == admitted[1..][|admitted| - 1 - |stored|..];
      NoneYoungInFront(stored, admitted[1..], now);
    } else {
      assert stored == admitted;
    }
  }

  /** In every run a request passes exactly when fewer unrefunded attempts let through in the last minute than it may make. */
  lemma {:induction false} PassesInRunExactlyWhen(limits: Limits, events: seq<Event>, kind: Kind, key: string, now: Time)
    requires limits.text > 0 && limits.image > 0 && Monotone(events) && NoneAfter(events, now)
    ensures var s := Run(limits, events);
            Passes(limits, false, Attempts(s.stored, key), kind, now) <==>
              Young(Attempts(s.admitted, key), now) < (match kind case TextRequest => limits.text case ImageRequest => limits.image)
  {
    var s := Run(limits, events);
    KeyInvHoldsInEveryRun(limits, events, Larger(limits), key, now);
    NoneYoungInFront(Attempts(s.stored, key), Attempts(s.admitted, key), now);
    PassesExactlyWhen(limits, false, Attempts(s.stored, key), kind, now);
  }
}
