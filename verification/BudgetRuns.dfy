/**
 * How many requests a key of a custom provider may be given in a minute. The code counts in fixed windows, so
 * two spent windows can come close together; in any sixty seconds that makes at most one less than twice the
 * budget, and no less can be promised.
 */
module BudgetRuns {
  import opened CustomKeys
  import opened RequestQueue
  import opened QueueRuns

  ghost predicate DrawsKey(pool: Pool, roll: nat, h: KeyHash) {
    (exists k :: k in pool.keys && !k.isDisabled) && roll < |pool.keys| && pool.keys[roll].hash == h
  }

  /** The event gives key `h` to a request of the queue or to the model listing. */
  ghost predicate Draws(c: Config, s: State, e: Event, h: KeyHash) {
    match e
    case Dispatch(family, roll) => family == c.providerFamily && WellFormed(s) && Waiting(s, family) != [] && DrawsKey(s.pool, roll, h)
    case List(roll) => DrawsKey(s.pool, roll, h)
    case _ => false
  }

  /** How often `h` is drawn from event `i` up to event `j`. */
  ghost function Drawn(c: Config, ss: seq<State>, es: seq<Event>, h: KeyHash, i: nat, j: nat): nat
    requires |ss| == |es| + 1 && i <= j <= |es|
    decreases j
  {
    if i == j then 0 else Drawn(c, ss, es, h, i, j - 1) + if Draws(c, ss[j - 1], es[j - 1], h) then 1 else 0
  }

  // ----- What one step does to the window of a key -----

  ghost predicate SameWindow(a: Pool, b: Pool, h: KeyHash) {
    (h in a.windows <==> h in b.windows) && (h in a.windows && h in b.windows ==> a.windows[h] == b.windows[h])
  }

  /** One more request is counted in the window of `h`. */
  ghost predicate CountsOneMore(a: Pool, b: Pool, h: KeyHash, now: int) {
    && h in b.windows
    && b.windows[h] == if h !in a.windows || now - a.windows[h].startedAt >= RATE_LIMIT_WINDOW then Window(now, 1)
                       else Window(a.windows[h].startedAt, a.windows[h].count + 1)
  }

  /** From `a` to `b`, the window of `h` counts the request if there is one. */
  ghost predicate Counts(a: Pool, b: Pool, h: KeyHash, now: int, drawn: bool) {
    if drawn then CountsOneMore(a, b, h, now) else SameWindow(a, b, h)
  }

  lemma {:induction false} GotCounts(caps: Caps, pool: Pool, roll: nat, now: int, h: KeyHash)
    requires roll < |pool.keys| && caps.rateLimit > 0
    ensures Counts(pool, Got(caps, pool, roll, now), h, now, pool.keys[roll].hash == h)
  {
  }

  lemma {:induction false} ProceedingCounts(c: Config, s: State, id: RequestId, roll: nat, h: KeyHash)
    requires id in s.requests && RollFits(s, roll) && c.caps.rateLimit > 0
    ensures Counts(s.pool, Proceeded(c, s, id, roll).pool, h, s.now,
                   s.requests[id].family == c.providerFamily && DrawsKey(s.pool, roll, h))
  {
    if exists k :: k in s.pool.keys && !k.isDisabled {
      GotCounts(c.caps, s.pool, roll, s.now, h);
    }
  }

  lemma {:induction false} DispatchCounts(c: Config, s: State, family: string, roll: nat, h: KeyHash)
    requires Inv(c, s) && Enabled(c, s, Dispatch(family, roll)) && c.caps.rateLimit > 0
    ensures Counts(s.pool, Dispatched(c, s, family, roll).pool, h, s.now, Draws(c, s, Dispatch(family, roll), h))
  {
    if Waiting(s, family) != [] {
      PickIsTheLastMinimum(c, s, family);
      if family == c.providerFamily {
        ProceedingCounts(c, Dequeued(s, Pick(c, s, family)), Pick(c, s, family), roll, h);
      }
    }
  }

  lemma {:induction false} StepCounts(c: Config, s: State, e: Event, h: KeyHash)
    requires Inv(c, s) && Enabled(c, s, e) && c.caps.rateLimit > 0
    ensures Counts(s.pool, Step(c, s, e).pool, h, s.now, Draws(c, s, e, h))
  {
    if e.Dispatch? {
      DispatchCounts(c, s, e.family, e.roll, h);
    } else if e.List? {
      if exists k :: k in s.pool.keys && !k.isDisabled {
        GotCounts(c.caps, s.pool, e.roll, s.now, h);
      }
    } else if e.Clean? {
      KilledAllKeepsPool(s, Stale(s), e.unsendable);
    }
  }

  lemma {:induction false} EventCounts(c: Config, ss: seq<State>, es: seq<Event>, i: nat, h: KeyHash)
    requires Run(c, ss, es) && i < |es| && c.caps.rateLimit > 0
    ensures Counts(ss[i].pool, ss[i + 1].pool, h, ss[i].now, Draws(c, ss[i], es[i], h))
  {
    InvHoldsInEveryRun(c, ss, es, i);
    assert Next(c, ss[i], es[i], ss[i + 1]);
    StepCounts(c, ss[i], es[i], h);
  }

  // ----- The bound -----

  ghost predicate CountPositive(pool: Pool, h: KeyHash) {
    h in pool.windows ==> pool.windows[h].count >= 1
  }

  lemma {:induction false} CountStaysPositive(a: Pool, b: Pool, h: KeyHash, now: int, drawn: bool)
    requires CountPositive(a, h) && Counts(a, b, h, now, drawn)
    ensures CountPositive(b, h)
  {
  }

  /**
   * Of `n` requests drawn since `start`, the current window counts all if it began before, and then an earlier one
   * too; otherwise the ones it does not count were in the window before it, and were at most all but one of that.
   */
  ghost predicate Accounted(pool: Pool, h: KeyHash, limit: int, start: int, n: nat) {
    n > 0 ==>
      && h in pool.windows
      && n <= pool.windows[h].count - 1 + if pool.windows[h].startedAt < start then 0 else limit
  }

  lemma {:induction false} EventIsAccounted(caps: Caps, a: Pool, b: Pool, h: KeyHash, start: int, now: int, n: nat, drawn: bool)
    requires caps.rateLimit > 0 && start <= now < start + RATE_LIMIT_WINDOW
    requires CountPositive(a, h) && BudgetHeld(caps, a)
    requires Accounted(a, h, caps.rateLimit, start, n) && Counts(a, b, h, now, drawn)
    ensures Accounted(b, h, caps.rateLimit, start, n + if drawn then 1 else 0)
  {
  }

  /** What a run does to the windows of `h`, event by event. */
  datatype History = History(pools: seq<Pool>, times: seq<int>, drawn: seq<bool>)

  ghost predicate Fits(caps: Caps, r: History, h: KeyHash) {
    && |r.pools| == |r.times| == |r.drawn| + 1 && r.pools[0].windows == map[]
    && (forall m :: 0 <= m < |r.drawn| ==> Counts(r.pools[m], r.pools[m + 1], h, r.times[m], r.drawn[m]))
    && (forall m :: 0 <= m < |r.pools| ==> BudgetHeld(caps, r.pools[m]))
    && (forall m, n :: 0 <= m <= n < |r.times| ==> r.times[m] <= r.times[n])
  }

  function DrawnIn(drawn: seq<bool>, i: nat, j: nat): nat
    requires i <= j <= |drawn|
    decreases j
  {
    if i == j then 0 else DrawnIn(drawn, i, j - 1) + if drawn[j - 1] then 1 else 0
  }

  lemma {:induction false} CountIsPositive(caps: Caps, r: History, h: KeyHash, i: nat)
    requires Fits(caps, r, h) && i < |r.pools|
    ensures CountPositive(r.pools[i], h)
  {
    if i == 0 {
    } else {
      CountIsPositive(caps, r, h, i - 1);
      CountStaysPositive(r.pools[i - 1], r.pools[i - 1 + 1], h, r.times[i - 1], r.drawn[i - 1]);
    }
  }

  lemma {:induction false} DrawnAreAccounted(caps: Caps, r: History, h: KeyHash, i: nat, j: nat)
    requires caps.rateLimit > 0 && Fits(caps, r, h) && i <= j <= |r.drawn|
    requires i < j ==> r.times[j - 1] < r.times[i] + RATE_LIMIT_WINDOW
    ensures Accounted(r.pools[j], h, caps.rateLimit, r.times[i], DrawnIn(r.drawn, i, j))
    decreases j
  {
    if i == j {
    } else {
      var m := j - 1;
      DrawnAreAccounted(caps, r, h, i, m);
      CountIsPositive(caps, r, h, m);
      assert Counts(r.pools[m], r.pools[m + 1], h, r.times[m], r.drawn[m]) && BudgetHeld(caps, r.pools[m]);
      EventIsAccounted(caps, r.pools[m], r.pools[j], h, r.times[i], r.times[m], DrawnIn(r.drawn, i, m), r.drawn[m]);
    }
  }

  ghost function HistoryOf(c: Config, ss: seq<State>, es: seq<Event>, h: KeyHash): (r: History)
    requires |ss| == |es| + 1
    ensures |r.pools| == |r.times| == |ss| && |r.drawn| == |es|
    ensures forall m :: 0 <= m < |ss| ==> r.pools[m] == ss[m].pool && r.times[m] == ss[m].now
    ensures forall m :: 0 <= m < |es| ==> r.drawn[m] == Draws(c, ss[m], es[m], h)
  {
    History(seq(|ss|, m requires 0 <= m < |ss| => ss[m].pool), seq(|ss|, m requires 0 <= m < |ss| => ss[m].now),
            seq(|es|, m requires 0 <= m < |es| => Draws(c, ss[m], es[m], h)))
  }

  lemma {:induction false} HistoryFits(c: Config, ss: seq<State>, es: seq<Event>, h: KeyHash)
    requires Run(c, ss, es) && c.caps.rateLimit > 0 && forall n :: 0 <= n <= |es| ==> BudgetHeld(c.caps, ss[n].pool)
    ensures Fits(c.caps, HistoryOf(c, ss, es, h), h)
  {
    var r := HistoryOf(c, ss, es, h);
    forall m | 0 <= m < |es| ensures Counts(r.pools[m], r.pools[m + 1], h, r.times[m], r.drawn[m]) {
      EventCounts(c, ss, es, m, h);
    }
    forall m, n | 0 <= m <= n < |ss| ensures r.times[m] <= r.times[n] {
      ClockIsMonotone(c, ss, es, m, n);
    }
    assert forall m :: 0 <= m < |ss| ==> BudgetHeld(c.caps, r.pools[m]);
  }

  lemma {:induction false} DrawnOfHistory(c: Config, ss: seq<State>, es: seq<Event>, h: KeyHash, i: nat, j: nat)
    requires |ss| == |es| + 1 && i <= j <= |es|
    ensures Drawn(c, ss, es, h, i, j) == DrawnIn(HistoryOf(c, ss, es, h).drawn, i, j)
    decreases j
  {
    if i == j {
    } else {
      DrawnOfHistory(c, ss, es, h, i, j - 1);
    }
  }

  lemma {:induction false} AccountedIsBounded(caps: Caps, pool: Pool, h: KeyHash, start: int, n: nat)
    requires caps.rateLimit > 0 && BudgetHeld(caps, pool) && Accounted(pool, h, caps.rateLimit, start, n)
    ensures n <= 2 * caps.rateLimit - 1
  {
  }

  /**
   * In every run in which the model listing draws no spent key, so in every run of the queue alone, no sixty
   * seconds hold more than one less than twice the budget of requests with one key.
   */
  lemma {:induction false} AMinuteHoldsLessThanTwiceTheBudget(c: Config, ss: seq<State>, es: seq<Event>, h: KeyHash, i: nat, j: nat)
    requires Run(c, ss, es) && i < j <= |es| && c.caps.rateLimit > 0
    requires ss[j - 1].now - ss[i].now < RATE_LIMIT_WINDOW
    requires forall n :: 0 <= n < |es| ==> !ListsSpentKey(c, ss[n], es[n])
    ensures Drawn(c, ss, es, h, i, j) <= 2 * c.caps.rateLimit - 1
  {
    var r := HistoryOf(c, ss, es, h);
    BudgetHoldsExactlyWhenNoSpentKeyIsListed(c, ss, es);
    HistoryFits(c, ss, es, h);
    DrawnOfHistory(c, ss, es, h, i, j);
    DrawnAreAccounted(c.caps, r, h, i, j);
    AccountedIsBounded(c.caps, r.pools[j], h, r.times[i], DrawnIn(r.drawn, i, j));
  }

  // ----- The bound is attained -----

  /** Nothing but one enabled key, with its window. */
  ghost predicate OneKey(s: State, h: KeyHash, w: Window) {
    && s.queue == [] && s.requests == map[] && s.pool.inFlight == map[] && s.pool.windows == map[h := w]
    && |s.pool.keys| == 1 && s.pool.keys[0].hash == h && !s.pool.keys[0].isDisabled
  }

  lemma {:induction false} ListOnce(c: Config, s: State, h: KeyHash, w: Window) returns (t: State)
    requires OneKey(s, h, w) && c.caps.rateLimit > 0
    requires s.now - w.startedAt >= RATE_LIMIT_WINDOW || w.count < c.caps.rateLimit
    ensures Next(c, s, List(0), t) && t.now == s.now && Draws(c, s, List(0), h) && !ListsSpentKey(c, s, List(0))
    ensures OneKey(t, h, if s.now - w.startedAt >= RATE_LIMIT_WINDOW then Window(s.now, 1) else Window(w.startedAt, w.count + 1))
  {
    assert s.pool.keys[0] in s.pool.keys && Free(c.caps, s.pool, s.pool.keys[0], s.now);
    t := Listed(c, s, 0);
    assert t.pool == Got(c.caps, s.pool, 0, s.now);
  }

  lemma {:induction false} DrawnOfLonger(c: Config, ss: seq<State>, es: seq<Event>, e: Event, t: State, h: KeyHash, i: nat, j: nat)
    requires |ss| == |es| + 1 && i <= j <= |es|
    ensures Drawn(c, ss + [t], es + [e], h, i, j) == Drawn(c, ss, es, h, i, j)
    decreases j
  {
    if i == j {
    } else {
      DrawnOfLonger(c, ss, es, e, t, h, i, j - 1);
    }
  }

  ghost predicate ListsOnlyUnspent(c: Config, ss: seq<State>, es: seq<Event>)
    requires |ss| == |es| + 1
  {
    forall n :: 0 <= n < |es| ==> !ListsSpentKey(c, ss[n], es[n])
  }

  /** A run that ends with one key whose window is `w`, and has drawn it `n` times since event `i`, all by the clock of now. */
  ghost predicate Reached(c: Config, ss: seq<State>, es: seq<Event>, h: KeyHash, i: nat, n: nat, w: Window) {
    Run(c, ss, es) && ListsOnlyUnspent(c, ss, es) && OneKey(ss[|es|], h, w) && i <= |es| && Drawn(c, ss, es, h, i, |es|) == n
  }

  lemma {:induction false} ReachOneEventMore(
    c: Config, ss: seq<State>, es: seq<Event>, h: KeyHash, i: nat, n: nat, w: Window, e: Event, t: State, v: Window)
    requires Reached(c, ss, es, h, i, n, w) && Next(c, ss[|es|], e, t) && OneKey(t, h, v) && !ListsSpentKey(c, ss[|es|], e)
    ensures Reached(c, ss + [t], es + [e], h, i, n + (if Draws(c, ss[|es|], e, h) then 1 else 0), v)
    ensures (ss + [t])[|es + [e]|] == t
  {
    RunOneMore(c, ss, es, e, t);
    DrawnOfLonger(c, ss, es, e, t, h, i, |es|);
    forall m | 0 <= m < |es + [e]| ensures !ListsSpentKey(c, (ss + [t])[m], (es + [e])[m]) {
      if m < |es| {
        assert (ss + [t])[m] == ss[m] && (es + [e])[m] == es[m];
      }
    }
  }

  /** Lists until the window is spent; every event happens at the time of the run's last state. */
  lemma {:induction false} ListUntilSpent(c: Config, ss: seq<State>, es: seq<Event>, h: KeyHash, i: nat, n: nat, w: Window)
    returns (ss': seq<State>, es': seq<Event>)
    requires Reached(c, ss, es, h, i, n, w) && 0 <= w.count <= c.caps.rateLimit && c.caps.rateLimit > 0
    requires ss[|es|].now - w.startedAt < RATE_LIMIT_WINDOW
    ensures ss <= ss' && es <= es' && |ss'| == |es'| + 1 && ss'[|es'|].now == ss[|es|].now
    ensures Reached(c, ss', es', h, i, n + (c.caps.rateLimit - w.count), Window(w.startedAt, c.caps.rateLimit))
    decreases c.caps.rateLimit - w.count
  {
    if w.count == c.caps.rateLimit {
      ss', es' := ss, es;
    } else {
      var v := Window(w.startedAt, w.count + 1);
      var t := ListOnce(c, ss[|es|], h, w);
      ReachOneEventMore(c, ss, es, h, i, n, w, List(0), t, v);
      ss', es' := ListUntilSpent(c, ss + [t], es + [List(0)], h, i, n + 1, v);
    }
  }

  /** One key, drawn for the first time, and then left alone until a millisecond before its window is over. */
  lemma {:induction false} FirstDrawLongAgo(c: Config, key: Key) returns (ss: seq<State>, es: seq<Event>)
    requires c.caps.rateLimit > 0 && !key.isDisabled
    ensures |es| == 2 && |ss| == 3 && Reached(c, ss, es, key.hash, |es|, 0, Window(0, 1)) && ss[|es|].now == RATE_LIMIT_WINDOW - 1
  {
    var s0 := State(0, [], map[], Pool([key], map[], map[]));
    assert s0.pool.keys[0] in s0.pool.keys && Free(c.caps, s0.pool, s0.pool.keys[0], s0.now);
    var s1 := Listed(c, s0, 0);
    assert s1.pool == Got(c.caps, s0.pool, 0, 0);
    var s2 := s1.(now := RATE_LIMIT_WINDOW - 1);
    ss, es := [s0, s1, s2], [List(0), Tick(RATE_LIMIT_WINDOW - 1)];
    assert Next(c, s0, List(0), s1) && Next(c, s1, Tick(RATE_LIMIT_WINDOW - 1), s2);
    assert OneKey(s2, key.hash, Window(0, 1));
  }

  /** For every budget there is a run with one less than twice the budget of requests within a millisecond. */
  lemma {:induction false} TwiceTheBudgetIsNearlyReached(c: Config, key: Key) returns (ss: seq<State>, es: seq<Event>, i: nat)
    requires c.caps.rateLimit > 0 && !key.isDisabled
    ensures Run(c, ss, es) && ListsOnlyUnspent(c, ss, es) && i <= |es| && ss[|es|].now == ss[i].now + 1
    ensures Drawn(c, ss, es, key.hash, i, |es|) == 2 * c.caps.rateLimit - 1
  {
    var h, l := key.hash, c.caps.rateLimit;
    ss, es := FirstDrawLongAgo(c, key);
    i := |es|;
    var start := ss[i];
    ss, es := ListUntilSpent(c, ss, es, h, i, 0, Window(0, 1));
    assert ss[i] == start;
    var later := ss[|es|].(now := RATE_LIMIT_WINDOW);
    ReachOneEventMore(c, ss, es, h, i, l - 1, Window(0, l), Tick(1), later, Window(0, l));
    ss, es := ss + [later], es + [Tick(1)];
    assert ss[i] == start;
    var t := ListOnce(c, later, h, Window(0, l));
    ReachOneEventMore(c, ss, es, h, i, l - 1, Window(0, l), List(0), t, Window(RATE_LIMIT_WINDOW, 1));
    ss, es := ss + [t], es + [List(0)];
    assert ss[i] == start;
    ss, es := ListUntilSpent(c, ss, es, h, i, l, Window(RATE_LIMIT_WINDOW, 1));
  }
}
