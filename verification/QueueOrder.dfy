/**
 * The order of service, in terms of arrival times, token counts and pauses alone: what a run of the queue
 * promises to somebody who does not know how a request is scored.
 */
module QueueOrder {
  import opened Options
  import opened CustomKeys
  import opened RequestQueue
  import opened QueueRuns

  /** The dispatch at event `i` takes `q` out of the queue and leaves everybody else there. */
  ghost predicate Takes(ss: seq<State>, es: seq<Event>, i: nat, q: RequestId) {
    && |ss| == |es| + 1 && i < |es| && es[i].Dispatch?
    && q in ss[i].queue && q in ss[i].requests
    && forall x :: x in ss[i + 1].queue <==> x in ss[i].queue && x != q
  }

  /** `r` waits for a dispatch of the family and is not pausing between two attempts. */
  ghost predicate Ready(s: State, r: RequestId, family: string) {
    && r in s.queue && r in s.requests && s.requests[r].family == family
    && (s.requests[r].notBefore.Some? ==> s.requests[r].notBefore.value <= s.now)
  }

  lemma {:induction false} ReadyIsWaiting(s: State, r: RequestId, family: string)
    requires WellFormed(s)
    ensures r in Waiting(s, family) <==> Ready(s, r, family)
  {
  }

  lemma {:induction false} TakenIsPicked(c: Config, s: State, family: string, roll: nat, q: RequestId)
    requires Inv(c, s) && Enabled(c, s, Dispatch(family, roll))
    requires q in s.queue && q !in Dispatched(c, s, family, roll).queue
    ensures Waiting(s, family) != [] && q == Pick(c, s, family)
  {
    DispatchedKeepsInv(c, s, family, roll);
    if Waiting(s, family) != [] {
      WithoutRemoves(s.queue, Pick(c, s, family));
    }
  }

  lemma {:induction false} TakenInRun(c: Config, ss: seq<State>, es: seq<Event>, i: nat, q: RequestId)
    requires Run(c, ss, es) && Takes(ss, es, i, q)
    ensures Inv(c, ss[i]) && Waiting(ss[i], es[i].family) != [] && q == Pick(c, ss[i], es[i].family)
  {
    InvHoldsInEveryRun(c, ss, es, i);
    assert Next(c, ss[i], es[i], ss[i + 1]);
    TakenIsPicked(c, ss[i], es[i].family, es[i].roll, q);
  }

  /** If somebody is ready, the dispatch takes exactly one request, and otherwise none. */
  lemma {:induction false} DispatchTakesOneExactlyWhenReady(c: Config, ss: seq<State>, es: seq<Event>, i: nat)
    requires Run(c, ss, es) && i < |es| && es[i].Dispatch?
    ensures (exists q :: Takes(ss, es, i, q)) <==> (exists r :: Ready(ss[i], r, es[i].family))
    ensures (forall r :: !Ready(ss[i], r, es[i].family)) ==> ss[i + 1].queue == ss[i].queue
  {
    var s, family := ss[i], es[i].family;
    InvHoldsInEveryRun(c, ss, es, i);
    assert Next(c, s, es[i], ss[i + 1]);
    DispatchedKeepsInv(c, s, family, es[i].roll);
    if Waiting(s, family) != [] {
      var q := Pick(c, s, family);
      PickIsTheLastMinimum(c, s, family);
      WithoutRemoves(s.queue, q);
      ReadyIsWaiting(s, q, family);
      assert Takes(ss, es, i, q);
    } else {
      forall r ensures !Ready(s, r, family) {
        ReadyIsWaiting(s, r, family);
      }
      assert ss[i + 1].queue == s.queue;
    }
  }

  /** No dispatch takes a request of another family, or one whose pause is not over. */
  lemma {:induction false} OnlyReadyRequestsAreTaken(c: Config, ss: seq<State>, es: seq<Event>, i: nat, q: RequestId)
    requires Run(c, ss, es) && Takes(ss, es, i, q)
    ensures Ready(ss[i], q, es[i].family)
  {
    TakenInRun(c, ss, es, i, q);
    PickIsTheLastMinimum(c, ss[i], es[i].family);
  }

  // ----- Time against tokens -----

  /** When a request arrived, and the tokens of its prompt and of its answer. */
  datatype Claim = Claim(at: int, promptTokens: int, outputTokens: int)

  function ClaimOf(r: Request): Claim {
    Claim(r.startTime, r.promptTokens, r.outputTokens)
  }

  /** For every token that `a` has more than `b`, it arrived the factor's number of milliseconds earlier. */
  ghost predicate MayGoBefore(factor: real, a: Claim, b: Claim) {
    (b.at - a.at) as real >= factor * ((a.promptTokens + a.outputTokens) - (b.promptTokens + b.outputTokens)) as real
  }

  lemma {:induction false} Distributes(factor: real, a: int, b: int)
    ensures factor * (a - b) as real == factor * a as real - factor * b as real
  {
  }

  lemma {:induction false} LowerScoreMayGoBefore(c: Config, a: Request, b: Request)
    requires Score(c, a) <= Score(c, b)
    ensures MayGoBefore(c.factor, ClaimOf(a), ClaimOf(b))
  {
    Distributes(c.factor, a.promptTokens + a.outputTokens, b.promptTokens + b.outputTokens);
  }

  lemma {:induction false} PickScoresNoHigher(c: Config, s: State, family: string, r: RequestId)
    requires WellFormed(s) && Ready(s, r, family)
    ensures Waiting(s, family) != [] && Pick(c, s, family) in s.requests
    ensures Score(c, s.requests[Pick(c, s, family)]) <= Score(c, s.requests[r])
  {
    ReadyIsWaiting(s, r, family);
    PickIsTheLastMinimum(c, s, family);
  }

  lemma {:induction false} PickMayGoBefore(c: Config, s: State, family: string, q: RequestId, r: RequestId)
    requires WellFormed(s) && Ready(s, r, family) && q in s.requests
    requires Waiting(s, family) != [] ==> q == Pick(c, s, family)
    ensures MayGoBefore(c.factor, ClaimOf(s.requests[q]), ClaimOf(s.requests[r]))
  {
    PickScoresNoHigher(c, s, family, r);
    LowerScoreMayGoBefore(c, s.requests[q], s.requests[r]);
  }

  /** A dispatch takes `q` while `r` is ready only if its claim is the better one. */
  lemma {:induction false} TakenMayGoBefore(c: Config, ss: seq<State>, es: seq<Event>, i: nat, q: RequestId, r: RequestId)
    requires Run(c, ss, es) && Takes(ss, es, i, q) && Ready(ss[i], r, es[i].family)
    ensures MayGoBefore(c.factor, ClaimOf(ss[i].requests[q]), ClaimOf(ss[i].requests[r]))
  {
    TakenInRun(c, ss, es, i, q);
    PickMayGoBefore(c, ss[i], es[i].family, q, r);
  }

  /** The claim a request makes at event `i`: by its arrival at event `j`, and by what its output is thought to be. */
  ghost function ClaimAt(ss: seq<State>, es: seq<Event>, j: nat, i: nat, r: RequestId): Claim
    requires |ss| == |es| + 1 && j < i < |es| && es[j].Arrive? && r in ss[i].requests
  {
    Claim(ss[j].now, es[j].promptTokens, ss[i].requests[r].outputTokens)
  }

  lemma {:induction false} ClaimSinceArrival(c: Config, ss: seq<State>, es: seq<Event>, i: nat, r: RequestId) returns (j: nat)
    requires Run(c, ss, es) && i < |es| && r in ss[i].requests
    ensures j < i && es[j].Arrive? && es[j].id == r && ClaimAt(ss, es, j, i, r) == ClaimOf(ss[i].requests[r])
  {
    j := ArrivalOf(c, ss, es, i, r);
  }

  /**
   * In every run, a dispatch takes `q` while `r` is ready only if, for every token that `q` has more than `r`, prompt
   * and output together, it arrived the factor's number of milliseconds earlier.
   */
  lemma {:induction false} DispatchTradesTimeForTokens(c: Config, ss: seq<State>, es: seq<Event>, i: nat, q: RequestId, r: RequestId)
    returns (j: nat, k: nat)
    requires Run(c, ss, es) && Takes(ss, es, i, q) && Ready(ss[i], r, es[i].family)
    ensures j < i && es[j].Arrive? && es[j].id == q && k < i && es[k].Arrive? && es[k].id == r
    ensures MayGoBefore(c.factor, ClaimAt(ss, es, j, i, q), ClaimAt(ss, es, k, i, r))
  {
    j := ClaimSinceArrival(c, ss, es, i, q);
    k := ClaimSinceArrival(c, ss, es, i, r);
    TakenMayGoBefore(c, ss, es, i, q, r);
  }

  lemma {:induction false} PositiveTimes(factor: real, n: int)
    requires factor > 0.0 && factor * n as real <= 0.0
    ensures n <= 0
  {
  }

  lemma {:induction false} SameTimeFewerTokens(factor: real, a: Claim, b: Claim)
    requires factor > 0.0 && a.at == b.at && MayGoBefore(factor, a, b)
    ensures a.promptTokens + a.outputTokens <= b.promptTokens + b.outputTokens
  {
    PositiveTimes(factor, (a.promptTokens + a.outputTokens) - (b.promptTokens + b.outputTokens));
  }

  /** Of two requests that arrived at the same time, with a positive factor the one with fewer tokens goes first. */
  lemma {:induction false} FewerTokensGoFirst(c: Config, ss: seq<State>, es: seq<Event>, i: nat, q: RequestId, r: RequestId)
    requires Run(c, ss, es) && Takes(ss, es, i, q) && Ready(ss[i], r, es[i].family) && c.factor > 0.0
    requires ss[i].requests[q].startTime == ss[i].requests[r].startTime
    ensures ss[i].requests[q].promptTokens + ss[i].requests[q].outputTokens <=
            ss[i].requests[r].promptTokens + ss[i].requests[r].outputTokens
  {
    TakenMayGoBefore(c, ss, es, i, q, r);
    SameTimeFewerTokens(c.factor, ClaimOf(ss[i].requests[q]), ClaimOf(ss[i].requests[r]));
  }

  // ----- Ties -----

  ghost predicate IsBefore(q: seq<RequestId>, a: RequestId, b: RequestId) {
    exists x, y :: 0 <= x < y < |q| && q[x] == a && q[y] == b
  }

  lemma {:induction false} BeforeInLonger(first: RequestId, rest: seq<RequestId>, q: seq<RequestId>, a: RequestId, b: RequestId)
    requires q == [first] + rest && b in rest && (a == first || IsBefore(rest, a, b))
    ensures IsBefore(q, a, b)
  {
    if IsBefore(rest, a, b) {
      var x, y :| 0 <= x < y < |rest| && rest[x] == a && rest[y] == b;
      assert q[x + 1] == a && q[y + 1] == b;
    } else {
      var y :| 0 <= y < |rest| && rest[y] == b;
      assert q[0] == a && q[y + 1] == b;
    }
  }

  /** `ids` is `q` with some elements left out. */
  ghost predicate Thinned(q: seq<RequestId>, ids: seq<RequestId>) {
    if q == [] then ids == []
    else (ids != [] && ids[0] == q[0] && Thinned(q[1..], ids[1..])) || Thinned(q[1..], ids)
  }

  lemma {:induction false} ThinnedHasNoOthers(q: seq<RequestId>, ids: seq<RequestId>, p: nat)
    requires Thinned(q, ids) && p < |ids|
    ensures ids[p] in q
  {
    if Thinned(q[1..], ids) {
      ThinnedHasNoOthers(q[1..], ids, p);
    } else if p > 0 {
      ThinnedHasNoOthers(q[1..], ids[1..], p - 1);
    }
  }

  lemma {:induction false} ThinnedKeepsOrder(q: seq<RequestId>, ids: seq<RequestId>, j: nat, p: nat)
    requires Thinned(q, ids) && j < p < |ids|
    ensures IsBefore(q, ids[j], ids[p])
  {
    assert q == [q[0]] + q[1..];
    if Thinned(q[1..], ids) {
      ThinnedKeepsOrder(q[1..], ids, j, p);
      ThinnedHasNoOthers(q[1..], ids, p);
    } else {
      ThinnedHasNoOthers(q[1..], ids[1..], p - 1);
      if j > 0 {
        ThinnedKeepsOrder(q[1..], ids[1..], j - 1, p - 1);
      }
    }
    BeforeInLonger(q[0], q[1..], q, ids[j], ids[p]);
  }

  lemma {:induction false} WaitingIsThinned(s: State, family: string)
    requires WellFormed(s)
    ensures Thinned(s.queue, Waiting(s, family))
    decreases |s.queue|
  {
    if s.queue != [] {
      var rest := s.(queue := s.queue[1..]);
      WaitingIsThinned(rest, family);
      var ids, tail := Waiting(s, family), Waiting(rest, family);
      if Eligible(s.requests[s.queue[0]], family, s.now) {
        assert ids == [s.queue[0]] + tail && ids[1..] == tail;
      } else {
        assert ids == [] + tail == tail;
      }
    }
  }

  lemma {:induction false} EqualClaimsScoreAlike(c: Config, a: Request, b: Request)
    requires MayGoBefore(c.factor, ClaimOf(b), ClaimOf(a))
    ensures Score(c, b) <= Score(c, a)
  {
    Distributes(c.factor, b.promptTokens + b.outputTokens, a.promptTokens + a.outputTokens);
  }

  lemma {:induction false} EqualsAreInFront(c: Config, requests: map<RequestId, Request>, ids: seq<RequestId>, p: int, j: int)
    requires (forall id :: id in ids ==> id in requests) && LastMinimum(c, requests, ids, p) && 0 <= j < |ids|
    requires Score(c, requests[ids[j]]) <= Score(c, requests[ids[p]])
    ensures j <= p
  {
  }

  lemma {:induction false} PickIsBehindItsEquals(c: Config, s: State, family: string, q: RequestId, r: RequestId)
    requires WellFormed(s) && Ready(s, r, family) && Waiting(s, family) != [] && q == Pick(c, s, family) && q in s.requests
    requires Score(c, s.requests[r]) <= Score(c, s.requests[q]) && r != q
    ensures IsBefore(s.queue, r, q)
  {
    ReadyIsWaiting(s, r, family);
    PickIsTheLastMinimum(c, s, family);
    var ids := Waiting(s, family);
    var p :| LastMinimum(c, s.requests, ids, p) && ids[p] == q;
    var j :| 0 <= j < |ids| && ids[j] == r;
    EqualsAreInFront(c, s.requests, ids, p, j);
    WaitingIsThinned(s, family);
    ThinnedKeepsOrder(s.queue, ids, j, p);
  }

  /** Of requests with equal claims, a dispatch takes the one that was queued last. */
  lemma {:induction false} LastOfEqualsGoes(c: Config, ss: seq<State>, es: seq<Event>, i: nat, q: RequestId, r: RequestId)
    requires Run(c, ss, es) && Takes(ss, es, i, q) && Ready(ss[i], r, es[i].family) && r != q
    requires MayGoBefore(c.factor, ClaimOf(ss[i].requests[r]), ClaimOf(ss[i].requests[q]))
    ensures IsBefore(ss[i].queue, r, q)
  {
    TakenInRun(c, ss, es, i, q);
    EqualClaimsScoreAlike(c, ss[i].requests[q], ss[i].requests[r]);
    PickIsBehindItsEquals(c, ss[i], es[i].family, q, r);
  }

  // ----- Pauses -----

  /** The clock has come to `until`, or `id` is out of dispatch and pauses until then. */
  ghost predicate PausesUntil(s: State, id: RequestId, until: int) {
    until <= s.now || (id in s.requests && s.requests[id].notBefore.Some? && until <= s.requests[id].notBefore.value
                       && (s.requests[id].phase == Joining || s.requests[id].phase == Queued || s.requests[id].phase == Done))
  }

  lemma {:induction false} RetryPauses(c: Config, s: State, id: RequestId, delay: nat, interrupted: bool, overloaded: bool)
    requires WellFormed(s) && id in s.requests && delay > 0
    ensures PausesUntil(Retried(c, s, id, delay, interrupted, overloaded), id, s.now + delay)
  {
  }

  lemma {:induction false} PausedIsNotPicked(c: Config, s: State, family: string, id: RequestId, until: int)
    requires WellFormed(s) && Waiting(s, family) != [] && PausesUntil(s, id, until) && s.now < until
    ensures Pick(c, s, family) in s.requests && Pick(c, s, family) != id
  {
    PickIsTheLastMinimum(c, s, family);
  }

  lemma {:induction false} SendingKeepsPause(c: Config, s: State, x: RequestId, roll: nat, id: RequestId, until: int)
    requires x in s.requests && (s.requests[x].family == c.providerFamily ==> RollFits(s, roll))
    requires x != id && PausesUntil(s, id, until)
    ensures PausesUntil(Proceeded(c, Dequeued(s, x), x, roll), id, until)
  {
  }

  lemma {:induction false} DispatchKeepsPause(c: Config, s: State, family: string, roll: nat, id: RequestId, until: int)
    requires Inv(c, s) && Enabled(c, s, Dispatch(family, roll)) && PausesUntil(s, id, until) && s.now < until
    ensures PausesUntil(Dispatched(c, s, family, roll), id, until)
  {
    if Waiting(s, family) != [] {
      PausedIsNotPicked(c, s, family, id, until);
      PickIsTheLastMinimum(c, s, family);
      SendingKeepsPause(c, s, Pick(c, s, family), roll, id, until);
    }
  }

  lemma {:induction false} KilledAllKeepsPause(s: State, ids: seq<RequestId>, unsendable: set<RequestId>, id: RequestId, until: int)
    requires (forall x :: x in ids ==> x in s.requests) && PausesUntil(s, id, until)
    ensures PausesUntil(KilledAll(s, ids, unsendable), id, until)
    decreases |ids|
  {
    if ids == [] {
    } else {
      KilledAllKeepsPause(Killed(s, ids[0], ids[0] !in unsendable), ids[1..], unsendable, id, until);
    }
  }

  lemma {:induction false} EnteringKeepsPause(
    c: Config, s: State, x: RequestId, interrupted: bool, overloaded: bool, id: RequestId, until: int)
    requires WellFormed(s) && x in s.requests && x != id && PausesUntil(s, id, until)
    ensures PausesUntil(Entered(c, s, x, interrupted, overloaded), id, until)
  {
  }

  lemma {:induction false} StepKeepsPause(c: Config, s: State, e: Event, id: RequestId, until: int)
    requires Inv(c, s) && Enabled(c, s, e) && PausesUntil(s, id, until) && s.now < until
    ensures PausesUntil(Step(c, s, e), id, until)
  {
    if e.Dispatch? {
      DispatchKeepsPause(c, s, e.family, e.roll, id, until);
    } else if e.Clean? {
      KilledAllKeepsPause(s, Stale(s), e.unsendable, id, until);
    } else if e.Retry? {
      EnteringKeepsPause(c, Failed(c, s, e.id, e.delay), e.id, e.interrupted, e.overloaded, id, until);
    } else if e.Enqueue? {
      EnteringKeepsPause(c, s, e.id, e.interrupted, e.overloaded, id, until);
    }
  }

  lemma {:induction false} PauseLasts(c: Config, ss: seq<State>, es: seq<Event>, j: nat, i: nat)
    requires Run(c, ss, es) && j < i <= |es| && es[j].Retry? && es[j].delay > 0
    ensures PausesUntil(ss[i], es[j].id, ss[j].now + es[j].delay)
    decreases i
  {
    var n := i - 1;
    assert Next(c, ss[n], es[n], ss[i]);
    if n == j {
      RetryPauses(c, ss[j], es[j].id, es[j].delay, es[j].interrupted, es[j].overloaded);
    } else {
      PauseLasts(c, ss, es, j, n);
      InvHoldsInEveryRun(c, ss, es, n);
      StepKeepsClock(c, ss[n], es[n]);
      if ss[n].now < ss[j].now + es[j].delay {
        StepKeepsPause(c, ss[n], es[n], es[j].id, ss[j].now + es[j].delay);
      }
    }
  }

  /** After an attempt that failed with a delay, no dispatch takes the request before the delay is over. */
  lemma {:induction false} RetryWaitsOutItsDelay(c: Config, ss: seq<State>, es: seq<Event>, j: nat, i: nat)
    requires Run(c, ss, es) && j < i < |es| && es[j].Retry? && es[j].delay > 0 && Takes(ss, es, i, es[j].id)
    ensures ss[i].now >= ss[j].now + es[j].delay
  {
    PauseLasts(c, ss, es, j, i);
    OnlyReadyRequestsAreTaken(c, ss, es, i, es[j].id);
  }
}
