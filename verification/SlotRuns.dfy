/**
 * What the slots of a custom provider are for: counting the requests that run, not the slots that are held, no key
 * is ever given more requests than it may take at once.
 */
module SlotRuns {
  import opened Options
  import opened CustomKeys
  import opened RequestQueue
  import opened QueueRuns

  /** A request of the provider has been dispatched, has not been answered, and its client is still there. */
  ghost predicate Runs(c: Config, s: State, id: RequestId) {
    PhaseIs(s, id, Running) && !s.requests[id].closed && s.requests[id].family == c.providerFamily
  }

  /** The key that `id` is given at an event, or else the one it was given before. */
  ghost function GivenAt(s: State, e: Event, t: State, before: Option<KeyHash>, id: RequestId): Option<KeyHash> {
    if e.Dispatch? && id in s.queue && id !in t.queue && e.roll < |s.pool.keys| then Some(s.pool.keys[e.roll].hash)
    else before
  }

  /** The key drawn when `id` was last dispatched. */
  ghost function GivenKey(ss: seq<State>, es: seq<Event>, i: nat, id: RequestId): Option<KeyHash>
    requires |ss| == |es| + 1 && i <= |es|
  {
    if i == 0 then None else GivenAt(ss[i - 1], es[i - 1], ss[i], GivenKey(ss, es, i - 1, id), id)
  }

  ghost predicate HoldsKey(slots: Slots, h: KeyHash, id: RequestId) {
    h in slots && id in slots[h]
  }

  // ----- Steps that leave a running request its slot -----

  lemma {:induction false} OthersKeepTheirSlots(slots: Slots, h: KeyHash, other: RequestId, k: KeyHash, id: RequestId)
    requires SlotsValid(slots) && HoldsKey(slots, h, id) && id != other
    ensures HoldsKey(Released(slots, other), h, id) && HoldsKey(Acquired(slots, k, other), h, id)
  {
    ReleasedFreesExactlyOne(slots, other);
  }

  lemma {:induction false} ProceedingTakesASlot(c: Config, s: State, id: RequestId, roll: nat)
    requires id in s.requests && s.requests[id].family == c.providerFamily && RollFits(s, roll) && c.caps.concurrency > 0
    requires SlotsValid(s.pool.inFlight)
    ensures var t := Proceeded(c, s, id, roll);
            PhaseIs(t, id, Running) ==> roll < |s.pool.keys| && HoldsKey(t.pool.inFlight, s.pool.keys[roll].hash, id)
  {
    if exists k :: k in s.pool.keys && !k.isDisabled {
      AcquiredMovesTheSlot(s.pool.inFlight, s.pool.keys[roll].hash, id);
    }
  }

  lemma {:induction false} DispatchGivesASlot(c: Config, s: State, family: string, roll: nat, id: RequestId)
    requires Inv(c, s) && Enabled(c, s, Dispatch(family, roll)) && c.caps.concurrency > 0
    requires id in s.queue && id !in Dispatched(c, s, family, roll).queue && Runs(c, Dispatched(c, s, family, roll), id)
    ensures roll < |s.pool.keys| && HoldsKey(Dispatched(c, s, family, roll).pool.inFlight, s.pool.keys[roll].hash, id)
  {
    DispatchedKeepsInv(c, s, family, roll);
    PickIsTheLastMinimum(c, s, family);
    WithoutRemoves(s.queue, Pick(c, s, family));
    DispatchedKeepsRequests(c, s, family, roll);
    ProceedingTakesASlot(c, Dequeued(s, id), id, roll);
  }

  lemma {:induction false} ProceedingLeavesOthers(c: Config, s: State, x: RequestId, roll: nat, h: KeyHash, id: RequestId)
    requires x in s.requests && (s.requests[x].family == c.providerFamily ==> RollFits(s, roll))
    requires SlotsValid(s.pool.inFlight) && HoldsKey(s.pool.inFlight, h, id) && id != x
    ensures HoldsKey(Proceeded(c, s, x, roll).pool.inFlight, h, id)
    ensures id in s.requests ==> Proceeded(c, s, x, roll).requests[id] == s.requests[id]
  {
    if s.requests[x].family == c.providerFamily && exists k :: k in s.pool.keys && !k.isDisabled {
      OthersKeepTheirSlots(s.pool.inFlight, h, x, s.pool.keys[roll].hash, id);
    }
  }

  lemma {:induction false} DispatchLeavesRunning(c: Config, s: State, family: string, roll: nat, h: KeyHash, id: RequestId)
    requires Inv(c, s) && Enabled(c, s, Dispatch(family, roll)) && id !in s.queue && id in s.requests
    requires HoldsKey(s.pool.inFlight, h, id)
    ensures HoldsKey(Dispatched(c, s, family, roll).pool.inFlight, h, id)
  {
    if Waiting(s, family) != [] {
      PickIsTheLastMinimum(c, s, family);
      ProceedingLeavesOthers(c, Dequeued(s, Pick(c, s, family)), Pick(c, s, family), roll, h, id);
    }
  }

  /** The request neither starts nor stops running at this event. */
  lemma {:induction false} StepLeavesRunning(c: Config, s: State, e: Event, h: KeyHash, id: RequestId)
    requires Inv(c, s) && Enabled(c, s, e) && id !in s.queue
    requires Runs(c, s, id) && HoldsKey(s.pool.inFlight, h, id) && Runs(c, Step(c, s, e), id)
    ensures HoldsKey(Step(c, s, e).pool.inFlight, h, id)
  {
    if e.Dispatch? {
      DispatchLeavesRunning(c, s, e.family, e.roll, h, id);
    } else if e.Clean? {
      KilledAllKeepsPool(s, Stale(s), e.unsendable);
    } else if e.Retry? {
      RetryLeavesRunning(c, s, e.id, e.delay, e.interrupted, e.overloaded, h, id);
    } else if e.Close? {
      CloseLeavesRunning(c, s, e.id, h, id);
    }
  }

  lemma {:induction false} RetryLeavesRunning(
    c: Config, s: State, x: RequestId, delay: nat, interrupted: bool, overloaded: bool, h: KeyHash, id: RequestId)
    requires WellFormed(s) && SlotsValid(s.pool.inFlight) && PhaseIs(s, x, Running)
    requires HoldsKey(s.pool.inFlight, h, id) && Runs(c, Retried(c, s, x, delay, interrupted, overloaded), id)
    ensures HoldsKey(Retried(c, s, x, delay, interrupted, overloaded).pool.inFlight, h, id)
  {
    EnteringStartsNone(c, Failed(c, s, x, delay), x, interrupted, overloaded, id);
    OthersKeepTheirSlots(s.pool.inFlight, h, x, h, id);
    EnteringKeepsPool(c, Failed(c, s, x, delay), x, interrupted, overloaded);
  }

  lemma {:induction false} EnteringKeepsPool(c: Config, s: State, x: RequestId, interrupted: bool, overloaded: bool)
    requires WellFormed(s) && x in s.requests
    ensures Entered(c, s, x, interrupted, overloaded).pool == s.pool
  {
  }

  lemma {:induction false} CloseLeavesRunning(c: Config, s: State, x: RequestId, h: KeyHash, id: RequestId)
    requires SlotsValid(s.pool.inFlight) && x in s.requests
    requires HoldsKey(s.pool.inFlight, h, id) && Runs(c, Closed(c, s, x), id)
    ensures HoldsKey(Closed(c, s, x).pool.inFlight, h, id)
  {
    if x != id {
      OthersKeepTheirSlots(s.pool.inFlight, h, x, h, id);
    }
  }

  // ----- Only a dispatch starts a request -----

  lemma {:induction false} KilledAllStartsNone(s: State, ids: seq<RequestId>, unsendable: set<RequestId>, id: RequestId)
    requires forall x :: x in ids ==> x in s.requests
    ensures KilledAll(s, ids, unsendable).requests.Keys == s.requests.Keys
    ensures PhaseIs(KilledAll(s, ids, unsendable), id, Running) ==> PhaseIs(s, id, Running)
    ensures id in s.requests && !KilledAll(s, ids, unsendable).requests[id].closed ==> !s.requests[id].closed
    decreases |ids|
  {
    if ids == [] {
    } else {
      var t := Killed(s, ids[0], ids[0] !in unsendable);
      KilledAllStartsNone(t, ids[1..], unsendable, id);
    }
  }

  lemma {:induction false} DispatchStartsOnlyItsPick(c: Config, s: State, family: string, roll: nat, id: RequestId)
    requires Inv(c, s) && Enabled(c, s, Dispatch(family, roll)) && Runs(c, Dispatched(c, s, family, roll), id)
    ensures Runs(c, s, id) || (id in s.queue && id !in Dispatched(c, s, family, roll).queue)
  {
    DispatchedKeepsInv(c, s, family, roll);
    if Waiting(s, family) != [] {
      PickIsTheLastMinimum(c, s, family);
      WithoutRemoves(s.queue, Pick(c, s, family));
      assert PhaseIs(s, Pick(c, s, family), Queued);
    }
  }

  lemma {:induction false} StepStartsOnlyByDispatch(c: Config, s: State, e: Event, id: RequestId)
    requires Inv(c, s) && Enabled(c, s, e) && Runs(c, Step(c, s, e), id)
    ensures Runs(c, s, id) || (e.Dispatch? && id in s.queue && id !in Step(c, s, e).queue)
  {
    if e.Dispatch? {
      DispatchStartsOnlyItsPick(c, s, e.family, e.roll, id);
    } else if e.Clean? {
      KilledAllKeepsRequests(s, Stale(s), e.unsendable);
      KilledAllStartsNone(s, Stale(s), e.unsendable, id);
    } else if e.Enqueue? {
      EnteringStartsNone(c, s, e.id, e.interrupted, e.overloaded, id);
    } else if e.Retry? {
      EnteringStartsNone(c, Failed(c, s, e.id, e.delay), e.id, e.interrupted, e.overloaded, id);
    } else {
      QuietStepStartsNone(c, s, e, id);
    }
  }

  lemma {:induction false} EnteringStartsNone(
    c: Config, s: State, x: RequestId, interrupted: bool, overloaded: bool, id: RequestId)
    requires WellFormed(s) && x in s.requests && Runs(c, Entered(c, s, x, interrupted, overloaded), id)
    ensures Runs(c, s, id) && id != x
  {
  }

  lemma {:induction false} QuietStepStartsNone(c: Config, s: State, e: Event, id: RequestId)
    requires WellFormed(s) && Enabled(c, s, e) && Runs(c, Step(c, s, e), id)
    requires !e.Dispatch? && !e.Clean? && !e.Enqueue? && !e.Retry?
    ensures Runs(c, s, id)
  {
  }

  // ----- Runs -----

  lemma {:induction false} RunningAfterDispatchHolds(c: Config, s: State, e: Event, t: State, id: RequestId)
    requires Inv(c, s) && Next(c, s, e, t) && e.Dispatch? && id in s.queue && id !in t.queue
    requires c.caps.concurrency > 0 && Runs(c, t, id)
    ensures e.roll < |s.pool.keys| && HoldsKey(t.pool.inFlight, s.pool.keys[e.roll].hash, id)
  {
    DispatchGivesASlot(c, s, e.family, e.roll, id);
  }

  lemma {:induction false} RunsOn(c: Config, s: State, e: Event, t: State, h: KeyHash, id: RequestId)
    requires Inv(c, s) && Next(c, s, e, t) && Runs(c, s, id) && Runs(c, t, id) && HoldsKey(s.pool.inFlight, h, id)
    ensures HoldsKey(t.pool.inFlight, h, id)
  {
    assert PhaseIs(s, id, Running);
    StepLeavesRunning(c, s, e, h, id);
  }

  lemma {:induction false} RunsOnlyAfterDispatch(c: Config, s: State, e: Event, t: State, id: RequestId)
    requires Inv(c, s) && Next(c, s, e, t) && Runs(c, t, id) && !(e.Dispatch? && id in s.queue && id !in t.queue)
    ensures Runs(c, s, id)
  {
    StepStartsOnlyByDispatch(c, s, e, id);
  }

  /** If the request runs, it holds a slot of the key it was given. */
  ghost predicate HoldsIfRunning(c: Config, s: State, given: Option<KeyHash>, id: RequestId) {
    Runs(c, s, id) ==> given.Some? && HoldsKey(s.pool.inFlight, given.value, id)
  }

  lemma {:induction false} StepKeepsHold(c: Config, s: State, e: Event, t: State, before: Option<KeyHash>, id: RequestId)
    requires Inv(c, s) && Next(c, s, e, t) && c.caps.concurrency > 0 && HoldsIfRunning(c, s, before, id)
    ensures HoldsIfRunning(c, t, GivenAt(s, e, t, before, id), id)
  {
    if Runs(c, t, id) {
      if e.Dispatch? && id in s.queue && id !in t.queue {
        RunningAfterDispatchHolds(c, s, e, t, id);
      } else {
        RunsOnlyAfterDispatch(c, s, e, t, id);
        RunsOn(c, s, e, t, before.value, id);
      }
    }
  }

  /** Whatever key the request was given before, if it holds a slot of that, it holds one of the key it is given now. */
  ghost predicate KeepsHold(c: Config, s: State, e: Event, t: State, id: RequestId) {
    forall before :: HoldsIfRunning(c, s, before, id) ==> HoldsIfRunning(c, t, GivenAt(s, e, t, before, id), id)
  }

  ghost predicate AllKeepHold(c: Config, ss: seq<State>, es: seq<Event>, id: RequestId) {
    |ss| == |es| + 1 && forall n :: 0 <= n < |es| ==> KeepsHold(c, ss[n], es[n], ss[n + 1], id)
  }

  lemma {:induction false} RunKeepsHold(c: Config, ss: seq<State>, es: seq<Event>, id: RequestId)
    requires Run(c, ss, es) && c.caps.concurrency > 0
    ensures AllKeepHold(c, ss, es, id) && !Runs(c, ss[0], id)
  {
    forall n | 0 <= n < |es| ensures KeepsHold(c, ss[n], es[n], ss[n + 1], id) {
      InvHoldsInEveryRun(c, ss, es, n);
      assert Next(c, ss[n], es[n], ss[n + 1]);
      StepKeepsEveryHold(c, ss[n], es[n], ss[n + 1], id);
    }
  }

  lemma {:induction false} StepKeepsEveryHold(c: Config, s: State, e: Event, t: State, id: RequestId)
    requires Inv(c, s) && Next(c, s, e, t) && c.caps.concurrency > 0
    ensures KeepsHold(c, s, e, t, id)
  {
    forall before | HoldsIfRunning(c, s, before, id) ensures HoldsIfRunning(c, t, GivenAt(s, e, t, before, id), id) {
      StepKeepsHold(c, s, e, t, before, id);
    }
  }

  lemma {:induction false} HoldsThroughout(c: Config, ss: seq<State>, es: seq<Event>, i: nat, id: RequestId)
    requires AllKeepHold(c, ss, es, id) && !Runs(c, ss[0], id) && i <= |es|
    ensures HoldsIfRunning(c, ss[i], GivenKey(ss, es, i, id), id)
  {
    if i > 0 {
      HoldsThroughout(c, ss, es, i - 1, id);
      assert KeepsHold(c, ss[i - 1], es[i - 1], ss[i], id);
    }
  }

  /**
   * In every run with a positive cap, a request that runs holds a slot of the very key that was drawn when it was
   * dispatched.
   */
  lemma {:induction false} RunningRequestHoldsItsKey(c: Config, ss: seq<State>, es: seq<Event>, i: nat, id: RequestId)
    requires Run(c, ss, es) && i <= |es| && c.caps.concurrency > 0 && Runs(c, ss[i], id)
    ensures GivenKey(ss, es, i, id).Some? && HoldsKey(ss[i].pool.inFlight, GivenKey(ss, es, i, id).value, id)
  {
    RunKeepsHold(c, ss, es, id);
    HoldsThroughout(c, ss, es, i, id);
  }

  /** The requests that run on key `h`. */
  ghost function RunningOn(c: Config, ss: seq<State>, es: seq<Event>, i: nat, h: KeyHash): set<RequestId>
    requires |ss| == |es| + 1 && i <= |es|
  {
    set id | id in ss[i].requests && Runs(c, ss[i], id) && GivenKey(ss, es, i, id) == Some(h)
  }

  /** In every run no more requests run on a key than its cap allows. */
  lemma {:induction false} NoKeyRunsMoreThanItsCap(c: Config, ss: seq<State>, es: seq<Event>, i: nat, h: KeyHash)
    requires Run(c, ss, es) && i <= |es| && c.caps.concurrency > 0
    ensures |RunningOn(c, ss, es, i, h)| <= c.caps.concurrency
  {
    var running := RunningOn(c, ss, es, i, h);
    InvHoldsInEveryRun(c, ss, es, i);
    forall id | id in running ensures HoldsKey(ss[i].pool.inFlight, h, id) {
      RunningRequestHoldsItsKey(c, ss, es, i, id);
    }
    if running != {} {
      var id :| id in running;
      assert HoldsKey(ss[i].pool.inFlight, h, id);
      SubsetSize(running, ss[i].pool.inFlight[h]);
    }
  }

  lemma {:induction false} GivenKeyIsTheOnlyOne(ss: seq<State>, es: seq<Event>, i: nat, id: RequestId, h: KeyHash)
    requires |ss| == |es| + 1 && i <= |es| && forall n, k :: 0 <= n <= |es| && k in ss[n].pool.keys ==> k.hash == h
    ensures GivenKey(ss, es, i, id).Some? ==> GivenKey(ss, es, i, id).value == h
  {
    if i == 0 {
    } else {
      GivenKeyIsTheOnlyOne(ss, es, i - 1, id, h);
      if GivenKey(ss, es, i, id) != GivenKey(ss, es, i - 1, id) {
        assert ss[i - 1].pool.keys[es[i - 1].roll] in ss[i - 1].pool.keys;
      }
    }
  }

  /** With a single key, the provider never runs more requests than that key may take. */
  lemma {:induction false} OneKeyProviderRunsNoMoreThanItsCap(c: Config, ss: seq<State>, es: seq<Event>, i: nat, h: KeyHash)
    requires Run(c, ss, es) && i <= |es| && c.caps.concurrency > 0
    requires forall n, k :: 0 <= n <= |es| && k in ss[n].pool.keys ==> k.hash == h
    ensures |set id | id in ss[i].requests && Runs(c, ss[i], id)| <= c.caps.concurrency
  {
    forall id | id in ss[i].requests && Runs(c, ss[i], id) ensures GivenKey(ss, es, i, id) == Some(h) {
      RunningRequestHoldsItsKey(c, ss, es, i, id);
      GivenKeyIsTheOnlyOne(ss, es, i, id, h);
    }
    NoKeyRunsMoreThanItsCap(c, ss, es, i, h);
    assert (set id | id in ss[i].requests && Runs(c, ss[i], id)) == RunningOn(c, ss, es, i, h);
  }
}
