/** What the request queue guarantees over every run of its transition system. */
module QueueRuns {
  import opened Options
  import opened CustomKeys
  import opened RequestQueue

  // ----- Every step keeps the invariant -----

  lemma {:induction false} PushKeepsInv(c: Config, s: State, id: RequestId)
    requires Inv(c, s) && id in s.requests && id !in s.queue
    requires !s.requests[id].closed && !Holds(s.pool.inFlight, id)
    ensures Inv(c, Push(s, id))
  {
    var t := Push(s, id);
    assert Distinct(t.queue);
    assert forall x :: x in t.queue <==> x in s.queue || x == id;
    assert forall x :: x != id ==> (PhaseIs(t, x, Queued) <==> PhaseIs(s, x, Queued));
    assert forall x :: x != id && LeftTheQueue(s, x) ==> LeftTheQueue(t, x);
  }

  /** A change to one request outside the queue that neither queues it nor touches its connection. */
  lemma {:induction false} UpdateKeepsInv(c: Config, s: State, id: RequestId, r: Request)
    requires Inv(c, s) && id in s.requests && id !in s.queue
    requires r.phase != Queued && (r.closed ==> r.ended)
    requires Holds(s.pool.inFlight, id) ==> (r.phase == Running || r.phase == Done) && !r.closed && r.family == s.requests[id].family
    ensures Inv(c, s.(requests := s.requests[id := r]))
  {
    var t := s.(requests := s.requests[id := r]);
    assert forall x :: x != id ==> (PhaseIs(t, x, Queued) <==> PhaseIs(s, x, Queued));
    assert forall x :: x != id && LeftTheQueue(s, x) ==> LeftTheQueue(t, x);
  }

  lemma {:induction false} FreeingKeepsInv(c: Config, s: State, id: RequestId)
    requires Inv(c, s) && id in s.requests
    ensures Inv(c, Freed(c, s, id)) && !Holds(Freed(c, s, id).pool.inFlight, id)
  {
    var t := Freed(c, s, id);
    ReleasedFreesExactlyOne(s.pool.inFlight, id);
    ReleaseKeepsSlotCap(c.caps, s.pool, id);
    assert forall x :: LeftTheQueue(s, x) ==> LeftTheQueue(t, x);
    assert forall x :: PhaseIs(t, x, Queued) <==> PhaseIs(s, x, Queued);
  }

  lemma {:induction false} EnteredKeepsInv(c: Config, s: State, id: RequestId, interrupted: bool, overloaded: bool)
    requires Inv(c, s) && (PhaseIs(s, id, Fresh) || PhaseIs(s, id, Running)) && !Holds(s.pool.inFlight, id)
    ensures Inv(c, Entered(c, s, id, interrupted, overloaded))
  {
    var r := s.requests[id];
    assert id !in s.queue by {
      assert !PhaseIs(s, id, Queued);
    }
    UpdateKeepsInv(c, s, id, r.(phase := Done));
    UpdateKeepsInv(c, s, id, r.(headersSent := true));
    UpdateKeepsInv(c, s, id, r.(headersSent := true, phase := Joining));
    if !r.ended {
      PushKeepsInv(c, s, id);
      PushKeepsInv(c, s.(requests := s.requests[id := r.(headersSent := true)]), id);
    }
  }

  lemma {:induction false} RetriedKeepsInv(c: Config, s: State, id: RequestId, delay: nat, interrupted: bool, overloaded: bool)
    requires Inv(c, s) && PhaseIs(s, id, Running)
    ensures Inv(c, Retried(c, s, id, delay, interrupted, overloaded))
  {
    FreeingKeepsInv(c, s, id);
    assert id !in s.queue by {
      assert !PhaseIs(s, id, Queued);
    }
    UpdateKeepsInv(c, Freed(c, s, id), id, Failed(c, s, id, delay).requests[id]);
    EnteredKeepsInv(c, Failed(c, s, id, delay), id, interrupted, overloaded);
  }

  lemma {:induction false} RemovalKeepsInv(c: Config, s: State, id: RequestId, r: Request)
    requires Inv(c, s) && id in s.queue
    requires r.phase == Running || r.phase == Done
    requires r.family == s.requests[id].family && (r.closed ==> r.ended)
    ensures Splice(s.queue, IndexOf(s.queue, id)) == Without(s.queue, id)
    ensures !Holds(s.pool.inFlight, id)
    ensures Inv(c, s.(queue := Without(s.queue, id), requests := s.requests[id := r]))
  {
    SpliceAtIndexRemoves(s.queue, id);
    WithoutRemoves(s.queue, id);
    var t := s.(queue := Without(s.queue, id), requests := s.requests[id := r]);
    assert PhaseIs(s, id, Queued);
    assert forall x :: x != id ==> (PhaseIs(t, x, Queued) <==> PhaseIs(s, x, Queued));
    assert forall x :: x != id && LeftTheQueue(s, x) ==> LeftTheQueue(t, x);
  }

  lemma {:induction false} ProceededKeepsInv(c: Config, s: State, id: RequestId, roll: nat)
    requires Inv(c, s) && PhaseIs(s, id, Running) && !s.requests[id].closed && !Holds(s.pool.inFlight, id)
    requires Enabled(c, s, Dispatch(s.requests[id].family, roll))
    ensures Inv(c, Proceeded(c, s, id, roll))
  {
    var r := s.requests[id];
    if r.family == c.providerFamily {
      if forall k :: k in s.pool.keys ==> k.isDisabled {
        assert !PhaseIs(s, id, Queued);
        UpdateKeepsInv(c, s, id, r.(ended := true, phase := Done));
      } else {
        var t := Proceeded(c, s, id, roll);
        AcquiredMovesTheSlot(s.pool.inFlight, s.pool.keys[roll].hash, id);
        GatedHoldKeepsCaps(c.caps, s.pool, roll, s.now, id);
        assert forall x :: LeftTheQueue(s, x) ==> LeftTheQueue(t, x);
        assert forall x :: PhaseIs(t, x, Queued) <==> PhaseIs(s, x, Queued);
      }
    }
  }

  lemma {:induction false} DispatchedKeepsInv(c: Config, s: State, family: string, roll: nat)
    requires Inv(c, s) && Enabled(c, s, Dispatch(family, roll))
    ensures Inv(c, Dispatched(c, s, family, roll))
    ensures Waiting(s, family) != [] ==> Dispatched(c, s, family, roll).queue == Without(s.queue, Pick(c, s, family))
  {
    if Waiting(s, family) != [] {
      PickIsTheLastMinimum(c, s, family);
      var id := Pick(c, s, family);
      RemovalKeepsInv(c, s, id, s.requests[id].(listening := false, queueOutTime := s.now, phase := Running));
      assert PhaseIs(s, id, Queued);
      ProceededKeepsInv(c, Dequeued(s, id), id, roll);
    }
  }

  lemma {:induction false} ClosedKeepsInv(c: Config, s: State, id: RequestId)
    requires Inv(c, s) && id in s.requests
    ensures Inv(c, Closed(c, s, id))
    ensures Closed(c, s, id).queue == Without(s.queue, id)
  {
    WithoutRemoves(s.queue, id);
    var r := s.requests[id];
    var closed := r.(ended := true, closed := true, listening := false);
    if id in s.queue {
      assert PhaseIs(s, id, Queued);
      RemovalKeepsInv(c, s, id, closed.(phase := Done));
      FreeingKeepsInv(c, s.(queue := Without(s.queue, id), requests := s.requests[id := closed.(phase := Done)]), id);
    } else {
      assert !PhaseIs(s, id, Queued);
      FreeingKeepsInv(c, s, id);
      UpdateKeepsInv(c, Freed(c, s, id), id, closed);
      assert c.caps.concurrency <= 0 ==> !Holds(s.pool.inFlight, id);
      if c.caps.concurrency <= 0 {
        UpdateKeepsInv(c, s, id, closed);
      }
    }
  }

  lemma {:induction false} KilledKeepsInv(c: Config, s: State, id: RequestId, sendable: bool)
    requires Inv(c, s) && id in s.queue
    ensures Inv(c, Killed(s, id, sendable))
    ensures forall x :: x in Killed(s, id, sendable).queue <==> x in s.queue && !(x == id && s.requests[id].ended)
  {
    WithoutRemoves(s.queue, id);
    var r := s.requests[id];
    RemovalKeepsInv(c, s, id, r.(phase := Done));
    var t := s.(requests := s.requests[id := r.(ended := true)]);
    assert forall x :: PhaseIs(t, x, Queued) <==> PhaseIs(s, x, Queued);
    assert forall x :: LeftTheQueue(s, x) ==> LeftTheQueue(t, x);
  }

  /** Killing the stale requests one by one never touches a request that is not on the list. */
  lemma {:induction false} KilledAllKeepsInv(c: Config, s: State, ids: seq<RequestId>, unsendable: set<RequestId>)
    requires Inv(c, s) && Distinct(ids) && forall id :: id in ids ==> id in s.queue
    ensures Inv(c, KilledAll(s, ids, unsendable)) && KillsExactly(s, KilledAll(s, ids, unsendable), ids, unsendable)
    decreases |ids|
  {
    if ids == [] {
    } else {
      var id := ids[0];
      assert ids == [id] + ids[1..];
      assert id in ids && PhaseIs(s, id, Queued);
      var t := Killed(s, id, id !in unsendable);
      KilledKeepsInv(c, s, id, id !in unsendable);
      assert id !in ids[1..];
      KilledAllKeepsInv(c, t, ids[1..], unsendable);
      OneMoreIsKilled(s, t, KilledAll(t, ids[1..], unsendable), id, ids[1..], unsendable);
    }
  }

  /** From `s` to `t`, those of `ids` that had ended have left the queue, and the sendable others have ended. */
  ghost predicate KillsExactly(s: State, t: State, ids: seq<RequestId>, unsendable: set<RequestId>) {
    && WellFormed(s) && WellFormed(t)
    && (forall id :: id in t.queue <==> id in s.queue && !(id in ids && s.requests[id].ended))
    && (forall id :: id in t.queue ==> t.requests[id].ended == (s.requests[id].ended || (id in ids && id !in unsendable)))
  }

  lemma {:induction false} OneMoreIsKilled(
    s: State, t: State, u: State, id: RequestId, rest: seq<RequestId>, unsendable: set<RequestId>)
    requires id in s.queue && id !in rest && WellFormed(s) && t == Killed(s, id, id !in unsendable)
    requires forall x :: x in t.queue <==> x in s.queue && !(x == id && s.requests[id].ended)
    requires KillsExactly(t, u, rest, unsendable)
    ensures KillsExactly(s, u, [id] + rest, unsendable)
  {
  }

  /** The handlers of an earlier attempt change nothing but the size and the end of a response. */
  lemma {:induction false} LateStepKeepsInv(c: Config, s: State, e: Event)
    requires Inv(c, s) && Enabled(c, s, e) && (e.LateCount? || e.LateEnd?)
    ensures Inv(c, Step(c, s, e))
    ensures Step(c, s, e).queue == s.queue
  {
    var t := Step(c, s, e);
    assert forall x, phase :: PhaseIs(t, x, phase) <==> PhaseIs(s, x, phase);
    assert forall x :: LeftTheQueue(s, x) ==> LeftTheQueue(t, x);
  }

  lemma {:induction false} QuietStepKeepsInv(c: Config, s: State, e: Event)
    requires Inv(c, s) && Enabled(c, s, e)
    requires e.Tick? || e.Arrive? || e.JoinTimeout? || e.End? || e.List? || e.KeysChanged?
    ensures Inv(c, Step(c, s, e))
  {
    var t := Step(c, s, e);
    if e.JoinTimeout? || e.End? {
      assert !PhaseIs(s, e.id, Queued);
      UpdateKeepsInv(c, s, e.id, s.requests[e.id].(ended := true, phase := Done));
    } else {
      assert forall x :: PhaseIs(t, x, Queued) <==> PhaseIs(s, x, Queued);
      assert forall x :: LeftTheQueue(s, x) ==> LeftTheQueue(t, x);
    }
  }

  lemma {:induction false} StepKeepsInv(c: Config, s: State, e: Event)
    requires Inv(c, s) && Enabled(c, s, e)
    ensures Inv(c, Step(c, s, e))
  {
    match e
    case Enqueue(id, interrupted, overloaded) => EnteredKeepsInv(c, s, id, interrupted, overloaded);
    case Joined(id) =>
      assert !PhaseIs(s, id, Queued) && !LeftTheQueue(s, id);
      PushKeepsInv(c, s, id);
    case Dispatch(family, roll) => DispatchedKeepsInv(c, s, family, roll);
    case Retry(id, delay, interrupted, overloaded) => RetriedKeepsInv(c, s, id, delay, interrupted, overloaded);
    case Close(id) => ClosedKeepsInv(c, s, id);
    case Clean(unsendable) => KilledAllKeepsInv(c, s, Stale(s), unsendable);
    case LateCount(_, _) => LateStepKeepsInv(c, s, e);
    case LateEnd(_) => LateStepKeepsInv(c, s, e);
    case _ => QuietStepKeepsInv(c, s, e);
  }

  // ----- Runs -----

  ghost predicate Initial(s: State) {
    s.queue == [] && s.requests == map[] && s.pool.windows == map[] && s.pool.inFlight == map[]
  }

  ghost predicate Next(c: Config, s: State, e: Event, t: State) {
    WellFormed(s) && Enabled(c, s, e) && t == Step(c, s, e)
  }

  /** State number `i + 1` follows from state number `i` by event number `i`. */
  ghost predicate Run(c: Config, ss: seq<State>, es: seq<Event>) {
    && |ss| == |es| + 1
    && Initial(ss[0])
    && forall i :: 0 <= i < |es| ==> Next(c, ss[i], es[i], ss[i + 1])
  }

  /**
   * In every reachable state the queue holds no request twice, holds exactly the
   * requests that wait, and no request it holds has a slot; every held slot
   * belongs to a dispatched request whose client is still connected; and
   * no key has more requests in flight than its cap allows.
   */
  lemma {:induction false} InvHoldsInEveryRun(c: Config, ss: seq<State>, es: seq<Event>, i: nat)
    requires Run(c, ss, es) && i <= |es|
    ensures Inv(c, ss[i])
  {
    if i == 0 {
    } else {
      InvHoldsInEveryRun(c, ss, es, i - 1);
      assert Next(c, ss[i - 1], es[i - 1], ss[i]);
      StepKeepsInv(c, ss[i - 1], es[i - 1]);
    }
  }

  /** With nothing in flight every slot is free. */
  lemma {:induction false} IdleMeansAllSlotsFree(c: Config, ss: seq<State>, es: seq<Event>, i: nat)
    requires Run(c, ss, es) && i <= |es|
    requires forall id :: LeftTheQueue(ss[i], id) ==> ss[i].requests[id].closed
    ensures ss[i].pool.inFlight == map[]
  {
    InvHoldsInEveryRun(c, ss, es, i);
    var slots := ss[i].pool.inFlight;
    if h :| h in slots {
      var id :| id in slots[h];
      assert Holds(slots, id);
      assert false;
    }
  }

  ghost predicate IsStale(s: State, id: RequestId) {
    id in s.queue && id in s.requests && s.now - s.requests[id].startTime > REAP_AFTER
  }

  ghost predicate HasEnded(s: State, id: RequestId) {
    id in s.requests && s.requests[id].ended
  }

  /**
   * In every reachable state the reaper drops exactly the stale requests whose
   * response has ended, and ends exactly the stale ones it can still answer; it
   * never drops a live one.
   */
  lemma {:induction false} ReaperDropsOnlyStaleEndedRequests(c: Config, s: State, unsendable: set<RequestId>)
    requires Inv(c, s)
    ensures forall id :: id in Cleaned(s, unsendable).queue <==> id in s.queue && !(IsStale(s, id) && HasEnded(s, id))
    ensures forall id :: id in Cleaned(s, unsendable).queue ==>
              (HasEnded(Cleaned(s, unsendable), id) <==> HasEnded(s, id) || (IsStale(s, id) && id !in unsendable))
  {
    assert forall id :: IsStale(s, id) <==> id in Stale(s);
    KilledAllKeepsInv(c, s, Stale(s), unsendable);
    var t := Cleaned(s, unsendable);
    assert forall id :: id in t.queue ==> PhaseIs(t, id, Queued);
    assert forall id :: id in s.queue ==> PhaseIs(s, id, Queued);
  }

  // ----- Requests that have ended in the queue -----

  /** A reaper pass ends `id` where it waits. */
  ghost predicate Reaps(s: State, e: Event, id: RequestId) {
    e.Clean? && IsStale(s, id) && id !in e.unsendable
  }

  /** What a dispatch does to the requests that stay in the queue: nothing. */
  lemma {:induction false} DispatchLeavesTheOthers(c: Config, s: State, family: string, roll: nat, id: RequestId)
    requires Inv(c, s) && Enabled(c, s, Dispatch(family, roll)) && id in Dispatched(c, s, family, roll).queue
    ensures id in s.queue && id in s.requests && id in Dispatched(c, s, family, roll).requests
    ensures Dispatched(c, s, family, roll).requests[id] == s.requests[id]
  {
    DispatchedKeepsInv(c, s, family, roll);
    if Waiting(s, family) != [] {
      PickIsTheLastMinimum(c, s, family);
      WithoutRemoves(s.queue, Pick(c, s, family));
    }
    assert PhaseIs(s, id, Queued);
  }

  /** The request's response ends where it waits: by the reaper, or by a handler of the attempt before its retry. */
  ghost predicate EndsWaiting(s: State, e: Event, id: RequestId) {
    id in s.queue && (Reaps(s, e, id) || (e.LateEnd? && e.id == id))
  }

  /** Among the requests in the queue of `t`, exactly those have ended that had ended in the queue before or end there now. */
  ghost predicate EndsOnlyWaiting(s: State, e: Event, t: State, id: RequestId) {
    HasEnded(t, id) <==> (id in s.queue && HasEnded(s, id)) || EndsWaiting(s, e, id)
  }

  lemma {:induction false} QueuedAndEndedAfter(c: Config, s: State, e: Event, id: RequestId)
    requires Inv(c, s) && Enabled(c, s, e) && id in Step(c, s, e).queue
    ensures EndsOnlyWaiting(s, e, Step(c, s, e), id)
  {
    if e.Dispatch? {
      DispatchLeavesTheOthers(c, s, e.family, e.roll, id);
    } else if e.Close? {
      CloseEndsNoneThatWaits(c, s, e.id, id);
    } else if e.Clean? {
      ReaperDropsOnlyStaleEndedRequests(c, s, e.unsendable);
    } else if e.Retry? || e.Enqueue? {
      EnteringEndsNoneThatWaits(c, s, e, id);
    } else {
      QuietStepEndsNoneThatWaits(c, s, e, id);
    }
  }

  lemma {:induction false} CloseEndsNoneThatWaits(c: Config, s: State, x: RequestId, id: RequestId)
    requires Inv(c, s) && x in s.requests && id in Closed(c, s, x).queue
    ensures id in s.queue && (HasEnded(Closed(c, s, x), id) <==> HasEnded(s, id))
  {
    ClosedKeepsInv(c, s, x);
    WithoutRemoves(s.queue, x);
  }

  lemma {:induction false} EnteringEndsNoneThatWaits(c: Config, s: State, e: Event, id: RequestId)
    requires Inv(c, s) && Enabled(c, s, e) && (e.Retry? || e.Enqueue?) && id in Step(c, s, e).queue
    ensures EndsOnlyWaiting(s, e, Step(c, s, e), id)
  {
    assert PhaseIs(s, e.id, Running) || PhaseIs(s, e.id, Fresh);
    var f := if e.Retry? then Failed(c, s, e.id, e.delay) else s;
    EnteredQueuesNoneThatEnded(c, s, f, e.id, e.interrupted, e.overloaded, id);
  }

  lemma {:induction false} QuietStepEndsNoneThatWaits(c: Config, s: State, e: Event, id: RequestId)
    requires Inv(c, s) && Enabled(c, s, e) && id in Step(c, s, e).queue
    requires !e.Dispatch? && !e.Close? && !e.Clean? && !e.Retry? && !e.Enqueue?
    ensures EndsOnlyWaiting(s, e, Step(c, s, e), id)
  {
    assert id in s.queue <==> PhaseIs(s, id, Queued);
  }

  /** `s` has become `f` by changes to request `x` alone, which is not in the queue. */
  lemma {:induction false} EnteredQueuesNoneThatEnded(
    c: Config, s: State, f: State, x: RequestId, interrupted: bool, overloaded: bool, id: RequestId)
    requires QueueInv(s) && f.queue == s.queue && x in f.requests && x !in s.queue
    requires forall y :: y in s.requests && y != x ==> y in f.requests && f.requests[y] == s.requests[y]
    requires WellFormed(f) && id in Entered(c, f, x, interrupted, overloaded).queue
    ensures HasEnded(Entered(c, f, x, interrupted, overloaded), id) <==> id in s.queue && HasEnded(s, id)
  {
    assert id in s.queue ==> PhaseIs(s, id, Queued);
  }

  /** At event `j` the response of `id` ended while it waited, and nothing has taken it out of the queue since. */
  ghost predicate EndedInPlace(ss: seq<State>, es: seq<Event>, j: nat, i: nat, id: RequestId)
    requires |ss| == |es| + 1 && i <= |es|
  {
    j < i && EndsWaiting(ss[j], es[j], id) && forall k :: j < k <= i ==> id in ss[k].queue
  }

  /** What has ended it in place before event `next` did so just before, or earlier and it has stayed since. */
  lemma {:induction false} EndedInPlaceOneLater(ss: seq<State>, es: seq<Event>, i: nat, next: nat, id: RequestId)
    requires |ss| == |es| + 1 && i + 1 == next <= |es| && id in ss[next].queue
    ensures (exists j: nat :: EndedInPlace(ss, es, j, next, id)) <==>
            EndsWaiting(ss[i], es[i], id) || (id in ss[i].queue && exists j: nat :: EndedInPlace(ss, es, j, i, id))
  {
    if EndsWaiting(ss[i], es[i], id) {
      assert EndedInPlace(ss, es, i, next, id);
    }
    if j: nat :| EndedInPlace(ss, es, j, i, id) {
      assert EndedInPlace(ss, es, j, next, id);
    }
    if j: nat :| EndedInPlace(ss, es, j, next, id) && j < i {
      assert EndedInPlace(ss, es, j, i, id);
    }
  }

  lemma {:induction false} QueuedHasEndedExactlyWhen(c: Config, ss: seq<State>, es: seq<Event>, i: nat, id: RequestId)
    requires Run(c, ss, es) && i <= |es| && id in ss[i].queue
    ensures HasEnded(ss[i], id) <==> exists j: nat :: EndedInPlace(ss, es, j, i, id)
  {
    if i == 0 {
    } else {
      var n := i - 1;
      assert Next(c, ss[n], es[n], ss[i]);
      InvHoldsInEveryRun(c, ss, es, n);
      QueuedAndEndedAfter(c, ss[n], es[n], id);
      if id in ss[n].queue {
        QueuedHasEndedExactlyWhen(c, ss, es, n, id);
      }
      EndedInPlaceOneLater(ss, es, n, i, id);
    }
  }

  /**
   * A dispatched request has already ended if and only if, while it waited, an earlier reaper pass found it
   * stale and still able to be answered, or a late handler of its last attempt failed, and neither a close nor
   * a second pass has removed it since.
   */
  lemma {:induction false} DispatchedHasEndedExactlyWhen(c: Config, ss: seq<State>, es: seq<Event>, i: nat)
    requires Run(c, ss, es) && i < |es| && es[i].Dispatch?
    requires WellFormed(ss[i]) && Waiting(ss[i], es[i].family) != []
    ensures var id := Pick(c, ss[i], es[i].family);
            HasEnded(ss[i], id) <==> exists j: nat :: EndedInPlace(ss, es, j, i, id)
  {
    PickIsTheLastMinimum(c, ss[i], es[i].family);
    QueuedHasEndedExactlyWhen(c, ss, es, i, Pick(c, ss[i], es[i].family));
  }

  /** `id` is the only request there is, and it waits. */
  ghost predicate Alone(s: State, id: RequestId, r: Request) {
    s.queue == [id] && s.requests == map[id := r] && r.phase == Queued
  }

  lemma {:induction false} LoneRequestEnters(c: Config, s: State, id: RequestId, r: Request)
    requires s.queue == [] && s.requests == map[id := r] && c.userLimit >= 1 && !r.ended && !r.streaming
    ensures Alone(Entered(c, s, id, false, false), id, r.(queueOutTime := 0, listening := true, phase := Queued))
    ensures Entered(c, s, id, false, false).now == s.now
  {
    assert Entered(c, s, id, false, false) == Push(s, id);
    assert s.requests[id := r.(queueOutTime := 0, listening := true, phase := Queued)] ==
           map[id := r.(queueOutTime := 0, listening := true, phase := Queued)];
  }

  lemma {:induction false} LoneRequestIsReaped(s: State, id: RequestId, r: Request)
    requires Alone(s, id, r) && !r.ended && s.now - r.startTime > REAP_AFTER
    ensures Cleaned(s, {}) == s.(requests := map[id := r.(ended := true)])
    ensures Alone(Cleaned(s, {}), id, r.(ended := true))
  {
    assert s.queue[1..] == [];
    assert Stale(s) == [id] && [id][1..] == [];
    assert s.requests[id := r.(ended := true)] == map[id := r.(ended := true)];
    var t := Killed(s, id, true);
    assert t == s.(requests := map[id := r.(ended := true)]);
    assert KilledAll(t, [], {}) == t && KilledAll(s, [id], {}) == KilledAll(t, [], {});
  }

  lemma {:induction false} LoneRequestIsDispatched(c: Config, s: State, id: RequestId, r: Request, roll: nat)
    requires Alone(s, id, r) && r.notBefore == None && r.family != c.providerFamily
    ensures Dispatched(c, s, r.family, roll).queue == []
    ensures PhaseIs(Dispatched(c, s, r.family, roll), id, Running)
  {
    assert s.queue[1..] == [];
    assert Waiting(s, r.family) == [id] && [id][1..] == [];
    assert Pick(c, s, r.family) == id && IndexOf(s.queue, id) == 0;
    assert Splice(s.queue, 0) == [];
  }

  lemma {:induction false} RunOneMore(c: Config, ss: seq<State>, es: seq<Event>, e: Event, t: State)
    requires Run(c, ss, es) && Next(c, ss[|es|], e, t)
    ensures Run(c, ss + [t], es + [e])
    ensures (ss + [t])[|es| + 1] == t && |es + [e]| == |es| + 1
  {
  }

  lemma {:induction false} LoneRequestArrives(c: Config, s: State, id: RequestId, r: Request)
    requires s.queue == [] && s.requests == map[] && c.userLimit >= 1
    requires r == Request("claude", "user", false, false, s.now, 1, 1, None, 0, 0, false, false, false, false, Fresh)
    ensures var arrived := s.(requests := map[id := r]);
            && Next(c, s, Arrive(id, "claude", "user", false, false, 1, 1), arrived)
            && Next(c, arrived, Enqueue(id, false, false), Entered(c, arrived, id, false, false))
  {
    assert s.requests[id := r] == map[id := r];
  }

  lemma {:induction false} LoneRequestIsReapedInARun(c: Config, s: State, id: RequestId, r: Request)
    requires Alone(s, id, r) && !r.ended && s.now - r.startTime > REAP_AFTER
    ensures Next(c, s, Clean({}), Cleaned(s, {}))
    ensures Alone(Cleaned(s, {}), id, r.(ended := true)) && HasEnded(Cleaned(s, {}), id)
  {
    LoneRequestIsReaped(s, id, r);
  }

  lemma {:induction false} DispatchIsNext(c: Config, s: State, family: string)
    requires WellFormed(s) && family != c.providerFamily
    ensures Next(c, s, Dispatch(family, 0), Dispatched(c, s, family, 0))
  {
  }

  /** A run in which the reaper ends a request and the next tick dispatches it all the same. */
  lemma {:induction false} EndedRequestIsDispatched(c: Config, pool: Pool, id: RequestId) returns (ss: seq<State>, es: seq<Event>)
    requires c.userLimit >= 1 && c.providerFamily != "claude" && pool.windows == map[] && pool.inFlight == map[]
    ensures Run(c, ss, es) && |es| == 5 && es[4] == Dispatch("claude", 0)
    ensures ss[4].queue == [id] && HasEnded(ss[4], id)
    ensures ss[5].queue == [] && PhaseIs(ss[5], id, Running)
  {
    var r := Request("claude", "user", false, false, 0, 1, 1, None, 0, 0, false, false, false, false, Fresh);
    var s0 := State(0, [], map[], pool);
    var s1 := s0.(requests := map[id := r]);
    LoneRequestArrives(c, s0, id, r);
    LoneRequestEnters(c, s1, id, r);
    var s2 := Entered(c, s1, id, false, false);
    var queued := r.(queueOutTime := 0, listening := true, phase := Queued);
    var s3 := s2.(now := s2.now + (REAP_AFTER + 1));
    LoneRequestIsReapedInARun(c, s3, id, queued);
    var s4 := Cleaned(s3, {});
    DispatchIsNext(c, s4, "claude");
    LoneRequestIsDispatched(c, s4, id, queued.(ended := true), 0);
    var s5 := Dispatched(c, s4, "claude", 0);
    ss, es := RunOfFive(c, s0, Arrive(id, "claude", "user", false, false, 1, 1), s1, Enqueue(id, false, false), s2,
                        Tick(REAP_AFTER + 1), s3, Clean({}), s4, Dispatch("claude", 0), s5);
  }

  lemma {:induction false} RunOfFive(
    c: Config, s0: State, e0: Event, s1: State, e1: Event, s2: State, e2: Event, s3: State, e3: Event, s4: State, e4: Event, s5: State)
    returns (ss: seq<State>, es: seq<Event>)
    requires Initial(s0) && Next(c, s0, e0, s1) && Next(c, s1, e1, s2) && Next(c, s2, e2, s3)
    requires Next(c, s3, e3, s4) && Next(c, s4, e4, s5)
    ensures Run(c, ss, es) && |es| == 5 && es[4] == e4 && ss[4] == s4 && ss[5] == s5
  {
    ss, es := [s0], [];
    RunOneMore(c, ss, es, e0, s1);
    ss, es := ss + [s1], es + [e0];
    RunOneMore(c, ss, es, e1, s2);
    ss, es := ss + [s2], es + [e1];
    RunOneMore(c, ss, es, e2, s3);
    ss, es := ss + [s3], es + [e2];
    RunOneMore(c, ss, es, e3, s4);
    ss, es := ss + [s4], es + [e3];
    RunOneMore(c, ss, es, e4, s5);
    ss, es := ss + [s5], es + [e4];
  }

  // ----- The per-minute budget -----

  /** The model listing draws a key that has spent its budget. */
  ghost predicate ListsSpentKey(c: Config, s: State, e: Event) {
    && e.List? && (exists k :: k in s.pool.keys && !k.isDisabled) && e.roll < |s.pool.keys|
    && RateLimitWait(c.caps, s.pool, s.pool.keys[e.roll].hash, s.now) != 0
  }

  lemma {:induction false} KilledAllKeepsPool(s: State, ids: seq<RequestId>, unsendable: set<RequestId>)
    requires forall id :: id in ids ==> id in s.requests
    ensures KilledAll(s, ids, unsendable).pool == s.pool
    decreases |ids|
  {
    if ids == [] {
    } else {
      KilledAllKeepsPool(Killed(s, ids[0], ids[0] !in unsendable), ids[1..], unsendable);
    }
  }

  lemma {:induction false} DispatchKeepsBudget(c: Config, s: State, family: string, roll: nat)
    requires Inv(c, s) && Enabled(c, s, Dispatch(family, roll)) && BudgetHeld(c.caps, s.pool)
    ensures BudgetHeld(c.caps, Dispatched(c, s, family, roll).pool)
  {
    if Waiting(s, family) != [] {
      PickIsTheLastMinimum(c, s, family);
      ProceedingKeepsBudget(c, Dequeued(s, Pick(c, s, family)), Pick(c, s, family), roll);
    }
  }

  lemma {:induction false} ProceedingKeepsBudget(c: Config, s: State, id: RequestId, roll: nat)
    requires SlotsValid(s.pool.inFlight) && SlotCapHeld(c.caps, s.pool) && BudgetHeld(c.caps, s.pool)
    requires id in s.requests && Enabled(c, s, Dispatch(s.requests[id].family, roll))
    ensures BudgetHeld(c.caps, Proceeded(c, s, id, roll).pool)
  {
    if s.requests[id].family == c.providerFamily && exists k :: k in s.pool.keys && !k.isDisabled {
      GatedHoldKeepsCaps(c.caps, s.pool, roll, s.now, id);
    }
  }

  /** Only the model listing can take a key over its budget, and only with a key that has none left. */
  lemma {:induction false} StepKeepsBudgetExactlyWhen(c: Config, s: State, e: Event)
    requires Inv(c, s) && Enabled(c, s, e) && BudgetHeld(c.caps, s.pool)
    ensures BudgetHeld(c.caps, Step(c, s, e).pool) <==> !ListsSpentKey(c, s, e)
    ensures ListsSpentKey(c, s, e) ==> forall k :: k in s.pool.keys ==> !Free(c.caps, s.pool, k, s.now)
  {
    match e
    case Dispatch(family, roll) => DispatchKeepsBudget(c, s, family, roll);
    case Clean(unsendable) => KilledAllKeepsPool(s, Stale(s), unsendable);
    case List(roll) =>
      if exists k :: k in s.pool.keys && !k.isDisabled {
        BudgetSurvivesExactlyWhen(c.caps, s.pool, roll, s.now);
      }
    case _ =>
  }

  lemma {:induction false} BudgetKeptUntil(c: Config, ss: seq<State>, es: seq<Event>, i: nat)
    requires Run(c, ss, es) && i <= |es| && forall j :: 0 <= j < i ==> !ListsSpentKey(c, ss[j], es[j])
    ensures BudgetHeld(c.caps, ss[i].pool)
  {
    if i == 0 {
    } else {
      BudgetKeptUntil(c, ss, es, i - 1);
      InvHoldsInEveryRun(c, ss, es, i - 1);
      assert Next(c, ss[i - 1], es[i - 1], ss[i]);
      StepKeepsBudgetExactlyWhen(c, ss[i - 1], es[i - 1]);
    }
  }

  /**
   * The per-minute cap holds throughout a run exactly when the model listing never draws a key that has
   * spent its budget, which it does only when no key at all is free. The queue itself never breaks the cap.
   */
  lemma {:induction false} BudgetHoldsExactlyWhenNoSpentKeyIsListed(c: Config, ss: seq<State>, es: seq<Event>)
    requires Run(c, ss, es)
    ensures (forall i :: 0 <= i <= |es| ==> BudgetHeld(c.caps, ss[i].pool)) <==>
            (forall i :: 0 <= i < |es| ==> !ListsSpentKey(c, ss[i], es[i]))
  {
    if forall i :: 0 <= i < |es| ==> !ListsSpentKey(c, ss[i], es[i]) {
      forall i | 0 <= i <= |es| ensures BudgetHeld(c.caps, ss[i].pool) {
        BudgetKeptUntil(c, ss, es, i);
      }
    }
    if j :| 0 <= j < |es| && ListsSpentKey(c, ss[j], es[j]) {
      if BudgetHeld(c.caps, ss[j].pool) {
        InvHoldsInEveryRun(c, ss, es, j);
        assert Next(c, ss[j], es[j], ss[j + 1]);
        StepKeepsBudgetExactlyWhen(c, ss[j], es[j]);
        assert !BudgetHeld(c.caps, ss[j + 1].pool);
      }
    }
  }

  // ----- The clock -----

  lemma {:induction false} KilledAllKeepsClock(s: State, ids: seq<RequestId>, unsendable: set<RequestId>)
    requires forall id :: id in ids ==> id in s.requests
    ensures KilledAll(s, ids, unsendable).now == s.now
    decreases |ids|
  {
    if ids == [] {
    } else {
      KilledAllKeepsClock(Killed(s, ids[0], ids[0] !in unsendable), ids[1..], unsendable);
    }
  }

  lemma {:induction false} StepKeepsClock(c: Config, s: State, e: Event)
    requires WellFormed(s) && Enabled(c, s, e)
    ensures s.now <= Step(c, s, e).now
  {
    match e
    case Clean(unsendable) => KilledAllKeepsClock(s, Stale(s), unsendable);
    case _ =>
  }

  lemma {:induction false} ClockIsMonotone(c: Config, ss: seq<State>, es: seq<Event>, i: nat, j: nat)
    requires Run(c, ss, es) && i <= j <= |es|
    ensures ss[i].now <= ss[j].now
    decreases j
  {
    if i == j {
    } else {
      ClockIsMonotone(c, ss, es, i, j - 1);
      assert Next(c, ss[j - 1], es[j - 1], ss[j]);
      StepKeepsClock(c, ss[j - 1], es[j - 1]);
    }
  }

  // ----- Overtaking -----

  ghost predicate SameIdentity(a: Request, b: Request) {
    && a.family == b.family && a.owner == b.owner && a.special == b.special
    && a.startTime == b.startTime && a.promptTokens == b.promptTokens
  }

  ghost predicate KeepsIdentities(s: State, t: State) {
    && s.requests.Keys <= t.requests.Keys
    && forall id :: id in s.requests ==> SameIdentity(s.requests[id], t.requests[id])
  }

  /** The same requests, none of which has changed its identity or its size. */
  ghost predicate KeepsRequests(s: State, t: State) {
    && t.requests.Keys == s.requests.Keys && KeepsIdentities(s, t)
    && forall id :: id in s.requests ==> t.requests[id].outputTokens == s.requests[id].outputTokens
  }

  lemma {:induction false} KeepingIsTransitive(s: State, t: State, u: State)
    requires KeepsRequests(s, t) && KeepsRequests(t, u)
    ensures KeepsRequests(s, u)
  {
  }

  lemma {:induction false} KilledKeepsRequests(s: State, id: RequestId, sendable: bool)
    requires id in s.requests
    ensures KeepsRequests(s, Killed(s, id, sendable))
  {
  }

  lemma {:induction false} KilledAllKeepsRequests(s: State, ids: seq<RequestId>, unsendable: set<RequestId>)
    requires forall id :: id in ids ==> id in s.requests
    ensures KeepsRequests(s, KilledAll(s, ids, unsendable))
    decreases |ids|
  {
    if ids == [] {
    } else {
      var t := Killed(s, ids[0], ids[0] !in unsendable);
      KilledKeepsRequests(s, ids[0], ids[0] !in unsendable);
      KilledAllKeepsRequests(t, ids[1..], unsendable);
      KeepingIsTransitive(s, t, KilledAll(t, ids[1..], unsendable));
    }
  }

  lemma {:induction false} EnteredKeepsRequests(c: Config, s: State, id: RequestId, interrupted: bool, overloaded: bool)
    requires WellFormed(s) && id in s.requests
    ensures KeepsRequests(s, Entered(c, s, id, interrupted, overloaded))
  {
  }

  lemma {:induction false} RetriedKeepsRequests(c: Config, s: State, id: RequestId, delay: nat, interrupted: bool, overloaded: bool)
    requires WellFormed(s) && id in s.requests
    ensures KeepsRequests(s, Retried(c, s, id, delay, interrupted, overloaded))
  {
    var t := Failed(c, s, id, delay);
    assert KeepsRequests(s, t);
    EnteredKeepsRequests(c, t, id, interrupted, overloaded);
    KeepingIsTransitive(s, t, Entered(c, t, id, interrupted, overloaded));
  }

  lemma {:induction false} DequeuedKeepsRequests(s: State, id: RequestId)
    requires id in s.requests
    ensures KeepsRequests(s, Dequeued(s, id)) && Dequeued(s, id).pool == s.pool
  {
  }

  lemma {:induction false} ProceededKeepsRequests(c: Config, s: State, id: RequestId, roll: nat)
    requires id in s.requests && (s.requests[id].family == c.providerFamily ==> RollFits(s, roll))
    ensures KeepsRequests(s, Proceeded(c, s, id, roll))
  {
  }

  lemma {:induction false} DispatchedKeepsRequests(c: Config, s: State, family: string, roll: nat)
    requires WellFormed(s) && Enabled(c, s, Dispatch(family, roll))
    ensures KeepsRequests(s, Dispatched(c, s, family, roll))
  {
    if Waiting(s, family) != [] {
      PickIsTheLastMinimum(c, s, family);
      var id := Pick(c, s, family);
      var t := Dequeued(s, id);
      DequeuedKeepsRequests(s, id);
      ProceededKeepsRequests(c, t, id, roll);
      KeepingIsTransitive(s, t, Proceeded(c, t, id, roll));
    }
  }

  lemma {:induction false} ClosedKeepsRequests(c: Config, s: State, id: RequestId)
    requires id in s.requests
    ensures KeepsRequests(s, Closed(c, s, id))
  {
  }

  lemma {:induction false} StepKeepsRequests(c: Config, s: State, e: Event)
    requires WellFormed(s) && Enabled(c, s, e) && !e.Arrive? && !e.LateCount?
    ensures KeepsRequests(s, Step(c, s, e))
  {
    match e
    case Enqueue(id, interrupted, overloaded) => EnteredKeepsRequests(c, s, id, interrupted, overloaded);
    case Dispatch(family, roll) => DispatchedKeepsRequests(c, s, family, roll);
    case Retry(id, delay, interrupted, overloaded) => RetriedKeepsRequests(c, s, id, delay, interrupted, overloaded);
    case Close(id) => ClosedKeepsRequests(c, s, id);
    case Clean(unsendable) => KilledAllKeepsRequests(s, Stale(s), unsendable);
    case _ =>
  }

  /**
   * No step, and so no retry, changes when a request started, whose it is or how long its prompt is; its output
   * tokens change only when a handler of an attempt that failed in mid-stream counts them.
   */
  lemma {:induction false} StepKeepsIdentities(c: Config, s: State, e: Event)
    requires WellFormed(s) && Enabled(c, s, e)
    ensures KeepsIdentities(s, Step(c, s, e))
    ensures forall id :: id in s.requests ==>
              Step(c, s, e).requests[id].outputTokens ==
              if e.LateCount? && e.id == id then e.outputTokens else s.requests[id].outputTokens
    ensures forall id :: id in Step(c, s, e).requests && id !in s.requests ==>
              e.Arrive? && e.id == id && Step(c, s, e).requests[id].startTime == s.now
              && Step(c, s, e).requests[id].owner == e.owner && Step(c, s, e).requests[id].special == e.special
              && Step(c, s, e).requests[id].family == e.family && Step(c, s, e).requests[id].promptTokens == e.promptTokens
  {
    if e.Arrive? || e.LateCount? {
    } else {
      StepKeepsRequests(c, s, e);
    }
  }

  lemma {:induction false} ArrivalOf(c: Config, ss: seq<State>, es: seq<Event>, i: nat, id: RequestId) returns (j: nat)
    requires Run(c, ss, es) && i <= |es| && id in ss[i].requests
    ensures j < i && es[j].Arrive? && es[j].id == id && ss[j].now == ss[i].requests[id].startTime
    ensures es[j].owner == ss[i].requests[id].owner && es[j].special == ss[i].requests[id].special
    ensures es[j].family == ss[i].requests[id].family && es[j].promptTokens == ss[i].requests[id].promptTokens
  {
    assert Next(c, ss[i - 1], es[i - 1], ss[i]);
    StepKeepsIdentities(c, ss[i - 1], es[i - 1]);
    if id in ss[i - 1].requests {
      j := ArrivalOf(c, ss, es, i - 1, id);
    } else {
      j := i - 1;
    }
  }

  lemma {:induction false} ScoreIsNoEarlierThanStart(c: Config, r: Request)
    requires c.factor >= 0.0
    ensures r.startTime as real <= Score(c, r)
  {
    var size := (r.promptTokens + r.outputTokens) as real;
    assert c.factor * size >= 0.0;
  }

  /** Arriving at `at` is no later than `r` arrived plus its tokens times the factor. */
  ghost predicate NoLaterThanScored(factor: real, r: Request, at: int) {
    at as real <= r.startTime as real + factor * (r.promptTokens + r.outputTokens) as real
  }

  /** Arrival and tokens together, `q` weighs no more than `r`. */
  ghost predicate WeighsNoMore(factor: real, q: Request, r: Request) {
    q.startTime as real + factor * (q.promptTokens + q.outputTokens) as real
    <= r.startTime as real + factor * (r.promptTokens + r.outputTokens) as real
  }

  lemma {:induction false} StartedByTheScore(c: Config, q: Request, r: Request)
    requires c.factor >= 0.0 && Score(c, q) <= Score(c, r)
    ensures WeighsNoMore(c.factor, q, r) && NoLaterThanScored(c.factor, r, q.startTime)
  {
    ScoreIsNoEarlierThanStart(c, q);
  }

  lemma {:induction false} PickHadStartedByTheScore(c: Config, s: State, family: string, r: RequestId)
    requires WellFormed(s) && c.factor >= 0.0 && WaitsFor(s, r, family)
    ensures Waiting(s, family) != [] && Pick(c, s, family) in s.queue
    ensures WeighsNoMore(c.factor, s.requests[Pick(c, s, family)], s.requests[r])
    ensures NoLaterThanScored(c.factor, s.requests[r], s.requests[Pick(c, s, family)].startTime)
  {
    assert r in Waiting(s, family);
    PickIsTheLastMinimum(c, s, family);
    StartedByTheScore(c, s.requests[Pick(c, s, family)], s.requests[r]);
  }

  /**
   * Event `i` takes `q` out of the queue before `r`: it weighs no more, and it
   * first arrived, at event `j`, no later than `r` weighs.
   */
  ghost predicate Overtakes(c: Config, ss: seq<State>, es: seq<Event>, i: nat, r: RequestId, q: RequestId, j: int)
    requires Run(c, ss, es) && i < |es| && r in ss[i].requests
  {
    && q in ss[i].queue && q in ss[i].requests && ss[i + 1].queue == Without(ss[i].queue, q)
    && WeighsNoMore(c.factor, ss[i].requests[q], ss[i].requests[r])
    && 0 <= j < i && es[j].Arrive? && es[j].id == q
    && NoLaterThanScored(c.factor, ss[i].requests[r], ss[j].now)
  }

  /**
   * While `r` waits and is not paused, a dispatch of its family picks `r` or a
   * request that weighs no more, and that request had first arrived by the
   * time that `r` weighs, however often it or anybody else was retried in between.
   */
  lemma {:induction false} NoUnboundedOvertaking(c: Config, ss: seq<State>, es: seq<Event>, i: nat, r: RequestId)
    requires Run(c, ss, es) && i < |es| && c.factor >= 0.0
    requires es[i].Dispatch?
    requires WaitsFor(ss[i], r, es[i].family)
    ensures exists q, j :: Overtakes(c, ss, es, i, r, q, j)
  {
    InvHoldsInEveryRun(c, ss, es, i);
    assert Next(c, ss[i], es[i], ss[i + 1]);
    var family := es[i].family;
    PickHadStartedByTheScore(c, ss[i], family, r);
    DispatchedKeepsInv(c, ss[i], family, es[i].roll);
    var q := Pick(c, ss[i], family);
    var j := ArrivalOf(c, ss, es, i, q);
    assert Overtakes(c, ss, es, i, r, q, j);
  }

  lemma {:induction false} ZeroTimes(factor: real, n: int)
    requires factor == 0.0
    ensures factor * n as real == 0.0
  {
  }

  lemma {:induction false} ScoreWithoutPunishment(c: Config, r: Request)
    requires c.factor == 0.0
    ensures Score(c, r) == r.startTime as real
  {
    ZeroTimes(c.factor, r.promptTokens + r.outputTokens);
  }

  /** With no punishment for size, a family is served in order of first arrival. */
  lemma {:induction false} WithoutPunishmentOldestFirst(c: Config, ss: seq<State>, es: seq<Event>, i: nat, r: RequestId)
    requires Run(c, ss, es) && i < |es| && c.factor == 0.0
    requires es[i].Dispatch?
    requires WaitsFor(ss[i], r, es[i].family)
    ensures exists q, j :: Overtakes(c, ss, es, i, r, q, j) && ss[j].now <= ss[i].requests[r].startTime
  {
    NoUnboundedOvertaking(c, ss, es, i, r);
    var q, j :| Overtakes(c, ss, es, i, r, q, j);
    ScoreWithoutPunishment(c, ss[i].requests[r]);
  }

  // ----- The limit on a user's places in the queue -----

  function Places(s: State, owner: string): nat
    requires WellFormed(s)
  {
    OwnerCount(s.queue, s.requests, owner)
  }

  lemma {:induction false} CountDependsOnOwners(q: seq<RequestId>, a: map<RequestId, Request>, b: map<RequestId, Request>, owner: string)
    requires forall id :: id in q ==> id in a && id in b && a[id].owner == b[id].owner
    ensures OwnerCount(q, a, owner) == OwnerCount(q, b, owner)
  {
    if q == [] {
    } else {
      CountDependsOnOwners(q[1..], a, b, owner);
    }
  }

  lemma {:induction false} CountOfPush(q: seq<RequestId>, id: RequestId, requests: map<RequestId, Request>, owner: string)
    requires id in requests && forall x :: x in q ==> x in requests
    ensures OwnerCount(q + [id], requests, owner) == OwnerCount(q, requests, owner) + (if requests[id].owner == owner then 1 else 0)
  {
    if q == [] {
      assert [id][1..] == [];
      assert q + [id] == [id];
    } else {
      CountOfPush(q[1..], id, requests, owner);
      assert (q + [id])[1..] == q[1..] + [id];
    }
  }

  lemma {:induction false} CountOfSplice(q: seq<RequestId>, i: int, requests: map<RequestId, Request>, owner: string)
    requires -1 <= i < |q| && forall x :: x in q ==> x in requests
    ensures forall x :: x in Splice(q, i) ==> x in q
    ensures OwnerCount(Splice(q, i), requests, owner) <= OwnerCount(q, requests, owner)
    decreases |q|
  {
    SpliceAddsNobody(q, i);
    if i == 0 || |q| == 1 {
      assert q != [] ==> Splice(q, i) == q[1..];
    } else if q != [] {
      var k := if i == -1 then |q| - 1 else i;
      assert Splice(q, i) == Splice(q, k);
      CountOfSplice(q[1..], k - 1, requests, owner);
      SpliceBehindTheHead(q, k - 1);
      CountOfFirst(q[0], Splice(q[1..], k - 1), requests, owner);
    }
  }

  lemma {:induction false} CountOfFirst(id: RequestId, rest: seq<RequestId>, requests: map<RequestId, Request>, owner: string)
    requires id in requests && forall x :: x in rest ==> x in requests
    ensures OwnerCount([id] + rest, requests, owner) == (if requests[id].owner == owner then 1 else 0) + OwnerCount(rest, requests, owner)
  {
    assert ([id] + rest)[1..] == rest;
  }

  lemma {:induction false} KilledKeepsOwners(s: State, id: RequestId, sendable: bool)
    requires WellFormed(s) && id in s.requests
    ensures var t := Killed(s, id, sendable);
            && WellFormed(t) && t.requests.Keys == s.requests.Keys
            && (forall x :: x in t.queue ==> x in s.queue)
            && (forall x :: x in s.requests ==> t.requests[x].owner == s.requests[x].owner)
  {
    SpliceAddsNobody(s.queue, IndexOf(s.queue, id));
  }

  lemma {:induction false} KilledAllAddsNoPlace(s: State, ids: seq<RequestId>, unsendable: set<RequestId>, owner: string)
    requires WellFormed(s) && forall id :: id in ids ==> id in s.requests
    ensures WellFormed(KilledAll(s, ids, unsendable))
    ensures Places(KilledAll(s, ids, unsendable), owner) <= Places(s, owner)
    decreases |ids|
  {
    if ids == [] {
    } else {
      var t := Killed(s, ids[0], ids[0] !in unsendable);
      KilledKeepsOwners(s, ids[0], ids[0] !in unsendable);
      CountOfSplice(s.queue, IndexOf(s.queue, ids[0]), s.requests, owner);
      CountDependsOnOwners(t.queue, s.requests, t.requests, owner);
      KilledAllAddsNoPlace(t, ids[1..], unsendable, owner);
    }
  }

  lemma {:induction false} PushAddsOnePlace(s: State, id: RequestId, owner: string)
    requires WellFormed(s) && id in s.requests
    ensures WellFormed(Push(s, id))
    ensures Places(Push(s, id), owner) == Places(s, owner) + (if s.requests[id].owner == owner then 1 else 0)
  {
    var t := Push(s, id);
    CountOfPush(s.queue, id, t.requests, owner);
    CountDependsOnOwners(s.queue, s.requests, t.requests, owner);
  }

  lemma {:induction false} EnteredRespectsLimit(c: Config, s: State, id: RequestId, interrupted: bool, overloaded: bool, owner: string)
    requires WellFormed(s) && id in s.requests
    requires s.requests[id].owner == owner ==> !s.requests[id].special
    ensures WellFormed(Entered(c, s, id, interrupted, overloaded))
    ensures Places(Entered(c, s, id, interrupted, overloaded), owner) <= CustomKeys.Max(Places(s, owner), c.userLimit)
  {
    var r := s.requests[id];
    var started := s.(requests := s.requests[id := r.(headersSent := true)]);
    PushAddsOnePlace(s, id, owner);
    PushAddsOnePlace(started, id, owner);
    CountDependsOnOwners(s.queue, s.requests, started.requests, owner);
    CountDependsOnOwners(s.queue, s.requests, Refused(s, id).requests, owner);
    CountDependsOnOwners(s.queue, s.requests, s.requests[id := r.(headersSent := true, phase := Joining)], owner);
  }

  lemma {:induction false} SmallerQueueHasNoMorePlaces(s: State, i: int, t: State, owner: string)
    requires WellFormed(s) && -1 <= i < |s.queue| && t.queue == Splice(s.queue, i)
    requires KeepsIdentities(s, t)
    ensures WellFormed(t) && Places(t, owner) <= Places(s, owner)
  {
    CountOfSplice(s.queue, i, s.requests, owner);
    CountDependsOnOwners(t.queue, s.requests, t.requests, owner);
  }

  lemma {:induction false} DispatchRespectsLimit(c: Config, s: State, family: string, roll: nat, owner: string)
    requires WellFormed(s) && Enabled(c, s, Dispatch(family, roll))
    ensures WellFormed(Dispatched(c, s, family, roll))
    ensures Places(Dispatched(c, s, family, roll), owner) <= Places(s, owner)
  {
    DispatchedKeepsRequests(c, s, family, roll);
    if Waiting(s, family) != [] {
      PickIsTheLastMinimum(c, s, family);
      var i := IndexOf(s.queue, Pick(c, s, family));
      assert Dispatched(c, s, family, roll).queue == Splice(s.queue, i);
      SmallerQueueHasNoMorePlaces(s, i, Dispatched(c, s, family, roll), owner);
    }
  }

  lemma {:induction false} CloseRespectsLimit(c: Config, s: State, id: RequestId, owner: string)
    requires WellFormed(s) && Enabled(c, s, Close(id))
    ensures WellFormed(Closed(c, s, id))
    ensures Places(Closed(c, s, id), owner) <= Places(s, owner)
  {
    var t := Closed(c, s, id);
    assert KeepsIdentities(s, t);
    if t.queue == s.queue {
      CountDependsOnOwners(s.queue, s.requests, t.requests, owner);
    } else {
      SmallerQueueHasNoMorePlaces(s, IndexOf(s.queue, id), t, owner);
    }
  }

  /** From `s` to `t`, `owner` has not come to hold more places than the limit allows, unless by joining late. */
  ghost predicate RespectsLimit(c: Config, s: State, e: Event, t: State, owner: string) {
    && WellFormed(s) && WellFormed(t)
    && (Places(t, owner) <= CustomKeys.Max(Places(s, owner), c.userLimit)
        || (e.Joined? && PlaceIsOf(s, e.id, owner) && Places(t, owner) == Places(s, owner) + 1))
  }

  ghost predicate PlaceIsOf(s: State, id: RequestId, owner: string) {
    id in s.requests && s.requests[id].owner == owner
  }

  lemma {:induction false} EnteringRespectsLimit(c: Config, s: State, e: Event, owner: string)
    requires WellFormed(s) && Enabled(c, s, e) && (e.Enqueue? || e.Retry?)
    requires forall id :: id in s.requests && s.requests[id].owner == owner ==> !s.requests[id].special
    ensures RespectsLimit(c, s, e, Step(c, s, e), owner)
  {
    var f := if e.Retry? then Failed(c, s, e.id, e.delay) else s;
    CountDependsOnOwners(s.queue, s.requests, f.requests, owner);
    EnteredRespectsLimit(c, f, e.id, e.interrupted, e.overloaded, owner);
  }

  lemma {:induction false} QuietStepRespectsLimit(c: Config, s: State, e: Event, owner: string)
    requires Inv(c, s) && Enabled(c, s, e)
    requires !e.Enqueue? && !e.Retry? && !e.Joined? && !e.Dispatch? && !e.Close? && !e.Clean?
    ensures RespectsLimit(c, s, e, Step(c, s, e), owner)
  {
    var t := Step(c, s, e);
    assert t.queue == s.queue;
    if e.Arrive? {
      assert e.id !in s.requests && forall id :: id in s.queue ==> t.requests[id] == s.requests[id];
    }
    CountDependsOnOwners(s.queue, s.requests, t.requests, owner);
  }

  /** Only a push that follows an interrupted await can take a user over the limit. */
  lemma {:induction false} StepRespectsLimit(c: Config, s: State, e: Event, owner: string)
    requires Inv(c, s) && Enabled(c, s, e)
    requires forall id :: id in s.requests && s.requests[id].owner == owner ==> !s.requests[id].special
    ensures RespectsLimit(c, s, e, Step(c, s, e), owner)
  {
    if e.Enqueue? || e.Retry? {
      EnteringRespectsLimit(c, s, e, owner);
    } else if e.Joined? {
      PushAddsOnePlace(s, e.id, owner);
    } else if e.Dispatch? {
      DispatchRespectsLimit(c, s, e.family, e.roll, owner);
    } else if e.Close? {
      CloseRespectsLimit(c, s, e.id, owner);
    } else if e.Clean? {
      KilledAllAddsNoPlace(s, Stale(s), e.unsendable, owner);
    } else {
      QuietStepRespectsLimit(c, s, e, owner);
    }
  }

  ghost predicate WithinLimit(c: Config, s: State, owner: string) {
    WellFormed(s) && Places(s, owner) <= c.userLimit
  }

  /** Event number `i` queues a request of `owner` whose await ended while the limit was already reached. */
  ghost predicate JoinsFullQueue(c: Config, ss: seq<State>, es: seq<Event>, owner: string, i: nat)
    requires Run(c, ss, es) && i < |es|
  {
    assert Next(c, ss[i], es[i], ss[i + 1]);
    es[i].Joined? && ss[i].requests[es[i].id].owner == owner && !(Places(ss[i], owner) < c.userLimit)
  }

  lemma {:induction false} LimitKeptWithoutLateJoins(c: Config, ss: seq<State>, es: seq<Event>, owner: string, i: nat)
    requires Run(c, ss, es) && i <= |es| && c.userLimit >= 0
    requires forall e :: e in es && e.Arrive? && e.owner == owner ==> !e.special
    requires forall j :: 0 <= j < i ==> !JoinsFullQueue(c, ss, es, owner, j)
    ensures WithinLimit(c, ss[i], owner)
  {
    if i == 0 {
    } else {
      LimitKeptWithoutLateJoins(c, ss, es, owner, i - 1);
      InvHoldsInEveryRun(c, ss, es, i - 1);
      var s := ss[i - 1];
      forall id | id in s.requests && s.requests[id].owner == owner ensures !s.requests[id].special {
        var j := ArrivalOf(c, ss, es, i - 1, id);
        assert es[j] in es;
      }
      assert Next(c, ss[i - 1], es[i - 1], ss[i]);
      StepRespectsLimit(c, ss[i - 1], es[i - 1], owner);
      assert !JoinsFullQueue(c, ss, es, owner, i - 1);
    }
  }

  /**
   * The check of `enqueue` comes before its await and the push after it. A user
   * who is not special stays within the limit throughout a run exactly when no
   * request of theirs finishes its join while their places are all taken.
   */
  lemma {:induction false} LimitHoldsExactlyWhenNoJoinIntoFullQueue(c: Config, ss: seq<State>, es: seq<Event>, owner: string)
    requires Run(c, ss, es) && c.userLimit >= 0
    requires forall e :: e in es && e.Arrive? && e.owner == owner ==> !e.special
    ensures (forall i :: 0 <= i <= |es| ==> WithinLimit(c, ss[i], owner)) <==>
            (forall i :: 0 <= i < |es| ==> !JoinsFullQueue(c, ss, es, owner, i))
  {
    if forall i :: 0 <= i < |es| ==> !JoinsFullQueue(c, ss, es, owner, i) {
      forall i | 0 <= i <= |es| ensures WithinLimit(c, ss[i], owner) {
        LimitKeptWithoutLateJoins(c, ss, es, owner, i);
      }
    }
    if j :| 0 <= j < |es| && JoinsFullQueue(c, ss, es, owner, j) {
      assert Next(c, ss[j], es[j], ss[j + 1]);
      PushAddsOnePlace(ss[j], es[j].id, owner);
      assert !WithinLimit(c, ss[j + 1], owner);
    }
  }

  /** Two streaming requests of one user both pass the check, and both get in. */
  lemma {:induction false} TwoInterleavedJoinsExceedTheLimit(c: Config, pool: Pool) returns (ss: seq<State>, es: seq<Event>)
    requires c.userLimit == 1 && pool.windows == map[] && pool.inFlight == map[]
    ensures Run(c, ss, es)
    ensures !WithinLimit(c, ss[|es|], "user")
  {
    es := [Arrive("a", "claude", "user", false, true, 1, 1), Arrive("b", "claude", "user", false, true, 1, 1),
           Enqueue("a", true, false), Enqueue("b", true, false), Joined("a"), Joined("b")];
    var s0 := State(0, [], map[], pool);
    var s1 := Step(c, s0, es[0]);
    var s2 := Step(c, s1, es[1]);
    var s3 := Step(c, s2, es[2]);
    var s4 := Step(c, s3, es[3]);
    var s5 := Step(c, s4, es[4]);
    var s6 := Step(c, s5, es[5]);
    PushAddsOnePlace(s4, "a", "user");
    PushAddsOnePlace(s5, "b", "user");
    ss, es := RunOfFive(c, s0, es[0], s1, es[1], s2, es[2], s3, es[3], s4, es[4], s5);
    RunOneMore(c, ss, es, Joined("b"), s6);
    ss, es := ss + [s6], es + [Joined("b")];
  }
}
