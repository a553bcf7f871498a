/**
 * The request queue: one array for every waiting request, split by model family
 * when a request is picked. Requests enter, wait, are dispatched, come back for
 * a retry, are reaped, or disappear when their client does.
 *
 * `State` and `Step` describe the queue together with the slots of one custom
 * provider as a transition system; the class at the end is the code's own form
 * of the same operations. Each event is one turn of the event loop.
 */
module RequestQueue {
  import opened Options
  import opened CustomKeys

  const REAP_AFTER := 5 * 60 * 1000

  /** Where a request's handler stands. */
  datatype Phase =
    | Fresh    // has arrived, its preprocessors are still running
    | Joining  // passed the checks of `enqueue`, waits at its await for the join message
    | Queued
    | Running  // dispatched to the upstream
    | Done     // answered or refused; only its connection may still be open

  datatype Request = Request(
    family: string, owner: string, special: bool, streaming: bool,
    startTime: int, promptTokens: nat, outputTokens: nat,
    notBefore: Option<int>, retryCount: nat, queueOutTime: int,
    headersSent: bool, ended: bool, closed: bool, listening: bool, phase: Phase)

  datatype Config = Config(userLimit: int, factor: real, providerFamily: string, caps: Caps)

  datatype State = State(now: int, queue: seq<RequestId>, requests: map<RequestId, Request>, pool: Pool)

  ghost predicate WellFormed(s: State) {
    forall id :: id in s.queue ==> id in s.requests
  }

  /** `id` waits for a dispatch of `family` and its retry is not being paused. */
  ghost predicate WaitsFor(s: State, id: RequestId, family: string) {
    id in s.queue && id in s.requests && Eligible(s.requests[id], family, s.now)
  }

  // ----- Array operations -----

  function IndexOf(q: seq<RequestId>, id: RequestId): (i: int)
    ensures -1 <= i < |q|
    ensures i == -1 <==> id !in q
    ensures i >= 0 ==> q[i] == id && id !in q[..i]
  {
    if q == [] then -1
    else if q[0] == id then 0
    else
      var i := IndexOf(q[1..], id);
      assert q == [q[0]] + q[1..];
      if i == -1 then -1
      else assert q[..i + 1] == [q[0]] + q[1..][..i]; i + 1
  }

  /** `splice(i, 1)`: a start of -1 counts from the end, so it drops the last element. */
  function Splice(q: seq<RequestId>, i: int): seq<RequestId>
    requires -1 <= i < |q|
  {
    if i >= 0 then q[..i] + q[i + 1..]
    else if q == [] then [] else q[..|q| - 1]
  }

  function Without(q: seq<RequestId>, id: RequestId): seq<RequestId> {
    if q == [] then []
    else if q[0] == id then Without(q[1..], id)
    else [q[0]] + Without(q[1..], id)
  }

  ghost predicate Distinct(q: seq<RequestId>) {
    forall i, j :: 0 <= i < j < |q| ==> q[i] != q[j]
  }

  lemma {:induction false} WithoutRemoves(q: seq<RequestId>, id: RequestId)
    ensures forall x :: x in Without(q, id) <==> x in q && x != id
    ensures Distinct(q) ==> Distinct(Without(q, id))
    ensures id !in q ==> Without(q, id) == q
  {
    if q == [] {
    } else {
      WithoutRemoves(q[1..], id);
      assert q == [q[0]] + q[1..];
      if Distinct(q) {
        assert Distinct(q[1..]);
        assert q[0] !in q[1..];
      }
    }
  }

  lemma {:induction false} SpliceAddsNobody(q: seq<RequestId>, i: int)
    requires -1 <= i < |q|
    ensures forall id :: id in Splice(q, i) ==> id in q
  {
  }

  lemma {:induction false} SpliceBehindTheHead(q: seq<RequestId>, i: int)
    requires q != [] && 0 <= i < |q| - 1
    ensures Splice(q, i + 1) == [q[0]] + Splice(q[1..], i)
  {
  }

  /** On an array that holds the request once, splicing at its index removes it and keeps the order. */
  lemma {:induction false} SpliceAtIndexRemoves(q: seq<RequestId>, id: RequestId)
    requires Distinct(q) && id in q
    ensures Splice(q, IndexOf(q, id)) == Without(q, id)
  {
    HeadIsNotInTheTail(q);
    if q[0] == id {
      WithoutRemoves(q[1..], id);
      SpliceOfTheHead(q);
    } else {
      SpliceAtIndexRemoves(q[1..], id);
      SpliceBehindTheHead(q, IndexOf(q[1..], id));
    }
  }

  lemma {:induction false} HeadIsNotInTheTail(q: seq<RequestId>)
    requires q != [] && Distinct(q)
    ensures q[0] !in q[1..] && Distinct(q[1..]) && forall x :: x in q <==> x == q[0] || x in q[1..]
  {
    assert q == [q[0]] + q[1..];
  }

  lemma {:induction false} SpliceOfTheHead(q: seq<RequestId>)
    requires q != []
    ensures Splice(q, 0) == q[1..]
  {
  }

  // ----- Picking the next request -----

  function Score(c: Config, r: Request): real {
    r.startTime as real + c.factor * (r.promptTokens + r.outputTokens) as real
  }

  predicate Eligible(r: Request, family: string, now: int) {
    r.family == family && (r.notBefore == None || r.notBefore.value <= now)
  }

  /** The requests of one family that are not paused, in queue order. */
  function Waiting(s: State, family: string): (ids: seq<RequestId>)
    requires WellFormed(s)
    ensures forall id :: id in ids <==> id in s.queue && Eligible(s.requests[id], family, s.now)
    decreases |s.queue|
  {
    if s.queue == [] then []
    else
      var rest := s.(queue := s.queue[1..]);
      assert s.queue == [s.queue[0]] + s.queue[1..];
      (if Eligible(s.requests[s.queue[0]], family, s.now) then [s.queue[0]] else []) + Waiting(rest, family)
  }

  function Better(c: Config, requests: map<RequestId, Request>, prev: RequestId, curr: RequestId): RequestId
    requires prev in requests && curr in requests
  {
    if Score(c, requests[prev]) < Score(c, requests[curr]) then prev else curr
  }

  function Reduce(c: Config, requests: map<RequestId, Request>, best: RequestId, rest: seq<RequestId>): RequestId
    requires best in requests && forall id :: id in rest ==> id in requests
    decreases rest
  {
    if rest == [] then best
    else Reduce(c, requests, Better(c, requests, best, rest[0]), rest[1..])
  }

  function Pick(c: Config, s: State, family: string): RequestId
    requires WellFormed(s) && Waiting(s, family) != []
  {
    var ids := Waiting(s, family);
    Reduce(c, s.requests, ids[0], ids[1..])
  }

  /** `ids[p]` has the lowest score, and every later element a strictly higher one. */
  ghost predicate LastMinimum(c: Config, requests: map<RequestId, Request>, ids: seq<RequestId>, p: int)
    requires forall id :: id in ids ==> id in requests
  {
    && 0 <= p < |ids|
    && (forall j :: 0 <= j < |ids| ==> Score(c, requests[ids[p]]) <= Score(c, requests[ids[j]]))
    && (forall j :: p < j < |ids| ==> Score(c, requests[ids[p]]) < Score(c, requests[ids[j]]))
  }

  lemma {:induction false} ReduceFindsTheLastMinimum(c: Config, requests: map<RequestId, Request>, best: RequestId, rest: seq<RequestId>)
    returns (p: int)
    requires best in requests && forall id :: id in rest ==> id in requests
    ensures LastMinimum(c, requests, [best] + rest, p)
    ensures ([best] + rest)[p] == Reduce(c, requests, best, rest)
    decreases rest
  {
    var all := [best] + rest;
    if rest == [] {
      p := 0;
    } else {
      var next := Better(c, requests, best, rest[0]);
      var tail := [next] + rest[1..];
      var t := ReduceFindsTheLastMinimum(c, requests, next, rest[1..]);
      assert forall j :: 2 <= j < |all| ==> all[j] == tail[j - 1];
      assert forall j :: 1 <= j < |tail| ==> tail[j] == all[j + 1];
      assert Score(c, requests[tail[t]]) <= Score(c, requests[tail[0]]);
      p := if t > 0 then t + 1 else if Score(c, requests[best]) < Score(c, requests[rest[0]]) then 0 else 1;
      assert all[p] == tail[t];
    }
  }

  lemma {:induction false} LastMinimumIsLowest(c: Config, requests: map<RequestId, Request>, ids: seq<RequestId>, p: int)
    requires forall id :: id in ids ==> id in requests
    requires LastMinimum(c, requests, ids, p)
    ensures forall id :: id in ids ==> Score(c, requests[ids[p]]) <= Score(c, requests[id])
  {
    forall id | id in ids ensures Score(c, requests[ids[p]]) <= Score(c, requests[id]) {
      var j :| 0 <= j < |ids| && ids[j] == id;
    }
  }

  /** The picked request has the lowest score of its family; among equals it is the one queued last. */
  lemma {:induction false} PickIsTheLastMinimum(c: Config, s: State, family: string)
    requires WellFormed(s) && Waiting(s, family) != []
    ensures exists p :: LastMinimum(c, s.requests, Waiting(s, family), p) && Waiting(s, family)[p] == Pick(c, s, family)
    ensures Pick(c, s, family) in s.queue && Eligible(s.requests[Pick(c, s, family)], family, s.now)
    ensures forall id :: id in s.queue && Eligible(s.requests[id], family, s.now) ==>
              Score(c, s.requests[Pick(c, s, family)]) <= Score(c, s.requests[id])
  {
    var ids := Waiting(s, family);
    assert ids == [ids[0]] + ids[1..];
    var p := ReduceFindsTheLastMinimum(c, s.requests, ids[0], ids[1..]);
    assert ids[p] in ids;
    LastMinimumIsLowest(c, s.requests, ids, p);
  }

  // ----- What each operation does -----

  function OwnerCount(q: seq<RequestId>, requests: map<RequestId, Request>, owner: string): nat
    requires forall id :: id in q ==> id in requests
  {
    if q == [] then 0
    else (if requests[q[0]].owner == owner then 1 else 0) + OwnerCount(q[1..], requests, owner)
  }

  function Push(s: State, id: RequestId): State
    requires id in s.requests
  {
    s.(queue := s.queue + [id],
       requests := s.requests[id := s.requests[id].(queueOutTime := 0, listening := true, phase := Queued)])
  }

  function Refused(s: State, id: RequestId): State
    requires id in s.requests
  {
    s.(requests := s.requests[id := s.requests[id].(phase := Done)])
  }

  /**
   * `enqueue`, up to its await. `interrupted` says that another handler runs during the await:
   * the client's buffer is full, so that the join message has to drain first, or other
   * work is waiting for the same turn. `overloaded` says that the proxy load is over its threshold.
   */
  function Entered(c: Config, s: State, id: RequestId, interrupted: bool, overloaded: bool): State
    requires WellFormed(s) && id in s.requests
  {
    var r := s.requests[id];
    if r.ended then Refused(s, id)
    else if OwnerCount(s.queue, s.requests, r.owner) >= c.userLimit && !r.special then Refused(s, id)
    else if r.streaming then
      var started := s.(requests := s.requests[id := r.(headersSent := true)]);
      if !r.headersSent && interrupted
      then s.(requests := s.requests[id := r.(headersSent := true, phase := Joining)])
      else Push(started, id)
    else if overloaded then Refused(s, id)
    else Push(s, id)
  }

  function Freed(c: Config, s: State, id: RequestId): State
    requires id in s.requests
  {
    if s.requests[id].family == c.providerFamily
    then s.(pool := s.pool.(inFlight := Released(s.pool.inFlight, id)))
    else s
  }

  /** A failed attempt, up to the second `enqueue`: the pause its handler set, the slot given back, the count. */
  function Failed(c: Config, s: State, id: RequestId, delay: nat): State
    requires id in s.requests
  {
    var r := s.requests[id];
    var paused := if delay > 0 then Some(s.now + delay) else r.notBefore;
    Freed(c, s, id).(requests := s.requests[id := r.(notBefore := paused, retryCount := r.retryCount + 1)])
  }

  function Retried(c: Config, s: State, id: RequestId, delay: nat, interrupted: bool, overloaded: bool): State
    requires WellFormed(s) && id in s.requests
  {
    Entered(c, Failed(c, s, id, delay), id, interrupted, overloaded)
  }

  /** `dequeue`, for the request it picked. */
  function Dequeued(s: State, id: RequestId): State
    requires id in s.requests
  {
    s.(queue := Splice(s.queue, IndexOf(s.queue, id)),
       requests := s.requests[id := s.requests[id].(listening := false, queueOutTime := s.now, phase := Running)])
  }

  /** `roll` is the number of a key, if there is an enabled one to draw. */
  ghost predicate RollFits(s: State, roll: nat) {
    (exists k :: k in s.pool.keys && !k.isDisabled) ==> roll < |s.pool.keys|
  }

  /** `proceed` up to the hold of the slot: a custom provider's request gets key number `roll`. */
  function Proceeded(c: Config, s: State, id: RequestId, roll: nat): (t: State)
    requires id in s.requests
    requires s.requests[id].family == c.providerFamily ==> RollFits(s, roll)
    ensures t.requests.Keys == s.requests.Keys && (RollFits(s, roll) ==> RollFits(t, roll))
  {
    var r := s.requests[id];
    if r.family != c.providerFamily then s
    else if forall k :: k in s.pool.keys ==> k.isDisabled
    then s.(requests := s.requests[id := r.(ended := true, phase := Done)])
    else
      var got := Got(c.caps, s.pool, roll, s.now);
      s.(pool := if c.caps.concurrency <= 0 then got
                 else got.(inFlight := Acquired(got.inFlight, s.pool.keys[roll].hash, id)))
  }

  /** One family's share of a `processQueue` tick whose lockout was zero. */
  function Dispatched(c: Config, s: State, family: string, roll: nat): State
    requires WellFormed(s)
    requires family == c.providerFamily ==> RollFits(s, roll)
  {
    if Waiting(s, family) == [] then s
    else
      PickIsTheLastMinimum(c, s, family);
      var id := Pick(c, s, family);
      Proceeded(c, Dequeued(s, id), id, roll)
  }

  // ----- A tick of the queue -----

  /** The families whose lockout is zero; `open` says so for those that other key providers serve. */
  function OpenFamilies(c: Config, pool: Pool, now: int, families: seq<string>, open: set<string>): seq<string> {
    if families == [] then []
    else
      (if IsOpen(c, pool, now, families[0], open) then [families[0]] else [])
      + OpenFamilies(c, pool, now, families[1..], open)
  }

  predicate IsOpen(c: Config, pool: Pool, now: int, family: string, open: set<string>) {
    if family == c.providerFamily then Lockout(c.caps, pool, now) == 0 else family in open
  }

  /** `dequeue` for one family. */
  function FamilyDequeued(c: Config, s: State, family: string): (t: State)
    requires WellFormed(s)
    ensures WellFormed(t) && t.requests.Keys == s.requests.Keys && t.pool == s.pool && t.now == s.now
  {
    if Waiting(s, family) == [] then s
    else
      PickIsTheLastMinimum(c, s, family);
      SpliceAddsNobody(s.queue, IndexOf(s.queue, Pick(c, s, family)));
      Dequeued(s, Pick(c, s, family))
  }

  /** The first loop of a tick, which only dequeues. */
  function AllDequeued(c: Config, s: State, families: seq<string>): (t: State)
    requires WellFormed(s)
    ensures WellFormed(t) && t.requests.Keys == s.requests.Keys && t.pool == s.pool && t.now == s.now
    decreases |families|
  {
    if families == [] then s else AllDequeued(c, FamilyDequeued(c, s, families[0]), families[1..])
  }

  function AllPicked(c: Config, s: State, families: seq<string>): (ids: seq<RequestId>)
    requires WellFormed(s)
    ensures forall id :: id in ids ==> id in s.requests
    decreases |families|
  {
    if families == [] then []
    else
      PickIn(c, s, families[0]) + AllPicked(c, FamilyDequeued(c, s, families[0]), families[1..])
  }

  function PickIn(c: Config, s: State, family: string): (ids: seq<RequestId>)
    requires WellFormed(s)
    ensures forall id :: id in ids ==> id in s.requests
  {
    if Waiting(s, family) == [] then []
    else PickIsTheLastMinimum(c, s, family); [Pick(c, s, family)]
  }

  /** The second loop, which lets the dequeued requests proceed. */
  function AllProceeded(c: Config, s: State, ids: seq<RequestId>, roll: nat): (t: State)
    requires (forall id :: id in ids ==> id in s.requests) && RollFits(s, roll)
    decreases |ids|
  {
    if ids == [] then s else AllProceeded(c, Proceeded(c, s, ids[0], roll), ids[1..], roll)
  }

  function Ticked(c: Config, s: State, families: seq<string>, roll: nat): State
    requires WellFormed(s) && RollFits(s, roll)
  {
    AllProceeded(c, AllDequeued(c, s, families), AllPicked(c, s, families), roll)
  }

  /** A selection outside the queue, as the model listing makes it. */
  function Listed(c: Config, s: State, roll: nat): State
    requires RollFits(s, roll)
  {
    if forall k :: k in s.pool.keys ==> k.isDisabled then s else s.(pool := Got(c.caps, s.pool, roll, s.now))
  }

  /** The response's close event: the abort listener if the request waits, and the slot's. */
  function Closed(c: Config, s: State, id: RequestId): State
    requires id in s.requests
  {
    var r := s.requests[id];
    var q := if r.listening && id in s.queue then Splice(s.queue, IndexOf(s.queue, id)) else s.queue;
    var phase := if r.phase == Queued then Done else r.phase;
    var dropped := s.(queue := q, requests := s.requests[id := r.(ended := true, closed := true, listening := false, phase := phase)]);
    if c.caps.concurrency > 0 then Freed(c, dropped, id) else dropped
  }

  function Killed(s: State, id: RequestId, sendable: bool): State
    requires id in s.requests
  {
    var r := s.requests[id];
    if r.ended
    then s.(queue := Splice(s.queue, IndexOf(s.queue, id)), requests := s.requests[id := r.(phase := Done)])
    else if sendable then s.(requests := s.requests[id := r.(ended := true)])
    else s
  }

  function Stale(s: State): (ids: seq<RequestId>)
    requires WellFormed(s)
    ensures forall id :: id in ids <==> id in s.queue && s.now - s.requests[id].startTime > REAP_AFTER
    ensures Distinct(s.queue) ==> Distinct(ids)
    decreases |s.queue|
  {
    if s.queue == [] then []
    else
      assert s.queue == [s.queue[0]] + s.queue[1..];
      var rest := Stale(s.(queue := s.queue[1..]));
      if s.now - s.requests[s.queue[0]].startTime > REAP_AFTER
      then assert Distinct(s.queue) ==> s.queue[0] !in s.queue[1..] && Distinct(s.queue[1..]); [s.queue[0]] + rest
      else assert Distinct(s.queue) ==> Distinct(s.queue[1..]); rest
  }

  function KilledAll(s: State, ids: seq<RequestId>, unsendable: set<RequestId>): State
    requires forall id :: id in ids ==> id in s.requests
    decreases |ids|
  {
    if ids == [] then s
    else KilledAll(Killed(s, ids[0], ids[0] !in unsendable), ids[1..], unsendable)
  }

  /** `cleanQueue`. `unsendable` are the requests whose error message fails to send. */
  function Cleaned(s: State, unsendable: set<RequestId>): State
    requires WellFormed(s)
  {
    KilledAll(s, Stale(s), unsendable)
  }

  // ----- The transition system -----

  datatype Event =
    | Tick(elapsed: nat)
    | Arrive(id: RequestId, family: string, owner: string, special: bool, streaming: bool, promptTokens: nat, outputTokens: nat)
    | Enqueue(id: RequestId, interrupted: bool, overloaded: bool)
    | Joined(id: RequestId)
    | JoinTimeout(id: RequestId)
    | Dispatch(family: string, roll: nat)
    | Retry(id: RequestId, delay: nat, interrupted: bool, overloaded: bool)
    | End(id: RequestId)
    | LateCount(id: RequestId, outputTokens: nat)  // the handlers of an attempt that failed in mid-stream go on
    | LateEnd(id: RequestId)                       // after the retry: they count its tokens, or fail and end the response
    | Close(id: RequestId)
    | Clean(unsendable: set<RequestId>)
    | List(roll: nat)              // a key for the model listing, which does not wait for a zero lockout
    | KeysChanged(keys: seq<Key>)  // rate limited, disabled, rechecked

  ghost predicate PhaseIs(s: State, id: RequestId, phase: Phase) {
    id in s.requests && s.requests[id].phase == phase
  }

  ghost predicate LeftTheQueue(s: State, id: RequestId) {
    PhaseIs(s, id, Running) || PhaseIs(s, id, Done)
  }

  ghost predicate WasRetried(s: State, id: RequestId) {
    id in s.requests && s.requests[id].retryCount > 0
  }

  ghost predicate Enabled(c: Config, s: State, e: Event) {
    match e
    case Tick(_) => true
    case Arrive(id, _, _, _, _, _, _) => id !in s.requests
    case Enqueue(id, _, _) => PhaseIs(s, id, Fresh)
    case Joined(id) => PhaseIs(s, id, Joining) && !s.requests[id].ended
    case JoinTimeout(id) => PhaseIs(s, id, Joining)
    case Dispatch(family, roll) =>
      family == c.providerFamily ==>
        && Lockout(c.caps, s.pool, s.now) == 0
        && ((exists k :: k in s.pool.keys && !k.isDisabled) ==> Candidate(c.caps, s.pool, roll, s.now))
    case Retry(id, _, _, _) => PhaseIs(s, id, Running)
    case End(id) => LeftTheQueue(s, id)
    case LateCount(id, _) => WasRetried(s, id)
    case LateEnd(id) => WasRetried(s, id)
    case Close(id) => id in s.requests && !s.requests[id].closed
    case Clean(_) => true
    case List(roll) => (exists k :: k in s.pool.keys && !k.isDisabled) ==> Candidate(c.caps, s.pool, roll, s.now)
    case KeysChanged(_) => true
  }

  ghost function Step(c: Config, s: State, e: Event): State
    requires WellFormed(s) && Enabled(c, s, e)
  {
    match e
    case Tick(elapsed) => s.(now := s.now + elapsed)
    case Arrive(id, family, owner, special, streaming, promptTokens, outputTokens) =>
      s.(requests := s.requests[id := Request(family, owner, special, streaming, s.now, promptTokens, outputTokens,
                                              None, 0, 0, false, false, false, false, Fresh)])
    case Enqueue(id, interrupted, overloaded) => Entered(c, s, id, interrupted, overloaded)
    case Joined(id) => Push(s, id)
    case JoinTimeout(id) => s.(requests := s.requests[id := s.requests[id].(ended := true, phase := Done)])
    case Dispatch(family, roll) => Dispatched(c, s, family, roll)
    case Retry(id, delay, interrupted, overloaded) => Retried(c, s, id, delay, interrupted, overloaded)
    case End(id) => s.(requests := s.requests[id := s.requests[id].(ended := true, phase := Done)])
    case LateCount(id, outputTokens) => s.(requests := s.requests[id := s.requests[id].(outputTokens := outputTokens)])
    case LateEnd(id) => s.(requests := s.requests[id := s.requests[id].(ended := true)])
    case Close(id) => Closed(c, s, id)
    case Clean(unsendable) => Cleaned(s, unsendable)
    case List(roll) => Listed(c, s, roll)
    case KeysChanged(keys) => s.(pool := s.pool.(keys := keys))
  }

  // ----- What every step keeps -----

  ghost predicate QueueInv(s: State) {
    && Distinct(s.queue)
    && (forall id :: id in s.queue <==> PhaseIs(s, id, Queued))
    && (forall id :: id in s.requests && s.requests[id].phase == Queued ==> s.requests[id].listening && !s.requests[id].closed)
    && (forall id :: id in s.requests && s.requests[id].closed ==> s.requests[id].ended)
  }

  /** Every held slot belongs to a request of the provider that is out of the queue and still connected. */
  ghost predicate SlotInv(c: Config, s: State) {
    && SlotsValid(s.pool.inFlight)
    && (forall id :: Holds(s.pool.inFlight, id) ==>
          && LeftTheQueue(s, id)
          && !s.requests[id].closed
          && s.requests[id].family == c.providerFamily
          && c.caps.concurrency > 0)
  }

  ghost predicate Inv(c: Config, s: State) {
    QueueInv(s) && SlotInv(c, s) && SlotCapHeld(c.caps, s.pool)
  }

  ghost predicate DifferentFamilies(ids: seq<RequestId>, requests: map<RequestId, Request>)
    requires forall id :: id in ids ==> id in requests
  {
    forall j, k :: 0 <= j < k < |ids| ==> requests[ids[j]].family != requests[ids[k]].family
  }

  ghost predicate FamiliesAmong(ids: seq<RequestId>, requests: map<RequestId, Request>, families: seq<string>, n: nat)
    requires (forall id :: id in ids ==> id in requests) && n <= |families|
  {
    forall k :: 0 <= k < |ids| ==> IsAmong(requests[ids[k]].family, families, n)
  }

  ghost predicate IsAmong(family: string, families: seq<string>, n: nat)
    requires n <= |families|
  {
    exists i :: 0 <= i < n && families[i] == family
  }

  lemma {:induction false} OneMoreFamily(
    ids: seq<RequestId>, a: map<RequestId, Request>, more: seq<RequestId>, b: map<RequestId, Request>, families: seq<string>, i: nat)
    requires i < |families| && forall m, n :: 0 <= m < n < |families| ==> families[m] != families[n]
    requires forall id :: id in ids ==> id in a
    requires forall id :: id in a ==> id in b && b[id].family == a[id].family
    requires |ids| <= |more| <= |ids| + 1 && more[..|ids|] == ids
    requires forall k :: |ids| <= k < |more| ==> more[k] in b && b[more[k]].family == families[i]
    requires FamiliesAmong(ids, a, families, i) && DifferentFamilies(ids, a)
    ensures forall id :: id in more ==> id in b
    ensures FamiliesAmong(more, b, families, i + 1) && DifferentFamilies(more, b)
  {
    forall k | 0 <= k < |more|
      ensures more[k] in b && (k < |ids| ==> more[k] == ids[k] && ids[k] in a && b[more[k]].family == a[ids[k]].family)
    {
      if k < |ids| {
        assert more[..|ids|][k] == ids[k] && ids[k] in ids;
      }
    }
    forall k | 0 <= k < |more| ensures IsAmong(b[more[k]].family, families, i + 1) {
      if k < |ids| {
        assert IsAmong(a[ids[k]].family, families, i);
      } else {
        assert families[i] == b[more[k]].family;
      }
    }
    forall j, k | 0 <= j < k < |more| ensures b[more[j]].family != b[more[k]].family {
      if k == |ids| {
        assert IsAmong(a[ids[j]].family, families, i);
      }
    }
  }

  lemma {:induction false} ProceededKeepsFamilies(c: Config, s: State, id: RequestId, roll: nat)
    requires id in s.requests && RollFits(s, roll)
    ensures var t := Proceeded(c, s, id, roll);
            && (forall x :: x in s.requests ==> x in t.requests && t.requests[x].family == s.requests[x].family)
            && (s.requests[id].family != c.providerFamily ==> t == s)
  {
  }

  /** Among the requests from number `i` on, one is the provider's. */
  ghost predicate ProviderLeft(c: Config, ids: seq<RequestId>, requests: map<RequestId, Request>, i: nat)
    requires forall id :: id in ids ==> id in requests
  {
    exists k :: i <= k < |ids| && requests[ids[k]].family == c.providerFamily
  }

  /** The provider's request is the last that needs its keys as they were. */
  lemma {:induction false} OneLessToProceed(c: Config, s: State, ids: seq<RequestId>, i: nat, roll: nat)
    requires i < |ids| && (forall id :: id in ids ==> id in s.requests) && RollFits(s, roll)
    requires DifferentFamilies(ids, s.requests)
    ensures var t := Proceeded(c, s, ids[i], roll);
            && (forall id :: id in ids ==> id in t.requests) && RollFits(t, roll) && DifferentFamilies(ids, t.requests)
            && (ProviderLeft(c, ids, t.requests, i + 1) ==> t.pool == s.pool && ProviderLeft(c, ids, s.requests, i))
    ensures s.requests[ids[i]].family == c.providerFamily ==> ProviderLeft(c, ids, s.requests, i)
  {
    ProceededKeepsFamilies(c, s, ids[i], roll);
    var t := Proceeded(c, s, ids[i], roll);
    assert forall k :: 0 <= k < |ids| ==> ids[k] in ids && t.requests[ids[k]].family == s.requests[ids[k]].family;
  }

  lemma {:induction false} AllProceededStep(c: Config, s: State, ids: seq<RequestId>, i: nat, roll: nat)
    requires i < |ids| && (forall id :: id in ids ==> id in s.requests) && RollFits(s, roll)
    ensures AllProceeded(c, s, ids[i..], roll) == AllProceeded(c, Proceeded(c, s, ids[i], roll), ids[i + 1..], roll)
  {
    assert ids[i..][1..] == ids[i + 1..];
  }

  lemma {:induction false} KilledAllStep(s: State, ids: seq<RequestId>, i: nat, unsendable: set<RequestId>)
    requires i < |ids| && forall id :: id in ids ==> id in s.requests
    ensures KilledAll(s, ids[i..], unsendable) == KilledAll(Killed(s, ids[i], ids[i] !in unsendable), ids[i + 1..], unsendable)
  {
    assert ids[i..][1..] == ids[i + 1..];
  }

  lemma {:induction false} OpenStep(c: Config, pool: Pool, now: int, families: seq<string>, i: nat, open: set<string>)
    requires i < |families|
    ensures OpenFamilies(c, pool, now, families[i..], open) ==
              var rest := OpenFamilies(c, pool, now, families[i + 1..], open);
              if IsOpen(c, pool, now, families[i], open) then [families[i]] + rest else rest
  {
    assert families[i..][1..] == families[i + 1..];
  }

  lemma {:induction false} OpenFirst(family: string, rest: seq<string>)
    ensures ([family] + rest)[0] == family && ([family] + rest)[1..] == rest
  {
  }

  /** From `s` on, the families before `left` have been dequeued, which has led to `t` and picked `reqs`. */
  ghost predicate DequeuedSoFar(c: Config, s: State, gated: seq<string>, t: State, reqs: seq<RequestId>, left: seq<string>) {
    && WellFormed(s) && WellFormed(t)
    && AllDequeued(c, t, left) == AllDequeued(c, s, gated)
    && reqs + AllPicked(c, t, left) == AllPicked(c, s, gated)
  }

  lemma {:induction false} DequeuedOneMore(
    c: Config, s: State, gated: seq<string>, t: State, reqs: seq<RequestId>, family: string, rest: seq<string>)
    requires DequeuedSoFar(c, s, gated, t, reqs, [family] + rest)
    ensures DequeuedSoFar(c, s, gated, FamilyDequeued(c, t, family), reqs + PickIn(c, t, family), rest)
  {
    OpenFirst(family, rest);
    FirstDequeued(c, t, [family] + rest);
    PickedInTurn(reqs, PickIn(c, t, family), AllPicked(c, FamilyDequeued(c, t, family), rest));
  }

  lemma {:induction false} FirstDequeued(c: Config, s: State, families: seq<string>)
    requires WellFormed(s) && families != []
    ensures AllDequeued(c, s, families) == AllDequeued(c, FamilyDequeued(c, s, families[0]), families[1..])
    ensures AllPicked(c, s, families) == PickIn(c, s, families[0]) + AllPicked(c, FamilyDequeued(c, s, families[0]), families[1..])
  {
  }

  lemma {:induction false} PickedInTurn(a: seq<RequestId>, b: seq<RequestId>, c: seq<RequestId>)
    ensures (a + b) + c == a + (b + c)
  {
  }

  lemma {:induction false} PickInItsFamily(c: Config, s: State, family: string)
    requires WellFormed(s)
    ensures |PickIn(c, s, family)| <= 1
    ensures forall id :: id in PickIn(c, s, family) ==> s.requests[id].family == family
  {
    if Waiting(s, family) != [] {
      PickIsTheLastMinimum(c, s, family);
    }
  }

  // ----- The queue object -----

  class Scheduler {
    const config: Config
    const provider: CustomKeyProvider
    var queue: seq<RequestId>
    var requests: map<RequestId, Request>

    ghost predicate Valid()
      reads this, provider
    {
      && provider.Valid()
      && provider.caps == config.caps
      && forall id :: id in queue ==> id in requests
    }

    function Snapshot(now: int): State
      reads this, provider
    {
      State(now, queue, requests, provider.Contents())
    }

    constructor (config: Config, provider: CustomKeyProvider)
      requires provider.Valid() && provider.caps == config.caps
      ensures Valid() && this.config == config && this.provider == provider
      ensures queue == [] && requests == map[]
    {
      this.config := config;
      this.provider := provider;
      queue := [];
      requests := map[];
    }

    method PushRequest(id: RequestId)
      requires Valid() && id in requests
      modifies this
      ensures Valid()
      ensures forall now :: Snapshot(now) == Push(old(Snapshot(now)), id)
    {
      queue := queue + [id];
      requests := requests[id := requests[id].(queueOutTime := 0, listening := true, phase := Queued)];
    }

    /** Returns without pushing when the request is refused or has to wait for its join message to drain. */
    method Enqueue(id: RequestId, interrupted: bool, overloaded: bool)
      requires Valid() && id in requests
      modifies this
      ensures Valid()
      ensures forall now :: Snapshot(now) == Entered(config, old(Snapshot(now)), id, interrupted, overloaded)
    {
      var r := requests[id];
      if r.ended {
        requests := requests[id := r.(phase := Done)];
        return;
      }
      var enqueuedRequestCount := OwnerCount(queue, requests, r.owner);
      if enqueuedRequestCount >= config.userLimit && !r.special {
        requests := requests[id := r.(phase := Done)];
        return;
      }
      if r.streaming {
        requests := requests[id := r.(headersSent := true)];
        if !r.headersSent && interrupted {
          requests := requests[id := requests[id].(phase := Joining)];
          return;
        }
      } else if overloaded {
        requests := requests[id := r.(phase := Done)];
        return;
      }
      PushRequest(id);
    }

    method FreeSlot(id: RequestId, now: int)
      requires Valid() && id in requests
      modifies provider`inFlight
      ensures Valid() && Snapshot(now) == Freed(config, old(Snapshot(now)), id)
    {
      if requests[id].family == config.providerFamily {
        provider.Release(id);
      }
    }

    method FailAttempt(id: RequestId, now: int, delay: nat)
      requires Valid() && id in requests
      modifies this, provider`inFlight
      ensures Valid() && id in requests
      ensures Snapshot(now) == Failed(config, old(Snapshot(now)), id, delay)
    {
      var r := requests[id];
      if delay > 0 {
        r := r.(notBefore := Some(now + delay));
      }
      FreeSlot(id, now);
      requests := requests[id := r.(retryCount := r.retryCount + 1)];
    }

    method ReenqueueRequest(id: RequestId, now: int, delay: nat, interrupted: bool, overloaded: bool)
      requires Valid() && id in requests
      modifies this, provider`inFlight
      ensures Valid()
      ensures Snapshot(now) == Retried(config, old(Snapshot(now)), id, delay, interrupted, overloaded)
    {
      FailAttempt(id, now, delay);
      Enqueue(id, interrupted, overloaded);
    }

    /** Keeps the better of the best so far and the next candidate, like the code's reduce. */
    method LowestScore(modelQueue: seq<RequestId>) returns (id: RequestId)
      requires modelQueue != [] && forall r :: r in modelQueue ==> r in requests
      ensures id == Reduce(config, requests, modelQueue[0], modelQueue[1..])
    {
      id := modelQueue[0];
      for i := 1 to |modelQueue|
        invariant id in requests
        invariant Reduce(config, requests, id, modelQueue[i..]) == Reduce(config, requests, modelQueue[0], modelQueue[1..])
      {
        assert modelQueue[i..] == [modelQueue[i]] + modelQueue[i + 1..];
        if !(Score(config, requests[id]) < Score(config, requests[modelQueue[i]])) {
          id := modelQueue[i];
        }
      }
    }

    method Dequeue(family: string, now: int) returns (picked: Option<RequestId>)
      requires Valid()
      modifies this
      ensures Valid()
      ensures picked == None <==> old(Waiting(Snapshot(now), family)) == []
      ensures picked == None ==> Snapshot(now) == old(Snapshot(now))
      ensures picked.Some? ==>
                && picked.value in old(queue)
                && picked.value == old(Pick(config, Snapshot(now), family))
                && Snapshot(now) == Dequeued(old(Snapshot(now)), picked.value)
    {
      var modelQueue := Waiting(Snapshot(now), family);
      if |modelQueue| == 0 {
        return None;
      }
      PickIsTheLastMinimum(config, Snapshot(now), family);
      var id := LowestScore(modelQueue);
      queue := Splice(queue, IndexOf(queue, id));
      requests := requests[id := requests[id].(listening := false, queueOutTime := now, phase := Running)];
      picked := Some(id);
    }

    /** One family of a queue tick: dequeue, then let the request proceed up to the hold of its slot. */
    method ProcessFamily(family: string, now: int, roll: nat)
      requires Valid()
      requires family == config.providerFamily && (exists k :: k in provider.keys && !k.isDisabled) ==>
                 Candidate(config.caps, provider.Contents(), roll, now)
      modifies this, provider
      ensures Valid()
      ensures Snapshot(now) == Dispatched(config, old(Snapshot(now)), family, roll)
    {
      var picked := Dequeue(family, now);
      if picked.None? {
        return;
      }
      var id := picked.value;
      PickIsTheLastMinimum(config, old(Snapshot(now)), family);
      Proceed(id, now, roll);
    }

    /**
     * A tick. The lockouts are read and the requests dequeued for every family before the first of
     * them proceeds; `roll` is the key that will be drawn if one of them is the provider's.
     */
    method ProcessQueue(families: seq<string>, open: set<string>, now: int, roll: nat)
      requires Valid() && forall i, j :: 0 <= i < j < |families| ==> families[i] != families[j]
      requires (exists k :: k in provider.keys && !k.isDisabled) ==> Candidate(config.caps, provider.Contents(), roll, now)
      modifies this, provider
      ensures Valid()
      ensures Snapshot(now) == Ticked(config, old(Snapshot(now)),
                                      OpenFamilies(config, old(provider.Contents()), now, families, open), roll)
    {
      var reqs := DequeueOpen(families, open, now);
      ProceedAll(reqs, now, roll);
    }

    /** At most one of the requests is the provider's. */
    method ProceedAll(reqs: seq<RequestId>, now: int, roll: nat)
      requires Valid() && forall id :: id in reqs ==> id in requests
      requires DifferentFamilies(reqs, requests)
      requires (exists k :: k in provider.keys && !k.isDisabled) ==> Candidate(config.caps, provider.Contents(), roll, now)
      modifies this`requests, provider
      ensures Valid() && Snapshot(now) == AllProceeded(config, old(Snapshot(now)), reqs, roll)
    {
      for i := 0 to |reqs|
        invariant Valid() && queue == old(queue) && (forall id :: id in reqs ==> id in requests)
        invariant DifferentFamilies(reqs, requests) && RollFits(Snapshot(now), roll)
        invariant ProviderLeft(config, reqs, requests, i) ==> provider.Contents() == old(provider.Contents())
        invariant AllProceeded(config, Snapshot(now), reqs[i..], roll) == AllProceeded(config, old(Snapshot(now)), reqs, roll)
      {
        ghost var before := Snapshot(now);
        AllProceededStep(config, before, reqs, i, roll);
        OneLessToProceed(config, before, reqs, i, roll);
        Proceed(reqs[i], now, roll);
      }
    }

    /** The requests dequeued are of different families. */
    method DequeueOpen(families: seq<string>, open: set<string>, now: int) returns (reqs: seq<RequestId>)
      requires Valid() && forall i, j :: 0 <= i < j < |families| ==> families[i] != families[j]
      modifies this
      ensures Valid() && provider.Contents() == old(provider.Contents())
      ensures var gated := OpenFamilies(config, provider.Contents(), now, families, open);
              && Snapshot(now) == AllDequeued(config, old(Snapshot(now)), gated)
              && reqs == AllPicked(config, old(Snapshot(now)), gated)
      ensures forall id :: id in reqs ==> id in requests
      ensures DifferentFamilies(reqs, requests)
    {
      ghost var s, gated := Snapshot(now), OpenFamilies(config, provider.Contents(), now, families, open);
      reqs := [];
      for i := 0 to |families|
        invariant Valid() && provider.Contents() == s.pool && (forall id :: id in reqs ==> id in requests)
        invariant FamiliesAmong(reqs, requests, families, i) && DifferentFamilies(reqs, requests)
        invariant DequeuedSoFar(config, s, gated, Snapshot(now), reqs, OpenFamilies(config, s.pool, now, families[i..], open))
      {
        OpenStep(config, s.pool, now, families, i, open);
        if IsOpen(config, provider.Contents(), now, families[i], open) {
          DequeuedOneMore(config, s, gated, Snapshot(now), reqs, families[i], OpenFamilies(config, s.pool, now, families[i + 1..], open));
          ghost var before, known := reqs, requests;
          reqs := DequeueOne(reqs, families[i], now);
          OneMoreFamily(before, known, reqs, requests, families, i);
        }
      }
    }

    method DequeueOne(reqs: seq<RequestId>, family: string, now: int) returns (more: seq<RequestId>)
      requires Valid()
      modifies this
      ensures Valid() && more == reqs + PickIn(config, old(Snapshot(now)), family)
      ensures Snapshot(now) == FamilyDequeued(config, old(Snapshot(now)), family)
      ensures forall id :: id in old(requests) ==> id in requests && requests[id].family == old(requests)[id].family
      ensures forall k :: |reqs| <= k < |more| ==> more[k] in requests && requests[more[k]].family == family
      ensures |reqs| <= |more| <= |reqs| + 1 && more[..|reqs|] == reqs
    {
      PickInItsFamily(config, Snapshot(now), family);
      var picked := Dequeue(family, now);
      more := if picked.Some? then reqs + [picked.value] else reqs;
    }

    /** Up to the hold of the slot. Without an enabled key the request is answered with an error. */
    method Proceed(id: RequestId, now: int, roll: nat)
      requires Valid() && id in requests
      requires requests[id].family == config.providerFamily && (exists k :: k in provider.keys && !k.isDisabled) ==>
                 Candidate(config.caps, provider.Contents(), roll, now)
      modifies this`requests, provider
      ensures Valid()
      ensures Snapshot(now) == Proceeded(config, old(Snapshot(now)), id, roll)
    {
      if requests[id].family == config.providerFamily {
        var key := provider.Get(now, roll);
        if key.None? {
          requests := requests[id := requests[id].(ended := true, phase := Done)];
        } else if config.caps.concurrency > 0 {
          provider.Acquire(key.value.hash, id);
        }
      }
    }

    /** The close event runs the abort listener, if the request has one, and frees the provider's slot. */
    method OnClose(id: RequestId)
      requires Valid() && id in requests
      modifies this, provider`inFlight
      ensures Valid()
      ensures forall now :: Snapshot(now) == Closed(config, old(Snapshot(now)), id)
    {
      var r := requests[id];
      if r.listening {
        var index := IndexOf(queue, id);
        if index != -1 {
          queue := Splice(queue, index);
        }
      }
      requests := requests[id := r.(ended := true, closed := true, listening := false,
                                    phase := if r.phase == Queued then Done else r.phase)];
      if config.caps.concurrency > 0 && r.family == config.providerFamily {
        provider.Release(id);
      }
    }

    method KillQueuedRequest(id: RequestId, sendable: bool)
      requires Valid() && id in requests
      modifies this
      ensures Valid() && requests.Keys == old(requests).Keys
      ensures forall now :: Snapshot(now) == Killed(old(Snapshot(now)), id, sendable)
    {
      if requests[id].ended {
        SpliceAddsNobody(queue, IndexOf(queue, id));
        queue := Splice(queue, IndexOf(queue, id));
        requests := requests[id := requests[id].(phase := Done)];
        return;
      }
      if sendable {
        requests := requests[id := requests[id].(ended := true)];
      }
    }

    method CleanQueue(now: int, unsendable: set<RequestId>)
      requires Valid()
      modifies this
      ensures Valid()
      ensures Snapshot(now) == Cleaned(old(Snapshot(now)), unsendable)
    {
      var oldRequests := Stale(Snapshot(now));
      for i := 0 to |oldRequests|
        invariant Valid() && requests.Keys == old(requests).Keys
        invariant KilledAll(Snapshot(now), oldRequests[i..], unsendable) == Cleaned(old(Snapshot(now)), unsendable)
      {
        KilledAllStep(Snapshot(now), oldRequests, i, unsendable);
        KillQueuedRequest(oldRequests[i], oldRequests[i] !in unsendable);
      }
    }
  }
}
