/**
 * What each operation of the queue does to the request it is for, and that it leaves everybody else alone: stated
 * over the whole state before and after, without the operations themselves.
 */
module QueueSteps {
  import opened Options
  import opened CustomKeys
  import opened RequestQueue
  import opened QueueRuns

  ghost predicate OthersUntouched(s: State, t: State, id: RequestId) {
    && t.now == s.now && t.requests.Keys == s.requests.Keys
    && forall x :: x in s.requests && x != id ==> t.requests[x] == s.requests[x]
  }

  /** The queue without the one place that `id` has in it; the others keep their order. */
  ghost predicate PlaceIsGone(before: seq<RequestId>, after: seq<RequestId>, id: RequestId) {
    exists i :: IsPlace(before, i, id) && after == before[..i] + before[i + 1..]
  }

  ghost predicate IsPlace(q: seq<RequestId>, i: int, id: RequestId) {
    0 <= i < |q| && q[i] == id
  }

  lemma {:induction false} SplicedPlaceIsGone(q: seq<RequestId>, id: RequestId)
    requires id in q
    ensures PlaceIsGone(q, Splice(q, IndexOf(q, id)), id)
  {
    assert IsPlace(q, IndexOf(q, id), id);
  }

  // ----- Entering the queue -----

  /** `owners` are those of the requests in the queue, place by place. */
  ghost predicate AreOwners(q: seq<RequestId>, requests: map<RequestId, Request>, owners: seq<string>) {
    |owners| == |q| && forall i :: 0 <= i < |q| ==> q[i] in requests && owners[i] == requests[q[i]].owner
  }

  ghost function OwnersOf(q: seq<RequestId>, requests: map<RequestId, Request>): (owners: seq<string>)
    requires forall id :: id in q ==> id in requests
    ensures AreOwners(q, requests, owners)
  {
    seq(|q|, i requires 0 <= i < |q| => requests[q[i]].owner)
  }

  /** How many places in the queue the requests of a user have. */
  ghost function PlacesOf(q: seq<RequestId>, requests: map<RequestId, Request>, owner: string): nat
    requires forall id :: id in q ==> id in requests
  {
    multiset(OwnersOf(q, requests))[owner]
  }

  lemma {:induction false} OwnerCountIsPlaces(q: seq<RequestId>, requests: map<RequestId, Request>, owners: seq<string>, owner: string)
    requires (forall id :: id in q ==> id in requests) && AreOwners(q, requests, owners)
    ensures OwnerCount(q, requests, owner) == multiset(owners)[owner]
  {
    if q != [] {
      OwnerCountIsPlaces(q[1..], requests, owners[1..], owner);
      assert owners == [owners[0]] + owners[1..];
    }
  }

  /** The response is over, the user's places are taken, or the proxy is too busy for one that is not streamed. */
  ghost predicate IsRefused(c: Config, s: State, r: Request, overloaded: bool)
    requires WellFormed(s)
  {
    || r.ended
    || (!r.special && c.userLimit <= PlacesOf(s.queue, s.requests, r.owner))
    || (!r.streaming && overloaded)
  }

  /** The join message has to wait, and another handler goes on meanwhile. */
  ghost predicate IsHeldUp(r: Request, interrupted: bool) {
    r.streaming && !r.headersSent && interrupted
  }

  ghost predicate TakesItsPlace(s: State, t: State, r: Request, id: RequestId) {
    && t.queue == s.queue + [id] && id in t.requests
    && t.requests[id] == r.(headersSent := r.headersSent || r.streaming, queueOutTime := 0, listening := true, phase := Queued)
  }

  ghost predicate StaysOut(s: State, t: State, id: RequestId, r: Request) {
    t.queue == s.queue && id in t.requests && t.requests[id] == r
  }

  /** `t` is `s` after the request has asked for a place. */
  ghost predicate HasAsked(c: Config, s: State, t: State, id: RequestId, interrupted: bool, overloaded: bool) {
    && WellFormed(s) && id in s.requests && OthersUntouched(s, t, id) && t.pool == s.pool
    && var r := s.requests[id];
       if IsRefused(c, s, r, overloaded) then StaysOut(s, t, id, r.(phase := Done))
       else if IsHeldUp(r, interrupted) then StaysOut(s, t, id, r.(headersSent := true, phase := Joining))
       else TakesItsPlace(s, t, r, id)
  }

  /** A request is refused, or held up at its join message, or gets the last place. */
  lemma {:induction false} EnteringAsks(c: Config, s: State, id: RequestId, interrupted: bool, overloaded: bool)
    requires WellFormed(s) && id in s.requests
    ensures HasAsked(c, s, Entered(c, s, id, interrupted, overloaded), id, interrupted, overloaded)
  {
    OwnerCountIsPlaces(s.queue, s.requests, OwnersOf(s.queue, s.requests), s.requests[id].owner);
  }

  /** One that was held up gets the last place whoever came meanwhile. */
  lemma {:induction false} JoiningTakesAPlace(s: State, id: RequestId)
    requires id in s.requests && s.requests[id].headersSent
    ensures OthersUntouched(s, Push(s, id), id) && Push(s, id).pool == s.pool
    ensures TakesItsPlace(s, Push(s, id), s.requests[id], id)
  {
  }

  // ----- Slots -----

  ghost predicate HasSlot(slots: Slots, h: KeyHash, id: RequestId) {
    h in slots && id in slots[h]
  }

  /** Everybody else has the slots they had. */
  ghost predicate OthersKeepSlots(a: Pool, b: Pool, id: RequestId) {
    forall h, x :: x != id ==> (HasSlot(b.inFlight, h, x) <==> HasSlot(a.inFlight, h, x))
  }

  ghost predicate HasNoSlot(p: Pool, id: RequestId) {
    forall h :: !HasSlot(p.inFlight, h, id)
  }

  ghost predicate SameKeys(a: Pool, b: Pool) {
    b.keys == a.keys && b.windows == a.windows
  }

  lemma {:induction false} ReleasingGivesBack(p: Pool, id: RequestId)
    requires SlotsValid(p.inFlight)
    ensures var q := p.(inFlight := Released(p.inFlight, id)); SameKeys(p, q) && OthersKeepSlots(p, q, id) && HasNoSlot(q, id)
  {
    ReleasedFreesExactlyOne(p.inFlight, id);
    var q := p.(inFlight := Released(p.inFlight, id));
    forall h ensures !HasSlot(q.inFlight, h, id) {
    }
    forall h, x | x != id ensures HasSlot(q.inFlight, h, x) <==> HasSlot(p.inFlight, h, x) {
    }
  }

  /** The request of the provider has given its slot back; one of another family has none to give. */
  ghost predicate GivesBack(c: Config, s: State, t: State, id: RequestId)
    requires id in s.requests
  {
    if s.requests[id].family == c.providerFamily
    then SameKeys(s.pool, t.pool) && OthersKeepSlots(s.pool, t.pool, id) && HasNoSlot(t.pool, id)
    else t.pool == s.pool
  }

  // ----- Retries -----

  /** `t` is `s` after an attempt has failed: it is counted, pauses as long as its handler says, and has no slot. */
  ghost predicate HasFailed(c: Config, s: State, t: State, id: RequestId, delay: nat) {
    && id in s.requests && OthersUntouched(s, t, id) && GivesBack(c, s, t, id)
    && var r := s.requests[id];
       StaysOut(s, t, id, r.(notBefore := if delay == 0 then r.notBefore else Some(s.now + delay), retryCount := r.retryCount + 1))
  }

  lemma {:induction false} FailingGivesBack(c: Config, s: State, id: RequestId, delay: nat)
    requires SlotsValid(s.pool.inFlight) && id in s.requests
    ensures HasFailed(c, s, Failed(c, s, id, delay), id, delay)
  {
    ReleasingGivesBack(s.pool, id);
  }

  /** A retry fails first and then asks for a place like a new request. */
  lemma {:induction false} RetryingFailsAndAsks(c: Config, s: State, id: RequestId, delay: nat, interrupted: bool, overloaded: bool)
    returns (failed: State)
    requires WellFormed(s) && SlotsValid(s.pool.inFlight) && id in s.requests
    ensures HasFailed(c, s, failed, id, delay)
    ensures HasAsked(c, failed, Retried(c, s, id, delay, interrupted, overloaded), id, interrupted, overloaded)
  {
    failed := Failed(c, s, id, delay);
    FailingGivesBack(c, s, id, delay);
    EnteringAsks(c, failed, id, interrupted, overloaded);
  }

  // ----- Dispatches -----

  ghost predicate NoKeyWorks(p: Pool) {
    forall k :: k in p.keys ==> k.isDisabled
  }

  /** The one slot that the request has is of key `h`. */
  ghost predicate HasOnlySlot(p: Pool, h: KeyHash, id: RequestId) {
    forall k :: HasSlot(p.inFlight, k, id) <==> k == h
  }

  /** `t` is `s` after key number `roll` was handed to the request: the key is used, and there is a slot if slots count. */
  ghost predicate HasKey(c: Config, s: State, t: State, id: RequestId, roll: nat)
    requires roll < |s.pool.keys|
  {
    && t.pool.keys == Got(c.caps, s.pool, roll, s.now).keys && t.pool.windows == Got(c.caps, s.pool, roll, s.now).windows
    && (if c.caps.concurrency > 0
        then HasOnlySlot(t.pool, s.pool.keys[roll].hash, id) && OthersKeepSlots(s.pool, t.pool, id)
        else t.pool.inFlight == s.pool.inFlight)
  }

  /** `t` is `s` after `id` was dispatched: it runs, or is answered at once because no key of the provider works. */
  ghost predicate IsSent(c: Config, s: State, t: State, id: RequestId, roll: nat) {
    && id in s.requests && OthersUntouched(s, t, id) && PlaceIsGone(s.queue, t.queue, id)
    && var r := s.requests[id].(listening := false, queueOutTime := s.now);
       if r.family != c.providerFamily then t.requests[id] == r.(phase := Running) && t.pool == s.pool
       else if NoKeyWorks(s.pool) then t.requests[id] == r.(ended := true, phase := Done) && t.pool == s.pool
       else t.requests[id] == r.(phase := Running) && roll < |s.pool.keys| && HasKey(c, s, t, id, roll)
  }

  lemma {:induction false} AcquiringMovesTheSlot(p: Pool, h: KeyHash, id: RequestId)
    requires SlotsValid(p.inFlight)
    ensures var q := p.(inFlight := Acquired(p.inFlight, h, id)); HasOnlySlot(q, h, id) && OthersKeepSlots(p, q, id)
  {
    AcquiredMovesTheSlot(p.inFlight, h, id);
    ReleasedFreesExactlyOne(p.inFlight, id);
    var q := p.(inFlight := Acquired(p.inFlight, h, id));
    forall k, x | x != id ensures HasSlot(q.inFlight, k, x) <==> HasSlot(p.inFlight, k, x) {
    }
  }

  lemma {:induction false} SendingProceeds(c: Config, s: State, id: RequestId, roll: nat)
    requires SlotsValid(s.pool.inFlight) && id in s.queue && id in s.requests
    requires s.requests[id].family == c.providerFamily ==> RollFits(s, roll)
    ensures IsSent(c, s, Proceeded(c, Dequeued(s, id), id, roll), id, roll)
  {
    SplicedPlaceIsGone(s.queue, id);
    if s.requests[id].family == c.providerFamily && !NoKeyWorks(s.pool) {
      AcquiringMovesTheSlot(s.pool, s.pool.keys[roll].hash, id);
    }
  }

  /** A dispatch sends the request it picks, and does nothing without one. */
  lemma {:induction false} DispatchingSends(c: Config, s: State, family: string, roll: nat)
    requires Inv(c, s) && Enabled(c, s, Dispatch(family, roll))
    ensures var t := Dispatched(c, s, family, roll);
            if Waiting(s, family) == [] then t == s else IsSent(c, s, t, Pick(c, s, family), roll)
  {
    if Waiting(s, family) != [] {
      PickIsTheLastMinimum(c, s, family);
      SendingProceeds(c, s, Pick(c, s, family), roll);
    }
  }

  /** A tick serves the provider's family when its lockout is over, and any other when its own keys are open. */
  lemma {:induction false} OpenFamiliesAreServed(c: Config, pool: Pool, now: int, families: seq<string>, open: set<string>, f: string)
    ensures f in OpenFamilies(c, pool, now, families, open) <==>
              f in families && (f == c.providerFamily ==> Lockout(c.caps, pool, now) == 0) && (f != c.providerFamily ==> f in open)
  {
    if families != [] {
      OpenFamiliesAreServed(c, pool, now, families[1..], open, f);
      assert families == [families[0]] + families[1..];
    }
  }

  // ----- Closes and reaps -----

  /** `t` is `s` after the client has gone: the request has ended, waits no more and gives its slot back. */
  ghost predicate IsClosed(c: Config, s: State, t: State, id: RequestId) {
    && id in s.requests && OthersUntouched(s, t, id)
    && (if id in s.queue then PlaceIsGone(s.queue, t.queue, id) else t.queue == s.queue)
    && (if c.caps.concurrency > 0 then GivesBack(c, s, t, id) else t.pool == s.pool)
    && var r := s.requests[id];
       t.requests[id] == r.(ended := true, closed := true, listening := false, phase := if id in s.queue then Done else r.phase)
  }

  lemma {:induction false} ClosingEnds(c: Config, s: State, id: RequestId)
    requires Inv(c, s) && id in s.requests
    ensures IsClosed(c, s, Closed(c, s, id), id)
  {
    assert id in s.queue <==> PhaseIs(s, id, Queued);
    ReleasingGivesBack(s.pool, id);
    if id in s.queue {
      SplicedPlaceIsGone(s.queue, id);
    }
  }

  /** `t` is `s` after the reaper has found the request stale: it leaves if it has ended, and ends if it can be told so. */
  ghost predicate IsReaped(s: State, t: State, id: RequestId, sendable: bool) {
    && id in s.requests && OthersUntouched(s, t, id) && t.pool == s.pool
    && var r := s.requests[id];
       if r.ended then PlaceIsGone(s.queue, t.queue, id) && t.requests[id] == r.(phase := Done)
       else StaysOut(s, t, id, if sendable then r.(ended := true) else r)
  }

  lemma {:induction false} KillingReaps(s: State, id: RequestId, sendable: bool)
    requires id in s.queue && id in s.requests
    ensures IsReaped(s, Killed(s, id, sendable), id, sendable)
  {
    SplicedPlaceIsGone(s.queue, id);
  }

  /** What the reaper leaves of one request. */
  ghost predicate ReaperLeaves(s: State, t: State, id: RequestId, unsendable: set<RequestId>)
    requires id in s.requests
  {
    && id in t.requests
    && var r := s.requests[id];
       var isStale := id in s.queue && s.now > r.startTime + 300000;
       && (id in t.queue <==> id in s.queue && !(isStale && r.ended))
       && t.requests[id] == (if !isStale then r
                             else if r.ended then r.(phase := Done)
                             else if id in unsendable then r else r.(ended := true))
  }

  /** Killing those of `ids` has come this far. */
  ghost predicate KillingLeaves(s: State, t: State, ids: seq<RequestId>, unsendable: set<RequestId>, id: RequestId)
    requires id in s.requests
  {
    && id in t.requests
    && var r := s.requests[id];
       && (id in t.queue <==> id in s.queue && !(id in ids && r.ended))
       && t.requests[id] == (if id !in ids then r
                             else if r.ended then r.(phase := Done)
                             else if id in unsendable then r else r.(ended := true))
  }

  lemma {:induction false} OneMoreLeaves(
    s: State, t: State, u: State, x: RequestId, ids: seq<RequestId>, rest: seq<RequestId>, unsendable: set<RequestId>, id: RequestId)
    requires ids == [x] + rest && x !in rest && id in s.requests && id in t.requests
    requires x in s.requests && t == Killed(s, x, x !in unsendable)
    requires forall y :: y in t.queue <==> y in s.queue && !(y == x && s.requests[x].ended)
    requires KillingLeaves(t, u, rest, unsendable, id)
    ensures KillingLeaves(s, u, ids, unsendable, id)
  {
    assert id in ids <==> id == x || id in rest;
  }

  lemma {:induction false} KilledAllLeaves(c: Config, s: State, ids: seq<RequestId>, unsendable: set<RequestId>, id: RequestId)
    requires Inv(c, s) && Distinct(ids) && (forall x :: x in ids ==> x in s.queue) && id in s.requests
    ensures KillingLeaves(s, KilledAll(s, ids, unsendable), ids, unsendable, id)
    decreases |ids|
  {
    if ids != [] {
      var x, rest := ids[0], ids[1..];
      HeadIsNotInTheTail(ids);
      assert ids == [x] + rest && x in ids && PhaseIs(s, x, Queued);
      var t := Killed(s, x, x !in unsendable);
      KilledKeepsInv(c, s, x, x !in unsendable);
      KilledAllLeaves(c, t, rest, unsendable, id);
      OneMoreLeaves(s, t, KilledAll(t, rest, unsendable), x, ids, rest, unsendable, id);
    }
  }

  /**
   * A reaper pass takes the requests that arrived more than five minutes ago: one whose response has ended leaves
   * the queue, another is ended unless it cannot be told so. It touches no other.
   */
  lemma {:induction false} ReaperLeavesTheRest(c: Config, s: State, unsendable: set<RequestId>, id: RequestId)
    requires Inv(c, s) && id in s.requests
    ensures ReaperLeaves(s, Cleaned(s, unsendable), id, unsendable)
  {
    KilledAllLeaves(c, s, Stale(s), unsendable, id);
  }
}
