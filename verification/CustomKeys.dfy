/**
 * The key pool of one custom provider: random selection among the keys that are
 * free, a per-minute request budget and a cap on concurrent requests per key.
 */
module CustomKeys {
  import opened Options

  type KeyHash = string
  type RequestId = string

  const KEY_REUSE_DELAY := 500
  const RATE_LIMIT_WINDOW := 60000
  const CONCURRENCY_RECHECK := 250

  /** A cap of zero or less is switched off. */
  datatype Caps = Caps(rateLimit: int, concurrency: int)

  datatype Key = Key(hash: KeyHash, isDisabled: bool, lastUsed: int, rateLimitedAt: int, rateLimitedUntil: int)

  datatype Window = Window(startedAt: int, count: int)

  type Slots = map<KeyHash, set<RequestId>>

  datatype Pool = Pool(keys: seq<Key>, windows: map<KeyHash, Window>, inFlight: Slots)

  function Max(a: int, b: int): int {
    if a < b then b else a
  }

  function Min(a: int, b: int): int {
    if a < b then a else b
  }

  // ----- Concurrency slots -----

  /** No key keeps an empty set of holders, and no request holds two keys. */
  ghost predicate SlotsValid(slots: Slots) {
    && (forall h :: h in slots ==> slots[h] != {})
    && (forall h, h', id :: h in slots && h' in slots && id in slots[h] && id in slots[h'] ==> h == h')
  }

  ghost predicate Holds(slots: Slots, id: RequestId) {
    exists h :: h in slots && id in slots[h]
  }

  function Released(slots: Slots, id: RequestId): Slots {
    map h | h in slots && slots[h] - {id} != {} :: slots[h] - {id}
  }

  function Acquired(slots: Slots, h: KeyHash, id: RequestId): Slots {
    var free := Released(slots, id);
    free[h := (if h in free then free[h] else {}) + {id}]
  }

  /** Releasing takes the slot from this request and from nobody else. */
  lemma {:induction false} ReleasedFreesExactlyOne(slots: Slots, id: RequestId)
    requires SlotsValid(slots)
    ensures SlotsValid(Released(slots, id))
    ensures forall r :: Holds(Released(slots, id), r) <==> r != id && Holds(slots, r)
    ensures forall r, h :: r != id ==> (h in slots && r in slots[h] <==> h in Released(slots, id) && r in Released(slots, id)[h])
  {
    var after := Released(slots, id);
    forall r | r != id && Holds(slots, r) ensures Holds(after, r) {
      var h :| h in slots && r in slots[h];
      assert r in slots[h] - {id};
      assert h in after;
    }
    forall r | Holds(after, r) ensures r != id && Holds(slots, r) {
      var h :| h in after && r in after[h];
      assert h in slots && r in slots[h];
    }
    forall r, h | r != id && h in slots && r in slots[h] ensures h in after && r in after[h] {
      assert r in slots[h] - {id};
    }
  }

  /** The request holds one key at most, so the scan may stop at it. */
  lemma {:induction false} ReleasedFromItsKey(slots: Slots, h: KeyHash, id: RequestId)
    requires SlotsValid(slots) && h in slots && id in slots[h]
    ensures Released(slots, id) == if slots[h] - {id} == {} then slots - {h} else slots[h := slots[h] - {id}]
  {
    forall k | k in slots && k != h ensures slots[k] - {id} == slots[k] && slots[k] != {} {
      assert id !in slots[k];
    }
    assert Released(slots, id) == if slots[h] - {id} == {} then slots - {h} else slots[h := slots[h] - {id}];
  }

  /** A request that takes a slot ends up holding that key and no other; nobody else's slot moves. */
  lemma {:induction false} AcquiredMovesTheSlot(slots: Slots, h: KeyHash, id: RequestId)
    requires SlotsValid(slots)
    ensures SlotsValid(Acquired(slots, h, id))
    ensures forall k :: k in Acquired(slots, h, id) && id in Acquired(slots, h, id)[k] <==> k == h
    ensures forall r :: Holds(Acquired(slots, h, id), r) <==> r == id || Holds(slots, r)
  {
    ReleasedFreesExactlyOne(slots, id);
    var free := Released(slots, id);
    var after := Acquired(slots, h, id);
    forall r | Holds(free, r) ensures Holds(after, r) {
      var k :| k in free && r in free[k];
      assert k in after && r in after[k];
    }
    assert h in after && id in after[h];
    forall r | Holds(after, r) ensures r == id || Holds(slots, r) {
      var k :| k in after && r in after[k];
      if r != id {
        assert k in free && r in free[k];
        assert Holds(free, r);
      }
    }
  }

  // ----- Waiting -----

  function RateLimitWait(caps: Caps, pool: Pool, h: KeyHash, now: int): int {
    if caps.rateLimit <= 0 || h !in pool.windows then 0
    else
      var elapsed := now - pool.windows[h].startedAt;
      if elapsed >= RATE_LIMIT_WINDOW || pool.windows[h].count < caps.rateLimit then 0
      else RATE_LIMIT_WINDOW - elapsed
  }

  predicate AtCapacity(caps: Caps, pool: Pool, h: KeyHash) {
    caps.concurrency > 0 && h in pool.inFlight && |pool.inFlight[h]| >= caps.concurrency
  }

  function KeyWait(caps: Caps, pool: Pool, key: Key, now: int): int {
    Max(Max(key.rateLimitedUntil - now, RateLimitWait(caps, pool, key.hash, now)),
        if AtCapacity(caps, pool, key.hash) then CONCURRENCY_RECHECK else 0)
  }

  function Waits(caps: Caps, pool: Pool, keys: seq<Key>, now: int): seq<int> {
    if keys == [] then []
    else (if keys[0].isDisabled then [] else [KeyWait(caps, pool, keys[0], now)]) + Waits(caps, pool, keys[1..], now)
  }

  function Least(waits: seq<int>): int
    requires waits != []
  {
    if |waits| == 1 then waits[0] else Min(waits[0], Least(waits[1..]))
  }

  function Lockout(caps: Caps, pool: Pool, now: int): int {
    var waits := Waits(caps, pool, pool.keys, now);
    if waits == [] || exists w :: w in waits && w <= 0 then 0 else Least(waits)
  }

  predicate Free(caps: Caps, pool: Pool, key: Key, now: int) {
    !key.isDisabled && RateLimitWait(caps, pool, key.hash, now) == 0 && !AtCapacity(caps, pool, key.hash)
  }

  lemma {:induction false} WaitsAreOfEnabledKeys(caps: Caps, pool: Pool, keys: seq<Key>, now: int)
    ensures forall w :: w in Waits(caps, pool, keys, now) <==>
              exists k :: k in keys && !k.isDisabled && KeyWait(caps, pool, k, now) == w
  {
    if keys == [] {
    } else {
      var rest := keys[1..];
      WaitsAreOfEnabledKeys(caps, pool, rest, now);
      assert keys == [keys[0]] + rest;
      forall w
        ensures w in Waits(caps, pool, keys, now) <==>
                  exists k :: k in keys && !k.isDisabled && KeyWait(caps, pool, k, now) == w
      {
        if w in Waits(caps, pool, keys, now) {
          if w in Waits(caps, pool, rest, now) {
            var k :| k in rest && !k.isDisabled && KeyWait(caps, pool, k, now) == w;
            assert k in keys;
          } else {
            assert keys[0] in keys;
          }
        }
      }
    }
  }

  lemma {:induction false} LeastIsALowerBound(waits: seq<int>)
    requires waits != []
    ensures Least(waits) in waits
    ensures forall w :: w in waits ==> Least(waits) <= w
  {
    if |waits| == 1 {
    } else {
      LeastIsALowerBound(waits[1..]);
      assert waits == [waits[0]] + waits[1..];
    }
  }

  /**
   * The queue is let through exactly when every key is disabled or some enabled
   * key has neither a lockout, nor a spent budget, nor a full set of slots.
   */
  lemma {:induction false} LockoutIsZeroExactlyWhen(caps: Caps, pool: Pool, now: int)
    ensures Lockout(caps, pool, now) == 0 <==>
              ((forall k :: k in pool.keys ==> k.isDisabled)
               || exists k :: k in pool.keys && Free(caps, pool, k, now) && k.rateLimitedUntil <= now)
    ensures Lockout(caps, pool, now) >= 0
  {
    var waits := Waits(caps, pool, pool.keys, now);
    WaitsAreOfEnabledKeys(caps, pool, pool.keys, now);
    assert forall k :: k in pool.keys && !k.isDisabled ==> KeyWait(caps, pool, k, now) in waits;
    if waits != [] {
      LeastIsALowerBound(waits);
      assert waits[0] in waits;
      var enabled :| enabled in pool.keys && !enabled.isDisabled && KeyWait(caps, pool, enabled, now) == waits[0];
      if w :| w in waits && w <= 0 {
        var k :| k in pool.keys && !k.isDisabled && KeyWait(caps, pool, k, now) == w;
        assert Free(caps, pool, k, now);
      }
    }
  }

  // ----- Selection -----

  /** The keys a selection may return: the free ones, or every enabled one when none is free. */
  predicate Candidate(caps: Caps, pool: Pool, i: nat, now: int) {
    && i < |pool.keys|
    && !pool.keys[i].isDisabled
    && (Free(caps, pool, pool.keys[i], now) || forall k :: k in pool.keys ==> !Free(caps, pool, k, now))
  }

  function Counted(caps: Caps, windows: map<KeyHash, Window>, h: KeyHash, now: int): map<KeyHash, Window> {
    if caps.rateLimit <= 0 then windows
    else if h !in windows || now - windows[h].startedAt >= RATE_LIMIT_WINDOW then windows[h := Window(now, 1)]
    else windows[h := windows[h].(count := windows[h].count + 1)]
  }

  function IndexOfHash(keys: seq<Key>, h: KeyHash): (i: nat)
    requires exists k :: k in keys && k.hash == h
    ensures i < |keys| && keys[i].hash == h
    ensures forall j :: 0 <= j < i ==> keys[j].hash != h
  {
    if keys[0].hash == h then 0 else 1 + IndexOfHash(keys[1..], h)
  }

  function Throttled(keys: seq<Key>, h: KeyHash, now: int): seq<Key>
    requires exists k :: k in keys && k.hash == h
  {
    var i := IndexOfHash(keys, h);
    keys[i := keys[i].(rateLimitedAt := now, rateLimitedUntil := Max(keys[i].rateLimitedUntil, now + KEY_REUSE_DELAY))]
  }

  /** The pool after handing out key number `i`. */
  function Got(caps: Caps, pool: Pool, i: nat, now: int): Pool
    requires i < |pool.keys|
  {
    var h := pool.keys[i].hash;
    var used := pool.keys[i := pool.keys[i].(lastUsed := now)];
    assert used[i].hash == h;
    Pool(Throttled(used, h, now), Counted(caps, pool.windows, h, now), pool.inFlight)
  }

  /** No key has more requests in flight than the concurrency cap allows. */
  ghost predicate SlotCapHeld(caps: Caps, pool: Pool) {
    caps.concurrency > 0 ==> forall h :: h in pool.inFlight ==> |pool.inFlight[h]| <= caps.concurrency
  }

  /** No key has more than the budget of its current minute counted against it. */
  ghost predicate BudgetHeld(caps: Caps, pool: Pool) {
    caps.rateLimit > 0 ==> forall h :: h in pool.windows ==> pool.windows[h].count <= caps.rateLimit
  }

  /** A selection made while the lockout is zero returns a key with budget and a slot to spare. */
  lemma {:induction false} GatedSelectionIsFree(caps: Caps, pool: Pool, i: nat, now: int)
    requires Lockout(caps, pool, now) == 0
    requires Candidate(caps, pool, i, now)
    ensures Free(caps, pool, pool.keys[i], now)
  {
    LockoutIsZeroExactlyWhen(caps, pool, now);
    assert pool.keys[i] in pool.keys;
  }

  lemma {:induction false} ReleaseKeepsSlotCap(caps: Caps, pool: Pool, id: RequestId)
    requires SlotCapHeld(caps, pool)
    ensures SlotCapHeld(caps, pool.(inFlight := Released(pool.inFlight, id)))
  {
    forall h | h in Released(pool.inFlight, id) ensures |pool.inFlight[h] - {id}| <= |pool.inFlight[h]| {
      SubsetSize(pool.inFlight[h] - {id}, pool.inFlight[h]);
    }
  }

  lemma {:induction false} SubsetSize<T>(a: set<T>, b: set<T>)
    requires a <= b
    ensures |a| <= |b|
  {
    if a == {} {
    } else {
      var x :| x in a;
      SubsetSize(a - {x}, b - {x});
    }
  }

  /** Selecting through the gate and then taking the slot keeps both caps. */
  lemma {:induction false} GatedHoldKeepsCaps(caps: Caps, pool: Pool, i: nat, now: int, id: RequestId)
    requires SlotCapHeld(caps, pool) && SlotsValid(pool.inFlight)
    requires Lockout(caps, pool, now) == 0
    requires Candidate(caps, pool, i, now)
    ensures BudgetHeld(caps, pool) ==> BudgetHeld(caps, Got(caps, pool, i, now))
    ensures var h := pool.keys[i].hash;
            SlotCapHeld(caps, Got(caps, pool, i, now).(inFlight := Acquired(pool.inFlight, h, id)))
  {
    GatedSelectionIsFree(caps, pool, i, now);
    HoldOfFreeKeyKeepsSlotCap(caps, pool, pool.keys[i].hash, id);
    if BudgetHeld(caps, pool) {
      BudgetSurvivesExactlyWhen(caps, pool, i, now);
    }
  }

  /** A selection, gated or not, keeps the budget exactly when the key it draws still has some. */
  lemma {:induction false} BudgetSurvivesExactlyWhen(caps: Caps, pool: Pool, i: nat, now: int)
    requires BudgetHeld(caps, pool) && i < |pool.keys|
    ensures BudgetHeld(caps, Got(caps, pool, i, now)) <==> RateLimitWait(caps, pool, pool.keys[i].hash, now) == 0
  {
    var h, after := pool.keys[i].hash, Got(caps, pool, i, now);
    if RateLimitWait(caps, pool, h, now) != 0 {
      assert after.windows[h].count == pool.windows[h].count + 1;
    }
  }

  lemma {:induction false} HoldOfFreeKeyKeepsSlotCap(caps: Caps, pool: Pool, h: KeyHash, id: RequestId)
    requires SlotCapHeld(caps, pool) && !AtCapacity(caps, pool, h)
    ensures caps.concurrency > 0 ==>
              forall k :: k in Acquired(pool.inFlight, h, id) ==> |Acquired(pool.inFlight, h, id)[k]| <= caps.concurrency
  {
    ReleaseKeepsSlotCap(caps, pool, id);
    if h in pool.inFlight {
      SubsetSize(pool.inFlight[h] - {id}, pool.inFlight[h]);
    }
  }

  // ----- The provider object -----

  class CustomKeyProvider {
    const caps: Caps
    var keys: seq<Key>
    var windows: map<KeyHash, Window>
    var inFlight: Slots

    ghost predicate Valid()
      reads this
    {
      SlotsValid(inFlight)
    }

    function Contents(): Pool
      reads this
    {
      Pool(keys, windows, inFlight)
    }

    constructor (caps: Caps, keys: seq<Key>)
      ensures Valid() && this.caps == caps && Contents() == Pool(keys, map[], map[])
    {
      this.caps := caps;
      this.keys := keys;
      windows := map[];
      inFlight := map[];
    }

    /** Scans the holders of every key and stops at the first one that holds the request. */
    method Release(id: RequestId)
      requires Valid()
      modifies this`inFlight
      ensures Valid()
      ensures inFlight == Released(old(inFlight), id)
    {
      var rest := inFlight.Keys;
      while rest != {}
        invariant rest <= inFlight.Keys && inFlight == old(inFlight)
        invariant forall h :: h in inFlight && h !in rest ==> id !in inFlight[h]
      {
        var h :| h in rest;
        rest := rest - {h};
        if id in inFlight[h] {
          ReleasedFreesExactlyOne(inFlight, id);
          var holders := inFlight[h] - {id};
          ReleasedFromItsKey(inFlight, h, id);
          inFlight := if holders == {} then inFlight - {h} else inFlight[h := holders];
          return;
        }
      }
      forall h | h in inFlight ensures inFlight[h] - {id} == inFlight[h] {
      }
    }

    method Acquire(h: KeyHash, id: RequestId)
      requires Valid()
      modifies this`inFlight
      ensures Valid()
      ensures inFlight == Acquired(old(inFlight), h, id)
    {
      AcquiredMovesTheSlot(inFlight, h, id);
      Release(id);
      var holders := if h in inFlight then inFlight[h] else {};
      inFlight := inFlight[h := holders + {id}];
    }

    /** `roll` stands for the random draw among the candidates. Without an enabled key there is none to draw. */
    method Get(now: int, roll: nat) returns (key: Option<Key>)
      requires Valid()
      requires (exists k :: k in keys && !k.isDisabled) ==> Candidate(caps, Contents(), roll, now)
      modifies this`keys, this`windows
      ensures Valid()
      ensures key == None <==> forall k :: k in old(keys) ==> k.isDisabled
      ensures key == None ==> Contents() == old(Contents())
      ensures key.Some? ==> roll < |keys| && key.value == keys[roll] && Contents() == Got(caps, old(Contents()), roll, now)
    {
      if forall k :: k in keys ==> k.isDisabled {
        return None;
      }
      var h := keys[roll].hash;
      keys := keys[roll := keys[roll].(lastUsed := now)];
      assert keys[roll] in keys && keys[roll].hash == h;
      CountRequest(h, now);
      Throttle(h, now);
      key := Some(keys[roll]);
    }

    method CountRequest(h: KeyHash, now: int)
      modifies this`windows
      ensures windows == Counted(caps, old(windows), h, now)
    {
      if caps.rateLimit <= 0 {
        return;
      }
      if h !in windows || now - windows[h].startedAt >= RATE_LIMIT_WINDOW {
        windows := windows[h := Window(now, 1)];
        return;
      }
      windows := windows[h := windows[h].(count := windows[h].count + 1)];
    }

    method Throttle(h: KeyHash, now: int)
      requires exists k :: k in keys && k.hash == h
      modifies this`keys
      ensures keys == Throttled(old(keys), h, now)
    {
      var i := IndexOfHash(keys, h);
      var currentRateLimit := keys[i].rateLimitedUntil;
      var nextRateLimit := now + KEY_REUSE_DELAY;
      keys := keys[i := keys[i].(rateLimitedAt := now, rateLimitedUntil := Max(currentRateLimit, nextRateLimit))];
    }
  }
}
