/** When a key of a custom provider is free again, which may be drawn, and what drawing one changes. */
module PoolWaits {
  import opened Options
  import opened CustomKeys

  /** The minute the key is in has seen as many requests as its budget allows. */
  ghost predicate IsSpent(caps: Caps, pool: Pool, h: KeyHash, now: int) {
    && caps.rateLimit > 0 && h in pool.windows
    && now < pool.windows[h].startedAt + 60000 && caps.rateLimit <= pool.windows[h].count
  }

  /** The key serves as many requests as it may at once. */
  ghost predicate IsFull(caps: Caps, pool: Pool, h: KeyHash) {
    caps.concurrency > 0 && h in pool.inFlight && caps.concurrency <= |pool.inFlight[h]|
  }

  /** `wait` is how long the key is not free for: its lockout, the rest of a spent minute, a quarter second if it is full. */
  ghost predicate IsWait(caps: Caps, pool: Pool, k: Key, now: int, wait: int) {
    && k.rateLimitedUntil <= now + wait && 0 <= wait
    && (IsSpent(caps, pool, k.hash, now) ==> pool.windows[k.hash].startedAt + 60000 <= now + wait)
    && (IsFull(caps, pool, k.hash) ==> 250 <= wait)
    && (wait == 0 || now + wait == k.rateLimitedUntil
        || (IsSpent(caps, pool, k.hash, now) && now + wait == pool.windows[k.hash].startedAt + 60000)
        || (IsFull(caps, pool, k.hash) && wait == 250))
  }

  lemma {:induction false} KeyWaitIsItsWait(caps: Caps, pool: Pool, k: Key, now: int)
    ensures IsWait(caps, pool, k, now, KeyWait(caps, pool, k, now))
    ensures KeyWait(caps, pool, k, now) == 0 <==>
              k.rateLimitedUntil <= now && !IsSpent(caps, pool, k.hash, now) && !IsFull(caps, pool, k.hash)
  {
  }

  /** The wait of one enabled key is the lockout, and no other is shorter. */
  ghost predicate IsShortestWait(caps: Caps, pool: Pool, k: Key, now: int, wait: int) {
    && k in pool.keys && !k.isDisabled && IsWait(caps, pool, k, now, wait)
    && forall o, w :: o in pool.keys && !o.isDisabled && IsWait(caps, pool, o, now, w) ==> wait <= w
  }

  lemma {:induction false} WaitIsUnique(caps: Caps, pool: Pool, k: Key, now: int, a: int, b: int)
    requires IsWait(caps, pool, k, now, a) && IsWait(caps, pool, k, now, b)
    ensures a == b
  {
  }

  lemma {:induction false} WaitIsListed(caps: Caps, pool: Pool, k: Key, now: int, wait: int)
    requires k in pool.keys && !k.isDisabled && IsWait(caps, pool, k, now, wait)
    ensures wait in Waits(caps, pool, pool.keys, now)
  {
    WaitsAreOfEnabledKeys(caps, pool, pool.keys, now);
    KeyWaitIsItsWait(caps, pool, k, now);
    WaitIsUnique(caps, pool, k, now, wait, KeyWait(caps, pool, k, now));
    assert KeyWait(caps, pool, k, now) == wait;
  }

  /** The queue waits for no key if all are disabled, and otherwise exactly as long as the first one that will be free. */
  lemma {:induction false} LockoutIsTheShortestWait(caps: Caps, pool: Pool, now: int)
    ensures (forall k :: k in pool.keys ==> k.isDisabled) ==> Lockout(caps, pool, now) == 0
    ensures (exists k :: k in pool.keys && !k.isDisabled) ==>
              exists k :: IsShortestWait(caps, pool, k, now, Lockout(caps, pool, now))
  {
    var waits := Waits(caps, pool, pool.keys, now);
    WaitsAreOfEnabledKeys(caps, pool, pool.keys, now);
    assert waits != [] ==> waits[0] in waits;
    if e :| e in pool.keys && !e.isDisabled {
      KeyWaitIsItsWait(caps, pool, e, now);
      WaitIsListed(caps, pool, e, now, KeyWait(caps, pool, e, now));
      LeastIsALowerBound(waits);
      var least := Least(waits);
      var k :| k in pool.keys && !k.isDisabled && KeyWait(caps, pool, k, now) == least;
      KeyWaitIsItsWait(caps, pool, k, now);
      assert least == Lockout(caps, pool, now);
      forall o, w | o in pool.keys && !o.isDisabled && IsWait(caps, pool, o, now, w) ensures least <= w {
        WaitIsListed(caps, pool, o, now, w);
      }
      assert IsShortestWait(caps, pool, k, now, least);
    }
  }

  /** A selection may draw any enabled key that is neither spent nor full, or any enabled one if all are. */
  lemma {:induction false} MayBeDrawnExactlyWhen(caps: Caps, pool: Pool, i: nat, now: int)
    requires i < |pool.keys|
    ensures Candidate(caps, pool, i, now) <==>
              && !pool.keys[i].isDisabled
              && ((!IsSpent(caps, pool, pool.keys[i].hash, now) && !IsFull(caps, pool, pool.keys[i].hash))
                  || forall k :: k in pool.keys && !k.isDisabled ==> IsSpent(caps, pool, k.hash, now) || IsFull(caps, pool, k.hash))
  {
    assert pool.keys[i] in pool.keys;
    forall k ensures Free(caps, pool, k, now) <==> !k.isDisabled && !IsSpent(caps, pool, k.hash, now) && !IsFull(caps, pool, k.hash) {
    }
  }

  ghost predicate DistinctKeys(keys: seq<Key>) {
    forall i, j :: 0 <= i < j < |keys| ==> keys[i].hash != keys[j].hash
  }

  lemma {:induction false} IndexOfDistinct(keys: seq<Key>, i: nat)
    requires i < |keys| && DistinctKeys(keys) && exists k :: k in keys && k.hash == keys[i].hash
    ensures IndexOfHash(keys, keys[i].hash) == i
  {
  }

  /** The key drawn is marked as used and rests half a second, or for as long as it was to rest anyway; no other key changes. */
  lemma {:induction false} DrawnKeyRests(caps: Caps, pool: Pool, i: nat, now: int)
    requires i < |pool.keys| && DistinctKeys(pool.keys)
    ensures var k, after := pool.keys[i], Got(caps, pool, i, now);
            && |after.keys| == |pool.keys| && after.inFlight == pool.inFlight
            && after.keys[i].(rateLimitedUntil := k.rateLimitedUntil) == k.(lastUsed := now, rateLimitedAt := now)
            && after.keys[i].rateLimitedUntil >= now + 500 && after.keys[i].rateLimitedUntil >= k.rateLimitedUntil
            && after.keys[i].rateLimitedUntil in {now + 500, k.rateLimitedUntil}
            && forall j :: 0 <= j < |pool.keys| && j != i ==> after.keys[j] == pool.keys[j]
  {
    var used := pool.keys[i := pool.keys[i].(lastUsed := now)];
    assert used[i] in used;
    IndexOfDistinct(used, i);
  }

  /** The request is counted in the key's minute, or opens a new one if that is over; nothing is counted without a budget. */
  lemma {:induction false} DrawnKeyIsCounted(caps: Caps, pool: Pool, i: nat, now: int)
    requires i < |pool.keys|
    ensures var h, before, after := pool.keys[i].hash, pool.windows, Got(caps, pool, i, now).windows;
            && (caps.rateLimit <= 0 ==> after == before)
            && (caps.rateLimit > 0 ==>
                  && h in after
                  && (if h in before && now < before[h].startedAt + 60000
                      then after[h].startedAt == before[h].startedAt && after[h].count == before[h].count + 1
                      else after[h].startedAt == now && after[h].count == 1))
            && (forall k :: k != h ==> (k in after <==> k in before))
            && (forall k :: k != h && k in before ==> after[k] == before[k])
  {
  }
}
