/**
 * Which AWS key a request is given, and how long the queue waits for one, in terms of what the keys hold: their
 * lockouts, their inference profiles, and when each was used last.
 */
module KeySelection {
  import opened Options
  import opened Text
  import opened KeyPriority
  import opened AwsKeys
  import opened Sequences

  // ----- What the tests on a key mean -----

  /** `part` stands somewhere in `text`. */
  ghost predicate StandsIn(part: string, text: string) {
    exists i :: OccursAt(text, part, i)
  }

  /** The key may serve the request: it works, keeps no forbidden log, and offers a variant of the model. */
  ghost predicate Serves(k: Key, w: Wanted) {
    && !k.isDisabled && w.family in k.families && (k.isLogged ==> w.allowLogging)
    && exists m :: m in k.modelIds && StandsIn(w.variant, m)
  }

  ghost predicate Free(k: Key, now: int) {
    k.rateLimitedUntil <= now
  }

  ghost predicate ServesFree(k: Key, w: Wanted, now: int) {
    Serves(k, w) && Free(k, now)
  }

  ghost predicate OffersProfile(k: Key, model: string) {
    exists p :: p in k.profileIds && StandsIn(model, p)
  }

  lemma {:induction false} IncludesExactlyWhereItStands(text: string, part: string)
    ensures Includes(text, part) <==> StandsIn(part, text)
  {
    assert part <= text <==> OccursAt(text, part, 0);
    if text != "" {
      IncludesExactlyWhereItStands(text[1..], part);
      OccurrencesShift(text, part);
      if i :| OccursAt(text[1..], part, i) {
        OccurrenceShifts(text, part, i + 1);
        assert OccursAt(text, part, i + 1);
      }
    }
  }

  lemma {:induction false} EligibleExactlyWhenItServes(k: Key, w: Wanted)
    ensures Eligible(k, w) <==> Serves(k, w)
  {
    forall m ensures Includes(m, w.variant) <==> StandsIn(w.variant, m) {
      IncludesExactlyWhereItStands(m, w.variant);
    }
  }

  lemma {:induction false} ProfileCountsExactlyWhenItIsOffered(k: Key, model: string)
    ensures HasProfile(k, model) == if OffersProfile(k, model) then 1 else 0
  {
    forall p ensures Includes(p, model) <==> StandsIn(model, p) {
      IncludesExactlyWhereItStands(p, model);
    }
  }

  // ----- The key selected -----

  /** Among the keys that serve the request: `k` comes before `e`. */
  ghost predicate ComesNoLater(k: Key, e: Key, model: string, cached: Option<string>, now: int) {
    if !Free(k, now) || !Free(e, now) then Free(k, now) || (!Free(e, now) && k.rateLimitedUntil <= e.rateLimitedUntil)
    else if cached == Some(k.hash) || cached == Some(e.hash) then cached == Some(k.hash)
    else if OffersProfile(k, model) != OffersProfile(e, model) then OffersProfile(k, model)
    else k.lastUsed <= e.lastUsed
  }

  lemma {:induction false} ComparedExactlyWhen(k: Key, e: Key, model: string, preferred: Option<string>, now: int)
    requires k.hash != e.hash
    ensures Compare(k, e, now, model, preferred) <= 0 <==> ComesNoLater(k, e, model, preferred, now)
  {
    ProfileCountsExactlyWhenItIsOffered(k, model);
    ProfileCountsExactlyWhenItIsOffered(e, model);
  }

  /** A cached key that is not available is no preference, and does no harm as one. */
  lemma {:induction false} UnavailableIsNoPreference(k: Key, e: Key, available: seq<Key>, model: string, cached: Option<string>, now: int)
    requires k in available && e in available
    ensures ComesNoLater(k, e, model, Preferred(available, cached), now) <==> ComesNoLater(k, e, model, cached, now)
  {
  }

  /** `k` is the key selected: it serves the request, and no other key that does comes before it. */
  ghost predicate IsBest(keys: seq<Key>, w: Wanted, cached: Option<string>, now: int, k: Key) {
    k in keys && Serves(k, w) && forall e :: e in keys && Serves(e, w) && e != k ==> ComesNoLater(k, e, w.model, cached, now)
  }

  lemma {:induction false} HeadComesNoLater(available: seq<Key>, e: Key, model: string, cached: Option<string>, now: int)
    requires available != [] && DistinctHashes(available) && e in available
    ensures var k := available[Head(available, now, model, Preferred(available, cached))];
            e != k ==> ComesNoLater(k, e, model, cached, now)
  {
    var preferred := Preferred(available, cached);
    var p := Head(available, now, model, preferred);
    HeadIsTheFirstLeast(available, now, model, preferred);
    var q :| 0 <= q < |available| && available[q] == e;
    if q != p {
      ComparedExactlyWhen(available[p], e, model, preferred, now);
      UnavailableIsNoPreference(available[p], e, available, model, cached, now);
    }
  }

  /** There is a key for the request exactly when some key serves it, and then it is the best one. */
  lemma {:induction false} BestKeyIsSelected(keys: seq<Key>, w: Wanted, cached: Option<string>, now: int)
    requires DistinctHashes(keys)
    ensures Select(keys, w, cached, now) == NoKeys <==> forall k :: k in keys ==> !Serves(k, w)
    ensures Select(keys, w, cached, now).Selected? ==>
              exists k :: IsBest(keys, w, cached, now, k) && Select(keys, w, cached, now) == Selected(k.hash)
  {
    var available := Available(keys, w);
    forall k ensures k in available <==> k in keys && Serves(k, w) {
      EligibleExactlyWhenItServes(k, w);
    }
    if available == [] {
      forall k | k in keys ensures !Serves(k, w) {
        assert k !in available;
      }
    } else {
      AvailableHasDistinctHashes(keys, w);
      var k := available[Head(available, now, w.model, Preferred(available, cached))];
      assert k in available;
      forall e | e in keys && Serves(e, w) && e != k ensures ComesNoLater(k, e, w.model, cached, now) {
        assert e in available;
        HeadComesNoLater(available, e, w.model, cached, now);
      }
      assert IsBest(keys, w, cached, now, k);
    }
  }

  lemma {:induction false} SameHashSameKey(keys: seq<Key>, a: Key, b: Key)
    requires DistinctHashes(keys) && a in keys && b in keys && a.hash == b.hash
    ensures a == b
  {
  }

  /** A key the prompt is cached on is selected whenever it serves the request and is free. */
  lemma {:induction false} CachedKeyIsSelected(keys: seq<Key>, w: Wanted, k: Key, now: int)
    requires DistinctHashes(keys) && k in keys && ServesFree(k, w, now)
    ensures Select(keys, w, Some(k.hash), now) == Selected(k.hash)
  {
    BestKeyIsSelected(keys, w, Some(k.hash), now);
    var b :| IsBest(keys, w, Some(k.hash), now, b) && Select(keys, w, Some(k.hash), now) == Selected(b.hash);
    assert b != k ==> ComesNoLater(b, k, w.model, Some(k.hash), now);
  }

  /**
   * Otherwise, if some key that serves the request is free, the one selected is free, it offers a profile for the
   * model exactly when some free one does, and among those alike in this none has rested longer.
   */
  lemma {:induction false} ProfileThenRestDecides(keys: seq<Key>, w: Wanted, cached: Option<string>, now: int) returns (k: Key)
    requires DistinctHashes(keys) && exists e :: e in keys && ServesFree(e, w, now)
    requires forall e :: e in keys && ServesFree(e, w, now) ==> cached != Some(e.hash)
    ensures k in keys && ServesFree(k, w, now) && Select(keys, w, cached, now) == Selected(k.hash)
    ensures OffersProfile(k, w.model) <==> exists e :: e in keys && ServesFree(e, w, now) && OffersProfile(e, w.model)
    ensures forall e :: e in keys && ServesFree(e, w, now) && (OffersProfile(e, w.model) <==> OffersProfile(k, w.model)) ==>
              k.lastUsed <= e.lastUsed
  {
    BestKeyIsSelected(keys, w, cached, now);
    k :| IsBest(keys, w, cached, now, k) && Select(keys, w, cached, now) == Selected(k.hash);
    var free :| free in keys && ServesFree(free, w, now);
    assert free != k ==> ComesNoLater(k, free, w.model, cached, now);
    if e :| e in keys && ServesFree(e, w, now) && OffersProfile(e, w.model) {
      assert e != k ==> ComesNoLater(k, e, w.model, cached, now);
    }
    forall e | e in keys && ServesFree(e, w, now) && (OffersProfile(e, w.model) <==> OffersProfile(k, w.model))
      ensures k.lastUsed <= e.lastUsed
    {
      assert e != k ==> ComesNoLater(k, e, w.model, cached, now);
    }
  }

  /** If every key that serves the request is locked, the one selected is locked for the shortest time. */
  lemma {:induction false} SoonestUnlockedIsSelected(keys: seq<Key>, w: Wanted, cached: Option<string>, now: int) returns (k: Key)
    requires DistinctHashes(keys) && exists e :: e in keys && Serves(e, w)
    requires forall e :: e in keys && Serves(e, w) ==> now < e.rateLimitedUntil
    ensures k in keys && Serves(k, w) && Select(keys, w, cached, now) == Selected(k.hash)
    ensures forall e :: e in keys && Serves(e, w) ==> k.rateLimitedUntil <= e.rateLimitedUntil
  {
    BestKeyIsSelected(keys, w, cached, now);
    k :| IsBest(keys, w, cached, now, k) && Select(keys, w, cached, now) == Selected(k.hash);
    forall e | e in keys && Serves(e, w) ensures k.rateLimitedUntil <= e.rateLimitedUntil {
      assert e != k ==> ComesNoLater(k, e, w.model, cached, now);
    }
  }

  // ----- Ties -----

  lemma {:induction false} AvailableOfSum(a: seq<Key>, b: seq<Key>, w: Wanted)
    ensures Available(a + b, w) == Available(a, w) + Available(b, w)
  {
    if a == [] {
      assert a + b == b;
    } else {
      AvailableOfSum(a[1..], b, w);
      assert (a + b)[1..] == a[1..] + b;
      SumIsAssociative(if Eligible(a[0], w) then [a[0]] else [], Available(a[1..], w), Available(b, w));
    }
  }

  /** The place among the keys available of one that is available. */
  lemma {:induction false} PlaceAmongAvailable(keys: seq<Key>, p: nat, w: Wanted)
    requires p < |keys| && Eligible(keys[p], w)
    ensures |Available(keys[..p], w)| < |Available(keys, w)|
    ensures Available(keys, w)[|Available(keys[..p], w)|] == keys[p]
  {
    assert keys == keys[..p] + keys[p..];
    AvailableOfSum(keys[..p], keys[p..], w);
  }

  lemma {:induction false} EarlierPlace(keys: seq<Key>, q: nat, p: nat, w: Wanted)
    requires q < p < |keys| && Eligible(keys[q], w)
    ensures |Available(keys[..q], w)| < |Available(keys[..p], w)|
  {
    assert keys[..p][..q] == keys[..q];
    PlaceAmongAvailable(keys[..p], q, w);
  }

  lemma {:induction false} HeadIsFirst(available: seq<Key>, x: nat, y: nat, model: string, preferred: Option<string>, now: int)
    requires DistinctHashes(available) && x < y < |available| && y == Head(available, now, model, preferred)
    ensures !ComesNoLater(available[x], available[y], model, preferred, now)
  {
    HeadIsTheFirstLeast(available, now, model, preferred);
    ComparedExactlyWhen(available[x], available[y], model, preferred, now);
    CompareIsRankOrder(available[x], available[y], now, model, preferred);
    CompareIsRankOrder(available[y], available[x], now, model, preferred);
  }

  /** Between equals the first in the list is selected: no key in front of it comes before it or ties with it. */
  lemma {:induction false} FirstOfEqualsIsSelected(keys: seq<Key>, w: Wanted, cached: Option<string>, now: int, q: nat, p: nat)
    requires DistinctHashes(keys) && q < p < |keys| && Serves(keys[q], w) && Serves(keys[p], w)
    requires Select(keys, w, cached, now) == Selected(keys[p].hash)
    ensures !ComesNoLater(keys[q], keys[p], w.model, cached, now)
  {
    EligibleExactlyWhenItServes(keys[q], w);
    EligibleExactlyWhenItServes(keys[p], w);
    PlaceAmongAvailable(keys, q, w);
    PlaceAmongAvailable(keys, p, w);
    EarlierPlace(keys, q, p, w);
    AvailableHasDistinctHashes(keys, w);
    var available := Available(keys, w);
    var preferred := Preferred(available, cached);
    assert available[Head(available, now, w.model, preferred)].hash == keys[p].hash;
    HeadIsFirst(available, |Available(keys[..q], w)|, |Available(keys[..p], w)|, w.model, preferred, now);
    UnavailableIsNoPreference(keys[q], keys[p], available, w.model, cached, now);
  }

  // ----- What becomes of the keys -----

  /** The key is as it was but for its times of use and its lockout. */
  ghost predicate SameButTimes(k: Key, after: Key) {
    after.(lastUsed := k.lastUsed, rateLimitedAt := k.rateLimitedAt, rateLimitedUntil := k.rateLimitedUntil) == k
  }

  /** A selection marks its key as used now and lets it rest for a quarter second, or as long as it was to rest anyway. */
  lemma {:induction false} SelectedKeyRests(s: State, h: string, p: nat)
    requires p < |s.keys|
    ensures var k, t := s.keys[p], SelectedKey(s, h);
            && |t.keys| == |s.keys| && t.now == s.now && SameButTimes(k, t.keys[p])
            && (if k.hash == h
                then && t.keys[p].lastUsed == s.now && t.keys[p].rateLimitedAt == s.now
                     && t.keys[p].rateLimitedUntil >= s.now + 250 && t.keys[p].rateLimitedUntil >= k.rateLimitedUntil
                     && t.keys[p].rateLimitedUntil in {s.now + 250, k.rateLimitedUntil}
                else t.keys[p] == k)
  {
  }

  /** A rate-limit mark locks its key for five seconds from now, whatever its lockout was, and does not count as a use. */
  lemma {:induction false} MarkedKeyIsLocked(s: State, h: string, p: nat)
    requires p < |s.keys|
    ensures var k, t := s.keys[p], MarkedKey(s, h);
            && |t.keys| == |s.keys| && t.now == s.now && SameButTimes(k, t.keys[p]) && t.keys[p].lastUsed == k.lastUsed
            && (if k.hash == h then t.keys[p].rateLimitedAt == s.now && t.keys[p].rateLimitedUntil == s.now + 5000
                else t.keys[p] == k)
  {
  }

  /** A check changes what it finds of its key, but not when it was used or how long it rests. */
  lemma {:induction false} CheckedKeyIsAsFound(s: State, e: Event, p: nat)
    requires e.Check? && p < |s.keys|
    ensures var k, t := s.keys[p], Step(s, e);
            && |t.keys| == |s.keys| && t.now == s.now && t.log == s.log
            && (if k.hash == e.hash
                then t.keys[p] == Key(k.hash, e.families, e.modelIds, e.profileIds, e.isDisabled, e.isLogged,
                                      k.lastUsed, k.rateLimitedAt, k.rateLimitedUntil)
                else t.keys[p] == k)
  {
  }

  // ----- The period the queue waits for -----

  /** The key works and serves the family. */
  ghost predicate WorksFor(k: Key, family: string) {
    !k.isDisabled && family in k.families
  }

  /**
   * The queue waits for nothing when no key works for the family or one that does is free; otherwise until the
   * moment the first of them is.
   */
  lemma {:induction false} LockoutEndsWithTheFirstFreeKey(keys: seq<Key>, family: string, now: int)
    ensures (forall k :: k in keys ==> !WorksFor(k, family)) ==> Lockout(keys, family, now) == 0
    ensures (exists k :: k in keys && WorksFor(k, family) && Free(k, now)) ==> Lockout(keys, family, now) == 0
    ensures (exists k :: k in keys && WorksFor(k, family)) && (forall k :: k in keys && WorksFor(k, family) ==> !Free(k, now)) ==>
              && (exists k :: k in keys && WorksFor(k, family) && now + Lockout(keys, family, now) == k.rateLimitedUntil)
              && (forall k :: k in keys && WorksFor(k, family) ==> now + Lockout(keys, family, now) <= k.rateLimitedUntil)
  {
    var untils := Untils(keys, family);
    forall k ensures Enabled(k, family) <==> WorksFor(k, family) {
    }
    if untils != [] {
      assert untils[0] in untils;
    }
  }
}
