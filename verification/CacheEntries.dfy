/**
 * What the cache map tells about the past: which key last served a prompt, how often in a row, and for how long that
 * is remembered; and what a lookup finds, in terms of the texts of the fingerprints.
 */
module CacheEntries {
  import opened Options
  import opened CacheTracker

  // ----- What a record remembers -----

  datatype Use = Use(key: string, at: int)

  /** The uses of one fingerprint recorded one after the other. */
  function RecordedAll(m: Cache, fp: string, uses: seq<Use>): Cache {
    if uses == [] then m
    else var last := uses[|uses| - 1]; Recorded(RecordedAll(m, fp, uses[..|uses| - 1]), fp, last.key, last.at)
  }

  /** How many of the last uses in a row were of the same key. */
  ghost function Streak(uses: seq<Use>): nat {
    if uses == [] then 0
    else if |uses| == 1 || uses[|uses| - 2].key != uses[|uses| - 1].key then 1
    else Streak(uses[..|uses| - 1]) + 1
  }

  /** What the map knows of a fingerprint after its first uses. */
  ghost predicate Remembers(m: Cache, fp: string, uses: seq<Use>, ttl: int) {
    && uses != [] && fp in m
    && m[fp] == Entry(uses[|uses| - 1].key, uses[|uses| - 1].at, Streak(uses), ttl)
  }

  /** Never used before: not in the map, or as a placeholder only. */
  ghost predicate Unused(m: Cache, fp: string) {
    fp in m ==> m[fp].keyHash == ""
  }

  lemma {:induction false} OneMoreUse(m: Cache, fp: string, uses: seq<Use>, last: Use, ttl: int)
    requires fp != "" && last.key != "" && Remembers(m, fp, uses, ttl)
    ensures Remembers(Recorded(m, fp, last.key, last.at), fp, uses + [last], ttl)
    ensures forall k :: k != fp ==> (k in Recorded(m, fp, last.key, last.at) <==> k in m)
    ensures forall k :: k != fp && k in m ==> Recorded(m, fp, last.key, last.at)[k] == m[k]
  {
    assert (uses + [last])[..|uses + [last]| - 1] == uses;
  }

  /**
   * After any uses of a fingerprint, the map holds the key of the last one and its time, and counts how many in a
   * row were of that key. The lifetime is the placeholder's, or five minutes where there was none. Nothing else
   * changes.
   */
  lemma {:induction false} UsesAreRemembered(m: Cache, fp: string, uses: seq<Use>)
    requires fp != "" && uses != [] && Unused(m, fp) && forall u :: u in uses ==> u.key != ""
    ensures Remembers(RecordedAll(m, fp, uses), fp, uses, if fp in m then m[fp].ttl else 300000)
    ensures forall k :: k != fp ==> (k in RecordedAll(m, fp, uses) <==> k in m)
    ensures forall k :: k != fp && k in m ==> RecordedAll(m, fp, uses)[k] == m[k]
  {
    var init, last := uses[..|uses| - 1], uses[|uses| - 1];
    assert uses == init + [last];
    if init == [] {
      assert RecordedAll(m, fp, init) == m;
      assert last in uses && Streak(uses) == 1;
    } else {
      UsesAreRemembered(m, fp, init);
      assert last in uses;
      OneMoreUse(RecordedAll(m, fp, init), fp, init, last, if fp in m then m[fp].ttl else 300000);
    }
  }

  /** A use without a fingerprint is not recorded. */
  lemma {:induction false} NothingIsRecordedWithoutFingerprint(m: Cache, uses: seq<Use>)
    ensures RecordedAll(m, "", uses) == m
  {
    if uses != [] {
      NothingIsRecordedWithoutFingerprint(m, uses[..|uses| - 1]);
    }
  }

  // ----- What a lookup finds -----

  /** How far two texts agree. */
  ghost function Agreement(a: string, b: string): nat {
    if a == "" || b == "" || a[0] != b[0] then 0 else 1 + Agreement(a[1..], b[1..])
  }

  /** The entry names a key, its lifetime is not over, and one text is the beginning of the other. */
  ghost predicate Serves(m: Cache, fp: string, k: string, now: int) {
    && k in m && k != "" && m[k].keyHash != "" && now <= m[k].lastUsed + m[k].ttl
    && (Agreement(fp, k) == |fp| || Agreement(fp, k) == |k|)
  }

  lemma {:induction false} AgreementOfPrefix(a: string, b: string)
    ensures Agreement(a, b) <= |a| && Agreement(a, b) <= |b|
    ensures a <= b <==> Agreement(a, b) == |a|
    ensures b <= a <==> Agreement(a, b) == |b|
  {
    if a != "" && b != "" {
      if a[0] == b[0] {
        AgreementOfPrefix(a[1..], b[1..]);
        assert a == [a[0]] + a[1..] && b == [b[0]] + b[1..];
      }
    }
  }

  lemma {:induction false} MatchesExactlyWhenItServes(m: Cache, fp: string, k: string, now: int)
    ensures Matches(m, fp, k, now) <==> Serves(m, fp, k, now)
    ensures Matches(m, fp, k, now) ==> MatchLength(fp, k) == Agreement(fp, k)
  {
    AgreementOfPrefix(fp, k);
  }

  /** A lookup finds an entry that agrees furthest among those that may serve, and fails exactly when there is none. */
  lemma {:induction false} LookupFindsTheFurthestAgreement(m: Cache, fp: string, now: int, hit: Option<Match>, t: Cache)
    requires Lookup(m, fp, now, hit, t) && fp != ""
    ensures hit == None <==> forall k :: k in m ==> !Serves(m, fp, k, now)
    ensures hit.Some? ==>
              && Serves(m, fp, hit.value.matchedFingerprint, now)
              && hit.value.keyHash == m[hit.value.matchedFingerprint].keyHash
              && forall k :: Serves(m, fp, k, now) ==> Agreement(fp, k) <= Agreement(fp, hit.value.matchedFingerprint)
  {
    forall k ensures Matches(m, fp, k, now) <==> Serves(m, fp, k, now) {
      MatchesExactlyWhenItServes(m, fp, k, now);
    }
    if hit.Some? {
      forall k | Serves(m, fp, k, now) ensures Agreement(fp, k) <= Agreement(fp, hit.value.matchedFingerprint) {
        MatchesExactlyWhenItServes(m, fp, k, now);
        MatchesExactlyWhenItServes(m, fp, hit.value.matchedFingerprint, now);
      }
    }
  }

  /** Whatever a lookup or a cleanup drops could not have served any more. */
  lemma {:induction false} OnlyTheDeadAreDropped(m: Cache, fp: string, now: int, hit: Option<Match>, t: Cache, k: string)
    requires Lookup(m, fp, now, hit, t) && k in m
    ensures (k in t && t[k] == m[k]) || (k !in t && m[k].keyHash != "" && m[k].lastUsed + m[k].ttl < now)
    ensures k in CleanedUp(m, now) <==> now <= m[k].lastUsed + m[k].ttl
    ensures k in CleanedUp(m, now) ==> CleanedUp(m, now)[k] == m[k]
  {
  }

  /** A fingerprint is left with a placeholder for its lifetime unless it is in the map already. */
  lemma {:induction false} PlaceholdersAreLeft(m: Cache, fps: seq<string>, ttl: int, k: string)
    ensures k in Placed(m, fps, ttl) <==> k in m || k in fps
    ensures k in m ==> Placed(m, fps, ttl)[k] == m[k]
    ensures k in fps && k !in m ==> Placed(m, fps, ttl)[k].keyHash == "" && Placed(m, fps, ttl)[k].ttl == ttl
  {
  }
}
