/**
 * The order in which a provider's keys are tried, and the lockout period the
 * queue waits for. The comparator is the AWS one: cache affinity first, then
 * inference profiles, then the key that has rested longest.
 */
module KeyPriority {
  import opened Options

  datatype Key = Key(
    hash: string, families: set<string>, modelIds: seq<string>, profileIds: seq<string>,
    isDisabled: bool, isLogged: bool, lastUsed: int, rateLimitedAt: int, rateLimitedUntil: int)

  /** What a request asks of a key; `variant` and `family` come from the model tables. */
  datatype Wanted = Wanted(model: string, variant: string, family: string, allowLogging: bool)

  predicate Includes(text: string, part: string) {
    part <= text || (text != "" && Includes(text[1..], part))
  }

  predicate Enabled(k: Key, family: string) {
    !k.isDisabled && family in k.families
  }

  predicate Eligible(k: Key, w: Wanted) {
    && Enabled(k, w.family)
    && (w.allowLogging || !k.isLogged)
    && exists m :: m in k.modelIds && Includes(m, w.variant)
  }

  predicate Locked(k: Key, now: int) {
    now < k.rateLimitedUntil
  }

  function HasProfile(k: Key, model: string): int {
    if exists p :: p in k.profileIds && Includes(p, model) then 1 else 0
  }

  // ----- The comparator -----

  function CompareCustom(a: Key, b: Key, model: string, preferred: Option<string>): int {
    if preferred.Some? && a.hash == preferred.value then -1
    else if preferred.Some? && b.hash == preferred.value then 1
    else HasProfile(b, model) - HasProfile(a, model)
  }

  function Compare(a: Key, b: Key, now: int, model: string, preferred: Option<string>): int {
    if Locked(a, now) && !Locked(b, now) then 1
    else if !Locked(a, now) && Locked(b, now) then -1
    else if Locked(a, now) && Locked(b, now) then a.rateLimitedUntil - b.rateLimitedUntil
    else
      var custom := CompareCustom(a, b, model, preferred);
      if custom != 0 then custom else a.lastUsed - b.lastUsed
  }

  /** What the comparator ranks a key by, most significant first; lower comes first. */
  function Rank(k: Key, now: int, model: string, preferred: Option<string>): (int, int) {
    if Locked(k, now) then (3, k.rateLimitedUntil)
    else if preferred == Some(k.hash) then (0, 0)
    else (2 - HasProfile(k, model), k.lastUsed)
  }

  predicate RankBefore(a: (int, int), b: (int, int)) {
    a.0 < b.0 || (a.0 == b.0 && a.1 < b.1)
  }

  /** Between keys with different hashes, the comparator is the order of the ranks. */
  lemma {:induction false} CompareIsRankOrder(a: Key, b: Key, now: int, model: string, preferred: Option<string>)
    requires a.hash != b.hash
    ensures Compare(a, b, now, model, preferred) < 0 <==> RankBefore(Rank(a, now, model, preferred), Rank(b, now, model, preferred))
    ensures Compare(a, b, now, model, preferred) > 0 <==> RankBefore(Rank(b, now, model, preferred), Rank(a, now, model, preferred))
  {
  }

  /** On keys with different hashes the comparator is a strict weak order. */
  lemma {:induction false} CompareIsAStrictWeakOrder(a: Key, b: Key, c: Key, now: int, model: string, preferred: Option<string>)
    requires a.hash != b.hash && b.hash != c.hash && a.hash != c.hash
    ensures Compare(a, b, now, model, preferred) < 0 <==> Compare(b, a, now, model, preferred) > 0
    ensures Compare(a, b, now, model, preferred) < 0 && Compare(b, c, now, model, preferred) < 0 ==>
              Compare(a, c, now, model, preferred) < 0
    ensures Compare(a, b, now, model, preferred) == 0 && Compare(b, c, now, model, preferred) == 0 ==>
              Compare(a, c, now, model, preferred) == 0
  {
    CompareIsRankOrder(a, b, now, model, preferred);
    CompareIsRankOrder(b, a, now, model, preferred);
    CompareIsRankOrder(b, c, now, model, preferred);
    CompareIsRankOrder(a, c, now, model, preferred);
  }

  /** A key compares equal to itself exactly when it is not the unlocked preferred one. */
  lemma {:induction false} CompareIsReflexiveExceptForThePreferredKey(k: Key, now: int, model: string, preferred: Option<string>)
    ensures Compare(k, k, now, model, preferred) == 0 <==> Locked(k, now) || preferred != Some(k.hash)
  {
  }

  // ----- The head of the sorted list -----

  ghost predicate DistinctHashes(keys: seq<Key>) {
    forall i, j :: 0 <= i < j < |keys| ==> keys[i].hash != keys[j].hash
  }

  /** `order` lists the positions of `keys` as a stable sort by the comparator leaves them. */
  ghost predicate StableSort(keys: seq<Key>, order: seq<nat>, now: int, model: string, preferred: Option<string>) {
    && |order| == |keys|
    && (forall i :: 0 <= i < |order| ==> order[i] < |keys|)
    && (forall p :: 0 <= p < |keys| ==> p in order)
    && (forall i, j :: 0 <= i < j < |order| ==>
          var d := Compare(keys[order[i]], keys[order[j]], now, model, preferred);
          d < 0 || (d == 0 && order[i] < order[j]))
  }

  /** The position the sort puts first: the first of the least keys. */
  function Head(keys: seq<Key>, now: int, model: string, preferred: Option<string>): (p: nat)
    requires keys != []
    ensures p < |keys|
  {
    if |keys| == 1 then 0
    else
      var p := Head(keys[..|keys| - 1], now, model, preferred);
      if Compare(keys[|keys| - 1], keys[p], now, model, preferred) < 0 then |keys| - 1 else p
  }

  lemma {:induction false} BeforeTheLeast(a: Key, least: Key, b: Key, now: int, model: string, preferred: Option<string>)
    requires a.hash != least.hash && least.hash != b.hash && a.hash != b.hash
    requires Compare(a, least, now, model, preferred) < 0 && Compare(least, b, now, model, preferred) <= 0
    ensures Compare(a, b, now, model, preferred) < 0
  {
    CompareIsRankOrder(a, least, now, model, preferred);
    CompareIsRankOrder(least, b, now, model, preferred);
    CompareIsRankOrder(a, b, now, model, preferred);
  }

  /** Position `p` is least, and the first such. */
  ghost predicate FirstLeast(keys: seq<Key>, p: nat, now: int, model: string, preferred: Option<string>) {
    && p < |keys|
    && (forall q :: 0 <= q < |keys| && q != p ==> Compare(keys[p], keys[q], now, model, preferred) <= 0)
    && (forall q :: 0 <= q < p ==> Compare(keys[p], keys[q], now, model, preferred) < 0)
  }

  lemma {:induction false} LastIsFirstLeast(keys: seq<Key>, p: nat, now: int, model: string, preferred: Option<string>)
    requires |keys| > 1 && DistinctHashes(keys) && FirstLeast(keys[..|keys| - 1], p, now, model, preferred)
    requires Compare(keys[|keys| - 1], keys[p], now, model, preferred) < 0
    ensures FirstLeast(keys, |keys| - 1, now, model, preferred)
  {
    var n := |keys| - 1;
    forall q | 0 <= q < n ensures Compare(keys[n], keys[q], now, model, preferred) < 0 {
      if q != p {
        assert Compare(keys[..n][p], keys[..n][q], now, model, preferred) <= 0;
        BeforeTheLeast(keys[n], keys[p], keys[q], now, model, preferred);
      }
    }
  }

  lemma {:induction false} EarlierIsFirstLeast(keys: seq<Key>, p: nat, now: int, model: string, preferred: Option<string>)
    requires |keys| > 1 && DistinctHashes(keys) && FirstLeast(keys[..|keys| - 1], p, now, model, preferred)
    requires !(Compare(keys[|keys| - 1], keys[p], now, model, preferred) < 0)
    ensures FirstLeast(keys, p, now, model, preferred)
  {
    var n := |keys| - 1;
    CompareIsRankOrder(keys[p], keys[n], now, model, preferred);
    CompareIsRankOrder(keys[n], keys[p], now, model, preferred);
    forall q | 0 <= q < n && q != p
      ensures Compare(keys[p], keys[q], now, model, preferred) <= 0
      ensures q < p ==> Compare(keys[p], keys[q], now, model, preferred) < 0
    {
      assert keys[..n][q] == keys[q] && keys[..n][p] == keys[p];
    }
  }

  lemma {:induction false} HeadIsTheFirstLeast(keys: seq<Key>, now: int, model: string, preferred: Option<string>)
    requires keys != [] && DistinctHashes(keys)
    ensures FirstLeast(keys, Head(keys, now, model, preferred), now, model, preferred)
  {
    if |keys| == 1 {
    } else {
      var front := keys[..|keys| - 1];
      HeadIsTheFirstLeast(front, now, model, preferred);
      var p := Head(front, now, model, preferred);
      if Compare(keys[|keys| - 1], keys[p], now, model, preferred) < 0 {
        LastIsFirstLeast(keys, p, now, model, preferred);
      } else {
        EarlierIsFirstLeast(keys, p, now, model, preferred);
      }
    }
  }

  /** Whatever stable sort is used, its first element is the head. */
  lemma {:induction false} SortPutsTheHeadFirst(keys: seq<Key>, order: seq<nat>, now: int, model: string, preferred: Option<string>)
    requires keys != [] && DistinctHashes(keys)
    requires StableSort(keys, order, now, model, preferred)
    ensures order[0] == Head(keys, now, model, preferred)
  {
    HeadIsTheFirstLeast(keys, now, model, preferred);
    var p := Head(keys, now, model, preferred);
    assert p in order;
    var i :| 0 <= i < |order| && order[i] == p;
    if order[0] != p {
      var d := Compare(keys[order[0]], keys[order[i]], now, model, preferred);
      CompareIsRankOrder(keys[order[0]], keys[p], now, model, preferred);
      CompareIsRankOrder(keys[p], keys[order[0]], now, model, preferred);
      assert false;
    }
  }

  /** The head is unlocked whenever any key of the list is. */
  lemma {:induction false} HeadIsUnlockedIfAnyIs(keys: seq<Key>, now: int, model: string, preferred: Option<string>)
    requires keys != [] && DistinctHashes(keys)
    ensures !Locked(keys[Head(keys, now, model, preferred)], now) <==> exists k :: k in keys && !Locked(k, now)
  {
    HeadIsTheFirstLeast(keys, now, model, preferred);
    var p := Head(keys, now, model, preferred);
    assert keys[p] in keys;
    if k :| k in keys && !Locked(k, now) {
      var q :| 0 <= q < |keys| && keys[q] == k;
      assert q != p ==> Compare(keys[p], keys[q], now, model, preferred) <= 0;
    }
  }

  // ----- The lockout period -----

  function Untils(keys: seq<Key>, family: string): (us: seq<int>)
    ensures forall u :: u in us ==> exists k :: k in keys && Enabled(k, family) && k.rateLimitedUntil == u
    ensures forall k :: k in keys && Enabled(k, family) ==> k.rateLimitedUntil in us
  {
    if keys == [] then []
    else
      assert keys == [keys[0]] + keys[1..];
      (if Enabled(keys[0], family) then [keys[0].rateLimitedUntil] else []) + Untils(keys[1..], family)
  }

  function Least(us: seq<int>): (m: int)
    requires us != []
    ensures m in us && forall u :: u in us ==> m <= u
  {
    if |us| == 1 then us[0]
    else
      assert us == [us[0]] + us[1..];
      var m := Least(us[1..]);
      if us[0] < m then us[0] else m
  }

  function Lockout(keys: seq<Key>, family: string, now: int): int {
    var untils := Untils(keys, family);
    if untils == [] || exists u :: u in untils && !(now < u) then 0
    else Least(untils) - now
  }

  /** The queue is let through exactly when no enabled key serves the family or one of them is unlocked. */
  lemma {:induction false} LockoutIsZeroExactlyWhen(keys: seq<Key>, family: string, now: int)
    ensures Lockout(keys, family, now) >= 0
    ensures Lockout(keys, family, now) == 0 <==>
              ((forall k :: k in keys ==> !Enabled(k, family))
               || exists k :: k in keys && Enabled(k, family) && !Locked(k, now))
  {
    var untils := Untils(keys, family);
    if untils != [] {
      assert untils[0] in untils;
    }
  }

  /** A positive period is exact: left alone, the lockout stays up until then and is gone at that instant. */
  lemma {:induction false} LockoutCountsDownExactly(keys: seq<Key>, family: string, now: int, later: int)
    requires now <= later <= now + Lockout(keys, family, now)
    requires Lockout(keys, family, now) > 0
    ensures Lockout(keys, family, later) == now + Lockout(keys, family, now) - later
    ensures Lockout(keys, family, later) > 0 <==> later < now + Lockout(keys, family, now)
  {
    var untils := Untils(keys, family);
    var m := Least(untils);
    assert m in untils;
  }
}
