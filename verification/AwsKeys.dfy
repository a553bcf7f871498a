/** Selection, throttling and rate-limit marking of AWS keys, and what they guarantee over every run. */
module AwsKeys {
  import opened Options
  import opened KeyPriority

  const RATE_LIMIT_LOCKOUT := 5000
  const KEY_REUSE_DELAY := 250

  datatype Selection = NoKeys | Selected(hash: string)

  function Max(a: int, b: int): int {
    if a < b then b else a
  }

  // ----- Operations on the list of keys -----

  function Available(keys: seq<Key>, w: Wanted): (ks: seq<Key>)
    ensures forall k :: k in ks <==> k in keys && Eligible(k, w)
  {
    if keys == [] then []
    else
      assert keys == [keys[0]] + keys[1..];
      (if Eligible(keys[0], w) then [keys[0]] else []) + Available(keys[1..], w)
  }

  /** The key with a live cache entry counts only while it is available. */
  function Preferred(available: seq<Key>, cached: Option<string>): Option<string> {
    if cached.Some? && exists k :: k in available && k.hash == cached.value then cached else None
  }

  function Select(keys: seq<Key>, w: Wanted, cached: Option<string>, now: int): Selection {
    var available := Available(keys, w);
    if available == [] then NoKeys
    else Selected(available[Head(available, now, w.model, Preferred(available, cached))].hash)
  }

  function Find(keys: seq<Key>, h: string): (i: int)
    ensures -1 <= i < |keys|
    ensures i >= 0 ==> keys[i].hash == h
    ensures i == -1 ==> forall k :: k in keys ==> k.hash != h
  {
    if keys == [] then -1
    else if keys[0].hash == h then 0
    else
      assert keys == [keys[0]] + keys[1..];
      var i := Find(keys[1..], h);
      if i == -1 then -1 else i + 1
  }

  function Throttled(k: Key, now: int): Key {
    k.(rateLimitedAt := now, rateLimitedUntil := Max(k.rateLimitedUntil, now + KEY_REUSE_DELAY))
  }

  function Used(k: Key, now: int): Key {
    Throttled(k.(lastUsed := now), now)
  }

  function Limited(k: Key, now: int): Key {
    k.(rateLimitedAt := now, rateLimitedUntil := now + RATE_LIMIT_LOCKOUT)
  }

  lemma {:induction false} AvailableHasDistinctHashes(keys: seq<Key>, w: Wanted)
    requires DistinctHashes(keys)
    ensures DistinctHashes(Available(keys, w))
  {
    if keys == [] {
    } else {
      assert DistinctHashes(keys[1..]);
      AvailableHasDistinctHashes(keys[1..], w);
      var rest := Available(keys[1..], w);
      forall j | 0 <= j < |rest| ensures rest[j].hash != keys[0].hash {
        assert rest[j] in keys[1..];
      }
    }
  }

  /** A selected key is an eligible one, and it is unlocked exactly when some eligible key is. */
  lemma {:induction false} SelectedKeyIsUnlockedIfAnyEligibleIs(keys: seq<Key>, w: Wanted, cached: Option<string>, now: int)
    requires DistinctHashes(keys)
    ensures Select(keys, w, cached, now) == NoKeys <==> forall k :: k in keys ==> !Eligible(k, w)
    ensures Select(keys, w, cached, now).Selected? ==>
              exists k :: k in keys && Eligible(k, w) && k.hash == Select(keys, w, cached, now).hash
                && (!Locked(k, now) <==> exists e :: e in keys && Eligible(e, w) && !Locked(e, now))
  {
    var available := Available(keys, w);
    if available == [] {
      forall k | k in keys ensures !Eligible(k, w) {
        assert k !in available;
      }
    } else {
      AvailableHasDistinctHashes(keys, w);
      HeadIsUnlockedIfAnyIs(available, now, w.model, Preferred(available, cached));
      var k := available[Head(available, now, w.model, Preferred(available, cached))];
      assert k in available;
      assert (exists e :: e in available && !Locked(e, now)) <==> (exists e :: e in keys && Eligible(e, w) && !Locked(e, now));
    }
  }

  /**
   * Behind a zero lockout, if every enabled key of the family is eligible for
   * the model, the selected key is not locked.
   */
  lemma {:induction false} GatedSelectionIsUnlocked(keys: seq<Key>, w: Wanted, cached: Option<string>, now: int)
    requires DistinctHashes(keys) && Lockout(keys, w.family, now) == 0
    requires forall k :: k in keys && Enabled(k, w.family) ==> Eligible(k, w)
    requires Select(keys, w, cached, now).Selected?
    ensures exists k :: k in keys && k.hash == Select(keys, w, cached, now).hash && !Locked(k, now)
  {
    LockoutIsZeroExactlyWhen(keys, w.family, now);
    SelectedKeyIsUnlockedIfAnyEligibleIs(keys, w, cached, now);
  }

  /** The hypothesis matters: an unlocked key that may not serve the model opens the gate for a locked one. */
  lemma {:induction false} IneligibleKeyOpensTheGateForALockedOne() returns (keys: seq<Key>, w: Wanted)
    ensures DistinctHashes(keys) && Lockout(keys, w.family, 0) == 0
    ensures Select(keys, w, None, 0) == Selected("busy")
    ensures forall k :: k in keys && k.hash == "busy" ==> Locked(k, 0)
  {
    w := Wanted("m", "m", "aws-claude", false);
    var busy := Key("busy", {"aws-claude"}, ["m"], [], false, false, 0, 0, 100);
    var logged := Key("logged", {"aws-claude"}, ["m"], [], false, true, 0, 0, 0);
    keys := [busy, logged];
    assert "m" in busy.modelIds;
    assert Enabled(logged, w.family) && !Locked(logged, 0);
    UnlockedKeyOpensTheGate(keys, logged, w.family, 0);
    assert Eligible(busy, w) && !Eligible(logged, w);
    OnlyEligibleIsSelected(keys, busy, w, 0);
  }

  lemma {:induction false} UnlockedKeyOpensTheGate(keys: seq<Key>, k: Key, family: string, now: int)
    requires k in keys && Enabled(k, family) && !Locked(k, now)
    ensures Lockout(keys, family, now) == 0
  {
    LockoutIsZeroExactlyWhen(keys, family, now);
  }

  lemma {:induction false} OnlyEligibleIsSelected(keys: seq<Key>, k: Key, w: Wanted, now: int)
    requires DistinctHashes(keys) && k in keys && Eligible(k, w) && forall e :: e in keys && e != k ==> !Eligible(e, w)
    ensures Select(keys, w, None, now) == Selected(k.hash)
  {
    SelectedKeyIsUnlockedIfAnyEligibleIs(keys, w, None, now);
  }

  // ----- The provider object -----

  class AwsKeyProvider {
    var keys: seq<Key>

    ghost predicate Valid()
      reads this
    {
      DistinctHashes(keys)
    }

    constructor (keys: seq<Key>)
      requires DistinctHashes(keys)
      ensures Valid() && this.keys == keys
    {
      this.keys := keys;
    }

    method Get(w: Wanted, cached: Option<string>, now: int) returns (selection: Selection)
      requires Valid()
      modifies this
      ensures Valid() && |keys| == |old(keys)|
      ensures selection == Select(old(keys), w, cached, now)
      ensures forall i :: 0 <= i < |keys| ==>
                keys[i] == if selection == Selected(old(keys)[i].hash) then Used(old(keys)[i], now) else old(keys)[i]
    {
      var availableKeys := Available(keys, w);
      if |availableKeys| == 0 {
        return NoKeys;
      }
      var preferredKeyHash := Preferred(availableKeys, cached);
      var selectedKey := availableKeys[Head(availableKeys, now, w.model, preferredKeyHash)];
      assert selectedKey in availableKeys && selectedKey in keys;
      var i := Find(keys, selectedKey.hash);
      keys := keys[i := keys[i].(lastUsed := now)];
      assert keys[i] in keys;
      Throttle(selectedKey.hash, now);
      selection := Selected(selectedKey.hash);
    }

    method Throttle(h: string, now: int)
      requires Valid() && exists k :: k in keys && k.hash == h
      modifies this
      ensures Valid() && |keys| == |old(keys)|
      ensures forall i :: 0 <= i < |keys| ==>
                keys[i] == if old(keys)[i].hash == h then Throttled(old(keys)[i], now) else old(keys)[i]
    {
      var i := Find(keys, h);
      var currentRateLimit := keys[i].rateLimitedUntil;
      var nextRateLimit := now + KEY_REUSE_DELAY;
      keys := keys[i := keys[i].(rateLimitedAt := now, rateLimitedUntil := Max(currentRateLimit, nextRateLimit))];
    }

    method MarkRateLimited(h: string, now: int)
      requires Valid() && exists k :: k in keys && k.hash == h
      modifies this
      ensures Valid() && |keys| == |old(keys)|
      ensures forall i :: 0 <= i < |keys| ==>
                keys[i] == if old(keys)[i].hash == h then Limited(old(keys)[i], now) else old(keys)[i]
    {
      var i := Find(keys, h);
      keys := keys[i := keys[i].(rateLimitedAt := now, rateLimitedUntil := now + RATE_LIMIT_LOCKOUT)];
    }
  }

  // ----- Runs -----

  /** One use of a key: a selection or a rate-limit mark, and how long the key should rest after it. */
  datatype Use = Use(hash: string, at: int, rest: int)

  /** The provider's keys, and the history of their uses, oldest first. */
  datatype State = State(now: int, keys: seq<Key>, log: seq<Use>)

  /** One selection: what is wanted, and the key a live cache entry names. */
  datatype Ask = Ask(w: Wanted, cached: Option<string>)

  /**
   * A queue tick reads the lockout of every family before it lets the first request
   * proceed; `Process` lists the requests it dispatches, at most one for each family,
   * and what their selections give.
   */
  datatype Event =
    | Tick(elapsed: nat)
    | Process(queued: seq<Ask>, picks: seq<Selection>)
    | Direct(ask: Ask, pick: Selection)  // by a caller that does not wait
    | Mark(hash: string)
    | Check(hash: string, isDisabled: bool, isLogged: bool, families: set<string>, modelIds: seq<string>, profileIds: seq<string>)

  function UsedKeys(keys: seq<Key>, h: string, now: int): (after: seq<Key>)
    ensures |after| == |keys|
    ensures forall p :: 0 <= p < |keys| ==> after[p] == if keys[p].hash == h then Used(keys[p], now) else keys[p]
  {
    if keys == [] then []
    else [if keys[0].hash == h then Used(keys[0], now) else keys[0]] + UsedKeys(keys[1..], h, now)
  }

  function LimitedKeys(keys: seq<Key>, h: string, now: int): (after: seq<Key>)
    ensures |after| == |keys|
    ensures forall p :: 0 <= p < |keys| ==> after[p] == if keys[p].hash == h then Limited(keys[p], now) else keys[p]
  {
    if keys == [] then []
    else [if keys[0].hash == h then Limited(keys[0], now) else keys[0]] + LimitedKeys(keys[1..], h, now)
  }

  function Checked(k: Key, e: Event): Key
    requires e.Check?
  {
    k.(isDisabled := e.isDisabled, isLogged := e.isLogged, families := e.families, modelIds := e.modelIds, profileIds := e.profileIds)
  }

  function CheckedKeys(keys: seq<Key>, e: Event): (after: seq<Key>)
    requires e.Check?
    ensures |after| == |keys|
    ensures forall p :: 0 <= p < |keys| ==> after[p] == if keys[p].hash == e.hash then Checked(keys[p], e) else keys[p]
  {
    if keys == [] then []
    else [if keys[0].hash == e.hash then Checked(keys[0], e) else keys[0]] + CheckedKeys(keys[1..], e)
  }

  function AfterPick(s: State, pick: Selection): State {
    if pick.Selected? then SelectedKey(s, pick.hash) else s
  }

  function SelectedKey(s: State, h: string): State {
    State(s.now, UsedKeys(s.keys, h, s.now), s.log + [Use(h, s.now, KEY_REUSE_DELAY)])
  }

  function MarkedKey(s: State, h: string): State {
    State(s.now, LimitedKeys(s.keys, h, s.now), s.log + [Use(h, s.now, RATE_LIMIT_LOCKOUT)])
  }

  /** The state after the first `m` selections of one turn. */
  function AfterPicks(s: State, picks: seq<Selection>, m: nat): State
    requires m <= |picks|
  {
    if m == 0 then s else AfterPick(AfterPicks(s, picks, m - 1), picks[m - 1])
  }

  function Step(s: State, e: Event): State {
    match e
    case Tick(elapsed) => s.(now := s.now + elapsed)
    case Process(_, picks) => AfterPicks(s, picks, |picks|)
    case Direct(_, pick) => AfterPick(s, pick)
    case Mark(h) => MarkedKey(s, h)
    case Check(_, _, _, _, _, _) => s.(keys := CheckedKeys(s.keys, e))
  }

  /** Every family's lockout is read before any selection. */
  ghost predicate Gated(s: State, asks: seq<Ask>) {
    && (forall m :: 0 <= m < |asks| ==> Lockout(s.keys, asks[m].w.family, s.now) == 0)
    && (forall m, n :: 0 <= m < n < |asks| ==> asks[m].w.family != asks[n].w.family)
  }

  /** What `AwsKeyProvider.Get` gives for one ask. */
  ghost predicate Gives(s: State, a: Ask, pick: Selection) {
    Select(s.keys, a.w, a.cached, s.now) == pick
  }

  ghost predicate Next(s: State, e: Event, t: State) {
    && t == Step(s, e)
    && (e.Direct? ==> Gives(s, e.ask, e.pick))
    && (e.Process? ==> Gated(s, e.queued) && |e.picks| == |e.queued| && AllGiven(s, e.queued, e.picks))
  }

  /** Each selection is made from the keys as the ones before it have left them. */
  ghost predicate AllGiven(s: State, asks: seq<Ask>, picks: seq<Selection>)
    requires |picks| == |asks|
  {
    forall m :: 0 <= m < |asks| ==> Gives(AfterPicks(s, picks, m), asks[m], picks[m])
  }

  /** Runs start with fresh keys, as the constructor makes them. */
  ghost predicate Run(ss: seq<State>, es: seq<Event>) {
    && |ss| == |es| + 1
    && Fresh(ss[0])
    && forall i :: 0 <= i < |es| ==> Next(ss[i], es[i], ss[i + 1])
  }

  ghost predicate Fresh(s: State) {
    && DistinctHashes(s.keys) && s.log == []
    && forall p :: 0 <= p < |s.keys| ==> s.keys[p].rateLimitedUntil <= s.now
  }

  // ----- Why a key is locked -----

  ghost predicate LogLocks(log: seq<Use>, h: string, t: int) {
    exists u :: u in log && u.hash == h && u.at + u.rest > t
  }

  /** From `start` on, each key's lockout is what its uses say. */
  ghost predicate LockoutsAreLogged(keys: seq<Key>, log: seq<Use>, start: int) {
    forall p, t :: 0 <= p < |keys| && start <= t ==> (keys[p].rateLimitedUntil > t <==> LogLocks(log, keys[p].hash, t))
  }

  ghost predicate Inv(s: State, start: int) {
    && DistinctHashes(s.keys) && start <= s.now
    && (forall u :: u in s.log ==> u.at <= s.now)
    && (forall p :: 0 <= p < |s.keys| ==> s.keys[p].rateLimitedUntil <= s.now + RATE_LIMIT_LOCKOUT)
    && LockoutsAreLogged(s.keys, s.log, start)
  }

  lemma {:induction false} LogOneMore(log: seq<Use>, u: Use, h: string, t: int)
    ensures LogLocks(log + [u], h, t) <==> LogLocks(log, h, t) || (u.hash == h && u.at + u.rest > t)
  {
    assert u in log + [u];
    assert forall v :: v in log ==> v in log + [u];
  }

  /** `t` differs from `s` by one more use of key `h`. */
  lemma {:induction false} UseKeepsInv(s: State, t: State, start: int, h: string, rest: int)
    requires Inv(s, start) && rest <= RATE_LIMIT_LOCKOUT
    requires t.now == s.now && |t.keys| == |s.keys| && t.log == s.log + [Use(h, s.now, rest)]
    requires forall p :: 0 <= p < |s.keys| ==>
               && t.keys[p].hash == s.keys[p].hash
               && t.keys[p].rateLimitedUntil ==
                  if s.keys[p].hash == h then Max(s.keys[p].rateLimitedUntil, s.now + rest) else s.keys[p].rateLimitedUntil
    ensures Inv(t, start)
  {
    forall p, x | 0 <= p < |t.keys| && start <= x ensures t.keys[p].rateLimitedUntil > x <==> LogLocks(t.log, t.keys[p].hash, x) {
      LogOneMore(s.log, Use(h, s.now, rest), t.keys[p].hash, x);
    }
  }

  lemma {:induction false} SelectedKeyKeepsInv(s: State, start: int, h: string)
    requires Inv(s, start)
    ensures Inv(SelectedKey(s, h), start)
  {
    UseKeepsInv(s, SelectedKey(s, h), start, h, KEY_REUSE_DELAY);
  }

  lemma {:induction false} MarkedKeyKeepsInv(s: State, start: int, h: string)
    requires Inv(s, start)
    ensures Inv(MarkedKey(s, h), start)
  {
    UseKeepsInv(s, MarkedKey(s, h), start, h, RATE_LIMIT_LOCKOUT);
  }

  lemma {:induction false} PickKeepsInv(s: State, pick: Selection, start: int)
    requires Inv(s, start)
    ensures Inv(AfterPick(s, pick), start)
  {
    if pick.Selected? {
      SelectedKeyKeepsInv(s, start, pick.hash);
    }
  }

  lemma {:induction false} PicksKeepInv(s: State, picks: seq<Selection>, m: nat, start: int)
    requires Inv(s, start) && m <= |picks|
    ensures Inv(AfterPicks(s, picks, m), start)
  {
    if m == 0 {
    } else {
      PicksKeepInv(s, picks, m - 1, start);
      PickKeepsInv(AfterPicks(s, picks, m - 1), picks[m - 1], start);
    }
  }

  /** In every run each lockout is what the uses of its key say, and at most the full lockout ahead of the clock. */
  lemma {:induction false} InvHoldsInEveryRun(ss: seq<State>, es: seq<Event>, i: nat)
    requires Run(ss, es) && i <= |es|
    ensures Inv(ss[i], ss[0].now)
  {
    if i == 0 {
    } else {
      InvHoldsInEveryRun(ss, es, i - 1);
      assert Next(ss[i - 1], es[i - 1], ss[i]);
      StepKeepsInv(ss[i - 1], es[i - 1], ss[0].now);
    }
  }

  lemma {:induction false} StepKeepsInv(s: State, e: Event, start: int)
    requires Inv(s, start)
    ensures Inv(Step(s, e), start)
  {
    match e
    case Process(_, picks) => PicksKeepInv(s, picks, |picks|, start);
    case Direct(_, pick) => PickKeepsInv(s, pick, start);
    case Mark(h) => MarkedKeyKeepsInv(s, start, h);
    case Check(_, _, _, _, _, _) => SameLocksKeepInv(s, Step(s, e), start);
    case Tick(_) => SameLocksKeepInv(s, Step(s, e), start);
  }

  /** Neither a key's lockout nor its uses have changed. */
  lemma {:induction false} SameLocksKeepInv(s: State, t: State, start: int)
    requires Inv(s, start) && s.now <= t.now && t.log == s.log && |t.keys| == |s.keys|
    requires forall p :: 0 <= p < |s.keys| ==>
               t.keys[p].hash == s.keys[p].hash && t.keys[p].rateLimitedUntil == s.keys[p].rateLimitedUntil
    ensures Inv(t, start)
  {
  }

  /** The key has had its rest after every use. */
  ghost predicate Rested(s: State, h: string) {
    forall u :: u in s.log && u.hash == h ==> s.now - u.at >= u.rest
  }

  lemma {:induction false} UnlockedIsRested(s: State, start: int, k: Key)
    requires Inv(s, start) && k in s.keys
    ensures !Locked(k, s.now) <==> Rested(s, k.hash)
  {
    var p :| 0 <= p < |s.keys| && s.keys[p] == k;
    assert Locked(k, s.now) <==> LogLocks(s.log, k.hash, s.now);
  }

  /**
   * In every run a key is unlocked exactly when it was last selected at least KEY_REUSE_DELAY
   * before and last marked at least RATE_LIMIT_LOCKOUT before.
   */
  lemma {:induction false} UnlockedExactlyWhenRested(ss: seq<State>, es: seq<Event>, i: nat, k: Key)
    requires Run(ss, es) && i <= |es| && k in ss[i].keys
    ensures !Locked(k, ss[i].now) <==> Rested(ss[i], k.hash)
  {
    InvHoldsInEveryRun(ss, es, i);
    UnlockedIsRested(ss[i], ss[0].now, k);
  }

  // ----- The clock -----

  /** A step moves neither the clock nor a lockout back, and forgets no use. */
  ghost predicate Onward(s: State, t: State) {
    && s.now <= t.now && s.log <= t.log && |t.keys| == |s.keys|
    && forall p :: 0 <= p < |s.keys| ==> t.keys[p].hash == s.keys[p].hash && s.keys[p].rateLimitedUntil <= t.keys[p].rateLimitedUntil
  }

  lemma {:induction false} PicksGoOnward(s: State, picks: seq<Selection>, m: nat)
    requires m <= |picks|
    ensures Onward(s, AfterPicks(s, picks, m))
  {
    if m == 0 {
    } else {
      var before := AfterPicks(s, picks, m - 1);
      PicksGoOnward(s, picks, m - 1);
      PickGoesOnward(before, picks[m - 1]);
      OnwardIsTransitive(s, before, AfterPicks(s, picks, m));
    }
  }

  lemma {:induction false} PickGoesOnward(s: State, pick: Selection)
    ensures Onward(s, AfterPick(s, pick))
  {
    if pick.Selected? {
      SelectedKeyGoesOnward(s, pick.hash);
    }
  }

  lemma {:induction false} SelectedKeyGoesOnward(s: State, h: string)
    ensures Onward(s, SelectedKey(s, h))
  {
  }

  lemma {:induction false} OnwardIsTransitive(s: State, t: State, u: State)
    requires Onward(s, t) && Onward(t, u)
    ensures Onward(s, u)
  {
    assert s.log == t.log[..|s.log|] == u.log[..|s.log|];
  }

  /** In every run no lockout ever moves back. */
  lemma {:induction false} LockoutClockNeverMovesBack(ss: seq<State>, es: seq<Event>, i: nat, j: nat)
    requires Run(ss, es) && i <= j <= |es|
    ensures Onward(ss[i], ss[j])
    decreases j - i
  {
    if i == j {
    } else {
      InvHoldsInEveryRun(ss, es, i);
      assert Next(ss[i], es[i], ss[i + 1]);
      StepGoesOnward(ss[i], es[i], ss[0].now);
      LockoutClockNeverMovesBack(ss, es, i + 1, j);
      OnwardIsTransitive(ss[i], ss[i + 1], ss[j]);
    }
  }

  lemma {:induction false} StepGoesOnward(s: State, e: Event, start: int)
    requires Inv(s, start)
    ensures Onward(s, Step(s, e))
  {
    match e
    case Process(_, picks) => PicksGoOnward(s, picks, |picks|);
    case Direct(_, pick) => PickGoesOnward(s, pick);
    case _ =>
  }

  // ----- Spacing -----

  ghost predicate SameService(a: Key, b: Key) {
    b == a.(lastUsed := b.lastUsed, rateLimitedAt := b.rateLimitedAt, rateLimitedUntil := b.rateLimitedUntil)
  }

  /** Key `h` has been used between `s` and `t`. */
  ghost predicate Taken(s: State, t: State, h: string) {
    exists n :: |s.log| <= n < |t.log| && t.log[n].hash == h
  }

  /** `t` is a later point of the turn that began at `s`: no key has changed in what it may serve, and exactly the taken ones got locked. */
  ghost predicate LaterInTurn(s: State, t: State) {
    && t.now == s.now && |s.log| <= |t.log| && |t.keys| == |s.keys|
    && forall p :: 0 <= p < |s.keys| ==>
         && SameService(s.keys[p], t.keys[p])
         && (Locked(t.keys[p], s.now) <==> Locked(s.keys[p], s.now) || Taken(s, t, s.keys[p].hash))
  }

  lemma {:induction false} PicksAreLaterInTurn(s: State, picks: seq<Selection>, m: nat)
    requires m <= |picks|
    ensures LaterInTurn(s, AfterPicks(s, picks, m))
  {
    if m == 0 {
    } else {
      PicksAreLaterInTurn(s, picks, m - 1);
      PickIsLaterInTurn(s, AfterPicks(s, picks, m - 1), picks[m - 1]);
    }
  }

  lemma {:induction false} PickIsLaterInTurn(s: State, before: State, pick: Selection)
    requires LaterInTurn(s, before)
    ensures LaterInTurn(s, AfterPick(before, pick))
  {
    if pick.Selected? {
      SelectedKeyIsLaterInTurn(s, before, pick.hash);
    }
  }

  lemma {:induction false} SelectedKeyIsLaterInTurn(s: State, before: State, h: string)
    requires LaterInTurn(s, before)
    ensures LaterInTurn(s, SelectedKey(before, h))
  {
    var t := SelectedKey(before, h);
    forall x ensures Taken(s, t, x) <==> Taken(s, before, x) || x == h {
      assert t.log[|before.log|].hash == h;
      assert forall n :: 0 <= n < |before.log| ==> t.log[n] == before.log[n];
    }
  }

  /** Some key that may serve `w` was unlocked as the turn began, and no selection of the turn has taken it yet. */
  ghost predicate KeyLeft(s: State, t: State, w: Wanted) {
    exists k :: k in s.keys && Eligible(k, w) && !Locked(k, s.now) && !Taken(s, t, k.hash)
  }

  ghost predicate Unlocked(t: State, w: Wanted) {
    exists k :: k in t.keys && Eligible(k, w) && !Locked(k, t.now)
  }

  lemma {:induction false} LeftIsUnlocked(s: State, t: State, w: Wanted)
    requires LaterInTurn(s, t) && KeyLeft(s, t, w)
    ensures Unlocked(t, w)
  {
    var k :| k in s.keys && Eligible(k, w) && !Locked(k, s.now) && !Taken(s, t, k.hash);
    var p :| 0 <= p < |s.keys| && s.keys[p] == k;
    ServesAlike(k, t.keys[p], w);
    assert t.keys[p] in t.keys;
  }

  lemma {:induction false} UnlockedIsLeft(s: State, t: State, w: Wanted)
    requires LaterInTurn(s, t) && Unlocked(t, w)
    ensures KeyLeft(s, t, w)
  {
    var k :| k in t.keys && Eligible(k, w) && !Locked(k, t.now);
    var p :| 0 <= p < |t.keys| && t.keys[p] == k;
    ServesAlike(s.keys[p], k, w);
    assert s.keys[p] in s.keys;
  }

  lemma {:induction false} ServesAlike(a: Key, b: Key, w: Wanted)
    requires SameService(a, b)
    ensures Eligible(a, w) <==> Eligible(b, w)
    ensures Enabled(a, w.family) <==> Enabled(b, w.family)
    ensures a.hash == b.hash
  {
  }

  lemma {:induction false} SelectedIsRestedExactlyWhenUnlocked(t: State, start: int, a: Ask, h: string)
    requires Inv(t, start) && Gives(t, a, Selected(h))
    ensures Rested(t, h) <==> Unlocked(t, a.w)
  {
    SelectedKeyIsUnlockedIfAnyEligibleIs(t.keys, a.w, a.cached, t.now);
    var k :| k in t.keys && k.hash == h && (!Locked(k, t.now) <==> exists e :: e in t.keys && Eligible(e, a.w) && !Locked(e, t.now));
    UnlockedIsRested(t, start, k);
  }

  /** Selection number `m` of the queue tick at event `i` gives key `h`. */
  ghost predicate Dispatches(ss: seq<State>, es: seq<Event>, i: nat, m: nat, h: string) {
    && i < |es| && es[i].Process? && m < |es[i].picks| == |es[i].queued|
    && es[i].picks[m] == Selected(h)
  }

  /**
   * Key spacing. In every run, a dispatch is given a rested key exactly when some key that may serve
   * it was unlocked as its tick began and has not been taken by an earlier dispatch of the tick.
   */
  lemma {:induction false} DispatchIsSpacedExactlyWhen(ss: seq<State>, es: seq<Event>, i: nat, m: nat, h: string)
    requires Run(ss, es) && Dispatches(ss, es, i, m, h)
    ensures var t := AfterPicks(ss[i], es[i].picks, m);
            Rested(t, h) <==> KeyLeft(ss[i], t, es[i].queued[m].w)
  {
    var s, e := ss[i], es[i];
    var t, a := AfterPicks(s, e.picks, m), e.queued[m];
    assert Next(s, e, ss[i + 1]);
    InvHoldsInEveryRun(ss, es, i);
    PicksKeepInv(s, e.picks, m, ss[0].now);
    PicksAreLaterInTurn(s, e.picks, m);
    SelectedIsRestedExactlyWhenUnlocked(t, ss[0].now, a, h);
    if KeyLeft(s, t, a.w) {
      LeftIsUnlocked(s, t, a.w);
    }
    if Unlocked(t, a.w) {
      UnlockedIsLeft(s, t, a.w);
    }
  }

  /** A caller that does not wait is given a rested key exactly when one that may serve it is unlocked. */
  lemma {:induction false} DirectIsSpacedExactlyWhen(ss: seq<State>, es: seq<Event>, i: nat, h: string)
    requires Run(ss, es) && i < |es| && es[i].Direct? && es[i].pick == Selected(h)
    ensures Rested(ss[i], h) <==> Unlocked(ss[i], es[i].ask.w)
  {
    assert Next(ss[i], es[i], ss[i + 1]);
    InvHoldsInEveryRun(ss, es, i);
    SelectedIsRestedExactlyWhenUnlocked(ss[i], ss[0].now, es[i].ask, h);
  }

  /** No earlier request of the tick is for a family that has an enabled key in common with this one's. */
  ghost predicate SharesNoKeyBefore(s: State, asks: seq<Ask>, m: nat)
    requires m < |asks|
  {
    forall n, k :: 0 <= n < m && k in s.keys && Enabled(k, asks[m].w.family) ==> !Enabled(k, asks[n].w.family)
  }

  lemma {:induction false} TakenIsPicked(s: State, picks: seq<Selection>, m: nat, h: string) returns (n: nat)
    requires m <= |picks| && Taken(s, AfterPicks(s, picks, m), h)
    ensures n < m && picks[n] == Selected(h)
    decreases m
  {
    n := 0;
    if m == 0 {
    } else {
      var before := AfterPicks(s, picks, m - 1);
      PicksAreLaterInTurn(s, picks, m - 1);
      if Taken(s, before, h) {
        n := TakenIsPicked(s, picks, m - 1, h);
      } else {
        n := m - 1;
        LastTakenIsPicked(s, before, picks[n], h);
      }
    }
  }

  lemma {:induction false} LastTakenIsPicked(s: State, before: State, pick: Selection, h: string)
    requires |s.log| <= |before.log| && !Taken(s, before, h) && Taken(s, AfterPick(before, pick), h)
    ensures pick == Selected(h)
  {
    assert forall n :: 0 <= n < |before.log| ==> AfterPick(before, pick).log[n] == before.log[n];
  }

  /** A selection takes only a key that is enabled for its family. */
  lemma {:induction false} GivenIsEnabled(s: State, asks: seq<Ask>, picks: seq<Selection>, n: nat, k: Key)
    requires DistinctHashes(s.keys) && |picks| == |asks| && n < |asks| && k in s.keys
    requires AllGiven(s, asks, picks) && picks[n] == Selected(k.hash)
    ensures Enabled(k, asks[n].w.family)
  {
    PicksAreLaterInTurn(s, picks, n);
    var p :| 0 <= p < |s.keys| && s.keys[p] == k;
    GivenKeyIsEligible(s, AfterPicks(s, picks, n), asks[n], k.hash, p);
  }

  lemma {:induction false} GivenKeyIsEligible(s: State, t: State, a: Ask, h: string, p: nat)
    requires DistinctHashes(s.keys) && LaterInTurn(s, t) && Gives(t, a, Selected(h)) && p < |s.keys| && s.keys[p].hash == h
    ensures Eligible(s.keys[p], a.w)
  {
    assert forall q :: 0 <= q < |s.keys| ==> t.keys[q].hash == s.keys[q].hash;
    SelectedKeyIsUnlockedIfAnyEligibleIs(t.keys, a.w, a.cached, t.now);
    var chosen :| chosen in t.keys && Eligible(chosen, a.w) && chosen.hash == h;
    var q :| 0 <= q < |t.keys| && t.keys[q] == chosen;
    assert q == p;
    ServesAlike(s.keys[p], chosen, a.w);
  }

  /**
   * Behind the gates of a queue tick, with every enabled key of the family able to serve the model,
   * a dispatch finds a rested key if no earlier dispatch of the tick is for a family that shares an
   * enabled key with its own; so the first dispatch of a tick always does.
   */
  lemma {:induction false} QueueSpacesUsesOfAKey(ss: seq<State>, es: seq<Event>, i: nat, m: nat, h: string)
    requires Run(ss, es) && Dispatches(ss, es, i, m, h)
    requires forall k :: k in ss[i].keys && Enabled(k, es[i].queued[m].w.family) ==> Eligible(k, es[i].queued[m].w)
    requires SharesNoKeyBefore(ss[i], es[i].queued, m)
    ensures Rested(AfterPicks(ss[i], es[i].picks, m), h)
  {
    var s, e := ss[i], es[i];
    var t, a := AfterPicks(s, e.picks, m), e.queued[m];
    assert Next(s, e, ss[i + 1]);
    InvHoldsInEveryRun(ss, es, i);
    PicksKeepInv(s, e.picks, m, ss[0].now);
    PicksAreLaterInTurn(s, e.picks, m);
    GivenKeyIsOfTheFamily(s, t, ss[0].now, a, h);
    LockoutIsZeroExactlyWhen(s.keys, a.w.family, s.now);
    var k :| k in s.keys && Enabled(k, a.w.family) && !Locked(k, s.now);
    if Taken(s, t, k.hash) {
      var n := TakenIsPicked(s, e.picks, m, k.hash);
      GivenIsEnabled(s, e.queued, e.picks, n, k);
    }
    assert KeyLeft(s, t, a.w);
    DispatchIsSpacedExactlyWhen(ss, es, i, m, h);
  }

  lemma {:induction false} GivenKeyIsOfTheFamily(s: State, t: State, start: int, a: Ask, h: string)
    requires Inv(s, start) && LaterInTurn(s, t) && Inv(t, start) && Gives(t, a, Selected(h))
    ensures exists k :: k in s.keys && Enabled(k, a.w.family)
  {
    SelectedKeyIsUnlockedIfAnyEligibleIs(t.keys, a.w, a.cached, t.now);
    var chosen :| chosen in t.keys && Eligible(chosen, a.w);
    var p :| 0 <= p < |t.keys| && t.keys[p] == chosen;
    ServesAlike(s.keys[p], chosen, a.w);
    assert s.keys[p] in s.keys;
  }

  // ----- Ticks that crowd a key -----

  lemma {:induction false} TwoAsksMakeATick(s: State, first: Ask, second: Ask, p: Selection, q: Selection)
    requires Lockout(s.keys, first.w.family, s.now) == 0 && Lockout(s.keys, second.w.family, s.now) == 0
    requires first.w.family != second.w.family
    requires Gives(s, first, p) && Gives(AfterPick(s, p), second, q)
    ensures Next(s, Process([first, second], [p, q]), Step(s, Process([first, second], [p, q])))
    ensures AfterPicks(s, [p, q], 1) == AfterPick(s, p)
  {
    var asks, picks := [first, second], [p, q];
    assert AfterPicks(s, picks, 0) == s;
    assert AfterPicks(s, picks, 1) == AfterPick(s, p);
    forall m | 0 <= m < |asks| ensures Gives(AfterPicks(s, picks, m), asks[m], picks[m]) {
      assert m == 0 || m == 1;
    }
  }

  lemma {:induction false} LoneKeyIsGiven(s: State, a: Ask)
    requires |s.keys| == 1 && Eligible(s.keys[0], a.w)
    ensures Gives(s, a, Selected(s.keys[0].hash))
  {
    assert s.keys[0] in s.keys;
    SelectedKeyIsUnlockedIfAnyEligibleIs(s.keys, a.w, a.cached, s.now);
  }

  /**
   * A key that is alone in serving two families, with a request waiting for each: both lockouts are
   * zero as the tick begins, so both requests go to the key, and the second finds it just used.
   */
  lemma {:induction false} TwoFamilyTickUsesAKeyTwice(s: State, first: Ask, second: Ask) returns (e: Event)
    requires |s.keys| == 1 && !Locked(s.keys[0], s.now) && first.w.family != second.w.family
    requires Eligible(s.keys[0], first.w) && Eligible(s.keys[0], second.w)
    ensures e.Process? && e.queued == [first, second] && Next(s, e, Step(s, e))
    ensures e.picks == [Selected(s.keys[0].hash), Selected(s.keys[0].hash)]
    ensures !Rested(AfterPicks(s, e.picks, 1), s.keys[0].hash)
  {
    var key := s.keys[0];
    var pick := Selected(key.hash);
    assert key in s.keys;
    LockoutIsZeroExactlyWhen(s.keys, first.w.family, s.now);
    LockoutIsZeroExactlyWhen(s.keys, second.w.family, s.now);
    LoneKeyIsGiven(s, first);
    var t := SelectedKey(s, key.hash);
    ServesAlike(key, t.keys[0], second.w);
    LoneKeyIsGiven(t, second);
    TwoAsksMakeATick(s, first, second, pick, pick);
    e := Process([first, second], [pick, pick]);
    assert Use(key.hash, s.now, KEY_REUSE_DELAY) in t.log;
  }

  lemma {:induction false} AllAvailable(keys: seq<Key>, w: Wanted)
    requires forall k :: k in keys ==> Eligible(k, w)
    ensures Available(keys, w) == keys
  {
    if keys == [] {
    } else {
      assert keys == [keys[0]] + keys[1..];
      AllAvailable(keys[1..], w);
    }
  }

  /** Among two locked keys the one that is unlocked first is selected, however recently it was used. */
  lemma {:induction false} SoonerUnlockedIsGiven(t: State, a: Ask)
    requires |t.keys| == 2 && t.keys[0].hash != t.keys[1].hash
    requires Eligible(t.keys[0], a.w) && Eligible(t.keys[1], a.w)
    requires t.now < t.keys[0].rateLimitedUntil < t.keys[1].rateLimitedUntil
    ensures Gives(t, a, Selected(t.keys[0].hash))
  {
    var keys := t.keys;
    AllAvailable(keys, a.w);
    var preferred := Preferred(keys, a.cached);
    HeadIsTheFirstLeast(keys, t.now, a.w.model, preferred);
  }

  lemma {:induction false} OnlyUnlockedIsGiven(s: State, a: Ask)
    requires |s.keys| == 2 && s.keys[0].hash != s.keys[1].hash
    requires Eligible(s.keys[0], a.w) && Eligible(s.keys[1], a.w)
    requires Locked(s.keys[0], s.now) && !Locked(s.keys[1], s.now)
    ensures Gives(s, a, Selected(s.keys[1].hash))
  {
    assert s.keys[0] in s.keys && s.keys[1] in s.keys;
    SelectedKeyIsUnlockedIfAnyEligibleIs(s.keys, a.w, a.cached, s.now);
  }

  /**
   * A crowded tick reaches back over earlier ticks: once its first dispatch has taken the only unlocked
   * key, its second is given the key that is unlocked next, though an earlier tick used it too recently.
   */
  lemma {:induction false} CrowdedTickReusesAnEarlierKey(s: State, first: Ask, second: Ask) returns (e: Event)
    requires |s.keys| == 2 && s.keys[0].hash != s.keys[1].hash && first.w.family != second.w.family
    requires forall p :: 0 <= p < 2 ==> Eligible(s.keys[p], first.w) && Eligible(s.keys[p], second.w)
    requires s.keys[1].rateLimitedUntil <= s.now < s.keys[0].rateLimitedUntil < s.now + KEY_REUSE_DELAY
    ensures e.Process? && e.queued == [first, second] && Next(s, e, Step(s, e))
    ensures e.picks == [Selected(s.keys[1].hash), Selected(s.keys[0].hash)]
  {
    var a, b := s.keys[0], s.keys[1];
    assert a in s.keys && b in s.keys;
    LockoutIsZeroExactlyWhen(s.keys, first.w.family, s.now);
    LockoutIsZeroExactlyWhen(s.keys, second.w.family, s.now);
    OnlyUnlockedIsGiven(s, first);
    EarlierKeyIsGiven(s, second);
    TwoAsksMakeATick(s, first, second, Selected(b.hash), Selected(a.hash));
    e := Process([first, second], [Selected(b.hash), Selected(a.hash)]);
  }

  lemma {:induction false} EarlierKeyIsGiven(s: State, second: Ask)
    requires |s.keys| == 2 && s.keys[0].hash != s.keys[1].hash
    requires Eligible(s.keys[0], second.w) && Eligible(s.keys[1], second.w)
    requires s.keys[1].rateLimitedUntil <= s.now < s.keys[0].rateLimitedUntil < s.now + KEY_REUSE_DELAY
    ensures Gives(AfterPick(s, Selected(s.keys[1].hash)), second, Selected(s.keys[0].hash))
  {
    var t := SelectedKey(s, s.keys[1].hash);
    ServesAlike(s.keys[1], t.keys[1], second.w);
    SoonerUnlockedIsGiven(t, second);
  }

  lemma {:induction false} CachedKeyIsGiven(s: State, a: Ask)
    requires |s.keys| == 2 && s.keys[0].hash != s.keys[1].hash && a.cached == Some(s.keys[0].hash)
    requires Eligible(s.keys[0], a.w) && Eligible(s.keys[1], a.w) && !Locked(s.keys[0], s.now)
    ensures Gives(s, a, Selected(s.keys[0].hash))
  {
    var keys := s.keys;
    AllAvailable(keys, a.w);
    assert keys[0] in keys;
    HeadIsTheFirstLeast(keys, s.now, a.w.model, Preferred(keys, a.cached));
  }

  lemma {:induction false} OneAskMakesATick(s: State, a: Ask, p: Selection)
    requires Lockout(s.keys, a.w.family, s.now) == 0 && Gives(s, a, p)
    ensures Next(s, Process([a], [p]), AfterPick(s, p))
  {
    assert AfterPicks(s, [p], 0) == s;
    assert AfterPicks(s, [p], 1) == AfterPick(s, p);
  }

  lemma {:induction false} RunOfThree(s0: State, e0: Event, s1: State, e1: Event, s2: State, e2: Event, s3: State)
    requires Fresh(s0) && Next(s0, e0, s1) && Next(s1, e1, s2) && Next(s2, e2, s3)
    ensures Run([s0, s1, s2, s3], [e0, e1, e2])
  {
  }

  lemma {:induction false} EarlyTickUsesTheCachedKey(s: State, early: Ask)
    requires |s.keys| == 2 && s.keys[0].hash != s.keys[1].hash && early.cached == Some(s.keys[0].hash)
    requires Eligible(s.keys[0], early.w) && Eligible(s.keys[1], early.w) && !Locked(s.keys[0], s.now)
    ensures Next(s, Process([early], [Selected(s.keys[0].hash)]), SelectedKey(s, s.keys[0].hash))
  {
    assert s.keys[0] in s.keys;
    LockoutIsZeroExactlyWhen(s.keys, early.w.family, s.now);
    CachedKeyIsGiven(s, early);
    OneAskMakesATick(s, early, Selected(s.keys[0].hash));
  }

  /** Soon after its use the key is locked, but for less than KEY_REUSE_DELAY, and serves what it served. */
  lemma {:induction false} SoonAfterUse(s: State, elapsed: nat, w: Wanted)
    requires |s.keys| == 2 && s.keys[0].hash != s.keys[1].hash && 0 < elapsed < KEY_REUSE_DELAY
    requires s.keys[0].rateLimitedUntil <= s.now && s.keys[1].rateLimitedUntil <= s.now
    requires Eligible(s.keys[0], w) && Eligible(s.keys[1], w)
    ensures var t := Step(SelectedKey(s, s.keys[0].hash), Tick(elapsed));
            && |t.keys| == 2 && t.keys[0].hash == s.keys[0].hash && t.keys[1].hash == s.keys[1].hash
            && Eligible(t.keys[0], w) && Eligible(t.keys[1], w)
            && t.keys[1].rateLimitedUntil <= t.now < t.keys[0].rateLimitedUntil < t.now + KEY_REUSE_DELAY
  {
    var t := SelectedKey(s, s.keys[0].hash);
    ServesAlike(s.keys[0], t.keys[0], w);
    ServesAlike(s.keys[1], t.keys[1], w);
  }

  /**
   * A run in which two different ticks, fewer than KEY_REUSE_DELAY apart, both dispatch a request to the same key,
   * though every key may serve every request: the later tick is crowded.
   */
  lemma {:induction false} NearbyTicksUseAKeyTwice(s: State, early: Ask, first: Ask, second: Ask, elapsed: nat)
    returns (ss: seq<State>, es: seq<Event>)
    requires Fresh(s) && |s.keys| == 2 && first.w.family != second.w.family && 0 < elapsed < KEY_REUSE_DELAY
    requires forall p :: 0 <= p < 2 ==> Eligible(s.keys[p], early.w) && Eligible(s.keys[p], first.w) && Eligible(s.keys[p], second.w)
    requires early.cached == Some(s.keys[0].hash)
    ensures Run(ss, es) && ss[0] == s && |es| == 3 && es[1] == Tick(elapsed)
    ensures Dispatches(ss, es, 0, 0, s.keys[0].hash) && Dispatches(ss, es, 2, 1, s.keys[0].hash)
  {
    var s2 := Step(SelectedKey(s, s.keys[0].hash), Tick(elapsed));
    SoonAfterUse(s, elapsed, first.w);
    SoonAfterUse(s, elapsed, second.w);
    var e := CrowdedTickReusesAnEarlierKey(s2, first, second);
    ss, es := EarlyTickRun(s, early, elapsed, e);
  }

  lemma {:induction false} EarlyTickRun(s: State, early: Ask, elapsed: nat, e: Event) returns (ss: seq<State>, es: seq<Event>)
    requires Fresh(s) && |s.keys| == 2 && early.cached == Some(s.keys[0].hash)
    requires Eligible(s.keys[0], early.w) && Eligible(s.keys[1], early.w)
    requires var s2 := Step(SelectedKey(s, s.keys[0].hash), Tick(elapsed)); Next(s2, e, Step(s2, e))
    ensures Run(ss, es) && |es| == 3 && ss[0] == s
    ensures es[0] == Process([early], [Selected(s.keys[0].hash)]) && es[1] == Tick(elapsed) && es[2] == e
  {
    var e0 := Process([early], [Selected(s.keys[0].hash)]);
    var s1 := SelectedKey(s, s.keys[0].hash);
    var s2 := Step(s1, Tick(elapsed));
    EarlyTickUsesTheCachedKey(s, early);
    RunOfThree(s, e0, s1, Tick(elapsed), s2, e, Step(s2, e));
    ss, es := [s, s1, s2, Step(s2, e)], [e0, Tick(elapsed), e];
  }
}
