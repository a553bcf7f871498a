/**
 * Affinity in terms of request bodies: a conversation that grows by messages keeps the key that served it
 * last, for as long as its requests come within the lifetime of the cache.
 */
module CacheConversations {
  import opened Options
  import opened Fingerprints
  import opened CacheTracker
  import opened CacheAffinity

  /** Each request looks up the fingerprints of its body; a body without a breakpoint is not looked up at all. */
  ghost predicate FromBodies(es: seq<Event>, bodies: seq<Body>, hash: Hash) {
    && |bodies| == |es|
    && forall i :: 0 <= i < |es| ==> FromBody(es[i], bodies[i], hash)
  }

  ghost predicate FromBody(e: Event, body: Body, hash: Hash) {
    e.Request? ==> e.fps == PrefixFingerprints(Items(body), hash) && e.ttl == MaxTtl(Items(body))
  }

  /** The parts up to the last breakpoint. */
  function Cached(items: seq<Item>): (cached: seq<Item>)
    ensures cached <= items
  {
    if items == [] || items[|items| - 1].mark.Marked? then items else Cached(items[..|items| - 1])
  }

  lemma {:induction false} FingerprintIsJoinOfCached(items: seq<Item>, hash: Hash)
    requires PrefixFingerprints(items, hash) != []
    ensures Fingerprint(items, hash) == Some(Join(Hashes(Cached(items), hash)))
  {
    if items[|items| - 1].mark.Marked? {
    } else {
      assert PrefixFingerprints(items, hash) == PrefixFingerprints(items[..|items| - 1], hash) + [];
      FingerprintIsJoinOfCached(items[..|items| - 1], hash);
    }
  }

  function CachedHashes(body: Body, hash: Hash): seq<string> {
    Hashes(Cached(Items(body)), hash)
  }

  /** Neither body's cached parts begin with the other's. */
  ghost predicate OtherContent(a: Body, b: Body, hash: Hash) {
    !(CachedHashes(a, hash) <= CachedHashes(b, hash)) && !(CachedHashes(b, hash) <= CachedHashes(a, hash))
  }

  /** Fingerprints can be taken for one another's exactly when the cached parts of one body begin with the other's. */
  lemma {:induction false} ComparableExactlyWhenNotOther(a: Body, b: Body, hash: Hash)
    requires FixedWidth(hash) && PrefixFingerprints(Items(a), hash) != [] && PrefixFingerprints(Items(b), hash) != []
    ensures Fingerprint(Items(a), hash).Some? && Fingerprint(Items(b), hash).Some?
    ensures Comparable(Fingerprint(Items(a), hash).value, Fingerprint(Items(b), hash).value) <==> !OtherContent(a, b, hash)
  {
    FingerprintIsJoinOfCached(Items(a), hash);
    FingerprintIsJoinOfCached(Items(b), hash);
    StringPrefixIsListPrefix(CachedHashes(a, hash), CachedHashes(b, hash));
    StringPrefixIsListPrefix(CachedHashes(b, hash), CachedHashes(a, hash));
  }

  ghost predicate GrowsBy(a: Body, b: Body) {
    a.tools == b.tools && a.system == b.system && a.messages <= b.messages
  }

  lemma {:induction false} GrowingExtendsFingerprint(a: Body, b: Body, hash: Hash)
    requires GrowsBy(a, b) && Fingerprint(Items(a), hash).Some?
    ensures Fingerprint(Items(b), hash).Some? && Fingerprint(Items(a), hash).value <= Fingerprint(Items(b), hash).value
  {
    var more := b.messages[|a.messages|..];
    assert b == a.(messages := a.messages + more);
    GrowingConversationExtendsFingerprint(a, more, hash);
  }

  /** The requests that are not for other content than the one at `start`. */
  ghost function Own(es: seq<Event>, bodies: seq<Body>, hash: Hash, start: nat): set<int>
    requires |bodies| == |es| && start < |es|
  {
    set k | 0 <= k < |es| && es[k].Request? && !OtherContent(bodies[k], bodies[start], hash)
  }

  /** The conversation's latest request before event `i`; it starts at event `start`. */
  ghost function Latest(own: set<int>, start: nat, i: nat): (latest: nat)
    requires start < i
    ensures start <= latest < i && (latest == start || latest in own)
  {
    if i == start + 1 || i - 1 in own then i - 1 else Latest(own, start, i - 1)
  }

  /**
   * A request at `i` is either for other content, or its body is the conversation's latest one with messages
   * added, and it comes within the lifetime of what was recorded last.
   */
  ghost predicate Continues(ss: seq<State>, es: seq<Event>, bodies: seq<Body>, hash: Hash, start: nat, i: nat)
    requires |ss| == |es| + 1 && |bodies| == |es| && start < i < |es| && es[start].Request? && es[start].fps != []
  {
    es[i].Request? ==>
      || OtherContent(bodies[i], bodies[start], hash)
      || (GrowsBy(bodies[Latest(Own(es, bodies, hash, start), start, i)], bodies[i])
          && ss[i].now - ChainBefore(ss, es, start, i).at <= ChainBefore(ss, es, start, i).ttl)
  }

  ghost predicate Conversation(ss: seq<State>, es: seq<Event>, bodies: seq<Body>, hash: Hash, start: nat)
    requires |ss| == |es| + 1 && |bodies| == |es| && start < |es| && es[start].Request? && es[start].fps != []
  {
    forall i :: start < i < |es| ==> Continues(ss, es, bodies, hash, start, i)
  }

  // ----- The conversation in terms of fingerprints -----

  ghost predicate HasFp(e: Event) {
    e.Request? && e.fps != []
  }

  ghost predicate OwnHaveFps(es: seq<Event>, own: set<int>, start: nat) {
    start < |es| && HasFp(es[start]) && forall k :: k in own ==> 0 <= k < |es| && HasFp(es[k])
  }

  ghost predicate FpContinues(ss: seq<State>, es: seq<Event>, own: set<int>, start: nat, i: nat)
    requires |ss| == |es| + 1 && OwnHaveFps(es, own, start) && start < i < |es|
  {
    && (i in own ==>
          && es[Latest(own, start, i)].Fp() <= es[i].Fp()
          && ss[i].now - ChainBefore(ss, es, start, i).at <= ChainBefore(ss, es, start, i).ttl)
    && (i !in own && HasFp(es[i]) ==> !Comparable(es[i].Fp(), es[start].Fp()))
  }

  /** What the chain and the conversation's first request have fingerprinted, the latest request extends. */
  ghost predicate Within(ss: seq<State>, es: seq<Event>, own: set<int>, start: nat, i: nat)
    requires |ss| == |es| + 1 && OwnHaveFps(es, own, start) && start < i <= |es|
  {
    var latest := es[Latest(own, start, i)].Fp();
    es[start].Fp() <= latest && ChainBefore(ss, es, start, i).top <= latest
  }

  lemma {:induction false} OwnRequestExtends(ss: seq<State>, es: seq<Event>, own: set<int>, start: nat, i: nat)
    requires |ss| == |es| + 1 && OwnHaveFps(es, own, start) && start < i < |es| && i in own
    requires Within(ss, es, own, start, i) && FpContinues(ss, es, own, start, i)
    ensures es[start].Fp() <= es[i].Fp() && ChainBefore(ss, es, start, i).top <= es[i].Fp()
  {
    var latest := es[Latest(own, start, i)].Fp();
    PrefixIsTransitive(es[start].Fp(), latest, es[i].Fp());
    PrefixIsTransitive(ChainBefore(ss, es, start, i).top, latest, es[i].Fp());
  }

  lemma {:induction false} OneMoreEvent(ss: seq<State>, es: seq<Event>, own: set<int>, start: nat, i: nat)
    requires |ss| == |es| + 1 && OwnHaveFps(es, own, start) && start + 1 < i <= |es|
    requires Within(ss, es, own, start, i - 1) && FpContinues(ss, es, own, start, i - 1)
    ensures Within(ss, es, own, start, i)
  {
    if i - 1 in own {
      OwnRequestExtends(ss, es, own, start, i - 1);
    }
  }

  lemma {:induction false} LatestExtendsTheChain(ss: seq<State>, es: seq<Event>, own: set<int>, start: nat, i: nat)
    requires |ss| == |es| + 1 && OwnHaveFps(es, own, start) && start < i <= |es|
    requires forall k :: start < k < |es| ==> FpContinues(ss, es, own, start, k)
    ensures Within(ss, es, own, start, i)
    decreases i
  {
    if i == start + 1 {
      assert Latest(own, start, i) == start;
    } else {
      LatestExtendsTheChain(ss, es, own, start, i - 1);
      assert FpContinues(ss, es, own, start, i - 1);
      OneMoreEvent(ss, es, own, start, i);
    }
  }

  lemma {:induction false} ContinuingExtendsTheChain(ss: seq<State>, es: seq<Event>, own: set<int>, start: nat, i: nat)
    requires |ss| == |es| + 1 && OwnHaveFps(es, own, start) && start < i < |es|
    requires Within(ss, es, own, start, i) && FpContinues(ss, es, own, start, i)
    ensures OtherOrExtends(ss, es, start, i)
  {
    if i in own {
      OwnRequestExtends(ss, es, own, start, i);
    }
  }

  // ----- From bodies to fingerprints -----

  lemma {:induction false} FpIsFingerprint(es: seq<Event>, bodies: seq<Body>, hash: Hash, i: nat)
    requires FromBodies(es, bodies, hash) && i < |es| && HasFp(es[i])
    ensures Fingerprint(Items(bodies[i]), hash) == Some(es[i].Fp())
  {
    assert FromBody(es[i], bodies[i], hash);
    FpOfBody(es[i], bodies[i], hash);
  }

  lemma {:induction false} FpOfBody(e: Event, body: Body, hash: Hash)
    requires FromBody(e, body, hash) && HasFp(e)
    ensures Fingerprint(Items(body), hash) == Some(e.Fp())
  {
  }

  lemma {:induction false} OtherExactlyWhenNotComparable(es: seq<Event>, bodies: seq<Body>, hash: Hash, start: nat, i: nat)
    requires FixedWidth(hash) && FromBodies(es, bodies, hash) && start < |es| && i < |es| && HasFp(es[start]) && HasFp(es[i])
    ensures OtherContent(bodies[i], bodies[start], hash) <==> !Comparable(es[i].Fp(), es[start].Fp())
  {
    FpIsFingerprint(es, bodies, hash, start);
    FpIsFingerprint(es, bodies, hash, i);
    ComparableExactlyWhenNotOther(bodies[i], bodies[start], hash);
  }

  lemma {:induction false} GrowingRequestExtends(es: seq<Event>, bodies: seq<Body>, hash: Hash, j: nat, i: nat)
    requires FromBodies(es, bodies, hash) && j < |es| && i < |es| && HasFp(es[j]) && HasFp(es[i])
    requires GrowsBy(bodies[j], bodies[i])
    ensures es[j].Fp() <= es[i].Fp()
  {
    FpIsFingerprint(es, bodies, hash, j);
    FpIsFingerprint(es, bodies, hash, i);
    GrowingExtendsFingerprint(bodies[j], bodies[i], hash);
  }

  /** No request of a run comes without fingerprints. */
  ghost predicate AllFingerprinted(es: seq<Event>) {
    forall i :: 0 <= i < |es| && es[i].Request? ==> HasFp(es[i])
  }

  lemma {:induction false} RunIsFingerprinted(ss: seq<State>, es: seq<Event>)
    requires Run(ss, es)
    ensures AllFingerprinted(es)
  {
    forall i | 0 <= i < |es| && es[i].Request? ensures HasFp(es[i]) {
      assert Next(ss[i], es[i], ss[i + 1]);
    }
  }

  lemma {:induction false} ContinuesInFingerprints(
    ss: seq<State>, es: seq<Event>, bodies: seq<Body>, hash: Hash, own: set<int>, start: nat, i: nat)
    requires FixedWidth(hash) && |ss| == |es| + 1 && FromBodies(es, bodies, hash) && start < i < |es|
    requires OwnHaveFps(es, own, start) && own == Own(es, bodies, hash, start)
    requires Continues(ss, es, bodies, hash, start, i)
    ensures FpContinues(ss, es, own, start, i)
  {
    if i in own {
      GrowingRequestExtends(es, bodies, hash, Latest(own, start, i), i);
    } else if HasFp(es[i]) {
      OtherExactlyWhenNotComparable(es, bodies, hash, start, i);
    }
  }

  /** A conversation that grows by messages is a growing chain of fingerprints. */
  lemma {:induction false} ConversationGrows(
    ss: seq<State>, es: seq<Event>, bodies: seq<Body>, hash: Hash, own: set<int>, start: nat)
    requires FixedWidth(hash) && |ss| == |es| + 1 && FromBodies(es, bodies, hash) && start < |es|
    requires OwnHaveFps(es, own, start) && own == Own(es, bodies, hash, start)
    requires Conversation(ss, es, bodies, hash, start)
    ensures Grows(ss, es, start)
    ensures forall i :: start < i < |es| && i in own ==> InChain(es[i], es[start].Fp())
  {
    forall i: nat | start < i < |es| ensures FpContinues(ss, es, own, start, i) {
      assert Continues(ss, es, bodies, hash, start, i);
      ContinuesInFingerprints(ss, es, bodies, hash, own, start, i);
    }
    forall i: nat | start < i < |es| ensures Within(ss, es, own, start, i) {
      LatestExtendsTheChain(ss, es, own, start, i);
    }
    WithinGrows(ss, es, own, start);
  }

  lemma {:induction false} WithinGrows(ss: seq<State>, es: seq<Event>, own: set<int>, start: nat)
    requires |ss| == |es| + 1 && OwnHaveFps(es, own, start)
    requires forall i :: start < i < |es| ==> Within(ss, es, own, start, i) && FpContinues(ss, es, own, start, i)
    ensures Grows(ss, es, start)
    ensures forall i :: start < i < |es| && i in own ==> InChain(es[i], es[start].Fp())
  {
    forall i: nat | start < i < |es| ensures OtherOrExtends(ss, es, start, i) {
      ContinuingExtendsTheChain(ss, es, own, start, i);
    }
    forall i: nat | start < i < |es| && i in own ensures InChain(es[i], es[start].Fp()) {
      OwnRequestExtends(ss, es, own, start, i);
    }
  }

  /**
   * In every run of requests with any bodies, cleanups and clock ticks: once a conversation's first lookup has
   * missed and a key has served it, each later request that adds messages to it is directed to the key that
   * served it last, whatever requests for other content come in between.
   */
  lemma {:induction false} ConversationKeepsItsKey(
    ss: seq<State>, es: seq<Event>, bodies: seq<Body>, hash: Hash, start: nat, i: nat)
    requires FixedWidth(hash) && Run(ss, es) && FromBodies(es, bodies, hash) && start < i < |es|
    requires es[start].Request? && es[start].fps != [] && es[start].served.Some? && es[start].hit == None
    requires Conversation(ss, es, bodies, hash, start)
    requires es[i].Request? && !OtherContent(bodies[i], bodies[start], hash)
    ensures es[i].hit == Some(Match(ChainBefore(ss, es, start, i).key, ChainBefore(ss, es, start, i).recorded))
  {
    RunIsFingerprinted(ss, es);
    ConversationGrows(ss, es, bodies, hash, Own(es, bodies, hash, start), start);
    GrowingConversationKeepsItsKey(ss, es, start, i);
  }
}
