/**
 * Key affinity: in any run of requests, cleanups and clock ticks, a conversation
 * that only grows keeps being sent to the key that served it last.
 */
module CacheAffinity {
  import opened Options
  import opened CacheTracker

  datatype State = State(now: int, cache: Cache)

  /**
   * A request carries the fingerprints of its breakpoints, deepest last, and what
   * its lookup gave. `keyUsable` says whether the hit's key may still serve the
   * model; `served` is the key that was selected, if any was available.
   */
  datatype Event =
    | Tick(elapsed: nat)
    | Cleanup
    | Request(fps: seq<string>, ttl: int, hit: Option<Match>, keyUsable: bool, served: Option<string>)
  {
    function Fp(): string
      requires Request? && fps != []
    {
      fps[|fps| - 1]
    }

    /** The fingerprint under which the served key is recorded. */
    function RecordedFp(): string
      requires Request? && fps != []
    {
      if hit.Some? && keyUsable then hit.value.matchedFingerprint else Fp()
    }
  }

  ghost predicate Next(s: State, e: Event, t: State) {
    match e
    case Tick(elapsed) => t == s.(now := s.now + elapsed)
    case Cleanup => t == s.(cache := CleanedUp(s.cache, s.now))
    case Request(fps, ttl, hit, _, served) =>
      && t.now == s.now
      && fps != [] && e.Fp() != ""
      && served != Some("")
      && exists found: Cache ::
           && Lookup(Placed(s.cache, fps, ttl), e.Fp(), s.now, hit, found)
           && t.cache == if served.Some? then Recorded(found, e.RecordedFp(), served.value, s.now) else found
  }

  ghost predicate Run(ss: seq<State>, es: seq<Event>) {
    |ss| == |es| + 1 && forall i :: 0 <= i < |es| ==> Next(ss[i], es[i], ss[i + 1])
  }

  // ----- The chain -----

  /** The latest fingerprint of the conversation, and what was last recorded for it. */
  datatype Chain = Chain(top: string, recorded: string, key: string, at: int, ttl: int)

  ghost predicate InChain(e: Event, first: string) {
    e.Request? && e.fps != [] && first <= e.Fp()
  }

  ghost function TtlIn(s: State, fp: string): int {
    if fp in s.cache then s.cache[fp].ttl else 0
  }

  /**
   * The chain as it stands before event `i`; it starts with the request at event `start`. A request for which
   * no key is available records nothing and leaves it as it was.
   */
  ghost function ChainBefore(ss: seq<State>, es: seq<Event>, start: nat, i: nat): Chain
    requires |ss| == |es| + 1 && start < i <= |es|
    requires es[start].Request? && es[start].fps != []
  {
    var e := es[i - 1];
    if (i == start + 1 || InChain(e, es[start].Fp())) && e.served.Some?
    then Chain(e.Fp(), e.RecordedFp(), e.served.value, ss[i - 1].now, TtlIn(ss[i], e.RecordedFp()))
    else if i == start + 1 then Chain("", "", "", 0, 0)
    else ChainBefore(ss, es, start, i - 1)
  }

  /**
   * A request at `i` either belongs to other content, or extends the conversation's latest fingerprint and
   * comes within the lifetime of what was recorded last.
   */
  ghost predicate OtherOrExtends(ss: seq<State>, es: seq<Event>, start: nat, i: nat)
    requires |ss| == |es| + 1 && start < i < |es|
    requires es[start].Request? && es[start].fps != []
  {
    es[i].Request? && es[i].fps != [] ==>
      var c := ChainBefore(ss, es, start, i);
      || !Comparable(es[i].Fp(), es[start].Fp())
      || (c.top <= es[i].Fp() && ss[i].now - c.at <= c.ttl)
  }

  ghost predicate Grows(ss: seq<State>, es: seq<Event>, start: nat)
    requires |ss| == |es| + 1 && start < |es|
    requires es[start].Request? && es[start].fps != []
  {
    forall i :: start < i < |es| ==> OtherOrExtends(ss, es, start, i)
  }

  /** What the map knows about the chain: its recorded entry is the longest comparable one. */
  ghost predicate Knows(s: State, first: string, c: Chain) {
    && first != "" && first <= c.recorded <= c.top && c.key != ""
    && c.at <= s.now
    && (s.now - c.at <= c.ttl ==> HasEntry(s.cache, c))
    && NoneReachesPast(s.cache, first, c.recorded)
  }

  ghost predicate HasEntry(m: Cache, c: Chain) {
    c.recorded in m && m[c.recorded].keyHash == c.key && m[c.recorded].lastUsed == c.at && m[c.recorded].ttl == c.ttl
  }

  /** Every assigned entry comparable with the conversation is a prefix of its recorded one. */
  ghost predicate NoneReachesPast(m: Cache, first: string, recorded: string) {
    forall k :: Assigned(m, k) && Comparable(first, k) ==> k <= recorded
  }

  lemma {:induction false} PrefixesOfOneAreComparable(a: string, b: string, c: string)
    requires a <= c && b <= c
    ensures Comparable(a, b)
  {
    if |a| <= |b| {
      assert a == c[..|a|] == b[..|a|];
    } else {
      assert b == c[..|b|] == a[..|b|];
    }
  }

  lemma {:induction false} PrefixIsTransitive(a: string, b: string, c: string)
    requires a <= b && b <= c
    ensures a <= c
  {
    assert a == b[..|a|] == c[..|a|];
  }

  lemma {:induction false} ComparableWithLongerMeansComparable(first: string, fp: string, k: string)
    requires first <= fp && Comparable(fp, k)
    ensures Comparable(first, k)
  {
    if k <= fp {
      PrefixesOfOneAreComparable(first, k, fp);
    } else {
      PrefixIsTransitive(first, fp, k);
    }
  }

  /** The lookup of a fingerprint that extends the chain returns exactly what was recorded last. */
  lemma {:induction false} ChainLookupHits(s: State, m: Cache, first: string, c: Chain, fp: string, hit: Option<Match>, found: Cache)
    requires Knows(s, first, c) && s.now - c.at <= c.ttl
    requires forall k :: Assigned(m, k) <==> Assigned(s.cache, k)
    requires forall k :: k in s.cache ==> k in m && m[k] == s.cache[k]
    requires c.top <= fp
    requires Lookup(m, fp, s.now, hit, found)
    ensures hit == Some(Match(c.key, c.recorded))
  {
    PrefixIsTransitive(c.recorded, c.top, fp);
    PrefixIsTransitive(first, c.recorded, fp);
    assert Matches(m, fp, c.recorded, s.now);
    var k := hit.value.matchedFingerprint;
    ComparableWithLongerMeansComparable(first, fp, k);
    assert Assigned(s.cache, k) && k <= c.recorded;
    PrefixIsTransitive(k, c.recorded, fp);
    assert MatchLength(fp, c.recorded) <= MatchLength(fp, k);
    assert k == c.recorded[..|k|] == c.recorded;
  }

  lemma {:induction false} PlaceholdersAssignNothing(m: Cache, fps: seq<string>, ttl: int)
    ensures forall k :: Assigned(Placed(m, fps, ttl), k) <==> Assigned(m, k)
    ensures forall k :: k in m ==> k in Placed(m, fps, ttl) && Placed(m, fps, ttl)[k] == m[k]
  {
  }

  /** Content incomparable with the conversation never records under the conversation's entry. */
  lemma {:induction false} OtherContentRecordsElsewhere(first: string, recorded: string, fp: string, r: string)
    requires !Comparable(fp, first) && first <= recorded && Comparable(fp, r)
    ensures r != recorded
    ensures Comparable(first, r) ==> r != fp
  {
    if first <= r {
      if fp <= r {
        PrefixesOfOneAreComparable(fp, first, r);
      } else {
        PrefixIsTransitive(first, r, fp);
      }
    }
  }

  lemma {:induction false} OtherRequestKeepsKnows(s: State, e: Event, t: State, first: string, c: Chain)
    requires Next(s, e, t) && Knows(s, first, c)
    requires e.Request? && !Comparable(e.Fp(), first)
    ensures Knows(t, first, c)
  {
    PlaceholdersAssignNothing(s.cache, e.fps, e.ttl);
    var m := Placed(s.cache, e.fps, e.ttl);
    var found :| Lookup(m, e.Fp(), s.now, e.hit, found)
                 && t.cache == if e.served.Some? then Recorded(found, e.RecordedFp(), e.served.value, s.now) else found;
    OtherContentRecordsElsewhere(first, c.recorded, e.Fp(), e.RecordedFp());
    forall k | Assigned(t.cache, k) && Comparable(first, k) ensures k <= c.recorded {
      OtherRecordWasAssigned(m, found, t.cache, e, s.now, first, k);
    }
    if s.now - c.at <= c.ttl {
      EntryStays(m, found, t.cache, e, s.now, c);
    }
  }

  /** An entry in its lifetime survives a request that records elsewhere. */
  lemma {:induction false} EntryStays(m: Cache, found: Cache, after: Cache, e: Event, now: int, c: Chain)
    requires e.Request? && e.fps != [] && Lookup(m, e.Fp(), now, e.hit, found)
    requires after == if e.served.Some? then Recorded(found, e.RecordedFp(), e.served.value, now) else found
    requires HasEntry(m, c) && now - c.at <= c.ttl && (e.served.Some? ==> e.RecordedFp() != c.recorded)
    ensures HasEntry(after, c)
  {
    assert !Expired(m[c.recorded], now);
  }

  /** Among the entries comparable with the conversation, other content assigns none. */
  lemma {:induction false} OtherRecordWasAssigned(m: Cache, found: Cache, after: Cache, e: Event, now: int, first: string, k: string)
    requires e.Request? && e.fps != [] && Lookup(m, e.Fp(), now, e.hit, found)
    requires after == if e.served.Some? then Recorded(found, e.RecordedFp(), e.served.value, now) else found
    requires Comparable(first, e.RecordedFp()) ==> e.RecordedFp() != e.Fp()
    requires Assigned(after, k) && Comparable(first, k)
    ensures Assigned(m, k)
  {
    if k == e.RecordedFp() {
      assert e.hit.Some? && Matches(m, e.Fp(), k, now);
    }
  }

  /** A step that is not part of the conversation leaves its entry alone. */
  lemma {:induction false} OtherStepKeepsKnows(s: State, e: Event, t: State, first: string, c: Chain)
    requires Next(s, e, t) && Knows(s, first, c)
    requires e.Request? ==> !Comparable(e.Fp(), first)
    ensures Knows(t, first, c)
  {
    if e.Request? {
      OtherRequestKeepsKnows(s, e, t, first, c);
    }
  }

  ghost function ChainOf(s: State, e: Event, t: State): Chain
    requires e.Request? && e.fps != [] && e.served.Some?
  {
    Chain(e.Fp(), e.RecordedFp(), e.served.value, s.now, TtlIn(t, e.RecordedFp()))
  }

  /** A request whose lookup missed leaves its own entry as the only comparable one. */
  lemma {:induction false} MissStartsAChain(s: State, e: Event, t: State)
    requires Next(s, e, t) && e.Request? && e.served.Some? && e.hit == None
    ensures Knows(t, e.Fp(), ChainOf(s, e, t))
  {
    var m := Placed(s.cache, e.fps, e.ttl);
    var found :| Lookup(m, e.Fp(), s.now, e.hit, found)
                 && t.cache == if e.served.Some? then Recorded(found, e.RecordedFp(), e.served.value, s.now) else found;
    assert t.cache == Recorded(found, e.Fp(), e.served.value, s.now);
    forall k | Assigned(t.cache, k) && Comparable(e.Fp(), k) ensures k <= e.Fp() {
      OnlyTheRecordMatches(m, found, e.Fp(), e.served.value, s.now, k);
    }
  }

  /** Nothing matched `fp`, so that what is recorded for it is the one assigned entry comparable with it. */
  lemma {:induction false} OnlyTheRecordMatches(m: Cache, found: Cache, fp: string, key: string, now: int, k: string)
    requires fp != "" && Lookup(m, fp, now, None, found) && Assigned(Recorded(found, fp, key, now), k) && Comparable(fp, k)
    ensures k <= fp
  {
    if k != fp {
      assert Assigned(found, k) && !Matches(m, fp, k, now);
      assert k == "";
    }
  }

  /** A request that extends the chain hits what was recorded last. */
  lemma {:induction false} ChainRequestHits(s: State, e: Event, t: State, first: string, c: Chain)
    requires Next(s, e, t) && Knows(s, first, c)
    requires e.Request? && c.top <= e.Fp() && s.now - c.at <= c.ttl
    ensures e.hit == Some(Match(c.key, c.recorded))
  {
    PlaceholdersAssignNothing(s.cache, e.fps, e.ttl);
    var m := Placed(s.cache, e.fps, e.ttl);
    var found :| Lookup(m, e.Fp(), s.now, e.hit, found)
                 && t.cache == if e.served.Some? then Recorded(found, e.RecordedFp(), e.served.value, s.now) else found;
    ChainLookupHits(s, m, first, c, e.Fp(), e.hit, found);
  }

  /** If it is served, it becomes what was recorded last. */
  lemma {:induction false} ServedRequestKeepsKnows(s: State, e: Event, t: State, first: string, c: Chain)
    requires Next(s, e, t) && Knows(s, first, c)
    requires e.Request? && e.served.Some? && c.top <= e.Fp() && s.now - c.at <= c.ttl
    ensures Knows(t, first, ChainOf(s, e, t))
  {
    ChainRequestHits(s, e, t, first, c);
    PlaceholdersAssignNothing(s.cache, e.fps, e.ttl);
    var m := Placed(s.cache, e.fps, e.ttl);
    var found :| Lookup(m, e.Fp(), s.now, e.hit, found)
                 && t.cache == if e.served.Some? then Recorded(found, e.RecordedFp(), e.served.value, s.now) else found;
    PrefixIsTransitive(c.recorded, c.top, e.Fp());
    var r := e.RecordedFp();
    PrefixIsTransitive(first, c.recorded, r);
    RecordReachesFarthest(m, found, first, c.recorded, r, e.served.value, s.now);
  }

  lemma {:induction false} RecordReachesFarthest(
    m: Cache, found: Cache, first: string, recorded: string, r: string, key: string, now: int)
    requires NoneReachesPast(m, first, recorded) && OnlyExpiredDropped(m, found, now) && recorded <= r
    ensures NoneReachesPast(Recorded(found, r, key, now), first, r)
  {
    forall k | Assigned(Recorded(found, r, key, now), k) && Comparable(first, k) ensures k <= r {
      if k != r {
        assert Assigned(m, k);
        PrefixIsTransitive(k, recorded, r);
      }
    }
  }

  /** If no key is available, the chain stays as it was. */
  lemma {:induction false} UnservedRequestKeepsKnows(s: State, e: Event, t: State, first: string, c: Chain)
    requires Next(s, e, t) && Knows(s, first, c)
    requires e.Request? && e.served == None && s.now - c.at <= c.ttl
    ensures Knows(t, first, c)
  {
    PlaceholdersAssignNothing(s.cache, e.fps, e.ttl);
    forall k | Assigned(t.cache, k) && Comparable(first, k) ensures k <= c.recorded {
      assert Assigned(s.cache, k);
    }
  }

  lemma {:induction false} ChainStepKeepsKnows(s: State, e: Event, t: State, first: string, c: Chain)
    requires Next(s, e, t) && Knows(s, first, c)
    requires e.Request? ==> !Comparable(e.Fp(), first) || (c.top <= e.Fp() && s.now - c.at <= c.ttl)
    ensures Knows(t, first, if e.Request? && c.top <= e.Fp() && Comparable(e.Fp(), first) && e.served.Some? then ChainOf(s, e, t) else c)
  {
    if e.Request? && Comparable(e.Fp(), first) {
      if e.served.Some? {
        ServedRequestKeepsKnows(s, e, t, first, c);
      } else {
        UnservedRequestKeepsKnows(s, e, t, first, c);
      }
    } else {
      OtherStepKeepsKnows(s, e, t, first, c);
    }
  }

  lemma {:induction false} ChainIsKnownAfterOneMore(ss: seq<State>, es: seq<Event>, start: nat, i: nat)
    requires |ss| == |es| + 1 && start + 1 < i <= |es|
    requires es[start].Request? && es[start].fps != []
    requires Next(ss[i - 1], es[i - 1], ss[i]) && OtherOrExtends(ss, es, start, i - 1)
    requires Knows(ss[i - 1], es[start].Fp(), ChainBefore(ss, es, start, i - 1))
    ensures Knows(ss[i], es[start].Fp(), ChainBefore(ss, es, start, i))
  {
    var e, first, c := es[i - 1], es[start].Fp(), ChainBefore(ss, es, start, i - 1);
    assert e.Request? ==> e.fps != [];
    ChainStepKeepsKnows(ss[i - 1], e, ss[i], first, c);
    if e.Request? && c.top <= e.Fp() {
      PrefixIsTransitive(first, c.recorded, c.top);
      PrefixIsTransitive(first, c.top, e.Fp());
    }
  }

  lemma {:induction false} ChainIsKnownAtItsStart(ss: seq<State>, es: seq<Event>, start: nat, i: nat)
    requires |ss| == |es| + 1 && i == start + 1 <= |es|
    requires es[start].Request? && es[start].fps != [] && es[start].served.Some? && es[start].hit == None
    requires Next(ss[start], es[start], ss[i])
    ensures Knows(ss[i], es[start].Fp(), ChainBefore(ss, es, start, i))
  {
    MissStartsAChain(ss[start], es[start], ss[i]);
  }

  lemma {:induction false} ChainIsKnownThroughout(ss: seq<State>, es: seq<Event>, start: nat, i: nat)
    requires Run(ss, es) && start < i <= |es|
    requires es[start].Request? && es[start].fps != [] && es[start].served.Some? && es[start].hit == None
    requires Grows(ss, es, start)
    ensures Knows(ss[i], es[start].Fp(), ChainBefore(ss, es, start, i))
  {
    if i == start + 1 {
      ChainIsKnownAtItsStart(ss, es, start, i);
    } else {
      ChainIsKnownThroughout(ss, es, start, i - 1);
      assert OtherOrExtends(ss, es, start, i - 1);
      ChainIsKnownAfterOneMore(ss, es, start, i);
    }
  }

  /**
   * Affinity. Once a conversation's first lookup has missed and a key was
   * recorded for it, every later lookup of the growing conversation returns the
   * key that was last recorded, whatever other content is served in between and
   * whether or not a key was available each time.
   */
  lemma {:induction false} GrowingConversationKeepsItsKey(ss: seq<State>, es: seq<Event>, start: nat, i: nat)
    requires Run(ss, es) && start < i < |es|
    requires es[start].Request? && es[start].fps != [] && es[start].served.Some? && es[start].hit == None
    requires Grows(ss, es, start)
    requires InChain(es[i], es[start].Fp())
    ensures es[i].hit == Some(Match(ChainBefore(ss, es, start, i).key, ChainBefore(ss, es, start, i).recorded))
  {
    ChainIsKnownThroughout(ss, es, start, i);
    assert Next(ss[i], es[i], ss[i + 1]) && OtherOrExtends(ss, es, start, i);
    ChainRequestHits(ss[i], es[i], ss[i + 1], es[start].Fp(), ChainBefore(ss, es, start, i));
  }
}
