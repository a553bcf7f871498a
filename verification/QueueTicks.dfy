/**
 * A tick of the queue dequeues for every family before it lets the first request proceed. Its result is that
 * of dispatching the same families one after the other, so a run need only know single dispatches.
 */
module QueueTicks {
  import opened CustomKeys
  import opened RequestQueue
  import opened QueueRuns

  /** Dispatching the families in turn is possible and leads from `s` to `t`. */
  ghost predicate OneByOne(c: Config, s: State, families: seq<string>, roll: nat, t: State)
    decreases |families|
  {
    if families == [] then t == s
    else
      && WellFormed(s) && Enabled(c, s, Dispatch(families[0], roll))
      && OneByOne(c, Step(c, s, Dispatch(families[0], roll)), families[1..], roll, t)
  }

  /** The waiting requests of two states are alike. */
  ghost predicate SameQueue(s: State, t: State) {
    && WellFormed(s) && WellFormed(t) && s.queue == t.queue && s.now == t.now
    && forall id :: id in s.queue ==> s.requests[id] == t.requests[id]
  }

  lemma {:induction false} SameWaiting(s: State, t: State, family: string)
    requires SameQueue(s, t)
    ensures Waiting(s, family) == Waiting(t, family)
    decreases |s.queue|
  {
    if s.queue == [] {
    } else {
      SameWaiting(s.(queue := s.queue[1..]), t.(queue := t.queue[1..]), family);
    }
  }

  lemma {:induction false} SameReduce(c: Config, a: map<RequestId, Request>, b: map<RequestId, Request>, best: RequestId, rest: seq<RequestId>)
    requires best in a && best in b && a[best] == b[best]
    requires forall id :: id in rest ==> id in a && id in b && a[id] == b[id]
    ensures Reduce(c, a, best, rest) == Reduce(c, b, best, rest)
    decreases rest
  {
    if rest == [] {
    } else {
      SameReduce(c, a, b, Better(c, a, best, rest[0]), rest[1..]);
    }
  }

  lemma {:induction false} SamePick(c: Config, s: State, t: State, family: string)
    requires SameQueue(s, t)
    ensures PickIn(c, s, family) == PickIn(c, t, family)
  {
    SameWaiting(s, t, family);
    var ids := Waiting(s, family);
    if ids != [] {
      assert ids[0] in ids && forall id :: id in ids[1..] ==> id in ids;
      SameReduce(c, s.requests, t.requests, ids[0], ids[1..]);
    }
  }

  /** A request that proceeds does not wait, so letting it proceed before or after a dequeue makes no difference. */
  lemma {:induction false} ProceedingCommutes(c: Config, s: State, id: RequestId, roll: nat, family: string)
    requires WellFormed(s) && id in s.requests && id !in s.queue && RollFits(s, roll)
    ensures PickIn(c, Proceeded(c, s, id, roll), family) == PickIn(c, s, family)
    ensures FamilyDequeued(c, Proceeded(c, s, id, roll), family) == Proceeded(c, FamilyDequeued(c, s, family), id, roll)
    ensures id !in FamilyDequeued(c, s, family).queue
  {
    var t := Proceeded(c, s, id, roll);
    SamePick(c, s, t, family);
    SameWaiting(s, t, family);
    if Waiting(s, family) != [] {
      PickIsTheLastMinimum(c, s, family);
      var q := Pick(c, s, family);
      SpliceAddsNobody(s.queue, IndexOf(s.queue, q));
      DequeuingCommutes(c, s, id, roll, q);
    }
  }

  lemma {:induction false} DequeuingCommutes(c: Config, s: State, id: RequestId, roll: nat, q: RequestId)
    requires id in s.requests && q in s.requests && id != q && RollFits(s, roll)
    ensures Dequeued(Proceeded(c, s, id, roll), q) == Proceeded(c, Dequeued(s, q), id, roll)
  {
    if s.requests[id].family != c.providerFamily {
    } else if forall k :: k in s.pool.keys ==> k.isDisabled {
      var dequeued := s.requests[q].(listening := false, queueOutTime := s.now, phase := Running);
      var refused := s.requests[id].(ended := true, phase := Done);
      UpdatesCommute(s.requests, q, dequeued, id, refused);
    }
  }

  lemma {:induction false} UpdatesCommute<K, V>(m: map<K, V>, a: K, x: V, b: K, y: V)
    requires a != b
    ensures m[a := x][b := y] == m[b := y][a := x]
    ensures a in m && b in m ==> m[a := x][b] == m[b] && m[b := y][a] == m[a]
  {
  }

  lemma {:induction false} ProceedingCommutesWithAll(c: Config, s: State, id: RequestId, roll: nat, families: seq<string>)
    requires WellFormed(s) && id in s.requests && id !in s.queue && RollFits(s, roll)
    ensures AllPicked(c, Proceeded(c, s, id, roll), families) == AllPicked(c, s, families)
    ensures AllDequeued(c, Proceeded(c, s, id, roll), families) == Proceeded(c, AllDequeued(c, s, families), id, roll)
    decreases |families|
  {
    if families == [] {
    } else {
      ProceedingCommutes(c, s, id, roll, families[0]);
      ProceedingCommutesWithAll(c, FamilyDequeued(c, s, families[0]), id, roll, families[1..]);
    }
  }

  lemma {:induction false} TickedStep(c: Config, s: State, families: seq<string>, roll: nat)
    requires Inv(c, s) && families != [] && RollFits(s, roll)
    ensures RollFits(Dispatched(c, s, families[0], roll), roll) && WellFormed(Dispatched(c, s, families[0], roll))
    ensures Ticked(c, s, families, roll) == Ticked(c, Dispatched(c, s, families[0], roll), families[1..], roll)
  {
    var f, rest := families[0], families[1..];
    if Waiting(s, f) == [] {
      assert PickIn(c, s, f) + AllPicked(c, s, rest) == AllPicked(c, s, rest);
    } else {
      PickIsTheLastMinimum(c, s, f);
      var id, d := Pick(c, s, f), FamilyDequeued(c, s, f);
      SpliceAtIndexRemoves(s.queue, id);
      WithoutRemoves(s.queue, id);
      ProceedingCommutesWithAll(c, d, id, roll, rest);
      assert ([id] + AllPicked(c, d, rest))[1..] == AllPicked(c, d, rest);
      assert AllPicked(c, s, families) == [id] + AllPicked(c, d, rest);
      assert Dispatched(c, s, f, roll) == Proceeded(c, d, id, roll);
    }
  }

  lemma {:induction false} OtherDispatchesStayEnabled(c: Config, s: State, f: string, g: string, roll: nat)
    requires Inv(c, s) && f != g && RollFits(s, roll)
    requires Enabled(c, s, Dispatch(f, roll)) && Enabled(c, s, Dispatch(g, roll))
    ensures Enabled(c, Dispatched(c, s, f, roll), Dispatch(g, roll))
  {
    if f != c.providerFamily && Waiting(s, f) != [] {
      PickIsTheLastMinimum(c, s, f);
    }
  }

  /** A tick over families whose lockouts are zero as it begins is their dispatches, one after the other. */
  lemma {:induction false} TickIsDispatchesOneByOne(c: Config, s: State, families: seq<string>, roll: nat)
    requires Inv(c, s) && RollFits(s, roll)
    requires forall i, j :: 0 <= i < j < |families| ==> families[i] != families[j]
    requires forall i :: 0 <= i < |families| ==> Enabled(c, s, Dispatch(families[i], roll))
    ensures OneByOne(c, s, families, roll, Ticked(c, s, families, roll))
    decreases |families|
  {
    if families == [] {
    } else {
      var f, rest := families[0], families[1..];
      var t := Dispatched(c, s, f, roll);
      TickedStep(c, s, families, roll);
      DispatchedKeepsInv(c, s, f, roll);
      forall i | 0 <= i < |rest| ensures Enabled(c, t, Dispatch(rest[i], roll)) {
        assert rest[i] == families[i + 1];
        OtherDispatchesStayEnabled(c, s, f, rest[i], roll);
      }
      TickIsDispatchesOneByOne(c, t, rest, roll);
    }
  }

  // ----- Ticks in a run -----

  ghost predicate DifferentFamilyNames(families: seq<string>) {
    forall i, j :: 0 <= i < j < |families| ==> families[i] != families[j]
  }

  lemma {:induction false} OpenFamiliesAre(c: Config, pool: Pool, now: int, families: seq<string>, open: set<string>)
    requires DifferentFamilyNames(families)
    ensures DifferentFamilyNames(OpenFamilies(c, pool, now, families, open))
    ensures forall f :: f in OpenFamilies(c, pool, now, families, open) <==> f in families && IsOpen(c, pool, now, f, open)
  {
    if families == [] {
    } else {
      var rest := families[1..];
      assert families == [families[0]] + rest && families[0] !in rest;
      OpenFamiliesAre(c, pool, now, rest, open);
    }
  }

  function Dispatches(families: seq<string>, roll: nat): (es: seq<Event>)
    ensures |es| == |families| && forall i :: 0 <= i < |es| ==> es[i] == Dispatch(families[i], roll)
  {
    if families == [] then [] else [Dispatch(families[0], roll)] + Dispatches(families[1..], roll)
  }

  lemma {:induction false} FirstOfOneByOne(c: Config, s: State, families: seq<string>, roll: nat, t: State) returns (next: State)
    requires families != [] && OneByOne(c, s, families, roll, t)
    ensures Next(c, s, Dispatch(families[0], roll), next) && OneByOne(c, next, families[1..], roll, t)
  {
    next := Step(c, s, Dispatch(families[0], roll));
  }

  lemma {:induction false} Reassociated<T>(a: seq<T>, x: T, b: seq<T>)
    ensures (a + [x]) + b == a + ([x] + b)
  {
  }

  /** Dispatching one by one from the end of a run makes a longer run. */
  lemma {:induction false} OneByOneExtendsRun(
    c: Config, ss: seq<State>, es: seq<Event>, families: seq<string>, roll: nat, t: State) returns (more: seq<State>)
    requires Run(c, ss, es) && OneByOne(c, ss[|es|], families, roll, t)
    ensures |more| == |families| && Run(c, ss + more, es + Dispatches(families, roll))
    ensures (ss + more)[|es| + |families|] == t
    decreases |families|
  {
    if families == [] {
      more := [];
      assert ss + [] == ss && es + [] == es;
    } else {
      var e := Dispatch(families[0], roll);
      var next := FirstOfOneByOne(c, ss[|es|], families, roll, t);
      RunOneMore(c, ss, es, e, next);
      var rest := OneByOneExtendsRun(c, ss + [next], es + [e], families[1..], roll, t);
      more := [next] + rest;
      Reassociated(ss, next, rest);
      Reassociated(es, e, Dispatches(families[1..], roll));
    }
  }

  lemma {:induction false} OpenFamiliesMayDispatch(
    c: Config, s: State, families: seq<string>, open: set<string>, roll: nat, f: string)
    requires DifferentFamilyNames(families) && f in OpenFamilies(c, s.pool, s.now, families, open)
    requires (exists k :: k in s.pool.keys && !k.isDisabled) ==> Candidate(c.caps, s.pool, roll, s.now)
    ensures Enabled(c, s, Dispatch(f, roll))
  {
    OpenFamiliesAre(c, s.pool, s.now, families, open);
  }

  /**
   * A tick in a run: over the families whose lockouts are zero as it begins, its result is the end of a longer
   * run, which dispatches them one after the other; so what is proved of runs holds of runs with ticks.
   */
  lemma {:induction false} TickExtendsRun(
    c: Config, ss: seq<State>, es: seq<Event>, families: seq<string>, open: set<string>, roll: nat) returns (more: seq<State>)
    requires Run(c, ss, es) && DifferentFamilyNames(families)
    requires var s := ss[|es|];
             (exists k :: k in s.pool.keys && !k.isDisabled) ==> Candidate(c.caps, s.pool, roll, s.now)
    ensures WellFormed(ss[|es|]) && RollFits(ss[|es|], roll)
    ensures var s := ss[|es|];
            var gated := OpenFamilies(c, s.pool, s.now, families, open);
            && |more| == |gated| && Run(c, ss + more, es + Dispatches(gated, roll))
            && (ss + more)[|es| + |gated|] == Ticked(c, s, gated, roll)
  {
    var s := ss[|es|];
    var gated := OpenFamilies(c, s.pool, s.now, families, open);
    InvHoldsInEveryRun(c, ss, es, |es|);
    OpenFamiliesAre(c, s.pool, s.now, families, open);
    forall i | 0 <= i < |gated| ensures Enabled(c, s, Dispatch(gated[i], roll)) {
      OpenFamiliesMayDispatch(c, s, families, open, roll, gated[i]);
    }
    TickIsDispatchesOneByOne(c, s, gated, roll);
    more := OneByOneExtendsRun(c, ss, es, gated, roll, Ticked(c, s, gated, roll));
  }
}
