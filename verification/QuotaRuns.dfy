/**
 * Quotas when requests overlap: a request is checked when it arrives, and what it has used is
 * counted only when its response is over.
 */
module QuotaRuns {
  import opened Users

  /** The user, and the amounts requested by admitted requests that have not been counted yet. */
  datatype State = State(user: User, outstanding: seq<nat>)

  datatype Event = Check(requested: int) | Count(which: nat, input: int, output: int) | Abandon(which: nat)

  function Without(outstanding: seq<nat>, i: nat): seq<nat>
    requires i < |outstanding|
  {
    outstanding[..i] + outstanding[i + 1..]
  }

  /** A request uses at most what was requested for it. */
  predicate Enabled(s: State, e: Event) {
    match e
    case Check(_) => true
    case Count(which, input, output) => which < |s.outstanding| && Max0(input) + Max0(output) <= s.outstanding[which]
    case Abandon(which) => which < |s.outstanding|
  }

  function Step(c: Config, f: Family, s: State, e: Event): State
    requires Enabled(s, e)
  {
    match e
    case Check(requested) =>
      if Admits(c, s.user, f, requested) then s.(outstanding := s.outstanding + [Max0(requested)]) else s
    case Count(which, input, output) => State(Spent(s.user, f, input, output), Without(s.outstanding, which))
    case Abandon(which) => s.(outstanding := Without(s.outstanding, which))
  }

  ghost predicate Run(c: Config, f: Family, ss: seq<State>, es: seq<Event>) {
    && |ss| == |es| + 1
    && forall i :: 0 <= i < |es| ==> Enabled(ss[i], es[i]) && ss[i + 1] == Step(c, f, ss[i], es[i])
  }

  function Total(outstanding: seq<nat>): nat {
    if outstanding == [] then 0 else outstanding[0] + Total(outstanding[1..])
  }

  /** What the user would have used if every outstanding request used all it asked for. */
  function Exposure(s: State, f: Family): int {
    UsageOf(s.user, f) + Total(s.outstanding)
  }

  lemma {:induction false} TotalOfSum(a: seq<nat>, b: seq<nat>)
    ensures Total(a + b) == Total(a) + Total(b)
  {
    if a == [] {
      assert a + b == b;
    } else {
      assert (a + b)[1..] == a[1..] + b;
      TotalOfSum(a[1..], b);
    }
  }

  lemma {:induction false} TotalWithout(outstanding: seq<nat>, i: nat)
    requires i < |outstanding|
    ensures Total(outstanding) == outstanding[i] + Total(Without(outstanding, i))
  {
    var front, back := outstanding[..i], outstanding[i + 1..];
    assert outstanding == front + ([outstanding[i]] + back);
    TotalOfSum(front, [outstanding[i]] + back);
    TotalOfSum([outstanding[i]], back);
    TotalOfSum(front, back);
    assert [outstanding[i]][1..] == [];
  }

  /** Counting and abandoning never add to the exposure; an admission adds what is requested. */
  lemma {:induction false} StepExposure(c: Config, f: Family, s: State, e: Event)
    requires Enabled(s, e) && NonNegative(s.user, f)
    ensures var t := Step(c, f, s, e);
            && NonNegative(t.user, f) && t.user.kind == s.user.kind && LimitOf(c, t.user, f) == LimitOf(c, s.user, f)
            && (if e.Check? && Admits(c, s.user, f, e.requested) then Exposure(t, f) == Exposure(s, f) + Max0(e.requested)
                else Exposure(t, f) <= Exposure(s, f))
  {
    match e
    case Check(requested) =>
      TotalOfSum(s.outstanding, [Max0(requested)]);
      assert [Max0(requested)][1..] == [];
    case Count(which, input, output) =>
      TotalWithout(s.outstanding, which);
      SpendAddsItsConsumption(s.user, f, input, output);
    case Abandon(which) =>
      TotalWithout(s.outstanding, which);
  }

  /** A request may be checked at any time; what it asks for is outstanding from then on exactly when it is admitted. */
  lemma {:induction false} CheckedRequestIsOutstanding(c: Config, f: Family, s: State, requested: int)
    ensures Enabled(s, Check(requested)) && Step(c, f, s, Check(requested)).user == s.user
    ensures Admits(c, s.user, f, requested) ==>
              Step(c, f, s, Check(requested)).outstanding == s.outstanding + [if requested > 0 then requested else 0]
    ensures !Admits(c, s.user, f, requested) ==> Step(c, f, s, Check(requested)).outstanding == s.outstanding
  {
  }

  /** A request that is counted or abandoned is no longer outstanding, and what it asked for and did not use is free again. */
  lemma {:induction false} EndedRequestIsNotOutstanding(c: Config, f: Family, s: State, e: Event)
    requires Enabled(s, e) && NonNegative(s.user, f) && !e.Check?
    ensures var t := Step(c, f, s, e);
            var used := if e.Count? then Max0(e.input) + Max0(e.output) else 0;
            && t.outstanding == s.outstanding[..e.which] + s.outstanding[e.which + 1..]
            && UsageOf(t.user, f) == UsageOf(s.user, f) + used && Exposure(t, f) == Exposure(s, f) - s.outstanding[e.which] + used
  {
    TotalWithout(s.outstanding, e.which);
    if e.Count? {
      SpendAddsItsConsumption(s.user, f, e.input, e.output);
    }
  }

  // ----- What outstanding requests can still do -----

  ghost predicate OnlyCounts(es: seq<Event>) {
    forall i :: 0 <= i < |es| ==> es[i].Count?
  }

  /** With no further check, requests that are under way can take the user's usage over `limit`. */
  ghost predicate CanOverspend(c: Config, f: Family, s: State, limit: int) {
    exists ss: seq<State>, es: seq<Event> :: CountsFrom(c, f, s, ss, es) && UsageOf(ss[|es|].user, f) > limit
  }

  ghost predicate CountsFrom(c: Config, f: Family, s: State, ss: seq<State>, es: seq<Event>) {
    Run(c, f, ss, es) && ss[0] == s && OnlyCounts(es)
  }

  lemma {:induction false} CountsStayWithinExposure(c: Config, f: Family, s: State, ss: seq<State>, es: seq<Event>, i: nat)
    requires CountsFrom(c, f, s, ss, es) && i <= |es| && NonNegative(s.user, f)
    ensures NonNegative(ss[i].user, f) && Exposure(ss[i], f) <= Exposure(s, f)
    decreases i
  {
    if i == 0 {
    } else {
      CountsStayWithinExposure(c, f, s, ss, es, i - 1);
      StepExposure(c, f, ss[i - 1], es[i - 1]);
    }
  }

  lemma {:induction false} CountingTheFirstKeepsExposure(c: Config, f: Family, s: State)
    requires NonNegative(s.user, f) && s.outstanding != []
    ensures var t := Step(c, f, s, Count(0, s.outstanding[0], 0));
            t.outstanding == s.outstanding[1..] && NonNegative(t.user, f) && Exposure(t, f) == Exposure(s, f)
  {
    WithoutTheFirst(s.outstanding);
    SpendAddsItsConsumption(s.user, f, s.outstanding[0], 0);
  }

  lemma {:induction false} WithoutTheFirst(outstanding: seq<nat>)
    requires outstanding != []
    ensures Without(outstanding, 0) == outstanding[1..]
  {
    assert outstanding[..0] == [] && [] + outstanding[1..] == outstanding[1..];
  }

  /** Every outstanding request uses all it asked for. */
  lemma {:induction false} CountingAllReachesExposure(c: Config, f: Family, s: State) returns (ss: seq<State>, es: seq<Event>)
    requires NonNegative(s.user, f)
    ensures CountsFrom(c, f, s, ss, es) && UsageOf(ss[|es|].user, f) == Exposure(s, f)
    decreases |s.outstanding|
  {
    if s.outstanding == [] {
      ss, es := [s], [];
    } else {
      var e := Count(0, s.outstanding[0], 0);
      var t := Step(c, f, s, e);
      CountingTheFirstKeepsExposure(c, f, s);
      var tt, ee := CountingAllReachesExposure(c, f, t);
      CountsOneEarlier(c, f, s, e, tt, ee);
      ss, es := [s] + tt, [e] + ee;
    }
  }

  lemma {:induction false} CountsOneEarlier(c: Config, f: Family, s: State, e: Event, ss: seq<State>, es: seq<Event>)
    requires Enabled(s, e) && e.Count? && CountsFrom(c, f, Step(c, f, s, e), ss, es)
    ensures CountsFrom(c, f, s, [s] + ss, [e] + es)
    ensures ([s] + ss)[|es| + 1] == ss[|es|]
  {
    var ss', es' := [s] + ss, [e] + es;
    forall i | 0 <= i < |es'| ensures Enabled(ss'[i], es'[i]) && ss'[i + 1] == Step(c, f, ss'[i], es'[i]) && es'[i].Count? {
      if i > 0 {
        assert ss'[i] == ss[i - 1] && es'[i] == es[i - 1] && ss'[i + 1] == ss[i];
      }
    }
  }

  /** Requests under way can overspend exactly when usage and outstanding amounts together exceed the limit. */
  lemma {:induction false} CanOverspendExactlyWhen(c: Config, f: Family, s: State, limit: int)
    requires NonNegative(s.user, f)
    ensures CanOverspend(c, f, s, limit) <==> Exposure(s, f) > limit
  {
    if CanOverspend(c, f, s, limit) {
      var ss: seq<State>, es: seq<Event> :| CountsFrom(c, f, s, ss, es) && UsageOf(ss[|es|].user, f) > limit;
      CountsStayWithinExposure(c, f, s, ss, es, |es|);
    }
    if Exposure(s, f) > limit {
      var ss, es := CountingAllReachesExposure(c, f, s);
    }
  }

  // ----- From one refresh to the next -----

  /** A run that starts with a refresh; requests admitted before it may still be under way. */
  ghost predicate PeriodRun(c: Config, f: Family, u: User, ss: seq<State>, es: seq<Event>) {
    && Run(c, f, ss, es) && ss[0].user == Refreshed(c, u)
    && f in c.families && u.kind != Special && NonNegative(u, f) && RefreshAmount(c, u, f) > 0
  }

  ghost predicate FitsWhenAdmitted(c: Config, f: Family, s: State, e: Event) {
    e.Check? && Admits(c, s.user, f, e.requested) ==> Exposure(s, f) + Max0(e.requested) <= LimitOf(c, s.user, f)
  }

  lemma {:induction false} PeriodKeepsTheLimit(c: Config, f: Family, u: User, ss: seq<State>, es: seq<Event>, i: nat)
    requires PeriodRun(c, f, u, ss, es) && i <= |es|
    ensures NonNegative(ss[i].user, f) && ss[i].user.kind != Special
    ensures LimitOf(c, ss[i].user, f) == UsageOf(u, f) + RefreshAmount(c, u, f)
    decreases i
  {
    if i == 0 {
      RefreshSetsTheLimit(c, u, f);
    } else {
      PeriodKeepsTheLimit(c, f, u, ss, es, i - 1);
      StepExposure(c, f, ss[i - 1], es[i - 1]);
    }
  }

  lemma {:induction false} ExposureStaysWithin(c: Config, f: Family, u: User, ss: seq<State>, es: seq<Event>, i: nat)
    requires PeriodRun(c, f, u, ss, es) && i <= |es|
    requires Total(ss[0].outstanding) <= RefreshAmount(c, u, f)
    requires forall j :: 0 <= j < i ==> FitsWhenAdmitted(c, f, ss[j], es[j])
    ensures Exposure(ss[i], f) <= UsageOf(u, f) + RefreshAmount(c, u, f)
    decreases i
  {
    if i == 0 {
      RefreshSetsTheLimit(c, u, f);
    } else {
      ExposureStaysWithin(c, f, u, ss, es, i - 1);
      PeriodKeepsTheLimit(c, f, u, ss, es, i - 1);
      StepExposure(c, f, ss[i - 1], es[i - 1]);
      assert FitsWhenAdmitted(c, f, ss[i - 1], es[i - 1]);
    }
  }

  /** The amount is kept, whatever the requests under way at event `i` use. */
  ghost predicate KeptFrom(c: Config, f: Family, u: User, s: State) {
    !CanOverspend(c, f, s, UsageOf(u, f) + RefreshAmount(c, u, f))
  }

  lemma {:induction false} KeptExactlyWhenExposureFits(c: Config, f: Family, u: User, ss: seq<State>, es: seq<Event>, i: nat)
    requires PeriodRun(c, f, u, ss, es) && i <= |es|
    ensures KeptFrom(c, f, u, ss[i]) <==> Exposure(ss[i], f) <= UsageOf(u, f) + RefreshAmount(c, u, f)
  {
    PeriodKeepsTheLimit(c, f, u, ss, es, i);
    CanOverspendExactlyWhen(c, f, ss[i], UsageOf(u, f) + RefreshAmount(c, u, f));
  }

  lemma {:induction false} StartIsKeptExactlyWhen(c: Config, f: Family, u: User, ss: seq<State>, es: seq<Event>)
    requires PeriodRun(c, f, u, ss, es)
    ensures KeptFrom(c, f, u, ss[0]) <==> Total(ss[0].outstanding) <= RefreshAmount(c, u, f)
  {
    KeptExactlyWhenExposureFits(c, f, u, ss, es, 0);
    RefreshSetsTheLimit(c, u, f);
  }

  lemma {:induction false} AdmissionThatDoesNotFitOverspends(c: Config, f: Family, u: User, ss: seq<State>, es: seq<Event>, i: nat)
    requires PeriodRun(c, f, u, ss, es) && i < |es| && !FitsWhenAdmitted(c, f, ss[i], es[i])
    ensures !KeptFrom(c, f, u, ss[i + 1])
  {
    PeriodKeepsTheLimit(c, f, u, ss, es, i);
    StepExposure(c, f, ss[i], es[i]);
    KeptExactlyWhenExposureFits(c, f, u, ss, es, i + 1);
  }

  /**
   * In a run since a refresh, whatever overlaps, usage since then stays within the refresh amount for
   * every consumption of at most what was requested, if and only if the requests under way at the refresh
   * fit the amount and, at each admission, usage, outstanding and requested amounts together fit the limit.
   */
  lemma {:induction false} PeriodIsKeptExactlyWhen(c: Config, f: Family, u: User, ss: seq<State>, es: seq<Event>)
    requires PeriodRun(c, f, u, ss, es)
    ensures (forall i :: 0 <= i <= |es| ==> KeptFrom(c, f, u, ss[i])) <==>
            (Total(ss[0].outstanding) <= RefreshAmount(c, u, f)
             && forall i :: 0 <= i < |es| ==> FitsWhenAdmitted(c, f, ss[i], es[i]))
  {
    StartIsKeptExactlyWhen(c, f, u, ss, es);
    if Total(ss[0].outstanding) <= RefreshAmount(c, u, f) && forall i :: 0 <= i < |es| ==> FitsWhenAdmitted(c, f, ss[i], es[i]) {
      forall i | 0 <= i <= |es| ensures KeptFrom(c, f, u, ss[i]) {
        ExposureStaysWithin(c, f, u, ss, es, i);
        KeptExactlyWhenExposureFits(c, f, u, ss, es, i);
      }
    }
    if i :| 0 <= i < |es| && !FitsWhenAdmitted(c, f, ss[i], es[i]) {
      AdmissionThatDoesNotFitOverspends(c, f, u, ss, es, i);
    }
  }

  /** A check made while nothing is outstanding always meets the condition, so sequential requests never overspend. */
  lemma {:induction false} SequentialChecksFit(c: Config, f: Family, u: User, ss: seq<State>, es: seq<Event>, i: nat)
    requires PeriodRun(c, f, u, ss, es) && i < |es| && ss[i].outstanding == []
    ensures FitsWhenAdmitted(c, f, ss[i], es[i])
  {
    PeriodKeepsTheLimit(c, f, u, ss, es, i);
    if es[i].Check? && Admits(c, ss[i].user, f, es[i].requested) {
      UsageIsNotNegative(CountsAt(u.tokenCounts, f));
    }
  }
}
