/**
 * What a verify request is answered, from the history of the run alone: from the verifications started and finished
 * before, the challenges redeemed, the salts set, and the pruner's ticks.
 */
module CaptchaHistory {
  import opened Options
  import opened PowCaptcha

  // ----- Addresses -----

  /** The moment from which this event counts an address as just tried: six hours ahead after a bogus solution. */
  ghost function Tried(s: State, e: Event, ip: string): Option<int> {
    if e.Verify? && e.ip == ip && Verdicts(s, e) == Started then Some(s.now)
    else if e.Finish? && e.outcome == Bogus && e.handler in s.pending && s.pending[e.handler].ip == ip then Some(s.now + 21600000)
    else None
  }

  /** Event `m` is the last to try the address before `i`, and no pruning since was over a minute after it. */
  ghost predicate LastTried(ss: seq<State>, es: seq<Event>, m: nat, i: nat, ip: string)
    requires |ss| == |es| + 1 && i <= |es|
  {
    && m < i && Tried(ss[m], es[m], ip).Some?
    && forall p :: m < p < i ==> StillTried(ss[p], es[p], ip, Tried(ss[m], es[m], ip).value)
  }

  ghost predicate StillTried(s: State, e: Event, ip: string, t: int) {
    Tried(s, e, ip) == None && (e.Pruning? ==> s.now <= t + 60000)
  }

  lemma {:induction false} StepTries(timeout: int, s: State, e: Event, ip: string)
    requires Enabled(s, e)
    ensures var t := Step(timeout, s, e);
            if Tried(s, e, ip).Some? then ip in t.recent && t.recent[ip] == Tried(s, e, ip).value
            else if ip in s.recent && StillTried(s, e, ip, s.recent[ip]) then ip in t.recent && t.recent[ip] == s.recent[ip]
            else ip !in t.recent
  {
  }

  lemma {:induction false} LastTriedOneMore(ss: seq<State>, es: seq<Event>, m: nat, i: nat, ip: string)
    requires |ss| == |es| + 1 && i < |es|
    ensures LastTried(ss, es, m, i + 1, ip) <==>
              (m == i && Tried(ss[i], es[i], ip).Some?)
              || (LastTried(ss, es, m, i, ip) && StillTried(ss[i], es[i], ip, Tried(ss[m], es[m], ip).value))
  {
  }

  /** The address is tried last by event `m`, if it is one that the next attempt is kept waiting for. */
  ghost predicate TriedBy(ss: seq<State>, es: seq<Event>, m: nat, i: nat, ip: string)
    requires |ss| == |es| + 1 && i <= |es|
  {
    LastTried(ss, es, m, i, ip) && ip in ss[i].recent && ss[i].recent[ip] == Tried(ss[m], es[m], ip).value
  }

  lemma {:induction false} RecentIsTried(timeout: int, ss: seq<State>, es: seq<Event>, i: nat, ip: string)
    requires Run(timeout, ss, es) && i <= |es|
    ensures ip in ss[i].recent ==> exists m :: TriedBy(ss, es, m, i, ip)
    ensures forall m :: LastTried(ss, es, m, i, ip) ==> TriedBy(ss, es, m, i, ip)
  {
    if i == 0 {
    } else {
      var n := i - 1;
      RecentIsTried(timeout, ss, es, n, ip);
      assert Next(timeout, ss[n], es[n], ss[i]);
      StepTries(timeout, ss[n], es[n], ip);
      forall m: nat ensures LastTried(ss, es, m, i, ip) ==> TriedBy(ss, es, m, i, ip) {
        LastTriedOneMore(ss, es, m, n, ip);
      }
      if ip in ss[i].recent {
        if Tried(ss[n], es[n], ip).Some? {
          LastTriedOneMore(ss, es, n, n, ip);
          assert TriedBy(ss, es, n, i, ip);
        } else {
          var m :| TriedBy(ss, es, m, n, ip);
          LastTriedOneMore(ss, es, m, n, ip);
          assert TriedBy(ss, es, m, i, ip);
        }
      }
    }
  }

  // ----- Solutions -----

  ghost predicate Redeems(s: State, e: Event, g: Signature) {
    e.Finish? && e.outcome == Solved && e.handler in s.pending && s.pending[e.handler].signature == g
  }

  /** Event `m` redeems the challenge, none does so again before `i`, and no pruning since came after its lifetime. */
  ghost predicate LastRedeemed(timeout: int, ss: seq<State>, es: seq<Event>, m: nat, i: nat, g: Signature)
    requires |ss| == |es| + 1 && i <= |es|
  {
    && m < i && Redeems(ss[m], es[m], g)
    && forall p :: m < p < i ==> StillRedeemed(timeout, ss[p], es[p], g, ss[m].now)
  }

  ghost predicate StillRedeemed(timeout: int, s: State, e: Event, g: Signature, t: int) {
    !Redeems(s, e, g) && (e.Pruning? ==> s.now <= t + timeout)
  }

  lemma {:induction false} StepRedeems(timeout: int, s: State, e: Event, g: Signature)
    requires Enabled(s, e)
    ensures var t := Step(timeout, s, e);
            if Redeems(s, e, g) then g in t.solves && t.solves[g] == s.now
            else if g in s.solves && StillRedeemed(timeout, s, e, g, s.solves[g]) then g in t.solves && t.solves[g] == s.solves[g]
            else g !in t.solves
  {
  }

  lemma {:induction false} LastRedeemedOneMore(timeout: int, ss: seq<State>, es: seq<Event>, m: nat, i: nat, g: Signature)
    requires |ss| == |es| + 1 && i < |es|
    ensures LastRedeemed(timeout, ss, es, m, i + 1, g) <==>
              (m == i && Redeems(ss[i], es[i], g))
              || (LastRedeemed(timeout, ss, es, m, i, g) && StillRedeemed(timeout, ss[i], es[i], g, ss[m].now))
  {
  }

  ghost predicate RedeemedBy(timeout: int, ss: seq<State>, es: seq<Event>, m: nat, i: nat, g: Signature)
    requires |ss| == |es| + 1 && i <= |es|
  {
    LastRedeemed(timeout, ss, es, m, i, g) && g in ss[i].solves && ss[i].solves[g] == ss[m].now
  }

  lemma {:induction false} SolvesAreRemembered(timeout: int, ss: seq<State>, es: seq<Event>, i: nat, g: Signature)
    requires Run(timeout, ss, es) && i <= |es|
    ensures g in ss[i].solves ==> exists m :: RedeemedBy(timeout, ss, es, m, i, g)
    ensures forall m :: LastRedeemed(timeout, ss, es, m, i, g) ==> RedeemedBy(timeout, ss, es, m, i, g)
  {
    if i == 0 {
    } else {
      var n := i - 1;
      SolvesAreRemembered(timeout, ss, es, n, g);
      assert Next(timeout, ss[n], es[n], ss[i]);
      StepRedeems(timeout, ss[n], es[n], g);
      forall m: nat ensures LastRedeemed(timeout, ss, es, m, i, g) ==> RedeemedBy(timeout, ss, es, m, i, g) {
        LastRedeemedOneMore(timeout, ss, es, m, n, g);
      }
      if g in ss[i].solves {
        if Redeems(ss[n], es[n], g) {
          LastRedeemedOneMore(timeout, ss, es, n, n, g);
          assert RedeemedBy(timeout, ss, es, n, i, g);
        } else {
          var m :| RedeemedBy(timeout, ss, es, m, n, g);
          LastRedeemedOneMore(timeout, ss, es, m, n, g);
          assert RedeemedBy(timeout, ss, es, m, i, g);
        }
      }
    }
  }

  // ----- Salts -----

  /** The salt in force is the last one set, or the first of all. */
  ghost function SaltSet(ss: seq<State>, es: seq<Event>, i: nat): nat
    requires |ss| == |es| + 1 && i <= |es|
  {
    if i == 0 then ss[0].salt else if es[i - 1].Rotate? then es[i - 1].salt else SaltSet(ss, es, i - 1)
  }

  lemma {:induction false} SaltInForce(timeout: int, ss: seq<State>, es: seq<Event>, i: nat)
    requires Run(timeout, ss, es) && i <= |es|
    ensures ss[i].salt == SaltSet(ss, es, i)
  {
    if i == 0 {
    } else {
      SaltInForce(timeout, ss, es, i - 1);
      assert Next(timeout, ss[i - 1], es[i - 1], ss[i]);
    }
  }

  // ----- The answer -----

  ghost predicate AddressIsTried(ss: seq<State>, es: seq<Event>, i: nat, ip: string)
    requires |ss| == |es| + 1 && i <= |es|
  {
    exists m :: LastTried(ss, es, m, i, ip)
  }

  ghost predicate IsRedeemed(timeout: int, ss: seq<State>, es: seq<Event>, i: nat, g: Signature)
    requires |ss| == |es| + 1 && i <= |es|
  {
    exists m :: LastRedeemed(timeout, ss, es, m, i, g)
  }

  /** The tests in the order of their answers; the request is given the answer of the first it does not pass. */
  ghost function Tests(timeout: int, ss: seq<State>, es: seq<Event>, i: nat): seq<(Verdict, bool)>
    requires |ss| == |es| + 1 && i < |es| && es[i].Verify?
  {
    var sub, ip := es[i].sub, es[i].ip;
    [(RateLimited, !AddressIsTried(ss, es, i, ip)),
     (Invalid, sub.parses),
     (BadSignature, sub.signature == Hmac(sub.challenge, SaltSet(ss, es, i))),
     (BadPassword, sub.passwordOk),
     (WrongIp, sub.challenge.ip == None || sub.challenge.ip == Some(ip)),
     (Reused, !IsRedeemed(timeout, ss, es, i, sub.signature)),
     (Expired, ss[i].now <= sub.challenge.expiry),
     (NotRefreshable, sub.challenge.token == None || sub.refreshable)]
  }

  ghost predicate FirstFailed(tests: seq<(Verdict, bool)>, k: int) {
    0 <= k < |tests| && !tests[k].1 && forall j :: 0 <= j < k ==> tests[j].1
  }

  ghost predicate Answers(tests: seq<(Verdict, bool)>, verdict: Verdict) {
    if forall j :: 0 <= j < |tests| ==> tests[j].1 then verdict == Started
    else exists k :: FirstFailed(tests, k) && verdict == tests[k].0
  }

  lemma {:induction false} AnswersFrom(tests: seq<(Verdict, bool)>, k: nat, verdict: Verdict)
    requires k <= |tests| && forall j :: 0 <= j < k ==> tests[j].1
    requires if k == |tests| then verdict == Started else !tests[k].1 && verdict == tests[k].0
    ensures Answers(tests, verdict)
  {
    assert k < |tests| ==> FirstFailed(tests, k);
  }

  /** The verdict of `Check` is that of the first test that fails, whatever the tests are. */
  lemma {:induction false} CheckAnswers(
    solves: map<Signature, int>, recent: map<string, int>, salt: nat, sub: Submission, ip: string, now: int, tests: seq<(Verdict, bool)>)
    requires |tests| == 8
    requires tests[0] == (RateLimited, ip !in recent) && tests[1] == (Invalid, sub.parses)
    requires tests[2] == (BadSignature, sub.signature == Hmac(sub.challenge, salt)) && tests[3] == (BadPassword, sub.passwordOk)
    requires tests[4] == (WrongIp, sub.challenge.ip == None || sub.challenge.ip == Some(ip)) && tests[5] == (Reused, sub.signature !in solves)
    requires tests[6] == (Expired, now <= sub.challenge.expiry)
    requires tests[7] == (NotRefreshable, sub.challenge.token == None || sub.refreshable)
    ensures Answers(tests, Check(solves, recent, salt, sub, ip, now))
  {
    var k := if !tests[0].1 then 0 else if !tests[1].1 then 1 else if !tests[2].1 then 2 else if !tests[3].1 then 3
             else if !tests[4].1 then 4 else if !tests[5].1 then 5 else if !tests[6].1 then 6 else if !tests[7].1 then 7 else 8;
    AnswersFrom(tests, k, Check(solves, recent, salt, sub, ip, now));
  }

  /** In every run a request is answered by the first test it fails, and its verification is started if it fails none. */
  lemma {:induction false} FirstFailedTestAnswers(timeout: int, ss: seq<State>, es: seq<Event>, i: nat)
    requires Run(timeout, ss, es) && i < |es| && es[i].Verify?
    ensures Answers(Tests(timeout, ss, es, i), Verdicts(ss[i], es[i]))
  {
    var s, sub, ip := ss[i], es[i].sub, es[i].ip;
    RecentIsTried(timeout, ss, es, i, ip);
    SolvesAreRemembered(timeout, ss, es, i, sub.signature);
    SaltInForce(timeout, ss, es, i);
    assert AddressIsTried(ss, es, i, ip) <==> ip in s.recent;
    assert IsRedeemed(timeout, ss, es, i, sub.signature) <==> sub.signature in s.solves;
    CheckAnswers(s.solves, s.recent, s.salt, sub, ip, s.now, Tests(timeout, ss, es, i));
  }

  /** What a handler finishes is what it was started for: its signature and its address. */
  lemma {:induction false} PendingIsWhatWasStarted(timeout: int, ss: seq<State>, es: seq<Event>, i: nat, h: nat) returns (m: nat)
    requires Run(timeout, ss, es) && i <= |es| && h in ss[i].pending
    ensures m < i && es[m].Verify? && es[m].handler == h && Verdicts(ss[m], es[m]) == Started
    ensures ss[i].pending[h] == Pending(es[m].sub.signature, es[m].ip, ss[m].now)
    ensures forall p :: m < p < i ==> !(es[p].Finish? && es[p].handler == h)
  {
    m := 0;
    if i > 0 {
      assert Next(timeout, ss[i - 1], es[i - 1], ss[i]);
      if es[i - 1].Verify? && es[i - 1].handler == h {
        m := i - 1;
      } else {
        m := PendingIsWhatWasStarted(timeout, ss, es, i - 1, h);
      }
    }
  }

  /** A minute must pass between two verifications from one address, and more than six hours after a bogus solution. */
  lemma {:induction false} AttemptsWait(timeout: int, ss: seq<State>, es: seq<Event>, i: nat, j: nat, ip: string)
    requires Run(timeout, ss, es) && i < j < |es|
    requires es[j].Verify? && es[j].ip == ip && Verdicts(ss[j], es[j]) == Started && Tried(ss[i], es[i], ip).Some?
    ensures ss[j].now > Tried(ss[i], es[i], ip).value + 60000
  {
    assert Next(timeout, ss[i], es[i], ss[i + 1]);
    AttemptsFromOneAddressAreSpaced(timeout, ss, es, i, j, ip);
  }
}
