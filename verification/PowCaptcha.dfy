/**
 * Redemption of proof-of-work challenges. The verify handler checks, waits for
 * one hash, and commits; a pruner runs beside it. Whether a challenge can be
 * redeemed twice depends on how long the hash may take.
 *
 * A signature is modelled as the pair it signs, which makes it injective; a
 * client can only present signatures the server has issued.
 */
module PowCaptcha {
  import opened Options

  const LOCKOUT_TIME := 60 * 1000
  const BLOCK_TIME := 6 * 60 * 60 * 1000

  datatype Challenge = Challenge(nonce: nat, ip: Option<string>, expiry: int, token: Option<string>)

  datatype Signature = Hmac(challenge: Challenge, salt: nat) | Forged(text: string)

  /** The parts of a verify request; the three flags are the verdicts of checks that are not part of this model. */
  datatype Submission = Submission(challenge: Challenge, signature: Signature, parses: bool, passwordOk: bool, refreshable: bool)

  datatype Verdict = RateLimited | Invalid | BadSignature | BadPassword | WrongIp | Reused | Expired | NotRefreshable | Started

  datatype Outcome = Solved | Bogus | Crashed

  /** The checks of the handler, in its order, up to its await. */
  function Check(solves: map<Signature, int>, recent: map<string, int>, salt: nat, sub: Submission, ip: string, now: int): Verdict {
    if ip in recent then RateLimited
    else if !sub.parses then Invalid
    else if sub.signature != Hmac(sub.challenge, salt) then BadSignature
    else if !sub.passwordOk then BadPassword
    else if sub.challenge.ip.Some? && sub.challenge.ip.value != ip then WrongIp
    else if sub.signature in solves then Reused
    else if now > sub.challenge.expiry then Expired
    else if sub.challenge.token.Some? && !sub.refreshable then NotRefreshable
    else Started
  }

  function Kept<K>(m: map<K, int>, now: int, age: int): map<K, int> {
    map k | k in m && !(now - m[k] > age) :: m[k]
  }

  // ----- The module's state as the code keeps it -----

  class PowVerifier {
    const challengeTimeout: int
    var powKeySalt: nat
    var solves: map<Signature, int>
    var recentAttempts: map<string, int>

    constructor (challengeTimeout: int, salt: nat)
      ensures this.challengeTimeout == challengeTimeout && powKeySalt == salt
      ensures solves == map[] && recentAttempts == map[]
    {
      this.challengeTimeout := challengeTimeout;
      powKeySalt := salt;
      solves := map[];
      recentAttempts := map[];
    }

    method GenerateChallenge(nonce: nat, ip: Option<string>, token: Option<string>, now: int) returns (c: Challenge, signature: Signature)
      ensures c.expiry == now + challengeTimeout && c.ip == ip && c.token == token && c.nonce == nonce
      ensures signature == Hmac(c, powKeySalt)
    {
      c := Challenge(nonce, ip, now + challengeTimeout, token);
      signature := Hmac(c, powKeySalt);
    }

    /** The handler up to its await. */
    method Begin(sub: Submission, ip: string, now: int) returns (verdict: Verdict)
      modifies this`recentAttempts
      ensures verdict == Check(solves, old(recentAttempts), powKeySalt, sub, ip, now)
      ensures recentAttempts == if verdict == Started then old(recentAttempts)[ip := now] else old(recentAttempts)
    {
      if ip in recentAttempts {
        return RateLimited;
      }
      if !sub.parses {
        return Invalid;
      }
      if sub.signature != Hmac(sub.challenge, powKeySalt) {
        return BadSignature;
      }
      if !sub.passwordOk {
        return BadPassword;
      }
      if sub.challenge.ip.Some? && sub.challenge.ip.value != ip {
        return WrongIp;
      }
      if sub.signature in solves {
        return Reused;
      }
      if now > sub.challenge.expiry {
        return Expired;
      }
      if sub.challenge.token.Some? && !sub.refreshable {
        return NotRefreshable;
      }
      recentAttempts := recentAttempts[ip := now];
      verdict := Started;
    }

    /** The handler after its await; a token is issued exactly on `Solved`. */
    method Resume(signature: Signature, ip: string, outcome: Outcome, now: int) returns (redeemed: bool)
      modifies this`recentAttempts, this`solves
      ensures redeemed <==> outcome == Solved
      ensures solves == if outcome == Solved then old(solves)[signature := now] else old(solves)
      ensures recentAttempts == if outcome == Bogus then old(recentAttempts)[ip := now + BLOCK_TIME] else old(recentAttempts)
    {
      match outcome
      case Bogus =>
        recentAttempts := recentAttempts[ip := now + BLOCK_TIME];
        redeemed := false;
      case Solved =>
        solves := solves[signature := now];
        redeemed := true;
      case Crashed =>
        redeemed := false;
    }

    /** One tick of the pruning interval: two loops that delete while they scan. */
    method Prune(now: int)
      modifies this`recentAttempts, this`solves
      ensures recentAttempts == Kept(old(recentAttempts), now, LOCKOUT_TIME)
      ensures solves == Kept(old(solves), now, challengeTimeout)
    {
      var ips := recentAttempts.Keys;
      while ips != {}
        invariant ips <= recentAttempts.Keys && solves == old(solves)
        invariant forall ip :: ip in recentAttempts ==> ip in old(recentAttempts) && recentAttempts[ip] == old(recentAttempts)[ip]
        invariant forall ip :: ip in old(recentAttempts) && ip !in ips ==>
                    (ip in recentAttempts <==> !(now - old(recentAttempts)[ip] > LOCKOUT_TIME))
        invariant forall ip :: ip in ips ==> ip in old(recentAttempts)
      {
        var ip :| ip in ips;
        ips := ips - {ip};
        if now - recentAttempts[ip] > LOCKOUT_TIME {
          recentAttempts := recentAttempts - {ip};
        }
      }
      var keys := solves.Keys;
      while keys != {}
        invariant keys <= solves.Keys && recentAttempts == Kept(old(recentAttempts), now, LOCKOUT_TIME)
        invariant forall k :: k in solves ==> k in old(solves) && solves[k] == old(solves)[k]
        invariant forall k :: k in old(solves) && k !in keys ==> (k in solves <==> !(now - old(solves)[k] > challengeTimeout))
        invariant forall k :: k in keys ==> k in old(solves)
      {
        var k :| k in keys;
        keys := keys - {k};
        if now - solves[k] > challengeTimeout {
          solves := solves - {k};
        }
      }
    }
  }

  // ----- Interleavings of handlers and the pruner -----

  datatype Pending = Pending(signature: Signature, ip: string, started: int)

  datatype State = State(
    now: int, salt: nat, issued: set<Signature>, solves: map<Signature, int>, recent: map<string, int>,
    pending: map<nat, Pending>, redeemed: seq<Signature>)

  datatype Event =
    | Tick(elapsed: nat)
    | Issue(nonce: nat, client: Option<string>, token: Option<string>)
    | Rotate(salt: nat)
    | Verify(handler: nat, sub: Submission, ip: string)
    | Finish(handler: nat, outcome: Outcome)
    | Pruning

  ghost predicate Enabled(s: State, e: Event) {
    match e
    case Tick(_) => true
    case Issue(nonce, _, _) => forall g :: g in s.issued && g.Hmac? ==> g.challenge.nonce != nonce
    case Rotate(_) => true
    case Verify(handler, sub, _) => handler !in s.pending && (sub.signature.Hmac? ==> sub.signature in s.issued)
    case Finish(handler, _) => handler in s.pending
    case Pruning => true
  }

  function Verdicts(s: State, e: Event): Verdict
    requires e.Verify?
  {
    Check(s.solves, s.recent, s.salt, e.sub, e.ip, s.now)
  }

  function Step(timeout: int, s: State, e: Event): State
    requires e.Finish? ==> e.handler in s.pending
  {
    match e
    case Tick(elapsed) => s.(now := s.now + elapsed)
    case Issue(nonce, client, token) => s.(issued := s.issued + {Hmac(Challenge(nonce, client, s.now + timeout, token), s.salt)})
    case Rotate(salt) => s.(salt := salt)
    case Verify(handler, sub, ip) =>
      if Verdicts(s, e) != Started then s
      else s.(recent := s.recent[ip := s.now], pending := s.pending[handler := Pending(sub.signature, ip, s.now)])
    case Finish(handler, outcome) =>
      var p := s.pending[handler];
      var done := s.(pending := s.pending - {handler});
      (match outcome
       case Solved => done.(solves := s.solves[p.signature := s.now], redeemed := s.redeemed + [p.signature])
       case Bogus => done.(recent := s.recent[p.ip := s.now + BLOCK_TIME])
       case Crashed => done)
    case Pruning => s.(recent := Kept(s.recent, s.now, LOCKOUT_TIME), solves := Kept(s.solves, s.now, timeout))
  }

  ghost predicate Initial(s: State) {
    s.issued == {} && s.solves == map[] && s.recent == map[] && s.pending == map[] && s.redeemed == []
  }

  ghost predicate Next(timeout: int, s: State, e: Event, t: State) {
    Enabled(s, e) && t == Step(timeout, s, e)
  }

  ghost predicate Run(timeout: int, ss: seq<State>, es: seq<Event>) {
    && |ss| == |es| + 1
    && Initial(ss[0])
    && forall i :: 0 <= i < |es| ==> Next(timeout, ss[i], es[i], ss[i + 1])
  }

  /** No hash verification is still running more than `limit` milliseconds after it started. */
  ghost predicate Timely(s: State, limit: int) {
    forall h :: h in s.pending ==> s.now <= s.pending[h].started + limit
  }

  /** Every challenge issued so far names the client's address. */
  ghost predicate BoundToIp(s: State) {
    forall g :: g in s.issued && g.Hmac? ==> g.challenge.ip.Some?
  }

  ghost predicate Distinct(q: seq<Signature>) {
    forall i, j :: 0 <= i < j < |q| ==> q[i] != q[j]
  }

  // ----- At most one redemption -----

  ghost predicate IssuedInv(timeout: int, s: State) {
    forall g :: g in s.issued ==> g.Hmac? && g.challenge.expiry <= s.now + timeout
  }

  /** A running handler's address stays locked until LOCKOUT_TIME after it started. */
  ghost predicate PendingInv(timeout: int, s: State) {
    forall h :: h in s.pending ==>
      var p := s.pending[h];
      && p.signature in s.issued && p.signature.Hmac?
      && (p.signature.challenge.ip.Some? ==> p.signature.challenge.ip.value == p.ip)
      && p.signature.challenge.expiry <= p.started + timeout
      && p.started <= s.now
      && ((p.ip in s.recent && s.recent[p.ip] >= p.started) || s.now > p.started + LOCKOUT_TIME)
      && p.signature !in s.redeemed
  }

  /** A redeemed signature is dropped from `solves` only after its challenge has expired. */
  ghost predicate RedeemedInv(timeout: int, s: State) {
    && Distinct(s.redeemed)
    && (forall g :: g in s.redeemed ==> g in s.issued && g.Hmac? && (g in s.solves || s.now > g.challenge.expiry))
    && (forall g :: g in s.redeemed && g in s.solves && g.Hmac? ==> g.challenge.expiry <= s.solves[g] + timeout)
  }

  ghost predicate OneHandlerEach(s: State) {
    forall h, k :: h in s.pending && k in s.pending && s.pending[h].signature == s.pending[k].signature ==> h == k
  }

  ghost predicate Inv(timeout: int, s: State) {
    IssuedInv(timeout, s) && PendingInv(timeout, s) && RedeemedInv(timeout, s) && OneHandlerEach(s)
  }

  lemma {:induction false} StartedIsNotRedeemed(timeout: int, s: State, e: Event)
    requires Inv(timeout, s) && e.Verify? && Enabled(s, e) && Verdicts(s, e) == Started
    ensures e.sub.signature !in s.redeemed && e.sub.signature in s.issued
  {
  }

  lemma {:induction false} StartedIsNotPending(timeout: int, limit: int, s: State, e: Event, h: nat)
    requires Inv(timeout, s) && BoundToIp(s) && Timely(s, limit)
    requires limit <= LOCKOUT_TIME || timeout <= LOCKOUT_TIME
    requires e.Verify? && Enabled(s, e) && Verdicts(s, e) == Started
    requires h in s.pending
    ensures s.pending[h].signature != e.sub.signature
  {
  }

  lemma {:induction false} VerifyKeepsInv(timeout: int, limit: int, s: State, e: Event)
    requires Inv(timeout, s) && BoundToIp(s) && Timely(s, limit)
    requires limit <= LOCKOUT_TIME || timeout <= LOCKOUT_TIME
    requires e.Verify? && Enabled(s, e)
    ensures Inv(timeout, Step(timeout, s, e))
  {
    if Verdicts(s, e) == Started {
      StartedIsNotRedeemed(timeout, s, e);
      forall h | h in s.pending ensures s.pending[h].signature != e.sub.signature {
        StartedIsNotPending(timeout, limit, s, e, h);
      }
    }
  }

  lemma {:induction false} SolvedIsRedeemed(timeout: int, s: State, e: Event)
    requires Inv(timeout, s) && e.Finish? && Enabled(s, e)
    ensures RedeemedInv(timeout, Step(timeout, s, e))
  {
    var t := Step(timeout, s, e);
    var p := s.pending[e.handler];
    if e.outcome == Solved {
      assert Distinct(t.redeemed);
      assert p.signature in t.solves;
    }
  }

  lemma {:induction false} FinishKeepsInv(timeout: int, s: State, e: Event)
    requires Inv(timeout, s) && e.Finish? && Enabled(s, e)
    ensures Inv(timeout, Step(timeout, s, e))
  {
    SolvedIsRedeemed(timeout, s, e);
    OthersArePending(timeout, s, e);
  }

  /** A handler that is done takes its own attempt off the list and makes no other redeemed. */
  lemma {:induction false} OthersArePending(timeout: int, s: State, e: Event)
    requires Inv(timeout, s) && e.Finish? && Enabled(s, e)
    ensures PendingInv(timeout, Step(timeout, s, e))
  {
    var t := Step(timeout, s, e);
    forall h | h in t.pending ensures h in s.pending && t.pending[h] == s.pending[h] && t.pending[h].signature !in t.redeemed {
      assert s.pending[h].signature != s.pending[e.handler].signature;
    }
  }

  lemma {:induction false} PruningKeepsInv(timeout: int, s: State)
    requires Inv(timeout, s)
    ensures Inv(timeout, Step(timeout, s, Pruning))
  {
  }

  lemma {:induction false} StepKeepsInv(timeout: int, limit: int, s: State, e: Event)
    requires Inv(timeout, s) && BoundToIp(s) && Timely(s, limit) && Enabled(s, e)
    requires limit <= LOCKOUT_TIME || timeout <= LOCKOUT_TIME
    ensures Inv(timeout, Step(timeout, s, e))
  {
    match e
    case Verify(_, _, _) => VerifyKeepsInv(timeout, limit, s, e);
    case Finish(_, _) => FinishKeepsInv(timeout, s, e);
    case Pruning => PruningKeepsInv(timeout, s);
    case _ =>
  }

  ghost predicate AllTimelyAndBound(limit: int, ss: seq<State>) {
    forall i :: 0 <= i < |ss| ==> Timely(ss[i], limit) && BoundToIp(ss[i])
  }

  lemma {:induction false} InvHoldsInEveryTimelyRun(timeout: int, limit: int, ss: seq<State>, es: seq<Event>, i: nat)
    requires Run(timeout, ss, es) && AllTimelyAndBound(limit, ss) && i <= |es|
    requires limit <= LOCKOUT_TIME || timeout <= LOCKOUT_TIME
    ensures Inv(timeout, ss[i])
  {
    if i == 0 {
    } else {
      InvHoldsInEveryTimelyRun(timeout, limit, ss, es, i - 1);
      assert Next(timeout, ss[i - 1], es[i - 1], ss[i]);
      StepKeepsInv(timeout, limit, ss[i - 1], es[i - 1]);
    }
  }

  /** In every run with hashes that take at most `limit`, no challenge is redeemed twice. */
  ghost predicate RedeemsOnce(timeout: int, limit: int) {
    forall ss: seq<State>, es: seq<Event> :: Run(timeout, ss, es) && AllTimelyAndBound(limit, ss) ==> Distinct(ss[|es|].redeemed)
  }

  lemma {:induction false} ExtendRun(timeout: int, limit: int, ss: seq<State>, es: seq<Event>, e: Event, t: State)
    requires Run(timeout, ss, es) && AllTimelyAndBound(limit, ss)
    requires Next(timeout, ss[|es|], e, t) && Timely(t, limit) && BoundToIp(t)
    ensures Run(timeout, ss + [t], es + [e]) && AllTimelyAndBound(limit, ss + [t])
    ensures (ss + [t])[|es + [e]|] == t
  {
  }

  /** A run in which one challenge is redeemed twice, with a hash that takes a millisecond too long. */
  lemma {:induction false} SlowHashIsRedeemedTwice(timeout: int, limit: int) returns (ss: seq<State>, es: seq<Event>)
    requires limit > LOCKOUT_TIME && timeout > LOCKOUT_TIME
    ensures Run(timeout, ss, es) && AllTimelyAndBound(limit, ss)
    ensures !Distinct(ss[|es|].redeemed)
  {
    var g := Hmac(Challenge(0, Some("ip"), timeout, None), 0);
    var sub := Submission(g.challenge, g, true, true, true);
    var late := LOCKOUT_TIME + 1;
    var first, second := Pending(g, "ip", 0), Pending(g, "ip", late);
    var s4 := State(late, 0, {g}, map[], map[], map[1 := first], []);
    var s5 := s4.(recent := map["ip" := late], pending := map[1 := first, 2 := second]);
    var s6 := s5.(pending := map[2 := second], solves := map[g := late], redeemed := [g]);
    var s7 := s6.(pending := map[], redeemed := [g, g]);
    ss, es := SlowHashOutlivesItsLock(timeout, limit, g);
    ExtendRun(timeout, limit, ss, es, Verify(2, sub, "ip"), s5);
    ss, es := ss + [s5], es + [Verify(2, sub, "ip")];
    ExtendRun(timeout, limit, ss, es, Finish(1, Solved), s6);
    ss, es := ss + [s6], es + [Finish(1, Solved)];
    ExtendRun(timeout, limit, ss, es, Finish(2, Solved), s7);
    ss, es := ss + [s7], es + [Finish(2, Solved)];
    assert s7.redeemed[0] == s7.redeemed[1];
  }

  /** The first verification is still running when the lock on its address is pruned. */
  lemma {:induction false} SlowHashOutlivesItsLock(timeout: int, limit: int, g: Signature) returns (ss: seq<State>, es: seq<Event>)
    requires limit > LOCKOUT_TIME && timeout > LOCKOUT_TIME && g == Hmac(Challenge(0, Some("ip"), timeout, None), 0)
    ensures Run(timeout, ss, es) && AllTimelyAndBound(limit, ss)
    ensures ss[|es|] == State(LOCKOUT_TIME + 1, 0, {g}, map[], map[], map[1 := Pending(g, "ip", 0)], [])
  {
    var sub := Submission(g.challenge, g, true, true, true);
    var late := LOCKOUT_TIME + 1;
    var first := Pending(g, "ip", 0);
    var s0 := State(0, 0, {}, map[], map[], map[], []);
    var s1 := s0.(issued := {g});
    var s2 := s1.(recent := map["ip" := 0], pending := map[1 := first]);
    var s3 := s2.(now := late);
    var s4 := s3.(recent := map[]);
    ss, es := [s0], [];
    ExtendRun(timeout, limit, ss, es, Issue(0, Some("ip"), None), s1);
    ss, es := ss + [s1], es + [Issue(0, Some("ip"), None)];
    ExtendRun(timeout, limit, ss, es, Verify(1, sub, "ip"), s2);
    ss, es := ss + [s2], es + [Verify(1, sub, "ip")];
    ExtendRun(timeout, limit, ss, es, Tick(late), s3);
    ss, es := ss + [s3], es + [Tick(late)];
    ExtendRun(timeout, limit, ss, es, Pruning, s4);
    ss, es := ss + [s4], es + [Pruning];
  }

  /**
   * How the three time constants must relate: challenges are redeemed at most
   * once exactly when a hash takes no longer than the lockout, or a challenge
   * does not outlive it.
   */
  lemma {:induction false} RedeemedOnceExactlyWhen(timeout: int, limit: int)
    ensures RedeemsOnce(timeout, limit) <==> limit <= LOCKOUT_TIME || timeout <= LOCKOUT_TIME
  {
    if limit <= LOCKOUT_TIME || timeout <= LOCKOUT_TIME {
      forall ss: seq<State>, es: seq<Event> | Run(timeout, ss, es) && AllTimelyAndBound(limit, ss) ensures Distinct(ss[|es|].redeemed) {
        InvHoldsInEveryTimelyRun(timeout, limit, ss, es, |es|);
      }
    } else {
      var ss, es := SlowHashIsRedeemedTwice(timeout, limit);
      assert !RedeemsOnce(timeout, limit);
    }
  }

  // ----- What a challenge is good for -----

  /** Event number `j` issued the challenge that `g` signs. */
  ghost predicate IssuedAt(timeout: int, ss: seq<State>, es: seq<Event>, j: nat, g: Signature)
    requires |ss| == |es| + 1
  {
    && j < |es| && es[j].Issue?
    && g == Hmac(Challenge(es[j].nonce, es[j].client, ss[j].now + timeout, es[j].token), ss[j].salt)
  }

  lemma {:induction false} IssuedBy(timeout: int, ss: seq<State>, es: seq<Event>, i: nat, g: Signature) returns (j: nat)
    requires Run(timeout, ss, es) && i <= |es| && g in ss[i].issued
    ensures j < i && IssuedAt(timeout, ss, es, j, g)
    decreases i
  {
    j := 0;
    if i == 0 {
    } else {
      assert Next(timeout, ss[i - 1], es[i - 1], ss[i]);
      if g in ss[i - 1].issued {
        j := IssuedBy(timeout, ss, es, i - 1, g);
      } else {
        j := i - 1;
      }
    }
  }

  lemma {:induction false} SolvesAreRedeemed(timeout: int, ss: seq<State>, es: seq<Event>, i: nat)
    requires Run(timeout, ss, es) && i <= |es|
    ensures forall g :: g in ss[i].solves ==> g in ss[i].redeemed
    decreases i
  {
    if i == 0 {
    } else {
      SolvesAreRedeemed(timeout, ss, es, i - 1);
      assert Next(timeout, ss[i - 1], es[i - 1], ss[i]);
    }
  }

  /** The request presents the challenge unchanged, from its address, under the salt it was signed with, and in time. */
  predicate Presents(s: State, e: Event, g: Signature)
    requires e.Verify? && g.Hmac?
  {
    && e.sub.challenge == g.challenge && s.salt == g.salt
    && (g.challenge.ip == None || g.challenge.ip == Some(e.ip)) && s.now <= g.challenge.expiry
  }

  /** The conditions that have nothing to do with the challenge. */
  predicate MayTry(s: State, e: Event)
    requires e.Verify?
  {
    e.ip !in s.recent && e.sub.parses && e.sub.passwordOk && (e.sub.challenge.token == None || e.sub.refreshable)
  }

  /**
   * In every run in which hashes are timely, each signed challenge was issued by the server, and a
   * verification of it is started if and only if the challenge is presented unchanged, from the address it
   * was issued to, in time and before the salt is replaced, and it has not been redeemed yet.
   */
  lemma {:induction false} ChallengeIsGoodExactlyWhen(timeout: int, limit: int, ss: seq<State>, es: seq<Event>, i: nat)
    requires Run(timeout, ss, es) && AllTimelyAndBound(limit, ss) && (limit <= LOCKOUT_TIME || timeout <= LOCKOUT_TIME)
    requires i < |es| && es[i].Verify? && es[i].sub.signature.Hmac?
    ensures exists j: nat :: j < i && IssuedAt(timeout, ss, es, j, es[i].sub.signature)
    ensures Verdicts(ss[i], es[i]) == Started <==>
              MayTry(ss[i], es[i]) && Presents(ss[i], es[i], es[i].sub.signature) && es[i].sub.signature !in ss[i].redeemed
  {
    var g := es[i].sub.signature;
    assert Next(timeout, ss[i], es[i], ss[i + 1]);
    var j := IssuedBy(timeout, ss, es, i, g);
    InvHoldsInEveryTimelyRun(timeout, limit, ss, es, i);
    SolvesAreRedeemed(timeout, ss, es, i);
  }

  /** A challenge that names no address can be redeemed twice at once, from two addresses. */
  lemma {:induction false} UnboundChallengeIsRedeemedTwice(timeout: int) returns (ss: seq<State>, es: seq<Event>)
    requires timeout >= 0
    ensures Run(timeout, ss, es) && forall i :: 0 <= i < |ss| ==> Timely(ss[i], 0)
    ensures !Distinct(ss[|es|].redeemed)
  {
    var g := Hmac(Challenge(0, None, timeout, None), 0);
    var one, two := Pending(g, "one", 0), Pending(g, "two", 0);
    var s3 := State(0, 0, {g}, map[], map["one" := 0, "two" := 0], map[1 := one, 2 := two], []);
    var s4 := s3.(pending := map[2 := two], solves := map[g := 0], redeemed := [g]);
    var s5 := s4.(pending := map[], redeemed := [g, g]);
    ss, es := UnboundChallengeIsTriedTwice(timeout, g);
    ExtendTimelyRun(timeout, ss, es, Finish(1, Solved), s4);
    ss, es := ss + [s4], es + [Finish(1, Solved)];
    ExtendTimelyRun(timeout, ss, es, Finish(2, Solved), s5);
    ss, es := ss + [s5], es + [Finish(2, Solved)];
    assert s5.redeemed[0] == s5.redeemed[1];
  }

  lemma {:induction false} UnboundChallengeIsTriedTwice(timeout: int, g: Signature) returns (ss: seq<State>, es: seq<Event>)
    requires timeout >= 0 && g == Hmac(Challenge(0, None, timeout, None), 0)
    ensures Run(timeout, ss, es) && forall i :: 0 <= i < |ss| ==> Timely(ss[i], 0)
    ensures ss[|es|] == State(0, 0, {g}, map[], map["one" := 0, "two" := 0],
                              map[1 := Pending(g, "one", 0), 2 := Pending(g, "two", 0)], [])
  {
    var sub := Submission(g.challenge, g, true, true, true);
    var one, two := Pending(g, "one", 0), Pending(g, "two", 0);
    var s0 := State(0, 0, {}, map[], map[], map[], []);
    var s1 := s0.(issued := {g});
    var s2 := s1.(recent := map["one" := 0], pending := map[1 := one]);
    var s3 := s2.(recent := map["one" := 0, "two" := 0], pending := map[1 := one, 2 := two]);
    ss, es := [s0], [];
    ExtendTimelyRun(timeout, ss, es, Issue(0, None, None), s1);
    ss, es := ss + [s1], es + [Issue(0, None, None)];
    ExtendTimelyRun(timeout, ss, es, Verify(1, sub, "one"), s2);
    ss, es := ss + [s2], es + [Verify(1, sub, "one")];
    ExtendTimelyRun(timeout, ss, es, Verify(2, sub, "two"), s3);
    ss, es := ss + [s3], es + [Verify(2, sub, "two")];
  }

  lemma {:induction false} ExtendTimelyRun(timeout: int, ss: seq<State>, es: seq<Event>, e: Event, t: State)
    requires Run(timeout, ss, es) && (forall i :: 0 <= i < |ss| ==> Timely(ss[i], 0))
    requires Next(timeout, ss[|es|], e, t) && Timely(t, 0)
    ensures Run(timeout, ss + [t], es + [e]) && (forall i :: 0 <= i < |ss| + 1 ==> Timely((ss + [t])[i], 0))
    ensures (ss + [t])[|es + [e]|] == t
  {
  }

  // ----- Attempts from one address -----

  ghost predicate LockedSince(s: State, ip: string, t: int) {
    (ip in s.recent && s.recent[ip] >= t) || s.now > t + LOCKOUT_TIME
  }

  lemma {:induction false} LocksNeverShorten(timeout: int, ss: seq<State>, es: seq<Event>, i: nat, j: nat, ip: string, t: int)
    requires Run(timeout, ss, es) && i <= j <= |es|
    requires LockedSince(ss[i], ip, t) && t <= ss[i].now + BLOCK_TIME
    ensures LockedSince(ss[j], ip, t) && ss[i].now <= ss[j].now
    decreases j
  {
    if i == j {
    } else {
      LocksNeverShorten(timeout, ss, es, i, j - 1, ip, t);
      assert Next(timeout, ss[j - 1], es[j - 1], ss[j]);
    }
  }

  /** An address gets at most one verification per lockout, and none for six hours after a bogus solution. */
  lemma {:induction false} AttemptsFromOneAddressAreSpaced(timeout: int, ss: seq<State>, es: seq<Event>, i: nat, j: nat, ip: string)
    requires Run(timeout, ss, es) && i < j < |es|
    requires es[j].Verify? && es[j].ip == ip && Verdicts(ss[j], es[j]) == Started
    ensures es[i].Verify? && es[i].ip == ip && Verdicts(ss[i], es[i]) == Started ==> ss[j].now > ss[i].now + LOCKOUT_TIME
    ensures es[i].Finish? && es[i].outcome == Bogus && es[i].handler in ss[i].pending && ss[i].pending[es[i].handler].ip == ip ==>
              ss[j].now > ss[i].now + BLOCK_TIME + LOCKOUT_TIME
  {
    assert Next(timeout, ss[i], es[i], ss[i + 1]);
    if es[i].Verify? && es[i].ip == ip && Verdicts(ss[i], es[i]) == Started {
      LocksNeverShorten(timeout, ss, es, i + 1, j, ip, ss[i].now);
    }
    if es[i].Finish? && es[i].outcome == Bogus && ss[i].pending[es[i].handler].ip == ip {
      LocksNeverShorten(timeout, ss, es, i + 1, j, ip, ss[i].now + BLOCK_TIME);
    }
  }
}
