/**
 * The per-key request limiter: at most so many attempts in the last minute, with
 * text and image requests sharing one list of attempts but not one limit.
 */
module RateLimit {
  type Time = int

  const ONE_MINUTE_MS: Time := 60000

  datatype Kind = TextRequest | ImageRequest

  datatype Limits = Limits(text: nat, image: nat)

  /** What getRetryAfter returns: zero, a wait, or not a number, which callers take for zero. */
  datatype Outcome = Admitted | RetryAfter(ms: Time) | NotANumber

  function Limit(limits: Limits, kind: Kind): nat {
    if kind == TextRequest then limits.text else limits.image
  }

  function Attempts(m: map<string, seq<Time>>, key: string): seq<Time> {
    if key in m then m[key] else []
  }

  predicate IsRecent(now: Time, attempt: Time) {
    attempt > now - ONE_MINUTE_MS
  }

  function Recent(attempts: seq<Time>, now: Time): (valid: seq<Time>)
    ensures |valid| <= |attempts|
    ensures forall i :: 0 <= i < |valid| ==> IsRecent(now, valid[i])
  {
    if attempts == [] then []
    else (if IsRecent(now, attempts[0]) then [attempts[0]] else []) + Recent(attempts[1..], now)
  }

  function Decision(attempts: seq<Time>, limit: nat, now: Time): (outcome: Outcome)
    ensures outcome.RetryAfter? ==> outcome.ms > 0
  {
    var valid := Recent(attempts, now);
    if |valid| < limit then Admitted
    else if valid == [] then NotANumber
    else RetryAfter(valid[0] - now + ONE_MINUTE_MS)
  }

  function Recorded(m: map<string, seq<Time>>, key: string, limit: nat, now: Time): map<string, seq<Time>> {
    var attempts := Attempts(m, key);
    if Decision(attempts, limit, now) == Admitted then m[key := Recent(attempts, now) + [now]] else m
  }

  function Pruned(m: map<string, seq<Time>>, now: Time): map<string, seq<Time>> {
    map key | key in m && Recent(m[key], now) != [] :: Recent(m[key], now)
  }

  /** The lists of `keys` are still to be pruned. */
  ghost function PartlyPruned(m: map<string, seq<Time>>, keys: set<string>, now: Time): map<string, seq<Time>> {
    map key | key in m && (key in keys || Recent(m[key], now) != []) :: if key in keys then m[key] else Recent(m[key], now)
  }

  lemma {:induction false} PruneOneMore(m: map<string, seq<Time>>, keys: set<string>, key: string, now: Time)
    requires key in keys && keys <= m.Keys
    ensures PartlyPruned(m, keys - {key}, now) ==
              if Recent(m[key], now) == [] then PartlyPruned(m, keys, now) - {key}
              else PartlyPruned(m, keys, now)[key := Recent(m[key], now)]
  {
  }

  /** `pop` on a list that was never stored changes nothing. */
  function Refunded(m: map<string, seq<Time>>, key: string): map<string, seq<Time>> {
    if Attempts(m, key) == [] then m else m[key := m[key][..|m[key]| - 1]]
  }

  method Filter(attempts: seq<Time>, now: Time) returns (valid: seq<Time>)
    ensures valid == Recent(attempts, now)
  {
    valid := [];
    for i := 0 to |attempts|
      invariant valid + Recent(attempts[i..], now) == Recent(attempts, now)
    {
      assert attempts[i..][1..] == attempts[i + 1..];
      if IsRecent(now, attempts[i]) {
        assert valid + ([attempts[i]] + Recent(attempts[i + 1..], now)) == (valid + [attempts[i]]) + Recent(attempts[i + 1..], now);
        valid := valid + [attempts[i]];
      }
    }
  }

  datatype Status = Status(remaining: nat, reset: Time)

  class Limiter {
    const limits: Limits
    var lastAttempts: map<string, seq<Time>>

    constructor (limits: Limits)
      ensures this.limits == limits && lastAttempts == map[]
    {
      this.limits := limits;
      lastAttempts := map[];
    }

    method GetRetryAfter(key: string, kind: Kind, now: Time) returns (outcome: Outcome)
      modifies this
      ensures outcome == Decision(Attempts(old(lastAttempts), key), Limit(limits, kind), now)
      ensures lastAttempts == Recorded(old(lastAttempts), key, Limit(limits, kind), now)
    {
      var attempts := if key in lastAttempts then lastAttempts[key] else [];
      var validAttempts := Filter(attempts, now);
      var limit := if kind == TextRequest then limits.text else limits.image;
      if |validAttempts| >= limit {
        if validAttempts == [] {
          return NotANumber;
        }
        outcome := RetryAfter(validAttempts[0] - now + ONE_MINUTE_MS);
      } else {
        lastAttempts := lastAttempts[key := validAttempts + [now]];
        outcome := Admitted;
      }
    }

    /** The announced status agrees with the decision taken next. */
    method GetStatus(key: string, kind: Kind, now: Time) returns (status: Status)
      ensures var decision := Decision(Attempts(lastAttempts, key), Limit(limits, kind), now);
              && (status.remaining > 0 <==> decision == Admitted)
              && (decision.RetryAfter? ==> status.reset == now + decision.ms)
    {
      var attempts := if key in lastAttempts then lastAttempts[key] else [];
      var validAttempts := Filter(attempts, now);
      var limit := if kind == TextRequest then limits.text else limits.image;
      var remaining := if limit > |validAttempts| then limit - |validAttempts| else 0;
      status := Status(remaining, if |validAttempts| > 0 then validAttempts[0] + ONE_MINUTE_MS else now);
    }

    method ClearOldAttempts(now: Time)
      modifies this
      ensures lastAttempts == Pruned(old(lastAttempts), now)
    {
      ghost var before := lastAttempts;
      var keys := lastAttempts.Keys;
      while keys != {}
        invariant keys <= before.Keys && lastAttempts == PartlyPruned(before, keys, now)
        decreases keys
      {
        var key :| key in keys;
        PruneOneMore(before, keys, key, now);
        keys := keys - {key};
        var validAttempts := Filter(lastAttempts[key], now);
        if |validAttempts| == 0 {
          lastAttempts := lastAttempts - {key};
        } else {
          lastAttempts := lastAttempts[key := validAttempts];
        }
      }
    }

    method RefundLastAttempt(key: string)
      modifies this
      ensures lastAttempts == Refunded(old(lastAttempts), key)
    {
      if key in lastAttempts && |lastAttempts[key]| > 0 {
        var attempts := lastAttempts[key];
        lastAttempts := lastAttempts[key := attempts[..|attempts| - 1]];
      }
    }

    /** The middleware. A wait that is not a number is not greater than zero, so the request passes. */
    method IpLimiter(key: string, kind: Kind, special: bool, now: Time) returns (passes: bool, waitSec: nat)
      modifies this
      ensures passes == Passes(limits, special, Attempts(old(lastAttempts), key), kind, now)
      ensures lastAttempts == (if Skipped(limits, special) then old(lastAttempts)
                               else Recorded(old(lastAttempts), key, Limit(limits, kind), now))
      ensures !passes ==> var ms := Decision(Attempts(old(lastAttempts), key), Limit(limits, kind), now).ms;
                          (waitSec - 1) * 1000 < ms <= waitSec * 1000
    {
      if limits.text == 0 && limits.image == 0 {
        return true, 0;
      }
      if special {
        return true, 0;
      }
      var outcome := GetRetryAfter(key, kind, now);
      if outcome.RetryAfter? && outcome.ms > 0 {
        passes, waitSec := false, (outcome.ms + 999) / 1000;
      } else {
        passes, waitSec := true, 0;
      }
    }
  }

  predicate Skipped(limits: Limits, special: bool) {
    (limits.text == 0 && limits.image == 0) || special
  }

  predicate Passes(limits: Limits, special: bool, attempts: seq<Time>, kind: Kind, now: Time) {
    Skipped(limits, special) || !Decision(attempts, Limit(limits, kind), now).RetryAfter?
  }
}
