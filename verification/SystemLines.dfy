/**
 * The last non-empty line of a system prompt, as the regular expression
 * `(?:[^\r\n]*\r?\n)*([^\r\n]+)(?:\r?\n)*` finds it: from each start in turn, skip as
 * many complete lines as possible and back up to the last one that is not empty.
 */
module SystemLines {
  import opened Options

  predicate IsBreak(c: char) {
    c == '\r' || c == '\n'
  }

  ghost predicate AllBreaks(s: string, from: nat, to: nat)
    requires to <= |s|
  {
    forall k :: from <= k < to ==> IsBreak(s[k])
  }

  /** A carriage return that does not belong to a line ending. */
  predicate LoneReturn(s: string, i: int) {
    0 <= i < |s| && s[i] == '\r' && !(i + 1 < |s| && s[i + 1] == '\n')
  }

  /** The end of the run of ordinary characters that starts at `i`. */
  function RunEnd(s: string, i: nat): (e: nat)
    requires i <= |s|
    ensures i <= e <= |s| && (e < |s| ==> IsBreak(s[e]))
    ensures forall k :: i <= k < e ==> !IsBreak(s[k])
    decreases |s| - i
  {
    if i < |s| && !IsBreak(s[i]) then RunEnd(s, i + 1) else i
  }

  /** Where the line after the one starting at `i` begins, if that line is complete. */
  function NextLine(s: string, i: nat): (next: Option<nat>)
    requires i <= |s|
    ensures next.Some? ==> RunEnd(s, i) < next.value <= |s| && AllBreaks(s, RunEnd(s, i), next.value)
    ensures next.None? ==> RunEnd(s, i) == |s| || LoneReturn(s, RunEnd(s, i))
    ensures next.Some? ==> forall k :: i <= k < next.value ==> !LoneReturn(s, k)
  {
    var e := RunEnd(s, i);
    if e < |s| && s[e] == '\n' then Some(e + 1)
    else if e + 1 < |s| && s[e] == '\r' && s[e + 1] == '\n' then Some(e + 2)
    else None
  }

  /** The group matched when matching starts at `i`: complete lines are skipped greedily, then given back. */
  function MatchFrom(s: string, i: nat): (start: Option<nat>)
    requires i <= |s|
    ensures start.Some? ==> i <= start.value < |s| && !IsBreak(s[start.value])
    decreases |s| - i
  {
    var here := if i < |s| && !IsBreak(s[i]) then Some(i) else None;
    var next := NextLine(s, i);
    if next.None? then here
    else
      var later := MatchFrom(s, next.value);
      if later.Some? then later else here
  }

  /** `exec` tries every start from the left. */
  function Search(s: string, i: nat): (start: Option<nat>)
    requires i <= |s|
    ensures start.Some? ==> i <= start.value < |s| && !IsBreak(s[start.value])
    decreases |s| - i
  {
    var m := MatchFrom(s, i);
    if m.Some? || i == |s| then m else Search(s, i + 1)
  }

  function LastLine(s: string): (start: Option<nat>)
    ensures start.Some? ==> start.value < |s| && !IsBreak(s[start.value])
  {
    Search(s, 0)
  }

  /** Where the chain of lines from `i` stops: at a lone carriage return or at the end. */
  ghost function Stop(s: string, i: nat): (b: nat)
    requires i <= |s|
    ensures i <= b <= |s| && (b == |s| || LoneReturn(s, b))
    ensures forall k :: i <= k < b ==> !LoneReturn(s, k)
    decreases |s| - i
  {
    var next := NextLine(s, i);
    if next.None? then RunEnd(s, i) else Stop(s, next.value)
  }

  /** Only line breaks lie between the match and the stop; without a match, between the start and the stop. */
  lemma {:induction false} MatchReachesTheStop(s: string, i: nat)
    requires i <= |s|
    ensures MatchFrom(s, i).None? ==> AllBreaks(s, i, Stop(s, i))
    ensures MatchFrom(s, i).Some? ==> var k := MatchFrom(s, i).value;
              i <= k < RunEnd(s, k) <= Stop(s, i) && AllBreaks(s, RunEnd(s, k), Stop(s, i))
    ensures MatchFrom(s, i).Some? ==> var k := MatchFrom(s, i).value; k == i || IsBreak(s[k - 1])
    decreases |s| - i
  {
    var next := NextLine(s, i);
    if next.None? {
    } else {
      MatchReachesTheStop(s, next.value);
      assert Stop(s, i) == Stop(s, next.value);
    }
  }

  /** A carriage return that breaks no line, with text on both sides of it. */
  ghost predicate SplitsText(s: string, i: int) {
    LoneReturn(s, i) && !AllBreaks(s, 0, i) && !AllBreaks(s, i, |s|)
  }

  lemma {:induction false} RestIsBreaksExactlyWhenNothingSplits(s: string, i: nat, k: nat, b: nat)
    requires i <= k < b <= |s| && !IsBreak(s[k]) && AllBreaks(s, 0, i)
    requires b == |s| || LoneReturn(s, b)
    requires forall r :: i <= r < b ==> !LoneReturn(s, r)
    ensures AllBreaks(s, b, |s|) <==> forall r :: !SplitsText(s, r)
  {
    if AllBreaks(s, b, |s|) {
      forall r ensures !SplitsText(s, r) {
        if LoneReturn(s, r) {
          assert r < i || b <= r;
        }
      }
    } else {
      assert SplitsText(s, b);
    }
  }

  /** The match starts a run of ordinary characters; what is dropped after it is breaks exactly when nothing splits. */
  ghost predicate IsLastLine(s: string, k: nat) {
    && k < |s| && !IsBreak(s[k]) && (k == 0 || IsBreak(s[k - 1]))
    && (AllBreaks(s, RunEnd(s, k), |s|) <==> forall r :: !SplitsText(s, r))
  }

  lemma {:induction false} SearchFindsTheLastLine(s: string, i: nat)
    requires i <= |s| && AllBreaks(s, 0, i)
    ensures Search(s, i).None? <==> AllBreaks(s, 0, |s|)
    ensures Search(s, i).Some? ==> IsLastLine(s, Search(s, i).value)
    decreases |s| - i
  {
    MatchReachesTheStop(s, i);
    var m, b := MatchFrom(s, i), Stop(s, i);
    if m.Some? {
      RestIsBreaksExactlyWhenNothingSplits(s, i, m.value, b);
    } else if i < |s| {
      SearchFindsTheLastLine(s, i + 1);
    }
  }

  /**
   * The match is a maximal run of ordinary characters and is missing only when there is no such
   * run. What follows it, which is thrown away with it, is nothing but line breaks exactly when
   * no lone carriage return stands between two pieces of text.
   */
  lemma {:induction false} LastLineDropsOnlyBreaksExactlyWhen(s: string)
    ensures LastLine(s).None? <==> AllBreaks(s, 0, |s|)
    ensures LastLine(s).Some? ==> IsLastLine(s, LastLine(s).value)
  {
    SearchFindsTheLastLine(s, 0);
  }

  /** An old-style line ending loses the text after it. */
  lemma {:induction false} TextAfterLoneReturnIsLost()
    ensures LastLine("a\rb") == Some(0) && RunEnd("a\rb", 0) == 1
  {
    var s := "a\rb";
    assert RunEnd(s, 1) == 1;
    assert NextLine(s, 0).None?;
  }
}
