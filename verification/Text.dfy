/** String operations of the prompt converters: searching and trimming, as JavaScript does them. */
module Text {
  predicate OccursAt(text: string, part: string, i: int) {
    0 <= i <= |text| - |part| && text[i..i + |part|] == part
  }

  predicate Contains(text: string, part: string) {
    IndexOf(text, part) != -1
  }

  lemma {:induction false} OccurrenceShifts(text: string, part: string, j: int)
    requires text != "" && j >= 1
    ensures OccursAt(text, part, j) <==> OccursAt(text[1..], part, j - 1)
  {
    if j <= |text| - |part| {
      assert text[1..][j - 1..j - 1 + |part|] == text[j..j + |part|];
    }
  }

  lemma {:induction false} OccurrencesShift(text: string, part: string)
    requires text != ""
    ensures forall j :: j >= 1 ==> (OccursAt(text, part, j) <==> OccursAt(text[1..], part, j - 1))
    ensures OccursAt(text, part, 0) <==> part <= text
  {
    forall j | j >= 1 ensures OccursAt(text, part, j) <==> OccursAt(text[1..], part, j - 1) {
      OccurrenceShifts(text, part, j);
    }
  }

  /** The first position of `part`, or -1. */
  function IndexOf(text: string, part: string): (i: int)
    ensures i == -1 || OccursAt(text, part, i)
    ensures forall j :: OccursAt(text, part, j) ==> 0 <= i <= j
  {
    if part <= text then 0
    else if text == "" then -1
    else
      OccurrencesShift(text, part);
      var i := IndexOf(text[1..], part);
      if i == -1 then -1 else assert OccursAt(text, part, i + 1); i + 1
  }

  predicate IsSpace(c: char) {
    c in {' ', '\t', '\n', '\r', '\U{000B}', '\U{000C}', '\U{00A0}', '\U{1680}', '\U{2028}', '\U{2029}', '\U{202F}',
          '\U{205F}', '\U{3000}', '\U{FEFF}'}
    || '\U{2000}' <= c <= '\U{200A}'
  }

  /** `t` is a suffix of `s` that does not begin with space. */
  function TrimStart(s: string): (t: string)
    ensures |t| <= |s| && t == s[|s| - |t|..]
    ensures t != "" ==> !IsSpace(t[0])
    ensures s == "" || !IsSpace(s[0]) ==> t == s
  {
    if s != "" && IsSpace(s[0]) then TrimStart(s[1..]) else s
  }

  /** `t` is a prefix of `s` that does not end with space. */
  function TrimEnd(s: string): (t: string)
    ensures t <= s
    ensures t != "" ==> !IsSpace(t[|t| - 1])
    ensures s == "" || !IsSpace(s[|s| - 1]) ==> t == s
  {
    if s != "" && IsSpace(s[|s| - 1]) then TrimEnd(s[..|s| - 1]) else s
  }

  function Trim(s: string): string {
    TrimEnd(TrimStart(s))
  }

  ghost predicate AllSpace(s: string) {
    forall c :: c in s ==> IsSpace(c)
  }

  /** `t` is `s` without the space at its end. */
  ghost predicate EndTrimmed(s: string, t: string) {
    t <= s && AllSpace(s[|t|..]) && (t != "" ==> !IsSpace(t[|t| - 1]))
  }

  /** `t` is `s` without the space at its beginning. */
  ghost predicate StartTrimmed(s: string, t: string) {
    |t| <= |s| && s[|s| - |t|..] == t && AllSpace(s[..|s| - |t|]) && (t != "" ==> !IsSpace(t[0]))
  }

  /** `t` is `s` without the space at either end. */
  ghost predicate Trimmed(s: string, t: string) {
    exists n :: 0 <= n <= |s| && AllSpace(s[..n]) && EndTrimmed(s[n..], t) && (t != "" ==> !IsSpace(t[0]))
  }

  lemma {:induction false} TrimEndCutsOnlySpace(s: string)
    ensures EndTrimmed(s, TrimEnd(s))
  {
    if s != "" && IsSpace(s[|s| - 1]) {
      var front := s[..|s| - 1];
      TrimEndCutsOnlySpace(front);
      assert s[|TrimEnd(s)|..] == front[|TrimEnd(s)|..] + [s[|s| - 1]];
    }
  }

  lemma {:induction false} TrimStartCutsOnlySpace(s: string)
    ensures StartTrimmed(s, TrimStart(s))
  {
    if s != "" && IsSpace(s[0]) {
      TrimStartCutsOnlySpace(s[1..]);
      assert s[..|s| - |TrimStart(s)|] == [s[0]] + s[1..][..|s[1..]| - |TrimStart(s)|];
    }
  }

  lemma {:induction false} TrimmedFrom(s: string, n: nat, rest: string, t: string)
    requires n <= |s| && AllSpace(s[..n]) && rest == s[n..] && EndTrimmed(rest, t) && (rest != "" ==> !IsSpace(rest[0]))
    ensures Trimmed(s, t)
  {
  }

  /** Trimming cuts off all the space at both ends, and nothing else. */
  lemma {:induction false} TrimCutsOnlySpace(s: string)
    ensures Trimmed(s, Trim(s))
  {
    var rest := TrimStart(s);
    TrimStartCutsOnlySpace(s);
    TrimEndCutsOnlySpace(rest);
    TrimmedFrom(s, |s| - |rest|, rest, TrimEnd(rest));
  }

  /** The space characters of ECMAScript, by code point. */
  lemma {:induction false} SpaceByCodePoint(c: char, n: int)
    requires n == c as int
    ensures IsSpace(c) <==>
              || 9 <= n <= 13 || n == 32 || n == 160 || n == 5760 || 8192 <= n <= 8202 || n == 8232 || n == 8233
              || n == 8239 || n == 8287 || n == 12288 || n == 65279
  {
  }

  lemma {:induction false} OccurrenceAt(text: string, part: string, i: int, k: nat)
    requires OccursAt(text, part, i) && k < |part|
    ensures text[i + k] == part[k]
  {
    assert text[i..i + |part|][k] == text[i + k];
  }

  lemma {:induction false} OccurrenceStartsSuffix(text: string, part: string, i: int)
    requires OccursAt(text, part, i)
    ensures part <= text[i..]
  {
    assert text[i..][..|part|] == text[i..i + |part|];
  }

  lemma {:induction false} OccurrenceOutsidePiece(text: string, from: nat, to: nat, part: string, k: int)
    requires from <= to <= |text| && OccursAt(text[from..to], part, k)
    ensures OccursAt(text, part, from + k)
  {
    forall x | 0 <= x < |part| ensures text[from + k..from + k + |part|][x] == part[x] {
      OccurrenceAt(text[from..to], part, k, x);
    }
  }

  lemma {:induction false} OccurrenceInsidePiece(text: string, from: nat, to: nat, part: string, j: int)
    requires from <= j && j + |part| <= to <= |text| && OccursAt(text, part, j)
    ensures OccursAt(text[from..to], part, j - from)
  {
    forall x | 0 <= x < |part| ensures text[from..to][j - from..j - from + |part|][x] == part[x] {
      OccurrenceAt(text, part, j, x);
    }
  }

  lemma {:induction false} OccurrenceInSuffix(text: string, from: nat, part: string, j: int)
    requires from <= j && OccursAt(text, part, j)
    ensures OccursAt(text[from..], part, j - from)
  {
    SuffixIsPiece(text, from);
    OccurrenceInsidePiece(text, from, |text|, part, j);
  }

  lemma {:induction false} SuffixIsPiece(text: string, from: nat)
    requires from <= |text|
    ensures text[from..] == text[from..|text|]
  {
  }

  lemma {:induction false} OccursInItself(part: string)
    ensures OccursAt(part, part, 0)
  {
    assert part[0..0 + |part|] == part;
  }

  lemma {:induction false} OccurrenceAfter(before: string, text: string, part: string, i: int)
    requires OccursAt(text, part, i)
    ensures OccursAt(before + text, part, |before| + i)
  {
    assert (before + text)[|before|..|before + text|] == text;
    OccurrenceOutsidePiece(before + text, |before|, |before + text|, part, i);
  }

  /** Whatever is contained in a piece of a text is contained in the text. */
  lemma {:induction false} PieceContainsLess(text: string, from: nat, to: nat, part: string)
    requires from <= to <= |text|
    ensures !Contains(text, part) ==> !Contains(text[from..to], part)
    ensures to <= IndexOf(text, part) && part != "" ==> !Contains(text[from..to], part)
  {
    var i := IndexOf(text[from..to], part);
    if i != -1 {
      OccurrenceOutsidePiece(text, from, to, part, i);
    }
  }

  lemma {:induction false} TrimStartContainsLess(text: string, part: string)
    requires !Contains(text, part)
    ensures !Contains(TrimStart(text), part)
  {
    var from := |text| - |TrimStart(text)|;
    SuffixIsPiece(text, from);
    PieceContainsLess(text, from, |text|, part);
  }
}
