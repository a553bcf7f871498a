/**
 * From the text of OpenAI chat messages to the blocks and the system prompt of the Claude chat: which part is said
 * where, by whom, and in which words.
 */
module ClaudeContent {
  import opened Options
  import opened Text
  import opened OpenAIChat
  import SystemLines
  import opened ClaudeChat

  // ----- What a message says -----

  ghost function PartsOf(content: Content): seq<ContentPart> {
    match content
    case PlainText(text) => [TextPart(text)]
    case Parts(parts) => parts
  }

  /** The name that goes in front of the message; none for the empty one. */
  ghost predicate SpeaksAs(m: OpenAIMessage, name: string) {
    if m.role == OaSystem || m.role == OaDeveloper then name == "System"
    else if m.name.None? then name == ""
    else Trimmed(m.name.value, name)
  }

  ghost predicate IsFirstText(parts: seq<ContentPart>, j: int) {
    0 <= j < |parts| && parts[j].TextPart? && forall i :: 0 <= i < j ==> parts[i].ImagePart?
  }

  /** `piece` is what stands between the first and the second `c`, if there is a first one. */
  ghost predicate IsSecondPiece(s: string, c: char, piece: Option<string>) {
    if c !in s then piece == None
    else piece.Some? && exists i :: IsPieceAfter(s, c, i, piece.value)
  }

  /** The first `c` stands at `i`, and `piece` follows it. */
  ghost predicate IsPieceAfter(s: string, c: char, i: int, piece: string) {
    0 <= i < |s| && s[i] == c && c !in s[..i] && IsUpTo(s[i + 1..], c, piece)
  }

  /** `piece` is what stands before the first `c`, or everything. */
  ghost predicate IsUpTo(s: string, c: char, piece: string) {
    piece <= s && c !in piece && (piece == s || s[|piece|] == c)
  }

  /** The media type stands between the first colon and the first semicolon, the data after the first comma. */
  ghost predicate IsImage(url: string, b: Block) {
    && b.ImageBlock?
    && (exists head :: IsUpTo(url, ';', head) && IsSecondPiece(head, ':', b.mediaType))
    && IsSecondPiece(url, ',', b.data)
  }

  /** The words of a text, without the space at their end; the first of a message has its speaker in front. */
  ghost predicate IsText(m: OpenAIMessage, text: string, isFirst: bool, b: Block) {
    b.TextBlock? && exists name, words :: Reads(m, text, isFirst, name, words, b.text)
  }

  ghost predicate Reads(m: OpenAIMessage, text: string, isFirst: bool, name: string, words: string, reading: string) {
    SpeaksAs(m, name) && EndTrimmed(text, words) && reading == if isFirst && name != "" then name + ": " + words else words
  }

  /** `b` is what part `j` of the message becomes. */
  ghost predicate Shows(m: OpenAIMessage, j: nat, b: Block)
    requires j < |PartsOf(m.content)|
  {
    match PartsOf(m.content)[j]
    case TextPart(text) => IsText(m, text, IsFirstText(PartsOf(m.content), j), b)
    case ImagePart(url) => IsImage(url, b)
  }

  lemma {:induction false} FirstPieceIs(s: string, c: char)
    ensures IsUpTo(s, c, FirstPiece(s, c))
  {
    if s == "" || s[0] == c {
    } else {
      FirstPieceIs(s[1..], c);
      assert s == [s[0]] + s[1..];
    }
  }

  lemma {:induction false} PieceAfterOneMore(s: string, c: char, i: int, piece: string)
    requires s != "" && s[0] != c && IsPieceAfter(s[1..], c, i, piece)
    ensures IsPieceAfter(s, c, i + 1, piece)
  {
    assert s[..i + 1] == [s[0]] + s[1..][..i];
    assert s[i + 2..] == s[1..][i + 1..];
  }

  lemma {:induction false} SecondPieceIs(s: string, c: char)
    ensures IsSecondPiece(s, c, SecondPiece(s, c))
  {
    if s == "" {
    } else if s[0] == c {
      FirstPieceIs(s[1..], c);
      assert IsPieceAfter(s, c, 0, FirstPiece(s[1..], c));
    } else {
      SecondPieceIs(s[1..], c);
      assert s == [s[0]] + s[1..];
      if c in s {
        var i :| IsPieceAfter(s[1..], c, i, SecondPiece(s, c).value);
        PieceAfterOneMore(s, c, i, SecondPiece(s, c).value);
      }
    }
  }

  lemma {:induction false} SpeaksAsItsDisplayName(m: OpenAIMessage)
    ensures SpeaksAs(m, DisplayName(m))
  {
    if m.name.Some? {
      TrimCutsOnlySpace(m.name.value);
    }
  }

  lemma {:induction false} ConvertedPart(content: Content, j: nat)
    requires j < |PartsOf(content)|
    ensures |ConvertContent(content)| == |PartsOf(content)|
    ensures var part, b := PartsOf(content)[j], ConvertContent(content)[j];
            if part.TextPart? then b.TextBlock? && EndTrimmed(part.text, b.text) else IsImage(part.url, b)
  {
    var part := PartsOf(content)[j];
    if part.TextPart? {
      TrimEndCutsOnlySpace(part.text);
    } else {
      var head := FirstPiece(part.url, ';');
      FirstPieceIs(part.url, ';');
      SecondPieceIs(head, ':');
      SecondPieceIs(part.url, ',');
    }
  }

  lemma {:induction false} FirstTextIsConverted(content: Content, j: nat)
    requires j < |PartsOf(content)|
    ensures FirstText(ConvertContent(content)) == j <==> IsFirstText(PartsOf(content), j)
  {
    var blocks, parts := ConvertContent(content), PartsOf(content);
    forall i | 0 <= i < |parts| ensures |blocks| == |parts| && (blocks[i].TextBlock? <==> parts[i].TextPart?) {
      ConvertedPart(content, i);
    }
  }

  lemma {:induction false} NamedShowsText(m: OpenAIMessage, text: string, isFirst: bool, words: string, b: Block)
    requires EndTrimmed(text, words) && b.TextBlock?
    requires b.text == if isFirst && DisplayName(m) != "" then DisplayName(m) + ": " + words else words
    ensures IsText(m, text, isFirst, b)
  {
    SpeaksAsItsDisplayName(m);
    assert Reads(m, text, isFirst, DisplayName(m), words, b.text);
  }

  lemma {:induction false} NamedAt(name: string, blocks: seq<Block>, j: nat)
    requires j < |blocks|
    ensures !blocks[j].TextBlock? ==> Named(name, blocks)[j] == blocks[j]
    ensures blocks[j].TextBlock? ==>
              Named(name, blocks)[j] ==
                TextBlock(if j == FirstText(blocks) && name != "" then name + ": " + blocks[j].text else blocks[j].text)
  {
  }

  /** Every part of a message becomes one block, which shows it. */
  lemma {:induction false} BlocksShowTheParts(m: OpenAIMessage, j: nat)
    requires j < |PartsOf(m.content)|
    ensures |BlocksOf(m)| == |PartsOf(m.content)| && Shows(m, j, BlocksOf(m)[j])
  {
    ConvertedPart(m.content, j);
    FirstTextIsConverted(m.content, j);
    var blocks, part := ConvertContent(m.content), PartsOf(m.content)[j];
    NamedAt(DisplayName(m), blocks, j);
    if part.TextPart? {
      NamedShowsText(m, part.text, IsFirstText(PartsOf(m.content), j), blocks[j].text, BlocksOf(m)[j]);
    }
  }

  // ----- Where it is said -----

  /** The number of parts in the first `i` messages. */
  ghost function PartsBefore(ms: seq<OpenAIMessage>, i: nat): nat
    requires i <= |ms|
  {
    if i == 0 then 0 else |PartsOf(ms[0].content)| + PartsBefore(ms[1..], i - 1)
  }

  /** The number of blocks in the first `m` messages. */
  ghost function BlocksBefore(out: seq<ClaudeMessage>, m: nat): nat
    requires m <= |out|
  {
    if m == 0 then 0 else BlocksBefore(out, m - 1) + |out[m - 1].content|
  }

  lemma {:induction false} BlockCount(m: OpenAIMessage)
    ensures |BlocksOf(m)| == |PartsOf(m.content)|
  {
    if PartsOf(m.content) != [] {
      BlocksShowTheParts(m, 0);
    }
  }

  lemma {:induction false} SaidByCount(ms: seq<OpenAIMessage>)
    ensures |SaidBy(ms)| == PartsBefore(ms, |ms|)
  {
    if ms == [] {
    } else {
      BlockCount(ms[0]);
      SaidByCount(ms[1..]);
    }
  }

  lemma {:induction false} AtAfter<T>(s: seq<T>, a: seq<T>, b: seq<T>, i: nat)
    requires s == a + b && i < |b|
    ensures |a| + i < |s| && s[|a| + i] == b[i]
  {
  }

  lemma {:induction false} SaidByOfOneMore(first: OpenAIMessage, rest: seq<OpenAIMessage>) returns (tagged: seq<(Role, Block)>)
    ensures |tagged| == |PartsOf(first.content)| == |BlocksOf(first)|
    ensures forall j :: 0 <= j < |tagged| ==> tagged[j] == (ClaudeRole(first.role), BlocksOf(first)[j])
    ensures SaidBy([first] + rest) == tagged + SaidBy(rest)
  {
    tagged := Tagged(ClaudeRole(first.role), BlocksOf(first));
    BlockCount(first);
    assert ([first] + rest)[1..] == rest;
  }

  lemma {:induction false} PartsBeforeOneMore(first: OpenAIMessage, rest: seq<OpenAIMessage>, i: nat)
    requires i <= |rest|
    ensures PartsBefore([first] + rest, i + 1) == |PartsOf(first.content)| + PartsBefore(rest, i)
  {
    assert ([first] + rest)[1..] == rest;
  }

  /** `x` is what `ms` say `j` parts after those of the first `i` messages. */
  ghost predicate IsSaidBy(ms: seq<OpenAIMessage>, i: nat, j: nat, x: (Role, Block)) {
    i <= |ms| && PartsBefore(ms, i) + j < |SaidBy(ms)| && SaidBy(ms)[PartsBefore(ms, i) + j] == x
  }

  lemma {:induction false} StillSaidBy(ms: seq<OpenAIMessage>, i: nat, j: nat, x: (Role, Block), said: seq<(Role, Block)>, place: nat)
    requires i <= |ms| && said == SaidBy(ms) && place == PartsBefore(ms, i) + j && place < |said| && said[place] == x
    ensures IsSaidBy(ms, i, j, x)
  {
  }

  lemma {:induction false} OneMoreSays(first: OpenAIMessage, rest: seq<OpenAIMessage>, i: nat, j: nat, x: (Role, Block))
    requires IsSaidBy(rest, i, j, x)
    ensures IsSaidBy([first] + rest, i + 1, j, x)
  {
    var tagged := SaidByOfOneMore(first, rest);
    PartsBeforeOneMore(first, rest, i);
    var place := PartsBefore(rest, i) + j;
    AtAfter(tagged + SaidBy(rest), tagged, SaidBy(rest), place);
    StillSaidBy([first] + rest, i + 1, j, x, tagged + SaidBy(rest), |tagged| + place);
  }

  lemma {:induction false} FirstIsSaidBy(first: OpenAIMessage, rest: seq<OpenAIMessage>, j: nat)
    requires j < |PartsOf(first.content)|
    ensures |BlocksOf(first)| == |PartsOf(first.content)|
    ensures IsSaidBy([first] + rest, 0, j, (ClaudeRole(first.role), BlocksOf(first)[j]))
  {
    var tagged := SaidByOfOneMore(first, rest);
  }

  lemma {:induction false} SaidByAt(ms: seq<OpenAIMessage>, i: nat, j: nat)
    requires i < |ms| && j < |PartsOf(ms[i].content)|
    ensures |BlocksOf(ms[i])| == |PartsOf(ms[i].content)|
    ensures IsSaidBy(ms, i, j, (ClaudeRole(ms[i].role), BlocksOf(ms[i])[j]))
  {
    assert ms == [ms[0]] + ms[1..];
    if i == 0 {
      FirstIsSaidBy(ms[0], ms[1..], j);
    } else {
      SaidByAt(ms[1..], i - 1, j);
      OneMoreSays(ms[0], ms[1..], i - 1, j, (ClaudeRole(ms[i].role), BlocksOf(ms[i])[j]));
    }
  }

  lemma {:induction false} SaidCount(out: seq<ClaudeMessage>)
    ensures |Said(out)| == BlocksBefore(out, |out|)
  {
    if out == [] {
    } else {
      SaidCount(out[..|out| - 1]);
      BlocksBeforeInFront(out, |out| - 1, |out| - 1);
    }
  }

  lemma {:induction false} BlocksBeforeInFront(out: seq<ClaudeMessage>, n: nat, m: nat)
    requires m <= n <= |out|
    ensures BlocksBefore(out[..n], m) == BlocksBefore(out, m)
  {
    if m == 0 {
    } else {
      BlocksBeforeInFront(out, n, m - 1);
    }
  }

  lemma {:induction false} SaidWhere(out: seq<ClaudeMessage>, p: nat) returns (m: nat, k: nat)
    requires p < |Said(out)|
    ensures m < |out| && k < |out[m].content| && BlocksBefore(out, m) + k == p
    ensures Said(out)[p] == (out[m].role, out[m].content[k])
  {
    var n := |out| - 1;
    SaidCount(out[..n]);
    BlocksBeforeInFront(out, n, n);
    if p < |Said(out[..n])| {
      m, k := SaidWhere(out[..n], p);
      BlocksBeforeInFront(out, n, m);
    } else {
      m, k := n, p - |Said(out[..n])|;
    }
  }

  /** The first `n` messages, and no more, are neither the user's nor the assistant's. */
  ghost predicate LeadingRun(ms: seq<OpenAIMessage>, n: nat) {
    && n <= |ms|
    && (n < |ms| ==> ms[n].role == OaUser || ms[n].role == OaAssistant)
    && forall i :: 0 <= i < n ==> ms[i].role != OaUser && ms[i].role != OaAssistant
  }

  lemma {:induction false} LeadingRunIs(ms: seq<OpenAIMessage>, n: nat)
    requires LeadingRun(ms, n)
    ensures Leading(ms) == n
  {
    LeadingIs(ms, n);
  }

  /** How many blocks stand before the first message after the leading run: the line that an assistant answers to. */
  ghost function OpeningBlocks(ms: seq<OpenAIMessage>, n: nat): nat
    requires n <= |ms|
  {
    if n < |ms| && ms[n].role == OaAssistant then 1 else 0
  }

  lemma {:induction false} SaidAfterTheOpening(ms: seq<OpenAIMessage>, n: nat)
    requires LeadingRun(ms, n)
    ensures |Said(OpeningLines(ms))| == OpeningBlocks(ms, n)
    ensures Said(Converted(ms).messages) == Said(OpeningLines(ms)) + SaidBy(ms[n..])
  {
    LeadingRunIs(ms, n);
    ConvertedAlternatesAndKeepsEverything(ms);
    SaidCount(OpeningLines(ms));
    if n < |ms| && ms[n].role == OaAssistant {
      assert |OpeningLines(ms)| == 1 && |OpeningLines(ms)[0].content| == 1;
      assert BlocksBefore(OpeningLines(ms), 1) == BlocksBefore(OpeningLines(ms), 0) + 1;
    }
  }

  /** Block `k` of message `m` shows part `j` of `source`, on the right side, and stands at `place` counting all blocks. */
  ghost predicate IsSaidAt(out: seq<ClaudeMessage>, m: nat, k: nat, place: nat, source: OpenAIMessage, j: nat) {
    && m < |out| && k < |out[m].content| && BlocksBefore(out, m) + k == place
    && (out[m].role == User <==> source.role == OaUser)
    && j < |PartsOf(source.content)| && Shows(source, j, out[m].content[k])
  }

  lemma {:induction false} SaidAfter(
    out: seq<ClaudeMessage>, opening: seq<(Role, Block)>, after: seq<(Role, Block)>, place: nat) returns (m: nat, k: nat)
    requires Said(out) == opening + after && place < |after|
    ensures m < |out| && k < |out[m].content| && BlocksBefore(out, m) + k == |opening| + place
    ensures (out[m].role, out[m].content[k]) == after[place]
  {
    AtAfter(Said(out), opening, after, place);
    m, k := SaidWhere(out, |opening| + place);
  }

  lemma {:induction false} SaidBlockShows(out: seq<ClaudeMessage>, m: nat, k: nat, place: nat, source: OpenAIMessage, j: nat)
    requires m < |out| && k < |out[m].content| && BlocksBefore(out, m) + k == place && j < |PartsOf(source.content)|
    requires |BlocksOf(source)| == |PartsOf(source.content)|
    requires (out[m].role, out[m].content[k]) == (ClaudeRole(source.role), BlocksOf(source)[j])
    ensures IsSaidAt(out, m, k, place, source, j)
  {
    BlocksShowTheParts(source, j);
  }

  lemma {:induction false} PartIsSaidAfter(
    out: seq<ClaudeMessage>, opening: seq<(Role, Block)>, after: seq<OpenAIMessage>, source: OpenAIMessage, i: nat, j: nat, place: nat)
    returns (m: nat, k: nat)
    requires Said(out) == opening + SaidBy(after) && i < |after| && source == after[i] && j < |PartsOf(source.content)|
    requires place == PartsBefore(after, i) + j
    ensures IsSaidAt(out, m, k, |opening| + place, source, j)
  {
    SaidByAt(after, i, j);
    m, k := SaidAfter(out, opening, SaidBy(after), place);
    SaidBlockShows(out, m, k, |opening| + place, source, j);
  }

  /**
   * Every part of every message after the leading run is said: by the user if it is the user's and by the assistant
   * otherwise, in its own words, and in its own place, counting blocks from the beginning.
   */
  lemma {:induction false} EveryPartIsSaid(
    ms: seq<OpenAIMessage>, n: nat, after: seq<OpenAIMessage>, out: seq<ClaudeMessage>, i: nat, j: nat) returns (m: nat, k: nat)
    requires LeadingRun(ms, n) && after == ms[n..] && out == Converted(ms).messages
    requires i < |after| && j < |PartsOf(after[i].content)|
    ensures IsSaidAt(out, m, k, OpeningBlocks(ms, n) + (PartsBefore(after, i) + j), after[i], j)
  {
    SaidAfterTheOpening(ms, n);
    m, k := PartIsSaidAfter(out, Said(OpeningLines(ms)), after, after[i], i, j, PartsBefore(after, i) + j);
  }

  lemma {:induction false} CountOfSum(out: seq<ClaudeMessage>, opening: seq<(Role, Block)>, ms: seq<OpenAIMessage>)
    requires Said(out) == opening + SaidBy(ms)
    ensures BlocksBefore(out, |out|) == |opening| + PartsBefore(ms, |ms|)
  {
    SaidCount(out);
    SaidByCount(ms);
  }

  /** Nothing else is said. */
  lemma {:induction false} NothingElseIsSaid(ms: seq<OpenAIMessage>, n: nat, after: seq<OpenAIMessage>, out: seq<ClaudeMessage>)
    requires LeadingRun(ms, n) && after == ms[n..] && out == Converted(ms).messages
    ensures BlocksBefore(out, |out|) == OpeningBlocks(ms, n) + PartsBefore(after, |after|)
  {
    SaidAfterTheOpening(ms, n);
    CountOfSum(out, Said(OpeningLines(ms)), after);
  }

  // ----- The system prompt -----

  /** The first text of a message, or what is said in its place. */
  ghost predicate FirstTextIs(content: Content, text: string) {
    FirstOf(PartsOf(content), text)
  }

  ghost predicate FirstOf(parts: seq<ContentPart>, text: string) {
    if forall j :: 0 <= j < |parts| ==> parts[j].ImagePart? then text == "[ No text content in this message ]"
    else exists j :: IsFirstText(parts, j) && parts[j].text == text
  }

  /** Each text followed by a line break. */
  ghost function Lines(texts: seq<string>): string {
    if texts == [] then "" else texts[0] + "\n" + Lines(texts[1..])
  }

  /** The texts are the first ones of the leading messages. */
  ghost predicate LeadingTexts(ms: seq<OpenAIMessage>, texts: seq<string>) {
    |texts| <= |ms| && LeadingRun(ms, |texts|) && forall i :: 0 <= i < |texts| ==> FirstTextIs(ms[i].content, texts[i])
  }

  lemma {:induction false} FirstOfTheRest(parts: seq<ContentPart>, text: string)
    requires parts != [] && parts[0].ImagePart? && FirstOf(parts[1..], text)
    ensures FirstOf(parts, text)
  {
    var rest := parts[1..];
    assert parts == [parts[0]] + rest;
    if j :| 0 <= j < |rest| && !rest[j].ImagePart? {
      var i :| IsFirstText(rest, i) && rest[i].text == text;
      assert IsFirstText(parts, i + 1);
    }
  }

  lemma {:induction false} FirstTextPartIs(parts: seq<ContentPart>)
    ensures FirstOf(parts, FirstTextPart(parts))
  {
    if parts == [] {
    } else if parts[0].TextPart? {
      assert IsFirstText(parts, 0) && parts[0].text == FirstTextPart(parts);
    } else {
      FirstTextPartIs(parts[1..]);
      FirstOfTheRest(parts, FirstTextPart(parts));
    }
  }

  lemma {:induction false} FirstTextIsFound(content: Content, text: string)
    requires FirstTextIs(content, text)
    ensures FirstTextContent(content) == text
  {
    if content.PlainText? {
      assert IsFirstText(PartsOf(content), 0);
    } else {
      FirstTextPartIs(content.parts);
    }
  }

  lemma {:induction false} LinesOfOneMore(texts: seq<string>, text: string)
    ensures Lines(texts + [text]) == Lines(texts) + (text + "\n")
  {
    if texts == [] {
      assert [text][1..] == [];
      assert texts + [text] == [text];
    } else {
      LinesOfOneMore(texts[1..], text);
      assert (texts + [text])[1..] == texts[1..] + [text];
    }
  }

  lemma {:induction false} SystemTextIsLines(ms: seq<OpenAIMessage>, texts: seq<string>)
    requires |texts| == |ms| && forall i :: 0 <= i < |ms| ==> FirstTextIs(ms[i].content, texts[i])
    ensures SystemText(ms) == Lines(texts)
  {
    if ms == [] {
    } else {
      var n := |ms| - 1;
      SystemTextIsLines(ms[..n], texts[..n]);
      FirstTextIsFound(ms[n].content, texts[n]);
      LinesOfOneMore(texts[..n], texts[n]);
      assert texts == texts[..n] + [texts[n]];
    }
  }

  /**
   * Unless an assistant speaks first, the system prompt is the first texts of the leading messages, each followed by
   * a line break, without the space at the end.
   */
  lemma {:induction false} SystemPromptIsTheFirstTexts(ms: seq<OpenAIMessage>, texts: seq<string>)
    requires LeadingTexts(ms, texts) && (|texts| == |ms| || ms[|texts|].role == OaUser)
    ensures EndTrimmed(Lines(texts), Converted(ms).system)
  {
    LeadingRunIs(ms, |texts|);
    SystemTextIsLines(ms[..|texts|], texts);
    TrimEndCutsOnlySpace(Lines(texts));
  }

  /** `out` begins as `before` does, with more in its first message at most. */
  ghost predicate BeginsAs(before: seq<ClaudeMessage>, out: seq<ClaudeMessage>) {
    before != [] && out != [] && out[0].role == before[0].role && before[0].content <= out[0].content
  }

  lemma {:induction false} AppendedBeginsAs(out: seq<ClaudeMessage>, role: Role, blocks: seq<Block>)
    requires out != []
    ensures BeginsAs(out, Appended(out, role, blocks))
  {
  }

  lemma {:induction false} MergedBeginsAs(before: seq<ClaudeMessage>, out: seq<ClaudeMessage>, ms: seq<OpenAIMessage>)
    requires BeginsAs(before, out)
    ensures BeginsAs(before, Merged(out, ms))
    decreases |ms|
  {
    if ms == [] {
    } else {
      var next := Appended(out, ClaudeRole(ms[0].role), BlocksOf(ms[0]));
      AppendedBeginsAs(out, ClaudeRole(ms[0].role), BlocksOf(ms[0]));
      MergedBeginsAs(before, next, ms[1..]);
    }
  }

  /** What stands in front of an answer: a line that is cut out of the system text, or a stock one. */
  ghost predicate OpensWith(system: string, line: string, kept: string) {
    if forall c :: c in system ==> c == '\r' || c == '\n' then line == "[ Joining chat... ]" && kept == system
    else
      && line != "" && (forall c :: c in line ==> c != '\r' && c != '\n')
      && (kept == "" || kept[|kept| - 1] in {'\r', '\n'}) && kept + line <= system
      && (kept + line == system || system[|kept + line|] in {'\r', '\n'})
  }

  ghost predicate IsOpening(opening: Conversion, system: string, line: string) {
    opening.messages == [ClaudeMessage(User, [TextBlock(line)])] && OpensWith(system, line, opening.system)
  }

  lemma {:induction false} CutOpens(system: string, start: nat, end: nat)
    requires start < end <= |system| && !SystemLines.IsBreak(system[start])
    requires forall k :: start <= k < end ==> !SystemLines.IsBreak(system[k])
    requires (start == 0 || SystemLines.IsBreak(system[start - 1])) && (end == |system| || SystemLines.IsBreak(system[end]))
    ensures OpensWith(system, system[start..end], system[..start])
  {
    assert system[start] in system;
    assert system[..start] + system[start..end] == system[..end];
  }

  lemma {:induction false} SplicedOpens(system: string) returns (line: string)
    ensures IsOpening(Spliced(system), system, line)
  {
    SystemLines.LastLineDropsOnlyBreaksExactlyWhen(system);
    var start := SystemLines.LastLine(system);
    if start.Some? {
      var end := SystemLines.RunEnd(system, start.value);
      line := system[start.value..end];
      CutOpens(system, start.value, end);
    } else {
      line := "[ Joining chat... ]";
    }
  }

  /**
   * If an assistant speaks first, the user opens with the last line of the leading texts, or with a stock line if
   * they have none, and the system prompt is what stands before that line, without the space at the end.
   */
  lemma {:induction false} AssistantAnswersTheLastLine(ms: seq<OpenAIMessage>, texts: seq<string>) returns (line: string, kept: string)
    requires LeadingTexts(ms, texts) && |texts| < |ms| && ms[|texts|].role == OaAssistant
    ensures OpensWith(Lines(texts), line, kept) && EndTrimmed(kept, Converted(ms).system)
    ensures var out := Converted(ms).messages; out != [] && out[0].role == User && [TextBlock(line)] <= out[0].content
  {
    LeadingRunIs(ms, |texts|);
    SystemTextIsLines(ms[..|texts|], texts);
    line := SplicedOpens(Lines(texts));
    var opening := Spliced(Lines(texts));
    kept := opening.system;
    TrimEndCutsOnlySpace(kept);
    MergedBeginsAs(opening.messages, opening.messages, ms[|texts|..]);
  }
}
