/**
 * OpenAI chat messages turned into a Claude chat: the leading system messages
 * become the system prompt, and neighbours from the same role are merged.
 */
module ClaudeChat {
  import opened Options
  import opened Text
  import opened OpenAIChat
  import SystemLines
  import opened Sequences

  datatype Role = User | Assistant

  datatype Block = TextBlock(text: string) | ImageBlock(mediaType: Option<string>, data: Option<string>)

  datatype ClaudeMessage = ClaudeMessage(role: Role, content: seq<Block>)

  datatype Conversion = Conversion(messages: seq<ClaudeMessage>, system: string)

  // ----- Content -----

  /** `split(c)[0]`. */
  function FirstPiece(s: string, c: char): string {
    if s == "" || s[0] == c then "" else [s[0]] + FirstPiece(s[1..], c)
  }

  /** `split(c)[1]`, which is undefined when `c` does not occur. */
  function SecondPiece(s: string, c: char): Option<string> {
    if s == "" then None
    else if s[0] == c then Some(FirstPiece(s[1..], c))
    else SecondPiece(s[1..], c)
  }

  function BlockFrom(part: ContentPart): Block {
    if part.TextPart? then TextBlock(TrimEnd(part.text))
    else ImageBlock(SecondPiece(FirstPiece(part.url, ';'), ':'), SecondPiece(part.url, ','))
  }

  function ConvertContent(content: Content): (blocks: seq<Block>) {
    if content.PlainText? then [TextBlock(TrimEnd(content.text))]
    else seq(|content.parts|, i requires 0 <= i < |content.parts| => BlockFrom(content.parts[i]))
  }

  lemma {:induction false} FirstPieceStopsAt(before: string, c: char, after: string)
    requires c !in before
    ensures FirstPiece(before + [c] + after, c) == before
    ensures SecondPiece(before + [c] + after, c) == Some(FirstPiece(after, c))
  {
    if before == "" {
      assert ([c] + after)[1..] == after;
      assert before + [c] + after == [c] + after;
    } else {
      FirstPieceStopsAt(before[1..], c, after);
      assert (before + [c] + after)[1..] == before[1..] + [c] + after;
    }
  }

  lemma {:induction false} WholePiece(s: string, c: char)
    requires c !in s
    ensures FirstPiece(s, c) == s
  {
    if s == "" {
    } else {
      WholePiece(s[1..], c);
    }
  }

  /** The media type and the data of a base64 data URL arrive intact. */
  lemma {:induction false} DataUrlIsTakenApart(mime: string, data: string)
    requires ';' !in mime && ':' !in mime && ',' !in mime && ',' !in data
    ensures BlockFrom(ImagePart("data:" + mime + ";base64," + data)) == ImageBlock(Some(mime), Some(data))
  {
    var url := "data:" + mime + ";base64," + data;
    assert url == ("data:" + mime) + [';'] + ("base64," + data);
    FirstPieceStopsAt("data:" + mime, ';', "base64," + data);
    assert "data:" + mime == "data" + [':'] + mime;
    FirstPieceStopsAt("data", ':', mime);
    WholePiece(mime, ':');
    assert url == ("data:" + mime + ";base64") + [','] + data;
    FirstPieceStopsAt("data:" + mime + ";base64", ',', data);
    WholePiece(data, ',');
  }

  function FirstText(blocks: seq<Block>): (i: int)
    ensures i == -1 || (0 <= i < |blocks| && blocks[i].TextBlock?)
    ensures forall j :: 0 <= j < |blocks| && blocks[j].TextBlock? ==> 0 <= i <= j
  {
    if blocks == [] then -1
    else if blocks[0].TextBlock? then 0
    else
      var i := FirstText(blocks[1..]);
      assert forall j :: 1 <= j < |blocks| ==> blocks[j] == blocks[1..][j - 1];
      if i == -1 then -1 else i + 1
  }

  /** The name goes in front of the first text; every other block stays as it is. */
  function Named(name: string, blocks: seq<Block>): (named: seq<Block>)
    ensures |named| == |blocks|
    ensures forall i :: 0 <= i < |blocks| && (i != FirstText(blocks) || name == "") ==> named[i] == blocks[i]
    ensures name != "" && FirstText(blocks) >= 0 ==> named[FirstText(blocks)] == TextBlock(name + ": " + blocks[FirstText(blocks)].text)
  {
    var i := FirstText(blocks);
    if name == "" || i == -1 then blocks else blocks[i := TextBlock(name + ": " + blocks[i].text)]
  }

  function DisplayName(m: OpenAIMessage): string {
    if m.role == OaSystem || m.role == OaDeveloper then "System" else TrimmedName(m)
  }

  function ClaudeRole(role: OpenAIRole): Role {
    if role == OaUser then User else Assistant
  }

  function BlocksOf(m: OpenAIMessage): seq<Block> {
    Named(DisplayName(m), ConvertContent(m.content))
  }

  // ----- The system prompt -----

  function FirstTextContent(content: Content): string {
    if content.PlainText? then content.text else FirstTextPart(content.parts)
  }

  function FirstTextPart(parts: seq<ContentPart>): string {
    if parts == [] then "[ No text content in this message ]"
    else if parts[0].TextPart? then parts[0].text
    else FirstTextPart(parts[1..])
  }

  function SystemText(ms: seq<OpenAIMessage>): string {
    if ms == [] then ""
    else SystemText(ms[..|ms| - 1]) + (FirstTextContent(ms[|ms| - 1].content) + "\n")
  }

  /** How many messages the leading run of system messages has. */
  function Leading(ms: seq<OpenAIMessage>): (n: nat)
    ensures n <= |ms| && (n < |ms| ==> !IsSystemRole(ms[n].role))
    ensures forall i :: 0 <= i < n ==> IsSystemRole(ms[i].role)
  {
    if ms == [] || !IsSystemRole(ms[0].role) then 0 else 1 + Leading(ms[1..])
  }

  /** The user line a conversation that starts with the assistant is given, and the system text left over. */
  function Spliced(system: string): Conversion {
    var start := SystemLines.LastLine(system);
    if start.None? then Conversion([ClaudeMessage(User, [TextBlock("[ Joining chat... ]")])], system)
    else
      var line := system[start.value..SystemLines.RunEnd(system, start.value)];
      Conversion([ClaudeMessage(User, [TextBlock(line)])], system[..start.value])
  }

  function Opening(system: string, first: OpenAIRole): Conversion {
    if first == OaAssistant then Spliced(system) else Conversion([], system)
  }

  // ----- Merging -----

  function Appended(out: seq<ClaudeMessage>, role: Role, blocks: seq<Block>): seq<ClaudeMessage> {
    if out != [] && out[|out| - 1].role == role then
      out[|out| - 1 := ClaudeMessage(role, out[|out| - 1].content + blocks)]
    else out + [ClaudeMessage(role, blocks)]
  }

  function Merged(out: seq<ClaudeMessage>, ms: seq<OpenAIMessage>): seq<ClaudeMessage>
    decreases |ms|
  {
    if ms == [] then out else Merged(Appended(out, ClaudeRole(ms[0].role), BlocksOf(ms[0])), ms[1..])
  }

  function Converted(ms: seq<OpenAIMessage>): Conversion {
    var n := Leading(ms);
    var system := SystemText(ms[..n]);
    if n == |ms| then Conversion([], TrimEnd(system))
    else
      var opening := Opening(system, ms[n].role);
      Conversion(Merged(opening.messages, ms[n..]), TrimEnd(opening.system))
  }

  lemma {:induction false} LeadingIs(ms: seq<OpenAIMessage>, n: nat)
    requires n <= |ms| && (n < |ms| ==> !IsSystemRole(ms[n].role))
    requires forall i :: 0 <= i < n ==> IsSystemRole(ms[i].role)
    ensures Leading(ms) == n
  {
    assert Leading(ms) < |ms| ==> !IsSystemRole(ms[Leading(ms)].role);
  }

  lemma {:induction false} MergedStep(out: seq<ClaudeMessage>, ms: seq<OpenAIMessage>, i: nat)
    requires i < |ms|
    ensures Merged(out, ms[i..]) == Merged(Appended(out, ClaudeRole(ms[i].role), BlocksOf(ms[i])), ms[i + 1..])
  {
    assert ms[i..][1..] == ms[i + 1..];
  }

  lemma {:induction false} SystemTextStep(ms: seq<OpenAIMessage>, i: nat)
    requires i < |ms|
    ensures SystemText(ms[..i + 1]) == SystemText(ms[..i]) + (FirstTextContent(ms[i].content) + "\n")
  {
    assert ms[..i + 1][..i] == ms[..i];
  }

  method SpliceLastLine(system: string) returns (text: string, rest: string)
    ensures Spliced(system) == Conversion([ClaudeMessage(User, [TextBlock(text)])], rest)
  {
    var start := SystemLines.LastLine(system);
    if start.Some? {
      text := system[start.value..SystemLines.RunEnd(system, start.value)];
      rest := system[..start.value];
    } else {
      text, rest := "[ Joining chat... ]", system;
    }
  }

  /** The state of the conversion loop before message `i`. */
  ghost predicate SoFar(ms: seq<OpenAIMessage>, i: nat, firstNonSystem: int, out: seq<ClaudeMessage>, system: string)
    requires i <= |ms|
  {
    if firstNonSystem == -1 then
      (forall k :: 0 <= k < i ==> IsSystemRole(ms[k].role)) && out == [] && system == SystemText(ms[..i])
    else
      && firstNonSystem == Leading(ms) < i
      && var opening := Opening(SystemText(ms[..firstNonSystem]), ms[firstNonSystem].role);
         system == opening.system && Merged(out, ms[i..]) == Merged(opening.messages, ms[firstNonSystem..])
  }

  lemma {:induction false} SoFarStep(ms: seq<OpenAIMessage>, i: nat, firstNonSystem: int, given: seq<ClaudeMessage>, system: string)
    requires i < |ms| && firstNonSystem == Leading(ms) <= i
    requires var opening := Opening(SystemText(ms[..firstNonSystem]), ms[firstNonSystem].role);
             system == opening.system && Merged(given, ms[i..]) == Merged(opening.messages, ms[firstNonSystem..])
    ensures SoFar(ms, i + 1, firstNonSystem, Appended(given, ClaudeRole(ms[i].role), BlocksOf(ms[i])), system)
  {
    MergedStep(given, ms, i);
  }

  lemma {:induction false} AllDone(ms: seq<OpenAIMessage>, firstNonSystem: int, out: seq<ClaudeMessage>, system: string)
    requires SoFar(ms, |ms|, firstNonSystem, out, system)
    ensures Converted(ms) == Conversion(out, TrimEnd(system))
  {
    if firstNonSystem == -1 {
      LeadingIs(ms, |ms|);
    } else {
      assert ms[|ms|..] == [];
    }
  }

  method AppendMessage(out: seq<ClaudeMessage>, msg: OpenAIMessage) returns (next: seq<ClaudeMessage>)
    ensures next == Appended(out, ClaudeRole(msg.role), BlocksOf(msg))
  {
    var role := if IsSystemRole(msg.role) || msg.role == OaAssistant then Assistant else User;
    var content := Named(DisplayName(msg), ConvertContent(msg.content));
    if out != [] && out[|out| - 1].role == role {
      next := out[|out| - 1 := ClaudeMessage(role, out[|out| - 1].content + content)];
    } else {
      next := out + [ClaudeMessage(role, content)];
    }
  }

  method OpenAIMessagesToClaudeChatPrompt(messages: seq<OpenAIMessage>) returns (result: Conversion)
    ensures result == Converted(messages)
  {
    var firstNonSystem := -1;
    var out: seq<ClaudeMessage>, system := [], "";
    for i := 0 to |messages|
      invariant SoFar(messages, i, firstNonSystem, out, system)
    {
      var msg := messages[i];
      if firstNonSystem == -1 && IsSystemRole(msg.role) {
        SystemTextStep(messages, i);
        system := system + (FirstTextContent(msg.content) + "\n");
        continue;
      }
      if firstNonSystem == -1 {
        LeadingIs(messages, i);
        firstNonSystem := i;
        if msg.role == OaAssistant {
          var text;
          text, system := SpliceLastLine(system);
          out := [ClaudeMessage(User, [TextBlock(text)])];
        }
      }
      SoFarStep(messages, i, firstNonSystem, out, system);
      out := AppendMessage(out, msg);
    }
    AllDone(messages, firstNonSystem, out, system);
    result := Conversion(out, TrimEnd(system));
  }

  // ----- What a conversion is -----

  ghost predicate Alternating(out: seq<ClaudeMessage>) {
    && (out != [] ==> out[0].role == User)
    && forall i :: 0 < i < |out| ==> out[i].role != out[i - 1].role
  }

  /** Every block with the role that says it, in order. */
  function Said(out: seq<ClaudeMessage>): seq<(Role, Block)> {
    if out == [] then [] else Said(out[..|out| - 1]) + Tagged(out[|out| - 1].role, out[|out| - 1].content)
  }

  function Tagged(role: Role, blocks: seq<Block>): seq<(Role, Block)> {
    seq(|blocks|, i requires 0 <= i < |blocks| => (role, blocks[i]))
  }

  function SaidBy(ms: seq<OpenAIMessage>): seq<(Role, Block)> {
    if ms == [] then [] else Tagged(ClaudeRole(ms[0].role), BlocksOf(ms[0])) + SaidBy(ms[1..])
  }

  lemma {:induction false} AppendedSaysTheSame(out: seq<ClaudeMessage>, role: Role, blocks: seq<Block>)
    ensures Said(Appended(out, role, blocks)) == Said(out) + Tagged(role, blocks)
    ensures Alternating(out) && (out == [] ==> role == User) ==> Alternating(Appended(out, role, blocks))
  {
    var next := Appended(out, role, blocks);
    if out != [] && out[|out| - 1].role == role {
      var last := out[|out| - 1];
      assert next[..|next| - 1] == out[..|out| - 1];
      assert Tagged(role, last.content + blocks) == Tagged(role, last.content) + Tagged(role, blocks);
      assert Said(out[..|out| - 1]) + (Tagged(role, last.content) + Tagged(role, blocks)) == Said(out) + Tagged(role, blocks);
    } else {
      assert next[..|next| - 1] == out;
    }
  }

  lemma {:induction false} MergedSaysTheSame(out: seq<ClaudeMessage>, ms: seq<OpenAIMessage>)
    requires Alternating(out) && (out == [] && ms != [] ==> ms[0].role == OaUser)
    ensures Said(Merged(out, ms)) == Said(out) + SaidBy(ms)
    ensures Alternating(Merged(out, ms)) && (out != [] || ms != [] ==> Merged(out, ms) != [])
    decreases |ms|
  {
    if ms == [] {
      SumIsAssociative(Said(out), [], []);
    } else {
      var role, blocks := ClaudeRole(ms[0].role), BlocksOf(ms[0]);
      AppendedSaysTheSame(out, role, blocks);
      MergedSaysTheSame(Appended(out, role, blocks), ms[1..]);
      SumIsAssociative(Said(out), Tagged(role, blocks), SaidBy(ms[1..]));
    }
  }

  /** The spliced line, if the first message after the leading system messages needs one. */
  function OpeningLines(ms: seq<OpenAIMessage>): seq<ClaudeMessage> {
    var n := Leading(ms);
    if n < |ms| then Opening(SystemText(ms[..n]), ms[n].role).messages else []
  }

  lemma {:induction false} MessagesAreMerged(ms: seq<OpenAIMessage>)
    ensures Converted(ms).messages == Merged(OpeningLines(ms), ms[Leading(ms)..])
  {
  }

  lemma {:induction false} OpeningLinesFit(ms: seq<OpenAIMessage>)
    ensures Alternating(OpeningLines(ms))
    ensures Leading(ms) == |ms| ==> OpeningLines(ms) == []
    ensures Leading(ms) < |ms| && OpeningLines(ms) == [] ==> ms[Leading(ms)].role == OaUser
  {
    var n := Leading(ms);
    if n < |ms| {
      assert |Spliced(SystemText(ms[..n])).messages| == 1;
    }
  }

  /**
   * The roles strictly alternate, starting with the user, and what is said is the
   * spliced line, if any, and then all blocks of the messages after the leading
   * system messages, in order and from the same side. Only an input of nothing but
   * system messages gives no messages.
   */
  lemma {:induction false} ConvertedAlternatesAndKeepsEverything(ms: seq<OpenAIMessage>)
    ensures Alternating(Converted(ms).messages)
    ensures Converted(ms).messages == [] <==> Leading(ms) == |ms|
    ensures Said(Converted(ms).messages) == Said(OpeningLines(ms)) + SaidBy(ms[Leading(ms)..])
  {
    MessagesAreMerged(ms);
    OpeningLinesFit(ms);
    MergedSaysTheSame(OpeningLines(ms), ms[Leading(ms)..]);
  }

  /**
   * The spliced user line is never empty. It is cut out of the system text unless that has
   * no line to give, and the cut drops nothing but line breaks exactly when no lone carriage
   * return stands between two pieces of text.
   */
  lemma {:induction false} SplicedLineIsCutOut(system: string)
    ensures var opening := Spliced(system);
            exists line :: line != "" && opening.messages == [ClaudeMessage(User, [TextBlock(line)])]
              && (if SystemLines.AllBreaks(system, 0, |system|) then opening.system == system
                  else && opening.system + line <= system
                       && (SystemLines.AllBreaks(system, |opening.system + line|, |system|) <==>
                             forall r :: !SystemLines.SplitsText(system, r)))
  {
    SystemLines.LastLineDropsOnlyBreaksExactlyWhen(system);
    var line := Spliced(system).messages[0].content[0].text;
    assert Spliced(system).messages == [ClaudeMessage(User, [TextBlock(line)])];
  }
}
