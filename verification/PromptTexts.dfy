/** What the printer writes and what the splitter makes of a text prompt, in terms of the texts themselves. */
module PromptTexts {
  import opened Options
  import opened Text
  import opened MarkedText
  import opened OpenAIChat
  import opened AnthropicText

  // ----- Splitting -----

  ghost predicate Occurs(text: string, part: string) {
    exists i :: OccursAt(text, part, i)
  }

  /** Some assistant marker stands before every human one. */
  ghost predicate AssistantIsFirst(mk: Markers, prompt: string) {
    exists i :: OccursAt(prompt, mk.assistant, i) && forall j :: OccursAt(prompt, mk.human, j) ==> i < j
  }

  ghost predicate HasBoth(mk: Markers, prompt: string) {
    Occurs(prompt, mk.human) && Occurs(prompt, mk.assistant)
  }

  lemma {:induction false} PositionsOfMarkers(mk: Markers, prompt: string)
    ensures Contains(prompt, mk.human) && Contains(prompt, mk.assistant) <==> HasBoth(mk, prompt)
    ensures HasBoth(mk, prompt) ==> (IndexOf(prompt, mk.assistant) < IndexOf(prompt, mk.human) <==> AssistantIsFirst(mk, prompt))
  {
    var h, a := IndexOf(prompt, mk.human), IndexOf(prompt, mk.assistant);
    if h != -1 && a != -1 {
      assert OccursAt(prompt, mk.human, h) && OccursAt(prompt, mk.assistant, a);
    }
  }

  ghost predicate IsRefused(mk: Markers, prompt: string, reason: string)
    requires Fit(mk)
  {
    Transformed(mk, prompt) == BadRequest(reason)
  }

  lemma {:induction false} RefusedExactlyWhen(mk: Markers, prompt: string)
    requires Fit(mk)
    ensures !HasBoth(mk, prompt) ==> IsRefused(mk, prompt, "Prompt must contain at least one human and one assistant message.")
    ensures HasBoth(mk, prompt) && AssistantIsFirst(mk, prompt) ==>
              IsRefused(mk, prompt, "First Assistant message must come after the first Human message.")
    ensures Transformed(mk, prompt).Ok? <==> HasBoth(mk, prompt) && !AssistantIsFirst(mk, prompt)
  {
    PositionsOfMarkers(mk, prompt);
  }

  /** A prompt is refused for a missing marker, or else for an assistant who comes first; any other is accepted. */
  lemma {:induction false} RefusalsExactlyWhen(mk: Markers, prompt: string)
    requires mk == MARKERS
    ensures mk.human == "\n\nHuman:" && mk.assistant == "\n\nAssistant:" && Fit(mk)
    ensures !HasBoth(mk, prompt) ==> IsRefused(mk, prompt, "Prompt must contain at least one human and one assistant message.")
    ensures HasBoth(mk, prompt) && AssistantIsFirst(mk, prompt) ==>
              IsRefused(mk, prompt, "First Assistant message must come after the first Human message.")
    ensures Transformed(mk, prompt).Ok? <==> HasBoth(mk, prompt) && !AssistantIsFirst(mk, prompt)
  {
    MarkersFit();
    RefusedExactlyWhen(mk, prompt);
  }

  /** `m` is the message of a turn: its text without the space in front, nor at the end if it ends the prompt. */
  ghost predicate IsMessageOf(t: Turn, isFinal: bool, m: Message) {
    && m.role == t.role
    && if isFinal && t.role == Assistant then exists u :: StartTrimmed(t.raw, u) && EndTrimmed(u, m.content)
       else StartTrimmed(t.raw, m.content)
  }

  lemma {:induction false} MessageOfTurn(t: Turn, m: Message)
    requires m == MessageOf(t)
    ensures m.role == t.role && StartTrimmed(t.raw, m.content)
  {
    TrimStartCutsOnlySpace(t.raw);
  }

  lemma {:induction false} FinalMessageOfTurn(t: Turn, m: Message, trimmed: Message)
    requires m.role == t.role == Assistant && StartTrimmed(t.raw, m.content) && trimmed == m.(content := TrimEnd(m.content))
    ensures IsMessageOf(t, true, trimmed)
  {
    TrimEndCutsOnlySpace(m.content);
  }

  lemma {:induction false} OtherMessageOfTurn(t: Turn, isFinal: bool, m: Message)
    requires m.role == t.role && StartTrimmed(t.raw, m.content) && !(isFinal && t.role == Assistant)
    ensures IsMessageOf(t, isFinal, m)
  {
  }

  lemma {:induction false} OnlyTheFinalIsTrimmed(ms: seq<Message>, i: nat)
    requires i < |ms|
    ensures |FinalTrimmed(ms)| == |ms|
    ensures FinalTrimmed(ms)[i] ==
              if i == |ms| - 1 && ms[i].role == Assistant then ms[i].(content := TrimEnd(ms[i].content)) else ms[i]
  {
  }

  lemma {:induction false} FinalTrimmedAt(turns: seq<Turn>, ms: seq<Message>, i: nat, t: Turn, m: Message, trimmed: Message)
    requires i < |turns| && ms == Contents(turns) && t == turns[i] && m == ms[i]
    requires |FinalTrimmed(ms)| == |ms| ==> trimmed == FinalTrimmed(ms)[i]
    ensures |FinalTrimmed(ms)| == |turns| && IsMessageOf(t, i == |turns| - 1, trimmed)
  {
    MessageOfTurn(t, m);
    OnlyTheFinalIsTrimmed(ms, i);
    if i == |turns| - 1 && t.role == Assistant {
      FinalMessageOfTurn(t, m, trimmed);
    } else {
      OtherMessageOfTurn(t, i == |turns| - 1, trimmed);
    }
  }

  /**
   * An accepted prompt is its system text and its turns, each a marker and the text up to the next one of the other
   * role, and the messages are those texts.
   */
  lemma {:induction false} MessagesAreTheTexts(prompt: string) returns (turns: seq<Turn>)
    requires Fit(MARKERS) && Transformed(MARKERS, prompt).Ok?
    ensures MadeOf(MARKERS, prompt, Transformed(MARKERS, prompt).value.0, turns)
    ensures |Transformed(MARKERS, prompt).value.1| == |turns|
    ensures forall i :: 0 <= i < |turns| ==> IsMessageOf(turns[i], i == |turns| - 1, Transformed(MARKERS, prompt).value.1[i])
  {
    TransformedKeepsThePrompt(MARKERS, prompt);
    var messages := Transformed(MARKERS, prompt).value.1;
    turns :| MadeOf(MARKERS, prompt, Transformed(MARKERS, prompt).value.0, turns) && messages == FinalTrimmed(Contents(turns));
    forall i | 0 <= i < |turns| ensures |messages| == |turns| && IsMessageOf(turns[i], i == |turns| - 1, messages[i]) {
      OnlyTheFinalIsTrimmed(Contents(turns), i);
      FinalTrimmedAt(turns, Contents(turns), i, turns[i], Contents(turns)[i], messages[i]);
    }
  }

  /** Taking out a marker leaves what stands before and after its first occurrence. */
  lemma {:induction false} FirstOccurrenceIsTakenOut(before: string, part: string, after: string)
    requires forall j :: OccursAt(before + part + after, part, j) ==> |before| <= j
    ensures ReplacedFirst(before + part + after, part) == before + after
  {
    var text := before + part + after;
    assert text[|before|..|before| + |part|] == part;
    assert OccursAt(text, part, |before|);
    assert text[..|before|] == before && text[|before| + |part|..] == after;
  }

  // ----- Printing -----

  ghost function RoleName(role: OpenAIRole): string {
    if role == OaUser then "Human"
    else if role == OaAssistant then "Assistant"
    else if role == OaTool then "tool"
    else if role == OaFunction then "function"
    else "System"
  }

  /** What is printed of a part. */
  ghost function PartText(part: ContentPart): string {
    if part.ImagePart? then "[ Uploaded Image Omitted ]" else part.text
  }

  /** The texts, with `sep` between two of them. */
  ghost function Separated(texts: seq<string>, sep: string): string {
    if texts == [] then ""
    else if |texts| == 1 then texts[0]
    else Separated(texts[..|texts| - 1], sep) + sep + texts[|texts| - 1]
  }

  /** The body of a message: its text, or what is printed of its parts, one to a line. */
  ghost predicate IsBody(content: Content, body: string) {
    match content
    case PlainText(text) => body == text
    case Parts(parts) => exists texts: seq<string> ::
      |texts| == |parts| && (forall i :: 0 <= i < |parts| ==> texts[i] == PartText(parts[i])) && body == Separated(texts, "\n")
  }

  /** A named message says whom it speaks as. */
  ghost predicate IsPrinted(m: OpenAIMessage, text: string) {
    exists name, body :: PrintedAs(m, name, body, text)
  }

  ghost predicate PrintedAs(m: OpenAIMessage, name: string, body: string, text: string) {
    && (if m.name.None? then name == "" else Trimmed(m.name.value, name))
    && IsBody(m.content, body)
    && text == "\n\n" + RoleName(m.role) + ": " + (if name == "" then "" else "(as " + name + ") ") + body
  }

  lemma {:induction false} SeparatedFromTheFirst(texts: seq<string>, sep: string)
    requires |texts| > 1
    ensures Separated(texts, sep) == texts[0] + sep + Separated(texts[1..], sep)
    decreases |texts|
  {
    var n := |texts| - 1;
    if n > 1 {
      SeparatedFromTheFirst(texts[..n], sep);
      assert texts[..n][1..] == texts[1..][..n - 1];
      ThreeStrings(texts[0] + sep, Separated(texts[1..][..n - 1], sep), sep, texts[n]);
    } else {
      assert texts[..1] == [texts[0]] && texts[1..] == [texts[1]];
    }
  }

  lemma {:induction false} ThreeStrings(a: string, b: string, c: string, d: string)
    ensures ((a + b) + c) + d == a + ((b + c) + d)
  {
  }

  ghost function PartTexts(parts: seq<ContentPart>): (texts: seq<string>)
    ensures |texts| == |parts| && forall i :: 0 <= i < |parts| ==> texts[i] == PartText(parts[i])
  {
    if parts == [] then [] else [PartText(parts[0])] + PartTexts(parts[1..])
  }

  lemma {:induction false} FlattenedOfRest(parts: seq<ContentPart>, sep: string)
    requires |parts| > 1 && sep == "\n"
    ensures FlattenedParts(parts) == PartText(parts[0]) + (sep + FlattenedParts(parts[1..]))
  {
  }

  lemma {:induction false} FlattenedOfOne(part: ContentPart)
    ensures FlattenedParts([part]) == PartText(part)
  {
  }

  lemma {:induction false} FlattenedAgrees(parts: seq<ContentPart>, texts: seq<string>, sep: string)
    requires sep == "\n" && texts == PartTexts(parts)
    ensures FlattenedParts(parts) == Separated(texts, sep)
    decreases |parts|
  {
    if |parts| == 1 {
      assert parts == [parts[0]];
      FlattenedOfOne(parts[0]);
    } else if |parts| > 1 {
      assert texts[1..] == PartTexts(parts[1..]);
      FlattenedAgrees(parts[1..], texts[1..], sep);
      FlattenedOfRest(parts, sep);
      SeparatedFromTheFirst(texts, sep);
      TwoSums(texts[0], sep, Separated(texts[1..], sep));
    }
  }

  lemma {:induction false} TwoSums(a: string, b: string, c: string)
    ensures a + (b + c) == (a + b) + c
  {
  }

  lemma {:induction false} FlattenedIsSeparated(parts: seq<ContentPart>)
    ensures FlattenedParts(parts) == Separated(PartTexts(parts), "\n")
  {
    FlattenedAgrees(parts, PartTexts(parts), "\n");
  }

  lemma {:induction false} FlattenedIsTheBody(content: Content)
    ensures IsBody(content, Flattened(content))
  {
    if content.Parts? {
      FlattenedIsSeparated(content.parts);
    }
  }

  lemma {:induction false} PrintedMessageIsPrinted(m: OpenAIMessage)
    ensures IsPrinted(m, PrintedMessage(m))
  {
    FlattenedIsTheBody(m.content);
    if m.name.Some? {
      TrimCutsOnlySpace(m.name.value);
    }
    assert PrintedRole(m.role) == RoleName(m.role);
    assert PrintedAs(m, TrimmedName(m), Flattened(m.content), PrintedMessage(m));
  }

  lemma {:induction false} OneMoreText(first: string, rest: seq<string>, last: string)
    ensures Separated([first] + rest + [last], "") == first + Separated(rest + [last], "")
  {
    var all := [first] + rest + [last];
    assert all[1..] == rest + [last];
    SeparatedFromTheFirst(all, "");
  }

  ghost predicate AllPrinted(ms: seq<OpenAIMessage>, texts: seq<string>) {
    |texts| == |ms| && forall i :: 0 <= i < |ms| ==> IsPrinted(ms[i], texts[i])
  }

  lemma {:induction false} AllPrintedOneMore(ms: seq<OpenAIMessage>, first: string, rest: seq<string>)
    requires ms != [] && IsPrinted(ms[0], first) && AllPrinted(ms[1..], rest)
    ensures AllPrinted(ms, [first] + rest)
  {
    assert forall i :: 1 <= i < |ms| ==> ms[i] == ms[1..][i - 1] && ([first] + rest)[i] == rest[i - 1];
  }

  lemma {:induction false} PrintedFrom(ms: seq<OpenAIMessage>, last: string) returns (texts: seq<string>)
    requires last == ASSISTANT
    ensures AllPrinted(ms, texts) && Printed(ms) == Separated(texts + [last], "")
  {
    if ms == [] {
      texts := [];
      assert texts + [last] == [last];
    } else {
      var rest := PrintedFrom(ms[1..], last);
      PrintedMessageIsPrinted(ms[0]);
      AllPrintedOneMore(ms, PrintedMessage(ms[0]), rest);
      OneMoreText(PrintedMessage(ms[0]), rest, last);
      texts := [PrintedMessage(ms[0])] + rest;
    }
  }

  /** A prompt is every message printed, in order, and then the marker that the assistant is to go on from. */
  lemma {:induction false} EveryMessageIsPrinted(ms: seq<OpenAIMessage>) returns (texts: seq<string>)
    ensures AllPrinted(ms, texts) && Printed(ms) == Separated(texts + ["\n\nAssistant:"], "")
  {
    texts := PrintedFrom(ms, ASSISTANT);
  }
}
