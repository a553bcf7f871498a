/**
 * Flat Anthropic text prompts: the printer that writes a conversation as one
 * marked-up string, and the splitter that turns such a string into messages.
 */
module AnthropicText {
  import opened Options
  import opened Text
  import opened MarkedText
  import opened OpenAIChat
  import opened Sequences

  const HUMAN := "\n\nHuman:"
  const ASSISTANT := "\n\nAssistant:"

  datatype Message = Message(role: Role, content: string)

  datatype Result<T> = Ok(value: T) | BadRequest(reason: string)

  const MARKERS := Markers(HUMAN, ASSISTANT)

  lemma {:induction false} MarkersFit()
    ensures Fit(MARKERS)
  {
  }

  // ----- The transformer -----

  function Validated(mk: Markers, prompt: string): Result<()> {
    if !Contains(prompt, mk.human) || !Contains(prompt, mk.assistant) then
      BadRequest("Prompt must contain at least one human and one assistant message.")
    else if IndexOf(prompt, mk.assistant) < IndexOf(prompt, mk.human) then
      BadRequest("First Assistant message must come after the first Human message.")
    else Ok(())
  }

  function MessageOf(t: Turn): Message {
    Message(t.role, TrimStart(t.raw))
  }

  function Contents(turns: seq<Turn>): (ms: seq<Message>)
    ensures |ms| == |turns|
    ensures forall i :: 0 <= i < |ms| ==> ms[i] == MessageOf(turns[i])
  {
    seq(|turns|, i requires 0 <= i < |turns| => MessageOf(turns[i]))
  }

  /** The final assistant message must not end with whitespace. */
  function FinalTrimmed(ms: seq<Message>): seq<Message>
    requires ms != []
  {
    var last := ms[|ms| - 1];
    if last.role == Assistant then ms[|ms| - 1 := last.(content := TrimEnd(last.content))] else ms
  }

  function MessagesFrom(mk: Markers, text: string): (ms: seq<Message>)
    requires Fit(mk) && mk.human <= text
  {
    FinalTrimmed(Contents(SplitFrom(mk, text, User)))
  }

  function Transformed(mk: Markers, prompt: string): Result<(string, seq<Message>)>
    requires Fit(mk)
  {
    var v := Validated(mk, prompt);
    if v.BadRequest? then BadRequest(v.reason)
    else
      var i := IndexOf(prompt, mk.human);
      OccurrenceStartsSuffix(prompt, mk.human, i);
      Ok((prompt[..i], MessagesFrom(mk, prompt[i..])))
  }

  /** `replace` with a string pattern takes out the first occurrence only. */
  function ReplacedFirst(text: string, part: string): string {
    var i := IndexOf(text, part);
    if i == -1 then text else text[..i] + text[i + |part|..]
  }

  lemma {:induction false} ReplacingTheLeadingMarker(text: string, part: string)
    requires part <= text
    ensures ReplacedFirst(text, part) == text[|part|..]
  {
    assert OccursAt(text, part, 0);
    assert text[..0] + text[|part|..] == text[|part|..];
  }

  lemma {:induction false} ContentsOfFirst(t: Turn, rest: seq<Turn>)
    ensures Contents([t] + rest) == [MessageOf(t)] + Contents(rest)
  {
  }

  /** The text of a chunk without its marker, as the loop computes it. */
  lemma {:induction false} ChunkWithoutMarker(text: string, own: string, end: int)
    requires own <= text && |own| <= end <= |text|
    ensures ReplacedFirst(text[..end], own) == text[|own|..end]
  {
    assert own <= text[..end];
    ReplacingTheLeadingMarker(text[..end], own);
    assert text[..end][|own|..] == text[|own|..end];
  }

  lemma {:induction false} RoleOfLeadingMarker(mk: Markers, text: string, role: Role)
    requires Fit(mk) && Marker(mk, role) <= text
    ensures mk.human <= text <==> role == User
  {
    assert text[2] == Marker(mk, role)[2];
  }

  /** The text of a whole last chunk, and of a chunk before the next marker. */
  function Chunk(text: string, own: string, end: int): string
    requires end == -1 || 0 <= end <= |text|
  {
    ReplacedFirst(if end == -1 then text else text[..end], own)
  }

  lemma {:induction false} ChunkIsTheRawText(text: string, own: string, end: int)
    requires own <= text && (end == -1 || |own| <= end <= |text|)
    ensures Chunk(text, own, end) == if end == -1 then text[|own|..] else text[|own|..end]
  {
    ChunkWithoutMarker(text, own, if end == -1 then |text| else end);
    assert text[..|text|] == text;
  }

  lemma {:induction false} FirstContent(mk: Markers, text: string, role: Role)
    requires Fit(mk) && Marker(mk, role) <= text
    ensures var own, i := Marker(mk, role), IndexOf(text, Marker(mk, Other(role)));
            && (i != -1 ==> |own| <= i && Marker(mk, Other(role)) <= text[i..])
            && Contents(SplitFrom(mk, text, role)) ==
               [MessageOf(Turn(role, Chunk(text, own, i)))] + if i == -1 then [] else Contents(SplitFrom(mk, text[i..], Other(role)))
  {
    var own, i := Marker(mk, role), IndexOf(text, Marker(mk, Other(role)));
    FirstTurn(mk, text, role);
    ChunkIsTheRawText(text, own, i);
    if i == -1 {
      ContentsOfFirst(Turn(role, text[|own|..]), []);
      SumIsAssociative([Turn(role, text[|own|..])], [], []);
    } else {
      ContentsOfFirst(Turn(role, text[|own|..i]), SplitFrom(mk, text[i..], Other(role)));
    }
  }

  /** One turn of the loop: the message before the next opposite marker, and what remains. */
  method NextMessage(mk: Markers, remaining: string, ghost role: Role) returns (message: Message, rest: Option<string>)
    requires Fit(mk) && Marker(mk, role) <= remaining
    ensures rest.Some? ==> |rest.value| < |remaining| && Marker(mk, Other(role)) <= rest.value
    ensures Contents(SplitFrom(mk, remaining, role)) ==
              [message] + if rest.Some? then Contents(SplitFrom(mk, rest.value, Other(role))) else []
  {
    RoleOfLeadingMarker(mk, remaining, role);
    FirstContent(mk, remaining, role);
    var isHuman := mk.human <= remaining;
    var thisRole := if isHuman then mk.human else mk.assistant;
    var nextRole := if isHuman then mk.assistant else mk.human;
    var nextIndex := IndexOf(remaining, nextRole);
    message := MessageOf(Turn(if isHuman then User else Assistant, Chunk(remaining, thisRole, nextIndex)));
    if nextIndex == -1 {
      return message, None;
    }
    rest := Some(remaining[nextIndex..]);
  }

  /** What is collected and what is still to be split make up all the messages. */
  ghost predicate Remains(mk: Markers, all: seq<Message>, messages: seq<Message>, remaining: Option<string>, role: Role)
    requires Fit(mk)
  {
    match remaining
    case None => messages == all
    case Some(text) => Marker(mk, role) <= text && messages + Contents(SplitFrom(mk, text, role)) == all
  }

  lemma {:induction false} OneMessageCollected(
    mk: Markers, all: seq<Message>, messages: seq<Message>, text: string, role: Role, message: Message, rest: Option<string>)
    requires Fit(mk) && Remains(mk, all, messages, Some(text), role)
    requires rest.Some? ==> Marker(mk, Other(role)) <= rest.value
    requires Contents(SplitFrom(mk, text, role)) ==
               [message] + if rest.Some? then Contents(SplitFrom(mk, rest.value, Other(role))) else []
    ensures Remains(mk, all, messages + [message], rest, Other(role))
  {
    SumIsAssociative(messages, [message], if rest.Some? then Contents(SplitFrom(mk, rest.value, Other(role))) else []);
  }

  method CollectMessages(mk: Markers, text: string) returns (messages: seq<Message>)
    requires Fit(mk) && mk.human <= text
    ensures messages == Contents(SplitFrom(mk, text, User))
  {
    ghost var role, all := User, Contents(SplitFrom(mk, text, User));
    var remaining := text;
    messages := [];
    NoneCollected(all);
    while remaining != ""
      invariant Remains(mk, all, messages, if remaining == "" then None else Some(remaining), role)
      decreases |remaining|
    {
      var message, rest := NextMessage(mk, remaining, role);
      OneMessageCollected(mk, all, messages, remaining, role, message, rest);
      messages := messages + [message];
      if rest.None? {
        break;
      }
      remaining := rest.value;
      role := Other(role);
    }
  }

  lemma {:induction false} NoneCollected(all: seq<Message>)
    ensures [] + all == all
  {
  }

  method TrimLast(messages: seq<Message>) returns (trimmed: seq<Message>)
    requires messages != []
    ensures trimmed == FinalTrimmed(messages)
  {
    trimmed := messages;
    var lastMessage := messages[|messages| - 1];
    if lastMessage.role == Assistant {
      trimmed := messages[|messages| - 1 := lastMessage.(content := TrimEnd(lastMessage.content))];
    }
  }

  method SplitPrompt(mk: Markers, prompt: string) returns (result: Result<(string, seq<Message>)>)
    requires Fit(mk)
    ensures result == Transformed(mk, prompt)
  {
    var valid := Validated(mk, prompt);
    if valid.BadRequest? {
      return BadRequest(valid.reason);
    }
    var index := IndexOf(prompt, mk.human);
    OccurrenceStartsSuffix(prompt, mk.human, index);
    var messages := CollectMessages(mk, prompt[index..]);
    messages := TrimLast(messages);
    result := Ok((prompt[..index], messages));
  }

  method TransformAnthropicTextToAnthropicChat(prompt: string) returns (result: Result<(string, seq<Message>)>)
    ensures Fit(MARKERS) && result == Transformed(MARKERS, prompt)
  {
    MarkersFit();
    result := SplitPrompt(MARKERS, prompt);
  }

  /** What a transformed prompt consists of. */
  ghost predicate MadeOf(mk: Markers, prompt: string, system: string, turns: seq<Turn>) {
    && prompt == system + Join(mk, turns)
    && Alternating(turns, User) && Clean(mk, turns) && |turns| >= 2
  }

  lemma {:induction false} AssistantIsInTheRest(mk: Markers, prompt: string, i: nat)
    requires Fit(mk) && i <= |prompt| && mk.human <= prompt[i..]
    requires Contains(prompt, mk.assistant) && i <= IndexOf(prompt, mk.assistant)
    ensures |SplitFrom(mk, prompt[i..], User)| >= 2
  {
    OccurrenceInSuffix(prompt, i, mk.assistant, IndexOf(prompt, mk.assistant));
    AssistantMakesTwoTurns(mk, prompt[i..]);
  }

  lemma {:induction false} AssistantMakesTwoTurns(mk: Markers, text: string)
    requires Fit(mk) && mk.human <= text && Contains(text, mk.assistant)
    ensures |SplitFrom(mk, text, User)| >= 2
  {
    FirstTurn(mk, text, User);
  }

  lemma {:induction false} HeadAndRest(text: string, i: nat)
    requires i <= |text|
    ensures text == text[..i] + text[i..]
  {
  }

  lemma {:induction false} SplitAtFirstHuman(mk: Markers, prompt: string)
    requires Fit(mk) && Validated(mk, prompt).Ok?
    ensures var i := IndexOf(prompt, mk.human);
            mk.human <= prompt[i..] && MadeOf(mk, prompt, prompt[..i], SplitFrom(mk, prompt[i..], User))
  {
    var i := IndexOf(prompt, mk.human);
    OccurrenceStartsSuffix(prompt, mk.human, i);
    SplitIsLosslessAndAlternates(mk, prompt[i..], User);
    AssistantIsInTheRest(mk, prompt, i);
    HeadAndRest(prompt, i);
  }

  /**
   * Every prompt is either refused, or is the system text followed by the turns
   * whose trimmed texts are the messages; the turns alternate from the user, so
   * there are at least two.
   */
  lemma {:induction false} TransformedKeepsThePrompt(mk: Markers, prompt: string)
    requires Fit(mk)
    ensures Transformed(mk, prompt).Ok? <==>
              Contains(prompt, mk.human) && Contains(prompt, mk.assistant) && IndexOf(prompt, mk.human) <= IndexOf(prompt, mk.assistant)
    ensures Transformed(mk, prompt).Ok? ==>
              exists turns :: MadeOf(mk, prompt, Transformed(mk, prompt).value.0, turns)
                              && Transformed(mk, prompt).value.1 == FinalTrimmed(Contents(turns))
  {
    TransformedIsOkWhenValid(mk, prompt);
    if Validated(mk, prompt).Ok? {
      SplitAtFirstHuman(mk, prompt);
    }
  }

  lemma {:induction false} TransformedIsOkWhenValid(mk: Markers, prompt: string)
    requires Fit(mk)
    ensures Transformed(mk, prompt).Ok? <==> Validated(mk, prompt).Ok?
    ensures Validated(mk, prompt).Ok? <==>
              Contains(prompt, mk.human) && Contains(prompt, mk.assistant) && IndexOf(prompt, mk.human) <= IndexOf(prompt, mk.assistant)
  {
  }

  // ----- The printer -----

  function FlattenedParts(parts: seq<ContentPart>): string {
    if parts == [] then ""
    else
      (if parts[0].TextPart? then parts[0].text else "[ Uploaded Image Omitted ]")
      + (if |parts| == 1 then "" else "\n" + FlattenedParts(parts[1..]))
  }

  function Flattened(content: Content): string {
    if content.PlainText? then content.text else FlattenedParts(content.parts)
  }

  function PrintedRole(role: OpenAIRole): string {
    match role
    case OaAssistant => "Assistant"
    case OaSystem => "System"
    case OaDeveloper => "System"
    case OaUser => "Human"
    case OaTool => "tool"
    case OaFunction => "function"
  }

  function PrintedMessage(m: OpenAIMessage): string {
    "\n\n" + PrintedRole(m.role) + ": "
    + (if TrimmedName(m) != "" then "(as " + TrimmedName(m) + ") " else "") + Flattened(m.content)
  }

  function Printed(ms: seq<OpenAIMessage>): string {
    if ms == [] then ASSISTANT else PrintedMessage(ms[0]) + Printed(ms[1..])
  }

  // ----- Printing and splitting back -----

  /** Unnamed messages from user and assistant in turn, beginning with `role` and ending with the user. */
  ghost predicate Conversation(ms: seq<OpenAIMessage>, role: Role) {
    if ms == [] then role == Assistant
    else
      && ms[0].role == (if role == User then OaUser else OaAssistant)
      && TrimmedName(ms[0]) == ""
      && Conversation(ms[1..], Other(role))
  }

  function TurnsOf(ms: seq<OpenAIMessage>, role: Role): (turns: seq<Turn>)
    ensures |turns| == |ms| + 1
  {
    if ms == [] then [Turn(Assistant, "")]
    else [Turn(role, " " + Flattened(ms[0].content))] + TurnsOf(ms[1..], Other(role))
  }

  /** The conversation as messages, plus the empty assistant turn the printer opens. */
  function ExpectedMessages(ms: seq<OpenAIMessage>, role: Role): (es: seq<Message>)
    ensures |es| == |ms| + 1
    ensures es[|ms|] == Message(Assistant, "")
  {
    if ms == [] then [Message(Assistant, "")]
    else [Message(role, Flattened(ms[0].content))] + ExpectedMessages(ms[1..], Other(role))
  }

  /** The text neither starts with whitespace nor hides the other role's marker. */
  predicate SplitSafe(mk: Markers, text: string, role: Role) {
    (text == "" || !IsSpace(text[0])) && !Contains(text, Marker(mk, Other(role)))
  }

  predicate MessageSafe(mk: Markers, m: OpenAIMessage, role: Role) {
    SplitSafe(mk, Flattened(m.content), role)
  }

  ghost predicate AllSplitSafe(mk: Markers, ms: seq<OpenAIMessage>, role: Role) {
    ms == [] || (MessageSafe(mk, ms[0], role) && AllSplitSafe(mk, ms[1..], Other(role)))
  }

  lemma {:induction false} PrintedUnnamedMessage(m: OpenAIMessage, role: Role)
    requires m.role == (if role == User then OaUser else OaAssistant) && TrimmedName(m) == ""
    ensures PrintedMessage(m) == Marker(MARKERS, role) + (" " + Flattened(m.content))
  {
    var text := Flattened(m.content);
    assert "\n\n" + PrintedRole(m.role) + ": " == Marker(MARKERS, role) + " ";
    assert (Marker(MARKERS, role) + " ") + "" + text == Marker(MARKERS, role) + (" " + text);
  }

  lemma {:induction false} PrintIsJoinOfTurns(ms: seq<OpenAIMessage>, role: Role)
    requires Conversation(ms, role)
    ensures Printed(ms) == Join(MARKERS, TurnsOf(ms, role)) && Alternating(TurnsOf(ms, role), role)
    decreases ms
  {
    if ms == [] {
      TurnBeforeSplit(MARKERS, Turn(Assistant, ""), []);
      assert [Turn(Assistant, "")] + [] == [Turn(Assistant, "")];
    } else {
      PrintIsJoinOfTurns(ms[1..], Other(role));
      PrintedUnnamedMessage(ms[0], role);
      TurnBeforeSplit(MARKERS, Turn(role, " " + Flattened(ms[0].content)), TurnsOf(ms[1..], Other(role)));
    }
  }

  lemma {:induction false} OccurrenceBehindSpace(text: string, part: string, i: int)
    requires OccursAt(" " + text, part, i) && part != "" && part[0] != ' '
    ensures OccursAt(text, part, i - 1)
  {
    var spaced := " " + text;
    assert spaced[1..|spaced|] == text;
    OccurrenceAt(spaced, part, i, 0);
    OccurrenceInsidePiece(spaced, 1, |spaced|, part, i);
  }

  lemma {:induction false} LeadingSpaceHidesNoMarker(mk: Markers, text: string, role: Role)
    requires Fit(mk) && !Contains(text, Marker(mk, role))
    ensures !Contains(" " + text, Marker(mk, role))
  {
    var i := IndexOf(" " + text, Marker(mk, role));
    if i != -1 {
      OccurrenceBehindSpace(text, Marker(mk, role), i);
    }
  }

  lemma {:induction false} TrimOfLeadingSpace(text: string)
    ensures TrimStart(" " + text) == TrimStart(text)
  {
    assert (" " + text)[1..] == text;
  }

  lemma {:induction false} SafeTurnsAreClean(mk: Markers, ms: seq<OpenAIMessage>, role: Role)
    requires Fit(mk) && Conversation(ms, role) && AllSplitSafe(mk, ms, role)
    ensures Clean(mk, TurnsOf(ms, role))
    ensures Contents(TurnsOf(ms, role)) == ExpectedMessages(ms, role)
    decreases ms
  {
    if ms == [] {
      assert !Contains("", Marker(mk, User));
    } else {
      var text := Flattened(ms[0].content);
      SafeTurnsAreClean(mk, ms[1..], Other(role));
      LeadingSpaceHidesNoMarker(mk, text, Other(role));
      TrimOfLeadingSpace(text);
      TurnBeforeSplit(mk, Turn(role, " " + text), TurnsOf(ms[1..], Other(role)));
      ContentsOfFirst(Turn(role, " " + text), TurnsOf(ms[1..], Other(role)));
    }
  }

  function RoleAt(role: Role, i: nat): Role {
    if i % 2 == 0 then role else Other(role)
  }

  lemma {:induction false} AlternatingAt(turns: seq<Turn>, role: Role, i: nat)
    requires Alternating(turns, role) && i < |turns|
    ensures turns[i].role == RoleAt(role, i)
    decreases |turns|
  {
    if i == 0 {
    } else {
      AlternatingAt(turns[1..], Other(role), i - 1);
    }
  }

  lemma {:induction false} SafeIfEachIs(mk: Markers, ms: seq<OpenAIMessage>, role: Role)
    requires forall i :: 0 <= i < |ms| ==> MessageSafe(mk, ms[i], RoleAt(role, i))
    ensures AllSplitSafe(mk, ms, role)
    decreases |ms|
  {
    if ms == [] {
    } else {
      assert MessageSafe(mk, ms[0], RoleAt(role, 0));
      forall i | 0 <= i < |ms| - 1 ensures MessageSafe(mk, ms[1..][i], RoleAt(Other(role), i)) {
        assert MessageSafe(mk, ms[i + 1], RoleAt(role, i + 1));
      }
      SafeIfEachIs(mk, ms[1..], Other(role));
    }
  }

  lemma {:induction false} ExpectedContent(ms: seq<OpenAIMessage>, role: Role, i: nat)
    requires i < |ms|
    ensures ExpectedMessages(ms, role)[i].content == Flattened(ms[i].content)
    decreases |ms|
  {
    if i == 0 {
    } else {
      ExpectedContent(ms[1..], Other(role), i - 1);
    }
  }

  lemma {:induction false} TrimmedCleanTextIsSafe(mk: Markers, raw: string, role: Role)
    requires !Contains(raw, Marker(mk, Other(role)))
    ensures SplitSafe(mk, TrimStart(raw), role)
  {
    TrimStartContainsLess(raw, Marker(mk, Other(role)));
  }

  lemma {:induction false} PrintedEndsWithAssistant(ms: seq<OpenAIMessage>)
    ensures exists i :: OccursAt(Printed(ms), ASSISTANT, i)
  {
    if ms == [] {
      OccursInItself(ASSISTANT);
      assert OccursAt(Printed(ms), ASSISTANT, 0);
    } else {
      PrintedEndsWithAssistant(ms[1..]);
      var i :| OccursAt(Printed(ms[1..]), ASSISTANT, i);
      var first := PrintedMessage(ms[0]);
      OccurrenceAfter(first, Printed(ms[1..]), ASSISTANT, i);
      assert Printed(ms) == first + Printed(ms[1..]);
    }
  }

  lemma {:induction false} PrintedConversationIsValid(ms: seq<OpenAIMessage>)
    requires ms != [] && Conversation(ms, User)
    ensures Validated(MARKERS, Printed(ms)).Ok? && HUMAN <= Printed(ms) && IndexOf(Printed(ms), HUMAN) == 0
  {
    PrintedUnnamedMessage(ms[0], User);
    PrintedEndsWithAssistant(ms);
    StartsWithHuman(MARKERS, Printed(ms));
  }

  lemma {:induction false} StartsWithHuman(mk: Markers, prompt: string)
    requires mk.human <= prompt && exists i :: OccursAt(prompt, mk.assistant, i)
    ensures Validated(mk, prompt).Ok? && IndexOf(prompt, mk.human) == 0
  {
    OccurrenceAtTheStart(prompt, mk.human);
  }

  lemma {:induction false} OccurrenceAtTheStart(text: string, part: string)
    requires part <= text
    ensures OccursAt(text, part, 0)
  {
  }

  lemma {:induction false} TransformedFromStart(mk: Markers, prompt: string)
    requires Fit(mk) && Validated(mk, prompt).Ok? && mk.human <= prompt && IndexOf(prompt, mk.human) == 0
    ensures Transformed(mk, prompt) == Ok(("", MessagesFrom(mk, prompt)))
  {
    assert prompt[0..] == prompt && prompt[..0] == "";
  }

  lemma {:induction false} SafeTurnsComeBack(mk: Markers, ms: seq<OpenAIMessage>)
    requires Fit(mk) && ms != [] && Conversation(ms, User) && AllSplitSafe(mk, ms, User)
    requires Alternating(TurnsOf(ms, User), User)
    ensures mk.human <= Join(mk, TurnsOf(ms, User))
    ensures MessagesFrom(mk, Join(mk, TurnsOf(ms, User))) == ExpectedMessages(ms, User)
  {
    SafeTurnsAreClean(mk, ms, User);
    SplitUndoesJoin(mk, TurnsOf(ms, User), User);
    TrimmingAnEmptyFinalMessage(ExpectedMessages(ms, User));
  }

  lemma {:induction false} TrimmingAnEmptyFinalMessage(es: seq<Message>)
    requires es != [] && es[|es| - 1] == Message(Assistant, "")
    ensures FinalTrimmed(es) == es
  {
  }

  lemma {:induction false} OnlySafeTurnsComeBack(mk: Markers, ms: seq<OpenAIMessage>, prompt: string)
    requires Fit(mk) && Conversation(ms, User) && mk.human <= prompt
    requires MessagesFrom(mk, prompt) == ExpectedMessages(ms, User)
    ensures AllSplitSafe(mk, ms, User)
  {
    SplitIsLosslessAndAlternates(mk, prompt, User);
    var turns := SplitFrom(mk, prompt, User);
    var es := ExpectedMessages(ms, User);
    forall i | 0 <= i < |ms| ensures MessageSafe(mk, ms[i], RoleAt(User, i)) {
      ExpectedContent(ms, User, i);
      assert Contents(turns)[i] == FinalTrimmed(Contents(turns))[i];
      AlternatingAt(turns, User, i);
      TrimmedCleanTextIsSafe(mk, turns[i].raw, turns[i].role);
    }
    SafeIfEachIs(mk, ms, User);
  }

  /**
   * A printed conversation splits back into its own messages, plus an empty
   * assistant turn, exactly when no message starts with whitespace or contains
   * the other role's marker.
   */
  lemma {:induction false} PrintedConversationSplitsBackExactlyWhen(ms: seq<OpenAIMessage>)
    requires ms != [] && Conversation(ms, User)
    ensures Fit(MARKERS)
    ensures Transformed(MARKERS, Printed(ms)) == Ok(("", ExpectedMessages(ms, User))) <==> AllSplitSafe(MARKERS, ms, User)
  {
    MarkersFit();
    PrintedConversationIsValid(ms);
    PrintIsJoinOfTurns(ms, User);
    TransformedFromStart(MARKERS, Printed(ms));
    if AllSplitSafe(MARKERS, ms, User) {
      SafeTurnsComeBack(MARKERS, ms);
    }
    if MessagesFrom(MARKERS, Printed(ms)) == ExpectedMessages(ms, User) {
      OnlySafeTurnsComeBack(MARKERS, ms, Printed(ms));
    }
  }
}
