/** Mistral chat prompts: messages are merged until the roles are in the order the service accepts. */
module Mistral {
  import opened Sequences

  datatype Role = System | User | Assistant | Tool

  datatype Item = TextItem(text: string) | ImageItem(url: string)

  datatype Content = Plain(text: string) | Items(items: seq<Item>)

  datatype Message = Message(role: Role, content: Content, prefix: bool)

  /** An empty list has no last message: looking up its role throws a TypeError. */
  datatype Result = Fixed(messages: seq<Message>) | TypeError

  function MergedContent(last: Content, more: Content): Content {
    match (last, more)
    case (Plain(a), Plain(b)) => Plain(a + "\n\n" + b)
    case (Items(xs), Plain(b)) => Items(xs + [TextItem(b)])
    case (Plain(a), Items(ys)) => Items([TextItem(a)] + ys)
    case (Items(xs), Items(ys)) => Items(xs + ys)
  }

  /** Only the first message can be from the system. */
  function RoleAfter(role: Role): Role {
    if role == System then User else role
  }

  /** One step of the reduction. A merged message keeps the prefix flag of the message it extends. */
  function Folded(acc: seq<Message>, msg: Message): seq<Message> {
    if acc == [] then [msg]
    else
      var last, role := acc[|acc| - 1], RoleAfter(msg.role);
      if last.role == role then acc[|acc| - 1 := last.(content := MergedContent(last.content, msg.content))]
      else acc + [msg.(role := role)]
  }

  function Reduced(ms: seq<Message>): seq<Message> {
    if ms == [] then [] else Folded(Reduced(ms[..|ms| - 1]), ms[|ms| - 1])
  }

  /** A final assistant message is a prefix of the answer. */
  function Prefixed(ms: seq<Message>): seq<Message>
    requires ms != []
  {
    if ms[|ms| - 1].role == Assistant then ms[|ms| - 1 := ms[|ms| - 1].(prefix := true)] else ms
  }

  function FixedPrompt(ms: seq<Message>): Result {
    var reduced := Reduced(ms);
    if reduced == [] then TypeError else Fixed(Prefixed(reduced))
  }

  method FixMistralPrompt(messages: seq<Message>) returns (result: Result)
    ensures result == FixedPrompt(messages)
  {
    var acc: seq<Message> := [];
    for i := 0 to |messages|
      invariant acc == Reduced(messages[..i])
    {
      var msg := messages[i];
      assert messages[..i + 1][..i] == messages[..i];
      if |acc| == 0 {
        acc := [msg];
        continue;
      }
      var copy := if msg.role == System then msg.(role := User) else msg;
      var last := acc[|acc| - 1];
      if last.role == copy.role {
        acc := acc[|acc| - 1 := last.(content := MergedContent(last.content, copy.content))];
      } else {
        acc := acc + [copy];
      }
    }
    assert messages[..|messages|] == messages;
    if acc == [] {
      return TypeError;
    }
    if acc[|acc| - 1].role == Assistant {
      acc := acc[|acc| - 1 := acc[|acc| - 1].(prefix := true)];
    }
    result := Fixed(acc);
  }

  // ----- What the service asks for -----

  /** No neighbours from the same role, and the system only at the front. */
  ghost predicate InOrder(ms: seq<Message>) {
    && (forall i :: 0 < i < |ms| ==> ms[i].role != ms[i - 1].role)
    && (forall i :: 0 < i < |ms| ==> ms[i].role != System)
  }

  lemma {:induction false} ReducedIsInOrder(ms: seq<Message>)
    ensures InOrder(Reduced(ms)) && (ms != [] ==> Reduced(ms) != [])
  {
    if ms == [] {
    } else {
      ReducedIsInOrder(ms[..|ms| - 1]);
    }
  }

  // ----- What is kept -----

  function ItemTexts(items: seq<Item>): seq<string> {
    if items == [] then []
    else ItemTexts(items[..|items| - 1]) + (if items[|items| - 1].TextItem? then [items[|items| - 1].text] else [])
  }

  function ItemImages(items: seq<Item>): seq<string> {
    if items == [] then []
    else ItemImages(items[..|items| - 1]) + (if items[|items| - 1].ImageItem? then [items[|items| - 1].url] else [])
  }

  function ContentTexts(c: Content): seq<string> {
    if c.Plain? then [c.text] else ItemTexts(c.items)
  }

  function ContentImages(c: Content): seq<string> {
    if c.Plain? then [] else ItemImages(c.items)
  }

  /** The texts of the messages from the given roles. */
  function Texts(ms: seq<Message>, who: set<Role>): seq<string> {
    if ms == [] then []
    else Texts(ms[..|ms| - 1], who) + (if ms[|ms| - 1].role in who then ContentTexts(ms[|ms| - 1].content) else [])
  }

  function Images(ms: seq<Message>, who: set<Role>): seq<string> {
    if ms == [] then []
    else Images(ms[..|ms| - 1], who) + (if ms[|ms| - 1].role in who then ContentImages(ms[|ms| - 1].content) else [])
  }

  /** `join("\n\n")`. */
  function Joined(texts: seq<string>): string {
    if texts == [] then ""
    else if |texts| == 1 then texts[0]
    else Joined(texts[..|texts| - 1]) + "\n\n" + texts[|texts| - 1]
  }

  /** The text of a content for models without images. */
  function ContentToString(c: Content): string {
    Joined(ContentTexts(c))
  }

  lemma {:induction false} FourStrings(a: string, b: string, c: string, d: string)
    ensures ((a + b) + c) + d == a + ((b + c) + d)
  {
  }

  lemma {:induction false} JoinedSum(a: seq<string>, b: seq<string>)
    ensures Joined(a + b) == if a == [] then Joined(b) else if b == [] then Joined(a) else Joined(a) + "\n\n" + Joined(b)
    decreases |b|
  {
    if b == [] {
      SumIsAssociative(a, [], []);
    } else if a == [] {
      SumIsAssociative(b, [], []);
    } else {
      var init, last := b[..|b| - 1], b[|b| - 1];
      JoinedSum(a, init);
      assert (a + b)[..|a + b| - 1] == a + init;
      FourStrings(Joined(a) + "\n\n", Joined(init), "\n\n", last);
    }
  }

  /** Two lists of texts that join to the same text next to any others. */
  ghost predicate SameText(a: seq<string>, b: seq<string>) {
    Joined(a) == Joined(b) && (a == [] <==> b == [])
  }

  lemma {:induction false} SameTextSum(a: seq<string>, b: seq<string>, c: seq<string>, d: seq<string>)
    requires SameText(a, c) && SameText(b, d)
    ensures SameText(a + b, c + d)
  {
    JoinedSum(a, b);
    JoinedSum(c, d);
  }

  lemma {:induction false} TextsOfSum(xs: seq<Item>, ys: seq<Item>)
    ensures ItemTexts(xs + ys) == ItemTexts(xs) + ItemTexts(ys)
    decreases |ys|
  {
    if ys == [] {
      SumIsAssociative(xs, [], []);
      SumIsAssociative(ItemTexts(xs), [], []);
    } else {
      var last := ys[|ys| - 1];
      TextsOfSum(xs, ys[..|ys| - 1]);
      assert (xs + ys)[..|xs + ys| - 1] == xs + ys[..|ys| - 1];
      SumIsAssociative(ItemTexts(xs), ItemTexts(ys[..|ys| - 1]), if last.TextItem? then [last.text] else []);
    }
  }

  lemma {:induction false} ImagesOfSum(xs: seq<Item>, ys: seq<Item>)
    ensures ItemImages(xs + ys) == ItemImages(xs) + ItemImages(ys)
    decreases |ys|
  {
    if ys == [] {
      SumIsAssociative(xs, [], []);
      SumIsAssociative(ItemImages(xs), [], []);
    } else {
      var last := ys[|ys| - 1];
      ImagesOfSum(xs, ys[..|ys| - 1]);
      assert (xs + ys)[..|xs + ys| - 1] == xs + ys[..|ys| - 1];
      SumIsAssociative(ItemImages(xs), ItemImages(ys[..|ys| - 1]), if last.ImageItem? then [last.url] else []);
    }
  }

  lemma {:induction false} ItemsOfSum(xs: seq<Item>, ys: seq<Item>)
    ensures ItemTexts(xs + ys) == ItemTexts(xs) + ItemTexts(ys)
    ensures ItemImages(xs + ys) == ItemImages(xs) + ItemImages(ys)
  {
    TextsOfSum(xs, ys);
    ImagesOfSum(xs, ys);
  }

  lemma {:induction false} OneText(text: string)
    ensures ItemTexts([TextItem(text)]) == [text] && ItemImages([TextItem(text)]) == []
  {
    assert [TextItem(text)][..0] == [];
  }

  /** Images alone read as an empty text, and none of them is lost. */
  lemma {:induction false} ImagesAloneSayNothing(urls: seq<string>, items: seq<Item>)
    requires |items| == |urls| && forall i :: 0 <= i < |urls| ==> items[i] == ImageItem(urls[i])
    ensures ContentImages(Items(items)) == urls && ContentToString(Items(items)) == ""
  {
    if urls == [] {
    } else {
      var n := |urls| - 1;
      ImagesAloneSayNothing(urls[..n], items[..n]);
      assert urls == urls[..n] + [urls[n]];
      assert ContentTexts(Items(items)) == ItemTexts(items[..n]);
    }
  }

  lemma {:induction false} MergedContentKeepsBoth(a: Content, b: Content)
    ensures SameText(ContentTexts(MergedContent(a, b)), ContentTexts(a) + ContentTexts(b))
    ensures ContentImages(MergedContent(a, b)) == ContentImages(a) + ContentImages(b)
  {
    match (a, b)
    case (Plain(x), Plain(y)) =>
      JoinedSum([x], [y]);
    case (Items(xs), Plain(y)) =>
      ItemsOfSum(xs, [TextItem(y)]);
      OneText(y);
    case (Plain(x), Items(ys)) =>
      ItemsOfSum([TextItem(x)], ys);
      OneText(x);
    case (Items(xs), Items(ys)) =>
      ItemsOfSum(xs, ys);
  }

  /** The messages with the roles they end up under. */
  function Relabelled(ms: seq<Message>): (rs: seq<Message>)
    ensures |rs| == |ms|
  {
    seq(|ms|, i requires 0 <= i < |ms| => if i == 0 then ms[0] else ms[i].(role := RoleAfter(ms[i].role)))
  }

  ghost predicate KeepsWhatIsSaid(from: seq<Message>, to: seq<Message>, who: set<Role>) {
    SameText(Texts(to, who), Texts(from, who)) && Images(to, who) == Images(from, who)
  }

  lemma {:induction false} AppendingSays(said: seq<Message>, m: Message, who: set<Role>)
    ensures Texts(said + [m], who) == Texts(said, who) + (if m.role in who then ContentTexts(m.content) else [])
    ensures Images(said + [m], who) == Images(said, who) + (if m.role in who then ContentImages(m.content) else [])
  {
    assert (said + [m])[..|said + [m]| - 1] == said;
  }

  lemma {:induction false} MergingKeepsWhatIsSaid(acc: seq<Message>, m: Message, who: set<Role>)
    requires acc != [] && acc[|acc| - 1].role == m.role
    ensures KeepsWhatIsSaid(acc + [m], acc[|acc| - 1 := acc[|acc| - 1].(content := MergedContent(acc[|acc| - 1].content, m.content))], who)
  {
    var last, init := acc[|acc| - 1], acc[..|acc| - 1];
    var merged := last.(content := MergedContent(last.content, m.content));
    assert acc[|acc| - 1 := merged] == init + [merged] && acc == init + [last];
    AppendingSays(init, merged, who);
    AppendingSays(init, last, who);
    AppendingSays(acc, m, who);
    SumIsAssociative(Texts(init, who), ContentTexts(last.content), ContentTexts(m.content));
    SumIsAssociative(Images(init, who), ContentImages(last.content), ContentImages(m.content));
    if m.role in who {
      MergedContentKeepsBoth(last.content, m.content);
      SameTextSum(Texts(init, who), ContentTexts(merged.content), Texts(init, who), ContentTexts(last.content) + ContentTexts(m.content));
    }
  }

  lemma {:induction false} FoldingKeepsWhatIsSaid(said: seq<Message>, acc: seq<Message>, msg: Message, who: set<Role>)
    requires acc != [] && KeepsWhatIsSaid(said, acc, who)
    ensures KeepsWhatIsSaid(said + [msg.(role := RoleAfter(msg.role))], Folded(acc, msg), who)
  {
    var m := msg.(role := RoleAfter(msg.role));
    var mine := if m.role in who then ContentTexts(m.content) else [];
    AppendingSays(said, m, who);
    AppendingSays(acc, m, who);
    SameTextSum(Texts(acc, who), mine, Texts(said, who), mine);
    if acc[|acc| - 1].role == m.role {
      MergingKeepsWhatIsSaid(acc, m, who);
    }
  }

  /** For a model without images, a merged message reads as the two did, one after the other. */
  lemma {:induction false} MergedContentReadsAsBoth(a: Content, b: Content)
    ensures ContentToString(MergedContent(a, b)) ==
              if ContentTexts(a) == [] then ContentToString(b)
              else if ContentTexts(b) == [] then ContentToString(a)
              else ContentToString(a) + "\n\n" + ContentToString(b)
  {
    MergedContentKeepsBoth(a, b);
    JoinedSum(ContentTexts(a), ContentTexts(b));
  }

  lemma {:induction false} ReducedKeepsWhatIsSaid(ms: seq<Message>, who: set<Role>)
    ensures KeepsWhatIsSaid(Relabelled(ms), Reduced(ms), who)
  {
    if |ms| == 1 {
      assert Relabelled(ms) == ms && Reduced(ms) == [ms[0]] == ms;
    } else if |ms| > 1 {
      var init, last := ms[..|ms| - 1], ms[|ms| - 1];
      ReducedKeepsWhatIsSaid(init, who);
      ReducedIsInOrder(init);
      FoldingKeepsWhatIsSaid(Relabelled(init), Reduced(init), last, who);
      assert Relabelled(ms) == Relabelled(init) + [last.(role := RoleAfter(last.role))];
    }
  }

  lemma {:induction false} SameContents(from: seq<Message>, to: seq<Message>, who: set<Role>)
    requires |from| == |to|
    requires forall i :: 0 <= i < |from| ==> from[i].role == to[i].role && from[i].content == to[i].content
    ensures Texts(from, who) == Texts(to, who) && Images(from, who) == Images(to, who)
    decreases |from|
  {
    if from == [] {
    } else {
      SameContents(from[..|from| - 1], to[..|to| - 1], who);
    }
  }

  // ----- The flag that marks an unfinished answer -----

  /** What the request schema lets through: a prefix is the last message, from the assistant. */
  ghost predicate PrefixOnlyAtTheEnd(ms: seq<Message>) {
    forall i :: 0 <= i < |ms| && ms[i].prefix ==> i == |ms| - 1 && ms[i].role == Assistant
  }

  lemma {:induction false} ReducingAddsNoPrefix(ms: seq<Message>)
    requires forall i :: 0 <= i < |ms| ==> !ms[i].prefix
    ensures forall i :: 0 <= i < |Reduced(ms)| ==> !Reduced(ms)[i].prefix
  {
    if ms == [] {
    } else {
      ReducingAddsNoPrefix(ms[..|ms| - 1]);
    }
  }

  lemma {:induction false} FixedPromptIsInOrder(ms: seq<Message>)
    requires ms != []
    ensures FixedPrompt(ms).Fixed? && InOrder(FixedPrompt(ms).messages)
  {
    ReducedIsInOrder(ms);
  }

  lemma {:induction false} FixedPromptKeepsWhatIsSaid(ms: seq<Message>, who: set<Role>)
    requires ms != []
    ensures FixedPrompt(ms).Fixed? && KeepsWhatIsSaid(Relabelled(ms), FixedPrompt(ms).messages, who)
  {
    ReducedIsInOrder(ms);
    ReducedKeepsWhatIsSaid(ms, who);
    SameContents(Reduced(ms), Prefixed(Reduced(ms)), who);
  }

  lemma {:induction false} PrefixStandsOnAFinalAnswer(ms: seq<Message>)
    requires ms != [] && PrefixOnlyAtTheEnd(ms)
    ensures FixedPrompt(ms).Fixed?
    ensures var out := FixedPrompt(ms).messages;
            forall i :: 0 <= i < |out| ==> (out[i].prefix <==> i == |out| - 1 && out[i].role == Assistant)
  {
    ReducedIsInOrder(ms);
    ReducingAddsNoPrefix(ms[..|ms| - 1]);
  }

  /**
   * For every list the schema lets through, the roles come out in order, a prefix flag stands
   * exactly on a final assistant message, and for any choice of roles the joined text and the
   * images they said are kept, later system messages counting as the user's.
   */
  lemma {:induction false} FixedPromptIsAcceptableAndKeepsEverything(ms: seq<Message>, who: set<Role>)
    ensures FixedPrompt(ms).TypeError? <==> ms == []
    ensures FixedPrompt(ms).Fixed? ==> InOrder(FixedPrompt(ms).messages) && KeepsWhatIsSaid(Relabelled(ms), FixedPrompt(ms).messages, who)
    ensures FixedPrompt(ms).Fixed? && PrefixOnlyAtTheEnd(ms) ==> var out := FixedPrompt(ms).messages;
              forall i :: 0 <= i < |out| ==> (out[i].prefix <==> i == |out| - 1 && out[i].role == Assistant)
  {
    if ms != [] {
      FixedPromptIsInOrder(ms);
      FixedPromptKeepsWhatIsSaid(ms, who);
      if PrefixOnlyAtTheEnd(ms) {
        PrefixStandsOnAFinalAnswer(ms);
      }
    }
  }

  lemma {:induction false} OrderedIsNotReduced(ms: seq<Message>)
    requires InOrder(ms)
    ensures Reduced(ms) == ms
  {
    if ms == [] {
    } else {
      OrderedIsNotReduced(ms[..|ms| - 1]);
    }
  }

  /** The fix-up leaves alone exactly the prompts that are already in order and marked. */
  lemma {:induction false} FixedPromptIsUnchangedExactlyWhen(ms: seq<Message>)
    ensures FixedPrompt(ms) == Fixed(ms) <==>
              ms != [] && InOrder(ms) && (ms[|ms| - 1].role == Assistant ==> ms[|ms| - 1].prefix)
  {
    ReducedIsInOrder(ms);
    if InOrder(ms) {
      OrderedIsNotReduced(ms);
    }
    if ms != [] && FixedPrompt(ms) == Fixed(ms) {
      assert InOrder(Prefixed(Reduced(ms)));
    }
  }

  /** Fixing twice is fixing once. */
  lemma {:induction false} FixedPromptIsIdempotent(ms: seq<Message>)
    requires FixedPrompt(ms).Fixed?
    ensures FixedPrompt(FixedPrompt(ms).messages) == FixedPrompt(ms)
  {
    ReducedIsInOrder(ms);
    FixedPromptIsUnchangedExactlyWhen(FixedPrompt(ms).messages);
  }
}
