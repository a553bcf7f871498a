/** Which messages a fixed prompt merges into one, and what that one says. */
module MistralGroups {
  import opened Mistral

  /** Messages from the system count as the user's unless they come first. */
  ghost function FinalRole(ms: seq<Message>, i: nat): Role
    requires i < |ms|
  {
    if i > 0 && ms[i].role == System then User else ms[i].role
  }

  ghost predicate AllPlain(ms: seq<Message>) {
    forall i :: 0 <= i < |ms| ==> ms[i].content.Plain?
  }

  ghost function PlainTexts(ms: seq<Message>): (texts: seq<string>)
    requires AllPlain(ms)
    ensures |texts| == |ms| && forall i :: 0 <= i < |ms| ==> texts[i] == ms[i].content.text
  {
    seq(|ms|, i requires 0 <= i < |ms| => ms[i].content.text)
  }

  /** The items of the messages, a plain text being one. */
  ghost function Pieces(ms: seq<Message>): seq<Item> {
    if ms == [] then []
    else
      var last := ms[|ms| - 1].content;
      Pieces(ms[..|ms| - 1]) + (if last.Plain? then [TextItem(last.text)] else last.items)
  }

  /**
   * The first `p` of the messages are plain and no more are: their texts are joined with blank lines, and if a list
   * of items follows, the joined text is its first item and all that comes later is appended.
   */
  ghost predicate Gathers(ms: seq<Message>, p: nat, content: Content) {
    && p <= |ms| && AllPlain(ms[..p]) && (p < |ms| ==> ms[p].content.Items?)
    && content == if p == |ms| then Plain(Joined(PlainTexts(ms[..p])))
                  else Items((if p == 0 then [] else [TextItem(Joined(PlainTexts(ms[..p])))]) + Pieces(ms[p..]))
  }

  lemma {:induction false} OneIsGathered(m: Message) returns (p: nat)
    ensures Gathers([m], p, m.content)
  {
    assert [m][..1] == [m] && [m][0..] == [m];
    if m.content.Plain? {
      p := 1;
      assert PlainTexts([m]) == [m.content.text];
    } else {
      p := 0;
      assert [m][..0] == [];
      assert Pieces([m]) == Pieces([]) + m.content.items == m.content.items;
    }
  }

  lemma {:induction false} JoinedOneMore(texts: seq<string>, text: string)
    requires texts != []
    ensures Joined(texts + [text]) == Joined(texts) + "\n\n" + text
  {
    assert (texts + [text])[..|texts + [text]| - 1] == texts;
  }

  lemma {:induction false} PlainTextsOneMore(ms: seq<Message>, m: Message)
    requires AllPlain(ms) && m.content.Plain?
    ensures AllPlain(ms + [m]) && PlainTexts(ms + [m]) == PlainTexts(ms) + [m.content.text]
  {
    assert forall i :: 0 <= i < |ms| ==> (ms + [m])[i] == ms[i];
  }

  lemma {:induction false} PiecesOneMore(ms: seq<Message>, m: Message)
    ensures Pieces(ms + [m]) == Pieces(ms) + (if m.content.Plain? then [TextItem(m.content.text)] else m.content.items)
  {
    assert (ms + [m])[..|ms + [m]| - 1] == ms;
  }

  /** One more plain text after nothing but plain texts. */
  lemma {:induction false} GatherPlain(ms: seq<Message>, m: Message, content: Content)
    requires ms != [] && Gathers(ms, |ms|, content) && m.content.Plain?
    ensures Gathers(ms + [m], |ms| + 1, MergedContent(content, m.content))
  {
    assert ms[..|ms|] == ms && (ms + [m])[..|ms| + 1] == ms + [m];
    PlainTextsOneMore(ms, m);
    JoinedOneMore(PlainTexts(ms), m.content.text);
  }

  /** The first list of items. */
  lemma {:induction false} GatherItems(ms: seq<Message>, m: Message, content: Content)
    requires ms != [] && Gathers(ms, |ms|, content) && m.content.Items?
    ensures Gathers(ms + [m], |ms|, MergedContent(content, m.content))
  {
    assert ms[..|ms|] == ms && (ms + [m])[..|ms|] == ms && (ms + [m])[|ms|..] == [] + [m];
    PiecesOneMore([], m);
    assert Pieces([m]) == m.content.items;
  }

  lemma {:induction false} Appended(a: seq<Item>, b: seq<Item>, c: seq<Item>)
    ensures (a + b) + c == a + (b + c)
  {
  }

  /** Anything after a list of items. */
  lemma {:induction false} GatherMore(ms: seq<Message>, p: nat, m: Message, content: Content)
    requires p < |ms| && Gathers(ms, p, content)
    ensures Gathers(ms + [m], p, MergedContent(content, m.content))
  {
    assert (ms + [m])[..p] == ms[..p] && (ms + [m])[p..] == ms[p..] + [m];
    PiecesOneMore(ms[p..], m);
    Appended(if p == 0 then [] else [TextItem(Joined(PlainTexts(ms[..p])))], Pieces(ms[p..]),
             if m.content.Plain? then [TextItem(m.content.text)] else m.content.items);
  }

  lemma {:induction false} OneMoreIsGathered(ms: seq<Message>, p: nat, m: Message, content: Content) returns (q: nat)
    requires ms != [] && Gathers(ms, p, content)
    ensures Gathers(ms + [m], q, MergedContent(content, m.content))
  {
    q := p;
    if p < |ms| {
      GatherMore(ms, p, m, content);
    } else if m.content.Plain? {
      GatherPlain(ms, m, content);
      q := p + 1;
    } else {
      GatherItems(ms, m, content);
    }
  }

  // ----- Groups -----

  /** `m` is what becomes of the messages from `lo` up to `hi`: their role, and all that they say. */
  ghost predicate IsGroup(ms: seq<Message>, lo: nat, hi: nat, m: Message) {
    && lo < hi <= |ms| && m.prefix == ms[lo].prefix
    && (forall i :: lo <= i < hi ==> FinalRole(ms, i) == m.role)
    && exists p :: Gathers(ms[lo..hi], p, m.content)
  }

  /** `out` takes the messages group by group, in order; `starts` are where the groups begin. */
  ghost predicate AreGroups(ms: seq<Message>, starts: seq<nat>, out: seq<Message>) {
    && |starts| == |out| + 1 && starts[0] == 0 && starts[|out|] == |ms|
    && forall k :: 0 <= k < |out| ==> IsGroup(ms, starts[k], starts[k + 1], out[k])
  }

  lemma {:induction false} GroupInLonger(ms: seq<Message>, m: Message, lo: nat, hi: nat, group: Message)
    requires IsGroup(ms, lo, hi, group)
    ensures IsGroup(ms + [m], lo, hi, group)
  {
    assert (ms + [m])[lo..hi] == ms[lo..hi];
    forall i | lo <= i < hi ensures FinalRole(ms + [m], i) == group.role {
      assert FinalRole(ms, i) == group.role;
    }
  }

  lemma {:induction false} GatheredInLonger(ms: seq<Message>, m: Message, lo: nat, content: Content)
    requires lo < |ms| && exists p :: Gathers(ms[lo..], p, content)
    ensures exists p :: Gathers((ms + [m])[lo..], p, MergedContent(content, m.content))
  {
    var p :| Gathers(ms[lo..], p, content);
    var q := OneMoreIsGathered(ms[lo..], p, m, content);
    assert (ms + [m])[lo..] == ms[lo..] + [m];
  }

  lemma {:induction false} GroupGrows(ms: seq<Message>, m: Message, lo: nat, group: Message)
    requires IsGroup(ms, lo, |ms|, group) && RoleAfter(m.role) == group.role
    ensures IsGroup(ms + [m], lo, |ms| + 1, group.(content := MergedContent(group.content, m.content)))
  {
    assert ms[lo..|ms|] == ms[lo..] && (ms + [m])[lo..|ms| + 1] == (ms + [m])[lo..];
    GatheredInLonger(ms, m, lo, group.content);
    forall i | lo <= i < |ms| + 1 ensures FinalRole(ms + [m], i) == group.role {
      assert i < |ms| ==> FinalRole(ms, i) == group.role;
    }
  }

  lemma {:induction false} GroupOfOne(ms: seq<Message>, m: Message)
    ensures IsGroup(ms + [m], |ms|, |ms| + 1, if ms == [] then m else m.(role := RoleAfter(m.role)))
  {
    var p := OneIsGathered(m);
    assert (ms + [m])[|ms|..|ms| + 1] == [m];
  }

  lemma {:induction false} GroupsInLonger(ms: seq<Message>, m: Message, starts: seq<nat>, out: seq<Message>, n: nat)
    requires AreGroups(ms, starts, out) && n <= |out|
    ensures forall k :: 0 <= k < n ==> IsGroup(ms + [m], starts[k], starts[k + 1], out[k])
  {
    forall k | 0 <= k < n ensures IsGroup(ms + [m], starts[k], starts[k + 1], out[k]) {
      GroupInLonger(ms, m, starts[k], starts[k + 1], out[k]);
    }
  }

  lemma {:induction false} LastGroupGrows(ms: seq<Message>, m: Message, starts: seq<nat>, out: seq<Message>, grown: Message)
    requires AreGroups(ms, starts, out) && out != [] && out[|out| - 1].role == RoleAfter(m.role)
    requires grown == out[|out| - 1].(content := MergedContent(out[|out| - 1].content, m.content))
    ensures AreGroups(ms + [m], starts[|out| := |ms| + 1], out[|out| - 1 := grown])
  {
    var n := |out| - 1;
    GroupsInLonger(ms, m, starts, out, n);
    GroupGrows(ms, m, starts[n], out[n]);
  }

  lemma {:induction false} OneMoreGroup(ms: seq<Message>, m: Message, starts: seq<nat>, out: seq<Message>, group: Message)
    requires AreGroups(ms, starts, out) && group == if ms == [] then m else m.(role := RoleAfter(m.role))
    ensures AreGroups(ms + [m], starts + [|ms| + 1], out + [group])
  {
    var n, next := |out|, starts + [|ms| + 1];
    GroupsInLonger(ms, m, starts, out, n);
    GroupOfOne(ms, m);
    assert forall k :: 0 <= k <= n ==> next[k] == starts[k];
  }

  lemma {:induction false} FoldingGroups(ms: seq<Message>, m: Message, starts: seq<nat>, out: seq<Message>) returns (next: seq<nat>)
    requires AreGroups(ms, starts, out) && (out == [] <==> ms == [])
    ensures AreGroups(ms + [m], next, Folded(out, m))
  {
    if out != [] && out[|out| - 1].role == RoleAfter(m.role) {
      next := starts[|out| := |ms| + 1];
      LastGroupGrows(ms, m, starts, out, out[|out| - 1].(content := MergedContent(out[|out| - 1].content, m.content)));
    } else {
      next := starts + [|ms| + 1];
      OneMoreGroup(ms, m, starts, out, if ms == [] then m else m.(role := RoleAfter(m.role)));
      if out == [] {
        assert Folded(out, m) == [] + [m];
      }
    }
  }

  lemma {:induction false} ReducedGroups(ms: seq<Message>) returns (starts: seq<nat>)
    ensures AreGroups(ms, starts, Reduced(ms))
  {
    if ms == [] {
      starts := [0];
    } else {
      var front, last := ms[..|ms| - 1], ms[|ms| - 1];
      starts := ReducedGroups(front);
      ReducedIsInOrder(front);
      assert ms == front + [last];
      starts := FoldingGroups(front, last, starts, Reduced(front));
    }
  }

  /** But for the flag of a final answer, `out` is made of groups. */
  ghost predicate AreGroupsMarked(ms: seq<Message>, starts: seq<nat>, out: seq<Message>) {
    && |starts| == |out| + 1 && starts[0] == 0 && starts[|out|] == |ms|
    && forall k :: 0 <= k < |out| ==>
         && IsGroup(ms, starts[k], starts[k + 1], out[k].(prefix := starts[k] < |ms| && ms[starts[k]].prefix))
         && (out[k].prefix <==> (k == |out| - 1 && out[k].role == Assistant) || (starts[k] < |ms| && ms[starts[k]].prefix))
  }

  /**
   * A fixed prompt takes the messages group by group: the longest runs of one role, where later system messages count
   * as the user's. Each group says all that its messages say; the last one is marked if it is the assistant's.
   */
  lemma {:induction false} FixedPromptGroupsByRole(ms: seq<Message>) returns (starts: seq<nat>)
    requires ms != []
    ensures FixedPrompt(ms).Fixed? && AreGroupsMarked(ms, starts, FixedPrompt(ms).messages)
    ensures forall k :: 0 < k < |FixedPrompt(ms).messages| ==> FixedPrompt(ms).messages[k].role != FixedPrompt(ms).messages[k - 1].role
  {
    starts := ReducedGroups(ms);
    FixedPromptIsInOrder(ms);
    var reduced, out := Reduced(ms), FixedPrompt(ms).messages;
    ReducedIsInOrder(ms);
    forall k | 0 <= k < |out|
      ensures IsGroup(ms, starts[k], starts[k + 1], out[k].(prefix := starts[k] < |ms| && ms[starts[k]].prefix))
      ensures out[k].prefix <==> (k == |out| - 1 && out[k].role == Assistant) || (starts[k] < |ms| && ms[starts[k]].prefix)
    {
      assert IsGroup(ms, starts[k], starts[k + 1], reduced[k]);
      assert out[k].(prefix := reduced[k].prefix) == reduced[k];
    }
  }
}
