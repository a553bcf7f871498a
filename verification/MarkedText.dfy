/**
 * Splitting a text at two alternating markers. The markers are a parameter; all
 * that matters about them is stated in `Fit`.
 */
module MarkedText {
  import opened Text

  datatype Role = User | Assistant

  datatype Markers = Markers(human: string, assistant: string)

  /** A role marker with the text up to the next marker of the other role. */
  datatype Turn = Turn(role: Role, raw: string)

  function Marker(ms: Markers, role: Role): string {
    if role == User then ms.human else ms.assistant
  }

  function Other(role: Role): Role {
    if role == User then Assistant else User
  }

  /** A marker is two newlines and then none, and the two differ in the character after them. */
  ghost predicate Fit(ms: Markers) {
    && |ms.human| > 2 && |ms.assistant| > 2
    && ms.human[0] == '\n' && ms.human[1] == '\n'
    && ms.assistant[0] == '\n' && ms.assistant[1] == '\n'
    && (forall k :: 2 <= k < |ms.human| ==> ms.human[k] != '\n')
    && (forall k :: 2 <= k < |ms.assistant| ==> ms.assistant[k] != '\n')
    && ms.human[2] != ms.assistant[2]
  }

  /** No marker overlaps another, so the next opposite marker starts after this turn's own. */
  lemma {:induction false} MarkersDoNotOverlap(ms: Markers, role: Role, text: string, j: int)
    requires Fit(ms) && Marker(ms, role) <= text && OccursAt(text, Marker(ms, Other(role)), j)
    ensures j >= |Marker(ms, role)|
  {
    var m := Marker(ms, Other(role));
    OccurrenceAt(text, m, j, 0);
    OccurrenceAt(text, m, j, 1);
    OccurrenceAt(text, m, j, 2);
    assert forall k :: 0 <= k < |Marker(ms, role)| ==> text[k] == Marker(ms, role)[k];
  }

  function SplitFrom(ms: Markers, text: string, role: Role): (turns: seq<Turn>)
    requires Fit(ms) && Marker(ms, role) <= text
    ensures turns != []
    decreases |text|
  {
    var i := IndexOf(text, Marker(ms, Other(role)));
    if i == -1 then [Turn(role, text[|Marker(ms, role)|..])]
    else
      MarkersDoNotOverlap(ms, role, text, i);
      OccurrenceStartsSuffix(text, Marker(ms, Other(role)), i);
      [Turn(role, text[|Marker(ms, role)|..i])] + SplitFrom(ms, text[i..], Other(role))
  }

  lemma {:induction false} FirstTurn(ms: Markers, text: string, role: Role)
    requires Fit(ms) && Marker(ms, role) <= text
    ensures var n, i := |Marker(ms, role)|, IndexOf(text, Marker(ms, Other(role)));
            if i == -1 then SplitFrom(ms, text, role) == [Turn(role, text[n..])]
            else n <= i && Marker(ms, Other(role)) <= text[i..]
                 && SplitFrom(ms, text, role) == [Turn(role, text[n..i])] + SplitFrom(ms, text[i..], Other(role))
  {
    var i := IndexOf(text, Marker(ms, Other(role)));
    if i != -1 {
      MarkersDoNotOverlap(ms, role, text, i);
      OccurrenceStartsSuffix(text, Marker(ms, Other(role)), i);
    }
  }

  function Join(ms: Markers, turns: seq<Turn>): string {
    if turns == [] then "" else Marker(ms, turns[0].role) + turns[0].raw + Join(ms, turns[1..])
  }

  /** Roles take turns, beginning with `role`. */
  ghost predicate Alternating(turns: seq<Turn>, role: Role) {
    turns == [] || (turns[0].role == role && Alternating(turns[1..], Other(role)))
  }

  /** No turn hides a marker of the other role. */
  ghost predicate Clean(ms: Markers, turns: seq<Turn>) {
    forall i :: 0 <= i < |turns| ==> !Contains(turns[i].raw, Marker(ms, Other(turns[i].role)))
  }

  /** Nothing is lost, the roles strictly alternate, and no turn hides the other role's marker. */
  lemma {:induction false} SplitIsLosslessAndAlternates(ms: Markers, text: string, role: Role)
    requires Fit(ms) && Marker(ms, role) <= text
    ensures Join(ms, SplitFrom(ms, text, role)) == text
    ensures Alternating(SplitFrom(ms, text, role), role) && Clean(ms, SplitFrom(ms, text, role))
    decreases |text|
  {
    var n, m := |Marker(ms, role)|, Marker(ms, Other(role));
    var i := IndexOf(text, m);
    if i == -1 {
      PieceContainsLess(text, n, |text|, m);
      assert text[n..] == text[n..|text|];
      ThreePieces(text, Marker(ms, role), |text|);
      assert SplitFrom(ms, text, role)[1..] == [];
    } else {
      MarkersDoNotOverlap(ms, role, text, i);
      OccurrenceStartsSuffix(text, m, i);
      PieceContainsLess(text, n, i, m);
      SplitIsLosslessAndAlternates(ms, text[i..], Other(role));
      TurnBeforeSplit(ms, Turn(role, text[n..i]), SplitFrom(ms, text[i..], Other(role)));
      ThreePieces(text, Marker(ms, role), i);
    }
  }

  lemma {:induction false} ThreePieces(text: string, own: string, i: int)
    requires own <= text && |own| <= i <= |text|
    ensures text == own + text[|own|..i] + text[i..]
  {
  }

  lemma {:induction false} TurnBeforeSplit(ms: Markers, t: Turn, rest: seq<Turn>)
    ensures Join(ms, [t] + rest) == Marker(ms, t.role) + t.raw + Join(ms, rest)
    ensures Alternating(rest, Other(t.role)) ==> Alternating([t] + rest, t.role)
    ensures Clean(ms, rest) && !Contains(t.raw, Marker(ms, Other(t.role))) ==> Clean(ms, [t] + rest)
  {
    assert ([t] + rest)[1..] == rest;
  }

  /** Two newlines cannot straddle a boundary after which a marker starts. */
  lemma {:induction false} MarkerCannotStraddle(ms: Markers, role: Role, text: string, j: int, b: int)
    requires Fit(ms) && OccursAt(text, Marker(ms, role), j) && OccursAt(text, Marker(ms, role), b)
    requires j < b
    ensures j + |Marker(ms, role)| <= b
  {
    var m := Marker(ms, role);
    OccurrenceAt(text, m, b, 0);
    OccurrenceAt(text, m, b, 1);
    if b - j < |m| {
      OccurrenceAt(text, m, j, b - j);
    }
    if b + 1 - j < |m| {
      OccurrenceAt(text, m, j, b + 1 - j);
    }
  }

  lemma {:induction false} NextMarkerIsAtTheBoundary(ms: Markers, role: Role, raw: string, rest: string)
    requires Fit(ms) && !Contains(raw, Marker(ms, Other(role))) && (rest == "" || Marker(ms, Other(role)) <= rest)
    ensures IndexOf(Marker(ms, role) + raw + rest, Marker(ms, Other(role))) == if rest == "" then -1 else |Marker(ms, role)| + |raw|
  {
    var m, text := Marker(ms, Other(role)), Marker(ms, role) + raw + rest;
    var b := |Marker(ms, role)| + |raw|;
    if rest != "" {
      OccursBehind(Marker(ms, role) + raw, rest, m);
    }
    var j := IndexOf(text, m);
    if j != -1 {
      NoMarkerBeforeTheBoundary(ms, role, raw, rest, j);
    }
  }

  lemma {:induction false} OccursBehind(front: string, rest: string, m: string)
    requires m <= rest
    ensures OccursAt(front + rest, m, |front|)
  {
    assert (front + rest)[|front|..|front| + |m|] == rest[..|m|];
  }

  lemma {:induction false} NoMarkerBeforeTheBoundary(ms: Markers, role: Role, raw: string, rest: string, j: int)
    requires Fit(ms) && !Contains(raw, Marker(ms, Other(role))) && (rest == "" || Marker(ms, Other(role)) <= rest)
    requires OccursAt(Marker(ms, role) + raw + rest, Marker(ms, Other(role)), j)
    ensures rest != "" && j >= |Marker(ms, role)| + |raw|
  {
    var n, m, text := |Marker(ms, role)|, Marker(ms, Other(role)), Marker(ms, role) + raw + rest;
    var b := n + |raw|;
    MarkersDoNotOverlap(ms, role, text, j);
    if j < b && rest != "" {
      OccursBehind(Marker(ms, role) + raw, rest, m);
      MarkerCannotStraddle(ms, Other(role), text, j, b);
    }
    if j + |m| <= b {
      PiecesOfText(Marker(ms, role), raw, rest);
      OccurrenceInsidePiece(text, n, b, m, j);
      assert false;
    }
  }

  lemma {:induction false} PiecesOfText(marker: string, raw: string, tail: string)
    ensures var text := marker + raw + tail;
            && text[|marker|..|marker| + |raw|] == raw && text[|marker| + |raw|..] == tail
            && (tail == "" ==> text[|marker|..] == raw)
  {
  }

  /** The splitter undoes the join of every alternating list of turns that hide no opposite marker. */
  lemma {:induction false} SplitUndoesJoin(ms: Markers, turns: seq<Turn>, role: Role)
    requires Fit(ms) && turns != [] && Alternating(turns, role) && Clean(ms, turns)
    ensures Marker(ms, role) <= Join(ms, turns)
    ensures SplitFrom(ms, Join(ms, turns), role) == turns
    decreases turns
  {
    var rest, raw := turns[1..], turns[0].raw;
    var tail := Join(ms, rest);
    var text := Marker(ms, role) + raw + tail;
    assert Join(ms, turns) == text;
    assert turns == [turns[0]] + rest;
    if rest != [] {
      assert Clean(ms, rest);
      SplitUndoesJoin(ms, rest, Other(role));
      assert tail != "";
    }
    NextMarkerIsAtTheBoundary(ms, role, raw, tail);
    PiecesOfText(Marker(ms, role), raw, tail);
  }
}

