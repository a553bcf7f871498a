/**
 * Fingerprints of the cacheable part of a request body: the parts in order, each
 * hashed to eight characters, joined up to the last cache breakpoint.
 */
module Fingerprints {
  import opened Options
  import opened Sequences

  const TTL_5_MINUTES := 5 * 60 * 1000
  const TTL_1_HOUR := 60 * 60 * 1000
  const HASH_WIDTH := 8

  /** A cache_control marker; only "1h" asks for the long lifetime. */
  datatype Mark = Unmarked | Marked(ttl: Option<string>)

  /** `stable` stands for the fields of a block or tool that enter its hash. */
  datatype Block = Block(kind: string, stable: string, mark: Mark)

  datatype System = NoSystem | SystemText(text: string) | SystemBlocks(blocks: seq<Block>)

  datatype Message = TextMessage(role: string, text: string) | BlockMessage(role: string, blocks: seq<Block>)

  datatype Body = Body(tools: seq<Block>, system: System, messages: seq<Message>)

  datatype Part =
    | ToolPart(stable: string)
    | SystemPart(kind: string, stable: string)
    | MessagePart(role: string, text: string)
    | MessageBlockPart(role: string, kind: string, stable: string)

  datatype Item = Item(part: Part, mark: Mark)

  type Hash = Part -> string

  ghost predicate FixedWidth(hash: Hash) {
    forall p :: |hash(p)| == HASH_WIDTH
  }

  function ParseTtl(ttl: Option<string>): int {
    if ttl == Some("1h") then TTL_1_HOUR else TTL_5_MINUTES
  }

  // ----- The parts of a body -----

  function ToolItems(tools: seq<Block>): seq<Item> {
    if tools == [] then []
    else ToolItems(tools[..|tools| - 1]) + [Item(ToolPart(tools[|tools| - 1].stable), tools[|tools| - 1].mark)]
  }

  function SystemBlockItems(blocks: seq<Block>): seq<Item> {
    if blocks == [] then []
    else
      var b := blocks[|blocks| - 1];
      SystemBlockItems(blocks[..|blocks| - 1]) + [Item(SystemPart(b.kind, b.stable), b.mark)]
  }

  function SystemItems(system: System): seq<Item> {
    match system
    case NoSystem => []
    case SystemText(text) => if text == "" then [] else [Item(SystemPart("text", text), Unmarked)]
    case SystemBlocks(blocks) => SystemBlockItems(blocks)
  }

  function MessageBlockItems(role: string, blocks: seq<Block>): seq<Item> {
    if blocks == [] then []
    else
      var b := blocks[|blocks| - 1];
      MessageBlockItems(role, blocks[..|blocks| - 1]) + [Item(MessageBlockPart(role, b.kind, b.stable), b.mark)]
  }

  function MessageItems(m: Message): seq<Item> {
    match m
    case TextMessage(role, text) => [Item(MessagePart(role, text), Unmarked)]
    case BlockMessage(role, blocks) => MessageBlockItems(role, blocks)
  }

  function MessagesItems(messages: seq<Message>): seq<Item> {
    if messages == [] then []
    else MessagesItems(messages[..|messages| - 1]) + MessageItems(messages[|messages| - 1])
  }

  function Items(body: Body): seq<Item> {
    ToolItems(body.tools) + SystemItems(body.system) + MessagesItems(body.messages)
  }

  // ----- Fingerprints -----

  function Join(hashes: seq<string>): string {
    if hashes == [] then "" else Join(hashes[..|hashes| - 1]) + hashes[|hashes| - 1]
  }

  function Hashes(items: seq<Item>, hash: Hash): (hs: seq<string>)
    ensures |hs| == |items|
    ensures forall i :: 0 <= i < |items| ==> hs[i] == hash(items[i].part)
  {
    if items == [] then [] else Hashes(items[..|items| - 1], hash) + [hash(items[|items| - 1].part)]
  }

  /** One fingerprint for each breakpoint, shallowest first. */
  function PrefixFingerprints(items: seq<Item>, hash: Hash): seq<string> {
    if items == [] then []
    else
      PrefixFingerprints(items[..|items| - 1], hash)
      + if items[|items| - 1].mark.Marked? then [Join(Hashes(items, hash))] else []
  }

  function MaxTtl(items: seq<Item>): int {
    if items == [] then 0
    else
      var rest := MaxTtl(items[..|items| - 1]);
      match items[|items| - 1].mark
      case Unmarked => rest
      case Marked(ttl) => if rest < ParseTtl(ttl) then ParseTtl(ttl) else rest
  }

  function Fingerprint(items: seq<Item>, hash: Hash): Option<string> {
    var fps := PrefixFingerprints(items, hash);
    if fps == [] then None else Some(fps[|fps| - 1])
  }

  // ----- String prefix stands for list prefix -----

  ghost predicate AllWide(hashes: seq<string>) {
    forall i :: 0 <= i < |hashes| ==> |hashes[i]| == HASH_WIDTH
  }

  lemma {:induction false} JoinOfSum(a: seq<string>, b: seq<string>)
    ensures Join(a + b) == Join(a) + Join(b)
  {
    if b == [] {
      assert a + b == a;
    } else {
      var front := b[..|b| - 1];
      JoinOfSum(a, front);
      assert (a + b)[..|a + b| - 1] == a + front;
    }
  }

  lemma {:induction false} JoinedLength(hashes: seq<string>)
    requires AllWide(hashes)
    ensures |Join(hashes)| == HASH_WIDTH * |hashes|
  {
    if hashes == [] {
    } else {
      JoinedLength(hashes[..|hashes| - 1]);
    }
  }

  lemma {:induction false} SameSumSameParts(a: string, x: string, c: string, y: string)
    requires |a| == |c| && a + x == c + y
    ensures a == c && x == y
  {
    assert a == (a + x)[..|a|] && x == (a + x)[|a|..];
    assert c == (c + y)[..|c|] && y == (c + y)[|c|..];
  }

  lemma {:induction false} SameJoinSameList(a: seq<string>, b: seq<string>)
    requires AllWide(a) && AllWide(b) && |a| == |b| && Join(a) == Join(b)
    ensures a == b
  {
    if a == [] {
    } else {
      var n := |a| - 1;
      JoinedLength(a[..n]);
      JoinedLength(b[..n]);
      SameSumSameParts(Join(a[..n]), a[n], Join(b[..n]), b[n]);
      SameJoinSameList(a[..n], b[..n]);
      assert a == a[..n] + [a[n]] && b == b[..n] + [b[n]];
    }
  }

  lemma {:induction false} PrefixesOfTheSameLength(a: string, b: string, rest: string)
    requires |a| == |b| && a <= b + rest
    ensures a == b
  {
    assert a == (b + rest)[..|a|];
  }

  /** Because every hash has the same width, one joined string starts with another exactly when the lists do. */
  lemma {:induction false} StringPrefixIsListPrefix(a: seq<string>, b: seq<string>)
    requires AllWide(a) && AllWide(b)
    ensures Join(a) <= Join(b) <==> a <= b
  {
    if a <= b {
      JoinOfSum(a, b[|a|..]);
      assert b == a + b[|a|..];
    }
    if Join(a) <= Join(b) {
      ListPrefixOfJoined(a, b);
    }
  }

  lemma {:induction false} ListPrefixOfJoined(a: seq<string>, b: seq<string>)
    requires AllWide(a) && AllWide(b) && Join(a) <= Join(b)
    ensures a <= b
  {
    JoinedLength(a);
    JoinedLength(b);
    var front := b[..|a|];
    assert b == front + b[|a|..];
    JoinOfSum(front, b[|a|..]);
    JoinedLength(front);
    PrefixesOfTheSameLength(Join(a), Join(front), Join(b[|a|..]));
    SameJoinSameList(a, front);
  }

  // ----- Growing bodies -----

  ghost predicate NoMarks(items: seq<Item>) {
    forall i :: 0 <= i < |items| ==> items[i].mark.Unmarked?
  }

  lemma {:induction false} HashesOfPrefix(items: seq<Item>, i: nat, hash: Hash)
    requires i <= |items|
    ensures Hashes(items, hash)[..i] == Hashes(items[..i], hash)
  {
  }

  lemma {:induction false} FingerprintIsAPrefixOfAll(items: seq<Item>, hash: Hash)
    ensures forall fp :: fp in PrefixFingerprints(items, hash) ==> fp <= Join(Hashes(items, hash))
    ensures FixedWidth(hash) ==> forall fp :: fp in PrefixFingerprints(items, hash) ==> fp != ""
  {
    if items == [] {
    } else {
      FingerprintIsAPrefixOfAll(items[..|items| - 1], hash);
      if FixedWidth(hash) {
        JoinedLength(Hashes(items, hash));
      }
      HashesOfPrefix(items, |items| - 1, hash);
    }
  }

  lemma {:induction false} FingerprintWheneverMarked(items: seq<Item>, hash: Hash)
    ensures PrefixFingerprints(items, hash) == [] <==> NoMarks(items)
  {
    if items == [] {
    } else {
      FingerprintWheneverMarked(items[..|items| - 1], hash);
    }
  }

  /** One more item at the end: an unmarked one adds no fingerprint, a marked one adds the join of everything. */
  lemma {:induction false} FingerprintOfSnoc(items: seq<Item>, x: Item, hash: Hash)
    ensures Fingerprint(items + [x], hash) ==
              if x.mark.Marked? then Some(Join(Hashes(items, hash)) + hash(x.part)) else Fingerprint(items, hash)
    ensures PrefixFingerprints(items + [x], hash) ==
              PrefixFingerprints(items, hash) + if x.mark.Marked? then [Join(Hashes(items + [x], hash))] else []
    ensures Join(Hashes(items + [x], hash)) == Join(Hashes(items, hash)) + hash(x.part)
  {
    assert (items + [x])[..|items + [x]| - 1] == items;
    var hs := Hashes(items + [x], hash);
    assert hs[..|hs| - 1] == Hashes(items, hash);
  }

  lemma {:induction false} PrefixFingerprintsStep(items: seq<Item>, i: nat, hash: Hash)
    requires i < |items|
    ensures PrefixFingerprints(items[..i + 1], hash) ==
              PrefixFingerprints(items[..i], hash) + if items[i].mark.Marked? then [Join(Hashes(items, hash)[..i + 1])] else []
  {
    var front := items[..i + 1];
    assert front[..|front| - 1] == items[..i];
    HashesOfPrefix(items, i + 1, hash);
  }

  lemma {:induction false} PrefixOfLonger(a: string, b: string, c: string, d: string)
    requires a <= b <= c
    ensures a <= c + d
  {
    assert a == c[..|a|] == (c + d)[..|a|];
  }

  /** Content after the last breakpoint leaves the fingerprint alone; later breakpoints only extend it. */
  lemma {:induction false} AppendingContent(items: seq<Item>, more: seq<Item>, hash: Hash)
    requires Fingerprint(items, hash).Some?
    ensures Fingerprint(items + more, hash).Some?
    ensures Fingerprint(items, hash).value <= Fingerprint(items + more, hash).value
    ensures NoMarks(more) ==> Fingerprint(items + more, hash) == Fingerprint(items, hash)
  {
    if more == [] {
      assert items + more == items;
    } else {
      var front, x := more[..|more| - 1], more[|more| - 1];
      AppendingContent(items, front, hash);
      assert items + more == (items + front) + [x];
      AppendingOnePart(Fingerprint(items, hash).value, items + front, x, hash);
    }
  }

  lemma {:induction false} AppendingOnePart(fp: string, items: seq<Item>, x: Item, hash: Hash)
    requires Fingerprint(items, hash).Some? && fp <= Fingerprint(items, hash).value
    ensures Fingerprint(items + [x], hash).Some? && fp <= Fingerprint(items + [x], hash).value
    ensures x.mark.Unmarked? ==> Fingerprint(items + [x], hash) == Fingerprint(items, hash)
  {
    FingerprintOfSnoc(items, x, hash);
    FingerprintIsAPrefixOfAll(items, hash);
    var fps := PrefixFingerprints(items, hash);
    assert fps[|fps| - 1] in fps;
    PrefixOfLonger(fp, fps[|fps| - 1], Join(Hashes(items, hash)), hash(x.part));
  }

  lemma {:induction false} MessagesItemsOfSum(a: seq<Message>, b: seq<Message>)
    ensures MessagesItems(a + b) == MessagesItems(a) + MessagesItems(b)
  {
    if b == [] {
      assert a + b == a;
    } else {
      var front, x := b[..|b| - 1], b[|b| - 1];
      assert MessagesItems(a + b) == MessagesItems(a + front) + MessageItems(x) by {
        assert a + b == (a + front) + [x];
        MessagesItemsOfSnoc(a + front, x);
      }
      MessagesItemsOfSum(a, front);
      SumIsAssociative(MessagesItems(a), MessagesItems(front), MessageItems(x));
    }
  }

  lemma {:induction false} MessagesItemsOfSnoc(a: seq<Message>, x: Message)
    ensures MessagesItems(a + [x]) == MessagesItems(a) + MessageItems(x)
  {
    assert (a + [x])[..|a + [x]| - 1] == a;
  }

  lemma {:induction false} ItemsOfGrownBody(body: Body, more: seq<Message>)
    ensures Items(body.(messages := body.messages + more)) == Items(body) + MessagesItems(more)
  {
    MessagesItemsOfSum(body.messages, more);
    var grown := body.(messages := body.messages + more);
    assert MessagesItems(grown.messages) == MessagesItems(body.messages) + MessagesItems(more);
    SumIsAssociative(ToolItems(body.tools) + SystemItems(body.system), MessagesItems(body.messages), MessagesItems(more));
  }

  /** A conversation that grows by messages keeps its fingerprint or extends it. */
  lemma {:induction false} GrowingConversationExtendsFingerprint(body: Body, more: seq<Message>, hash: Hash)
    requires Fingerprint(Items(body), hash).Some?
    ensures var grown := body.(messages := body.messages + more);
            && Fingerprint(Items(grown), hash).Some?
            && Fingerprint(Items(body), hash).value <= Fingerprint(Items(grown), hash).value
            && (NoMarks(MessagesItems(more)) ==> Fingerprint(Items(grown), hash) == Fingerprint(Items(body), hash))
  {
    ItemsOfGrownBody(body, more);
    AppendingContent(Items(body), MessagesItems(more), hash);
  }
}
