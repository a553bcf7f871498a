/**
 * What a fingerprint says about a request body: which tool, system block or message block each of its hashes is of,
 * where it ends, and how long its cache entry is meant to live.
 */
module CachedParts {
  import opened Options
  import opened Fingerprints
  import opened CacheConversations

  // ----- The parts in their places -----

  ghost function SystemCount(system: System): nat {
    match system
    case NoSystem => 0
    case SystemText(text) => if |text| > 0 then 1 else 0
    case SystemBlocks(blocks) => |blocks|
  }

  ghost function MessageCount(m: Message): nat {
    if m.TextMessage? then 1 else |m.blocks|
  }

  /** How many parts the first `i` messages have. */
  ghost function CountBefore(messages: seq<Message>, i: nat): nat
    requires i <= |messages|
  {
    if i == 0 then 0 else CountBefore(messages, i - 1) + MessageCount(messages[i - 1])
  }

  ghost predicate IsAt(items: seq<Item>, i: nat, part: Part, mark: Mark) {
    i < |items| && items[i].part == part && items[i].mark == mark
  }

  ghost predicate IsSystemPart(system: System, j: nat, items: seq<Item>, i: nat)
    requires j < SystemCount(system)
  {
    match system
    case NoSystem => true
    case SystemText(text) => IsAt(items, i, SystemPart("text", text), Unmarked)
    case SystemBlocks(blocks) => IsAt(items, i, SystemPart(blocks[j].kind, blocks[j].stable), blocks[j].mark)
  }

  ghost predicate IsMessagePart(m: Message, j: nat, items: seq<Item>, i: nat)
    requires j < MessageCount(m)
  {
    match m
    case TextMessage(role, text) => IsAt(items, i, MessagePart(role, text), Unmarked)
    case BlockMessage(role, blocks) => IsAt(items, i, MessageBlockPart(role, blocks[j].kind, blocks[j].stable), blocks[j].mark)
  }

  lemma {:induction false} ToolsAt(tools: seq<Block>)
    ensures |ToolItems(tools)| == |tools|
    ensures forall j :: 0 <= j < |tools| ==> IsAt(ToolItems(tools), j, ToolPart(tools[j].stable), tools[j].mark)
  {
    if tools != [] {
      ToolsAt(tools[..|tools| - 1]);
    }
  }

  lemma {:induction false} SystemBlocksAt(blocks: seq<Block>)
    ensures |SystemBlockItems(blocks)| == |blocks|
    ensures forall j :: 0 <= j < |blocks| ==> IsAt(SystemBlockItems(blocks), j, SystemPart(blocks[j].kind, blocks[j].stable), blocks[j].mark)
  {
    if blocks != [] {
      SystemBlocksAt(blocks[..|blocks| - 1]);
    }
  }

  lemma {:induction false} MessageBlocksAt(role: string, blocks: seq<Block>)
    ensures |MessageBlockItems(role, blocks)| == |blocks|
    ensures forall j :: 0 <= j < |blocks| ==>
              IsAt(MessageBlockItems(role, blocks), j, MessageBlockPart(role, blocks[j].kind, blocks[j].stable), blocks[j].mark)
  {
    if blocks != [] {
      MessageBlocksAt(role, blocks[..|blocks| - 1]);
    }
  }

  lemma {:induction false} SystemAt(system: System)
    ensures |SystemItems(system)| == SystemCount(system)
    ensures forall j :: 0 <= j < SystemCount(system) ==> IsSystemPart(system, j, SystemItems(system), j)
  {
    if system.SystemBlocks? {
      SystemBlocksAt(system.blocks);
    }
  }

  lemma {:induction false} MessageAt(m: Message)
    ensures |MessageItems(m)| == MessageCount(m)
    ensures forall j :: 0 <= j < MessageCount(m) ==> IsMessagePart(m, j, MessageItems(m), j)
  {
    if m.BlockMessage? {
      MessageBlocksAt(m.role, m.blocks);
    }
  }

  lemma {:induction false} CountOfFirst(messages: seq<Message>, n: nat, i: nat)
    requires i <= n <= |messages|
    ensures CountBefore(messages[..n], i) == CountBefore(messages, i)
  {
    if i > 0 {
      CountOfFirst(messages, n, i - 1);
    }
  }

  lemma {:induction false} MessagePartBehind(m: Message, j: nat, a: seq<Item>, b: seq<Item>, all: seq<Item>, i: nat)
    requires j < MessageCount(m) && IsMessagePart(m, j, b, i) && all == a + b
    ensures IsMessagePart(m, j, all, |a| + i)
  {
    assert all[|a| + i] == b[i];
  }

  lemma {:induction false} MessagePartBefore(m: Message, j: nat, a: seq<Item>, b: seq<Item>, all: seq<Item>, i: nat)
    requires j < MessageCount(m) && IsMessagePart(m, j, a, i) && all == a + b
    ensures IsMessagePart(m, j, all, i)
  {
    assert all[i] == a[i];
  }

  lemma {:induction false} SystemPartMoves(system: System, j: nat, a: seq<Item>, b: seq<Item>, c: seq<Item>, i: nat)
    requires j < SystemCount(system) && IsSystemPart(system, j, b, i)
    ensures IsSystemPart(system, j, a + b + c, |a| + i)
  {
    if !system.NoSystem? {
      assert (a + b + c)[|a| + i] == b[i];
    }
  }

  lemma {:induction false} MessagesCount(messages: seq<Message>)
    ensures |MessagesItems(messages)| == CountBefore(messages, |messages|)
  {
    if messages != [] {
      var n := |messages| - 1;
      MessagesCount(messages[..n]);
      CountOfFirst(messages, n, n);
      MessageAt(messages[n]);
    }
  }

  lemma {:induction false} LastMessageAt(messages: seq<Message>, front: seq<Message>, last: Message, j: nat)
    requires messages == front + [last] && j < MessageCount(last)
    ensures IsMessagePart(last, j, MessagesItems(messages), CountBefore(front, |front|) + j)
  {
    MessageAt(last);
    MessagesCount(front);
    MessagesItemsOfSnoc(front, last);
    MessagePartBehind(last, j, MessagesItems(front), MessageItems(last), MessagesItems(messages), j);
  }

  lemma {:induction false} EarlierMessageAt(messages: seq<Message>, front: seq<Message>, last: Message, m: Message, j: nat, place: nat)
    requires messages == front + [last] && j < MessageCount(m) && IsMessagePart(m, j, MessagesItems(front), place)
    ensures IsMessagePart(m, j, MessagesItems(messages), place)
  {
    MessagesItemsOfSnoc(front, last);
    MessagePartBefore(m, j, MessagesItems(front), MessageItems(last), MessagesItems(messages), place);
  }

  lemma {:induction false} MessagesAt(messages: seq<Message>, i: nat, j: nat, place: nat)
    requires i < |messages| && j < MessageCount(messages[i]) && place == CountBefore(messages, i) + j
    ensures IsMessagePart(messages[i], j, MessagesItems(messages), place)
  {
    var n := |messages| - 1;
    assert messages == messages[..n] + [messages[n]];
    CountOfFirst(messages, n, i);
    if i == n {
      LastMessageAt(messages, messages[..n], messages[n], j);
    } else {
      MessagesAt(messages[..n], i, j, place);
      EarlierMessageAt(messages, messages[..n], messages[n], messages[i], j, place);
    }
  }

  /** The parts of a body are its tools, then its system prompt, then its messages, and nothing else. */
  lemma {:induction false} CountOfParts(body: Body)
    ensures |Items(body)| == |body.tools| + SystemCount(body.system) + CountBefore(body.messages, |body.messages|)
  {
    ToolsAt(body.tools);
    SystemAt(body.system);
    MessagesCount(body.messages);
  }

  /** Every tool is in its place, with its breakpoint. */
  lemma {:induction false} ToolIsInItsPlace(body: Body, j: nat)
    requires j < |body.tools|
    ensures IsAt(Items(body), j, ToolPart(body.tools[j].stable), body.tools[j].mark)
  {
    ToolsAt(body.tools);
  }

  /** Every block of the system prompt is behind the tools, with its breakpoint; a plain one is a single block. */
  lemma {:induction false} SystemIsInItsPlace(body: Body, j: nat)
    requires j < SystemCount(body.system)
    ensures IsSystemPart(body.system, j, Items(body), |body.tools| + j)
  {
    ToolsAt(body.tools);
    SystemAt(body.system);
    SystemPartMoves(body.system, j, ToolItems(body.tools), SystemItems(body.system), MessagesItems(body.messages), j);
  }

  /** Every block of every message is behind those, with its role and its breakpoint. */
  lemma {:induction false} MessageIsInItsPlace(body: Body, i: nat, j: nat)
    requires i < |body.messages| && j < MessageCount(body.messages[i])
    ensures IsMessagePart(body.messages[i], j, Items(body), |body.tools| + SystemCount(body.system) + (CountBefore(body.messages, i) + j))
  {
    var front, messages := ToolItems(body.tools) + SystemItems(body.system), MessagesItems(body.messages);
    ToolsAt(body.tools);
    SystemAt(body.system);
    MessagesAt(body.messages, i, j, CountBefore(body.messages, i) + j);
    MessagePartBehind(body.messages[i], j, front, messages, Items(body), CountBefore(body.messages, i) + j);
  }

  // ----- The fingerprint in its places -----

  lemma {:induction false} HashAt(hashes: seq<string>, i: nat)
    requires AllWide(hashes) && i < |hashes|
    ensures 8 * i + 8 <= |Join(hashes)| == 8 * |hashes| && Join(hashes)[8 * i..8 * i + 8] == hashes[i]
  {
    var n := |hashes| - 1;
    JoinedLength(hashes);
    JoinedLength(hashes[..n]);
    if i < n {
      HashAt(hashes[..n], i);
      assert Join(hashes)[8 * i..8 * i + 8] == Join(hashes[..n])[8 * i..8 * i + 8];
    }
  }

  /** The first `n` parts end with the last breakpoint. */
  ghost predicate LastMarkEnds(items: seq<Item>, n: int) {
    0 < n <= |items| && items[n - 1].mark.Marked? && forall i :: n <= i < |items| ==> items[i].mark.Unmarked?
  }

  lemma {:induction false} CachedEndsWithTheLastMark(items: seq<Item>, n: nat)
    requires LastMarkEnds(items, n)
    ensures Cached(items) == items[..n]
  {
    if n < |items| {
      CachedEndsWithTheLastMark(items[..|items| - 1], n);
      assert items[..|items| - 1][..n] == items[..n];
    }
  }

  /** `fp` is the hashes of the first `n` parts, eight characters each, in their order. */
  ghost predicate SpellsOut(fp: string, items: seq<Item>, n: nat, hash: Hash) {
    n <= |items| && |fp| == 8 * n && forall i :: 0 <= i < n ==> fp[8 * i..8 * i + 8] == hash(items[i].part)
  }

  lemma {:induction false} JoinSpellsOut(items: seq<Item>, n: nat, hash: Hash)
    requires n <= |items| && FixedWidth(hash)
    ensures SpellsOut(Join(Hashes(items[..n], hash)), items, n, hash)
  {
    var hashes := Hashes(items[..n], hash);
    JoinedLength(hashes);
    forall i | 0 <= i < n ensures 8 * i + 8 <= |Join(hashes)| && Join(hashes)[8 * i..8 * i + 8] == hash(items[i].part) {
      HashAt(hashes, i);
    }
  }

  /** A body has a fingerprint exactly when it has a breakpoint, and it spells out the hashes up to the last one. */
  lemma {:induction false} FingerprintSpellsOutTheHashes(items: seq<Item>, n: nat, hash: Hash)
    requires FixedWidth(hash)
    ensures Fingerprint(items, hash) == None <==> forall i :: 0 <= i < |items| ==> items[i].mark.Unmarked?
    ensures LastMarkEnds(items, n) ==>
              Fingerprint(items, hash).Some? && SpellsOut(Fingerprint(items, hash).value, items, n, hash)
  {
    FingerprintWheneverMarked(items, hash);
    if LastMarkEnds(items, n) {
      FingerprintIsJoinOfCached(items, hash);
      CachedEndsWithTheLastMark(items, n);
      JoinSpellsOut(items, n, hash);
    }
  }

  ghost function MarksBefore(items: seq<Item>, n: nat): nat
    requires n <= |items|
  {
    if n == 0 then 0 else MarksBefore(items, n - 1) + if items[n - 1].mark.Marked? then 1 else 0
  }

  lemma {:induction false} MarksOfFirst(items: seq<Item>, m: nat, n: nat)
    requires n <= m <= |items|
    ensures MarksBefore(items[..m], n) == MarksBefore(items, n)
  {
    if n > 0 {
      MarksOfFirst(items, m, n - 1);
    }
  }

  lemma {:induction false} FingerprintOfEachMark(items: seq<Item>, n: nat, hash: Hash)
    requires n < |items|
    ensures |PrefixFingerprints(items, hash)| == MarksBefore(items, |items|)
    ensures items[n].mark.Marked? ==>
              && MarksBefore(items, n) < |PrefixFingerprints(items, hash)|
              && PrefixFingerprints(items, hash)[MarksBefore(items, n)] == Join(Hashes(items[..n + 1], hash))
  {
    var last := |items| - 1;
    MarksOfFirst(items, last, last);
    if last == 0 {
      assert items[..1] == items && PrefixFingerprints(items[..0], hash) == [];
    } else if n == last {
      FingerprintOfEachMark(items[..last], 0, hash);
      assert items[..n + 1] == items;
    } else {
      FingerprintOfEachMark(items[..last], n, hash);
      MarksOfFirst(items, last, n);
      assert items[..last][..n + 1] == items[..n + 1];
    }
  }

  /** Every breakpoint has its own fingerprint, shallowest first, which spells out the hashes up to it. */
  lemma {:induction false} EveryBreakpointHasItsFingerprint(items: seq<Item>, n: nat, hash: Hash)
    requires FixedWidth(hash) && n < |items| && items[n].mark.Marked?
    ensures |PrefixFingerprints(items, hash)| == MarksBefore(items, |items|) > MarksBefore(items, n)
    ensures SpellsOut(PrefixFingerprints(items, hash)[MarksBefore(items, n)], items, n + 1, hash)
  {
    FingerprintOfEachMark(items, n, hash);
    JoinSpellsOut(items, n + 1, hash);
  }

  // ----- Lifetimes -----

  /** An entry lives for an hour if any breakpoint asks for that, else for five minutes. */
  lemma {:induction false} OneLongMarkIsEnough(items: seq<Item>)
    ensures MaxTtl(items) ==
              if exists i :: 0 <= i < |items| && items[i].mark == Marked(Some("1h")) then 3600000
              else if exists i :: 0 <= i < |items| && items[i].mark.Marked? then 300000
              else 0
  {
    if items != [] {
      var front, last := items[..|items| - 1], items[|items| - 1];
      OneLongMarkIsEnough(front);
      assert items == front + [last];
      assert last.mark.Marked? ==> items[|items| - 1].mark.Marked?;
    }
  }
}
