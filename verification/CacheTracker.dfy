/**
 * The map from fingerprints to the key that cached them: placeholders, longest
 * match with expiry, recording and cleanup.
 */
module CacheTracker {
  import opened Options
  import opened Fingerprints

  /** An entry with an empty key hash is a placeholder that has never been used. */
  datatype Entry = Entry(keyHash: string, lastUsed: int, hitCount: nat, ttl: int)

  datatype Match = Match(keyHash: string, matchedFingerprint: string)

  type Cache = map<string, Entry>

  predicate Expired(e: Entry, now: int) {
    now - e.lastUsed > e.ttl
  }

  ghost predicate Comparable(a: string, b: string) {
    a <= b || b <= a
  }

  function MatchLength(a: string, b: string): nat {
    if |a| < |b| then |a| else |b|
  }

  ghost predicate Assigned(m: Cache, fp: string) {
    fp in m && m[fp].keyHash != ""
  }

  /** `k` is an entry that a lookup of `fp` may return. */
  ghost predicate Matches(m: Cache, fp: string, k: string, now: int) {
    Assigned(m, k) && k != "" && !Expired(m[k], now) && Comparable(fp, k)
  }

  // ----- What each operation does to the map -----

  function Placed(m: Cache, fps: seq<string>, ttl: int): Cache {
    m + map fp | fp in fps && fp !in m :: Entry("", 0, 0, ttl)
  }

  lemma {:induction false} PlacedOneMore(m: Cache, fps: seq<string>, i: nat, ttl: int)
    requires i < |fps|
    ensures var placed := Placed(m, fps[..i], ttl);
            Placed(m, fps[..i + 1], ttl) == if fps[i] in placed then placed else placed[fps[i] := Entry("", 0, 0, ttl)]
  {
    assert fps[..i + 1] == fps[..i] + [fps[i]];
  }

  function Recorded(m: Cache, fp: string, key: string, now: int): Cache {
    if fp == "" then m
    else if fp !in m then m[fp := Entry(key, now, 1, TTL_5_MINUTES)]
    else if m[fp].keyHash == key then m[fp := m[fp].(lastUsed := now, hitCount := m[fp].hitCount + 1)]
    else m[fp := m[fp].(keyHash := key, lastUsed := now, hitCount := 1)]
  }

  function CleanedUp(m: Cache, now: int): Cache {
    map fp | fp in m && !Expired(m[fp], now) :: m[fp]
  }

  /** `t` is `m` without some assigned entries that have expired. */
  ghost predicate OnlyExpiredDropped(m: Cache, t: Cache, now: int) {
    && (forall k :: k in t ==> k in m && t[k] == m[k])
    && (forall k :: k in m && k !in t ==> m[k].keyHash != "" && Expired(m[k], now))
  }

  /**
   * A lookup of `fp` in `m` gives `hit` and leaves `t`: a longest match if there
   * is any, nothing exactly when there is none, and only expired entries are
   * deleted; a miss deletes all of them.
   */
  ghost predicate Lookup(m: Cache, fp: string, now: int, hit: Option<Match>, t: Cache) {
    && OnlyExpiredDropped(m, t, now)
    && (hit == None <==> fp == "" || forall k :: !Matches(m, fp, k, now))
    && (hit == None && fp != "" ==> forall k :: Assigned(t, k) ==> !Expired(t[k], now))
    && (hit.Some? ==>
          var k := hit.value.matchedFingerprint;
          && Matches(m, fp, k, now)
          && m[k].keyHash == hit.value.keyHash
          && forall o :: Matches(m, fp, o, now) ==> MatchLength(fp, o) <= MatchLength(fp, k))
  }

  /** `hit` is a longest match among the entries of `m` that are not in `rest`. */
  ghost predicate BestSoFar(m: Cache, fp: string, now: int, rest: set<string>, hit: Option<Match>, longest: nat) {
    && (hit == None <==> longest == 0)
    && (forall k :: Matches(m, fp, k, now) && k !in rest ==> MatchLength(fp, k) <= longest)
    && (hit.Some? ==>
          && Matches(m, fp, hit.value.matchedFingerprint, now)
          && m[hit.value.matchedFingerprint].keyHash == hit.value.keyHash
          && MatchLength(fp, hit.value.matchedFingerprint) == longest)
  }

  // ----- The module's state as the code keeps it -----

  class Tracker {
    const hash: Hash
    var cacheMap: Cache

    constructor (hash: Hash)
      ensures this.hash == hash && cacheMap == map[]
    {
      this.hash := hash;
      cacheMap := map[];
    }

    method PartsOfBlocks(blocks: seq<Block>, isMessage: bool, role: string) returns (items: seq<Item>)
      ensures items == if isMessage then MessageBlockItems(role, blocks) else SystemBlockItems(blocks)
    {
      items := [];
      for i := 0 to |blocks|
        invariant items == if isMessage then MessageBlockItems(role, blocks[..i]) else SystemBlockItems(blocks[..i])
      {
        assert blocks[..i + 1][..i] == blocks[..i];
        var b := blocks[i];
        items := items + [Item(if isMessage then MessageBlockPart(role, b.kind, b.stable) else SystemPart(b.kind, b.stable), b.mark)];
      }
      assert blocks[..|blocks|] == blocks;
    }

    method PartsOfTools(tools: seq<Block>) returns (items: seq<Item>)
      ensures items == ToolItems(tools)
    {
      items := [];
      for i := 0 to |tools|
        invariant items == ToolItems(tools[..i])
      {
        assert tools[..i + 1][..i] == tools[..i];
        items := items + [Item(ToolPart(tools[i].stable), tools[i].mark)];
      }
      assert tools[..|tools|] == tools;
    }

    method PartsOfSystem(system: System) returns (items: seq<Item>)
      ensures items == SystemItems(system)
    {
      match system
      case NoSystem => items := [];
      case SystemText(text) => items := if text == "" then [] else [Item(SystemPart("text", text), Unmarked)];
      case SystemBlocks(blocks) => items := PartsOfBlocks(blocks, false, "");
    }

    method PartsOfMessages(messages: seq<Message>) returns (items: seq<Item>)
      ensures items == MessagesItems(messages)
    {
      items := [];
      for i := 0 to |messages|
        invariant items == MessagesItems(messages[..i])
      {
        assert messages[..i + 1] == messages[..i] + [messages[i]];
        MessagesItemsOfSnoc(messages[..i], messages[i]);
        var messageItems;
        match messages[i] {
          case TextMessage(role, text) => messageItems := [Item(MessagePart(role, text), Unmarked)];
          case BlockMessage(role, blocks) => messageItems := PartsOfBlocks(blocks, true, role);
        }
        items := items + messageItems;
      }
      assert messages[..|messages|] == messages;
    }

    method FingerprintsOf(items: seq<Item>) returns (prefixFingerprints: seq<string>)
      ensures prefixFingerprints == PrefixFingerprints(items, hash)
    {
      var partHashes := Hashes(items, hash);
      prefixFingerprints := [];
      for i := 0 to |items|
        invariant prefixFingerprints == PrefixFingerprints(items[..i], hash)
      {
        PrefixFingerprintsStep(items, i, hash);
        if items[i].mark.Marked? {
          prefixFingerprints := prefixFingerprints + [Join(partHashes[..i + 1])];
        }
      }
      assert items[..|items|] == items;
    }

    method LeavePlaceholders(prefixFingerprints: seq<string>, maxTtl: int)
      modifies this
      ensures cacheMap == Placed(old(cacheMap), prefixFingerprints, maxTtl)
    {
      for i := 0 to |prefixFingerprints|
        invariant cacheMap == Placed(old(cacheMap), prefixFingerprints[..i], maxTtl)
      {
        var fp := prefixFingerprints[i];
        PlacedOneMore(old(cacheMap), prefixFingerprints, i, maxTtl);
        if fp !in cacheMap {
          cacheMap := cacheMap[fp := Entry("", 0, 0, maxTtl)];
        }
      }
      assert prefixFingerprints[..|prefixFingerprints|] == prefixFingerprints;
    }

    /** Returns the deepest fingerprint and leaves a placeholder for every one that is not in the map yet. */
    method GenerateCacheFingerprint(body: Body) returns (fingerprint: Option<string>)
      modifies this
      ensures fingerprint == Fingerprint(Items(body), hash)
      ensures cacheMap == Placed(old(cacheMap), PrefixFingerprints(Items(body), hash), MaxTtl(Items(body)))
    {
      var tools := PartsOfTools(body.tools);
      var system := PartsOfSystem(body.system);
      var messages := PartsOfMessages(body.messages);
      var items := tools + system + messages;
      var prefixFingerprints := FingerprintsOf(items);
      if prefixFingerprints == [] {
        return None;
      }
      LeavePlaceholders(prefixFingerprints, MaxTtl(items));
      fingerprint := Some(prefixFingerprints[|prefixFingerprints| - 1]);
    }

    method RecordCacheUsage(fingerprint: string, keyHash: string, now: int)
      modifies this
      ensures cacheMap == Recorded(old(cacheMap), fingerprint, keyHash, now)
    {
      if fingerprint == "" {
        return;
      }
      if fingerprint !in cacheMap {
        cacheMap := cacheMap[fingerprint := Entry(keyHash, now, 1, TTL_5_MINUTES)];
        return;
      }
      var entry := cacheMap[fingerprint];
      if entry.keyHash == keyHash {
        entry := entry.(lastUsed := now, hitCount := entry.hitCount + 1);
      } else if entry.keyHash == "" {
        entry := entry.(keyHash := keyHash, lastUsed := now, hitCount := 1);
      } else {
        entry := entry.(keyHash := keyHash, lastUsed := now, hitCount := 1);
      }
      cacheMap := cacheMap[fingerprint := entry];
    }

    /** Scans every entry for the longest match in either direction, dropping what has expired. */
    method Scan(fingerprint: string, now: int) returns (hit: Option<Match>)
      requires fingerprint != ""
      modifies this
      ensures Lookup(old(cacheMap), fingerprint, now, hit, cacheMap)
    {
      hit := None;
      var longestMatchLength: nat := 0;
      var rest := cacheMap.Keys;
      while rest != {}
        invariant rest <= cacheMap.Keys && OnlyExpiredDropped(old(cacheMap), cacheMap, now)
        invariant forall k :: Assigned(cacheMap, k) && k !in rest ==> !Expired(cacheMap[k], now)
        invariant BestSoFar(old(cacheMap), fingerprint, now, rest, hit, longestMatchLength)
      {
        var cachedFp :| cachedFp in rest;
        rest := rest - {cachedFp};
        var entry := cacheMap[cachedFp];
        if entry.keyHash == "" {
          continue;
        }
        if now - entry.lastUsed > entry.ttl {
          cacheMap := cacheMap - {cachedFp};
          continue;
        }
        if cachedFp <= fingerprint && |cachedFp| > longestMatchLength {
          hit := Some(Match(entry.keyHash, cachedFp));
          longestMatchLength := |cachedFp|;
        }
        if fingerprint <= cachedFp && |fingerprint| > longestMatchLength {
          hit := Some(Match(entry.keyHash, cachedFp));
          longestMatchLength := |fingerprint|;
        }
      }
    }

    /** Tries the fingerprint itself first. */
    method GetCachedKeyHash(fingerprint: string, now: int) returns (hit: Option<Match>)
      modifies this
      ensures Lookup(old(cacheMap), fingerprint, now, hit, cacheMap)
    {
      if fingerprint == "" {
        return None;
      }
      if fingerprint in cacheMap && cacheMap[fingerprint].keyHash != "" {
        var primaryEntry := cacheMap[fingerprint];
        if now - primaryEntry.lastUsed <= primaryEntry.ttl {
          assert Matches(cacheMap, fingerprint, fingerprint, now);
          return Some(Match(primaryEntry.keyHash, fingerprint));
        }
        cacheMap := cacheMap - {fingerprint};
      }
      assert forall k :: Matches(old(cacheMap), fingerprint, k, now) <==> Matches(cacheMap, fingerprint, k, now);
      hit := Scan(fingerprint, now);
    }

    method CleanupExpiredCaches(now: int)
      modifies this
      ensures cacheMap == CleanedUp(old(cacheMap), now)
    {
      var rest := cacheMap.Keys;
      while rest != {}
        invariant rest <= cacheMap.Keys
        invariant forall k :: k in cacheMap ==> k in old(cacheMap) && cacheMap[k] == old(cacheMap)[k]
        invariant forall k :: k in old(cacheMap) && k !in rest ==> (k in cacheMap <==> !Expired(old(cacheMap)[k], now))
        invariant forall k :: k in rest ==> k in old(cacheMap)
      {
        var fingerprint :| fingerprint in rest;
        rest := rest - {fingerprint};
        if now - cacheMap[fingerprint].lastUsed > cacheMap[fingerprint].ttl {
          cacheMap := cacheMap - {fingerprint};
        }
      }
    }
  }
}
