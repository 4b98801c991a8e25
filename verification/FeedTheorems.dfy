/** What the header handlers accept, and that each field of a header is stored and loaded as it came in. */
module FeedTheorems {
  import opened ByteStrings
  import opened Blocklist
  import opened HeaderStores

  /** The header loaded at the entry's height is the entry, field by field. */
  ghost predicate Holds(headers: map<uint64, Bytes>, e: BlockEntry, stateRoot: Bytes) {
    var h := GetHeader(headers, e.blockNumber);
    && h.Some? && h.value.blockNumber == e.blockNumber
    && h.value.stateRoot == stateRoot && h.value.transactionsRoot == e.transactionsRoot && h.value.receiptsRoot == e.receiptsRoot
    && h.value.baseFeePerGas == e.baseFeePerGas && h.value.gasLimit == e.gasLimit
    && h.value.timestamp == e.timestamp && h.value.chainId == e.chainId
  }

  /** Apart from that height nothing stored changed. */
  ghost predicate OnlyAt(before: map<uint64, Bytes>, after: map<uint64, Bytes>, height: uint64) {
    forall h: uint64 :: h != height ==> (h in after <==> h in before) && (h in before ==> after[h] == before[h])
  }

  predicate RootsOf32(e: BlockEntry) {
    |e.stateRoot| == 32 && |e.transactionsRoot| == 32 && |e.receiptsRoot| == 32
  }

  lemma StoreHolds(headers: map<uint64, Bytes>, e: BlockEntry)
    requires RootsDecode(e)
    ensures var after := StoreHeader(headers, HeaderOf(e));
      Holds(after, e, e.stateRoot) && OnlyAt(headers, after, e.blockNumber)
  {
    HeaderRoundTrip(HeaderOf(e), []);
    hide Serialize, DeserializeHeader;
    assert Serialize(HeaderOf(e)) + [] == Serialize(HeaderOf(e));
  }

  // ----- Seeding and replacing -----

  /** The seed is accepted once, at a non-zero height of the contract's chain; its state root is stored as zero. */
  lemma SeedExactly(c: Chain, e: BlockEntry, chainId: uint64)
    ensures SeedBlock(c, e, chainId).Ok? <==>
      && c.lastHeight == 0 && e.blockNumber > 0 && chainId != 0 && e.chainId == chainId
      && |e.transactionsRoot| == 32 && |e.receiptsRoot| == 32
    ensures SeedBlock(c, e, chainId).Ok? ==>
      var after := SeedBlock(c, e, chainId).value;
      && after.lastHeight == e.blockNumber && after.observed == c.observed
      && Holds(after.headers, e, Zeros(32)) && OnlyAt(c.headers, after.headers, e.blockNumber)
  {
    hide Serialize, DeserializeHeader;
    if SeedBlock(c, e, chainId).Ok? {
      StoreHolds(c.headers, e.(stateRoot := Zeros(32)));
    }
  }

  /** A replacement is of a stored header of the same chain; the deposits observed at its height are dropped. */
  lemma ReplaceExactly(c: Chain, e: BlockEntry, chainId: uint64)
    ensures ReplaceBlock(c, e, chainId).Ok? <==>
      && GetHeader(c.headers, e.blockNumber).Some? && chainId != 0 && e.chainId == chainId && RootsOf32(e)
      && GetHeader(c.headers, e.blockNumber).value.chainId in {0, e.chainId}
    ensures ReplaceBlock(c, e, chainId).Ok? ==>
      var after := ReplaceBlock(c, e, chainId).value;
      && after.lastHeight == c.lastHeight && after.observed == c.observed - {e.blockNumber}
      && Holds(after.headers, e, e.stateRoot) && OnlyAt(c.headers, after.headers, e.blockNumber)
  {
    hide Serialize, DeserializeHeader;
    if ReplaceBlock(c, e, chainId).Ok? {
      StoreHolds(c.headers, e);
    }
  }

  // ----- Adding -----

  /** The entry follows the tip: next height, same chain, and the hash of the tip's stored form as its parent. */
  predicate Follows(keccak: Hasher, c: Chain, e: BlockEntry, chainId: uint64) {
    && e.blockNumber == Wrap64(c.lastHeight + 1) && chainId != 0 && e.chainId == chainId && RootsOf32(e)
    && GetHeader(c.headers, c.lastHeight).Some?
    && e.parentHash == keccak(Serialize(GetHeader(c.headers, c.lastHeight).value))
  }

  /** The chain with one more block: the header stored, and the one 101 below it dropped. */
  ghost predicate Extends(c: Chain, after: Chain, e: BlockEntry) {
    && after.lastHeight == e.blockNumber && after.observed == c.observed
    && Holds(after.headers, e, e.stateRoot)
    && (forall h: uint64 :: h != e.blockNumber ==>
          && (h in after.headers <==> h in c.headers && (h == 0 || h + 101 != e.blockNumber))
          && (h in after.headers ==> after.headers[h] == c.headers[h]))
  }

  /** Once seeded, a single block is accepted if and only if it follows the tip. */
  lemma AddOneExactly(keccak: Hasher, c: Chain, e: BlockEntry, chainId: uint64)
    ensures AddBlocks(keccak, c, [e], chainId).Ok? <==> c.lastHeight > 0 && Follows(keccak, c, e, chainId)
    ensures AddBlocks(keccak, c, [e], chainId).Ok? ==> Extends(c, AddBlocks(keccak, c, [e], chainId).value, e)
  {
    hide Serialize, DeserializeHeader;
    var entries := [e];
    var none: seq<BlockEntry> := [];
    assert entries[1..] == none;
    if c.lastHeight > 0 && CheckBlock(keccak, c.headers, c.lastHeight, e, chainId).None? {
      StoreHolds(c.headers, e);
      var headers := Prune(StoreHeader(c.headers, HeaderOf(e)), e.blockNumber);
      assert AddFrom(keccak, headers, e.blockNumber, none, chainId) == Ok((headers, e.blockNumber));
      assert AddBlocks(keccak, c, entries, chainId) == Ok(c.(headers := headers, lastHeight := e.blockNumber));
    }
  }

  /** A longer feed is its first block and then the rest; if either fails, so does the whole. */
  lemma AddSplits(keccak: Hasher, c: Chain, e: BlockEntry, es: seq<BlockEntry>, chainId: uint64)
    requires c.lastHeight < TWO_64 - 1
    ensures var first := AddBlocks(keccak, c, [e], chainId);
      AddBlocks(keccak, c, [e] + es, chainId) == if first.Ok? then AddBlocks(keccak, first.value, es, chainId) else first
  {
    hide CheckBlock, StoreHeader, Prune, HeaderOf;
    var entries, one := [e] + es, [e];
    var none: seq<BlockEntry> := [];
    assert entries[1..] == es && one[1..] == none;
    if c.lastHeight > 0 && CheckBlock(keccak, c.headers, c.lastHeight, e, chainId).None? {
      NextHeight(keccak, c.headers, c.lastHeight, e, chainId);
      var headers := Prune(StoreHeader(c.headers, HeaderOf(e)), e.blockNumber);
      assert AddFrom(keccak, headers, e.blockNumber, none, chainId) == Ok((headers, e.blockNumber));
    }
  }

  lemma NextHeight(keccak: Hasher, headers: map<uint64, Bytes>, last: uint64, e: BlockEntry, chainId: uint64)
    requires CheckBlock(keccak, headers, last, e, chainId).None? && last < TWO_64 - 1
    ensures e.blockNumber == last + 1 && RootsDecode(e)
  {
    hide Serialize, DeserializeHeader;
  }

  /**
   After an accepted feed the tip is its last entry's height, every entry still within the last 101 heights loads
   as it came in, all eight fields, and no other header changed; older ones are dropped.
   */
  lemma {:induction false} FeedStores(keccak: Hasher, c: Chain, es: seq<BlockEntry>, chainId: uint64)
    requires c.lastHeight + |es| < TWO_64 && AddBlocks(keccak, c, es, chainId).Ok?
    ensures Fed(c, AddBlocks(keccak, c, es, chainId).value, es)
    decreases |es|
  {
    if es == [] {
    } else {
      hide AddBlocks, Extends, Follows, Fed;
      var one, rest := [es[0]], es[1..];
      assert es == one + rest;
      AddSplits(keccak, c, es[0], rest, chainId);
      AddOneExactly(keccak, c, es[0], chainId);
      var c1 := AddBlocks(keccak, c, one, chainId).value;
      assert c1.lastHeight == c.lastHeight + 1 && es[0].blockNumber == c.lastHeight + 1 by {
        Followed(keccak, c, c1, es[0], chainId);
      }
      FeedStores(keccak, c1, rest, chainId);
      FedOne(c, c1, AddBlocks(keccak, c, es, chainId).value, es);
    }
  }

  ghost predicate Fed(c: Chain, after: Chain, es: seq<BlockEntry>) {
    && after.lastHeight == c.lastHeight + |es| && after.observed == c.observed
    && (forall i :: 0 <= i < |es| ==> es[i].blockNumber == c.lastHeight + 1 + i)
    && (forall i :: 0 <= i < |es| && i + 101 >= |es| ==> Holds(after.headers, es[i], es[i].stateRoot))
    && (forall h: uint64 :: h <= c.lastHeight && h in after.headers ==> h in c.headers && after.headers[h] == c.headers[h])
    && (forall h: uint64 :: h <= c.lastHeight && h in c.headers ==>
          (h in after.headers <==> h == 0 || h + 101 <= c.lastHeight || c.lastHeight + |es| < h + 101))
  }

  lemma Followed(keccak: Hasher, c: Chain, after: Chain, e: BlockEntry, chainId: uint64)
    requires c.lastHeight < TWO_64 - 1 && Follows(keccak, c, e, chainId) && Extends(c, after, e)
    ensures after.lastHeight == e.blockNumber == c.lastHeight + 1
  {
    hide Serialize, DeserializeHeader;
  }

  lemma FedOne(c: Chain, c1: Chain, after: Chain, es: seq<BlockEntry>)
    requires es != [] && es[0].blockNumber == c.lastHeight + 1 && c1.lastHeight == c.lastHeight + 1
    requires c.lastHeight + |es| < TWO_64
    requires Extends(c, c1, es[0]) && Fed(c1, after, es[1..])
    ensures Fed(c, after, es)
  {
    hide DeserializeHeader;
    var rest := es[1..];
    forall i | 0 <= i < |es|
      ensures es[i].blockNumber == c.lastHeight + 1 + i
      ensures i + 101 >= |es| ==> Holds(after.headers, es[i], es[i].stateRoot)
    {
      if i > 0 {
        assert rest[i - 1] == es[i];
      } else if 101 >= |es| {
        assert es[0].blockNumber in after.headers;
      }
    }
  }

  // ----- The stored form -----

  /** A stored header is 137 bytes: a version of 1, then the fields, words big-endian, in this order. */
  lemma StoredForm(h: Header)
    ensures var data := Serialize(h);
      && |data| == 137 && data[0] == 1 && FromBigEndian(data[1..9]) == h.blockNumber
      && data[9..41] == h.stateRoot && data[41..73] == h.transactionsRoot && data[73..105] == h.receiptsRoot
      && FromBigEndian(data[105..113]) == h.baseFeePerGas && FromBigEndian(data[113..121]) == h.gasLimit
      && FromBigEndian(data[121..129]) == h.timestamp && FromBigEndian(data[129..137]) == h.chainId
  {
    SerializedSlices(h, []);
    assert Serialize(h) + [] == Serialize(h);
    hide Serialize;
    Pow256Values();
    FixedRoundTrip(h.blockNumber, 8);
    FixedRoundTrip(h.baseFeePerGas, 8);
    FixedRoundTrip(h.gasLimit, 8);
    FixedRoundTrip(h.timestamp, 8);
    FixedRoundTrip(h.chainId, 8);
  }

  /** Bytes load as a header exactly if there are at least 137 of them and the version is 1. */
  lemma LoadsExactly(data: Bytes)
    ensures DeserializeHeader(data).Some? <==> |data| >= 137 && data[0] == 1
  {
    hide ReadUint64;
  }
}
