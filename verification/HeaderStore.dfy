/** The header handlers as functions on the stored state, and the object that runs them. */
module HeaderStores {
  import opened ByteStrings
  import opened Blocklist

  function GetHeader(headers: map<uint64, Bytes>, height: uint64): Option<Header> {
    if height in headers then DeserializeHeader(headers[height]) else None
  }

  /** A header is stored under its own number. */
  function StoreHeader(headers: map<uint64, Bytes>, h: Header): map<uint64, Bytes> {
    headers[h.blockNumber := Serialize(h)]
  }

  predicate RootsDecode(e: BlockEntry) {
    |e.stateRoot| == 32 && |e.transactionsRoot| == 32 && |e.receiptsRoot| == 32
  }

  function HeaderOf(e: BlockEntry): Header
    requires RootsDecode(e)
  {
    Header(e.blockNumber, e.stateRoot, e.transactionsRoot, e.receiptsRoot,
           e.baseFeePerGas, e.gasLimit, e.timestamp, e.chainId)
  }

  /** The height dropped when a block arrives, if any. */
  function Prune(headers: map<uint64, Bytes>, height: uint64): map<uint64, Bytes> {
    if height > MAX_BLOCK_RETENTION then headers - {height - MAX_BLOCK_RETENTION} else headers
  }

  function CheckBlock(keccak: Hasher, headers: map<uint64, Bytes>, last: uint64, e: BlockEntry, chainId: uint64): Option<Error> {
    if e.blockNumber != Wrap64(last + 1) then Some(NotSequential)
    else if chainId == 0 then Some(ChainIdUnset)
    else if e.chainId != chainId then Some(ChainIdMismatch)
    else
      match GetHeader(headers, last)
      case None => Some(TipMissing)
      case Some(prev) =>
        if e.parentHash != keccak(Serialize(prev)) then Some(ParentMismatch)
        else if !RootsDecode(e) then Some(BadRoot)
        else None
  }

  /** The loop of HandleAddBlocks: headers and tip after the entries, or the first error. */
  function AddFrom(keccak: Hasher, headers: map<uint64, Bytes>, last: uint64, entries: seq<BlockEntry>, chainId: uint64)
    : Result<(map<uint64, Bytes>, uint64), Error>
    decreases entries
  {
    if entries == [] then Ok((headers, last))
    else
      match CheckBlock(keccak, headers, last, entries[0], chainId)
      case Some(e) => Err(e)
      case None =>
        var e := entries[0];
        AddFrom(keccak, Prune(StoreHeader(headers, HeaderOf(e)), e.blockNumber), e.blockNumber, entries[1..], chainId)
  }

  function AddBlocks(keccak: Hasher, c: Chain, entries: seq<BlockEntry>, chainId: uint64): Result<Chain, Error> {
    if c.lastHeight == 0 then Err(NotSeeded)
    else
      match AddFrom(keccak, c.headers, c.lastHeight, entries, chainId)
      case Err(e) => Err(e)
      case Ok((headers, last)) => Ok(c.(headers := headers, lastHeight := last))
  }

  /** The seed leaves the state root zero; the dispatcher refuses it once a height is stored. */
  function SeedBlock(c: Chain, e: BlockEntry, chainId: uint64): Result<Chain, Error> {
    if c.lastHeight > 0 then Err(AlreadySeeded)
    else if e.blockNumber == 0 then Err(ZeroHeight)
    else if chainId == 0 then Err(ChainIdUnset)
    else if e.chainId != chainId then Err(ChainIdMismatch)
    else if |e.transactionsRoot| != 32 || |e.receiptsRoot| != 32 then Err(BadRoot)
    else
      Ok(c.(headers := StoreHeader(c.headers, HeaderOf(e.(stateRoot := Zeros(32)))), lastHeight := e.blockNumber))
  }

  /** Replacing a header also drops the observed deposits of its height. */
  function ReplaceBlock(c: Chain, e: BlockEntry, chainId: uint64): Result<Chain, Error> {
    match GetHeader(c.headers, e.blockNumber)
    case None => Err(BlockNotFound)
    case Some(existing) =>
      if chainId == 0 then Err(ChainIdUnset)
      else if e.chainId != chainId then Err(ChainIdMismatch)
      else if existing.chainId != 0 && existing.chainId != e.chainId then Err(ChainIdMismatch)
      else if !RootsDecode(e) then Err(BadRoot)
      else Ok(c.(headers := StoreHeader(c.headers, HeaderOf(e)), observed := c.observed - {e.blockNumber}))
  }

  // ----- The stored state -----

  class HeaderStore {
    var headers: map<uint64, Bytes>
    var lastHeight: uint64
    var observed: map<uint64, Bytes>

    constructor ()
      ensures View() == Chain(map[], 0, map[])
    {
      headers, lastHeight, observed := map[], 0, map[];
    }

    ghost function View(): Chain
      reads this
    {
      Chain(headers, lastHeight, observed)
    }

    method StoreOne(h: Header)
      modifies this`headers
      ensures headers == StoreHeader(old(headers), h)
    {
      headers := headers[h.blockNumber := Serialize(h)];
    }

    /** An error aborts the call, and the host then restores what the loop had stored. */
    method HandleAddBlocks(keccak: Hasher, entries: seq<BlockEntry>, chainId: uint64) returns (error: Option<Error>)
      modifies this
      ensures AddBlocks(keccak, old(View()), entries, chainId)
        == if error.Some? then Err(error.value) else Ok(View())
      ensures error.Some? ==> View() == old(View())
    {
      hide Serialize, DeserializeHeader;
      var last := lastHeight;
      if last == 0 {
        return Some(NotSeeded);
      }
      var saved := headers;
      for i := 0 to |entries|
        invariant lastHeight == old(lastHeight) && observed == old(observed)
        invariant AddFrom(keccak, saved, lastHeight, entries, chainId)
          == AddFrom(keccak, headers, last, entries[i..], chainId)
      {
        var e := entries[i];
        assert entries[i..][0] == e && entries[i..][1..] == entries[i + 1..];
        error := CheckBlock(keccak, headers, last, e, chainId);
        if error.Some? {
          headers := saved;
          return;
        }
        StoreOne(HeaderOf(e));
        last := e.blockNumber;
        if e.blockNumber > MAX_BLOCK_RETENTION {
          headers := headers - {e.blockNumber - MAX_BLOCK_RETENTION};
        }
      }
      lastHeight := last;
      error := None;
    }

    method HandleSeedBlock(e: BlockEntry, chainId: uint64) returns (error: Option<Error>)
      modifies this
      ensures SeedBlock(old(View()), e, chainId) == if error.Some? then Err(error.value) else Ok(View())
      ensures error.Some? ==> View() == old(View())
    {
      if lastHeight > 0 {
        return Some(AlreadySeeded);
      }
      if e.blockNumber == 0 {
        return Some(ZeroHeight);
      }
      if chainId == 0 {
        return Some(ChainIdUnset);
      }
      if e.chainId != chainId {
        return Some(ChainIdMismatch);
      }
      if |e.transactionsRoot| != 32 || |e.receiptsRoot| != 32 {
        return Some(BadRoot);
      }
      StoreOne(HeaderOf(e.(stateRoot := Zeros(32))));
      lastHeight := e.blockNumber;
      error := None;
    }

    method HandleReplaceBlock(e: BlockEntry, chainId: uint64) returns (error: Option<Error>)
      modifies this
      ensures ReplaceBlock(old(View()), e, chainId) == if error.Some? then Err(error.value) else Ok(View())
      ensures error.Some? ==> View() == old(View())
    {
      hide Serialize, DeserializeHeader;
      var existing := GetHeader(headers, e.blockNumber);
      if existing.None? {
        return Some(BlockNotFound);
      }
      if chainId == 0 {
        return Some(ChainIdUnset);
      }
      if e.chainId != chainId {
        return Some(ChainIdMismatch);
      }
      if existing.value.chainId != 0 && existing.value.chainId != e.chainId {
        return Some(ChainIdMismatch);
      }
      if !RootsDecode(e) {
        return Some(BadRoot);
      }
      StoreOne(HeaderOf(e));
      observed := observed - {e.blockNumber};
      error := None;
    }
  }
}
