/** The contract's rolling window of block headers: storage format, and the seed, add and replace handlers. */
module Blocklist {
  import opened ByteStrings

  const MAX_BLOCK_RETENTION := 101
  const HEADER_VERSION: byte := 1
  const HEADER_SIZE := 137

  datatype Header = Header(
    blockNumber: uint64, stateRoot: Hash, transactionsRoot: Hash, receiptsRoot: Hash,
    baseFeePerGas: uint64, gasLimit: uint64, timestamp: uint64, chainId: uint64)

  /** A submitted header; roots and the parent hash are the decoded bytes, of any length. */
  datatype BlockEntry = BlockEntry(
    blockNumber: uint64, parentHash: Bytes, stateRoot: Bytes, transactionsRoot: Bytes, receiptsRoot: Bytes,
    baseFeePerGas: uint64, gasLimit: uint64, timestamp: uint64, chainId: uint64)

  datatype Error =
    | NotSeeded | NotSequential | ChainIdUnset | ChainIdMismatch | TipMissing | ParentMismatch | BadRoot
    | ZeroHeight | AlreadySeeded | BlockNotFound

  /** Stored headers and observed-deposit bytes by height; lastHeight is 0 before seeding. */
  datatype Chain = Chain(headers: map<uint64, Bytes>, lastHeight: uint64, observed: map<uint64, Bytes>)

  // ----- Storage format -----

  /** The low n bytes of a number, high byte first. */
  function FixedBytes(v: nat, n: nat): (r: Bytes)
    ensures |r| == n
  {
    if n == 0 then [] else FixedBytes(v / 256, n - 1) + [(v % 256) as byte]
  }

  function Serialize(h: Header): (r: Bytes)
    ensures |r| == HEADER_SIZE
  {
    [HEADER_VERSION] + FixedBytes(h.blockNumber, 8) + h.stateRoot + h.transactionsRoot + h.receiptsRoot
    + FixedBytes(h.baseFeePerGas, 8) + FixedBytes(h.gasLimit, 8) + FixedBytes(h.timestamp, 8) + FixedBytes(h.chainId, 8)
  }

  function ReadUint64(buf: Bytes, offset: nat): uint64
    requires offset + 8 <= |buf|
  {
    Below64(buf[offset..offset + 8]);
    FromBigEndian(buf[offset..offset + 8])
  }

  function DeserializeHeader(data: Bytes): Option<Header> {
    if |data| < HEADER_SIZE || data[0] != HEADER_VERSION then None
    else Some(Header(
      ReadUint64(data, 1), data[9..41], data[41..73], data[73..105],
      ReadUint64(data, 105), ReadUint64(data, 113), ReadUint64(data, 121), ReadUint64(data, 129)))
  }

  /** appendUint64, one shift per byte. */
  method AppendUint64(buf: Bytes, v: uint64) returns (r: Bytes)
    ensures r == buf + FixedBytes(v, 8)
  {
    var b0, b1, b2, b3 := v / 0x100_0000_0000_0000, v / 0x1_0000_0000_0000, v / 0x100_0000_0000, v / 0x1_0000_0000;
    var b4, b5, b6 := v / 0x100_0000, v / 0x1_0000, v / 0x100;
    r := buf + [(b0 % 256) as byte, (b1 % 256) as byte, (b2 % 256) as byte, (b3 % 256) as byte,
                (b4 % 256) as byte, (b5 % 256) as byte, (b6 % 256) as byte, (v % 256) as byte];
    FixedStep(v, b6, 7, (v % 256) as byte);
    FixedStep(b6, b5, 6, (b6 % 256) as byte);
    FixedStep(b5, b4, 5, (b5 % 256) as byte);
    FixedStep(b4, b3, 4, (b4 % 256) as byte);
    FixedStep(b3, b2, 3, (b3 % 256) as byte);
    FixedStep(b2, b1, 2, (b2 % 256) as byte);
    FixedStep(b1, b0, 1, (b1 % 256) as byte);
    FixedStep(b0, b0 / 256, 0, (b0 % 256) as byte);
  }

  lemma FixedStep(v: nat, high: nat, n: nat, low: byte)
    requires high == v / 256 && low as int == v % 256
    ensures FixedBytes(v, n + 1) == FixedBytes(high, n) + [low]
  {
  }

  lemma {:induction false} FixedRoundTrip(v: nat, n: nat)
    requires v < Pow256(n)
    ensures FromBigEndian(FixedBytes(v, n)) == v
  {
    if n > 0 {
      FixedRoundTrip(v / 256, n - 1);
      var r := FixedBytes(v, n);
      assert r[..|r| - 1] == FixedBytes(v / 256, n - 1);
    }
  }

  lemma ReadFixed(buf: Bytes, offset: nat, v: uint64)
    requires offset + 8 <= |buf| && buf[offset..offset + 8] == FixedBytes(v, 8)
    ensures ReadUint64(buf, offset) == v
  {
    Pow256Values();
    FixedRoundTrip(v, 8);
  }

  /** Storing a header and loading it back changes nothing, whatever follows it in the stored bytes. */
  lemma HeaderRoundTrip(h: Header, padding: Bytes)
    ensures DeserializeHeader(Serialize(h) + padding) == Some(h)
  {
    var data := Serialize(h) + padding;
    SerializedSlices(h, padding);
    hide FixedBytes, Serialize, ReadUint64;
    ReadFixed(data, 1, h.blockNumber);
    ReadFixed(data, 105, h.baseFeePerGas);
    ReadFixed(data, 113, h.gasLimit);
    ReadFixed(data, 121, h.timestamp);
    ReadFixed(data, 129, h.chainId);
  }

  lemma SerializedSlices(h: Header, padding: Bytes)
    ensures var data := Serialize(h) + padding;
      && data[0] == HEADER_VERSION && data[1..9] == FixedBytes(h.blockNumber, 8)
      && data[9..41] == h.stateRoot && data[41..73] == h.transactionsRoot && data[73..105] == h.receiptsRoot
      && data[105..113] == FixedBytes(h.baseFeePerGas, 8) && data[113..121] == FixedBytes(h.gasLimit, 8)
      && data[121..129] == FixedBytes(h.timestamp, 8) && data[129..137] == FixedBytes(h.chainId, 8)
  {
    hide FixedBytes;
  }
}
