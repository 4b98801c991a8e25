/** The fixed-slot calldata of an ERC-20 transfer. */
module Erc20 {
  import opened ByteStrings

  const CALLDATA_SIZE := 68

  function TransferSelector(): (s: Bytes)
    ensures |s| == 4
  {
    [0xa9, 0x05, 0x9c, 0xbb]
  }

  /** Selector, padded recipient, and the amount written over the end of the buffer. */
  function TransferCalldata(to: Address, amount: nat): (r: Bytes)
    requires |ToBigEndian(amount)| <= CALLDATA_SIZE
    ensures |r| == CALLDATA_SIZE
  {
    var base := TransferSelector() + Zeros(12) + to + Zeros(32);
    base[..CALLDATA_SIZE - |ToBigEndian(amount)|] + ToBigEndian(amount)
  }

  /** An amount of more than 68 bytes makes the program panic, so the caller must rule it out. */
  method EncodeTransfer(to: Address, amount: nat) returns (r: Bytes)
    requires |ToBigEndian(amount)| <= CALLDATA_SIZE
    ensures r == TransferCalldata(to, amount)
  {
    var data := new byte[CALLDATA_SIZE](i => 0);
    var selector := TransferSelector();
    for i := 0 to 4
      invariant forall j :: 0 <= j < CALLDATA_SIZE ==> data[j] == if j < i then selector[j] else 0
    {
      data[i] := selector[i];
    }
    for i := 0 to 20
      invariant forall j :: 0 <= j < CALLDATA_SIZE ==>
        data[j] == if j < 4 then selector[j] else if 16 <= j < 16 + i then to[j - 16] else 0
    {
      data[16 + i] := to[i];
    }
    ghost var base := TransferSelector() + Zeros(12) + to + Zeros(32);
    assert data[..] == base;
    var amountBytes := ToBigEndian(amount);
    var start := CALLDATA_SIZE - |amountBytes|;
    for i := 0 to |amountBytes|
      invariant forall j :: 0 <= j < CALLDATA_SIZE ==>
        data[j] == if start <= j < start + i then amountBytes[j - start] else base[j]
    {
      data[start + i] := amountBytes[i];
    }
    r := data[..];
    assert r == base[..start] + amountBytes;
  }

  /** The amount slot reads back the amount exactly when it fits 256 bits; then the recipient slot is intact. */
  lemma CalldataFields(to: Address, amount: nat)
    requires |ToBigEndian(amount)| <= CALLDATA_SIZE
    ensures var data := TransferCalldata(to, amount);
      && (FromBigEndian(data[36..68]) == amount <==> amount < TWO_256)
      && (amount < TWO_256 ==> data[..4] == TransferSelector() && data[4..16] == Zeros(12) && data[16..36] == to)
  {
    var data := TransferCalldata(to, amount);
    var bytes := ToBigEndian(amount);
    Fits256(amount);
    Below256(data[36..68]);
    if amount < TWO_256 {
      var base := TransferSelector() + Zeros(12) + to + Zeros(32);
      assert data[..36] == base[..36];
      assert data[..4] == base[..4] && data[4..16] == base[4..16] && data[16..36] == base[16..36];
      assert data[36..68] == Zeros(32 - |bytes|) + bytes;
      LeadingZeros(32 - |bytes|, bytes);
      FromToBigEndian(amount);
    }
  }
}
