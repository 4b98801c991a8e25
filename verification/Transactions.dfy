/**
 Ethereum transactions on both sides: the withdrawal the contract builds and signs, the encoders
 of the monitor, and the contract's parser and signing hash. Type 2 follows EIP-1559, legacy EIP-155.
 */
module Transactions {
  import opened ByteStrings
  import opened Rlp
  import Erc20

  datatype Error = EmptyTransaction | UnsupportedType | TooFewFields | NotEIP1559 | WrongFieldCount | BadRlp(e: Rlp.Error)

  const ETH_TRANSFER_GAS: uint64 := 21_000
  const ERC20_TRANSFER_GAS: uint64 := 65_000
  const TYPE_EIP1559: byte := 2
  const UNSIGNED_FIELDS := 9
  const SIGNED_FIELDS := 12
  const LEGACY_FIELDS := 9

  datatype ParsedTx = ParsedTx(
    chainId: uint64, nonce: uint64, to: Address, value: Bytes, data: Bytes, v: byte, r: Bytes, s: Bytes)

  /** Go's conversion of a word to a byte. */
  function LowByte(n: int): byte {
    (n % 256) as byte
  }

  /** A destination of any length but 20 reads as the zero address. */
  function ToField(b: Bytes): Address {
    if |b| == 20 then b else Zeros(20)
  }

  // ----- Building and signing a withdrawal -----

  function BuildEIP1559Tx(chainId: uint64, nonce: uint64, gasTipCap: uint64, gasFeeCap: uint64, gas: uint64,
                          to: Address, value: nat, data: Bytes): Bytes
  {
    [TYPE_EIP1559] + EncodeList([
      EncodeUint64(chainId), EncodeUint64(nonce), EncodeUint64(gasTipCap), EncodeUint64(gasFeeCap),
      EncodeUint64(gas), EncodeBytes(to), EncodeBigInt(value), EncodeBytes(data), EncodeList([])])
  }

  function BuildETHWithdrawalTx(chainId: uint64, nonce: uint64, gasTipCap: uint64, gasFeeCap: uint64,
                                to: Address, amount: nat): Bytes
  {
    BuildEIP1559Tx(chainId, nonce, gasTipCap, gasFeeCap, ETH_TRANSFER_GAS, to, amount, [])
  }

  function BuildERC20WithdrawalTx(chainId: uint64, nonce: uint64, gasTipCap: uint64, gasFeeCap: uint64,
                                  token: Address, recipient: Address, amount: nat): Bytes
    requires |ToBigEndian(amount)| <= Erc20.CALLDATA_SIZE
  {
    BuildEIP1559Tx(chainId, nonce, gasTipCap, gasFeeCap, ERC20_TRANSFER_GAS,
                   token, 0, Erc20.TransferCalldata(recipient, amount))
  }

  /** One unsigned field written again: any list becomes the empty list. */
  function Resign(item: Item): Bytes {
    if item.List? then EncodeList([]) else EncodeBytes(item.AsBytes())
  }

  function ResignAll(items: seq<Item>): (r: seq<Bytes>)
    ensures |r| == |items| && forall i :: 0 <= i < |items| ==> r[i] == Resign(items[i])
  {
    seq(|items|, i requires 0 <= i < |items| => Resign(items[i]))
  }

  function AttachSignature(unsigned: Bytes, v: byte, r: Bytes, s: Bytes): Result<Bytes, Error> {
    if |unsigned| < 2 || unsigned[0] != TYPE_EIP1559 then Err(NotEIP1559)
    else
      match DecodeList(unsigned[1..])
      case Err(e) => Err(BadRlp(e))
      case Ok(items) =>
        if |items| != UNSIGNED_FIELDS then Err(WrongFieldCount)
        else Ok([TYPE_EIP1559]
                + EncodeList(ResignAll(items) + [EncodeUint64(v as nat), EncodeBytes(r), EncodeBytes(s)]))
  }

  method Sign(unsigned: Bytes, v: byte, r: Bytes, s: Bytes) returns (signed: Result<Bytes, Error>)
    ensures signed == AttachSignature(unsigned, v, r, s)
  {
    hide Decoded, EncodeList, EncodeBytes, Resign;
    if |unsigned| < 2 || unsigned[0] != TYPE_EIP1559 {
      return Err(NotEIP1559);
    }
    var decoded := DecodeList(unsigned[1..]);
    if decoded.Err? {
      return Err(BadRlp(decoded.error));
    }
    var items := decoded.value;
    if |items| != UNSIGNED_FIELDS {
      return Err(WrongFieldCount);
    }
    var encoded := ResignFields(items);
    return Ok([TYPE_EIP1559] + EncodeList(encoded + [EncodeUint64(v as nat), EncodeBytes(r), EncodeBytes(s)]));
  }

  method ResignFields(items: seq<Item>) returns (encoded: seq<Bytes>)
    ensures encoded == ResignAll(items)
  {
    hide EncodeList, EncodeBytes;
    var fields := new Bytes[|items|](i => []);
    for i := 0 to |items|
      invariant forall j :: 0 <= j < i ==> fields[j] == Resign(items[j])
    {
      fields[i] := if items[i].List? then EncodeList([]) else EncodeBytes(items[i].AsBytes());
    }
    return fields[..];
  }

  // ----- Parsing -----

  function ParseEIP1559Tx(data: Bytes): Result<ParsedTx, Error> {
    match DecodeList(data)
    case Err(e) => Err(BadRlp(e))
    case Ok(items) =>
      if |items| < SIGNED_FIELDS then Err(TooFewFields)
      else Ok(ParsedTx(items[0].AsUint64(), items[1].AsUint64(), ToField(items[5].AsBytes()),
                       items[6].AsBytes(), items[7].AsBytes(),
                       LowByte(items[9].AsUint64()), items[10].AsBytes(), items[11].AsBytes()))
  }

  function ParseLegacyTx(data: Bytes): Result<ParsedTx, Error> {
    match DecodeList(data)
    case Err(e) => Err(BadRlp(e))
    case Ok(items) =>
      if |items| < LEGACY_FIELDS then Err(TooFewFields)
      else
        var v := items[6].AsUint64();
        var chainId: uint64 := if v >= 35 then (v - 35) / 2 else 0;
        var recovery := if v >= 35 then LowByte((v - 35) % 2) else LowByte(v - 27);
        Ok(ParsedTx(chainId, items[0].AsUint64(), ToField(items[3].AsBytes()),
                    items[4].AsBytes(), items[5].AsBytes(), recovery, items[7].AsBytes(), items[8].AsBytes()))
  }

  function ParseTransaction(raw: Bytes): Result<ParsedTx, Error> {
    if |raw| == 0 then Err(EmptyTransaction)
    else if raw[0] <= 0x7f then
      if raw[0] == TYPE_EIP1559 then ParseEIP1559Tx(raw[1..]) else Err(UnsupportedType)
    else ParseLegacyTx(raw)
  }

  // ----- Signing hash -----

  /** An unsigned field as computeTxSighash writes it: lists are re-encoded in full. */
  function UnsignedField(item: Item): Bytes {
    if item.List? then Reencode(item) else EncodeBytes(item.AsBytes())
  }

  function UnsignedFields(items: seq<Item>): (r: seq<Bytes>)
    ensures |r| == |items| && forall i :: 0 <= i < |items| ==> r[i] == UnsignedField(items[i])
  {
    seq(|items|, i requires 0 <= i < |items| => UnsignedField(items[i]))
  }

  /** The bytes computeTxSighash hashes. */
  function SighashPreimage(raw: Bytes, tx: ParsedTx): Bytes {
    if |raw| > 0 && raw[0] == TYPE_EIP1559 then
      match DecodeList(raw[1..])
      case Err(_) => raw
      case Ok(items) =>
        if |items| < SIGNED_FIELDS then raw
        else [TYPE_EIP1559] + EncodeList(UnsignedFields(items[..UNSIGNED_FIELDS]))
    else
      match DecodeList(raw)
      case Err(_) => raw
      case Ok(items) =>
        if |items| < LEGACY_FIELDS then raw
        else EncodeList([
          EncodeBytes(items[0].AsBytes()), EncodeBytes(items[1].AsBytes()), EncodeBytes(items[2].AsBytes()),
          EncodeBytes(items[3].AsBytes()), EncodeBytes(items[4].AsBytes()), EncodeBytes(items[5].AsBytes()),
          EncodeUint64(tx.chainId), EncodeBytes([]), EncodeBytes([])])
  }

  function Sighash(keccak: Hasher, raw: Bytes, tx: ParsedTx): Hash {
    keccak(SighashPreimage(raw, tx))
  }

  /** reencodeItem's loop over children. */
  method ReencodeItem(item: Item) returns (r: Bytes)
    ensures r == Reencode(item)
    decreases item
  {
    if item.Str? {
      return EncodeBytes(item.AsBytes());
    }
    var children: seq<Bytes> := [];
    for i := 0 to |item.children|
      invariant Concat(children) == ReencodeAll(item.children[..i])
    {
      var child := ReencodeItem(item.children[i]);
      ConcatAppend(children, [child]);
      assert Concat([child]) == child;
      ReencodeAllAppend(item.children[..i], item.children[i]);
      assert item.children[..i + 1] == item.children[..i] + [item.children[i]];
      children := children + [child];
    }
    assert item.children[..|item.children|] == item.children;
    r := EncodeList(children);
  }

  method EncodeUnsigned(items: seq<Item>) returns (encoded: seq<Bytes>)
    ensures encoded == UnsignedFields(items)
  {
    hide EncodeList, EncodeBytes, Reencode;
    var unsigned := new Bytes[|items|](i => []);
    for i := 0 to |items|
      invariant forall j :: 0 <= j < i ==> unsigned[j] == UnsignedField(items[j])
    {
      if items[i].List? {
        var again := ReencodeItem(items[i]);
        unsigned[i] := again;
      } else {
        unsigned[i] := EncodeBytes(items[i].AsBytes());
      }
    }
    return unsigned[..];
  }

  method ComputeTxSighash(keccak: Hasher, raw: Bytes, tx: ParsedTx) returns (h: Hash)
    ensures h == Sighash(keccak, raw, tx)
  {
    hide Decoded, EncodeList, EncodeBytes;
    if |raw| > 0 && raw[0] == TYPE_EIP1559 {
      var decoded := DecodeList(raw[1..]);
      if decoded.Err? || |decoded.value| < SIGNED_FIELDS {
        return keccak(raw);
      }
      var items := decoded.value;
      var unsigned := EncodeUnsigned(items[..UNSIGNED_FIELDS]);
      return keccak([TYPE_EIP1559] + EncodeList(unsigned));
    }
    return keccak(SighashPreimage(raw, tx));
  }

  // ----- Fixed-width padding -----

  function PadTo32(b: Bytes): (r: Bytes)
    ensures |r| == 32
  {
    if |b| >= 32 then b[..32] else Zeros(32 - |b|) + b
  }

  method Pad(b: Bytes) returns (r: Bytes)
    ensures r == PadTo32(b)
  {
    if |b| >= 32 {
      return b[..32];
    }
    var padded := new byte[32](i => 0);
    for i := 0 to |b|
      invariant forall j :: 0 <= j < 32 ==> padded[j] == if 32 - |b| <= j < 32 - |b| + i then b[j - (32 - |b|)] else 0
    {
      padded[32 - |b| + i] := b[i];
    }
    return padded[..];
  }

  // ----- The monitor's encoders -----

  datatype Access = Access(address: Bytes, storageKeys: seq<Bytes>)

  /** The fields of a fetched transaction, read from hexadecimal. */
  datatype MonitorTx = MonitorTx(
    chainId: uint64, nonce: uint64, gasPrice: nat, maxPriorityFee: nat, maxFee: nat, gas: uint64,
    to: Bytes, value: nat, input: Bytes, accessList: seq<Access>, v: nat, r: nat, s: nat)

  function EncodeAll(strings: seq<Bytes>): (r: seq<Bytes>)
    ensures |r| == |strings| && forall i :: 0 <= i < |r| ==> r[i] == EncodeBytes(strings[i])
  {
    seq(|strings|, i requires 0 <= i < |strings| => EncodeBytes(strings[i]))
  }

  function EncodeAccess(a: Access): Bytes {
    EncodeList([EncodeBytes(a.address), EncodeList(EncodeAll(a.storageKeys))])
  }

  function EncodeAccesses(al: seq<Access>): (r: seq<Bytes>)
    ensures |r| == |al| && forall i :: 0 <= i < |r| ==> r[i] == EncodeAccess(al[i])
  {
    seq(|al|, i requires 0 <= i < |al| => EncodeAccess(al[i]))
  }

  function EncodeAccessList(al: seq<Access>): Bytes {
    EncodeList(EncodeAccesses(al))
  }

  method EncodeStrings(strings: seq<Bytes>) returns (r: seq<Bytes>)
    ensures r == EncodeAll(strings)
  {
    hide EncodeBytes;
    var items := new Bytes[|strings|](i => []);
    for i := 0 to |strings|
      invariant forall j :: 0 <= j < i ==> items[j] == EncodeBytes(strings[j])
    {
      items[i] := EncodeBytes(strings[i]);
    }
    return items[..];
  }

  method MonitorAccessList(al: seq<Access>) returns (r: Bytes)
    ensures r == EncodeAccessList(al)
  {
    hide EncodeList, EncodeBytes;
    if |al| == 0 {
      assert EncodeAccesses(al) == [];
      return EncodeList([]);
    }
    var items := new Bytes[|al|](i => []);
    for i := 0 to |al|
      invariant forall j :: 0 <= j < i ==> items[j] == EncodeAccess(al[j])
    {
      var keys := EncodeStrings(al[i].storageKeys);
      items[i] := EncodeList([EncodeBytes(al[i].address), EncodeList(keys)]);
    }
    assert items[..] == EncodeAccesses(al);
    return EncodeList(items[..]);
  }

  function EncodeMonitorEIP1559(tx: MonitorTx): Bytes {
    [TYPE_EIP1559] + EncodeList([
      EncodeUint64(tx.chainId), EncodeUint64(tx.nonce), EncodeBigInt(tx.maxPriorityFee), EncodeBigInt(tx.maxFee),
      EncodeUint64(tx.gas), EncodeBytes(tx.to), EncodeBigInt(tx.value), EncodeBytes(tx.input),
      EncodeAccessList(tx.accessList), EncodeBigInt(tx.v), EncodeBigInt(tx.r), EncodeBigInt(tx.s)])
  }

  function EncodeMonitorLegacy(tx: MonitorTx): Bytes {
    EncodeList([
      EncodeUint64(tx.nonce), EncodeBigInt(tx.gasPrice), EncodeUint64(tx.gas), EncodeBytes(tx.to),
      EncodeBigInt(tx.value), EncodeBytes(tx.input), EncodeBigInt(tx.v), EncodeBigInt(tx.r), EncodeBigInt(tx.s)])
  }

  // ----- The other transaction types, and the choice between them -----

  const TYPE_ACCESS_LIST: byte := 1
  const TYPE_BLOB: byte := 3
  const TYPE_SET_CODE: byte := 4

  datatype Authorization = Authorization(chainId: uint64, address: Bytes, nonce: uint64, yParity: nat, r: nat, s: nat)

  /** A fetched transaction: its wire bytes, empty when they were not fetched, and its fields. */
  datatype RpcTx = RpcTx(wire: Bytes, txType: uint64, fields: MonitorTx, maxFeePerBlobGas: nat,
                         blobHashes: seq<Bytes>, authorizations: seq<Authorization>)

  function EncodeAuthorization(a: Authorization): Bytes {
    EncodeList([EncodeUint64(a.chainId), EncodeBytes(a.address), EncodeUint64(a.nonce), EncodeBigInt(a.yParity),
                EncodeBigInt(a.r), EncodeBigInt(a.s)])
  }

  function EncodeAuthorizations(al: seq<Authorization>): (r: seq<Bytes>)
    ensures |r| == |al| && forall i :: 0 <= i < |r| ==> r[i] == EncodeAuthorization(al[i])
  {
    seq(|al|, i requires 0 <= i < |al| => EncodeAuthorization(al[i]))
  }

  function EncodeMonitorAccessListTx(tx: MonitorTx): Bytes {
    [TYPE_ACCESS_LIST] + EncodeList([
      EncodeUint64(tx.chainId), EncodeUint64(tx.nonce), EncodeBigInt(tx.gasPrice), EncodeUint64(tx.gas), EncodeBytes(tx.to),
      EncodeBigInt(tx.value), EncodeBytes(tx.input), EncodeAccessList(tx.accessList),
      EncodeBigInt(tx.v), EncodeBigInt(tx.r), EncodeBigInt(tx.s)])
  }

  /** Types 3 and 4: extra stands between the access list and the signature. */
  function EncodeExtended(typeByte: byte, tx: MonitorTx, extra: seq<Bytes>): Bytes {
    [typeByte] + EncodeList([
      EncodeUint64(tx.chainId), EncodeUint64(tx.nonce), EncodeBigInt(tx.maxPriorityFee), EncodeBigInt(tx.maxFee),
      EncodeUint64(tx.gas), EncodeBytes(tx.to), EncodeBigInt(tx.value), EncodeBytes(tx.input),
      EncodeAccessList(tx.accessList)] + extra + [EncodeBigInt(tx.v), EncodeBigInt(tx.r), EncodeBigInt(tx.s)])
  }

  /** Wire bytes pass unchanged; any type but 1 to 4 counts as legacy. */
  function EncodeTx(tx: RpcTx): Bytes {
    if |tx.wire| > 0 then tx.wire
    else if tx.txType == 2 then EncodeMonitorEIP1559(tx.fields)
    else if tx.txType == 3 then
      EncodeExtended(TYPE_BLOB, tx.fields, [EncodeBigInt(tx.maxFeePerBlobGas), EncodeList(EncodeAll(tx.blobHashes))])
    else if tx.txType == 4 then
      EncodeExtended(TYPE_SET_CODE, tx.fields, [EncodeList(EncodeAuthorizations(tx.authorizations))])
    else if tx.txType == 1 then EncodeMonitorAccessListTx(tx.fields)
    else EncodeMonitorLegacy(tx.fields)
  }

  function EncodeTxs(txs: seq<RpcTx>): (r: seq<Bytes>)
    ensures |r| == |txs| && forall i :: 0 <= i < |r| ==> r[i] == EncodeTx(txs[i])
  {
    seq(|txs|, i requires 0 <= i < |txs| => EncodeTx(txs[i]))
  }

  method MonitorAuthorizations(al: seq<Authorization>) returns (r: seq<Bytes>)
    ensures r == EncodeAuthorizations(al)
  {
    hide EncodeList, EncodeBytes, EncodeUint64;
    var items := new Bytes[|al|](i => []);
    for i := 0 to |al|
      invariant forall j :: 0 <= j < i ==> items[j] == EncodeAuthorization(al[j])
    {
      var a := al[i];
      items[i] := EncodeList([EncodeUint64(a.chainId), EncodeBytes(a.address), EncodeUint64(a.nonce),
                              EncodeBigInt(a.yParity), EncodeBigInt(a.r), EncodeBigInt(a.s)]);
    }
    return items[..];
  }

  method MonitorEncodeTx(tx: RpcTx) returns (r: Bytes)
    ensures r == EncodeTx(tx)
  {
    hide EncodeList, EncodeBytes, EncodeUint64, EncodeAccessList;
    if |tx.wire| > 0 {
      return tx.wire;
    }
    var f := tx.fields;
    var accessList := MonitorAccessList(f.accessList);
    if tx.txType == 2 {
      r := [TYPE_EIP1559] + EncodeList([
        EncodeUint64(f.chainId), EncodeUint64(f.nonce), EncodeBigInt(f.maxPriorityFee), EncodeBigInt(f.maxFee),
        EncodeUint64(f.gas), EncodeBytes(f.to), EncodeBigInt(f.value), EncodeBytes(f.input),
        accessList, EncodeBigInt(f.v), EncodeBigInt(f.r), EncodeBigInt(f.s)]);
    } else if tx.txType == 3 {
      var blobHashes := EncodeStrings(tx.blobHashes);
      r := EncodeExtended(TYPE_BLOB, f, [EncodeBigInt(tx.maxFeePerBlobGas), EncodeList(blobHashes)]);
    } else if tx.txType == 4 {
      var authItems := MonitorAuthorizations(tx.authorizations);
      r := EncodeExtended(TYPE_SET_CODE, f, [EncodeList(authItems)]);
    } else if tx.txType == 1 {
      r := EncodeMonitorAccessListTx(f);
    } else {
      r := EncodeMonitorLegacy(f);
    }
  }

  /** Of the re-encoded types the contract's parser refuses exactly 1, 3 and 4 outright. */
  lemma RefusedTypes(tx: RpcTx)
    requires tx.wire == []
    ensures ParseTransaction(EncodeTx(tx)) == Err(UnsupportedType) <==> tx.txType in {1, 3, 4}
  {
    hide Rlp.DecodeList, Concat, EncodeAccessList, EncodeBytes, EncodeUint64;
    var raw := EncodeTx(tx);
    if tx.txType !in {1, 2, 3, 4} {
      ListHeader(raw, tx.fields);
    }
  }

  lemma ListHeader(raw: Bytes, tx: MonitorTx)
    requires raw == EncodeMonitorLegacy(tx)
    ensures |raw| > 0 && raw[0] > 0x7f
  {
    hide Concat, EncodeBytes, EncodeUint64;
  }
}
