/** A transaction re-encoded by the monitor reads back on the contract as the fields it was made from. */
module MonitorTheorems {
  import opened ByteStrings
  import opened Rlp
  import opened RlpTheorems
  import opened Transactions
  import opened TransactionTheorems
  import opened SighashTheorems

  predicate SmallStrings(strings: seq<Bytes>) {
    forall s :: s in strings ==> |s| <= 65536
  }

  /** Field sizes the contract's decoder takes. */
  predicate Reasonable(tx: MonitorTx) {
    && |tx.to| <= 65536 && |tx.input| <= 65536
    && tx.gasPrice < TWO_256 && tx.maxPriorityFee < TWO_256 && tx.maxFee < TWO_256 && tx.value < TWO_256
    && tx.v < TWO_64 && tx.r < TWO_256 && tx.s < TWO_256
    && forall a :: a in tx.accessList ==> |a.address| <= 65536 && SmallStrings(a.storageKeys)
  }

  function StrItems(strings: seq<Bytes>): (r: seq<Item>)
    ensures |r| == |strings| && forall i :: 0 <= i < |r| ==> r[i] == Str(strings[i])
  {
    seq(|strings|, i requires 0 <= i < |strings| => Str(strings[i]))
  }

  function AccessItem(a: Access): Item {
    List([Str(a.address), List(StrItems(a.storageKeys))])
  }

  function AccessItems(al: seq<Access>): (r: seq<Item>)
    ensures |r| == |al| && forall i :: 0 <= i < |r| ==> r[i] == AccessItem(al[i])
  {
    seq(|al|, i requires 0 <= i < |al| => AccessItem(al[i]))
  }

  lemma AccessListItem(al: seq<Access>)
    ensures EncodeAccessList(al) == Reencode(List(AccessItems(al)))
  {
    hide Reencode, EncodeBytes, EncodeList;
    forall i | 0 <= i < |al|
      ensures EncodeAccess(al[i]) == Reencode(AccessItem(al[i]))
    {
      var a := al[i];
      forall j | 0 <= j < |a.storageKeys|
        ensures EncodeAll(a.storageKeys)[j] == Reencode(StrItems(a.storageKeys)[j])
      {
        StrItem(a.storageKeys[j]);
      }
      ListItem(EncodeAll(a.storageKeys), StrItems(a.storageKeys));
      StrItem(a.address);
      ListItem([EncodeBytes(a.address), EncodeList(EncodeAll(a.storageKeys))],
               [Str(a.address), List(StrItems(a.storageKeys))]);
    }
    ListItem(EncodeAccesses(al), AccessItems(al));
  }

  lemma AccessListDecodable(al: seq<Access>)
    requires forall a :: a in al ==> |a.address| <= 65536 && SmallStrings(a.storageKeys)
    ensures Decodable(List(AccessItems(al)), 1)
  {
    forall item | item in AccessItems(al)
      ensures Decodable(item, 2)
    {
      var i :| 0 <= i < |al| && item == AccessItem(al[i]);
      assert al[i] in al;
      forall k | k in StrItems(al[i].storageKeys)
        ensures Decodable(k, 4)
      {
        var j :| 0 <= j < |al[i].storageKeys| && k == Str(al[i].storageKeys[j]);
        assert al[i].storageKeys[j] in al[i].storageKeys;
      }
      assert Decodable(List(StrItems(al[i].storageKeys)), 3);
    }
  }

  function NumItem(n: nat): Item {
    Str(ToBigEndian(n))
  }

  lemma NumDecodable(n: nat)
    requires n < TWO_256
    ensures Decodable(NumItem(n), 1)
  {
    Fits256(n);
  }

  // ----- Type 2 -----

  function EIP1559Items(tx: MonitorTx): (items: seq<Item>)
    requires Reasonable(tx)
    ensures |items| == SIGNED_FIELDS
  {
    [NumItem(tx.chainId), NumItem(tx.nonce), NumItem(tx.maxPriorityFee), NumItem(tx.maxFee), NumItem(tx.gas),
     Str(tx.to), NumItem(tx.value), Str(tx.input), List(AccessItems(tx.accessList)),
     NumItem(tx.v), NumItem(tx.r), NumItem(tx.s)]
  }

  lemma EIP1559IsItem(tx: MonitorTx)
    requires Reasonable(tx)
    ensures EncodeMonitorEIP1559(tx) == [TYPE_EIP1559] + Reencode(List(EIP1559Items(tx)))
  {
    hide Reencode, EncodeBytes, EncodeList, EncodeUint64, EncodeBigInt, ToBigEndian;
    WordItem(tx.chainId);
    WordItem(tx.nonce);
    WordItem(tx.maxPriorityFee);
    WordItem(tx.maxFee);
    WordItem(tx.gas);
    StrItem(tx.to);
    WordItem(tx.value);
    StrItem(tx.input);
    AccessListItem(tx.accessList);
    WordItem(tx.v);
    WordItem(tx.r);
    WordItem(tx.s);
    hide EncodeAccessList, AccessItems;
    ListItem([
      EncodeUint64(tx.chainId), EncodeUint64(tx.nonce), EncodeBigInt(tx.maxPriorityFee), EncodeBigInt(tx.maxFee),
      EncodeUint64(tx.gas), EncodeBytes(tx.to), EncodeBigInt(tx.value), EncodeBytes(tx.input),
      EncodeAccessList(tx.accessList), EncodeBigInt(tx.v), EncodeBigInt(tx.r), EncodeBigInt(tx.s)],
      EIP1559Items(tx));
  }

  lemma EIP1559Decodable(tx: MonitorTx)
    requires Reasonable(tx)
    ensures AllDecodable(EIP1559Items(tx), 1)
  {
    NumDecodable(tx.chainId);
    NumDecodable(tx.nonce);
    NumDecodable(tx.maxPriorityFee);
    NumDecodable(tx.maxFee);
    NumDecodable(tx.gas);
    NumDecodable(tx.value);
    NumDecodable(tx.v);
    NumDecodable(tx.r);
    NumDecodable(tx.s);
    AccessListDecodable(tx.accessList);
    StrDecodable(tx.to);
    StrDecodable(tx.input);
    hide Decodable, NumItem, AccessItems;
  }

  lemma StrDecodable(b: Bytes)
    requires |b| <= 65536
    ensures Decodable(Str(b), 1)
  {
  }

  lemma NumValue(n: nat)
    requires n < TWO_64
    ensures NumItem(n).AsUint64() == n
  {
    WordValue(n);
  }

  lemma ByteValue(n: nat)
    requires n < 256
    ensures LowByte(n) as int == n
  {
  }

  /** The signature halves come back to 32 bytes after their leading zeros were dropped. */
  lemma PadRestores(n: nat)
    requires n < TWO_256
    ensures FromBigEndian(PadTo32(ToBigEndian(n))) == n
  {
    Fits256(n);
    FromToBigEndian(n);
    var b := ToBigEndian(n);
    if |b| < 32 {
      LeadingZeros(32 - |b|, b);
    } else {
      assert b[..32] == b;
    }
  }

  /** The nine unsigned fields as the monitor encodes them. */
  function UnsignedEncoding(tx: MonitorTx): Bytes {
    [TYPE_EIP1559] + EncodeList([
      EncodeUint64(tx.chainId), EncodeUint64(tx.nonce), EncodeBigInt(tx.maxPriorityFee), EncodeBigInt(tx.maxFee),
      EncodeUint64(tx.gas), EncodeBytes(tx.to), EncodeBigInt(tx.value), EncodeBytes(tx.input),
      EncodeAccessList(tx.accessList)])
  }

  lemma UnsignedEncodingIsItem(tx: MonitorTx)
    requires Reasonable(tx)
    ensures UnsignedEncoding(tx) == [TYPE_EIP1559] + Reencode(List(EIP1559Items(tx)[..UNSIGNED_FIELDS]))
  {
    hide Reencode, EncodeBytes, EncodeList, EncodeUint64, EncodeBigInt, ToBigEndian;
    WordItem(tx.chainId);
    WordItem(tx.nonce);
    WordItem(tx.maxPriorityFee);
    WordItem(tx.maxFee);
    WordItem(tx.gas);
    StrItem(tx.to);
    WordItem(tx.value);
    StrItem(tx.input);
    AccessListItem(tx.accessList);
    hide EncodeAccessList, AccessItems;
    ListItem([
      EncodeUint64(tx.chainId), EncodeUint64(tx.nonce), EncodeBigInt(tx.maxPriorityFee), EncodeBigInt(tx.maxFee),
      EncodeUint64(tx.gas), EncodeBytes(tx.to), EncodeBigInt(tx.value), EncodeBytes(tx.input),
      EncodeAccessList(tx.accessList)],
      EIP1559Items(tx)[..UNSIGNED_FIELDS]);
  }

  /** The parser inverts the monitor's type-2 encoder, and the signing preimage is its unsigned part. */
  lemma EIP1559RoundTrip(tx: MonitorTx)
    requires Reasonable(tx) && tx.v < 256 && |EncodeMonitorEIP1559(tx)| < TWO_63
    ensures var raw := EncodeMonitorEIP1559(tx);
      var parsed := ParsedTx(tx.chainId, tx.nonce, ToField(tx.to), ToBigEndian(tx.value), tx.input,
                             tx.v as byte, ToBigEndian(tx.r), ToBigEndian(tx.s));
      && ParseTransaction(raw) == Ok(parsed)
      && SighashPreimage(raw, parsed) == UnsignedEncoding(tx)
      && FromBigEndian(PadTo32(parsed.r)) == tx.r && FromBigEndian(PadTo32(parsed.s)) == tx.s
  {
    var items := EIP1559Items(tx);
    var raw := EncodeMonitorEIP1559(tx);
    EIP1559IsItem(tx);
    EIP1559Decodable(tx);
    UnsignedEncodingIsItem(tx);
    PadRestores(tx.r);
    PadRestores(tx.s);
    NumValue(tx.chainId);
    NumValue(tx.nonce);
    NumValue(tx.v);
    ByteValue(tx.v);
    assert items[9].AsUint64() == tx.v;
    hide Reencode, Decoded, EncodeMonitorEIP1559, UnsignedEncoding, PadTo32, ToBigEndian, Decodable, Item.AsUint64, AccessItems;
    assert raw[1..] == Reencode(List(items));
    DecodeListItem(items);
    NineFields(items[..UNSIGNED_FIELDS]);
    ReencodeListOf(items[..UNSIGNED_FIELDS]);
    hide EncodeList, UnsignedFields, LowByte;
  }

  lemma ReencodeListOf(items: seq<Item>)
    ensures Reencode(List(items)) == EncodeLength(|ReencodeAll(items)|, 0xc0) + ReencodeAll(items)
  {
  }

  // ----- Legacy -----

  function LegacyItems(tx: MonitorTx): (items: seq<Item>)
    ensures |items| == LEGACY_FIELDS
  {
    [NumItem(tx.nonce), NumItem(tx.gasPrice), NumItem(tx.gas), Str(tx.to), NumItem(tx.value), Str(tx.input),
     NumItem(tx.v), NumItem(tx.r), NumItem(tx.s)]
  }

  lemma LegacyIsItem(tx: MonitorTx)
    ensures EncodeMonitorLegacy(tx) == Reencode(List(LegacyItems(tx)))
  {
    hide Reencode, EncodeBytes, EncodeList, EncodeUint64, EncodeBigInt, ToBigEndian;
    WordItem(tx.nonce);
    WordItem(tx.gasPrice);
    WordItem(tx.gas);
    StrItem(tx.to);
    WordItem(tx.value);
    StrItem(tx.input);
    WordItem(tx.v);
    WordItem(tx.r);
    WordItem(tx.s);
    ListItem([
      EncodeUint64(tx.nonce), EncodeBigInt(tx.gasPrice), EncodeUint64(tx.gas), EncodeBytes(tx.to),
      EncodeBigInt(tx.value), EncodeBytes(tx.input), EncodeBigInt(tx.v), EncodeBigInt(tx.r), EncodeBigInt(tx.s)],
      LegacyItems(tx));
  }

  lemma LegacyShort(tx: MonitorTx)
    requires Reasonable(tx)
    ensures Short(LegacyItems(tx))
  {
    NumDecodable(tx.nonce);
    NumDecodable(tx.gasPrice);
    NumDecodable(tx.gas);
    NumDecodable(tx.value);
    NumDecodable(tx.v);
    NumDecodable(tx.r);
    NumDecodable(tx.s);
    hide ToBigEndian;
  }

  /** What EIP-155 has a legacy signer sign: the six fields, the chain id and two zeros. */
  function LegacyUnsigned(tx: MonitorTx, chainId: uint64): Bytes {
    EncodeList([
      EncodeUint64(tx.nonce), EncodeBigInt(tx.gasPrice), EncodeUint64(tx.gas), EncodeBytes(tx.to),
      EncodeBigInt(tx.value), EncodeBytes(tx.input), EncodeUint64(chainId), EncodeUint64(0), EncodeUint64(0)])
  }

  /** With v = 2c + 35 + y the parser inverts the monitor's legacy encoder and recovers c and y. */
  lemma LegacyRoundTrip(tx: MonitorTx, c: nat, y: nat)
    requires Reasonable(tx) && y <= 1 && tx.v == 2 * c + 35 + y
    ensures var raw := EncodeMonitorLegacy(tx);
      var parsed := ParsedTx(c, tx.nonce, ToField(tx.to), ToBigEndian(tx.value), tx.input,
                             y as byte, ToBigEndian(tx.r), ToBigEndian(tx.s));
      && ParseTransaction(raw) == Ok(parsed)
      && SighashPreimage(raw, parsed) == LegacyUnsigned(tx, c)
  {
    var items := LegacyItems(tx);
    var raw := EncodeMonitorLegacy(tx);
    LegacyDecodes(tx);
    NumValue(tx.nonce);
    NumValue(tx.v);
    assert items[0].AsUint64() == tx.nonce && items[6].AsUint64() == tx.v;
    hide Decoded, EncodeMonitorLegacy, ToBigEndian, Item.AsUint64, SighashPreimage, LegacyUnsigned;
    Eip155(raw, c, y);
    var parsed := ParseTransaction(raw).value;
    LegacyPreimageOf(tx, parsed);
  }

  lemma LegacyDecodes(tx: MonitorTx)
    requires Reasonable(tx)
    ensures var raw := EncodeMonitorLegacy(tx);
      |raw| > 0 && raw[0] > 0x7f && DecodeList(raw) == Ok(LegacyItems(tx))
  {
    LegacyIsItem(tx);
    LegacyShort(tx);
    ListNotEmpty(LegacyItems(tx));
    hide Reencode, Decoded, EncodeMonitorLegacy, ToBigEndian;
    DecodeShortList(LegacyItems(tx));
  }

  lemma LegacyPreimageOf(tx: MonitorTx, parsed: ParsedTx)
    requires Reasonable(tx)
    ensures SighashPreimage(EncodeMonitorLegacy(tx), parsed) == LegacyUnsigned(tx, parsed.chainId)
  {
    LegacyDecodes(tx);
    EncodedFields(tx);
    hide Decoded, EncodeMonitorLegacy, ToBigEndian, EncodeUint64, EncodeBigInt, EncodeBytes, EncodeList;
  }

  lemma EncodedFields(tx: MonitorTx)
    ensures EncodeBytes(ToBigEndian(tx.nonce)) == EncodeUint64(tx.nonce)
    ensures EncodeBytes(ToBigEndian(tx.gasPrice)) == EncodeBigInt(tx.gasPrice)
    ensures EncodeBytes(ToBigEndian(tx.gas)) == EncodeUint64(tx.gas)
    ensures EncodeBytes(ToBigEndian(tx.value)) == EncodeBigInt(tx.value)
    ensures EncodeBytes([]) == EncodeUint64(0)
  {
  }

  // ----- Every type -----

  /** The first byte of EIP-2718: none for a legacy transaction. */
  function TypePrefix(txType: uint64): Bytes {
    if 1 <= txType <= 4 then [txType as byte] else []
  }

  function AuthorizationItem(a: Authorization): Item {
    List([NumItem(a.chainId), Str(a.address), NumItem(a.nonce), NumItem(a.yParity), NumItem(a.r), NumItem(a.s)])
  }

  function AuthorizationItems(al: seq<Authorization>): (r: seq<Item>)
    ensures |r| == |al| && forall i :: 0 <= i < |r| ==> r[i] == AuthorizationItem(al[i])
  {
    seq(|al|, i requires 0 <= i < |al| => AuthorizationItem(al[i]))
  }

  /** The fields between nonce and access list: a legacy and a type-1 transaction have one price, the others two. */
  function CallItems(tx: MonitorTx, prices: seq<Item>): seq<Item> {
    prices + [NumItem(tx.gas), Str(tx.to), NumItem(tx.value), Str(tx.input)]
  }

  /** The fields of each type in the order of EIP-155, EIP-2930, EIP-1559, EIP-4844 and EIP-7702. */
  function EnvelopeItems(tx: RpcTx): seq<Item> {
    var f := tx.fields;
    var one, two := [NumItem(f.gasPrice)], [NumItem(f.maxPriorityFee), NumItem(f.maxFee)];
    var head, access, signature := [NumItem(f.chainId), NumItem(f.nonce)], [List(AccessItems(f.accessList))],
      [NumItem(f.v), NumItem(f.r), NumItem(f.s)];
    if tx.txType == 1 then head + CallItems(f, one) + access + signature
    else if tx.txType == 2 then head + CallItems(f, two) + access + signature
    else if tx.txType == 3 then
      head + CallItems(f, two) + access + [NumItem(tx.maxFeePerBlobGas), List(StrItems(tx.blobHashes))] + signature
    else if tx.txType == 4 then
      head + CallItems(f, two) + access + [List(AuthorizationItems(tx.authorizations))] + signature
    else [NumItem(f.nonce)] + CallItems(f, one) + signature
  }

  lemma AuthorizationsItem(al: seq<Authorization>)
    ensures EncodeList(EncodeAuthorizations(al)) == Reencode(List(AuthorizationItems(al)))
  {
    hide Reencode, EncodeBytes, EncodeList, EncodeUint64, EncodeBigInt, ToBigEndian;
    forall i | 0 <= i < |al|
      ensures EncodeAuthorization(al[i]) == Reencode(AuthorizationItem(al[i]))
    {
      var a := al[i];
      WordItem(a.chainId);
      StrItem(a.address);
      WordItem(a.nonce);
      WordItem(a.yParity);
      WordItem(a.r);
      WordItem(a.s);
      ListItem([EncodeUint64(a.chainId), EncodeBytes(a.address), EncodeUint64(a.nonce), EncodeBigInt(a.yParity),
                EncodeBigInt(a.r), EncodeBigInt(a.s)],
               [NumItem(a.chainId), Str(a.address), NumItem(a.nonce), NumItem(a.yParity), NumItem(a.r), NumItem(a.s)]);
    }
    ListItem(EncodeAuthorizations(al), AuthorizationItems(al));
  }

  lemma BlobHashesItem(hashes: seq<Bytes>)
    ensures EncodeList(EncodeAll(hashes)) == Reencode(List(StrItems(hashes)))
  {
    hide Reencode, EncodeBytes, EncodeList;
    forall i | 0 <= i < |hashes|
      ensures EncodeAll(hashes)[i] == Reencode(StrItems(hashes)[i])
    {
      StrItem(hashes[i]);
    }
    ListItem(EncodeAll(hashes), StrItems(hashes));
  }

  /** The encoded fields of the basic kinds are the items they stand for. */
  lemma FieldItems(tx: MonitorTx)
    ensures EncodeUint64(tx.chainId) == Reencode(NumItem(tx.chainId)) && EncodeUint64(tx.nonce) == Reencode(NumItem(tx.nonce))
    ensures EncodeBigInt(tx.gasPrice) == Reencode(NumItem(tx.gasPrice)) && EncodeBigInt(tx.maxFee) == Reencode(NumItem(tx.maxFee))
    ensures EncodeBigInt(tx.maxPriorityFee) == Reencode(NumItem(tx.maxPriorityFee))
    ensures EncodeUint64(tx.gas) == Reencode(NumItem(tx.gas)) && EncodeBytes(tx.to) == Reencode(Str(tx.to))
    ensures EncodeBigInt(tx.value) == Reencode(NumItem(tx.value)) && EncodeBytes(tx.input) == Reencode(Str(tx.input))
    ensures EncodeAccessList(tx.accessList) == Reencode(List(AccessItems(tx.accessList)))
    ensures EncodeBigInt(tx.v) == Reencode(NumItem(tx.v)) && EncodeBigInt(tx.r) == Reencode(NumItem(tx.r))
    ensures EncodeBigInt(tx.s) == Reencode(NumItem(tx.s))
  {
    hide Reencode, EncodeBytes, EncodeUint64, EncodeBigInt, ToBigEndian, EncodeAccessList, AccessItems;
    WordItem(tx.chainId);
    WordItem(tx.nonce);
    WordItem(tx.gasPrice);
    WordItem(tx.maxPriorityFee);
    WordItem(tx.maxFee);
    WordItem(tx.gas);
    StrItem(tx.to);
    WordItem(tx.value);
    StrItem(tx.input);
    AccessListItem(tx.accessList);
    WordItem(tx.v);
    WordItem(tx.r);
    WordItem(tx.s);
  }

  /** Wire bytes pass unchanged; without them a transaction is encoded as its type's fields, in order, behind the type byte. */
  lemma EnvelopeExactly(tx: RpcTx)
    ensures EncodeTx(tx) == if tx.wire != [] then tx.wire else TypePrefix(tx.txType) + Reencode(List(EnvelopeItems(tx)))
  {
    hide Reencode, EncodeBytes, EncodeList, EncodeUint64, EncodeBigInt, ToBigEndian, NumItem, EncodeAccessList, AccessItems;
    hide EncodeAuthorizations, AuthorizationItems, EncodeAll, StrItems;
    var f := tx.fields;
    FieldItems(f);
    if tx.wire != [] {
    } else if tx.txType == 1 {
      ListItem([
        EncodeUint64(f.chainId), EncodeUint64(f.nonce), EncodeBigInt(f.gasPrice), EncodeUint64(f.gas), EncodeBytes(f.to),
        EncodeBigInt(f.value), EncodeBytes(f.input), EncodeAccessList(f.accessList),
        EncodeBigInt(f.v), EncodeBigInt(f.r), EncodeBigInt(f.s)], EnvelopeItems(tx));
    } else if tx.txType == 2 {
      ListItem([
        EncodeUint64(f.chainId), EncodeUint64(f.nonce), EncodeBigInt(f.maxPriorityFee), EncodeBigInt(f.maxFee),
        EncodeUint64(f.gas), EncodeBytes(f.to), EncodeBigInt(f.value), EncodeBytes(f.input),
        EncodeAccessList(f.accessList), EncodeBigInt(f.v), EncodeBigInt(f.r), EncodeBigInt(f.s)], EnvelopeItems(tx));
    } else if tx.txType == 3 {
      WordItem(tx.maxFeePerBlobGas);
      NumIs(tx.maxFeePerBlobGas);
      BlobHashesItem(tx.blobHashes);
      ListItem([
        EncodeUint64(f.chainId), EncodeUint64(f.nonce), EncodeBigInt(f.maxPriorityFee), EncodeBigInt(f.maxFee),
        EncodeUint64(f.gas), EncodeBytes(f.to), EncodeBigInt(f.value), EncodeBytes(f.input),
        EncodeAccessList(f.accessList)] + [EncodeBigInt(tx.maxFeePerBlobGas), EncodeList(EncodeAll(tx.blobHashes))]
        + [EncodeBigInt(f.v), EncodeBigInt(f.r), EncodeBigInt(f.s)], EnvelopeItems(tx));
    } else if tx.txType == 4 {
      AuthorizationsItem(tx.authorizations);
      ListItem([
        EncodeUint64(f.chainId), EncodeUint64(f.nonce), EncodeBigInt(f.maxPriorityFee), EncodeBigInt(f.maxFee),
        EncodeUint64(f.gas), EncodeBytes(f.to), EncodeBigInt(f.value), EncodeBytes(f.input),
        EncodeAccessList(f.accessList)] + [EncodeList(EncodeAuthorizations(tx.authorizations))]
        + [EncodeBigInt(f.v), EncodeBigInt(f.r), EncodeBigInt(f.s)], EnvelopeItems(tx));
    } else {
      ListItem([
        EncodeUint64(f.nonce), EncodeBigInt(f.gasPrice), EncodeUint64(f.gas), EncodeBytes(f.to),
        EncodeBigInt(f.value), EncodeBytes(f.input), EncodeBigInt(f.v), EncodeBigInt(f.r), EncodeBigInt(f.s)], EnvelopeItems(tx));
    }
  }

  lemma NumIs(n: nat)
    ensures NumItem(n) == Str(ToBigEndian(n))
  {
  }
}
