/** What the contract signs is what it later recognises; what the monitor encodes is what the contract reads. */
module TransactionTheorems {
  import opened ByteStrings
  import opened Rlp
  import opened RlpTheorems
  import opened Transactions

  // ----- Encoded fields as items -----

  lemma WordItem(v: nat)
    ensures EncodeBigInt(v) == Reencode(Str(ToBigEndian(v)))
    ensures v < TWO_64 ==> EncodeUint64(v) == Reencode(Str(ToBigEndian(v)))
  {
  }

  lemma StrItem(b: Bytes)
    ensures EncodeBytes(b) == Reencode(Str(b))
  {
  }

  lemma WordValue(v: uint64)
    ensures Str(ToBigEndian(v)).AsUint64() == v
  {
    FromToBigEndian(v);
  }

  lemma {:induction false} ConcatItems(encs: seq<Bytes>, items: seq<Item>)
    requires |encs| == |items| && forall i :: 0 <= i < |items| ==> encs[i] == Reencode(items[i])
    ensures Concat(encs) == ReencodeAll(items)
  {
    if items != [] {
      ConcatItems(encs[1..], items[1..]);
    }
  }

  lemma ListItem(encs: seq<Bytes>, items: seq<Item>)
    requires |encs| == |items| && forall i :: 0 <= i < |items| ==> encs[i] == Reencode(items[i])
    ensures EncodeList(encs) == Reencode(List(items))
  {
    ConcatItems(encs, items);
  }

  lemma DecodeListItem(items: seq<Item>)
    requires AllDecodable(items, 1) && |Reencode(List(items))| < TWO_63
    ensures DecodeList(Reencode(List(items))) == Ok(items)
  {
    hide Decoded, Reencode;
    var data := Reencode(List(items));
    assert At(data, 0, data);
    DecodeEncoded(data, 0, List(items), 0);
  }

  predicate Short(items: seq<Item>) {
    forall item :: item in items ==> item == List([]) || (item.Str? && |item.data| <= 65536)
  }

  lemma {:induction false} ShortSize(items: seq<Item>)
    requires Short(items)
    ensures |ReencodeAll(items)| <= |items| * 0x1_0100
  {
    if items != [] {
      hide EncodeLength;
      ShortSize(items[1..]);
      assert items[0] in items;
    }
  }

  lemma DecodeShortList(items: seq<Item>)
    requires Short(items) && |items| <= 16
    ensures DecodeList(Reencode(List(items))) == Ok(items)
  {
    ShortSize(items);
    assert |Reencode(List(items))| <= 9 + |ReencodeAll(items)|;
    DecodeListItem(items);
  }

  // ----- The withdrawal transaction -----

  function UnsignedItems(chainId: uint64, nonce: uint64, gasTipCap: uint64, gasFeeCap: uint64, gas: uint64,
                         to: Address, value: nat, data: Bytes): (items: seq<Item>)
    ensures |items| == UNSIGNED_FIELDS
  {
    [Str(ToBigEndian(chainId)), Str(ToBigEndian(nonce)), Str(ToBigEndian(gasTipCap)), Str(ToBigEndian(gasFeeCap)),
     Str(ToBigEndian(gas)), Str(to), Str(ToBigEndian(value)), Str(data), List([])]
  }

  lemma UnsignedIsItem(chainId: uint64, nonce: uint64, gasTipCap: uint64, gasFeeCap: uint64, gas: uint64,
                       to: Address, value: nat, data: Bytes)
    ensures BuildEIP1559Tx(chainId, nonce, gasTipCap, gasFeeCap, gas, to, value, data)
      == [TYPE_EIP1559] + Reencode(List(UnsignedItems(chainId, nonce, gasTipCap, gasFeeCap, gas, to, value, data)))
  {
    hide EncodeLength, EncodeUint64, EncodeBigInt, ToBigEndian;
    WordItem(chainId);
    WordItem(nonce);
    WordItem(gasTipCap);
    WordItem(gasFeeCap);
    WordItem(gas);
    WordItem(value);
    EmptyListItem();
    ListItem([
      EncodeUint64(chainId), EncodeUint64(nonce), EncodeUint64(gasTipCap), EncodeUint64(gasFeeCap),
      EncodeUint64(gas), EncodeBytes(to), EncodeBigInt(value), EncodeBytes(data), EncodeList([])],
      UnsignedItems(chainId, nonce, gasTipCap, gasFeeCap, gas, to, value, data));
  }

  lemma EmptyListItem()
    ensures EncodeList([]) == Reencode(List([]))
  {
  }

  lemma UnsignedShort(chainId: uint64, nonce: uint64, gasTipCap: uint64, gasFeeCap: uint64, gas: uint64,
                      to: Address, value: nat, data: Bytes)
    requires value < TWO_256 && |data| <= 65536
    ensures Short(UnsignedItems(chainId, nonce, gasTipCap, gasFeeCap, gas, to, value, data))
  {
    Fits64(chainId);
    Fits64(nonce);
    Fits64(gasTipCap);
    Fits64(gasFeeCap);
    Fits64(gas);
    Fits256(value);
    hide ToBigEndian;
  }

  lemma ResignIsItem(item: Item)
    requires item == List([]) || item.Str?
    ensures Resign(item) == Reencode(item)
  {
    EmptyListItem();
  }

  function SignedItems(items: seq<Item>, v: byte, r: Bytes, s: Bytes): seq<Item> {
    items + [Str(ToBigEndian(v as nat)), Str(r), Str(s)]
  }

  lemma SignedEncoding(items: seq<Item>, v: byte, r: Bytes, s: Bytes)
    requires Short(items)
    ensures EncodeList(ResignAll(items) + [EncodeUint64(v as nat), EncodeBytes(r), EncodeBytes(s)])
      == Reencode(List(SignedItems(items, v, r, s)))
  {
    var signed := SignedItems(items, v, r, s);
    var encs := ResignAll(items) + [EncodeUint64(v as nat), EncodeBytes(r), EncodeBytes(s)];
    WordItem(v as nat);
    StrItem(r);
    StrItem(s);
    hide ToBigEndian, EncodeUint64, Resign, EncodeList, EncodeBytes, Reencode;
    forall i | 0 <= i < |signed|
      ensures encs[i] == Reencode(signed[i])
    {
      if i < |items| {
        assert items[i] in items;
        ResignIsItem(items[i]);
      }
    }
    ListItem(encs, signed);
  }

  /** Signing keeps the nine fields and appends three. */
  lemma AttachItems(items: seq<Item>, v: byte, r: Bytes, s: Bytes)
    requires Short(items) && |items| == UNSIGNED_FIELDS && |r| <= 65536 && |s| <= 65536
    ensures Short(SignedItems(items, v, r, s))
    ensures AttachSignature([TYPE_EIP1559] + Reencode(List(items)), v, r, s)
      == Ok([TYPE_EIP1559] + Reencode(List(SignedItems(items, v, r, s))))
  {
    var unsigned := [TYPE_EIP1559] + Reencode(List(items));
    Fits64(v as nat);
    ListNotEmpty(items);
    hide ToBigEndian, EncodeUint64, EncodeList, Reencode, Decoded, Resign;
    assert unsigned[1..] == Reencode(List(items));
    DecodeShortList(items);
    SignedEncoding(items, v, r, s);
  }

  lemma ListNotEmpty(items: seq<Item>)
    ensures |Reencode(List(items))| > 0
    ensures Reencode(List(items))[0] >= 0xc0
  {
  }

  /** A decoded type-2 list as the parser reads it. */
  lemma ParseItems(items: seq<Item>)
    requires Short(items) && |items| == SIGNED_FIELDS
    ensures ParseTransaction([TYPE_EIP1559] + Reencode(List(items))) ==
      Ok(ParsedTx(items[0].AsUint64(), items[1].AsUint64(), ToField(items[5].AsBytes()),
                  items[6].AsBytes(), items[7].AsBytes(),
                  LowByte(items[9].AsUint64()), items[10].AsBytes(), items[11].AsBytes()))
  {
    hide Decoded, Reencode;
    var raw := [TYPE_EIP1559] + Reencode(List(items));
    assert raw[1..] == Reencode(List(items));
    DecodeShortList(items);
  }

  lemma UnsignedFieldIsItem(item: Item)
    ensures UnsignedField(item) == Reencode(item)
  {
  }

  lemma PreimageItems(items: seq<Item>, tx: ParsedTx)
    requires Short(items) && |items| == SIGNED_FIELDS
    ensures SighashPreimage([TYPE_EIP1559] + Reencode(List(items)), tx)
      == [TYPE_EIP1559] + Reencode(List(items[..UNSIGNED_FIELDS]))
  {
    var raw := [TYPE_EIP1559] + Reencode(List(items));
    assert raw[1..] == Reencode(List(items));
    DecodeShortList(items);
    hide Decoded, Reencode, UnsignedField;
    forall i | 0 <= i < UNSIGNED_FIELDS
      ensures UnsignedFields(items[..UNSIGNED_FIELDS])[i] == Reencode(items[i])
    {
      UnsignedFieldIsItem(items[i]);
    }
    ListItem(UnsignedFields(items[..UNSIGNED_FIELDS]), items[..UNSIGNED_FIELDS]);
  }

  /**
   A signed withdrawal parses back to every field it was built from, and the signing hash the
   contract recomputes from it is taken over exactly the unsigned bytes that were signed.
   */
  lemma WithdrawalRoundTrip(chainId: uint64, nonce: uint64, gasTipCap: uint64, gasFeeCap: uint64, gas: uint64,
                            to: Address, value: nat, data: Bytes, v: byte, r: Hash, s: Hash)
    requires value < TWO_256 && |data| <= 65536
    ensures var unsigned := BuildEIP1559Tx(chainId, nonce, gasTipCap, gasFeeCap, gas, to, value, data);
      var signed := AttachSignature(unsigned, v, r, s);
      var tx := ParsedTx(chainId, nonce, to, ToBigEndian(value), data, v, r, s);
      && signed.Ok?
      && ParseTransaction(signed.value) == Ok(tx)
      && SighashPreimage(signed.value, tx) == unsigned
      && PadTo32(tx.r) == r && PadTo32(tx.s) == s
  {
    var items := UnsignedItems(chainId, nonce, gasTipCap, gasFeeCap, gas, to, value, data);
    var signed := SignedItems(items, v, r, s);
    var tx := ParsedTx(chainId, nonce, to, ToBigEndian(value), data, v, r, s);
    UnsignedIsItem(chainId, nonce, gasTipCap, gasFeeCap, gas, to, value, data);
    UnsignedShort(chainId, nonce, gasTipCap, gasFeeCap, gas, to, value, data);
    AttachItems(items, v, r, s);
    hide Reencode, ParseTransaction, SighashPreimage, AttachSignature, BuildEIP1559Tx;
    ParseItems(signed);
    PreimageItems(signed, tx);
    assert signed[..UNSIGNED_FIELDS] == items;
    SignedFields(chainId, nonce, gasTipCap, gasFeeCap, gas, to, value, data, v, r, s);
  }

  lemma SignedFields(chainId: uint64, nonce: uint64, gasTipCap: uint64, gasFeeCap: uint64, gas: uint64,
                     to: Address, value: nat, data: Bytes, v: byte, r: Hash, s: Hash)
    ensures var items := SignedItems(UnsignedItems(chainId, nonce, gasTipCap, gasFeeCap, gas, to, value, data), v, r, s);
      && items[0].AsUint64() == chainId && items[1].AsUint64() == nonce
      && ToField(items[5].AsBytes()) == to && items[6].AsBytes() == ToBigEndian(value) && items[7].AsBytes() == data
      && LowByte(items[9].AsUint64()) == v && items[10].AsBytes() == r && items[11].AsBytes() == s
  {
    hide ToBigEndian;
    WordValue(chainId);
    WordValue(nonce);
    WordValue(v as nat);
    var items := SignedItems(UnsignedItems(chainId, nonce, gasTipCap, gasFeeCap, gas, to, value, data), v, r, s);
    assert items[0] == Str(ToBigEndian(chainId)) && items[1] == Str(ToBigEndian(nonce));
    assert items[9] == Str(ToBigEndian(v as nat));
    assert items[10] == Str(r) && items[11] == Str(s);
    hide Item.AsUint64;
  }
}
