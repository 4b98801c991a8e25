/** The signing hash of any accepted transaction is taken over the transaction's own bytes. */
module SighashTheorems {
  import opened ByteStrings
  import opened Rlp
  import opened RlpTheorems
  import opened Transactions
  import opened TransactionTheorems

  lemma {:induction false} ReencodeAllSplit(items: seq<Item>, n: nat)
    requires n <= |items|
    ensures ReencodeAll(items) == ReencodeAll(items[..n]) + ReencodeAll(items[n..])
  {
    if n == 0 {
      assert items[..0] == [] && items[0..] == items;
    } else {
      ReencodeAllSplit(items[1..], n - 1);
      assert items[..n][1..] == items[1..][..n - 1];
      assert items[1..][n - 1..] == items[n..];
    }
  }

  /** Where the payload of the list at the start of data begins. */
  function PayloadStart(items: seq<Item>): nat {
    |EncodeLength(|ReencodeAll(items)|, 0xc0)|
  }

  /** The first n items of a decoded list stand one after the other at the start of its payload. */
  lemma LeadingItems(data: Bytes, items: seq<Item>, n: nat)
    requires DecodeList(data) == Ok(items) && n <= |items|
    ensures AllDecodable(items, 1)
    ensures At(data, PayloadStart(items), ReencodeAll(items[..n]))
  {
    Canonical(data, 0, 0);
    hide Decoded;
    var end := Decode(data).value.end;
    var h := EncodeLength(|ReencodeAll(items)|, 0xc0);
    assert data[0..end] == h + ReencodeAll(items);
    assert At(data, 0, h + ReencodeAll(items));
    hide EncodeLength, Reencode, ReencodeAll;
    AtConcat(data, 0, h, ReencodeAll(items));
    ReencodeAllSplit(items, n);
    AtConcat(data, |h|, ReencodeAll(items[..n]), ReencodeAll(items[n..]));
  }

  /** A type byte, a list header, and the raw bytes in which the first nine items of the input stand. */
  ghost predicate RawUnsigned(raw: Bytes, items: seq<Item>, preimage: Bytes)
    requires |raw| > 0 && |items| >= SIGNED_FIELDS
  {
    var start, n := 1 + PayloadStart(items), |ReencodeAll(items[..UNSIGNED_FIELDS])|;
    && start + n <= |raw|
    && preimage == [TYPE_EIP1559] + EncodeLength(n, 0xc0) + raw[start..start + n]
    && DecodedChildren(raw[1..], start - 1, start - 1 + n, 1) == Ok(items[..UNSIGNED_FIELDS])
  }

  /** For any accepted type-2 transaction, with any access list, the hashed bytes are the input's own. */
  lemma PreimageIsRawBytes(raw: Bytes)
    requires |raw| > 0 && raw[0] == TYPE_EIP1559 && ParseTransaction(raw).Ok? && |raw| < TWO_63
    ensures DecodeList(raw[1..]).Ok? && |DecodeList(raw[1..]).value| >= SIGNED_FIELDS
    ensures RawUnsigned(raw, DecodeList(raw[1..]).value, SighashPreimage(raw, ParseTransaction(raw).value))
  {
    AcceptedType2(raw);
    hide SighashPreimage, ParseTransaction, DecodeList, RawUnsigned;
    UnsignedStands(raw, DecodeList(raw[1..]).value);
  }

  lemma UnsignedStands(raw: Bytes, items: seq<Item>)
    requires 0 < |raw| < TWO_63 && DecodeList(raw[1..]) == Ok(items) && |items| >= SIGNED_FIELDS
    ensures RawUnsigned(raw, items, [TYPE_EIP1559] + EncodeList(UnsignedFields(items[..UNSIGNED_FIELDS])))
  {
    hide Decoded, DecodedChildren, Reencode, EncodeLength, PayloadStart, Decodable, DecodeList;
    hide ReencodeAll, EncodeList, UnsignedFields, At, AllDecodable;
    var nine := items[..UNSIGNED_FIELDS];
    LeadingItems(raw[1..], items, UNSIGNED_FIELDS);
    LeadingDecode(raw[1..], PayloadStart(items), items, nine);
    NineFields(nine);
    SliceShift(raw, PayloadStart(items), ReencodeAll(nine));
    Regroup(TYPE_EIP1559, EncodeLength(|ReencodeAll(nine)|, 0xc0), ReencodeAll(nine));
  }

  lemma Regroup(first: byte, h: Bytes, body: Bytes)
    ensures [first] + (h + body) == [first] + h + body
  {
  }

  lemma AcceptedType2(raw: Bytes)
    requires |raw| > 0 && raw[0] == TYPE_EIP1559 && ParseTransaction(raw).Ok?
    ensures DecodeList(raw[1..]).Ok? && |DecodeList(raw[1..]).value| >= SIGNED_FIELDS
    ensures SighashPreimage(raw, ParseTransaction(raw).value)
      == [TYPE_EIP1559] + EncodeList(UnsignedFields(DecodeList(raw[1..]).value[..UNSIGNED_FIELDS]))
  {
    hide DecodeList, EncodeList, UnsignedFields;
  }

  lemma LeadingDecode(data: Bytes, p: nat, items: seq<Item>, lead: seq<Item>)
    requires |data| < TWO_63 && AllDecodable(items, 1) && lead <= items && At(data, p, ReencodeAll(lead))
    ensures DecodedChildren(data, p, p + |ReencodeAll(lead)|, 1) == Ok(lead)
  {
    hide Decodable, DecodedChildren;
    assert forall c :: c in lead ==> c in items;
    DecodeEncodedChildren(data, p, lead, 1);
  }

  lemma SliceShift(raw: Bytes, p: nat, body: Bytes)
    requires |raw| > 0 && At(raw[1..], p, body)
    ensures 1 + p + |body| <= |raw| && raw[1 + p..1 + p + |body|] == body
  {
  }

  lemma NineFields(nine: seq<Item>)
    ensures EncodeList(UnsignedFields(nine)) == EncodeLength(|ReencodeAll(nine)|, 0xc0) + ReencodeAll(nine)
  {
    hide Reencode, EncodeLength, UnsignedField;
    forall i | 0 <= i < |nine|
      ensures UnsignedFields(nine)[i] == Reencode(nine[i])
    {
      UnsignedFieldIsItem(nine[i]);
    }
    ConcatItems(UnsignedFields(nine), nine);
  }

  // ----- Legacy -----

  function AsStrings(items: seq<Item>): (r: seq<Item>)
    ensures |r| == |items| && forall i :: 0 <= i < |r| ==> r[i] == Str(items[i].AsBytes())
  {
    seq(|items|, i requires 0 <= i < |items| => Str(items[i].AsBytes()))
  }

  predicate AllStrings(items: seq<Item>) {
    forall item :: item in items ==> item.Str?
  }

  /** Writing items back as strings changes their bytes exactly when one of them is a list. */
  lemma {:induction false} StringsOnly(items: seq<Item>)
    ensures ReencodeAll(AsStrings(items)) == ReencodeAll(items) <==> AllStrings(items)
    ensures |ReencodeAll(AsStrings(items))| <= |ReencodeAll(items)|
  {
    if items != [] {
      var a, b := Reencode(Str(items[0].AsBytes())), Reencode(items[0]);
      assert AsStrings(items)[1..] == AsStrings(items[1..]);
      var x, y := ReencodeAll(AsStrings(items[1..])), ReencodeAll(items[1..]);
      StringsOnly(items[1..]);
      assert items == [items[0]] + items[1..];
      if items[0].Str? {
        CancelFront(a, x, y);
      } else {
        ListNotEmpty(items[0].children);
        assert a == [0x80];
        assert (a + x)[0] != (b + y)[0];
      }
    }
  }

  lemma CancelFront(a: Bytes, x: Bytes, y: Bytes)
    ensures a + x == a + y <==> x == y
  {
    assert (a + x)[|a|..] == x && (a + y)[|a|..] == y;
  }

  /** What EIP-155 appends to the six signed fields. */
  function LegacySuffix(chainId: uint64): Bytes {
    EncodeUint64(chainId) + [0x80, 0x80]
  }

  /** The bytes hashed for a legacy transaction: six fields, the chain id and two empty strings. */
  lemma LegacyPayload(raw: Bytes, tx: ParsedTx, items: seq<Item>)
    requires |raw| > 0 && raw[0] != TYPE_EIP1559 && DecodeList(raw) == Ok(items) && |items| >= LEGACY_FIELDS
    ensures var body := ReencodeAll(AsStrings(items[..6])) + LegacySuffix(tx.chainId);
      SighashPreimage(raw, tx) == EncodeLength(|body|, 0xc0) + body
  {
    hide Decoded, Reencode, EncodeLength, EncodeUint64, ToBigEndian;
    var six := AsStrings(items[..6]);
    var fields := [
      EncodeBytes(items[0].AsBytes()), EncodeBytes(items[1].AsBytes()), EncodeBytes(items[2].AsBytes()),
      EncodeBytes(items[3].AsBytes()), EncodeBytes(items[4].AsBytes()), EncodeBytes(items[5].AsBytes())];
    var tail := [EncodeUint64(tx.chainId), EncodeBytes([]), EncodeBytes([])];
    forall i | 0 <= i < 6
      ensures fields[i] == Reencode(six[i])
    {
      StrItem(items[i].AsBytes());
    }
    ConcatItems(fields, six);
    ConcatAppend(fields, tail);
    EmptyString();
    ConcatThree(EncodeUint64(tx.chainId), EncodeBytes([]), EncodeBytes([]));
    var body := ReencodeAll(six) + LegacySuffix(tx.chainId);
    assert body == ReencodeAll(six) + (EncodeUint64(tx.chainId) + [0x80] + [0x80]);
    assert Concat(fields + tail) == body;
    assert fields + tail == [
      EncodeBytes(items[0].AsBytes()), EncodeBytes(items[1].AsBytes()), EncodeBytes(items[2].AsBytes()),
      EncodeBytes(items[3].AsBytes()), EncodeBytes(items[4].AsBytes()), EncodeBytes(items[5].AsBytes()),
      EncodeUint64(tx.chainId), EncodeBytes([]), EncodeBytes([])];
    hide EncodeBytes, ReencodeAll, AsStrings, Concat;
  }

  lemma EmptyString()
    ensures EncodeBytes([]) == [0x80]
  {
  }

  lemma ConcatThree(a: Bytes, b: Bytes, c: Bytes)
    ensures Concat([a, b, c]) == a + b + c
  {
    assert [a, b, c][1..] == [b, c] && [b, c][1..] == [c];
    assert Concat([c]) == c + Concat([]);
    assert Concat([b, c]) == b + Concat([c]);
  }

  /**
   For any accepted legacy transaction: chain id and recovery bit are those that EIP-155 packs into v,
   and the hashed list is the raw bytes of the first six items, the chain id and two empty strings
   exactly when those six items are strings; a list among them is replaced by the empty string.
   */
  lemma LegacyPreimage(raw: Bytes)
    requires |raw| > 0 && raw[0] != TYPE_EIP1559 && ParseTransaction(raw).Ok? && |raw| < TWO_63
    ensures DecodeList(raw).Ok?
    ensures var tx, items := ParseTransaction(raw).value, DecodeList(raw).value;
      |items| >= LEGACY_FIELDS &&
      var start, n := PayloadStart(items), |ReencodeAll(items[..6])|;
      start + n <= |raw| &&
      var body := raw[start..start + n] + LegacySuffix(tx.chainId);
      SighashPreimage(raw, tx) == EncodeLength(|body|, 0xc0) + body <==> AllStrings(items[..6])
  {
    var tx, items := ParseTransaction(raw).value, DecodeList(raw).value;
    LeadingItems(raw, items, 6);
    LegacyPayload(raw, tx, items);
    StringsOnly(items[..6]);
    ShortWord(tx.chainId);
    hide Decoded, Reencode, SighashPreimage, ParseTransaction, LegacySuffix, ReencodeAll, AsStrings, EncodeLength;
    SamePayload(ReencodeAll(AsStrings(items[..6])), ReencodeAll(items[..6]), LegacySuffix(tx.chainId));
  }

  lemma ShortWord(v: uint64)
    ensures |LegacySuffix(v)| <= 19
  {
    Fits64(v);
  }

  lemma LongerHeader(a: nat, b: nat)
    requires a <= b < TWO_64
    ensures |EncodeLength(a, 0xc0)| <= |EncodeLength(b, 0xc0)|
  {
    ToBigEndianLength(b, |ToBigEndian(b)|);
    ToBigEndianLength(a, |ToBigEndian(b)|);
    if 55 < b {
      ToBigEndianHead(b);
    }
  }

  /** A list header leaves no room to confuse two payloads. */
  lemma SameListPayload(a: Bytes, b: Bytes)
    requires |a| <= |b| < TWO_64
    ensures EncodeLength(|a|, 0xc0) + a == EncodeLength(|b|, 0xc0) + b <==> a == b
  {
    LongerHeader(|a|, |b|);
    hide EncodeLength;
    if EncodeLength(|a|, 0xc0) + a == EncodeLength(|b|, 0xc0) + b {
      var h := EncodeLength(|a|, 0xc0);
      assert |h + a| == |EncodeLength(|b|, 0xc0) + b|;
      assert |a| == |b|;
      CancelFront(h, a, b);
    }
  }

  lemma SamePayload(a: Bytes, b: Bytes, suffix: Bytes)
    requires |a| <= |b| && |b| + |suffix| < TWO_64
    ensures EncodeLength(|a + suffix|, 0xc0) + (a + suffix) == EncodeLength(|b + suffix|, 0xc0) + (b + suffix) <==> a == b
  {
    SameListPayload(a + suffix, b + suffix);
    hide EncodeLength;
    if a + suffix == b + suffix {
      assert |a + suffix| == |b + suffix|;
      assert (a + suffix)[..|a|] == a && (b + suffix)[..|b|] == b;
    }
  }

  /** EIP-155: v = 2c + 35 + y carries the chain id c and the recovery bit y. */
  lemma Eip155(raw: Bytes, c: nat, y: nat)
    requires |raw| > 0 && raw[0] > 0x7f && DecodeList(raw).Ok? && |DecodeList(raw).value| >= LEGACY_FIELDS
    requires y <= 1 && DecodeList(raw).value[6].AsUint64() == 2 * c + 35 + y
    ensures ParseTransaction(raw).Ok?
    ensures ParseTransaction(raw).value.chainId == c && ParseTransaction(raw).value.v as int == y
  {
    hide Decoded;
  }

  // ----- What is parsed -----

  /** A recipient of any length but 20 is read as zero. */
  function Recipient(item: Item): Bytes {
    if |item.AsBytes()| == 20 then item.AsBytes() else Zeros(20)
  }

  /** Chain id and recovery bit in a legacy v: before EIP-155 it is 27 or 28 and names no chain. */
  function LegacyV(v: uint64): (nat, int) {
    if v >= 35 then ((v - 35) / 2, (v - 35) % 2) else (0, (v - 27) % 256)
  }

  /** The nine fields from twelve or more items behind a 2, or from nine or more items on their own. */
  predicate Reads(raw: Bytes, tx: ParsedTx) {
    if raw != [] && raw[0] == 2 then
      && DecodeList(raw[1..]).Ok? && |DecodeList(raw[1..]).value| >= 12
      && var items := DecodeList(raw[1..]).value;
      && tx.chainId == items[0].AsUint64() && tx.nonce == items[1].AsUint64() && tx.to == Recipient(items[5])
      && tx.value == items[6].AsBytes() && tx.data == items[7].AsBytes()
      && tx.v as int == items[9].AsUint64() % 256 && tx.r == items[10].AsBytes() && tx.s == items[11].AsBytes()
    else
      && raw != [] && raw[0] > 0x7f && DecodeList(raw).Ok? && |DecodeList(raw).value| >= 9
      && var items := DecodeList(raw).value;
      && tx.nonce == items[0].AsUint64() && tx.to == Recipient(items[3])
      && tx.value == items[4].AsBytes() && tx.data == items[5].AsBytes()
      && (tx.chainId, tx.v as int) == LegacyV(items[6].AsUint64()) && tx.r == items[7].AsBytes() && tx.s == items[8].AsBytes()
  }

  /** Whatever the bytes are, the parser accepts exactly these two forms and reads exactly these fields. */
  lemma ParseExactly(raw: Bytes, tx: ParsedTx)
    ensures ParseTransaction(raw) == Ok(tx) <==> Reads(raw, tx)
  {
    hide Decoded, Item.AsUint64, Item.AsBytes;
  }
}
