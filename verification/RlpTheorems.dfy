/**
 The decoder accepts exactly the canonical encodings: it inverts the encoder on every
 item within the limits, and whatever it accepts is what the encoder would have written.
 */
module RlpTheorems {
  import opened ByteStrings
  import opened Rlp

  /** data holds s at offset. */
  predicate At(data: Bytes, offset: nat, s: Bytes) {
    offset + |s| <= |data| && data[offset..offset + |s|] == s
  }

  /** The limits of the decoder: lists nested at most 20 deep, strings of at most 65536 bytes. */
  predicate Decodable(item: Item, depth: nat)
    decreases item
  {
    depth <= 20 &&
    match item
    case Str(data) => |data| <= 65536
    case List(children) => forall c :: c in children ==> Decodable(c, depth + 1)
  }

  predicate AllDecodable(items: seq<Item>, depth: nat) {
    forall c :: c in items ==> Decodable(c, depth)
  }

  lemma AtConcat(data: Bytes, offset: nat, a: Bytes, b: Bytes)
    ensures At(data, offset, a + b) <==> At(data, offset, a) && At(data, offset + |a|, b)
  {
    if offset + |a + b| <= |data| {
      var whole := data[offset..offset + |a + b|];
      assert whole[..|a|] == data[offset..offset + |a|];
      assert whole[|a|..] == data[offset + |a|..offset + |a| + |b|];
      assert whole == whole[..|a|] + whole[|a|..];
      assert (a + b)[..|a|] == a && (a + b)[|a|..] == b;
    }
  }

  // ----- Length headers -----

  /** The long form of a length below 2^63: a count byte, then the length without leading zeros. */
  lemma LongLength(length: nat, offset: byte)
    requires 55 < length < TWO_63 && (offset == 0x80 || offset == 0xc0)
    ensures var lenBytes := ToBigEndian(length);
      && 1 <= |lenBytes| <= 8 && lenBytes[0] != 0 && LengthOf(lenBytes) == length
      && EncodeLength(length, offset) == [(offset as int + 55 + |lenBytes|) as byte] + lenBytes
  {
    Fits64(length);
    ToBigEndianHead(length);
    FromToBigEndian(length);
  }

  /** A length the decoder accepts in long form is the one the encoder would write. */
  lemma LongLengthCanonical(lenBytes: Bytes, offset: byte)
    requires 1 <= |lenBytes| <= 8 && lenBytes[0] != 0 && LengthOf(lenBytes) > 55
    requires offset == 0x80 || offset == 0xc0
    ensures EncodeLength(LengthOf(lenBytes), offset) == [(offset as int + 55 + |lenBytes|) as byte] + lenBytes
    ensures LengthOf(lenBytes) < TWO_63
  {
    Below64(lenBytes);
    ToFromBigEndian(lenBytes);
  }

  lemma ReadString(data: Bytes, offset: nat, b: Bytes)
    requires At(data, offset, EncodeBytes(b)) && |data| < TWO_63 && |b| <= 65536
    ensures var end := offset + |EncodeBytes(b)|;
      && ReadPrefix(data, offset) == Ok(StrSpan(end - |b|, end)) && data[end - |b|..end] == b
  {
    if |b| > 55 {
      ReadLongString(data, offset, b);
    } else if |b| == 1 && b[0] <= 0x7f {
      assert data[offset] == data[offset..offset + 1][0] == b[0];
    } else {
      var first: byte := 0x80 + |b| as byte;
      AtConcat(data, offset, [first], b);
      assert data[offset] == data[offset..offset + 1][0] == first;
      assert |b| == 1 ==> data[offset + 1] == data[offset + 1..offset + 2][0] == b[0];
    }
  }

  lemma ReadLongString(data: Bytes, offset: nat, b: Bytes)
    requires At(data, offset, EncodeBytes(b)) && |data| < TWO_63 && 55 < |b| <= 65536
    ensures var end := offset + |EncodeBytes(b)|;
      && ReadPrefix(data, offset) == Ok(StrSpan(end - |b|, end)) && data[end - |b|..end] == b
  {
    hide ToBigEndian, LengthOf, EncodeLength, ReadPrefix, Signed64;
    var h := EncodeLength(|b|, 0x80);
    assert EncodeBytes(b) == h + b;
    hide EncodeBytes;
    AtConcat(data, offset, h, b);
    assert data[offset + |h|..offset + |h| + |b|] == b;
    var lenLen := |ToBigEndian(|b|)|;
    ReadLongHeader(data, offset, |b|, 0x80);
    assert |h| == 1 + lenLen;
    hide At;
    ReadLongSpan(data, offset, |b|, lenLen);
  }

  lemma ReadLongSpan(data: Bytes, offset: nat, n: nat, lenLen: nat)
    requires 55 < n <= 65536 && 1 <= lenLen <= 8
    requires offset + 1 + lenLen + n <= |data| < TWO_63
    requires data[offset] as int == 0xb7 + lenLen && data[offset + 1] != 0
    requires LengthOf(data[offset + 1..offset + 1 + lenLen]) == n
    ensures var start := offset + 1 + lenLen;
      ReadPrefix(data, offset) == Ok(StrSpan(start, start + n))
  {
    hide LengthOf;
  }

  lemma ReadLongHeader(data: Bytes, offset: nat, n: nat, kind: byte)
    requires 55 < n < TWO_63 && (kind == 0x80 || kind == 0xc0)
    requires At(data, offset, EncodeLength(n, kind))
    ensures var lenBytes := ToBigEndian(n);
      && EncodeLength(n, kind) == [data[offset]] + lenBytes
      && 1 <= |lenBytes| <= 8 && data[offset] as int == kind as int + 55 + |lenBytes|
      && offset + 1 + |lenBytes| <= |data|
      && data[offset + 1..offset + 1 + |lenBytes|] == lenBytes
      && data[offset + 1] != 0 && LengthOf(lenBytes) == n
  {
    hide ToBigEndian, LengthOf, EncodeLength;
    LongLength(n, kind);
    var lenBytes := ToBigEndian(n);
    var first := (kind as int + 55 + |lenBytes|) as byte;
    AtConcat(data, offset, [first], lenBytes);
    assert data[offset..offset + 1][0] == first;
    assert data[offset + 1..offset + 1 + |lenBytes|][0] == lenBytes[0];
  }

  lemma ReadListHeader(data: Bytes, offset: nat, n: nat)
    requires At(data, offset, EncodeLength(n, 0xc0))
    requires offset + |EncodeLength(n, 0xc0)| + n <= |data| < TWO_63
    ensures var start := offset + |EncodeLength(n, 0xc0)|;
      ReadPrefix(data, offset) == Ok(ListSpan(start, start + n))
  {
    if n > 55 {
      hide ToBigEndian, LengthOf, EncodeLength, ReadPrefix, Signed64;
      ReadLongHeader(data, offset, n, 0xc0);
      hide At;
      ReadLongListSpan(data, offset, n, |ToBigEndian(n)|);
    } else {
      assert data[offset..offset + 1][0] == EncodeLength(n, 0xc0)[0];
    }
  }

  lemma ReadLongListSpan(data: Bytes, offset: nat, n: nat, lenLen: nat)
    requires 55 < n && 1 <= lenLen <= 8
    requires offset + 1 + lenLen + n <= |data| < TWO_63
    requires data[offset] as int == 0xf7 + lenLen && data[offset + 1] != 0
    requires LengthOf(data[offset + 1..offset + 1 + lenLen]) == n
    ensures var start := offset + 1 + lenLen;
      ReadPrefix(data, offset) == Ok(ListSpan(start, start + n))
  {
    hide LengthOf;
  }

  lemma SpanCanonical(data: Bytes, offset: nat)
    requires offset < |data| && ReadPrefix(data, offset).Ok?
    ensures match ReadPrefix(data, offset).value
      case StrSpan(start, end) =>
        data[offset..end] == EncodeBytes(data[start..end]) && end - start <= 65536
      case ListSpan(start, end) =>
        start <= end ==> data[offset..start] == EncodeLength(end - start, 0xc0)
  {
    hide LengthOf, Signed64;
    var prefix := data[offset];
    match ReadPrefix(data, offset).value
    case StrSpan(start, end) =>
      if prefix <= 0x7f {
      } else if prefix <= 0xb7 {
        assert data[offset..end] == [prefix] + data[start..end];
      } else {
        LongSpanCanonical(data, offset, start, end, 0x80);
        assert data[offset..end] == data[offset..start] + data[start..end];
      }
    case ListSpan(start, end) =>
      if prefix <= 0xf7 {
        assert data[offset..start] == [prefix];
      } else if start <= end {
        LongSpanCanonical(data, offset, start, end, 0xc0);
      }
  }

  lemma LongSpanCanonical(data: Bytes, offset: nat, start: nat, end: nat, kind: byte)
    requires kind == 0x80 || kind == 0xc0
    requires offset + 2 <= start <= end <= |data| && start <= offset + 9
    requires data[offset] as int == kind as int + 55 + (start - offset - 1) && data[offset + 1] != 0
    requires var n := LengthOf(data[offset + 1..start]); n > 55 && end == Signed64(start + n)
    ensures end - start == LengthOf(data[offset + 1..start])
    ensures data[offset..start] == EncodeLength(end - start, kind)
  {
    var lenBytes := data[offset + 1..start];
    LongLengthCanonical(lenBytes, kind);
    hide LengthOf, EncodeLength;
    WrappedSum(start, LengthOf(lenBytes), end);
    assert data[offset..start] == [data[offset]] + lenBytes;
  }

  /** A sum that wraps past 2^63 comes out below its first term. */
  lemma WrappedSum(a: nat, b: int, sum: int)
    requires 0 <= b < TWO_63 && sum == Signed64(a + b) && a <= sum
    ensures sum == a + b
  {
  }

  // ----- Round trip and canonicity -----

  lemma {:induction false} DecodeEncoded(data: Bytes, offset: nat, item: Item, depth: nat)
    requires Decodable(item, depth) && |data| < TWO_63
    requires At(data, offset, Reencode(item))
    ensures Decoded(data, offset, depth) == Ok(Parsed(item, offset + |Reencode(item)|))
    decreases item, 1
  {
    hide ReadPrefix, EncodeBytes, EncodeLength;
    match item
    case Str(b) =>
      ReadString(data, offset, b);
    case List(children) =>
      var payload := ReencodeAll(children);
      var h := EncodeLength(|payload|, 0xc0);
      AtConcat(data, offset, h, payload);
      ReadListHeader(data, offset, |payload|);
      DecodeEncodedChildren(data, offset + |h|, children, depth + 1);
  }

  lemma {:induction false} DecodeEncodedChildren(data: Bytes, pos: nat, items: seq<Item>, depth: nat)
    requires AllDecodable(items, depth) && |data| < TWO_63
    requires At(data, pos, ReencodeAll(items))
    ensures DecodedChildren(data, pos, pos + |ReencodeAll(items)|, depth) == Ok(items)
    decreases items, 0
  {
    hide ReadPrefix, EncodeBytes, EncodeLength;
    if items != [] {
      var first, rest := Reencode(items[0]), ReencodeAll(items[1..]);
      AtConcat(data, pos, first, rest);
      DecodeEncoded(data, pos, items[0], depth);
      DecodeEncodedChildren(data, pos + |first|, items[1..], depth);
      assert items == [items[0]] + items[1..];
    }
  }

  lemma {:induction false} Canonical(data: Bytes, offset: nat, depth: nat)
    requires Decoded(data, offset, depth).Ok?
    ensures var Parsed(item, end) := Decoded(data, offset, depth).value;
      Decodable(item, depth) && data[offset..end] == Reencode(item)
    decreases if depth > MAX_DEPTH then 0 else MAX_DEPTH + 1 - depth, 0, 0
  {
    hide ReadPrefix, EncodeBytes, EncodeLength;
    SpanCanonical(data, offset);
    match ReadPrefix(data, offset).value
    case StrSpan(_, _) =>
    case ListSpan(start, end) =>
      CanonicalChildren(data, start, end, depth + 1);
      assert data[offset..end] == data[offset..start] + data[start..end];
  }

  lemma {:induction false} CanonicalChildren(data: Bytes, pos: nat, end: nat, depth: nat)
    requires DecodedChildren(data, pos, end, depth).Ok? && end <= |data|
    ensures var items := DecodedChildren(data, pos, end, depth).value;
      AllDecodable(items, depth) && data[pos..end] == ReencodeAll(items)
    decreases if depth > MAX_DEPTH then 0 else MAX_DEPTH + 1 - depth, 1, end - pos
  {
    hide ReadPrefix, EncodeBytes, EncodeLength;
    if pos < end {
      Canonical(data, pos, depth);
      var p := Decoded(data, pos, depth).value;
      CanonicalChildren(data, p.end, end, depth);
      assert data[pos..end] == data[pos..p.end] + data[p.end..end];
      var rest := DecodedChildren(data, p.end, end, depth).value;
      assert ([p.item] + rest)[1..] == rest;
    }
  }

  /**
   decodeItem accepts an item exactly when the item is within the limits and its one
   canonical encoding stands at the offset; the end is then just past that encoding.
   */
  lemma DecodeExactly(data: Bytes, offset: nat, depth: nat, item: Item, end: nat)
    requires |data| < TWO_63
    ensures Decoded(data, offset, depth) == Ok(Parsed(item, end))
      <==> Decodable(item, depth) && At(data, offset, Reencode(item)) && end == offset + |Reencode(item)|
  {
    if Decoded(data, offset, depth) == Ok(Parsed(item, end)) {
      Canonical(data, offset, depth);
    }
    if Decodable(item, depth) && At(data, offset, Reencode(item)) {
      DecodeEncoded(data, offset, item, depth);
    }
  }

  /** No encoding is a proper prefix of another, and two items never share one. */
  lemma PrefixFree(a: Item, b: Item)
    requires Decodable(a, 0) && Decodable(b, 0) && |Reencode(b)| < TWO_63
    requires Reencode(a) <= Reencode(b)
    ensures a == b
  {
    var data := Reencode(b);
    assert At(data, 0, Reencode(a)) && At(data, 0, data);
    DecodeEncoded(data, 0, a, 0);
    DecodeEncoded(data, 0, b, 0);
  }

  /** A number is read modulo 2^64 from the bytes of a string, and as 0 from a list. */
  lemma AsUint64Exactly(item: Item)
    ensures item.AsUint64() == (if item.Str? then FromBigEndian(item.data) else 0) % TWO_64
    ensures item.AsBytes() == if item.Str? then item.data else []
  {
    Wrap64IsMod(FromBigEndian(item.AsBytes()));
  }

  // ----- The limits in numbers -----

  /** A string of up to 65536 bytes decodes to itself, whatever follows it; a longer one is refused as oversized. */
  lemma StringLimit(b: Bytes, rest: Bytes)
    requires |EncodeBytes(b) + rest| < TWO_63
    ensures Decode(EncodeBytes(b) + rest)
      == if |b| <= 65536 then Ok(Parsed(Str(b), |EncodeBytes(b)|)) else Err(Oversized)
  {
    var data := EncodeBytes(b) + rest;
    assert Reencode(Str(b)) == EncodeBytes(b);
    hide EncodeBytes, ReadPrefix, Reencode;
    assert data[..|EncodeBytes(b)|] == EncodeBytes(b);
    if |b| <= 65536 {
      DecodeEncoded(data, 0, Str(b), 0);
    } else {
      ReadOversized(data, b);
    }
  }

  lemma ReadOversized(data: Bytes, b: Bytes)
    requires |b| > 65536 && At(data, 0, EncodeBytes(b)) && |data| < TWO_63
    ensures ReadPrefix(data, 0) == Err(Oversized)
  {
    assert EncodeBytes(b) == EncodeLength(|b|, 0x80) + b;
    hide EncodeBytes, EncodeLength, ToBigEndian, LengthOf;
    AtConcat(data, 0, EncodeLength(|b|, 0x80), b);
    ReadLongHeader(data, 0, |b|, 0x80);
  }

  /** So many lists, each the only element of the next. */
  function Nested(n: nat): Item {
    if n == 0 then List([]) else List([Nested(n - 1)])
  }

  lemma {:induction false} NestedDecodable(n: nat, depth: nat)
    ensures Decodable(Nested(n), depth) <==> depth + n <= 20
  {
    if n > 0 {
      NestedDecodable(n - 1, depth + 1);
      assert Nested(n - 1) in Nested(n).children && forall c :: c in Nested(n).children ==> c == Nested(n - 1);
    }
  }

  /** Twenty lists may surround a list; with twenty-one the depth is exceeded. */
  lemma NestingLimit(n: nat, rest: Bytes)
    requires |Reencode(Nested(n)) + rest| < TWO_63
    ensures Decode(Reencode(Nested(n)) + rest)
      == if n <= 20 then Ok(Parsed(Nested(n), |Reencode(Nested(n))|)) else Err(DepthExceeded)
  {
    var data := Reencode(Nested(n)) + rest;
    hide Reencode;
    assert data[..|Reencode(Nested(n))|] == Reencode(Nested(n));
    NestedDecodable(n, 0);
    if n <= 20 {
      DecodeEncoded(data, 0, Nested(n), 0);
    } else {
      TooDeep(data, 0, n, 0);
    }
  }

  lemma {:induction false} TooDeep(data: Bytes, offset: nat, n: nat, depth: nat)
    requires depth <= 21 && depth + n > 20 && At(data, offset, Reencode(Nested(n))) && |data| < TWO_63
    ensures Decoded(data, offset, depth) == Err(DepthExceeded)
    decreases n
  {
    hide ReadPrefix, EncodeLength, Decoded, DecodedChildren, Nested, Reencode;
    if depth == 21 {
      DepthStops(data, offset);
    } else {
      NestedEncoding(n);
      var inner := Reencode(Nested(n - 1));
      var h := EncodeLength(|inner|, 0xc0);
      AtConcat(data, offset, h, inner);
      ReadListHeader(data, offset, |inner|);
      TooDeep(data, offset + |h|, n - 1, depth + 1);
      InnerFails(data, offset, offset + |h|, offset + |h| + |inner|, depth);
    }
  }

  lemma DepthStops(data: Bytes, offset: nat)
    ensures Decoded(data, offset, 21) == Err(DepthExceeded)
  {
  }

  lemma InnerFails(data: Bytes, offset: nat, start: nat, end: nat, depth: nat)
    requires offset < |data| && depth <= 20 && start < end && ReadPrefix(data, offset) == Ok(ListSpan(start, end))
    requires Decoded(data, start, depth + 1) == Err(DepthExceeded)
    ensures Decoded(data, offset, depth) == Err(DepthExceeded)
  {
    hide ReadPrefix;
    assert DecodedChildren(data, start, end, depth + 1) == Err(DepthExceeded);
  }

  lemma NestedEncoding(n: nat)
    requires n > 0
    ensures var inner := Reencode(Nested(n - 1));
      inner != [] && Reencode(Nested(n)) == EncodeLength(|inner|, 0xc0) + inner
  {
    hide EncodeLength;
    var children := [Nested(n - 1)];
    assert children[1..] == [] && ReencodeAll(children[1..]) == [];
    assert ReencodeAll(children) == Reencode(Nested(n - 1));
  }

  /** EncodeUint64 is inverted by decoding and AsUint64. */
  lemma Uint64RoundTrip(v: uint64, rest: Bytes)
    requires |rest| < TWO_63 - 9
    ensures Decode(EncodeUint64(v) + rest).Ok?
    ensures var Parsed(item, end) := Decode(EncodeUint64(v) + rest).value;
      item == Str(ToBigEndian(v)) && item.AsUint64() == v && end == |EncodeUint64(v)| <= 9
  {
    Fits64(v);
    FromToBigEndian(v);
    var item := Str(ToBigEndian(v));
    assert EncodeUint64(v) == Reencode(item);
    var data := EncodeUint64(v) + rest;
    assert data[..|EncodeUint64(v)|] == EncodeUint64(v);
    DecodeEncoded(data, 0, item, 0);
  }
}
