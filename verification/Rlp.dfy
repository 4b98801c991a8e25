/**
 The strict RLP decoder and the encoder, as functions, with the loops of the
 program proved against them. Definitions follow Appendix B of the Ethereum Yellow Paper.
 */
module Rlp {
  import opened ByteStrings

  const MAX_DEPTH := 20
  const MAX_ITEM_SIZE := 65536

  datatype Error = TooShort | NonCanonical | DepthExceeded | Oversized | LengthMismatch | ExpectedList

  datatype Item = Str(data: Bytes) | List(children: seq<Item>) {
    /** A list carries no data, so it reads as the empty string. */
    function AsBytes(): Bytes {
      if Str? then data else []
    }

    function AsUint64(): uint64 {
      Wrap64(FromBigEndian(AsBytes()))
    }

    /** A string has no children. */
    function Elements(): seq<Item> {
      if List? then children else []
    }
  }

  /** An item and the offset just past its encoding. */
  datatype Parsed = Parsed(item: Item, end: nat)

  /** Where the payload announced by a prefix lies; a list's end is negative when the sum wraps. */
  datatype Span = StrSpan(start: nat, end: int) | ListSpan(start: nat, end: int)

  // ----- Encoder -----

  function EncodeLength(length: nat, offset: byte): (r: Bytes)
    requires offset <= 0xc0
    ensures 1 <= |r| <= 9
  {
    if length <= 55 then [offset + length as byte]
    else
      var lenBytes := ToBigEndian(Wrap64(length));
      Fits64(Wrap64(length));
      [offset + 55 + |lenBytes| as byte] + lenBytes
  }

  function EncodeBytes(b: Bytes): Bytes {
    if |b| == 1 && b[0] <= 0x7f then b else EncodeLength(|b|, 0x80) + b
  }

  function EncodeList(items: seq<Bytes>): Bytes {
    EncodeLength(|Concat(items)|, 0xc0) + Concat(items)
  }

  function EncodeUint64(v: uint64): Bytes {
    if v == 0 then [0x80] else EncodeBytes(ToBigEndian(v))
  }

  function EncodeBigInt(v: nat): Bytes {
    if v == 0 then [0x80] else EncodeBytes(ToBigEndian(v))
  }

  /** Re-encodes a decoded item tree. */
  function Reencode(item: Item): Bytes
    decreases item, 1
  {
    match item
    case Str(data) => EncodeBytes(data)
    case List(children) => EncodeLength(|ReencodeAll(children)|, 0xc0) + ReencodeAll(children)
  }

  function ReencodeAll(items: seq<Item>): Bytes
    decreases items, 0
  {
    if items == [] then [] else Reencode(items[0]) + ReencodeAll(items[1..])
  }

  // ----- Decoder -----

  /** The value decodeLength accumulates in a 64-bit int. */
  function LengthOf(lenBytes: Bytes): int {
    Signed64(FromBigEndian(lenBytes))
  }

  /** The switch on the prefix byte: all checks that do not look inside a list. */
  function ReadPrefix(data: Bytes, offset: nat): (r: Result<Span, Error>)
    requires offset < |data|
    ensures r.Ok? ==> r.value.end <= |data|
    ensures r.Ok? && r.value.StrSpan? ==> r.value.start <= r.value.end && offset < r.value.end
    ensures r.Ok? && r.value.ListSpan? ==> offset < r.value.start
  {
    var prefix := data[offset];
    var start := offset + 1;
    if prefix <= 0x7f then
      Ok(StrSpan(offset, start))
    else if prefix <= 0xb7 then
      var end := start + (prefix as int - 0x80);
      if end > |data| then Err(TooShort)
      else if end - start == 1 && data[start] <= 0x7f then Err(NonCanonical)
      else Ok(StrSpan(start, end))
    else if prefix <= 0xbf then
      var lenLen := prefix as int - 0xb7;
      if start + lenLen > |data| then Err(TooShort)
      else
        var strLen := LengthOf(data[start..start + lenLen]);
        if strLen <= 55 || data[start] == 0 then Err(NonCanonical)
        else
          var end := Signed64(start + lenLen + strLen);
          if end > |data| then Err(TooShort)
          else if strLen > MAX_ITEM_SIZE then Err(Oversized)
          else if end < start then Err(TooShort) // not reached: a Go slice is shorter than 2^63 bytes
          else Ok(StrSpan(start + lenLen, end))
    else if prefix <= 0xf7 then
      var end := start + (prefix as int - 0xc0);
      if end > |data| then Err(TooShort) else Ok(ListSpan(start, end))
    else
      var lenLen := prefix as int - 0xf7;
      if start + lenLen > |data| then Err(TooShort)
      else
        var listLen := LengthOf(data[start..start + lenLen]);
        if listLen <= 55 || data[start] == 0 then Err(NonCanonical)
        else
          var end := Signed64(start + lenLen + listLen);
          if end > |data| then Err(TooShort) else Ok(ListSpan(start + lenLen, end))
  }

  /** decodeItem: the item that starts at an offset, and where it ends. */
  function Decoded(data: Bytes, offset: nat, depth: nat): (r: Result<Parsed, Error>)
    ensures r.Ok? ==> offset < r.value.end <= |data|
    decreases if depth > MAX_DEPTH then 0 else MAX_DEPTH + 1 - depth, 0, 0
  {
    if depth > MAX_DEPTH then Err(DepthExceeded)
    else if offset >= |data| then Err(TooShort)
    else
      match ReadPrefix(data, offset)
      case Err(e) => Err(e)
      case Ok(StrSpan(start, end)) => Ok(Parsed(Str(data[start..end]), end))
      case Ok(ListSpan(start, end)) =>
        match DecodedChildren(data, start, end, depth + 1)
        case Err(e) => Err(e)
        case Ok(children) => Ok(Parsed(List(children), end))
  }

  /** decodeChildren: the items that fill data[pos..end] exactly. */
  function DecodedChildren(data: Bytes, pos: nat, end: int, depth: nat): (r: Result<seq<Item>, Error>)
    ensures r.Ok? ==> pos <= end
    decreases if depth > MAX_DEPTH then 0 else MAX_DEPTH + 1 - depth, 1, end - pos
  {
    if pos >= end then
      if pos != end then Err(LengthMismatch) else Ok([])
    else
      match Decoded(data, pos, depth)
      case Err(e) => Err(e)
      case Ok(first) => Prepend([first.item], DecodedChildren(data, first.end, end, depth))
  }

  function Prepend(items: seq<Item>, r: Result<seq<Item>, Error>): Result<seq<Item>, Error> {
    match r
    case Err(e) => Err(e)
    case Ok(rest) => Ok(items + rest)
  }

  lemma PrependOne(items: seq<Item>, item: Item, r: Result<seq<Item>, Error>)
    ensures Prepend(items, Prepend([item], r)) == Prepend(items + [item], r)
  {
    if r.Ok? {
      assert items + ([item] + r.value) == items + [item] + r.value;
    }
  }

  function Decode(data: Bytes): Result<Parsed, Error> {
    Decoded(data, 0, 0)
  }

  function DecodeList(data: Bytes): Result<seq<Item>, Error> {
    match Decode(data)
    case Err(e) => Err(e)
    case Ok(p) => if p.item.List? then Ok(p.item.children) else Err(ExpectedList)
  }

  // ----- The program's loops -----

  method DecodeLength(data: Bytes) returns (result: int)
    ensures result == LengthOf(data)
  {
    result := 0;
    for i := 0 to |data|
      invariant result == LengthOf(data[..i])
    {
      assert data[..i + 1][..i] == data[..i];
      SignedShift(FromBigEndian(data[..i]), data[i]);
      result := Signed64(result * 256 + data[i] as int);
    }
    assert data[..|data|] == data;
  }

  method AsUint64(item: Item) returns (result: uint64)
    ensures result == item.AsUint64()
  {
    var data := item.AsBytes();
    result := 0;
    for i := 0 to |data|
      invariant result == Wrap64(FromBigEndian(data[..i]))
    {
      assert data[..i + 1][..i] == data[..i];
      ShiftWraps(FromBigEndian(data[..i]), data[i]);
      result := Wrap64(result * 256 + data[i] as int);
    }
    assert data[..|data|] == data;
  }

  method BigEndianUint64(v: uint64) returns (r: Bytes)
    ensures r == ToBigEndian(v)
  {
    if v == 0 {
      return [];
    }
    var buf := new byte[8](i => 0);
    var rest, i: int := v, 7;
    Fits64(v);
    while true
      invariant 0 <= i <= 7
      invariant rest > 0
      invariant |ToBigEndian(rest)| <= i + 1
      invariant ToBigEndian(v) == ToBigEndian(rest) + buf[i + 1..]
      decreases i
    {
      ghost var done := buf[i + 1..];
      buf[i] := (rest % 256) as byte;
      assert buf[i..] == [(rest % 256) as byte] + done;
      assert ToBigEndian(rest) + done == ToBigEndian(rest / 256) + buf[i..];
      rest := rest / 256;
      if rest == 0 {
        return buf[i..];
      }
      i := i - 1;
    }
  }

  method BuildList(items: seq<Bytes>) returns (r: Bytes)
    ensures r == EncodeList(items)
  {
    var payload: Bytes := [];
    for i := 0 to |items|
      invariant payload == Concat(items[..i])
    {
      ConcatAppend(items[..i], [items[i]]);
      assert items[..i + 1] == items[..i] + [items[i]];
      assert Concat([items[i]]) == items[i];
      payload := payload + items[i];
    }
    assert items[..|items|] == items;
    r := EncodeLength(|payload|, 0xc0) + payload;
  }

  method DecodeItem(data: Bytes, offset: nat, depth: nat) returns (r: Result<Parsed, Error>)
    ensures r == Decoded(data, offset, depth)
    decreases if depth > MAX_DEPTH then 0 else MAX_DEPTH + 1 - depth, 0
  {
    if depth > MAX_DEPTH {
      return Err(DepthExceeded);
    }
    if offset >= |data| {
      return Err(TooShort);
    }
    match ReadPrefix(data, offset)
    case Err(e) => return Err(e);
    case Ok(StrSpan(start, end)) => return Ok(Parsed(Str(data[start..end]), end));
    case Ok(ListSpan(start, end)) =>
      var children := DecodeChildren(data, start, end, depth + 1);
      match children
      case Err(e) => return Err(e);
      case Ok(cs) => return Ok(Parsed(List(cs), end));
  }

  method DecodeChildren(data: Bytes, start: nat, end: int, depth: nat) returns (r: Result<seq<Item>, Error>)
    ensures r == DecodedChildren(data, start, end, depth)
    decreases if depth > MAX_DEPTH then 0 else MAX_DEPTH + 1 - depth, 1
  {
    var children: seq<Item> := [];
    var pos := start;
    ghost var whole := DecodedChildren(data, start, end, depth);
    assert whole.Ok? ==> children + whole.value == whole.value;
    while pos < end
      invariant DecodedChildren(data, start, end, depth) == Prepend(children, DecodedChildren(data, pos, end, depth))
    {
      var child := DecodeItem(data, pos, depth);
      match child {
        case Err(e) => return Err(e);
        case Ok(p) =>
          PrependOne(children, p.item, DecodedChildren(data, p.end, end, depth));
          children := children + [p.item];
          pos := p.end;
      }
    }
    if pos != end {
      return Err(LengthMismatch);
    }
    assert children + [] == children;
    return Ok(children);
  }

  lemma SignedShift(n: nat, b: byte)
    ensures Signed64(Signed64(n) * 256 + b as int) == Signed64(n * 256 + b as int)
  {
    ShiftWraps(n, b);
    if Wrap64(n) >= TWO_63 {
      WrapPlusMultiple(Wrap64(n) * 256 + b as int, -256);
    }
  }

  lemma {:induction false} ReencodeAllAppend(items: seq<Item>, last: Item)
    ensures ReencodeAll(items + [last]) == ReencodeAll(items) + Reencode(last)
  {
    if items == [] {
      assert [last][1..] == [];
    } else {
      assert (items + [last])[1..] == items[1..] + [last];
      ReencodeAllAppend(items[1..], last);
    }
  }
}
