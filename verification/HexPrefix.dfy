/**
 Trie keys as nibbles and their compact form: the monitor's printer and the contract's
 parser. The compact form is the hex-prefix encoding of Appendix C of the Ethereum Yellow Paper.
 */
module HexPrefix {
  import opened ByteStrings

  const TERMINATOR: byte := 16

  predicate IsNibbles(s: Bytes) {
    forall i :: 0 <= i < |s| ==> s[i] < 16
  }

  function KeyToNibbles(key: Bytes): (r: Bytes)
    ensures |r| == 2 * |key| && IsNibbles(r)
  {
    if key == [] then [] else [key[0] / 16, key[0] % 16] + KeyToNibbles(key[1..])
  }

  /** The verifier's key: nibbles closed by a terminator. */
  function KeybytesToHex(key: Bytes): (r: Bytes)
    ensures |r| == 2 * |key| + 1
  {
    KeyToNibbles(key) + [TERMINATOR]
  }

  function Pack(nibbles: Bytes): (r: Bytes)
    requires IsNibbles(nibbles) && |nibbles| % 2 == 0
    ensures |r| == |nibbles| / 2
  {
    if nibbles == [] then [] else [nibbles[0] * 16 + nibbles[1]] + Pack(nibbles[2..])
  }

  function NibblesToCompact(nibbles: Bytes, isLeaf: bool): (r: Bytes)
    requires IsNibbles(nibbles)
    ensures |r| == |nibbles| / 2 + 1
  {
    var prefix: byte := if isLeaf then 2 else 0;
    if |nibbles| % 2 == 1 then [(prefix + 1) * 16 + nibbles[0]] + Pack(nibbles[1..])
    else [prefix * 16] + Pack(nibbles)
  }

  function CompactToHex(compact: Bytes): Bytes {
    if compact == [] then compact
    else
      var hex := KeybytesToHex(compact);
      var base := if hex[0] < 2 then hex[..|hex| - 1] else hex;
      base[2 - (hex[0] % 2) as int..]
  }

  predicate HasTerm(s: Bytes) {
    |s| > 0 && s[|s| - 1] == TERMINATOR
  }

  // ----- The program's loops -----

  method MonitorKeyToNibbles(key: Bytes) returns (nibbles: Bytes)
    ensures nibbles == KeyToNibbles(key)
  {
    var buf := new byte[|key| * 2](i => 0);
    for i := 0 to |key|
      invariant buf[..2 * i] == KeyToNibbles(key[..i])
    {
      buf[i * 2] := key[i] / 16;
      buf[i * 2 + 1] := key[i] % 16;
      assert key[..i + 1] == key[..i] + [key[i]];
      NibblesAppend(key[..i], [key[i]]);
      assert buf[..2 * (i + 1)] == buf[..2 * i] + [key[i] / 16, key[i] % 16];
    }
    assert key[..|key|] == key;
    return buf[..];
  }

  method VerifierKeybytesToHex(str: Bytes) returns (hex: Bytes)
    ensures hex == KeybytesToHex(str)
  {
    var l := |str| * 2 + 1;
    var buf := new byte[l](i => 0);
    for i := 0 to |str|
      invariant buf[..2 * i] == KeyToNibbles(str[..i])
    {
      buf[i * 2] := str[i] / 16;
      buf[i * 2 + 1] := str[i] % 16;
      assert str[..i + 1] == str[..i] + [str[i]];
      NibblesAppend(str[..i], [str[i]]);
      assert buf[..2 * (i + 1)] == buf[..2 * i] + [str[i] / 16, str[i] % 16];
    }
    assert str[..|str|] == str;
    buf[l - 1] := TERMINATOR;
    return buf[..];
  }

  method MonitorNibblesToCompact(nibbles: Bytes, isLeaf: bool) returns (compact: Bytes)
    requires IsNibbles(nibbles)
    ensures compact == NibblesToCompact(nibbles, isLeaf)
  {
    var prefix: byte := if isLeaf then 2 else 0;
    var odd := |nibbles| % 2;
    if odd == 1 {
      prefix := prefix + 1;
      compact := [prefix * 16 + nibbles[0]];
    } else {
      compact := [prefix * 16];
    }
    var i := odd;
    ghost var head := compact;
    while i < |nibbles|
      invariant odd <= i <= |nibbles| && (i - odd) % 2 == 0
      invariant compact == head + Pack(nibbles[odd..i])
    {
      PackOne(nibbles, odd, i);
      compact := compact + [nibbles[i] * 16 + nibbles[i + 1]];
      i := i + 2;
    }
    assert nibbles[odd..i] == nibbles[odd..];
    assert odd == 0 ==> nibbles[odd..] == nibbles;
  }

  // ----- Printer and parser agree -----

  lemma {:induction false} NibblesAppend(a: Bytes, b: Bytes)
    ensures KeyToNibbles(a + b) == KeyToNibbles(a) + KeyToNibbles(b)
  {
    if a == [] {
      assert a + b == b;
    } else {
      assert (a + b)[1..] == a[1..] + b;
      NibblesAppend(a[1..], b);
    }
  }

  lemma {:induction false} PackAppend(a: Bytes, b: Bytes)
    requires IsNibbles(a) && |a| % 2 == 0 && IsNibbles(b) && |b| % 2 == 0
    ensures Pack(a + b) == Pack(a) + Pack(b)
  {
    if a == [] {
      assert a + b == b;
    } else {
      assert (a + b)[2..] == a[2..] + b;
      PackAppend(a[2..], b);
    }
  }

  lemma PackOne(nibbles: Bytes, odd: nat, i: nat)
    requires IsNibbles(nibbles) && odd <= i && i + 2 <= |nibbles| && (i - odd) % 2 == 0
    ensures Pack(nibbles[odd..i + 2]) == Pack(nibbles[odd..i]) + [nibbles[i] * 16 + nibbles[i + 1]]
  {
    var pair := nibbles[i..i + 2];
    PackAppend(nibbles[odd..i], pair);
    assert nibbles[odd..i + 2] == nibbles[odd..i] + pair;
    assert pair[2..] == [];
  }

  lemma {:induction false} UnpackPack(nibbles: Bytes)
    requires IsNibbles(nibbles) && |nibbles| % 2 == 0
    ensures KeyToNibbles(Pack(nibbles)) == nibbles
  {
    if nibbles != [] {
      UnpackPack(nibbles[2..]);
      assert Pack(nibbles)[1..] == Pack(nibbles[2..]);
      assert nibbles == [nibbles[0], nibbles[1]] + nibbles[2..];
    }
  }

  lemma {:induction false} PackUnpack(key: Bytes)
    ensures Pack(KeyToNibbles(key)) == key
  {
    if key != [] {
      PackUnpack(key[1..]);
      assert KeyToNibbles(key)[2..] == KeyToNibbles(key[1..]);
    }
  }

  /** Two keys with the same nibbles are the same key. */
  lemma NibblesInjective(a: Bytes, b: Bytes)
    requires KeyToNibbles(a) == KeyToNibbles(b)
    ensures a == b
  {
    PackUnpack(a);
    PackUnpack(b);
  }

  /** What the parser makes of a flag nibble, the nibble beside it, and the bytes after them. */
  lemma CompactToHexParts(flag: byte, low: byte, rest: Bytes)
    requires flag < 16 && low < 16
    ensures CompactToHex([flag * 16 + low] + rest)
      == (if flag % 2 == 1 then [low] else []) + KeyToNibbles(rest) + (if flag < 2 then [] else [TERMINATOR])
  {
    var head := flag * 16 + low;
    assert head / 16 == flag && head % 16 == low;
    HexOfHead(head, rest);
    DropFlag([head] + rest, flag, low, KeyToNibbles(rest));
  }

  lemma DropFlag(compact: Bytes, flag: byte, low: byte, tail: Bytes)
    requires compact != [] && KeybytesToHex(compact) == [flag, low] + tail + [TERMINATOR]
    ensures CompactToHex(compact)
      == (if flag % 2 == 1 then [low] else []) + tail + (if flag < 2 then [] else [TERMINATOR])
  {
    hide KeybytesToHex;
    var hex := KeybytesToHex(compact);
    var base := if flag < 2 then hex[..|hex| - 1] else hex;
    var end := if flag < 2 then [] else [TERMINATOR];
    assert base == [flag, low] + (tail + end);
    assert base[1..] == [low] + (tail + end);
    assert base[2..] == tail + end;
  }

  lemma HexOfHead(head: byte, rest: Bytes)
    ensures KeybytesToHex([head] + rest) == [head / 16, head % 16] + KeyToNibbles(rest) + [TERMINATOR]
  {
    assert ([head] + rest)[1..] == rest;
  }

  /** The contract reads back exactly the path and the leaf flag the monitor wrote. */
  lemma CompactRoundTrip(nibbles: Bytes, isLeaf: bool)
    requires IsNibbles(nibbles)
    ensures CompactToHex(NibblesToCompact(nibbles, isLeaf)) == nibbles + if isLeaf then [TERMINATOR] else []
  {
    hide CompactToHex, Pack, KeyToNibbles;
    var prefix: byte := if isLeaf then 2 else 0;
    if |nibbles| % 2 == 1 {
      UnpackPack(nibbles[1..]);
      CompactToHexParts(prefix + 1, nibbles[0], Pack(nibbles[1..]));
      assert nibbles == [nibbles[0]] + nibbles[1..];
    } else {
      UnpackPack(nibbles);
      CompactToHexParts(prefix, 0, Pack(nibbles));
    }
  }

  /**
   The parser also takes byte strings the printer never writes: a string survives parsing and
   printing exactly when its flag nibble is at most 3 and an even-length path is padded with 0.
   */
  lemma CompactCanonical(compact: Bytes)
    requires compact != []
    ensures var hex := CompactToHex(compact);
      var path := if HasTerm(hex) then hex[..|hex| - 1] else hex;
      var flag := compact[0] / 16;
      IsNibbles(path) &&
      (NibblesToCompact(path, HasTerm(hex)) == compact <==> flag <= 3 && (flag % 2 == 1 || compact[0] % 16 == 0))
  {
    hide CompactToHex, Pack, KeyToNibbles;
    var flag, low, rest := compact[0] / 16, compact[0] % 16, compact[1..];
    assert compact == [flag * 16 + low] + rest;
    CompactToHexParts(flag, low, rest);
    var hex := CompactToHex(compact);
    var tail := KeyToNibbles(rest);
    var path := if HasTerm(hex) then hex[..|hex| - 1] else hex;
    assert path == (if flag % 2 == 1 then [low] else []) + tail;
    PackUnpack(rest);
    if flag % 2 == 1 {
      assert path[1..] == tail;
    } else {
      assert path == tail;
    }
    var again := NibblesToCompact(path, HasTerm(hex));
    assert again[1..] == rest;
    assert again == compact <==> again[0] == compact[0];
  }
}
