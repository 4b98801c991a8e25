/** The verifier decodes every node the monitor encodes, inlined children included. */
module TrieNodes {
  import opened ByteStrings
  import opened HexPrefix
  import opened Rlp
  import opened RlpTheorems
  import opened Trie
  import Mpt

  const MAX_PATH := 131070

  /** Strings small enough for the decoder. */
  ghost predicate Sized(t: TrieNode) {
    match t
    case Empty => true
    case Leaf(path, value) => |path| <= MAX_PATH && |value| <= 65536
    case Branch(children, value) => |value| <= 65536 && forall c :: c in children ==> Sized(c)
    case Extension(path, child) => |path| <= MAX_PATH && Sized(child)
  }

  /** The item tree a node's encoding denotes. */
  function ItemFor(keccak: Hasher, t: TrieNode): Item
    requires WellFormed(t)
    decreases t, 1
  {
    match t
    case Empty => Str([])
    case Leaf(path, value) => List([Str(NibblesToCompact(path, true)), Str(value)])
    case Branch(children, value) => List(RefItems(keccak, children) + [Str(value)])
    case Extension(path, child) => List([Str(NibblesToCompact(path, false)), RefItem(keccak, child)])
  }

  function RefItem(keccak: Hasher, t: TrieNode): Item
    requires WellFormed(t)
    decreases t, 2
  {
    if |Encode(keccak, t)| < 32 then ItemFor(keccak, t) else Str(keccak(Encode(keccak, t)))
  }

  function RefItems(keccak: Hasher, ts: seq<TrieNode>): (r: seq<Item>)
    requires forall t :: t in ts ==> WellFormed(t)
    ensures |r| == |ts|
    decreases ts, 0
  {
    if ts == [] then [] else RefItems(keccak, ts[..|ts| - 1]) + [RefItem(keccak, ts[|ts| - 1])]
  }

  /** The decoded node the verifier walks. */
  function NodeFor(keccak: Hasher, t: TrieNode): Mpt.Node
    requires WellFormed(t)
    decreases t, 1
  {
    match t
    case Empty => Mpt.Nil
    case Leaf(path, value) => Mpt.Short(path + [TERMINATOR], Mpt.ValueNode(value))
    case Branch(children, value) =>
      Mpt.Full(RefNodes(keccak, children) + [if value == [] then Mpt.Nil else Mpt.ValueNode(value)])
    case Extension(path, child) => Mpt.Short(path, RefNode(keccak, child))
  }

  function RefNode(keccak: Hasher, t: TrieNode): Mpt.Node
    requires WellFormed(t)
    decreases t, 2
  {
    if |Encode(keccak, t)| < 32 then NodeFor(keccak, t) else Mpt.HashNode(keccak(Encode(keccak, t)))
  }

  function RefNodes(keccak: Hasher, ts: seq<TrieNode>): (r: seq<Mpt.Node>)
    requires forall t :: t in ts ==> WellFormed(t)
    ensures |r| == |ts| && forall i :: 0 <= i < |ts| ==> r[i] == RefNode(keccak, ts[i])
    decreases ts, 0
  {
    if ts == [] then [] else RefNodes(keccak, ts[..|ts| - 1]) + [RefNode(keccak, ts[|ts| - 1])]
  }

  // ----- Encodings are encodings of item trees -----

  lemma ConcatPair(x: Bytes, y: Bytes)
    ensures Concat([x, y]) == x + y
  {
    assert [x, y][1..] == [y];
    assert Concat([y]) == y + Concat([]);
  }

  lemma PairEncoding(a: Item, b: Item)
    ensures EncodeList([Reencode(a), Reencode(b)]) == Reencode(List([a, b]))
  {
    hide Reencode, EncodeLength;
    var x, y := Reencode(a), Reencode(b);
    ConcatPair(x, y);
    assert [a, b][1..] == [b];
    assert ReencodeAll([b]) == y + ReencodeAll([]);
    ReencodeList([a, b]);
  }

  lemma ReencodeList(items: seq<Item>)
    ensures Reencode(List(items)) == EncodeLength(|ReencodeAll(items)|, 0xc0) + ReencodeAll(items)
  {
  }

  lemma {:induction false} EncodeIsItem(keccak: Hasher, t: TrieNode)
    requires WellFormed(t)
    ensures Encode(keccak, t) == Reencode(ItemFor(keccak, t))
    decreases t, 1
  {
    hide NibblesToCompact, EncodeLength, EncodeBytes;
    match t
    case Empty =>
    case Leaf(path, value) =>
      PairEncoding(Str(NibblesToCompact(path, true)), Str(value));
    case Branch(children, value) =>
      ReferencesAreItems(keccak, children);
      var refs, items := References(keccak, children), RefItems(keccak, children);
      ConcatAppend(refs, [EncodeBytes(value)]);
      assert Concat([EncodeBytes(value)]) == EncodeBytes(value);
      ReencodeAllAppend(items, Str(value));
      ReencodeList(items + [Str(value)]);
    case Extension(path, child) =>
      ReferenceIsItem(keccak, child);
      PairEncoding(Str(NibblesToCompact(path, false)), RefItem(keccak, child));
  }

  lemma {:induction false} ReferenceIsItem(keccak: Hasher, t: TrieNode)
    requires WellFormed(t)
    ensures Reference(keccak, t) == Reencode(RefItem(keccak, t))
    decreases t, 2
  {
    EncodeIsItem(keccak, t);
  }

  lemma {:induction false} ReferencesAreItems(keccak: Hasher, ts: seq<TrieNode>)
    requires forall t :: t in ts ==> WellFormed(t)
    ensures Concat(References(keccak, ts)) == ReencodeAll(RefItems(keccak, ts))
    decreases ts, 0
  {
    if ts != [] {
      hide Reference, RefItem;
      var front, last := ts[..|ts| - 1], ts[|ts| - 1];
      ReferencesAreItems(keccak, front);
      ReferenceIsItem(keccak, last);
      ConcatAppend(References(keccak, front), [Reference(keccak, last)]);
      assert Concat([Reference(keccak, last)]) == Reference(keccak, last);
      ReencodeAllAppend(RefItems(keccak, front), RefItem(keccak, last));
    }
  }

  // ----- Sizes -----

  lemma EncodeBytesSize(b: Bytes)
    ensures 1 <= |EncodeBytes(b)| <= |b| + 9
    ensures |b| == 32 ==> |EncodeBytes(b)| == 33
  {
  }

  lemma EncodeListSize(items: seq<Bytes>)
    ensures |Concat(items)| < |EncodeList(items)| <= |Concat(items)| + 9
  {
  }

  lemma ReferenceSize(keccak: Hasher, t: TrieNode)
    requires WellFormed(t)
    ensures 1 <= |Reference(keccak, t)| <= 33
  {
    hide EncodeLength;
    EncodeSomething(keccak, t);
    EncodeBytesSize(keccak(Encode(keccak, t)));
  }

  lemma EncodeSomething(keccak: Hasher, t: TrieNode)
    requires WellFormed(t)
    ensures |Encode(keccak, t)| >= 1
  {
  }

  lemma {:induction false} ReferencesSize(keccak: Hasher, ts: seq<TrieNode>)
    requires forall t :: t in ts ==> WellFormed(t)
    ensures |ts| <= |Concat(References(keccak, ts))| <= 33 * |ts|
    ensures forall t :: t in ts ==> |ts| - 1 + |Reference(keccak, t)| <= |Concat(References(keccak, ts))|
  {
    if ts != [] {
      hide Reference;
      var front, last := ts[..|ts| - 1], ts[|ts| - 1];
      ReferencesSize(keccak, front);
      ReferenceSize(keccak, last);
      ConcatAppend(References(keccak, front), [Reference(keccak, last)]);
      assert Concat([Reference(keccak, last)]) == Reference(keccak, last);
      assert ts == front + [last];
    }
  }

  lemma BranchSize(keccak: Hasher, t: TrieNode)
    requires WellFormed(t) && t.Branch?
    ensures 18 <= |Encode(keccak, t)| <= 600 + |t.value|
    ensures forall c :: c in t.children ==> 17 + |Reference(keccak, c)| <= |Encode(keccak, t)|
  {
    hide Reference, EncodeLength, EncodeList, EncodeBytes;
    ReferencesSize(keccak, t.children);
    EncodeBytesSize(t.value);
    ConcatAppend(References(keccak, t.children), [EncodeBytes(t.value)]);
    assert Concat([EncodeBytes(t.value)]) == EncodeBytes(t.value);
    EncodeListSize(References(keccak, t.children) + [EncodeBytes(t.value)]);
  }

  lemma PairSize(a: Bytes, b: Bytes)
    ensures |a| + |b| < |EncodeList([a, b])| <= |a| + |b| + 9
  {
    hide EncodeLength;
    ConcatPair(a, b);
    EncodeListSize([a, b]);
  }

  lemma EncodeFits(keccak: Hasher, t: TrieNode)
    requires WellFormed(t) && Sized(t)
    ensures |Encode(keccak, t)| < 0x100_0000
  {
    hide Reference, EncodeLength, EncodeList, EncodeBytes;
    match t
    case Empty => EncodeBytesSize([]);
    case Leaf(path, value) =>
      EncodeBytesSize(NibblesToCompact(path, true));
      EncodeBytesSize(value);
      PairSize(EncodeBytes(NibblesToCompact(path, true)), EncodeBytes(value));
    case Branch(_, _) => BranchSize(keccak, t);
    case Extension(path, child) =>
      EncodeBytesSize(NibblesToCompact(path, false));
      ReferenceSize(keccak, child);
      PairSize(EncodeBytes(NibblesToCompact(path, false)), Reference(keccak, child));
  }

  lemma ExtensionSize(keccak: Hasher, t: TrieNode)
    requires WellFormed(t) && t.Extension?
    ensures |Encode(keccak, t)| > 18
  {
    BranchSize(keccak, t.child);
    hide Encode;
    EncodeBytesSize(keccak(Encode(keccak, t.child)));
    ExtensionContainsReference(keccak, t);
  }

  lemma ExtensionContainsReference(keccak: Hasher, t: TrieNode)
    requires WellFormed(t) && t.Extension?
    ensures |Encode(keccak, t)| > |Reference(keccak, t.child)|
  {
    hide Reference, EncodeLength, EncodeList, EncodeBytes;
    EncodeBytesSize(NibblesToCompact(t.path, false));
    PairSize(EncodeBytes(NibblesToCompact(t.path, false)), Reference(keccak, t.child));
  }

  // ----- Depth: an inlined chain holds at most one branch -----

  lemma LeafDecodable(keccak: Hasher, t: TrieNode, depth: nat)
    requires WellFormed(t) && Sized(t) && (t.Leaf? || t.Empty?) && depth < 20
    ensures Decodable(ItemFor(keccak, t), depth)
  {
  }

  lemma {:induction false} RefItemsMember(keccak: Hasher, ts: seq<TrieNode>, item: Item) returns (t: TrieNode)
    requires forall t :: t in ts ==> WellFormed(t)
    requires item in RefItems(keccak, ts)
    ensures t in ts && item == RefItem(keccak, t)
  {
    t := ts[|ts| - 1];
    hide RefItem;
    if item != RefItem(keccak, t) {
      t := RefItemsMember(keccak, ts[..|ts| - 1], item);
    }
  }

  /** Below 32 bytes, a branch can only inline leaves. */
  lemma InlineBranchDecodable(keccak: Hasher, t: TrieNode, depth: nat)
    requires WellFormed(t) && Sized(t) && t.Branch? && depth + 1 < 20
    requires |Encode(keccak, t)| < 32
    ensures Decodable(ItemFor(keccak, t), depth)
  {
    forall item | item in RefItems(keccak, t.children)
      ensures Decodable(item, depth + 1)
    {
      hide Encode, ItemFor;
      var c := RefItemsMember(keccak, t.children, item);
      BranchSize(keccak, t);
      if |Encode(keccak, c)| < 32 {
        if c.Branch? {
          BranchSize(keccak, c);
        } else if c.Extension? {
          ExtensionSize(keccak, c);
        }
        LeafDecodable(keccak, c, depth + 1);
      }
    }
    hide RefItem, RefItems;
  }

  lemma InlineDecodable(keccak: Hasher, t: TrieNode, depth: nat)
    requires WellFormed(t) && Sized(t) && depth + 2 < 20
    requires |Encode(keccak, t)| < 32
    ensures Decodable(ItemFor(keccak, t), depth)
  {
    match t
    case Branch(_, _) => InlineBranchDecodable(keccak, t, depth);
    case Extension(path, child) =>
      if |Encode(keccak, child)| < 32 {
        InlineBranchDecodable(keccak, child, depth + 1);
      }
    case _ => LeafDecodable(keccak, t, depth);
  }

  lemma RefDecodable(keccak: Hasher, t: TrieNode)
    requires WellFormed(t) && Sized(t)
    ensures Decodable(RefItem(keccak, t), 1)
  {
    hide Encode, ItemFor;
    if |Encode(keccak, t)| < 32 {
      InlineDecodable(keccak, t, 1);
    }
  }

  lemma NodeDecodable(keccak: Hasher, t: TrieNode)
    requires WellFormed(t) && Sized(t)
    ensures Decodable(ItemFor(keccak, t), 0)
  {
    hide RefItem;
    match t
    case Branch(children, _) =>
      forall item | item in RefItems(keccak, children)
        ensures Decodable(item, 1)
      {
        var c := RefItemsMember(keccak, children, item);
        RefDecodable(keccak, c);
      }
      hide RefItems;
    case Extension(_, child) => RefDecodable(keccak, child);
    case _ => LeafDecodable(keccak, t, 0);
  }

  // ----- The verifier's view -----

  lemma {:induction false} DecodesToNode(keccak: Hasher, t: TrieNode)
    requires WellFormed(t) && !t.Empty?
    ensures ItemFor(keccak, t).List?
    ensures Mpt.DecodeElements(ItemFor(keccak, t).children) == Some(NodeFor(keccak, t))
    decreases t, 1
  {
    hide NibblesToCompact, CompactToHex, Encode;
    match t
    case Leaf(path, value) =>
      CompactRoundTrip(path, true);
    case Extension(path, child) =>
      CompactRoundTrip(path, false);
      assert !HasTerm(path);
      assert path + [] == path;
      RefDecodes(keccak, child);
    case Branch(children, value) =>
      RefsDecode(keccak, children);
      var items := RefItems(keccak, children);
      assert (items + [Str(value)])[..16] == items;
  }

  lemma {:induction false} RefDecodes(keccak: Hasher, t: TrieNode)
    requires WellFormed(t)
    ensures Mpt.DecodeRef(RefItem(keccak, t)) == Some(RefNode(keccak, t))
    decreases t, 2
  {
    if |Encode(keccak, t)| < 32 && !t.Empty? {
      hide Encode;
      DecodesToNode(keccak, t);
    }
  }

  lemma {:induction false} RefsDecode(keccak: Hasher, ts: seq<TrieNode>)
    requires forall t :: t in ts ==> WellFormed(t)
    ensures Mpt.DecodeRefs(RefItems(keccak, ts)) == Some(RefNodes(keccak, ts))
    decreases ts, 0
  {
    if ts != [] {
      hide RefItem, RefNode;
      var front, last := ts[..|ts| - 1], ts[|ts| - 1];
      RefsDecode(keccak, front);
      RefDecodes(keccak, last);
      var items := RefItems(keccak, front);
      assert (items + [RefItem(keccak, last)])[..|items|] == items;
    }
  }

  lemma NodeForShaped(keccak: Hasher, t: TrieNode)
    requires WellFormed(t)
    ensures Mpt.Shaped(NodeFor(keccak, t)) && !NodeFor(keccak, t).ValueNode?
  {
    if !t.Empty? {
      DecodesToNode(keccak, t);
      Mpt.DecodeElementsShaped(ItemFor(keccak, t).children);
    }
  }

  /** decodeNode recovers exactly the node that was encoded. */
  lemma DecodeNodeEncode(keccak: Hasher, t: TrieNode)
    requires WellFormed(t) && Sized(t) && !t.Empty?
    ensures Mpt.DecodeNode(Encode(keccak, t)) == Some(NodeFor(keccak, t))
    ensures Decode(Encode(keccak, t)) == Ok(Parsed(ItemFor(keccak, t), |Encode(keccak, t)|))
  {
    hide Encode, ItemFor, NodeFor, Decoded;
    EncodeIsItem(keccak, t);
    EncodeFits(keccak, t);
    NodeDecodable(keccak, t);
    DecodesToNode(keccak, t);
    var enc := Encode(keccak, t);
    assert At(enc, 0, enc);
    DecodeEncoded(enc, 0, ItemFor(keccak, t), 0);
  }
}
