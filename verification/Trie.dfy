/** The monitor's Merkle-Patricia trie: building, encoding, and inclusion proofs. */
module Trie {
  import opened ByteStrings
  import opened HexPrefix
  import opened Rlp

  /** Empty stands for the nil child. */
  datatype TrieNode =
    | Empty
    | Leaf(path: Bytes, value: Bytes)
    | Branch(children: seq<TrieNode>, value: Bytes)
    | Extension(path: Bytes, child: TrieNode)

  /** A key, as nibbles, with its value. */
  datatype Entry = Entry(key: Bytes, value: Bytes)

  /** The shape of every built trie: nibble paths, sixteen children, branches under extensions. */
  ghost predicate WellFormed(t: TrieNode) {
    match t
    case Empty => true
    case Leaf(path, _) => IsNibbles(path)
    case Branch(children, _) => |children| == 16 && forall c :: c in children ==> WellFormed(c)
    case Extension(path, child) => IsNibbles(path) && path != [] && child.Branch? && WellFormed(child)
  }

  // ----- Encoding -----

  /** A node's encoding; an empty slot is written as the empty string. */
  function Encode(keccak: Hasher, t: TrieNode): Bytes
    requires WellFormed(t)
    decreases t, 1
  {
    match t
    case Empty => EncodeBytes([])
    case Leaf(path, value) => EncodeList([EncodeBytes(NibblesToCompact(path, true)), EncodeBytes(value)])
    case Branch(children, value) => EncodeList(References(keccak, children) + [EncodeBytes(value)])
    case Extension(path, child) =>
      EncodeList([EncodeBytes(NibblesToCompact(path, false)), Reference(keccak, child)])
  }

  /** How a parent refers to a child: inline below 32 bytes, by hash otherwise. */
  function Reference(keccak: Hasher, t: TrieNode): Bytes
    requires WellFormed(t)
    decreases t, 2
  {
    if |Encode(keccak, t)| < 32 then Encode(keccak, t) else EncodeBytes(keccak(Encode(keccak, t)))
  }

  function References(keccak: Hasher, ts: seq<TrieNode>): (r: seq<Bytes>)
    requires forall t :: t in ts ==> WellFormed(t)
    ensures |r| == |ts|
    decreases ts, 0
  {
    if ts == [] then [] else References(keccak, ts[..|ts| - 1]) + [Reference(keccak, ts[|ts| - 1])]
  }

  /** The hash of a root; a small leaf is left unhashed. */
  function TrieRoot(keccak: Hasher, t: TrieNode): Bytes
    requires WellFormed(t)
  {
    var enc := Encode(keccak, t);
    if t.Leaf? && |enc| < 32 then enc else keccak(enc)
  }

  // ----- Building -----

  predicate Deep(es: seq<Entry>, depth: nat) {
    forall e :: e in es ==> depth <= |e.key|
  }

  /** All keys go on, and with the same nibble. */
  predicate SameNibble(es: seq<Entry>, depth: nat)
    requires |es| > 0
  {
    forall e :: e in es ==> depth < |e.key| && depth < |es[0].key| && e.key[depth] == es[0].key[depth]
  }

  /** How many nibbles all keys share from depth on. */
  function CommonLen(es: seq<Entry>, depth: nat): (c: nat)
    requires |es| > 0
    decreases |es[0].key| - depth
  {
    if SameNibble(es, depth) then
      assert es[0] in es;
      1 + CommonLen(es, depth + 1)
    else 0
  }

  /** The entries whose key has the given nibble at depth, in order. */
  function Sub(es: seq<Entry>, depth: nat, nibble: byte): (sub: seq<Entry>)
    ensures Deep(sub, depth + 1)
    ensures forall e :: e in sub <==> e in es && depth < |e.key| && e.key[depth] == nibble
  {
    if es == [] then []
    else
      var last := es[|es| - 1];
      Sub(es[..|es| - 1], depth, nibble)
      + if depth < |last.key| && last.key[depth] == nibble then [last] else []
  }

  /** The value of the last entry whose key ends at depth. */
  function ValueAt(es: seq<Entry>, depth: nat): Bytes {
    if es == [] then []
    else if |es[|es| - 1].key| == depth then es[|es| - 1].value
    else ValueAt(es[..|es| - 1], depth)
  }

  function MaxLen(es: seq<Entry>): (m: nat)
    ensures forall e :: e in es ==> |e.key| <= m
    ensures m == 0 || exists e :: e in es && |e.key| == m
  {
    if es == [] then 0
    else
      var m := MaxLen(es[1..]);
      if |es[0].key| > m then |es[0].key| else m
  }

  function Build(es: seq<Entry>, depth: nat): TrieNode
    requires Deep(es, depth)
    decreases MaxLen(es) - depth
  {
    if |es| == 0 then Empty
    else
      assert es[0] in es;
      if |es| == 1 then Leaf(es[0].key[depth..], es[0].value)
      else
        var c := CommonLen(es, depth);
        CommonLenShared(es, depth);
        if c > 0 then Extension(es[0].key[depth..depth + c], Build(es, depth + c))
        else Branch(seq(16, i requires 0 <= i < 16 => Build(Sub(es, depth, i as byte), depth + 1)), ValueAt(es, depth))
  }

  lemma {:induction false} CommonLenShared(es: seq<Entry>, depth: nat)
    requires |es| > 0 && Deep(es, depth)
    ensures var c := CommonLen(es, depth);
      && Deep(es, depth + c)
      && (forall e :: e in es ==> depth + c <= |e.key| && depth + c <= |es[0].key|
                                  && e.key[depth..depth + c] == es[0].key[depth..depth + c])
      && !SameNibble(es, depth + c)
    decreases |es[0].key| - depth
  {
    assert es[0] in es;
    if SameNibble(es, depth) {
      CommonLenShared(es, depth + 1);
      var c := CommonLen(es, depth);
      forall e | e in es
        ensures e.key[depth..depth + c] == es[0].key[depth..depth + c]
      {
        assert e.key[depth..depth + c] == [e.key[depth]] + e.key[depth + 1..depth + c];
        assert es[0].key[depth..depth + c] == [es[0].key[depth]] + es[0].key[depth + 1..depth + c];
      }
    }
  }

  /** The shapes buildNode can return. */
  lemma BuildCases(es: seq<Entry>, depth: nat)
    requires Deep(es, depth)
    ensures |es| == 0 ==> Build(es, depth) == Empty
    ensures |es| == 1 ==> depth <= |es[0].key| && Build(es, depth) == Leaf(es[0].key[depth..], es[0].value)
    ensures |es| > 1 && CommonLen(es, depth) > 0 ==>
      var c := CommonLen(es, depth);
      && depth + c <= |es[0].key| && Deep(es, depth + c)
      && Build(es, depth) == Extension(es[0].key[depth..depth + c], Build(es, depth + c))
  {
    if |es| > 0 {
      assert es[0] in es;
      CommonLenShared(es, depth);
    }
  }

  lemma BuildsBranch(es: seq<Entry>, depth: nat, children: seq<TrieNode>)
    requires |es| > 1 && Deep(es, depth) && CommonLen(es, depth) == 0 && |children| == 16
    requires forall n :: 0 <= n < 16 ==> children[n] == Build(Sub(es, depth, n as byte), depth + 1)
    ensures Build(es, depth) == Branch(children, ValueAt(es, depth))
  {
    assert children == seq(16, i requires 0 <= i < 16 => Build(Sub(es, depth, i as byte), depth + 1));
  }

  /** Keys in their nibble form, paired with the values. */
  function Entries(keys: seq<Bytes>, values: seq<Bytes>): (es: seq<Entry>)
    requires |keys| == |values|
    ensures |es| == |keys|
    ensures forall i :: 0 <= i < |es| ==> es[i] == Entry(KeyToNibbles(keys[i]), values[i])
  {
    seq(|keys|, i requires 0 <= i < |keys| => Entry(KeyToNibbles(keys[i]), values[i]))
  }

  function BuildTrie(keys: seq<Bytes>, values: seq<Bytes>): TrieNode
    requires |keys| == |values|
  {
    Build(Entries(keys, values), 0)
  }

  // ----- Proofs of inclusion -----

  function CollectProof(keccak: Hasher, t: TrieNode, nibbles: Bytes, depth: nat): seq<Bytes>
    requires WellFormed(t) && IsNibbles(nibbles)
    decreases t
  {
    if t.Empty? then []
    else
      [Encode(keccak, t)] +
      match t
      case Leaf(_, _) => []
      case Branch(children, _) =>
        if depth < |nibbles| then CollectProof(keccak, children[nibbles[depth]], nibbles, depth + 1) else []
      case Extension(path, child) => CollectProof(keccak, child, nibbles, depth + |path|)
  }

  function GenerateProof(keccak: Hasher, root: TrieNode, key: Bytes): seq<Bytes>
    requires WellFormed(root)
  {
    CollectProof(keccak, root, KeyToNibbles(key), 0)
  }
}
