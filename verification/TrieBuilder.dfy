/** The monitor's loops over keys, children and proof nodes, proved against the functions of Trie. */
module TrieBuilder {
  import opened ByteStrings
  import opened HexPrefix
  import opened Rlp
  import opened Trie

  /** Parallel slices of keys and values, read as entries. */
  function Pairs(keys: seq<Bytes>, values: seq<Bytes>): (es: seq<Entry>)
    requires |keys| == |values|
    ensures |es| == |keys|
    ensures forall i :: 0 <= i < |es| ==> es[i] == Entry(keys[i], values[i])
  {
    seq(|keys|, i requires 0 <= i < |keys| => Entry(keys[i], values[i]))
  }

  method CommonPrefixLen(keys: seq<Bytes>, values: seq<Bytes>, depth: nat) returns (common: nat)
    requires |keys| == |values| && Deep(Pairs(keys, values), depth)
    ensures common == if |keys| <= 1 then 0 else CommonLen(Pairs(keys, values), depth)
  {
    if |keys| <= 1 {
      return 0;
    }
    ghost var es := Pairs(keys, values);
    assert forall j :: 0 <= j < |keys| ==> es[j] in es;
    var maxLen := ShortestRest(keys, depth);
    common := 0;
    for i := 0 to maxLen
      invariant common == i
      invariant CommonLen(es, depth) == i + CommonLen(es, depth + i)
    {
      var matches := NibblesMatch(keys, values, depth + i);
      if !matches {
        return;
      }
      common := common + 1;
    }
    var k :| 0 <= k < |keys| && depth + maxLen == |keys[k]|;
    assert es[k] in es && !SameNibble(es, depth + maxLen);
  }

  method ShortestRest(keys: seq<Bytes>, depth: nat) returns (maxLen: nat)
    requires keys != [] && forall k :: 0 <= k < |keys| ==> depth <= |keys[k]|
    ensures forall k :: 0 <= k < |keys| ==> depth + maxLen <= |keys[k]|
    ensures exists k :: 0 <= k < |keys| && depth + maxLen == |keys[k]|
  {
    maxLen := |keys[0]| - depth;
    for j := 1 to |keys|
      invariant forall k :: 0 <= k < j ==> depth + maxLen <= |keys[k]|
      invariant exists k :: 0 <= k < j && depth + maxLen == |keys[k]|
    {
      var kLen := |keys[j]| - depth;
      if kLen < maxLen {
        maxLen := kLen;
      }
    }
  }

  method NibblesMatch(keys: seq<Bytes>, values: seq<Bytes>, pos: nat) returns (matches: bool)
    requires |keys| == |values| && keys != [] && forall k :: 0 <= k < |keys| ==> pos < |keys[k]|
    ensures matches == SameNibble(Pairs(keys, values), pos)
  {
    ghost var es := Pairs(keys, values);
    for j := 1 to |keys|
      invariant forall k :: 0 <= k < j ==> keys[k][pos] == keys[0][pos]
    {
      if keys[j][pos] != keys[0][pos] {
        assert es[j] in es && es[j].key[pos] != es[0].key[pos];
        return false;
      }
    }
    return true;
  }

  method BuildNode(keys: seq<Bytes>, values: seq<Bytes>, depth: nat) returns (node: TrieNode)
    requires |keys| == |values| && Deep(Pairs(keys, values), depth)
    ensures node == Build(Pairs(keys, values), depth)
    decreases MaxLen(Pairs(keys, values)) - depth, 2
  {
    hide Build, MaxLen, CommonLen;
    ghost var es := Pairs(keys, values);
    BuildCases(es, depth);
    if |keys| == 0 {
      return Empty;
    }
    assert es[0] in es;
    if |keys| == 1 {
      return Leaf(keys[0][depth..], values[0]);
    }
    var commonLen := CommonPrefixLen(keys, values, depth);
    if commonLen > 0 {
      var child := BuildNode(keys, values, depth + commonLen);
      return Extension(keys[0][depth..depth + commonLen], child);
    }
    node := BuildBranch(keys, values, depth);
  }

  method BuildBranch(keys: seq<Bytes>, values: seq<Bytes>, depth: nat) returns (node: TrieNode)
    requires |keys| == |values| && Deep(Pairs(keys, values), depth)
    requires |keys| > 1 && CommonLen(Pairs(keys, values), depth) == 0
    ensures node == Build(Pairs(keys, values), depth)
    decreases MaxLen(Pairs(keys, values)) - depth, 1
  {
    hide Build, Sub, MaxLen, CommonLen;
    ghost var es := Pairs(keys, values);
    var children := new TrieNode[16](i => Empty);
    for nibble := 0 to 16
      invariant forall n :: 0 <= n < nibble ==> children[n] == Build(Sub(es, depth, n as byte), depth + 1)
      invariant forall n :: nibble <= n < 16 ==> children[n] == Empty
    {
      children[nibble] := BuildChild(keys, values, depth, nibble as byte);
    }
    var value := ValueEndingAt(keys, values, depth);
    BuildsBranch(es, depth, children[..]);
    return Branch(children[..], value);
  }

  method BuildChild(keys: seq<Bytes>, values: seq<Bytes>, depth: nat, nibble: byte) returns (child: TrieNode)
    requires |keys| == |values| && Deep(Pairs(keys, values), depth)
    ensures child == Build(Sub(Pairs(keys, values), depth, nibble), depth + 1)
    decreases MaxLen(Pairs(keys, values)) - depth, 0
  {
    hide Build;
    ghost var es := Pairs(keys, values);
    var subKeys, subVals := SelectNibble(keys, values, depth, nibble);
    if |subKeys| > 0 {
      SubShrinks(es, depth, nibble);
      child := BuildNode(subKeys, subVals, depth + 1);
    } else {
      child := Empty;
      BuildCases([], depth + 1);
      assert Sub(es, depth, nibble) == [];
    }
  }

  method SelectNibble(keys: seq<Bytes>, values: seq<Bytes>, depth: nat, nibble: byte)
    returns (subKeys: seq<Bytes>, subVals: seq<Bytes>)
    requires |keys| == |values|
    ensures |subKeys| == |subVals| && Pairs(subKeys, subVals) == Sub(Pairs(keys, values), depth, nibble)
  {
    ghost var es := Pairs(keys, values);
    subKeys, subVals := [], [];
    for i := 0 to |keys|
      invariant |subKeys| == |subVals| && Pairs(subKeys, subVals) == Sub(es[..i], depth, nibble)
    {
      assert es[..i + 1][..i] == es[..i];
      if depth < |keys[i]| && keys[i][depth] == nibble {
        assert Pairs(subKeys + [keys[i]], subVals + [values[i]]) == Pairs(subKeys, subVals) + [es[i]];
        subKeys, subVals := subKeys + [keys[i]], subVals + [values[i]];
      }
    }
    assert es[..|keys|] == es;
  }

  method ValueEndingAt(keys: seq<Bytes>, values: seq<Bytes>, depth: nat) returns (value: Bytes)
    requires |keys| == |values|
    ensures value == ValueAt(Pairs(keys, values), depth)
  {
    ghost var es := Pairs(keys, values);
    value := [];
    for i := 0 to |keys|
      invariant value == ValueAt(es[..i], depth)
    {
      assert es[..i + 1][..i] == es[..i];
      if |keys[i]| == depth {
        value := values[i];
      }
    }
    assert es[..|keys|] == es;
  }

  lemma SubShrinks(es: seq<Entry>, depth: nat, nibble: byte)
    requires Sub(es, depth, nibble) != []
    ensures depth + 1 <= MaxLen(Sub(es, depth, nibble)) <= MaxLen(es)
  {
    var sub := Sub(es, depth, nibble);
    assert sub[0] in sub;
    var e :| e in sub && |e.key| == MaxLen(sub);
    assert e in es;
  }

  lemma ReferenceEmpty(keccak: Hasher)
    ensures Reference(keccak, Empty) == EncodeBytes([])
  {
  }

  /** The branch's loop: sixteen child references and the value. */
  method EncodeBranch(keccak: Hasher, children: seq<TrieNode>, value: Bytes) returns (r: Bytes)
    requires WellFormed(Branch(children, value))
    ensures r == Encode(keccak, Branch(children, value))
  {
    hide EncodeList, EncodeBytes, NibblesToCompact;
    ReferenceEmpty(keccak);
    var items: seq<Bytes> := [];
    for i := 0 to 16
      invariant items == References(keccak, children[..i])
    {
      assert children[..i + 1][..i] == children[..i];
      if children[i].Empty? {
        items := items + [EncodeBytes([])];
      } else {
        var childEnc := Encode(keccak, children[i]);
        if |childEnc| < 32 {
          items := items + [childEnc];
        } else {
          items := items + [EncodeBytes(keccak(childEnc))];
        }
      }
    }
    assert children[..16] == children;
    r := BuildList(items + [EncodeBytes(value)]);
  }

  /** Appends the nodes met on the way down to the proof collected so far. */
  method AppendProof(keccak: Hasher, node: TrieNode, nibbles: Bytes, depth: nat, proof: seq<Bytes>)
    returns (r: seq<Bytes>)
    requires WellFormed(node) && IsNibbles(nibbles)
    ensures r == proof + CollectProof(keccak, node, nibbles, depth)
    decreases node
  {
    hide Encode, CollectProof;
    CollectCases(keccak, node, nibbles, depth);
    if node.Empty? {
      assert proof + [] == proof;
      return proof;
    }
    var enc := Encode(keccak, node);
    var sofar := proof + [enc];
    if node.Branch? && depth < |nibbles| {
      var child := node.children[nibbles[depth]];
      if child.Empty? {
        CollectCases(keccak, child, nibbles, depth + 1);
        assert [enc] + [] == [enc];
        return sofar;
      }
      Regroup(proof, enc, CollectProof(keccak, child, nibbles, depth + 1));
      r := AppendProof(keccak, child, nibbles, depth + 1, sofar);
      return;
    }
    if node.Extension? {
      Regroup(proof, enc, CollectProof(keccak, node.child, nibbles, depth + |node.path|));
      r := AppendProof(keccak, node.child, nibbles, depth + |node.path|, sofar);
      return;
    }
    return sofar;
  }

  lemma Regroup(a: seq<Bytes>, x: Bytes, b: seq<Bytes>)
    ensures a + [x] + b == a + ([x] + b)
  {
  }

  lemma CollectCases(keccak: Hasher, node: TrieNode, nibbles: Bytes, depth: nat)
    requires WellFormed(node) && IsNibbles(nibbles)
    ensures CollectProof(keccak, node, nibbles, depth) ==
      match node
      case Empty => []
      case Leaf(_, _) => [Encode(keccak, node)]
      case Branch(children, _) =>
        if depth < |nibbles|
        then [Encode(keccak, node)] + CollectProof(keccak, children[nibbles[depth]], nibbles, depth + 1)
        else [Encode(keccak, node)]
      case Extension(path, child) =>
        [Encode(keccak, node)] + CollectProof(keccak, child, nibbles, depth + |path|)
  {
    hide Encode;
  }
}
