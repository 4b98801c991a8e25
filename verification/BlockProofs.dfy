/**
 End to end: the monitor keys the transactions or receipts of a block by their RLP index, builds
 the trie and sends a proof; the contract cuts it up and verifies it against the block's root.
 */
module BlockProofs {
  import opened ByteStrings
  import opened HexPrefix
  import opened MptTheorems
  import opened ProofBytes
  import opened ProofTheorems
  import opened Transactions
  import opened Trie
  import opened TrieNodes
  import opened TrieTheorems
  import Mpt
  import Rlp
  import RlpTheorems

  /** The key of the i-th transaction or receipt. */
  function IndexKey(i: uint64): Bytes {
    Rlp.EncodeUint64(i)
  }

  type Values = vs: seq<Bytes> | |vs| < TWO_63

  function IndexKeys(n: nat): (keys: seq<Bytes>)
    requires n < TWO_63
    ensures |keys| == n && forall i :: 0 <= i < n ==> keys[i] == IndexKey(i)
  {
    seq(n, i requires 0 <= i < n => IndexKey(i))
  }

  function BlockTrie(values: Values): TrieNode {
    BuildTrie(IndexKeys(|values|), values)
  }

  datatype Proof = Proof(root: Bytes, nodes: seq<Bytes>, value: Bytes)

  /** BuildTxProof and BuildReceiptProof, after the values have been encoded. */
  function BuildProof(keccak: Hasher, values: Values, target: nat): Proof
    requires target < |values|
  {
    BlockTrieWellFormed(values);
    var t := BlockTrie(values);
    Proof(TrieRoot(keccak, t), GenerateProof(keccak, t, IndexKey(target)), values[target])
  }

  /** The proof of one of a block's transactions, as fetched. */
  method BuildTxProof(keccak: Hasher, txs: seq<RpcTx>, targetIndex: int) returns (p: Option<Proof>)
    requires |txs| < TWO_63
    ensures p.Some? <==> 0 <= targetIndex < |txs|
    ensures p.Some? ==> p.value == BuildProof(keccak, EncodeTxs(txs), targetIndex)
  {
    hide Build, CollectProof, TrieRoot, WellFormed, IndexKey, Rlp.EncodeUint64, EncodeTx;
    if targetIndex < 0 || targetIndex >= |txs| {
      return None;
    }
    var keys := new Bytes[|txs|](i => []);
    var values := new Bytes[|txs|](i => []);
    for i := 0 to |txs|
      invariant forall j :: 0 <= j < i ==> keys[j] == IndexKey(j)
      invariant forall j :: 0 <= j < i ==> values[j] == EncodeTx(txs[j])
    {
      keys[i] := IndexKey(i);
      var enc := MonitorEncodeTx(txs[i]);
      values[i] := enc;
    }
    assert keys[..] == IndexKeys(|txs|) && values[..] == EncodeTxs(txs);
    BlockTrieWellFormed(EncodeTxs(txs));
    var trie := BuildTrie(keys[..], values[..]);
    var root := TrieRoot(keccak, trie);
    var proof := GenerateProof(keccak, trie, IndexKey(targetIndex));
    return Some(Proof(root, proof, values[targetIndex]));
  }

  ghost predicate Fit(values: seq<Bytes>) {
    forall v :: v in values ==> |v| <= 65536
  }

  // ----- Index keys -----

  lemma IndexKeyForm(i: uint64)
    ensures 1 <= |IndexKey(i)| <= 9
    ensures RlpTheorems.Decodable(Rlp.Str(ToBigEndian(i)), 0) && IndexKey(i) == Rlp.Reencode(Rlp.Str(ToBigEndian(i)))
  {
    Fits64(i);
    RlpTheorems.Uint64RoundTrip(i, []);
    assert IndexKey(i) + [] == IndexKey(i);
  }

  /** No index key begins another one. */
  lemma IndexKeysPrefixFree(i: uint64, j: uint64)
    requires IndexKey(i) <= IndexKey(j)
    ensures i == j
  {
    IndexKeyForm(i);
    IndexKeyForm(j);
    RlpTheorems.PrefixFree(Rlp.Str(ToBigEndian(i)), Rlp.Str(ToBigEndian(j)));
    FromToBigEndian(i);
    FromToBigEndian(j);
  }

  lemma {:induction false} NibblesPrefix(a: Bytes, b: Bytes)
    requires KeyToNibbles(a) <= KeyToNibbles(b)
    ensures a <= b
  {
    if a != [] {
      var x, y := KeyToNibbles(a), KeyToNibbles(b);
      assert x[0] == y[0] && x[1] == y[1];
      assert x[2..] == KeyToNibbles(a[1..]) && y[2..] == KeyToNibbles(b[1..]);
      assert x[2..] <= y[2..];
      NibblesPrefix(a[1..], b[1..]);
      assert a[0] == b[0];
    }
  }

  // ----- The block's trie -----

  function BlockEntries(values: Values): seq<Entry> {
    Entries(IndexKeys(|values|), values)
  }

  lemma BlockTrieWellFormed(values: Values)
    ensures AllNibbles(BlockEntries(values)) && WellFormed(BlockTrie(values))
  {
    BuildWellFormed(BlockEntries(values), 0);
  }

  lemma {:induction false} ExtendingOnlyOne(es: seq<Entry>, key: Bytes, at: nat)
    requires forall i :: 0 <= i < |es| && i != at ==> !(key <= es[i].key)
    ensures Extending(es, key) <= if at < |es| then 1 else 0
  {
    if es != [] {
      ExtendingOnlyOne(es[..|es| - 1], key, at);
    }
  }

  lemma BlockStorable(values: Values)
    ensures Storable(BlockEntries(values))
  {
    var es := BlockEntries(values);
    forall e | e in es
      ensures Extending(es, e.key) <= 1
    {
      var at :| 0 <= at < |es| && es[at] == e;
      forall i | 0 <= i < |es| && e.key <= es[i].key
        ensures i == at
      {
        NibblesPrefix(IndexKey(at), IndexKey(i));
        IndexKeysPrefixFree(at, i);
      }
      ExtendingOnlyOne(es, e.key, at);
    }
  }

  lemma BlockGet(values: Values, key: Bytes)
    ensures WellFormed(BlockTrie(values))
    ensures Get(BlockTrie(values), KeyToNibbles(key)) == LastValue(BlockEntries(values), KeyToNibbles(key))
  {
    var nibbles := KeyToNibbles(key);
    BlockTrieWellFormed(values);
    BlockStorable(values);
    hide Build, Get, KeyToNibbles, WellFormed, LastValue;
    BuildLookup(BlockEntries(values), 0, nibbles);
    assert nibbles[0..] == nibbles;
  }

  lemma BlockLastValue(values: Values, i: nat)
    requires i < |values|
    ensures LastValue(BlockEntries(values), KeyToNibbles(IndexKey(i))) == Some(values[i])
  {
    hide LastValue, KeyToNibbles, IndexKey;
    var es := BlockEntries(values);
    var nibbles := KeyToNibbles(IndexKey(i));
    LastValueIn(es, nibbles);
    assert es[i] in es;
    var w := LastValue(es, nibbles).value;
    var j :| 0 <= j < |es| && es[j] == Entry(nibbles, w);
    NibblesInjective(IndexKey(j), IndexKey(i));
    IndexKeysPrefixFree(i, j);
  }

  /** The trie of a block maps exactly the index keys, each to the value at that index. */
  lemma BlockLookup(values: Values, key: Bytes, v: Bytes)
    ensures WellFormed(BlockTrie(values))
    ensures (Get(BlockTrie(values), KeyToNibbles(key)) == Some(v))
      <==> (exists i :: 0 <= i < |values| && key == IndexKey(i) && v == values[i])
  {
    BlockGet(values, key);
    hide Build, Get, KeyToNibbles, WellFormed, LastValue, IndexKey;
    var es := BlockEntries(values);
    var nibbles := KeyToNibbles(key);
    if LastValue(es, nibbles) == Some(v) {
      LastValueIn(es, nibbles);
      var i :| 0 <= i < |es| && es[i] == Entry(nibbles, v);
      NibblesInjective(IndexKey(i), key);
    }
    if i :| 0 <= i < |values| && key == IndexKey(i) && v == values[i] {
      BlockLastValue(values, i);
    }
  }

  ghost predicate SizedEntries(es: seq<Entry>) {
    forall e :: e in es ==> |e.key| <= MAX_PATH && |e.value| <= 65536
  }

  lemma {:induction false} ValueAtSized(es: seq<Entry>, depth: nat)
    requires SizedEntries(es)
    ensures |ValueAt(es, depth)| <= 65536
  {
    if es != [] {
      assert es[|es| - 1] in es;
      ValueAtSized(es[..|es| - 1], depth);
    }
  }

  lemma {:induction false} BuildSized(es: seq<Entry>, depth: nat)
    requires Deep(es, depth) && SizedEntries(es)
    ensures Sized(Build(es, depth))
    decreases MaxLen(es) - depth
  {
    hide Build, MaxLen, CommonLen;
    BuildCases(es, depth);
    if |es| == 1 {
      assert es[0] in es;
    } else if |es| > 1 && CommonLen(es, depth) > 0 {
      assert es[0] in es;
      DeepMaxLen(es, depth + CommonLen(es, depth));
      BuildSized(es, depth + CommonLen(es, depth));
    } else if |es| > 1 {
      forall nibble: byte
        ensures Sized(Build(Sub(es, depth, nibble), depth + 1))
      {
        SubMaxLen(es, depth, nibble);
        var sub := Sub(es, depth, nibble);
        if sub == [] {
          BuildCases([], depth + 1);
        } else {
          DeepMaxLen(sub, depth + 1);
          BuildSized(sub, depth + 1);
        }
      }
      BranchSized(es, depth);
    }
  }

  lemma BranchSized(es: seq<Entry>, depth: nat)
    requires |es| > 1 && Deep(es, depth) && CommonLen(es, depth) == 0 && SizedEntries(es)
    requires forall nibble: byte :: Sized(Build(Sub(es, depth, nibble), depth + 1))
    ensures Sized(Build(es, depth))
  {
    ValueAtSized(es, depth);
    hide CommonLen, MaxLen, Sub;
    var t := Build(es, depth);
    assert forall n :: 0 <= n < 16 ==> t.children[n] == Build(Sub(es, depth, n as byte), depth + 1);
  }

  lemma BlockSized(values: Values)
    requires Fit(values)
    ensures Sized(BlockTrie(values))
  {
    var es := BlockEntries(values);
    forall e | e in es
      ensures |e.key| <= MAX_PATH && |e.value| <= 65536
    {
      var i :| 0 <= i < |es| && es[i] == e;
      IndexKeyForm(i);
      assert values[i] in values;
    }
    BuildSized(es, 0);
  }

  // ----- Roots -----

  /** The root is a hash, except for a block of one value whose leaf is under 32 bytes. */
  lemma RootIsHash(keccak: Hasher, values: Values)
    ensures WellFormed(BlockTrie(values))
    ensures var t := BlockTrie(values);
      var small := |values| == 1 && |Encode(keccak, t)| < 32;
      && (|TrieRoot(keccak, t)| == 32 <==> !small)
      && (!small ==> TrieRoot(keccak, t) == keccak(Encode(keccak, t)))
  {
    BlockTrieWellFormed(values);
    var es := BlockEntries(values);
    assert BlockTrie(values).Leaf? <==> |es| == 1;
  }

  /** A block holding one value of at most 26 bytes. */
  predicate TinyBlock(values: Values) {
    |values| == 1 && |values[0]| <= 26
  }

  lemma OneLeaf(values: Values)
    requires |values| == 1
    ensures BlockTrie(values) == Leaf([8, 0], values[0])
  {
    assert IndexKey(0) == [0x80];
    var key: Bytes := [0x80];
    assert key[1..] == [];
    assert KeyToNibbles(key) == [8, 0];
    var es := BlockEntries(values);
    assert es == [Entry([8, 0], values[0])];
    assert es[0].key[0..] == [8, 0];
  }

  lemma OneLeafSize(keccak: Hasher, v: Bytes)
    ensures WellFormed(Leaf([8, 0], v))
    ensures |Encode(keccak, Leaf([8, 0], v))| < 32 <==> |v| <= 26
  {
    var compact := NibblesToCompact([8, 0], true);
    assert |Rlp.EncodeBytes(compact)| == 3;
    var fields := [Rlp.EncodeBytes(compact), Rlp.EncodeBytes(v)];
    var rest := fields[1..];
    var none: seq<Bytes> := [];
    assert rest == [Rlp.EncodeBytes(v)] && rest[1..] == none;
    assert Concat(rest) == Rlp.EncodeBytes(v) + Concat(none);
    assert |Concat(fields)| == 3 + |Rlp.EncodeBytes(v)|;
    hide NibblesToCompact, Concat;
    assert Encode(keccak, Leaf([8, 0], v)) == Rlp.EncodeList(fields);
  }

  /** So the root is a hash, and the block can be proven from, exactly when the block is not tiny. */
  lemma RootIsHashUnlessTiny(keccak: Hasher, values: Values)
    ensures WellFormed(BlockTrie(values))
    ensures |TrieRoot(keccak, BlockTrie(values))| == 32 <==> !TinyBlock(values)
  {
    hide Build, Encode, TrieRoot, BlockTrie;
    RootIsHash(keccak, values);
    if |values| == 1 {
      OneLeaf(values);
      OneLeafSize(keccak, values[0]);
    }
  }

  /** The legacy transaction with every field zero or empty, ten bytes long. */
  function EmptyTx(): RpcTx {
    RpcTx([], 0, MonitorTx(0, 0, 0, 0, 0, 0, [], 0, [], [], 0, 0, 0), 0, [], [])
  }

  lemma EmptyTxSize()
    ensures |EncodeTx(EmptyTx())| == 10
  {
    var field: Bytes := [0x80];
    assert Rlp.EncodeBytes([]) == field && Rlp.EncodeUint64(0) == field && Rlp.EncodeBigInt(0) == field;
    var nine := [field, field, field, field, field, field, field, field, field];
    assert EncodeTx(EmptyTx()) == Rlp.EncodeList(nine);
    RepeatedSize(nine, field);
  }

  lemma {:induction false} RepeatedSize(parts: seq<Bytes>, part: Bytes)
    requires |part| == 1 && forall p :: p in parts ==> p == part
    ensures |Concat(parts)| == |parts|
  {
    if parts != [] {
      assert parts[0] in parts && forall p :: p in parts[1..] ==> p in parts;
      RepeatedSize(parts[1..], part);
    }
  }

  /** A block of that one transaction has no hash for a root. */
  lemma TinyBlockExample(keccak: Hasher)
    ensures var block := EncodeTxs([EmptyTx()]);
      WellFormed(BlockTrie(block)) && |TrieRoot(keccak, BlockTrie(block))| != 32
  {
    hide TrieRoot, BlockTrie, EncodeTx;
    EmptyTxSize();
    RootIsHashUnlessTiny(keccak, EncodeTxs([EmptyTx()]));
  }

  // ----- Main results -----

  /**
   For every block and index, the contract accepts the proof the monitor sends and gets exactly
   the value at that index, unless two nodes of that proof collide. Inlined nodes are included;
   the proof has at most 19 nodes, so the limit on proof nodes is never met.
   */
  lemma EndToEnd(keccak: Hasher, values: Values, target: nat)
    requires target < |values| && Fit(values) && !TinyBlock(values)
    ensures |BuildProof(keccak, values, target).root| == 32
    ensures var Proof(root, nodes, value) := BuildProof(keccak, values, target);
      && 1 <= |nodes| <= 19
      && SplitProofNodes(Concat(nodes)) == nodes
      && (Mpt.VerifyProof(keccak, root, IndexKey(target), SplitProofNodes(Concat(nodes))) == Ok(values[target])
          || Collision(keccak, nodes, nodes))
  {
    var t := BlockTrie(values);
    var key := IndexKey(target);
    var nibbles := KeyToNibbles(key);
    BlockSized(values);
    BlockLookup(values, key, values[target]);
    RootIsHash(keccak, values);
    RootIsHashUnlessTiny(keccak, values);
    hide Build, Get, Encode, CollectProof, KeyToNibbles, WellFormed, Sized, Mpt.VerifyProof, SplitProofNodes, Collision;
    assert Get(t, nibbles) == Some(values[target]);
    assert nibbles[0..] == nibbles;
    IndexKeyForm(target);
    ProofLength(keccak, t, nibbles, 0);
    assert !t.Empty? by {
      GetNonEmpty(t, nibbles);
    }
    CollectHead(keccak, t, nibbles, 0);
    ProofSplits(keccak, t, key);
    if !Collision(keccak, GenerateProof(keccak, t, key), GenerateProof(keccak, t, key)) {
      VerifyComplete(keccak, t, key);
    }
  }

  lemma GetNonEmpty(t: TrieNode, nibbles: Bytes)
    requires WellFormed(t) && IsNibbles(nibbles) && Get(t, nibbles).Some?
    ensures !t.Empty?
  {
  }

  /**
   Whatever key and nodes are offered against a block's root: an accepted value is the value at
   some index of the block, and the key is that index's key; otherwise an offered node collides
   with a node of the monitor's own proof for the key.
   */
  lemma NothingElseVerifies(keccak: Hasher, values: Values, key: Bytes, proof: seq<Bytes>, root: Hash, v: Bytes)
    requires Fit(values)
    requires WellFormed(BlockTrie(values)) && root == TrieRoot(keccak, BlockTrie(values))
    requires Mpt.VerifyProof(keccak, root, key, proof) == Ok(v)
    ensures || (exists i :: 0 <= i < |values| && key == IndexKey(i) && v == values[i])
            || Collision(keccak, proof, HonestNodes(keccak, BlockTrie(values), key))
  {
    var t := BlockTrie(values);
    BlockSized(values);
    RootIsHash(keccak, values);
    BlockLookup(values, key, v);
    hide Build, Get, Encode, CollectProof, KeyToNibbles, WellFormed, Sized, Mpt.VerifyProof, Collision;
    VerifySound(keccak, t, key, proof, v);
  }
}
