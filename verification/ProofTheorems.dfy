/** The monitor's proofs and the contract's verifier agree. */
module ProofTheorems {
  import opened ByteStrings
  import opened HexPrefix
  import opened MptTheorems
  import opened ProofBytes
  import opened Trie
  import opened TrieNodes
  import opened TrieTheorems
  import Mpt
  import Rlp

  /** A trie path as the verifier's key. */
  function Hex(nibbles: Bytes): Bytes {
    nibbles + [TERMINATOR]
  }

  /** The node set holds a node under its own hash, and nothing else. */
  ghost predicate Holds(keccak: Hasher, db: map<Hash, Bytes>, node: Bytes) {
    keccak(node) in db && db[keccak(node)] == node
  }

  lemma HexStep(path: Bytes, nibbles: Bytes)
    requires IsNibbles(path) && IsNibbles(nibbles)
    ensures path <= Hex(nibbles) <==> path <= nibbles
    ensures path <= nibbles ==> Hex(nibbles)[|path|..] == Hex(nibbles[|path|..])
    ensures Hex(path) <= Hex(nibbles) <==> path == nibbles
    ensures Mpt.IsHexKey(Hex(nibbles))
  {
    assert Hex(nibbles)[..|nibbles|] == nibbles;
    if path <= Hex(nibbles) {
      WholeHasTerm(path, Hex(nibbles));
      assert path == Hex(nibbles)[..|path|];
    }
    if Hex(path) <= Hex(nibbles) {
      TerminatorLast(Hex(nibbles), |path|);
      assert path == Hex(path)[..|path|] == Hex(nibbles)[..|path|];
    }
  }

  function GetFrom(keccak: Hasher, t: TrieNode, nibbles: Bytes): Mpt.Found
    requires WellFormed(t) && IsNibbles(nibbles)
  {
    NodeForShaped(keccak, t);
    HexStep([], nibbles);
    Mpt.Get(NodeFor(keccak, t), Hex(nibbles))
  }

  /**
   Where the verifier stops inside one decoded node: at what the trie holds, or at the hash of a
   node d further down the same path.
   */
  ghost predicate StopsRight(keccak: Hasher, t: TrieNode, nibbles: Bytes, depth: nat, d: TrieNode, depth': nat)
    requires WellFormed(t) && IsNibbles(nibbles) && depth <= |nibbles|
  {
    var found := GetFrom(keccak, t, nibbles[depth..]);
    match found.child
    case Nil => Get(t, nibbles[depth..]) == None
    case ValueNode(v) => Get(t, nibbles[depth..]) == Some(v)
    case HashNode(h) =>
      && depth <= depth' <= |nibbles| && found.rest == Hex(nibbles[depth'..])
      && WellFormed(d) && (Sized(t) ==> Sized(d)) && !d.Empty? && h == keccak(Encode(keccak, d))
      && Get(t, nibbles[depth..]) == Get(d, nibbles[depth'..])
      && Below(keccak, t, nibbles, depth, d, depth')
    case _ => false
  }

  /** The rest of the proof from d is part of the proof from t, and shorter. */
  ghost predicate Below(keccak: Hasher, t: TrieNode, nibbles: Bytes, depth: nat, d: TrieNode, depth': nat)
    requires WellFormed(t) && WellFormed(d) && IsNibbles(nibbles)
  {
    var p, q := CollectProof(keccak, t, nibbles, depth), CollectProof(keccak, d, nibbles, depth');
    |q| < |p| && forall n :: n in q ==> n in p
  }

  /** What Get finds behind a child reference. */
  function GetRef(keccak: Hasher, c: TrieNode, nibbles: Bytes): Mpt.Found
    requires WellFormed(c) && IsNibbles(nibbles)
  {
    if |Encode(keccak, c)| >= 32 then Mpt.Found(Hex(nibbles), Mpt.HashNode(keccak(Encode(keccak, c))))
    else GetFrom(keccak, c, nibbles)
  }

  lemma RefNodeShaped(keccak: Hasher, c: TrieNode, nibbles: Bytes)
    requires WellFormed(c) && IsNibbles(nibbles)
    ensures Mpt.Shaped(RefNode(keccak, c)) && Mpt.IsHexKey(Hex(nibbles))
    ensures Mpt.Get(RefNode(keccak, c), Hex(nibbles)) == GetRef(keccak, c, nibbles)
  {
    hide Encode;
    NodeForShaped(keccak, c);
    HexStep([], nibbles);
  }

  lemma GetFromLeaf(keccak: Hasher, t: TrieNode, nibbles: Bytes)
    requires WellFormed(t) && t.Leaf? && IsNibbles(nibbles)
    ensures GetFrom(keccak, t, nibbles) ==
      Mpt.Found([], if t.path == nibbles then Mpt.ValueNode(t.value) else Mpt.Nil)
  {
    HexStep(t.path, nibbles);
    NodeForShaped(keccak, t);
    assert NodeFor(keccak, t) == Mpt.Short(Hex(t.path), Mpt.ValueNode(t.value));
    if t.path == nibbles {
      assert Mpt.Get(Mpt.ValueNode(t.value), Hex(nibbles)[|Hex(nibbles)|..]) == Mpt.Found([], Mpt.ValueNode(t.value));
    }
  }

  lemma GetFromExtension(keccak: Hasher, t: TrieNode, nibbles: Bytes)
    requires WellFormed(t) && t.Extension? && IsNibbles(nibbles)
    ensures GetFrom(keccak, t, nibbles) ==
      if t.path <= nibbles then GetRef(keccak, t.child, nibbles[|t.path|..]) else Mpt.Found([], Mpt.Nil)
  {
    HexStep(t.path, nibbles);
    NodeForShaped(keccak, t);
    assert NodeFor(keccak, t) == Mpt.Short(t.path, RefNode(keccak, t.child));
    if t.path <= nibbles {
      hide RefNode;
      RefNodeShaped(keccak, t.child, nibbles[|t.path|..]);
    }
  }

  lemma GetFromBranch(keccak: Hasher, t: TrieNode, nibbles: Bytes)
    requires WellFormed(t) && t.Branch? && IsNibbles(nibbles)
    ensures nibbles != [] ==>
      GetFrom(keccak, t, nibbles) == GetRef(keccak, t.children[nibbles[0]], nibbles[1..])
    ensures nibbles == [] ==>
      GetFrom(keccak, t, nibbles).child == if t.value == [] then Mpt.Nil else Mpt.ValueNode(t.value)
  {
    NodeForShaped(keccak, t);
    HexStep([], nibbles);
    var n := NodeFor(keccak, t);
    if nibbles == [] {
      assert Hex(nibbles) == [TERMINATOR];
      var slot := if t.value == [] then Mpt.Nil else Mpt.ValueNode(t.value);
      assert n.children[TERMINATOR] == slot;
      assert Mpt.Get(slot, Hex(nibbles)[1..]).child == slot;
    } else {
      assert n.children[nibbles[0]] == RefNode(keccak, t.children[nibbles[0]]);
      hide RefNode, NodeFor;
      assert Hex(nibbles)[0] == nibbles[0] && Hex(nibbles)[1..] == Hex(nibbles[1..]);
      RefNodeShaped(keccak, t.children[nibbles[0]], nibbles[1..]);
    }
  }

  lemma GetFromEmpty(keccak: Hasher, nibbles: Bytes)
    requires IsNibbles(nibbles)
    ensures GetRef(keccak, Empty, nibbles).child == Mpt.Nil
  {
    HexStep([], nibbles);
  }

  lemma {:induction false} GetStops(keccak: Hasher, t: TrieNode, nibbles: Bytes, depth: nat)
    returns (d: TrieNode, depth': nat)
    requires WellFormed(t) && IsNibbles(nibbles) && depth <= |nibbles| && !t.Empty?
    ensures StopsRight(keccak, t, nibbles, depth, d, depth')
    decreases t, 1
  {
    hide GetFrom, Encode;
    var rest := nibbles[depth..];
    match t
    case Leaf(path, value) =>
      d, depth' := t, depth;
      GetFromLeaf(keccak, t, rest);
    case Branch(children, value) =>
      GetFromBranch(keccak, t, rest);
      if rest == [] {
        d, depth' := t, depth;
      } else {
        assert rest[1..] == nibbles[depth + 1..];
        d, depth' := RefStops(keccak, t, children[rest[0]], nibbles, depth, depth + 1);
      }
    case Extension(path, child) =>
      GetFromExtension(keccak, t, rest);
      if path <= rest {
        assert rest[|path|..] == nibbles[depth + |path|..];
        d, depth' := RefStops(keccak, t, child, nibbles, depth, depth + |path|);
      } else {
        d, depth' := t, depth;
      }
  }

  /** The step of GetStops through the reference to one child. */
  lemma {:induction false} RefStops(keccak: Hasher, t: TrieNode, child: TrieNode, nibbles: Bytes, depth: nat, next: nat)
    returns (d: TrieNode, depth': nat)
    requires WellFormed(t) && IsNibbles(nibbles) && depth < next <= |nibbles| && child < t
    requires Steps(t, child, nibbles, depth, next)
    requires GetFrom(keccak, t, nibbles[depth..]) == GetRef(keccak, child, nibbles[next..])
    requires Get(t, nibbles[depth..]) == Get(child, nibbles[next..])
    ensures StopsRight(keccak, t, nibbles, depth, d, depth')
    decreases t, 0
  {
    hide GetFrom, Encode, Get;
    CollectStep(keccak, t, nibbles, depth, child, next);
    if child.Empty? {
      d, depth' := child, next;
      GetFromEmpty(keccak, nibbles[next..]);
      GetEmpty(nibbles[next..]);
    } else if |Encode(keccak, child)| >= 32 {
      d, depth' := child, next;
    } else {
      d, depth' := GetStops(keccak, child, nibbles, next);
    }
  }

  lemma GetEmpty(nibbles: Bytes)
    requires IsNibbles(nibbles)
    ensures Get(Empty, nibbles) == None
  {
  }

  /** child is what t leads to at depth. */
  ghost predicate Steps(t: TrieNode, child: TrieNode, nibbles: Bytes, depth: nat, next: nat)
    requires WellFormed(t) && IsNibbles(nibbles)
  {
    || (t.Branch? && depth < |nibbles| && child == t.children[nibbles[depth]] && next == depth + 1)
    || (t.Extension? && child == t.child && next == depth + |t.path|)
  }

  lemma CollectStep(keccak: Hasher, t: TrieNode, nibbles: Bytes, depth: nat, child: TrieNode, next: nat)
    requires WellFormed(t) && IsNibbles(nibbles) && Steps(t, child, nibbles, depth, next)
    ensures WellFormed(child)
    ensures CollectProof(keccak, t, nibbles, depth) == [Encode(keccak, t)] + CollectProof(keccak, child, nibbles, next)
  {
    hide Encode;
  }

  // ----- The walk over a built trie -----

  /** One lookup of the walk, when the node stored under the hash is the trie's own. */
  lemma WalkStep(keccak: Hasher, db: map<Hash, Bytes>, t: TrieNode, nibbles: Bytes, i: nat)
    requires WellFormed(t) && Sized(t) && !t.Empty? && IsNibbles(nibbles) && i <= Mpt.MAX_PROOF_NODES + 1
    requires Holds(keccak, db, Encode(keccak, t))
    ensures Mpt.IsHexKey(Hex(nibbles))
    ensures Mpt.Walk(db, Hex(nibbles), keccak(Encode(keccak, t)), i) ==
      var found := GetFrom(keccak, t, nibbles);
      match found.child
      case Nil => Err(Mpt.KeyNotFound)
      case HashNode(h) =>
        if i > Mpt.MAX_PROOF_NODES then Err(Mpt.ProofTooLong) else Mpt.Walk(db, found.rest, h, i + 1)
      case ValueNode(v) => Ok(v)
      case _ => Err(Mpt.InvalidProof)
  {
    HexStep([], nibbles);
    DecodeNodeEncode(keccak, t);
    hide Encode, Mpt.DecodeNode, NodeFor, Mpt.Get;
  }

  lemma {:induction false} WalkComplete(keccak: Hasher, db: map<Hash, Bytes>, t: TrieNode, nibbles: Bytes, depth: nat, i: nat)
    requires WellFormed(t) && Sized(t) && !t.Empty? && IsNibbles(nibbles) && depth <= |nibbles|
    requires forall n :: n in CollectProof(keccak, t, nibbles, depth) ==> Holds(keccak, db, n)
    requires i + |CollectProof(keccak, t, nibbles, depth)| <= Mpt.MAX_PROOF_NODES + 1
    requires Get(t, nibbles[depth..]).Some?
    ensures Mpt.IsHexKey(Hex(nibbles[depth..]))
    ensures Mpt.Walk(db, Hex(nibbles[depth..]), keccak(Encode(keccak, t)), i) == Ok(Get(t, nibbles[depth..]).value)
    decreases |CollectProof(keccak, t, nibbles, depth)|
  {
    hide GetFrom, Encode, Get, Mpt.Walk, Holds, WellFormed, Sized;
    CollectHead(keccak, t, nibbles, depth);
    WalkStep(keccak, db, t, nibbles[depth..], i);
    var d, depth' := GetStops(keccak, t, nibbles, depth);
    if GetFrom(keccak, t, nibbles[depth..]).child.HashNode? {
      hide CollectProof;
      WalkComplete(keccak, db, d, nibbles, depth', i + 1);
    }
  }

  lemma CollectHead(keccak: Hasher, t: TrieNode, nibbles: Bytes, depth: nat)
    requires WellFormed(t) && IsNibbles(nibbles) && !t.Empty?
    ensures CollectProof(keccak, t, nibbles, depth) != []
    ensures CollectProof(keccak, t, nibbles, depth)[0] == Encode(keccak, t)
  {
    hide Encode;
  }

  lemma {:induction false} WalkSound(keccak: Hasher, proof: seq<Bytes>, honest: seq<Bytes>,
                                     t: TrieNode, nibbles: Bytes, depth: nat, i: nat)
    requires WellFormed(t) && Sized(t) && !t.Empty? && IsNibbles(nibbles) && depth <= |nibbles|
    requires i <= Mpt.MAX_PROOF_NODES + 1 && Mpt.IsHexKey(Hex(nibbles[depth..]))
    requires forall n :: n in CollectProof(keccak, t, nibbles, depth) ==> n in honest
    requires !Collision(keccak, proof, honest)
    requires Mpt.Walk(Mpt.ProofDB(keccak, proof), Hex(nibbles[depth..]), keccak(Encode(keccak, t)), i).Ok?
    ensures Get(t, nibbles[depth..])
      == Some(Mpt.Walk(Mpt.ProofDB(keccak, proof), Hex(nibbles[depth..]), keccak(Encode(keccak, t)), i).value)
    decreases Mpt.MAX_PROOF_NODES + 1 - i
  {
    hide GetFrom, Encode, Get, Mpt.Walk, WellFormed, Sized, CollectProof, Mpt.ProofDB, Collision, Holds;
    var db := Mpt.ProofDB(keccak, proof);
    CollectHead(keccak, t, nibbles, depth);
    NodeGenuine(keccak, proof, honest, Encode(keccak, t), Hex(nibbles[depth..]), i);
    WalkStep(keccak, db, t, nibbles[depth..], i);
    var d, depth' := GetStops(keccak, t, nibbles, depth);
    if GetFrom(keccak, t, nibbles[depth..]).child.HashNode? {
      WalkSound(keccak, proof, honest, d, nibbles, depth', i + 1);
    }
  }

  lemma NodeGenuine(keccak: Hasher, proof: seq<Bytes>, honest: seq<Bytes>, node: Bytes, hexKey: Bytes, i: nat)
    requires node in honest && !Collision(keccak, proof, honest)
    requires i <= Mpt.MAX_PROOF_NODES + 1 && Mpt.IsHexKey(hexKey)
    requires Mpt.Walk(Mpt.ProofDB(keccak, proof), hexKey, keccak(node), i).Ok?
    ensures Holds(keccak, Mpt.ProofDB(keccak, proof), node)
  {
    hide Mpt.ProofDB, Mpt.DecodeNode, Mpt.Get;
    DbGenuine(keccak, proof, keccak(node));
  }

  // ----- Any trie -----

  /** The nodes an honest proof for the key consists of; the root stands in for an empty trie. */
  function HonestNodes(keccak: Hasher, t: TrieNode, key: Bytes): seq<Bytes>
    requires WellFormed(t)
  {
    [Encode(keccak, t)] + GenerateProof(keccak, t, key)
  }

  /**
   Whatever nodes are offered: a value accepted against the hash of a trie's root is the value the
   trie holds, or an offered node collides with a node on the trie's own path to the key.
   */
  lemma VerifySound(keccak: Hasher, t: TrieNode, key: Bytes, proof: seq<Bytes>, v: Bytes)
    requires WellFormed(t) && Sized(t)
    requires Mpt.VerifyProof(keccak, keccak(Encode(keccak, t)), key, proof) == Ok(v)
    ensures Get(t, KeyToNibbles(key)) == Some(v) || Collision(keccak, proof, HonestNodes(keccak, t, key))
  {
    var nibbles := KeyToNibbles(key);
    var honest := HonestNodes(keccak, t, key);
    assert nibbles[0..] == nibbles;
    if t.Empty? {
      EmptySound(keccak, key, proof);
    } else if !Collision(keccak, proof, honest) {
      hide Encode, Mpt.Walk, WellFormed, Sized, CollectProof, Mpt.ProofDB, KeyToNibbles, Get;
      WalkSound(keccak, proof, honest, t, nibbles, 0, 0);
    }
  }

  /** Nothing is accepted against the root of the empty trie without a collision. */
  lemma EmptySound(keccak: Hasher, key: Bytes, proof: seq<Bytes>)
    requires Mpt.VerifyProof(keccak, keccak(Encode(keccak, Empty)), key, proof).Ok?
    ensures Collision(keccak, proof, HonestNodes(keccak, Empty, key))
  {
    hide Mpt.DecodeNode, Mpt.ProofDB, Mpt.Get;
    var empty := Encode(keccak, Empty);
    DbGenuine(keccak, proof, keccak(empty));
    EmptyNotNode(keccak);
    var x := Mpt.ProofDB(keccak, proof)[keccak(empty)];
    assert x in proof && empty in HonestNodes(keccak, Empty, key) && x != empty;
  }

  lemma EmptyNotNode(keccak: Hasher)
    ensures Mpt.DecodeNode(Encode(keccak, Empty)) == None
  {
    assert Encode(keccak, Empty) == [0x80];
    assert Rlp.ReadPrefix([0x80], 0) == Ok(Rlp.StrSpan(1, 1));
  }

  /** The monitor's own proof for a key the trie holds is accepted, unless two of its nodes collide. */
  lemma VerifyComplete(keccak: Hasher, t: TrieNode, key: Bytes)
    requires WellFormed(t) && Sized(t) && Get(t, KeyToNibbles(key)).Some?
    requires |GenerateProof(keccak, t, key)| <= Mpt.MAX_PROOF_NODES
    requires !Collision(keccak, GenerateProof(keccak, t, key), GenerateProof(keccak, t, key))
    ensures Mpt.VerifyProof(keccak, keccak(Encode(keccak, t)), key, GenerateProof(keccak, t, key))
      == Ok(Get(t, KeyToNibbles(key)).value)
  {
    var nibbles := KeyToNibbles(key);
    var proof := GenerateProof(keccak, t, key);
    var db := Mpt.ProofDB(keccak, proof);
    assert nibbles[0..] == nibbles;
    CollectHead(keccak, t, nibbles, 0);
    forall n | n in proof
      ensures Holds(keccak, db, n)
    {
      DbComplete(keccak, proof, n);
    }
    hide Encode, Mpt.Walk, WellFormed, Sized, CollectProof, Mpt.ProofDB, KeyToNibbles, Get;
    WalkComplete(keccak, db, t, nibbles, 0, 0);
  }

  /** A proof for a key the trie holds has at most one node per nibble and one more. */
  lemma {:induction false} ProofLength(keccak: Hasher, t: TrieNode, nibbles: Bytes, depth: nat)
    requires WellFormed(t) && IsNibbles(nibbles) && depth <= |nibbles|
    requires Get(t, nibbles[depth..]).Some?
    ensures |CollectProof(keccak, t, nibbles, depth)| <= |nibbles| - depth + 1
    decreases t
  {
    hide Encode, CollectProof;
    var rest := nibbles[depth..];
    if t.Branch? && rest != [] {
      var child := t.children[rest[0]];
      assert rest[1..] == nibbles[depth + 1..];
      CollectStep(keccak, t, nibbles, depth, child, depth + 1);
      ProofLength(keccak, child, nibbles, depth + 1);
    } else if t.Extension? {
      assert rest[|t.path|..] == nibbles[depth + |t.path|..];
      CollectStep(keccak, t, nibbles, depth, t.child, depth + |t.path|);
      ProofLength(keccak, t.child, nibbles, depth + |t.path|);
    } else {
      CollectLast(keccak, t, nibbles, depth);
    }
  }

  lemma CollectLast(keccak: Hasher, t: TrieNode, nibbles: Bytes, depth: nat)
    requires WellFormed(t) && IsNibbles(nibbles)
    requires t.Leaf? || (t.Branch? && depth >= |nibbles|)
    ensures CollectProof(keccak, t, nibbles, depth) == [Encode(keccak, t)]
  {
    hide Encode;
  }

  lemma {:induction false} ProofNodesAreItems(keccak: Hasher, t: TrieNode, nibbles: Bytes, depth: nat)
    requires WellFormed(t) && Sized(t) && IsNibbles(nibbles)
    ensures forall n :: n in CollectProof(keccak, t, nibbles, depth) ==> IsItem(n) && |n| < 0x100_0000
    decreases t
  {
    hide Encode, IsItem, CollectProof;
    NodeIsItem(keccak, t);
    EncodeFits(keccak, t);
    if t.Empty? {
      CollectNothing(keccak, nibbles, depth);
    } else if t.Branch? && depth < |nibbles| {
      var child := t.children[nibbles[depth]];
      CollectStep(keccak, t, nibbles, depth, child, depth + 1);
      ProofNodesAreItems(keccak, child, nibbles, depth + 1);
    } else if t.Extension? {
      CollectStep(keccak, t, nibbles, depth, t.child, depth + |t.path|);
      ProofNodesAreItems(keccak, t.child, nibbles, depth + |t.path|);
    } else {
      CollectLast(keccak, t, nibbles, depth);
    }
  }

  lemma CollectNothing(keccak: Hasher, nibbles: Bytes, depth: nat)
    requires IsNibbles(nibbles)
    ensures CollectProof(keccak, Empty, nibbles, depth) == []
  {
  }

  lemma NodeIsItem(keccak: Hasher, t: TrieNode)
    requires WellFormed(t) && Sized(t)
    ensures IsItem(Encode(keccak, t))
  {
    EncodeIsItem(keccak, t);
    NodeDecodable(keccak, t);
  }

  lemma {:induction false} ConcatSize(nodes: seq<Bytes>)
    requires forall n :: n in nodes ==> |n| < 0x100_0000
    ensures |Concat(nodes)| <= 0x100_0000 * |nodes|
  {
    if nodes != [] {
      ConcatSize(nodes[1..]);
    }
  }

  /** The concatenated proof the monitor sends is cut back into its nodes. */
  lemma ProofSplits(keccak: Hasher, t: TrieNode, key: Bytes)
    requires WellFormed(t) && Sized(t) && |GenerateProof(keccak, t, key)| <= Mpt.MAX_PROOF_NODES
    ensures SplitProofNodes(Concat(GenerateProof(keccak, t, key))) == GenerateProof(keccak, t, key)
  {
    hide CollectProof, IsItem;
    ProofNodesAreItems(keccak, t, KeyToNibbles(key), 0);
    ConcatSize(GenerateProof(keccak, t, key));
    SplitConcat(GenerateProof(keccak, t, key));
  }
}
