/** What acceptance by the verifier means, for any root, key and list of nodes. */
module MptTheorems {
  import opened ByteStrings
  import opened HexPrefix
  import opened Mpt
  import Rlp
  import RlpTheorems

  /** Two distinct byte strings, one from each side, with the same hash. */
  ghost predicate Collision(keccak: Hasher, a: seq<Bytes>, b: seq<Bytes>) {
    exists x, y :: x in a && y in b && x != y && keccak(x) == keccak(y)
  }

  lemma {:induction false} DbGenuine(keccak: Hasher, proof: seq<Bytes>, h: Hash)
    requires h in ProofDB(keccak, proof)
    ensures ProofDB(keccak, proof)[h] in proof && keccak(ProofDB(keccak, proof)[h]) == h
  {
    var last := proof[|proof| - 1];
    if h != keccak(last) {
      DbGenuine(keccak, proof[..|proof| - 1], h);
    }
  }

  lemma {:induction false} DbComplete(keccak: Hasher, proof: seq<Bytes>, node: Bytes)
    requires node in proof && !Collision(keccak, proof, proof)
    ensures keccak(node) in ProofDB(keccak, proof) && ProofDB(keccak, proof)[keccak(node)] == node
  {
    DbHas(keccak, proof, node);
    DbGenuine(keccak, proof, keccak(node));
  }

  lemma {:induction false} DbHas(keccak: Hasher, proof: seq<Bytes>, node: Bytes)
    requires node in proof
    ensures keccak(node) in ProofDB(keccak, proof)
  {
    var front, last := proof[..|proof| - 1], proof[|proof| - 1];
    if node != last {
      assert proof == front + [last];
      DbHas(keccak, front, node);
    }
  }

  // ----- What a node's bytes denote -----

  /** The bytes of an item, none where it is a list. */
  function Raw(item: Item): Bytes {
    if item.Str? then item.data else []
  }

  /** Two elements are a short node: a path with the value it ends at, or with a reference. Seventeen are a full one. */
  ghost predicate Denotes(elems: seq<Item>, n: Node)
    decreases elems, 1
  {
    if |elems| == 2 then
      && n.Short? && n.key == CompactToHex(Raw(elems[0]))
      && if n.key != [] && n.key[|n.key| - 1] == 16 then n.val == ValueNode(Raw(elems[1])) else Refers(elems[1], n.val)
    else
      && |elems| == 17 && n.Full? && |n.children| == 17
      && (forall i :: 0 <= i < 16 ==> Refers(elems[i], n.children[i]))
      && n.children[16] == if Raw(elems[16]) == [] then Nil else ValueNode(Raw(elems[16]))
  }

  /** A list is a node in place, the empty string no child, 32 bytes a hash; any other string refers to nothing. */
  ghost predicate Refers(item: Item, n: Node)
    decreases item, 0
  {
    match item
    case List(children) => Denotes(children, n)
    case Str(data) => (data == [] && n == Nil) || (|data| == 32 && n == HashNode(data))
  }

  lemma {:induction false} ElementsExactly(elems: seq<Item>, n: Node)
    ensures DecodeElements(elems) == Some(n) <==> Denotes(elems, n)
    decreases elems, 1
  {
    hide CompactToHex;
    if |elems| == 2 {
      if n.Short? {
        RefExactly(elems[1], n.val);
      }
      if DecodeRef(elems[1]).Some? {
        RefExactly(elems[1], DecodeRef(elems[1]).value);
      }
    } else if |elems| == 17 {
      if DecodeElements(elems).Some? {
        RefsExactly(elems[..16], DecodeElements(elems).value.children[..16]);
      }
      if n.Full? && |n.children| == 17 {
        RefsExactly(elems[..16], n.children[..16]);
        assert n.children == n.children[..16] + [n.children[16]];
      }
    }
  }

  lemma {:induction false} RefExactly(item: Item, n: Node)
    ensures DecodeRef(item) == Some(n) <==> Refers(item, n)
    decreases item, 0
  {
    if item.List? {
      ElementsExactly(item.children, n);
    }
  }

  lemma {:induction false} RefsExactly(items: seq<Item>, ns: seq<Node>)
    requires |items| == |ns|
    ensures DecodeRefs(items) == Some(ns) <==> forall i :: 0 <= i < |items| ==> Refers(items[i], ns[i])
    decreases items, 0
  {
    if items != [] {
      hide Refers;
      var k := |items| - 1;
      RefExactly(items[k], ns[k]);
      RefsExactly(items[..k], ns[..k]);
      if DecodeRefs(items[..k]).Some? {
        RefsExactly(items[..k], DecodeRefs(items[..k]).value);
      }
      assert ns == ns[..k] + [ns[k]];
    }
  }

  /** A node is decoded exactly from bytes that begin with the canonical encoding of a list that denotes it. */
  lemma NodeExactly(buf: Bytes, n: Node)
    requires |buf| < TWO_63
    ensures DecodeNode(buf) == Some(n) <==>
      exists elems :: RlpTheorems.Decodable(Rlp.List(elems), 0) && Rlp.Reencode(Rlp.List(elems)) <= buf && Denotes(elems, n)
  {
    hide Rlp.Decoded, Rlp.Reencode, Denotes, DecodeElements, RlpTheorems.Decodable;
    if DecodeNode(buf) == Some(n) {
      var p := Rlp.Decode(buf).value;
      RlpTheorems.DecodeExactly(buf, 0, 0, p.item, p.end);
      ElementsExactly(p.item.children, n);
      assert Rlp.Reencode(Rlp.List(p.item.children)) <= buf;
    }
    if elems :| RlpTheorems.Decodable(Rlp.List(elems), 0) && Rlp.Reencode(Rlp.List(elems)) <= buf && Denotes(elems, n) {
      var item := Rlp.List(elems);
      assert buf[..|Rlp.Reencode(item)|] == Rlp.Reencode(item);
      RlpTheorems.DecodeExactly(buf, 0, 0, item, |Rlp.Reencode(item)|);
      ElementsExactly(elems, n);
    }
  }

  // ----- One value per root and key -----

  lemma {:induction false} SameWalk(keccak: Hasher, p: seq<Bytes>, q: seq<Bytes>, hexKey: Bytes, want: Hash, i: nat)
    requires IsHexKey(hexKey) && i <= MAX_PROOF_NODES + 1
    requires !Collision(keccak, p, q)
    requires Walk(ProofDB(keccak, p), hexKey, want, i).Ok? && Walk(ProofDB(keccak, q), hexKey, want, i).Ok?
    ensures Walk(ProofDB(keccak, p), hexKey, want, i) == Walk(ProofDB(keccak, q), hexKey, want, i)
    decreases MAX_PROOF_NODES + 1 - i
  {
    hide Get, DecodeNode, ProofDB;
    var x, y := ProofDB(keccak, p)[want], ProofDB(keccak, q)[want];
    DbGenuine(keccak, p, want);
    DbGenuine(keccak, q, want);
    assert x == y;
    DecodeNodeShaped(x);
    var found := Get(DecodeNode(x).value, hexKey);
    if found.child.HashNode? {
      SameWalk(keccak, p, q, found.rest, found.child.hash, i + 1);
    }
  }

  /** Two accepted proofs for one root and key prove the same value, or expose a hash collision. */
  lemma ProofUnique(keccak: Hasher, root: Hash, key: Bytes, p: seq<Bytes>, q: seq<Bytes>)
    requires VerifyProof(keccak, root, key, p).Ok? && VerifyProof(keccak, root, key, q).Ok?
    ensures VerifyProof(keccak, root, key, p) == VerifyProof(keccak, root, key, q) || Collision(keccak, p, q)
  {
    if !Collision(keccak, p, q) {
      SameWalk(keccak, p, q, KeybytesToHex(key), root, 0);
    }
  }

  // ----- Acceptance consumes the whole key -----

  /**
   The reference: following the key from a node, through at most hops hash references, uses up
   every nibble and the terminator, and ends at the value.
   */
  ghost predicate Leads(db: map<Hash, Bytes>, n: Node, key: Bytes, v: Bytes, hops: nat)
    decreases hops, n
  {
    match n
    case Nil => false
    case ValueNode(w) => key == [] && w == v
    case Short(nkey, val) => nkey <= key && Leads(db, val, key[|nkey|..], v, hops)
    case Full(children) =>
      key != [] && key[0] as int < |children| && Leads(db, children[key[0]], key[1..], v, hops)
    case HashNode(h) =>
      hops > 0 && h in db && DecodeNode(db[h]).Some? && Leads(db, DecodeNode(db[h]).value, key, v, hops - 1)
  }

  /** Nibbles closed by one terminator. */
  ghost predicate Closed(key: Bytes) {
    key != [] && key[|key| - 1] == TERMINATOR && IsNibbles(key[..|key| - 1])
  }

  /** Inside one node: Get stops at a value exactly when the key is used up there. */
  lemma {:induction false} GetLeads(db: map<Hash, Bytes>, n: Node, key: Bytes, v: Bytes, hops: nat)
    requires Shaped(n) && Closed(key) && IsHexKey(key) && !n.ValueNode?
    ensures var found := Get(n, key);
      match found.child
      case ValueNode(w) => Leads(db, n, key, v, hops) <==> w == v
      case HashNode(h) => Closed(found.rest) && (Leads(db, n, key, v, hops) <==> Leads(db, found.child, found.rest, v, hops))
      case _ => !Leads(db, n, key, v, hops)
    decreases n
  {
    match n
    case Short(nkey, val) =>
      if nkey <= key {
        var rest := key[|nkey|..];
        if HasTerm(nkey) {
          TerminatorLast(key, |nkey| - 1);
          assert rest == [];
        } else {
          WholeHasTerm(nkey, key);
          ClosedSuffix(key, |nkey|);
          GetLeads(db, val, rest, v, hops);
        }
      }
    case Full(children) =>
      if key[0] == TERMINATOR {
        TerminatorLast(key, 0);
        assert key[1..] == [];
      } else {
        assert |key| > 1;
        ClosedSuffix(key, 1);
        GetLeads(db, children[key[0]], key[1..], v, hops);
      }
    case _ =>
  }

  lemma TerminatorLast(key: Bytes, i: nat)
    requires Closed(key) && i < |key| && key[i] == TERMINATOR
    ensures i == |key| - 1
  {
    var front := key[..|key| - 1];
    assert forall j :: 0 <= j < |front| ==> key[j] == front[j] < 16;
  }

  lemma WholeHasTerm(nkey: Bytes, key: Bytes)
    requires Closed(key) && nkey <= key
    ensures |nkey| == |key| ==> HasTerm(nkey)
  {
  }

  lemma ClosedSuffix(key: Bytes, n: nat)
    requires Closed(key) && n < |key|
    ensures Closed(key[n..])
  {
    assert key[n..][..|key| - n - 1] == key[..|key| - 1][n..];
  }

  lemma {:induction false} WalkLeads(db: map<Hash, Bytes>, key: Bytes, want: Hash, i: nat, v: Bytes)
    requires Closed(key) && IsHexKey(key) && i <= MAX_PROOF_NODES + 1
    ensures Walk(db, key, want, i) == Ok(v) <==> Leads(db, HashNode(want), key, v, MAX_PROOF_NODES + 2 - i)
    decreases MAX_PROOF_NODES + 1 - i
  {
    hide Get, DecodeNode;
    if want in db && DecodeNode(db[want]).Some? {
      DecodeNodeShaped(db[want]);
      var n := DecodeNode(db[want]).value;
      NotValue(db[want]);
      GetLeads(db, n, key, v, MAX_PROOF_NODES + 1 - i);
      var found := Get(n, key);
      if found.child.HashNode? && i <= MAX_PROOF_NODES {
        WalkLeads(db, found.rest, found.child.hash, i + 1, v);
      }
    }
  }

  lemma NotValue(buf: Bytes)
    requires DecodeNode(buf).Some?
    ensures !DecodeNode(buf).value.ValueNode?
  {
    DecodeElementsShaped(Rlp.Decode(buf).value.item.children);
  }

  /**
   VerifyProof returns a value exactly when the proof is within its limits and the references
   lead from the root to that value, consuming the whole key and its terminator.
   */
  lemma VerifyExactly(keccak: Hasher, root: Hash, key: Bytes, proof: seq<Bytes>, v: Bytes)
    ensures VerifyProof(keccak, root, key, proof) == Ok(v)
      <==> 1 <= |proof| <= 20
           && Leads(ProofDB(keccak, proof), HashNode(root), KeybytesToHex(key), v, 22)
  {
    hide Walk, Leads, ProofDB;
    var hexKey := KeybytesToHex(key);
    assert hexKey[..|hexKey| - 1] == KeyToNibbles(key);
    WalkLeads(ProofDB(keccak, proof), hexKey, root, 0, v);
  }
}
