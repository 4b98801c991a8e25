/** The verifier's loops, proved against the functions of Mpt. */
module Verifier {
  import opened ByteStrings
  import opened HexPrefix
  import opened Mpt
  import Rlp

  method NewProofDB(keccak: Hasher, proof: seq<Bytes>) returns (db: map<Hash, Bytes>)
    ensures db == ProofDB(keccak, proof)
  {
    db := map[];
    for i := 0 to |proof|
      invariant db == ProofDB(keccak, proof[..i])
    {
      assert proof[..i + 1][..i] == proof[..i];
      db := db[keccak(proof[i]) := proof[i]];
    }
    assert proof[..|proof|] == proof;
  }

  method DecodeFull(elems: seq<Rlp.Item>) returns (r: Option<Node>)
    requires |elems| == BRANCH_WIDTH
    ensures r == DecodeElements(elems)
  {
    var children := new Node[BRANCH_WIDTH](i => Nil);
    for i := 0 to 16
      invariant DecodeRefs(elems[..i]) == Some(children[..i])
      invariant children[16] == Nil
    {
      assert elems[..i + 1][..i] == elems[..i];
      var cld := DecodeRef(elems[i]);
      if cld.None? {
        PrefixFails(elems[..16], i + 1);
        assert elems[..16][..i + 1] == elems[..i + 1];
        return None;
      }
      ghost var done := children[..i];
      children[i] := cld.value;
      assert children[..i + 1] == done + [cld.value];
    }
    var val := elems[16].AsBytes();
    if |val| > 0 {
      children[16] := ValueNode(val);
    }
    assert children[..] == children[..16] + [children[16]];
    return Some(Full(children[..]));
  }

  lemma {:induction false} PrefixFails(items: seq<Rlp.Item>, n: nat)
    requires n <= |items| && DecodeRefs(items[..n]) == None
    ensures DecodeRefs(items) == None
  {
    if n < |items| {
      assert items[..|items| - 1][..n] == items[..n];
      PrefixFails(items[..|items| - 1], n);
    } else {
      assert items[..n] == items;
    }
  }

  method Follow(start: Node, hexKey: Bytes) returns (rest: Bytes, child: Node)
    requires Shaped(start) && IsHexKey(hexKey)
    ensures Found(rest, child) == Get(start, hexKey)
  {
    var tn, key := start, hexKey;
    while true
      invariant Shaped(tn) && IsHexKey(key)
      invariant Get(start, hexKey) == Get(tn, key)
      decreases tn
    {
      match tn {
        case Short(nkey, val) =>
          if |key| < |nkey| || nkey != key[..|nkey|] {
            return [], Nil;
          }
          key := key[|nkey|..];
          tn := val;
        case Full(children) =>
          if |key| == 0 {
            return [], children[16];
          }
          tn := children[key[0]];
          key := key[1..];
        case HashNode(_) => return key, tn;
        case Nil => return key, Nil;
        case ValueNode(_) => return [], tn;
      }
    }
  }

  method Verify(keccak: Hasher, root: Hash, key: Bytes, proof: seq<Bytes>) returns (r: Result<Bytes, Error>)
    ensures r == VerifyProof(keccak, root, key, proof)
  {
    hide Get, DecodeNode, ProofDB;
    if |proof| == 0 {
      return Err(InvalidProof);
    }
    if |proof| > MAX_PROOF_NODES {
      return Err(ProofTooLong);
    }
    var db := NewProofDB(keccak, proof);
    var hexKey := KeybytesToHex(key);
    var wantHash := root;
    var i := 0;
    while true
      invariant IsHexKey(hexKey) && 0 <= i <= MAX_PROOF_NODES + 1
      invariant VerifyProof(keccak, root, key, proof) == Walk(db, hexKey, wantHash, i)
      decreases MAX_PROOF_NODES + 1 - i
    {
      if wantHash !in db {
        return Err(if i == 0 then RootMismatch else InvalidProof);
      }
      var n := DecodeNode(db[wantHash]);
      if n.None? {
        return Err(InvalidProof);
      }
      DecodeNodeShaped(db[wantHash]);
      var keyrest, cld := Follow(n.value, hexKey);
      match cld {
        case Nil => return Err(KeyNotFound);
        case HashNode(h) =>
          hexKey := keyrest;
          wantHash := h;
        case ValueNode(v) => return Ok(v);
        case _ => return Err(InvalidProof);
      }
      if i > MAX_PROOF_NODES {
        return Err(ProofTooLong);
      }
      i := i + 1;
    }
  }
}
