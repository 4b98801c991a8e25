/** The contract's verifier of Merkle-Patricia proofs: node decoding, the hash-keyed node set, and the walk. */
module Mpt {
  import opened ByteStrings
  import opened HexPrefix
  import Rlp

  type Item = Rlp.Item

  const MAX_PROOF_NODES := 20
  const BRANCH_WIDTH := 17

  datatype Error = InvalidProof | ProofTooLong | RootMismatch | KeyNotFound

  /** Nil stands for a missing child; a full node's last child is its value slot. */
  datatype Node =
    | Nil
    | Full(children: seq<Node>)
    | Short(key: Bytes, val: Node)
    | HashNode(hash: Hash)
    | ValueNode(value: Bytes)

  /**
   The shape of decoded nodes: sixteen references and a value slot in a full node, and a value
   below a short node exactly when its key carries the terminator.
   */
  ghost predicate Shaped(n: Node) {
    match n
    case Nil => true
    case HashNode(_) => true
    case ValueNode(_) => true
    case Short(key, val) =>
      && Shaped(val)
      && (val.ValueNode? <==> HasTerm(key))
      && IsNibbles(if HasTerm(key) then key[..|key| - 1] else key)
    case Full(children) =>
      && |children| == BRANCH_WIDTH
      && (forall c :: c in children ==> Shaped(c))
      && (forall i :: 0 <= i < 16 ==> !children[i].ValueNode?)
      && (children[16].Nil? || children[16].ValueNode?)
  }

  // ----- Node decoding -----

  /** decodeShort and decodeFull, chosen by the number of elements. */
  function DecodeElements(elems: seq<Item>): Option<Node>
    decreases elems, 1
  {
    if |elems| == 2 then
      var key := CompactToHex(elems[0].AsBytes());
      if HasTerm(key) then Some(Short(key, ValueNode(elems[1].AsBytes())))
      else
        match DecodeRef(elems[1])
        case None => None
        case Some(child) => Some(Short(key, child))
    else if |elems| == BRANCH_WIDTH then
      match DecodeRefs(elems[..16])
      case None => None
      case Some(children) =>
        var val := elems[16].AsBytes();
        Some(Full(children + [if val == [] then Nil else ValueNode(val)]))
    else None
  }

  /** An embedded node, no child, or the hash of a child. */
  function DecodeRef(item: Item): Option<Node>
    decreases item, 0
  {
    match item
    case List(children) => DecodeElements(children)
    case Str(data) =>
      if data == [] then Some(Nil)
      else if |data| == 32 then Some(HashNode(data))
      else None
  }

  function DecodeRefs(items: seq<Item>): (r: Option<seq<Node>>)
    ensures r.Some? ==> |r.value| == |items|
    decreases items, 0
  {
    if items == [] then Some([])
    else
      match (DecodeRefs(items[..|items| - 1]), DecodeRef(items[|items| - 1]))
      case (Some(front), Some(last)) => Some(front + [last])
      case _ => None
  }

  function DecodeNode(buf: Bytes): Option<Node> {
    match Rlp.Decode(buf)
    case Err(_) => None
    case Ok(p) => if p.item.List? then DecodeElements(p.item.children) else None
  }

  // ----- The walk -----

  /** Proof nodes by hash; a later node replaces an earlier one with the same hash. */
  function ProofDB(keccak: Hasher, proof: seq<Bytes>): map<Hash, Bytes> {
    if proof == [] then map[]
    else
      var last := proof[|proof| - 1];
      ProofDB(keccak, proof[..|proof| - 1])[keccak(last) := last]
  }

  predicate IsHexKey(key: Bytes) {
    forall i :: 0 <= i < |key| ==> key[i] <= TERMINATOR
  }

  datatype Found = Found(rest: Bytes, child: Node)

  /** Follows a key inside one decoded node, down to a hash, a value or a dead end. */
  function Get(tn: Node, key: Bytes): (r: Found)
    requires Shaped(tn) && IsHexKey(key)
    ensures IsHexKey(r.rest)
    decreases tn
  {
    match tn
    case Short(nkey, val) =>
      if nkey <= key then Get(val, key[|nkey|..]) else Found([], Nil)
    case Full(children) =>
      if key == [] then Found([], children[16]) else Get(children[key[0]], key[1..])
    case HashNode(_) => Found(key, tn)
    case Nil => Found(key, Nil)
    case ValueNode(_) => Found([], tn)
  }

  /** The loop of VerifyProof from its i-th lookup on. */
  function Walk(db: map<Hash, Bytes>, hexKey: Bytes, want: Hash, i: nat): Result<Bytes, Error>
    requires IsHexKey(hexKey) && i <= MAX_PROOF_NODES + 1
    decreases MAX_PROOF_NODES + 1 - i
  {
    if want !in db then Err(if i == 0 then RootMismatch else InvalidProof)
    else
      match DecodeNode(db[want])
      case None => Err(InvalidProof)
      case Some(n) =>
        DecodeNodeShaped(db[want]);
        var found := Get(n, hexKey);
        match found.child
        case Nil => Err(KeyNotFound)
        case HashNode(h) => if i > MAX_PROOF_NODES then Err(ProofTooLong) else Walk(db, found.rest, h, i + 1)
        case ValueNode(v) => Ok(v)
        case _ => Err(InvalidProof)
  }

  function VerifyProof(keccak: Hasher, root: Hash, key: Bytes, proof: seq<Bytes>): Result<Bytes, Error> {
    if |proof| == 0 then Err(InvalidProof)
    else if |proof| > MAX_PROOF_NODES then Err(ProofTooLong)
    else Walk(ProofDB(keccak, proof), KeybytesToHex(key), root, 0)
  }

  // ----- Decoded nodes have the expected shape -----

  lemma {:induction false} DecodeElementsShaped(elems: seq<Item>)
    requires DecodeElements(elems).Some?
    ensures Shaped(DecodeElements(elems).value)
    ensures DecodeElements(elems).value.Short? || DecodeElements(elems).value.Full?
    decreases elems, 1
  {
    hide CompactToHex;
    if |elems| == 2 {
      CompactToHexNibbles(elems[0].AsBytes());
      if !HasTerm(CompactToHex(elems[0].AsBytes())) {
        DecodeRefShaped(elems[1]);
      }
    } else {
      DecodeRefsShaped(elems[..16]);
    }
  }

  lemma {:induction false} DecodeRefShaped(item: Item)
    requires DecodeRef(item).Some?
    ensures Shaped(DecodeRef(item).value) && !DecodeRef(item).value.ValueNode?
    decreases item, 0
  {
    if item.List? {
      DecodeElementsShaped(item.children);
    }
  }

  lemma {:induction false} DecodeRefsShaped(items: seq<Item>)
    requires DecodeRefs(items).Some?
    ensures forall c :: c in DecodeRefs(items).value ==> Shaped(c) && !c.ValueNode?
    decreases items, 0
  {
    if items != [] {
      DecodeRefsShaped(items[..|items| - 1]);
      DecodeRefShaped(items[|items| - 1]);
    }
  }

  lemma DecodeNodeShaped(buf: Bytes)
    ensures DecodeNode(buf).Some? ==> Shaped(DecodeNode(buf).value)
  {
    if DecodeNode(buf).Some? {
      DecodeElementsShaped(Rlp.Decode(buf).value.item.children);
    }
  }

  /** A parsed path is nibbles, with at most one terminator, at its end. */
  lemma CompactToHexNibbles(compact: Bytes)
    ensures var hex := CompactToHex(compact); IsNibbles(if HasTerm(hex) then hex[..|hex| - 1] else hex)
  {
    if compact != [] {
      hide NibblesToCompact;
      CompactCanonical(compact);
    }
  }

}
