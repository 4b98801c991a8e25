/** Cutting a concatenated proof into its nodes. */
module ProofBytes {
  import opened ByteStrings
  import opened Rlp
  import opened RlpTheorems

  /** The longest run of whole items; bytes after the first failure are dropped. */
  function SplitProofNodes(data: Bytes): seq<Bytes>
    decreases |data|
  {
    if data == [] then []
    else
      match Decode(data)
      case Err(_) => []
      case Ok(p) => [data[..p.end]] + SplitProofNodes(data[p.end..])
  }

  method Split(data: Bytes) returns (nodes: seq<Bytes>)
    ensures nodes == SplitProofNodes(data)
  {
    hide Decoded;
    nodes := [];
    var offset := 0;
    while offset < |data|
      invariant 0 <= offset <= |data|
      invariant SplitProofNodes(data) == nodes + SplitProofNodes(data[offset..])
    {
      match Decode(data[offset..]) {
        case Err(_) =>
          assert nodes + [] == nodes;
          return;
        case Ok(p) =>
          Regroup(data, offset, p.end, nodes, SplitProofNodes(data[offset + p.end..]));
          nodes := nodes + [data[offset..offset + p.end]];
          offset := offset + p.end;
      }
    }
    assert nodes + [] == nodes;
  }

  lemma Regroup(data: Bytes, offset: nat, n: nat, nodes: seq<Bytes>, rest: seq<Bytes>)
    requires offset + n <= |data|
    ensures data[offset..][..n] == data[offset..offset + n] && data[offset..][n..] == data[offset + n..]
    ensures nodes + ([data[offset..offset + n]] + rest) == nodes + [data[offset..offset + n]] + rest
  {
  }

  /** The nodes reach up to the end, or to the first byte from which no item can be decoded. */
  lemma {:induction false} SplitStops(data: Bytes)
    ensures var n := |Concat(SplitProofNodes(data))|;
      n <= |data| && data[..n] == Concat(SplitProofNodes(data)) && (data[n..] == [] || Decode(data[n..]).Err?)
    decreases |data|
  {
    hide Decoded;
    if data != [] && Decode(data).Ok? {
      var end := Decode(data).value.end;
      SplitStops(data[end..]);
      var n := |Concat(SplitProofNodes(data[end..]))|;
      assert data[end..][n..] == data[end + n..];
      assert data[..end + n] == data[..end] + data[end..][..n];
      assert SplitProofNodes(data)[1..] == SplitProofNodes(data[end..]);
    } else {
      assert SplitProofNodes(data) == [] && data[0..] == data;
    }
  }

  /** The bytes of an item within the decoder's limits. */
  ghost predicate IsItem(b: Bytes) {
    exists item :: Decodable(item, 0) && b == Reencode(item)
  }

  /** Every node of a split is a canonical item, and the nodes stand one after the other in the input. */
  lemma {:induction false} SplitIsPrefix(data: Bytes)
    ensures Concat(SplitProofNodes(data)) <= data
    ensures forall n :: n in SplitProofNodes(data) ==> IsItem(n)
    decreases |data|
  {
    if data != [] && Decode(data).Ok? {
      hide Decoded, IsItem;
      var p := Decode(data).value;
      var first, rest := data[..p.end], SplitProofNodes(data[p.end..]);
      FirstIsItem(data);
      SplitIsPrefix(data[p.end..]);
      ConcatCons(first, rest);
      PrefixCons(data, p.end, Concat(rest));
    }
  }

  lemma ConcatCons(first: Bytes, rest: seq<Bytes>)
    ensures Concat([first] + rest) == first + Concat(rest)
  {
    assert ([first] + rest)[1..] == rest;
  }

  lemma PrefixCons(data: Bytes, n: nat, rest: Bytes)
    requires n <= |data| && rest <= data[n..]
    ensures data[..n] + rest <= data
  {
    assert data == data[..n] + data[n..];
  }

  lemma FirstIsItem(data: Bytes)
    requires Decode(data).Ok?
    ensures IsItem(data[..Decode(data).value.end])
  {
    Canonical(data, 0, 0);
    hide Decoded, Reencode, Decodable;
    var p := Decode(data).value;
    assert data[..p.end] == data[0..p.end];
  }

  /** Splitting inverts concatenation on lists of items. */
  lemma {:induction false} SplitConcat(nodes: seq<Bytes>)
    requires forall n :: n in nodes ==> IsItem(n)
    requires |Concat(nodes)| < TWO_63
    ensures SplitProofNodes(Concat(nodes)) == nodes
  {
    if nodes != [] {
      hide Decoded, Reencode, Decodable;
      var n, rest := nodes[0], nodes[1..];
      var data := Concat(nodes);
      assert n in nodes;
      var item :| Decodable(item, 0) && n == Reencode(item);
      NotEmpty(item);
      assert data[0..|n|] == n && data[..|n|] == n;
      DecodeEncoded(data, 0, item, 0);
      assert data[|n|..] == Concat(rest);
      SplitConcat(rest);
    }
  }

  lemma NotEmpty(item: Item)
    ensures |Reencode(item)| > 0
  {
  }
}
