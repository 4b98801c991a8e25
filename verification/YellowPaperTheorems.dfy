/** The codec, the packed paths and the trie's root are those of the Yellow Paper. */
module YellowPaperTheorems {
  import opened ByteStrings
  import opened BlockProofs
  import opened HexPrefix
  import opened Trie
  import opened TrieNodes
  import opened TrieTheorems
  import opened YellowPaper
  import Rlp

  // ----- RLP -----

  lemma LengthFits(n: nat)
    ensures |ToBigEndian(n)| <= 8 <==> n < TWO_64
  {
    ToBigEndianLength(n, 8);
    Pow256Values();
  }

  /** Strings below 2^64 bytes are encoded as Appendix B has it. */
  lemma StringIsRlp(b: Bytes)
    requires |b| < TWO_64
    ensures Rlp.EncodeBytes(b) == RlpString(b)
  {
    LengthFits(|b|);
  }

  lemma ListIsRlp(items: seq<Bytes>)
    requires |Concat(items)| < TWO_64
    ensures Rlp.EncodeList(items) == RlpList(Concat(items))
  {
    LengthFits(|Concat(items)|);
  }

  // ----- Hex-prefix -----

  lemma {:induction false} PackIs(x: Bytes)
    requires IsNibbles(x) && |x| % 2 == 0
    ensures Pack(x) == seq(|x| / 2, k requires 0 <= k < |x| / 2 => 16 * x[2 * k] + x[2 * k + 1])
  {
    if x != [] {
      var rest := x[2..];
      PackIs(rest);
      assert |rest| / 2 == |x| / 2 - 1;
      forall k | 0 <= k < |x| / 2
        ensures Pack(x)[k] == 16 * x[2 * k] + x[2 * k + 1]
      {
        if k > 0 {
          assert rest[2 * (k - 1)] == x[2 * k] && rest[2 * (k - 1) + 1] == x[2 * k + 1];
        }
      }
    }
  }

  /** The packed path is the hex-prefix encoding of Appendix C. */
  lemma CompactIsHP(x: Bytes, t: bool)
    requires IsNibbles(x)
    ensures NibblesToCompact(x, t) == HP(x, t)
  {
    hide Pack;
    if |x| % 2 == 0 {
      PackIs(x);
    } else {
      OddPath(x, t);
    }
  }

  lemma OddPath(x: Bytes, t: bool)
    requires IsNibbles(x) && |x| % 2 == 1
    ensures NibblesToCompact(x, t) == HP(x, t)
  {
    hide Pack;
    var rest := x[1..];
    PackIs(rest);
    var n := |x| / 2;
    assert |rest| / 2 == n;
    forall k | 0 <= k < n
      ensures Pack(rest)[k] == 16 * x[2 * k + 1] + x[2 * k + 2]
    {
      assert rest[2 * k] == x[2 * k + 1] && rest[2 * k + 1] == x[2 * k + 2];
    }
    assert Pack(rest) == seq(n, k requires 0 <= k < n => 16 * x[2 * k + 1] + x[2 * k + 2]);
  }

  // ----- The trie -----

  ghost function Set(es: seq<Entry>): set<Entry> {
    set e | e in es
  }

  /** No two entries have the same key. */
  ghost predicate Distinct(es: seq<Entry>) {
    forall i, j :: 0 <= i < j < |es| ==> es[i].key != es[j].key
  }

  lemma {:induction false} SubDistinct(es: seq<Entry>, depth: nat, nibble: byte)
    requires Distinct(es)
    ensures Distinct(Sub(es, depth, nibble))
  {
    if es != [] {
      var front, last := es[..|es| - 1], es[|es| - 1];
      SubDistinct(front, depth, nibble);
      var sub := Sub(front, depth, nibble);
      forall i | 0 <= i < |sub|
        ensures sub[i].key != last.key
      {
        assert sub[i] in front;
      }
    }
  }

  lemma SubIsWith(es: seq<Entry>, depth: nat, nibble: byte)
    ensures Set(Sub(es, depth, nibble)) == With(Set(es), depth, nibble)
  {
  }

  lemma {:induction false} ValueIsEnding(es: seq<Entry>, depth: nat)
    requires Distinct(es)
    requires forall a, b :: a in es && b in es && |a.key| == depth && |b.key| == depth ==> a.key == b.key
    ensures ValueAt(es, depth) == EndingAt(Set(es), depth)
  {
    ValueAtIn(es, depth);
    if exists e :: e in Set(es) && |e.key| == depth {
      var e :| e in Set(es) && |e.key| == depth && e.value == EndingAt(Set(es), depth);
      var f :| f in es && |f.key| == depth && f.value == ValueAt(es, depth);
      var i :| 0 <= i < |es| && es[i] == e;
      var j :| 0 <= j < |es| && es[j] == f;
    }
  }

  lemma {:induction false} ValueAtIn(es: seq<Entry>, depth: nat)
    ensures if exists e :: e in es && |e.key| == depth then exists e :: e in es && |e.key| == depth && e.value == ValueAt(es, depth)
            else ValueAt(es, depth) == []
  {
    if es != [] {
      var last := es[|es| - 1];
      assert last in es;
      if |last.key| != depth {
        ValueAtIn(es[..|es| - 1], depth);
        assert forall e :: e in es ==> e in es[..|es| - 1] || e == last;
      }
    }
  }

  lemma {:induction false} LongestIs(es: seq<Entry>, depth: nat, bound: nat)
    requires es != [] && Keyed(Set(es), depth, bound) && (depth > 0 ==> SharePrefix(Set(es), depth))
    ensures Longest(Set(es), depth, bound) == depth + CommonLen(es, depth)
    decreases bound - depth
  {
    SameNibbleIs(es, depth);
    assert es[0] in Set(es);
    if SameNibble(es, depth) {
      LongestIs(es, depth + 1, bound);
    }
  }

  lemma SameNibbleIs(es: seq<Entry>, depth: nat)
    requires es != [] && (depth > 0 ==> SharePrefix(Set(es), depth))
    ensures SameNibble(es, depth) <==> SharePrefix(Set(es), depth + 1)
  {
    assert es[0] in Set(es);
    if SameNibble(es, depth) {
      forall a, b | a in Set(es) && b in Set(es)
        ensures depth + 1 <= |a.key| && depth + 1 <= |b.key| && a.key[..depth + 1] == b.key[..depth + 1]
      {
        assert a in es && b in es;
        assert a.key[..depth + 1] == a.key[..depth] + [a.key[depth]] && b.key[..depth + 1] == b.key[..depth] + [b.key[depth]];
      }
    }
    if SharePrefix(Set(es), depth + 1) {
      forall e | e in es
        ensures depth < |e.key| && depth < |es[0].key| && e.key[depth] == es[0].key[depth]
      {
        assert e in Set(es);
        assert e.key[..depth + 1][depth] == es[0].key[..depth + 1][depth];
      }
    }
  }

  /** Keys and values small enough for every node to have a length. */
  ghost predicate Proper(es: seq<Entry>, depth: nat, bound: nat) {
    && Distinct(es) && AllNibbles(es) && Deep(es, depth) && Keyed(Set(es), depth, bound) && SizedEntries(es)
    && (depth > 0 ==> SharePrefix(Set(es), depth))
  }

  lemma PairIsRlp(a: Bytes, b: Bytes)
    requires |a| + |b| < TWO_64
    ensures Rlp.EncodeList([a, b]) == RlpList(a + b)
  {
    hide Rlp.EncodeList, RlpList;
    ConcatPair(a, b);
    ListIsRlp([a, b]);
  }

  lemma LeafIs(keccak: Hasher, e: Entry, depth: nat, bound: nat)
    requires Proper([e], depth, bound)
    ensures depth <= |e.key| && IsNibbles(e.key[depth..])
    ensures Encode(keccak, Leaf(e.key[depth..], e.value)) == C(keccak, Set([e]), depth, bound)
  {
    hide Rlp.EncodeList, Rlp.EncodeBytes, RlpList, RlpString, NibblesToCompact, HP;
    assert e in [e] && e in Set([e]) && Set([e]) == {e};
    var path := NibblesToCompact(e.key[depth..], true);
    CompactIsHP(e.key[depth..], true);
    StringIsRlp(path);
    StringIsRlp(e.value);
    EncodeBytesSize(path);
    EncodeBytesSize(e.value);
    PairIsRlp(Rlp.EncodeBytes(path), Rlp.EncodeBytes(e.value));
  }

  lemma ReferenceIs(keccak: Hasher, t: TrieNode, J: set<Entry>, i: nat, bound: nat)
    requires WellFormed(t) && J != {} && Keyed(J, i, bound) && Encode(keccak, t) == C(keccak, J, i, bound)
    ensures Reference(keccak, t) == N(keccak, J, i, bound)
  {
    StringIsRlp(keccak(Encode(keccak, t)));
    hide Encode, C, RlpString, Rlp.EncodeBytes;
  }

  lemma EmptyIs(keccak: Hasher, J: set<Entry>, i: nat, bound: nat)
    requires J == {} && Keyed(J, i, bound)
    ensures Reference(keccak, Empty) == N(keccak, J, i, bound)
  {
  }

  lemma NotOne(es: seq<Entry>)
    requires |es| > 1 && Distinct(es)
    ensures es[0] in Set(es) && es[1] in Set(es) && es[0] != es[1]
  {
  }

  /** The path of an extension is a piece of every key. */
  lemma SharedPath(es: seq<Entry>, depth: nat, bound: nat)
    requires es != [] && Proper(es, depth, bound) && CommonLen(es, depth) > 0
    ensures var j := depth + CommonLen(es, depth);
      && Longest(Set(es), depth, bound) == j <= |es[0].key| && IsNibbles(es[0].key[depth..j]) && j - depth <= 131070
      && forall e :: e in Set(es) ==> j <= |e.key| && e.key[depth..j] == es[0].key[depth..j]
  {
    LongestIs(es, depth, bound);
    var J, j := Set(es), depth + CommonLen(es, depth);
    assert SharePrefix(J, j) && es[0] in J && es[0] in es;
    hide CommonLen, Longest, Set;
    forall e | e in J
      ensures j <= |e.key| && e.key[depth..j] == es[0].key[depth..j]
    {
      SamePiece(e.key, es[0].key, depth, j);
    }
  }

  lemma SamePiece(a: Bytes, b: Bytes, i: nat, j: nat)
    requires i <= j <= |a| && j <= |b| && a[..j] == b[..j]
    ensures a[i..j] == b[i..j]
  {
    assert a[..j][i..] == a[i..j] && b[..j][i..] == b[i..j];
  }

  lemma ExtensionIs(keccak: Hasher, J: set<Entry>, a: Entry, b: Entry, depth: nat, j: nat, bound: nat, path: Bytes, child: TrieNode)
    requires a in J && b in J && a != b && Keyed(J, depth, bound) && Keyed(J, j, bound)
    requires depth < j == Longest(J, depth, bound) && IsNibbles(path) && |path| == j - depth <= 131070
    requires forall e :: e in J ==> j <= |e.key| && e.key[depth..j] == path
    requires WellFormed(child) && child.Branch? && Encode(keccak, child) == C(keccak, J, j, bound)
    ensures Encode(keccak, Extension(path, child)) == C(keccak, J, depth, bound)
  {
    hide C, N, Encode, Reference, Longest, RlpList, RlpString, HP;
    ReferenceIs(keccak, child, J, j, bound);
    ExtensionEncodes(keccak, path, child);
    ManyIs(keccak, J, depth, bound, a, b);
  }

  lemma ExtensionEncodes(keccak: Hasher, path: Bytes, child: TrieNode)
    requires IsNibbles(path) && |path| <= 131070 && path != [] && WellFormed(child) && child.Branch?
    ensures Encode(keccak, Extension(path, child)) == RlpList(RlpString(HP(path, false)) + Reference(keccak, child))
  {
    hide Rlp.EncodeList, Rlp.EncodeBytes, RlpList, RlpString, NibblesToCompact, HP, Reference;
    var compact := NibblesToCompact(path, false);
    CompactIsHP(path, false);
    StringIsRlp(compact);
    EncodeBytesSize(compact);
    ReferenceSize(keccak, child);
    PairIsRlp(Rlp.EncodeBytes(compact), Reference(keccak, child));
  }

  /** For more than one entry the definition goes on past the leaf, whichever entry it looks at. */
  lemma ManyIs(keccak: Hasher, J: set<Entry>, i: nat, bound: nat, a: Entry, b: Entry)
    requires a in J && b in J && a != b && Keyed(J, i, bound)
    ensures var j := Longest(J, i, bound);
      if j > i then
        exists e :: e in J && j <= |e.key| && IsNibbles(e.key[i..j])
          && C(keccak, J, i, bound) == RlpList(RlpString(HP(e.key[i..j], false)) + N(keccak, J, j, bound))
      else C(keccak, J, i, bound) == RlpList(Us(keccak, J, i, bound, 16) + RlpString(EndingAt(J, i)))
  {
    hide RlpList, RlpString, HP, N, Us, Longest, EndingAt;
  }

  lemma {:induction false} ReferencesAre(keccak: Hasher, ts: seq<TrieNode>, J: set<Entry>, i: nat, bound: nat, n: nat)
    requires J != {} && Keyed(J, i, bound) && n <= 16 && |ts| == n && forall t :: t in ts ==> WellFormed(t)
    requires forall k :: 0 <= k < n ==> Reference(keccak, ts[k]) == N(keccak, With(J, i, k as byte), i + 1, bound)
    ensures Concat(References(keccak, ts)) == Us(keccak, J, i, bound, n)
  {
    if n > 0 {
      hide Reference, N;
      var front, last := ts[..n - 1], ts[n - 1];
      ReferencesAre(keccak, front, J, i, bound, n - 1);
      ConcatAppend(References(keccak, front), [Reference(keccak, last)]);
      assert Concat([Reference(keccak, last)]) == Reference(keccak, last);
    }
  }

  lemma BranchIs(keccak: Hasher, es: seq<Entry>, depth: nat, bound: nat, children: seq<TrieNode>)
    requires |es| > 1 && Proper(es, depth, bound) && CommonLen(es, depth) == 0
    requires |children| == 16 && forall t :: t in children ==> WellFormed(t)
    requires forall k :: 0 <= k < 16 ==>
      Reference(keccak, children[k]) == N(keccak, With(Set(es), depth, k as byte), depth + 1, bound)
    ensures Encode(keccak, Branch(children, ValueAt(es, depth))) == C(keccak, Set(es), depth, bound)
  {
    var J := Set(es);
    NotOne(es);
    LongestIs(es, depth, bound);
    ManyIs(keccak, J, depth, bound, es[0], es[1]);
    ReferencesAre(keccak, children, J, depth, bound, 16);
    EndingIs(es, depth, bound);
    hide C, N, Us, Longest, CommonLen;
    BranchEncodes(keccak, children, ValueAt(es, depth), es, depth);
  }

  lemma EndingIs(es: seq<Entry>, depth: nat, bound: nat)
    requires Proper(es, depth, bound)
    ensures ValueAt(es, depth) == EndingAt(Set(es), depth)
  {
    forall a, b | a in es && b in es && |a.key| == depth && |b.key| == depth
      ensures a.key == b.key
    {
      assert a in Set(es) && b in Set(es);
      assert depth > 0 ==> a.key[..depth] == a.key && b.key[..depth] == b.key;
    }
    ValueIsEnding(es, depth);
  }

  lemma BranchEncodes(keccak: Hasher, children: seq<TrieNode>, value: Bytes, es: seq<Entry>, depth: nat)
    requires |children| == 16 && (forall t :: t in children ==> WellFormed(t)) && SizedEntries(es) && value == ValueAt(es, depth)
    ensures Encode(keccak, Branch(children, value)) == RlpList(Concat(References(keccak, children)) + RlpString(value))
  {
    hide Rlp.EncodeList, Rlp.EncodeBytes, RlpList, RlpString, Reference;
    ValueAtSized(es, depth);
    StringIsRlp(value);
    EncodeBytesSize(value);
    ReferencesSize(keccak, children);
    var refs := References(keccak, children);
    ConcatAppend(refs, [Rlp.EncodeBytes(value)]);
    assert Concat([Rlp.EncodeBytes(value)]) == Rlp.EncodeBytes(value);
    ListIsRlp(refs + [Rlp.EncodeBytes(value)]);
  }

  // ----- Every built trie -----

  lemma SubProper(es: seq<Entry>, depth: nat, bound: nat, nibble: byte)
    requires Proper(es, depth, bound)
    ensures Proper(Sub(es, depth, nibble), depth + 1, bound)
  {
    var sub := Sub(es, depth, nibble);
    SubDistinct(es, depth, nibble);
    assert forall e :: e in sub ==> e in es && e in Set(es);
    forall a, b | a in Set(sub) && b in Set(sub)
      ensures depth + 1 <= |a.key| && depth + 1 <= |b.key| && a.key[..depth + 1] == b.key[..depth + 1]
    {
      assert a.key[..depth + 1] == a.key[..depth] + [nibble] && b.key[..depth + 1] == b.key[..depth] + [nibble];
      assert depth > 0 ==> a.key[..depth] == b.key[..depth];
    }
  }

  lemma DeeperProper(es: seq<Entry>, depth: nat, bound: nat)
    requires es != [] && Proper(es, depth, bound)
    ensures Proper(es, depth + CommonLen(es, depth), bound)
  {
    LongestIs(es, depth, bound);
    CommonLenShared(es, depth);
    assert es[0] in Set(es);
  }

  /** The encoding of a built trie is c(J, i) of its entries. */
  lemma {:induction false} BuildIsC(keccak: Hasher, es: seq<Entry>, depth: nat, bound: nat)
    requires es != [] && Proper(es, depth, bound)
    ensures WellFormed(Build(es, depth)) && es[0] in Set(es)
    ensures Encode(keccak, Build(es, depth)) == C(keccak, Set(es), depth, bound)
    decreases MaxLen(es) - depth, 1
  {
    hide Build, MaxLen, CommonLen, C, N, Encode, Proper, Sub;
    assert Deep(es, depth) && AllNibbles(es) by {
      ProperIs(es, depth, bound);
    }
    BuildCases(es, depth);
    BuildWellFormed(es, depth);
    if |es| == 1 {
      assert es == [es[0]];
      LeafIs(keccak, es[0], depth, bound);
    } else if CommonLen(es, depth) > 0 {
      var j := depth + CommonLen(es, depth);
      DeeperProper(es, depth, bound);
      ProperIs(es, j, bound);
      DeepMaxLen(es, j);
      CommonLenShared(es, depth);
      NoCommonLen(es, j);
      BuildWellFormed(es, j);
      BuildIsC(keccak, es, j, bound);
      NotOne(es);
      SharedPath(es, depth, bound);
      ProperIs(es, depth, bound);
      ExtensionIs(keccak, Set(es), es[0], es[1], depth, j, bound, es[0].key[depth..j], Build(es, j));
    } else {
      var children := seq(16, i requires 0 <= i < 16 => Build(Sub(es, depth, i as byte), depth + 1));
      forall k | 0 <= k < 16
        ensures WellFormed(children[k])
        ensures Keyed(With(Set(es), depth, k as byte), depth + 1, bound)
        ensures Reference(keccak, children[k]) == N(keccak, With(Set(es), depth, k as byte), depth + 1, bound)
      {
        ChildIs(keccak, es, depth, bound, k as byte);
      }
      BuildsBranch(es, depth, children);
      BranchIs(keccak, es, depth, bound, children);
    }
  }

  lemma ProperIs(es: seq<Entry>, depth: nat, bound: nat)
    requires Proper(es, depth, bound)
    ensures Distinct(es) && Deep(es, depth) && AllNibbles(es) && Keyed(Set(es), depth, bound)
  {
  }

  lemma {:induction false} ChildIs(keccak: Hasher, es: seq<Entry>, depth: nat, bound: nat, nibble: byte)
    requires |es| > 1 && Proper(es, depth, bound) && CommonLen(es, depth) == 0
    ensures var sub, J := Sub(es, depth, nibble), With(Set(es), depth, nibble);
      && Keyed(J, depth + 1, bound) && WellFormed(Build(sub, depth + 1))
      && Reference(keccak, Build(sub, depth + 1)) == N(keccak, J, depth + 1, bound)
    decreases MaxLen(es) - depth, 0
  {
    hide Build, MaxLen, CommonLen, C, N, Encode, Proper, Sub, Reference;
    var sub := Sub(es, depth, nibble);
    SubProper(es, depth, bound, nibble);
    SubIsWith(es, depth, nibble);
    ProperIs(sub, depth + 1, bound);
    BuildWellFormed(sub, depth + 1);
    SubMaxLen(es, depth, nibble);
    if sub == [] {
      BuildCases([], depth + 1);
      EmptyIs(keccak, Set(sub), depth + 1, bound);
    } else {
      DeepMaxLen(sub, depth + 1);
      BuildIsC(keccak, sub, depth + 1, bound);
      ReferenceIs(keccak, Build(sub, depth + 1), Set(sub), depth + 1, bound);
    }
  }

  // ----- Blocks -----

  /** The entries of a block: each index's key with the value at it. */
  ghost function BlockSet(values: Values): set<Entry> {
    Set(BlockEntries(values))
  }

  lemma BlockProper(values: Values)
    requires Fit(values)
    ensures Proper(BlockEntries(values), 0, 18)
  {
    var es := BlockEntries(values);
    hide KeyToNibbles, IndexKey;
    forall i, j | 0 <= i < j < |es|
      ensures es[i].key != es[j].key
    {
      if es[i].key == es[j].key {
        NibblesInjective(IndexKey(i), IndexKey(j));
        IndexKeysPrefixFree(i, j);
      }
    }
    forall e | e in es
      ensures IsNibbles(e.key) && |e.key| <= 18 && |e.value| <= 65536
    {
      var i :| 0 <= i < |es| && es[i] == e;
      IndexKeyForm(i);
      assert values[i] in values;
    }
  }

  /** The root of every block that is not tiny is TRIE of its entries; a tiny block's is the node that TRIE would hash. */
  lemma BlockRoot(keccak: Hasher, values: Values)
    requires Fit(values)
    ensures WellFormed(BlockTrie(values)) && Keyed(BlockSet(values), 0, 18)
    ensures !TinyBlock(values) ==> TrieRoot(keccak, BlockTrie(values)) == Root(keccak, BlockSet(values), 18)
    ensures TinyBlock(values) ==> keccak(TrieRoot(keccak, BlockTrie(values))) == Root(keccak, BlockSet(values), 18)
  {
    hide Build, Encode, C, IndexKey, KeyToNibbles, Fit, Proper;
    var es := BlockEntries(values);
    BlockProper(values);
    ProperIs(es, 0, 18);
    RootIsHash(keccak, values);
    RootIsHashUnlessTiny(keccak, values);
    if es == [] {
      BuildCases(es, 0);
      EmptyEncodes(keccak);
    } else {
      BuildIsC(keccak, es, 0, 18);
    }
  }

  lemma EmptyEncodes(keccak: Hasher)
    ensures Encode(keccak, Empty) == RlpString([])
  {
  }
}
