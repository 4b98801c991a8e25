/** What the Ethereum Yellow Paper defines: RLP (Appendix B), hex-prefix (Appendix C) and the trie's root (Appendix D). */
module YellowPaper {
  import opened ByteStrings
  import opened HexPrefix
  import opened Trie

  // ----- Appendix B -----

  /** A single byte below 128 stands for itself; up to 55 bytes a length byte comes first; else the length in big endian. */
  function RlpString(x: Bytes): Bytes {
    if |x| == 1 && x[0] < 128 then x
    else if |x| < 56 then [(128 + |x|) as byte] + x
    else if |ToBigEndian(|x|)| <= 8 then [(183 + |ToBigEndian(|x|)|) as byte] + ToBigEndian(|x|) + x
    else []
  }

  /** A list is its length in the same way, from 192 on, before the items one after the other. */
  function RlpList(items: Bytes): Bytes {
    if |items| < 56 then [(192 + |items|) as byte] + items
    else if |ToBigEndian(|items|)| <= 8 then [(247 + |ToBigEndian(|items|)|) as byte] + ToBigEndian(|items|) + items
    else []
  }

  // ----- Appendix C -----

  /** The flag is 2 for a terminated path, 1 more for an odd one, which puts its first nibble beside the flag. */
  function HP(x: Bytes, t: bool): Bytes
    requires IsNibbles(x)
  {
    var f: byte := if t then 2 else 0;
    if |x| % 2 == 0 then
      [16 * f] + seq(|x| / 2, k requires 0 <= k < |x| / 2 => 16 * x[2 * k] + x[2 * k + 1])
    else
      [16 * (f + 1) + x[0]] + seq(|x| / 2, k requires 0 <= k < |x| / 2 => 16 * x[2 * k + 1] + x[2 * k + 2])
  }

  // ----- Appendix D -----

  /** All keys begin with the same so many nibbles. */
  ghost predicate SharePrefix(J: set<Entry>, n: nat) {
    forall a, b :: a in J && b in J ==> n <= |a.key| && n <= |b.key| && a.key[..n] == b.key[..n]
  }

  /** The longest such length, counted up from one that is shared. */
  ghost function Longest(J: set<Entry>, i: nat, bound: nat): (j: nat)
    ensures j >= i && (j > i ==> SharePrefix(J, j))
    ensures J != {} && Keyed(J, i, bound) ==> Keyed(J, j, bound)
    decreases bound - i
  {
    if i < bound && SharePrefix(J, i + 1) then Longest(J, i + 1, bound) else i
  }

  ghost predicate Keyed(J: set<Entry>, i: nat, bound: nat) {
    forall e :: e in J ==> IsNibbles(e.key) && i <= |e.key| <= bound
  }

  /** The entries that go on with a nibble. */
  ghost function With(J: set<Entry>, i: nat, k: byte): set<Entry> {
    set e | e in J && i < |e.key| && e.key[i] == k
  }

  /** The value of the entry that ends at this depth, if there is one. */
  ghost function EndingAt(J: set<Entry>, i: nat): Bytes {
    if exists e :: e in J && |e.key| == i then
      var e :| e in J && |e.key| == i;
      e.value
    else []
  }

  /** c(J, i): a leaf for one entry, an extension for a shared prefix, and a branch of sixteen and a value otherwise. */
  ghost function C(keccak: Hasher, J: set<Entry>, i: nat, bound: nat): Bytes
    requires J != {} && Keyed(J, i, bound)
    decreases Rank(J, i, bound), 1, 0
  {
    var e :| e in J;
    if J == {e} then RlpList(RlpString(HP(e.key[i..], true)) + RlpString(e.value))
    else
      var j := Longest(J, i, bound);
      if j > i then RlpList(RlpString(HP(e.key[i..j], false)) + N(keccak, J, j, bound))
      else RlpList(Us(keccak, J, i, bound, 16) + RlpString(EndingAt(J, i)))
  }

  /** n(J, i): the empty string for no entries, the node itself below 32 bytes, and its hash otherwise. */
  ghost function N(keccak: Hasher, J: set<Entry>, i: nat, bound: nat): Bytes
    requires Keyed(J, i, bound)
    decreases Rank(J, i, bound), 2, 0
  {
    if J == {} then RlpString([])
    else if |C(keccak, J, i, bound)| < 32 then C(keccak, J, i, bound)
    else RlpString(keccak(C(keccak, J, i, bound)))
  }

  /** The first n of the sixteen branches. */
  ghost function Us(keccak: Hasher, J: set<Entry>, i: nat, bound: nat, n: nat): Bytes
    requires J != {} && Keyed(J, i, bound) && n <= 16
    decreases Rank(J, i, bound), 0, n
  {
    if n == 0 then []
    else Us(keccak, J, i, bound, n - 1) + N(keccak, With(J, i, (n - 1) as byte), i + 1, bound)
  }

  ghost function Rank(J: set<Entry>, i: nat, bound: nat): nat {
    if J == {} || bound < i then 0 else bound - i + 1
  }

  /** TRIE(J): the hash of the whole, or of the empty string's encoding. */
  ghost function Root(keccak: Hasher, J: set<Entry>, bound: nat): Hash
    requires Keyed(J, 0, bound)
  {
    if J == {} then keccak(RlpString([])) else keccak(C(keccak, J, 0, bound))
  }
}
