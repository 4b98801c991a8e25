/** A built trie is the map its entries describe. */
module TrieTheorems {
  import opened ByteStrings
  import opened HexPrefix
  import opened Trie

  predicate AllNibbles(es: seq<Entry>) {
    forall e :: e in es ==> IsNibbles(e.key)
  }

  /** The value at the end of a path of nibbles; a branch holds none when its value is empty. */
  function Get(t: TrieNode, nibbles: Bytes): Option<Bytes>
    requires WellFormed(t) && IsNibbles(nibbles)
    decreases t
  {
    match t
    case Empty => None
    case Leaf(path, value) => if path == nibbles then Some(value) else None
    case Branch(children, value) =>
      if nibbles == [] then if value == [] then None else Some(value)
      else Get(children[nibbles[0]], nibbles[1..])
    case Extension(path, child) =>
      if path <= nibbles then Get(child, nibbles[|path|..]) else None
  }

  /** The reference: the last entry with the key wins. */
  function LastValue(es: seq<Entry>, key: Bytes): Option<Bytes> {
    if es == [] then None
    else if es[|es| - 1].key == key then Some(es[|es| - 1].value)
    else LastValue(es[..|es| - 1], key)
  }

  /** How many entries have a key that begins with the given one. */
  function Extending(es: seq<Entry>, key: Bytes): nat {
    if es == [] then 0
    else Extending(es[..|es| - 1], key) + if key <= es[|es| - 1].key then 1 else 0
  }

  /** The key of an entry with an empty value begins no other entry's key. */
  ghost predicate Storable(es: seq<Entry>) {
    forall e :: e in es && e.value == [] ==> Extending(es, e.key) <= 1
  }

  /** Every key of the entries begins as key does, up to depth. */
  ghost predicate Shared(es: seq<Entry>, key: Bytes, depth: nat) {
    depth <= |key| && forall e :: e in es ==> depth <= |e.key| && e.key[..depth] == key[..depth]
  }

  lemma {:induction false} BuildWellFormed(es: seq<Entry>, depth: nat)
    requires Deep(es, depth) && AllNibbles(es)
    ensures WellFormed(Build(es, depth))
    ensures |es| > 1 && CommonLen(es, depth) == 0 ==> Build(es, depth).Branch?
    decreases MaxLen(es) - depth
  {
    hide Build, MaxLen, CommonLen;
    BuildCases(es, depth);
    if |es| == 1 {
      assert es[0] in es;
    } else if |es| > 1 && CommonLen(es, depth) > 0 {
      var c := CommonLen(es, depth);
      assert es[0] in es;
      CommonLenShared(es, depth);
      NoCommonLen(es, depth + c);
      BuildWellFormed(es, depth + c);
    } else if |es| > 1 {
      forall nibble: byte
        ensures WellFormed(Build(Sub(es, depth, nibble), depth + 1))
      {
        SubMaxLen(es, depth, nibble);
        if Sub(es, depth, nibble) == [] {
          BuildCases([], depth + 1);
        } else {
          DeepMaxLen(Sub(es, depth, nibble), depth + 1);
          BuildWellFormed(Sub(es, depth, nibble), depth + 1);
        }
      }
      BranchWellFormed(es, depth);
    }
  }

  lemma NoCommonLen(es: seq<Entry>, depth: nat)
    requires |es| > 0 && !SameNibble(es, depth)
    ensures CommonLen(es, depth) == 0
  {
  }

  lemma DeepMaxLen(es: seq<Entry>, depth: nat)
    requires Deep(es, depth) && es != []
    ensures depth <= MaxLen(es)
  {
    assert es[0] in es;
  }

  lemma BranchWellFormed(es: seq<Entry>, depth: nat)
    requires |es| > 1 && Deep(es, depth) && CommonLen(es, depth) == 0
    requires forall nibble: byte :: WellFormed(Build(Sub(es, depth, nibble), depth + 1))
    ensures Build(es, depth).Branch? && WellFormed(Build(es, depth))
  {
    hide CommonLen, MaxLen, Sub;
    var t := Build(es, depth);
    assert forall n :: 0 <= n < 16 ==> t.children[n] == Build(Sub(es, depth, n as byte), depth + 1);
  }

  lemma SubMaxLen(es: seq<Entry>, depth: nat, nibble: byte)
    ensures MaxLen(Sub(es, depth, nibble)) <= MaxLen(es)
  {
    var sub := Sub(es, depth, nibble);
    if MaxLen(sub) > 0 {
      var e :| e in sub && |e.key| == MaxLen(sub);
      assert e in es;
    }
  }

  lemma {:induction false} LastValueIn(es: seq<Entry>, key: Bytes)
    ensures LastValue(es, key).Some? ==> Entry(key, LastValue(es, key).value) in es
    ensures LastValue(es, key).None? ==> forall e :: e in es ==> e.key != key
  {
    if es != [] {
      LastValueIn(es[..|es| - 1], key);
      assert es == es[..|es| - 1] + [es[|es| - 1]];
    }
  }

  lemma {:induction false} SubLastValue(es: seq<Entry>, depth: nat, key: Bytes)
    requires depth < |key|
    ensures LastValue(Sub(es, depth, key[depth]), key) == LastValue(es, key)
  {
    if es != [] {
      SubLastValue(es[..|es| - 1], depth, key);
      var front, last := Sub(es[..|es| - 1], depth, key[depth]), es[|es| - 1];
      if depth < |last.key| && last.key[depth] == key[depth] {
        assert (front + [last])[..|front|] == front;
      } else {
        assert front + [] == front;
      }
    }
  }

  lemma {:induction false} ValueAtLastValue(es: seq<Entry>, key: Bytes)
    requires Shared(es, key, |key|)
    ensures ValueAt(es, |key|) == match LastValue(es, key) case Some(v) => v case None => []
  {
    if es != [] {
      var last := es[|es| - 1];
      assert last in es && last.key[..|key|] == key[..|key|] == key;
      assert |last.key| == |key| ==> last.key[..|key|] == last.key;
      assert forall e :: e in es[..|es| - 1] ==> e in es;
      ValueAtLastValue(es[..|es| - 1], key);
    }
  }

  lemma {:induction false} AllExtend(es: seq<Entry>, key: Bytes)
    requires Shared(es, key, |key|)
    ensures Extending(es, key) == |es|
  {
    if es != [] {
      var last := es[|es| - 1];
      assert last in es && last.key[..|key|] == key;
      AllExtend(es[..|es| - 1], key);
    }
  }

  lemma {:induction false} SubExtending(es: seq<Entry>, depth: nat, nibble: byte, key: Bytes)
    ensures Extending(Sub(es, depth, nibble), key) <= Extending(es, key)
  {
    if es != [] {
      SubExtending(es[..|es| - 1], depth, nibble, key);
      var front, last := Sub(es[..|es| - 1], depth, nibble), es[|es| - 1];
      assert (front + [last])[..|front|] == front;
      assert front + [] == front;
    }
  }

  lemma SubShared(es: seq<Entry>, key: Bytes, depth: nat)
    requires Shared(es, key, depth) && depth < |key|
    ensures Shared(Sub(es, depth, key[depth]), key, depth + 1)
  {
    forall e | e in Sub(es, depth, key[depth])
      ensures e.key[..depth + 1] == key[..depth + 1]
    {
      assert e in es;
      assert e.key[..depth + 1] == e.key[..depth] + [key[depth]];
    }
  }

  /** What a branch with an empty value cannot tell apart. */
  ghost predicate Agrees(got: Option<Bytes>, want: Option<Bytes>, storable: bool) {
    got == want || (!storable && got == None && want == Some([]))
  }

  /** Looking a key up in a built trie finds the last value inserted under it. */
  lemma {:induction false} BuildLookup(es: seq<Entry>, depth: nat, key: Bytes)
    requires Deep(es, depth) && AllNibbles(es) && IsNibbles(key) && Shared(es, key, depth)
    ensures WellFormed(Build(es, depth))
    ensures Agrees(Get(Build(es, depth), key[depth..]), LastValue(es, key), Storable(es))
    decreases MaxLen(es) - depth
  {
    BuildWellFormed(es, depth);
    if |es| == 0 {
    } else if |es| == 1 {
      LookupLeaf(es, depth, key);
    } else {
      CommonLenShared(es, depth);
      if CommonLen(es, depth) > 0 {
        LookupExtension(es, depth, key);
      } else {
        LookupBranch(es, depth, key);
      }
    }
  }

  lemma LookupLeaf(es: seq<Entry>, depth: nat, key: Bytes)
    requires |es| == 1 && Deep(es, depth) && AllNibbles(es) && IsNibbles(key) && Shared(es, key, depth)
    requires WellFormed(Build(es, depth))
    ensures Get(Build(es, depth), key[depth..]) == LastValue(es, key)
  {
    assert es[0] in es;
    SameTail(es[0].key, key, depth);
    assert Build(es, depth) == Leaf(es[0].key[depth..], es[0].value);
    hide Build;
    assert es[..0] == [];
  }

  lemma SameTail(k: Bytes, key: Bytes, depth: nat)
    requires depth <= |k| && depth <= |key| && k[..depth] == key[..depth]
    ensures k[depth..] == key[depth..] <==> k == key
  {
    assert k == k[..depth] + k[depth..];
    assert key == key[..depth] + key[depth..];
  }

  lemma {:induction false} LookupExtension(es: seq<Entry>, depth: nat, key: Bytes)
    requires |es| > 1 && Deep(es, depth) && AllNibbles(es) && IsNibbles(key) && Shared(es, key, depth)
    requires CommonLen(es, depth) > 0 && WellFormed(Build(es, depth))
    ensures Agrees(Get(Build(es, depth), key[depth..]), LastValue(es, key), Storable(es))
    decreases MaxLen(es) - depth, 0
  {
    assert es[0] in es;
    CommonLenShared(es, depth);
    var c := CommonLen(es, depth);
    var path := es[0].key[depth..depth + c];
    if path <= key[depth..] {
      SharedFurther(es, depth, c, key);
      BuildLookup(es, depth + c, key);
      assert key[depth..][c..] == key[depth + c..];
    } else {
      KeyMissing(es, depth, c, key);
    }
  }

  lemma SharedFurther(es: seq<Entry>, depth: nat, c: nat, key: Bytes)
    requires es != [] && Shared(es, key, depth) && Deep(es, depth + c) && depth + c <= |es[0].key|
    requires forall e :: e in es ==> depth + c <= |e.key| && e.key[depth..depth + c] == es[0].key[depth..depth + c]
    requires es[0].key[depth..depth + c] <= key[depth..]
    ensures Shared(es, key, depth + c)
  {
    assert key[depth..depth + c] == es[0].key[depth..depth + c];
    forall e | e in es
      ensures e.key[..depth + c] == key[..depth + c]
    {
      assert e.key[..depth + c] == e.key[..depth] + e.key[depth..depth + c];
      assert key[..depth + c] == key[..depth] + key[depth..depth + c];
    }
  }

  lemma KeyMissing(es: seq<Entry>, depth: nat, c: nat, key: Bytes)
    requires es != [] && depth <= |key| && depth + c <= |es[0].key|
    requires forall e :: e in es ==> depth + c <= |e.key| && e.key[depth..depth + c] == es[0].key[depth..depth + c]
    requires !(es[0].key[depth..depth + c] <= key[depth..])
    ensures LastValue(es, key) == None
  {
    LastValueIn(es, key);
    forall e | e in es
      ensures e.key != key
    {
      assert e.key[depth..depth + c] <= e.key[depth..];
    }
  }

  lemma {:induction false} LookupBranch(es: seq<Entry>, depth: nat, key: Bytes)
    requires |es| > 1 && Deep(es, depth) && AllNibbles(es) && IsNibbles(key) && Shared(es, key, depth)
    requires CommonLen(es, depth) == 0 && WellFormed(Build(es, depth))
    ensures Agrees(Get(Build(es, depth), key[depth..]), LastValue(es, key), Storable(es))
    decreases MaxLen(es) - depth, 0
  {
    var branch := Build(es, depth);
    if depth == |key| {
      ValueAtLastValue(es, key);
      LastValueIn(es, key);
      if LastValue(es, key) == Some([]) {
        AllExtend(es, key);
      }
    } else {
      var sub := Sub(es, depth, key[depth]);
      SubMaxLen(es, depth, key[depth]);
      SubShared(es, key, depth);
      SubLastValue(es, depth, key);
      assert branch.children[key[depth]] == Build(sub, depth + 1);
      BuildLookup(sub, depth + 1, key);
      assert key[depth..][1..] == key[depth + 1..];
      forall e | e in sub
        ensures Extending(sub, e.key) <= Extending(es, e.key)
      {
        SubExtending(es, depth, key[depth], e.key);
      }
    }
  }
}
