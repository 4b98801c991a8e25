/** Byte strings, 64-bit words and big-endian numbers, shared by every other module. */
module ByteStrings {

  newtype byte = x: int | 0 <= x < 256

  type Bytes = seq<byte>

  type Hash = b: Bytes | |b| == 32 witness seq(32, i => 0 as byte)

  type Address = b: Bytes | |b| == 20 witness seq(20, i => 0 as byte)

  /** Keccak-256 stays uninterpreted: every result below holds for each function of this type. */
  type Hasher = Bytes -> Hash

  datatype Option<+T> = None | Some(value: T)

  datatype Result<+T, +E> = Ok(value: T) | Err(error: E)

  const TWO_63 := 0x8000_0000_0000_0000
  const TWO_64 := 0x1_0000_0000_0000_0000
  const TWO_256 := 0x1_0000000000000000_0000000000000000_0000000000000000_0000000000000000

  type uint64 = n: nat | n < TWO_64

  /** The low 64 bits of a number, by repeated addition or subtraction of 2^64. */
  function Wrap64(n: int): uint64
    decreases if n < 0 then TWO_64 - n else n
  {
    if n < 0 then Wrap64(n + TWO_64)
    else if n >= TWO_64 then Wrap64(n - TWO_64)
    else n
  }

  /** Two's-complement reading of the low 64 bits: what Go's int holds on a 64-bit machine. */
  function Signed64(n: int): int {
    if Wrap64(n) < TWO_63 then Wrap64(n) else Wrap64(n) - TWO_64
  }

  function Concat(parts: seq<Bytes>): Bytes {
    if parts == [] then [] else parts[0] + Concat(parts[1..])
  }

  function Zeros(n: nat): (z: Bytes)
    ensures |z| == n && forall i :: 0 <= i < n ==> z[i] == 0
  {
    seq(n, i => 0 as byte)
  }

  function FromBigEndian(s: Bytes): nat {
    if s == [] then 0 else FromBigEndian(s[..|s| - 1]) * 256 + s[|s| - 1] as nat
  }

  /** The shortest big-endian form; zero is the empty string. */
  function ToBigEndian(n: nat): Bytes {
    if n == 0 then [] else ToBigEndian(n / 256) + [(n % 256) as byte]
  }

  function Pow256(k: nat): (p: nat)
    ensures p > 0
  {
    if k == 0 then 1 else 256 * Pow256(k - 1)
  }

  lemma {:induction false} FromToBigEndian(n: nat)
    ensures FromBigEndian(ToBigEndian(n)) == n
  {
    if n != 0 {
      FromToBigEndian(n / 256);
      var s := ToBigEndian(n);
      assert s[..|s| - 1] == ToBigEndian(n / 256);
    }
  }

  lemma {:induction false} ToBigEndianHead(n: nat)
    requires n > 0
    ensures ToBigEndian(n) != [] && ToBigEndian(n)[0] != 0
  {
    if n >= 256 {
      ToBigEndianHead(n / 256);
    }
  }

  lemma {:induction false} FromBigEndianPositive(s: Bytes)
    requires s != [] && s[0] != 0
    ensures FromBigEndian(s) > 0
  {
    if |s| > 1 {
      FromBigEndianPositive(s[..|s| - 1]);
    }
  }

  /** A string without a leading zero is the shortest form of its number. */
  lemma {:induction false} ToFromBigEndian(s: Bytes)
    requires s == [] || s[0] != 0
    ensures ToBigEndian(FromBigEndian(s)) == s
  {
    if s != [] {
      FromBigEndianPositive(s);
      var front := s[..|s| - 1];
      ToFromBigEndian(front);
      var n := FromBigEndian(s);
      assert n / 256 == FromBigEndian(front) && n % 256 == s[|s| - 1] as nat;
      assert s == front + [s[|s| - 1]];
    }
  }

  lemma {:induction false} FromBigEndianBound(s: Bytes)
    ensures FromBigEndian(s) < Pow256(|s|)
  {
    if s != [] {
      FromBigEndianBound(s[..|s| - 1]);
    }
  }

  lemma {:induction false} ToBigEndianLength(n: nat, k: nat)
    ensures |ToBigEndian(n)| <= k <==> n < Pow256(k)
  {
    if n == 0 {
    } else if k == 0 {
    } else {
      ToBigEndianLength(n / 256, k - 1);
    }
  }

  lemma Pow256Values()
    ensures Pow256(8) == TWO_64
    ensures Pow256(32) == TWO_256
  {
    Pow256Add(8, 8);
    assert Pow256(8) == TWO_64 by {
      assert Pow256(4) == 0x1_0000_0000;
      assert Pow256(8) == 256 * 256 * 256 * 256 * Pow256(4);
    }
    Pow256Add(16, 16);
  }

  lemma {:induction false} Pow256Add(a: nat, b: nat)
    ensures Pow256(a + b) == Pow256(a) * Pow256(b)
  {
    if a != 0 {
      Pow256Add(a - 1, b);
      assert Pow256(a + b) == 256 * (Pow256(a - 1) * Pow256(b));
    }
  }

  /** Leading zeros do not change a big-endian number. */
  lemma {:induction false} LeadingZeros(k: nat, s: Bytes)
    ensures FromBigEndian(Zeros(k) + s) == FromBigEndian(s)
  {
    var t := Zeros(k) + s;
    if s != [] {
      assert t[..|t| - 1] == Zeros(k) + s[..|s| - 1];
      LeadingZeros(k, s[..|s| - 1]);
    } else if k > 0 {
      assert t[..|t| - 1] == Zeros(k - 1) + [];
      LeadingZeros(k - 1, []);
    }
  }

  lemma {:induction false} ConcatAppend(a: seq<Bytes>, b: seq<Bytes>)
    ensures Concat(a + b) == Concat(a) + Concat(b)
  {
    if a == [] {
      assert a + b == b;
    } else {
      assert (a + b)[1..] == a[1..] + b;
      ConcatAppend(a[1..], b);
    }
  }

  lemma {:induction false} Wrap64IsMod(n: int)
    ensures Wrap64(n) == n % TWO_64
    decreases if n < 0 then TWO_64 - n else n
  {
    if n < 0 {
      Wrap64IsMod(n + TWO_64);
      ModPlusMultiple(n, 1);
    } else if n >= TWO_64 {
      Wrap64IsMod(n - TWO_64);
      ModPlusMultiple(n, -1);
    }
  }

  lemma ModPlusMultiple(x: int, q: int)
    ensures (q * TWO_64 + x) % TWO_64 == x % TWO_64
  {
    var d := x / TWO_64;
    assert q * TWO_64 + x == (q + d) * TWO_64 + x % TWO_64;
  }

  /** Shifting in one byte commutes with dropping high bits: the loops of AsUint64 and decodeLength. */
  lemma ShiftWraps(n: int, b: byte)
    ensures Wrap64(Wrap64(n) * 256 + b as int) == Wrap64(n * 256 + b as int)
  {
    Wrap64IsMod(n);
    Wrap64IsMod(Wrap64(n) * 256 + b as int);
    Wrap64IsMod(n * 256 + b as int);
    var q, r := n / TWO_64, n % TWO_64;
    assert n * 256 + b as int == (256 * q) * TWO_64 + (r * 256 + b as int);
    ModPlusMultiple(r * 256 + b as int, 256 * q);
  }

  lemma WrapPlusMultiple(x: int, q: int)
    ensures Wrap64(q * TWO_64 + x) == Wrap64(x)
  {
    Wrap64IsMod(x);
    Wrap64IsMod(q * TWO_64 + x);
    ModPlusMultiple(x, q);
  }

  lemma {:induction false} Pow256Monotone(a: nat, b: nat)
    requires a <= b
    ensures Pow256(a) <= Pow256(b)
  {
    if a < b {
      Pow256Monotone(a, b - 1);
    }
  }

  lemma Fits64(n: nat)
    ensures |ToBigEndian(n)| <= 8 <==> n < TWO_64
  {
    ToBigEndianLength(n, 8);
    Pow256Values();
  }

  lemma Fits256(n: nat)
    ensures |ToBigEndian(n)| <= 32 <==> n < TWO_256
  {
    ToBigEndianLength(n, 32);
    Pow256Values();
  }

  lemma Below64(s: Bytes)
    requires |s| <= 8
    ensures FromBigEndian(s) < TWO_64
  {
    FromBigEndianBound(s);
    Pow256Monotone(|s|, 8);
    Pow256Values();
  }

  lemma Below256(s: Bytes)
    requires |s| <= 32
    ensures FromBigEndian(s) < TWO_256
  {
    FromBigEndianBound(s);
    Pow256Monotone(|s|, 32);
    Pow256Values();
  }
}
