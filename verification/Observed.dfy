/** The observed-deposit log of one block height: 34-byte entries, one after the other. */
module Observed {
  import opened ByteStrings

  const ENTRY_SIZE := 34

  /** A credited deposit: transaction or receipt hash, and a 16-bit index. */
  datatype Mark = Mark(hash: Hash, index: nat)

  predicate ValidMark(m: Mark) {
    m.index < 0x1_0000
  }

  function MakeEntry(m: Mark): (r: Bytes)
    requires ValidMark(m)
    ensures |r| == ENTRY_SIZE
  {
    m.hash + [(m.index / 256) as byte, (m.index % 256) as byte]
  }

  /** The bytes stored for a list of marks. */
  function Entries(marks: seq<Mark>): (r: Bytes)
    requires forall m :: m in marks ==> ValidMark(m)
    ensures |r| == ENTRY_SIZE * |marks|
  {
    if marks == [] then [] else Entries(marks[..|marks| - 1]) + MakeEntry(marks[|marks| - 1])
  }

  /** Some whole entry of the stored bytes is the given one. */
  predicate HasEntry(data: Bytes, entry: Bytes)
    requires |entry| == ENTRY_SIZE
  {
    exists k :: 0 <= k < |data| && EntryAt(data, k, entry)
  }

  predicate EntryAt(data: Bytes, k: nat, entry: Bytes)
    requires |entry| == ENTRY_SIZE
  {
    ENTRY_SIZE * (k + 1) <= |data| && data[ENTRY_SIZE * k..ENTRY_SIZE * (k + 1)] == entry
  }

  // ----- The program's loops -----

  method IsObserved(data: Option<Bytes>, m: Mark) returns (found: bool)
    requires ValidMark(m)
    ensures found <==> data.Some? && HasEntry(data.value, MakeEntry(m))
  {
    if data.None? {
      return false;
    }
    var entries, entry := data.value, MakeEntry(m);
    var i := 0;
    ghost var k := 0;
    while i + ENTRY_SIZE <= |entries|
      invariant i == ENTRY_SIZE * k && 0 <= k
      invariant forall n: nat :: n < k ==> !EntryAt(entries, n, entry)
    {
      var matches := EqualAt(entries, i, entry);
      if matches {
        assert EntryAt(entries, k, entry);
        return true;
      }
      i := i + ENTRY_SIZE;
      k := k + 1;
    }
    return false;
  }

  method EqualAt(entries: Bytes, i: nat, entry: Bytes) returns (matches: bool)
    requires |entry| == ENTRY_SIZE && i + ENTRY_SIZE <= |entries|
    ensures matches <==> entries[i..i + ENTRY_SIZE] == entry
  {
    for j := 0 to ENTRY_SIZE
      invariant forall n :: 0 <= n < j ==> entries[i + n] == entry[n]
    {
      if entries[i + j] != entry[j] {
        assert entries[i..i + ENTRY_SIZE][j] != entry[j];
        return false;
      }
    }
    return true;
  }

  method MarkObserved(existing: Option<Bytes>, m: Mark) returns (data: Bytes)
    requires ValidMark(m)
    ensures data == (if existing.Some? then existing.value else []) + MakeEntry(m)
  {
    var entry := new byte[ENTRY_SIZE](i => 0);
    for i := 0 to 32
      invariant forall j :: 0 <= j < i ==> entry[j] == m.hash[j]
    {
      entry[i] := m.hash[i];
    }
    entry[32] := (m.index / 256) as byte;
    entry[33] := (m.index % 256) as byte;
    assert entry[..] == MakeEntry(m);
    data := if existing.Some? then existing.value + entry[..] else entry[..];
    assert [] + MakeEntry(m) == MakeEntry(m);
  }

  // ----- Refinement -----

  lemma MakeEntryInjective(a: Mark, b: Mark)
    requires ValidMark(a) && ValidMark(b) && MakeEntry(a) == MakeEntry(b)
    ensures a == b
  {
    var x, y := MakeEntry(a), MakeEntry(b);
    assert x[..32] == a.hash && y[..32] == b.hash;
    assert x[32] as int * 256 + x[33] as int == a.index;
    assert y[32] as int * 256 + y[33] as int == b.index;
  }

  lemma {:induction false} EntryOfMarks(marks: seq<Mark>, k: nat)
    requires forall m :: m in marks ==> ValidMark(m)
    requires k < |marks|
    ensures EntryAt(Entries(marks), k, MakeEntry(marks[k]))
  {
    hide MakeEntry;
    var front, last := marks[..|marks| - 1], marks[|marks| - 1];
    var data := Entries(marks);
    if k < |front| {
      EntryOfMarks(front, k);
      assert data[ENTRY_SIZE * k..ENTRY_SIZE * (k + 1)] == Entries(front)[ENTRY_SIZE * k..ENTRY_SIZE * (k + 1)];
    }
  }

  /** On bytes written by MarkObserved, the scan decides membership in the list of marks. */
  lemma ScanIsMembership(marks: seq<Mark>, m: Mark)
    requires ValidMark(m) && forall n :: n in marks ==> ValidMark(n)
    ensures HasEntry(Entries(marks), MakeEntry(m)) <==> m in marks
  {
    hide Entries, MakeEntry;
    if m in marks {
      var k :| 0 <= k < |marks| && marks[k] == m;
      EntryOfMarks(marks, k);
    }
    if HasEntry(Entries(marks), MakeEntry(m)) {
      var k :| 0 <= k < |Entries(marks)| && EntryAt(Entries(marks), k, MakeEntry(m));
      EntryOfMarks(marks, k);
      MakeEntryInjective(marks[k], m);
    }
  }
}
