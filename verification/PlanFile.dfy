/** The plan file: fixed 16-byte little-endian entries, sorted by prefix hash. */
module PlanFile {
  import opened BatchTypes

  newtype uint32 = x: int | 0 <= x < 0x1_0000_0000

  newtype int64 = x: int | -0x8000_0000_0000_0000 <= x < 0x8000_0000_0000_0000

  const ENTRY_SIZE: nat := 16

  datatype PlanEntry = PlanEntry(offset: int64, length: uint32, prefixHash: uint32)

  // ---- little-endian numbers ----

  function Pow256(k: nat): nat {
    if k == 0 then 1 else 256 * Pow256(k - 1)
  }

  function ToLittleEndian(n: nat, k: nat): (b: Bytes)
    ensures |b| == k
  {
    if k == 0 then [] else [(n % 256) as byte] + ToLittleEndian(n / 256, k - 1)
  }

  function FromLittleEndian(b: Bytes): (n: nat)
    ensures n < Pow256(|b|)
  {
    if |b| == 0 then 0 else b[0] as nat + 256 * FromLittleEndian(b[1..])
  }

  lemma {:induction false} NumberRoundTrip(n: nat, k: nat)
    requires n < Pow256(k)
    ensures FromLittleEndian(ToLittleEndian(n, k)) == n
  {
    if k > 0 {
      NumberRoundTrip(n / 256, k - 1);
      var b := ToLittleEndian(n, k);
      assert b[1..] == ToLittleEndian(n / 256, k - 1);
    }
  }

  lemma {:induction false} BytesRoundTrip(b: Bytes)
    ensures ToLittleEndian(FromLittleEndian(b), |b|) == b
  {
    if |b| > 0 {
      BytesRoundTrip(b[1..]);
      var rest := FromLittleEndian(b[1..]);
      assert (b[0] as nat + 256 * rest) / 256 == rest && (b[0] as nat + 256 * rest) % 256 == b[0] as nat;
    }
  }

  lemma Widths()
    ensures Pow256(4) == 0x1_0000_0000 && Pow256(8) == 0x1_0000_0000_0000_0000
  {
    assert Pow256(2) == 65536;
    assert Pow256(3) == 256 * Pow256(2);
    assert Pow256(4) == 256 * Pow256(3);
    assert Pow256(5) == 256 * Pow256(4);
    assert Pow256(6) == 256 * Pow256(5);
    assert Pow256(7) == 256 * Pow256(6);
    assert Pow256(8) == 256 * Pow256(7);
  }

  // ---- entries ----

  /** The unsigned reinterpretation of a signed 64-bit word, and back. */
  function Unsigned(x: int64): nat {
    if x < 0 then (x as int + 0x1_0000_0000_0000_0000) as nat else x as nat
  }

  function Signed(n: nat): int64
    requires n < 0x1_0000_0000_0000_0000
  {
    if n < 0x8000_0000_0000_0000 then n as int64 else (n as int - 0x1_0000_0000_0000_0000) as int64
  }

  function Marshal(e: PlanEntry): (b: Bytes)
    ensures |b| == ENTRY_SIZE
  {
    ToLittleEndian(Unsigned(e.offset), 8) + ToLittleEndian(e.length as nat, 4) + ToLittleEndian(e.prefixHash as nat, 4)
  }

  function Unmarshal(b: Bytes): PlanEntry
    requires |b| == ENTRY_SIZE
  {
    Widths();
    PlanEntry(Signed(FromLittleEndian(b[0..8])), FromLittleEndian(b[8..12]) as uint32,
              FromLittleEndian(b[12..16]) as uint32)
  }

  /** An exact 16-byte round trip, in both directions. */
  lemma EntryRoundTrip(e: PlanEntry)
    ensures Unmarshal(Marshal(e)) == e
  {
    Widths();
    var b := Marshal(e);
    assert b[0..8] == ToLittleEndian(Unsigned(e.offset), 8);
    assert b[8..12] == ToLittleEndian(e.length as nat, 4);
    assert b[12..16] == ToLittleEndian(e.prefixHash as nat, 4);
    NumberRoundTrip(Unsigned(e.offset), 8);
    NumberRoundTrip(e.length as nat, 4);
    NumberRoundTrip(e.prefixHash as nat, 4);
  }

  lemma BufferRoundTrip(b: Bytes)
    requires |b| == ENTRY_SIZE
    ensures Marshal(Unmarshal(b)) == b
  {
    Widths();
    BytesRoundTrip(b[0..8]);
    BytesRoundTrip(b[8..12]);
    BytesRoundTrip(b[12..16]);
    assert b == b[0..8] + b[8..12] + b[12..16];
  }

  lemma FourBytes(b: Bytes)
    requires |b| == 4
    ensures FromLittleEndian(b) == b[0] as nat + 256 * (b[1] as nat + 256 * (b[2] as nat + 256 * b[3] as nat))
  {
    assert b[1..][1..] == b[2..] && b[2..][1..] == b[3..] && b[3..][1..] == [];
    assert FromLittleEndian(b[3..]) == b[3] as nat;
    assert FromLittleEndian(b[2..]) == b[2] as nat + 256 * FromLittleEndian(b[3..]);
    assert FromLittleEndian(b[1..]) == b[1] as nat + 256 * FromLittleEndian(b[2..]);
  }

  lemma EightBytes(b: Bytes)
    requires |b| == 8
    ensures FromLittleEndian(b) ==
            b[0] as nat + 256 * (b[1] as nat + 256 * (b[2] as nat + 256 * (b[3] as nat + 256 * FromLittleEndian(b[4..]))))
  {
    assert b[1..][1..] == b[2..] && b[2..][1..] == b[3..] && b[3..][1..] == b[4..];
    assert FromLittleEndian(b[3..]) == b[3] as nat + 256 * FromLittleEndian(b[4..]);
    assert FromLittleEndian(b[2..]) == b[2] as nat + 256 * FromLittleEndian(b[3..]);
    assert FromLittleEndian(b[1..]) == b[1] as nat + 256 * FromLittleEndian(b[2..]);
  }

  /** The number that four bytes denote, least significant first. */
  function Word(b0: byte, b1: byte, b2: byte, b3: byte): nat {
    b0 as nat + 256 * (b1 as nat + 256 * (b2 as nat + 256 * b3 as nat))
  }

  /** The layout of an entry: the offset in eight bytes, then the length and the prefix
      hash in four each, all least significant byte first, the offset in two's complement. */
  lemma MarshalLayout(e: PlanEntry)
    ensures var b := Marshal(e);
            && |b| == 16
            && e.length as nat == Word(b[8], b[9], b[10], b[11])
            && e.prefixHash as nat == Word(b[12], b[13], b[14], b[15])
            && var offset := Word(b[0], b[1], b[2], b[3]) + 0x1_0000_0000 * Word(b[4], b[5], b[6], b[7]);
               e.offset as int == if b[7] < 128 then offset else offset - 0x1_0000_0000_0000_0000
  {
    Widths();
    var b := Marshal(e);
    assert b[0..8] == ToLittleEndian(Unsigned(e.offset), 8);
    assert b[8..12] == ToLittleEndian(e.length as nat, 4);
    assert b[12..16] == ToLittleEndian(e.prefixHash as nat, 4);
    NumberRoundTrip(Unsigned(e.offset), 8);
    NumberRoundTrip(e.length as nat, 4);
    NumberRoundTrip(e.prefixHash as nat, 4);
    FourBytes(b[8..12]);
    FourBytes(b[12..16]);
    EightBytes(b[0..8]);
    assert b[0..8][4..] == b[4..8];
    FourBytes(b[4..8]);
  }

  // ---- files ----

  function Encoded(entries: seq<PlanEntry>): Bytes {
    if |entries| == 0 then [] else Marshal(entries[0]) + Encoded(entries[1..])
  }

  lemma {:induction false} EncodedLength(entries: seq<PlanEntry>)
    ensures |Encoded(entries)| == ENTRY_SIZE * |entries|
  {
    if |entries| > 0 {
      EncodedLength(entries[1..]);
    }
  }

  /** Reads a whole plan file: refused unless its size is a multiple of the entry
      size; otherwise exactly the entries whose encoding the file is. */
  method ReadPlanEntries(file: Bytes) returns (r: Option<seq<PlanEntry>>)
    ensures r.Some? <==> |file| % ENTRY_SIZE == 0
    ensures r.Some? ==> Encoded(r.value) == file
  {
    if |file| % ENTRY_SIZE != 0 {
      return None;
    }
    var entries: seq<PlanEntry> := [];
    var pos := 0;
    while pos < |file|
      invariant pos <= |file| && (|file| - pos) % ENTRY_SIZE == 0
      invariant Encoded(entries) == file[..pos]
    {
      var buffer := file[pos..pos + ENTRY_SIZE];
      BufferRoundTrip(buffer);
      EncodedAppend(entries, Unmarshal(buffer));
      entries := entries + [Unmarshal(buffer)];
      assert file[..pos + ENTRY_SIZE] == file[..pos] + buffer;
      pos := pos + ENTRY_SIZE;
    }
    assert file[..pos] == file;
    return Some(entries);
  }

  lemma {:induction false} EncodedAppend(entries: seq<PlanEntry>, e: PlanEntry)
    ensures Encoded(entries + [e]) == Encoded(entries) + Marshal(e)
  {
    if |entries| > 0 {
      EncodedAppend(entries[1..], e);
      assert (entries + [e])[1..] == entries[1..] + [e];
    } else {
      assert (entries + [e])[1..] == [];
    }
  }

  /** Reading back a written plan returns what was written. */
  lemma {:induction false} EncodedInjective(a: seq<PlanEntry>, b: seq<PlanEntry>)
    requires Encoded(a) == Encoded(b)
    ensures a == b
  {
    EncodedLength(a);
    EncodedLength(b);
    if |a| > 0 {
      assert Encoded(a)[..ENTRY_SIZE] == Marshal(a[0]) && Encoded(b)[..ENTRY_SIZE] == Marshal(b[0]);
      EntryRoundTrip(a[0]);
      EntryRoundTrip(b[0]);
      assert Encoded(a)[ENTRY_SIZE..] == Encoded(a[1..]) && Encoded(b)[ENTRY_SIZE..] == Encoded(b[1..]);
      EncodedInjective(a[1..], b[1..]);
      assert a == [a[0]] + a[1..] && b == [b[0]] + b[1..];
    }
  }

  // ---- sorting by prefix hash ----

  predicate SortedByPrefix(entries: seq<PlanEntry>) {
    forall i, j :: 0 <= i < j < |entries| ==> entries[i].prefixHash <= entries[j].prefixHash
  }

  /** Puts e behind every entry that does not sort after it. */
  method Insert(entries: seq<PlanEntry>, e: PlanEntry) returns (r: seq<PlanEntry>)
    requires SortedByPrefix(entries)
    ensures SortedByPrefix(r) && multiset(r) == multiset(entries) + multiset{e}
  {
    var i := |entries|;
    while i > 0 && entries[i - 1].prefixHash > e.prefixHash
      invariant 0 <= i <= |entries|
      invariant forall k :: i <= k < |entries| ==> entries[k].prefixHash > e.prefixHash
    {
      i := i - 1;
    }
    InsertedAt(entries, i, e);
    JoinCounts(entries[..i], e, entries[i..]);
    assert entries[..i] + entries[i..] == entries;
    r := entries[..i] + [e] + entries[i..];
  }

  lemma JoinSorted(before: seq<PlanEntry>, e: PlanEntry, after: seq<PlanEntry>)
    requires SortedByPrefix(before) && SortedByPrefix(after)
    requires forall k :: 0 <= k < |before| ==> before[k].prefixHash <= e.prefixHash
    requires forall k :: 0 <= k < |after| ==> e.prefixHash <= after[k].prefixHash
    ensures SortedByPrefix(before + [e] + after)
  {
    var r, n := before + [e] + after, |before|;
    forall x, y | 0 <= x < y < |r| ensures r[x].prefixHash <= r[y].prefixHash {
      if x < n {
        assert r[x] == before[x];
      } else if x > n {
        assert r[x] == after[x - n - 1];
      }
      if y < n {
        assert r[y] == before[y];
      } else if y > n {
        assert r[y] == after[y - n - 1];
      }
    }
  }

  lemma JoinCounts(before: seq<PlanEntry>, e: PlanEntry, after: seq<PlanEntry>)
    ensures multiset(before + [e] + after) == multiset(before + after) + multiset{e}
  {}

  lemma InsertedAt(entries: seq<PlanEntry>, i: nat, e: PlanEntry)
    requires SortedByPrefix(entries) && i <= |entries|
    requires i > 0 ==> entries[i - 1].prefixHash <= e.prefixHash
    requires i < |entries| ==> e.prefixHash <= entries[i].prefixHash
    ensures SortedByPrefix(entries[..i] + [e] + entries[i..])
  {
    var before, after := entries[..i], entries[i..];
    forall k | 0 <= k < |before| ensures before[k].prefixHash <= e.prefixHash {
      assert before[k] == entries[k] && (k < i - 1 ==> entries[k].prefixHash <= entries[i - 1].prefixHash);
    }
    forall k | 0 <= k < |after| ensures e.prefixHash <= after[k].prefixHash {
      assert after[k] == entries[i + k] && (k > 0 ==> entries[i].prefixHash <= entries[i + k].prefixHash);
    }
    JoinSorted(before, e, after);
  }

  method SortByPrefix(entries: seq<PlanEntry>) returns (r: seq<PlanEntry>)
    ensures SortedByPrefix(r) && multiset(r) == multiset(entries)
  {
    r := [];
    for i := 0 to |entries|
      invariant SortedByPrefix(r) && multiset(r) == multiset(entries[..i])
    {
      assert entries[..i + 1] == entries[..i] + [entries[i]];
      r := Insert(r, entries[i]);
    }
    assert entries[..|entries|] == entries;
  }

  /** Equal hashes are contiguous in a sorted plan. */
  lemma EqualHashesContiguous(entries: seq<PlanEntry>, i: nat, j: nat, k: nat)
    requires SortedByPrefix(entries) && i <= j <= k < |entries|
    requires entries[i].prefixHash == entries[k].prefixHash
    ensures entries[j].prefixHash == entries[i].prefixHash
  {}

  /** Writes one model's plan: sorted by prefix hash, entry by entry. */
  method FinalizePlan(entries: seq<PlanEntry>) returns (file: Bytes, plan: seq<PlanEntry>)
    ensures SortedByPrefix(plan) && multiset(plan) == multiset(entries) && file == Encoded(plan)
  {
    plan := SortByPrefix(entries);
    file := [];
    for i := 0 to |plan|
      invariant file == Encoded(plan[..i])
    {
      EncodedAppend(plan[..i], plan[i]);
      assert plan[..i + 1] == plan[..i] + [plan[i]];
      file := file + Marshal(plan[i]);
    }
    assert plan[..|plan|] == plan;
  }

  /** What is read from a finalized plan file is a permutation of the accumulated
      entries, grouped by prefix hash. */
  method WriteThenRead(entries: seq<PlanEntry>) returns (r: Option<seq<PlanEntry>>)
    ensures r.Some? && multiset(r.value) == multiset(entries) && SortedByPrefix(r.value)
  {
    var file, plan := FinalizePlan(entries);
    EncodedLength(plan);
    r := ReadPlanEntries(file);
    EncodedInjective(r.value, plan);
  }
}
