/**
 * The other side of a version 2 pack index (gitformat-pack(5), "Version 2
 * pack-*.idx files"): an index as it is written, and what the search in
 * gitstate/object.go finds there.
 */
module GitIndexWriter {
  import opened Bytes
  import opened GitIndex

  /** An object of the pack: its name, the CRC of its packed bytes, where it starts. */
  datatype Record = Record(name: seq<byte>, crc: seq<byte>, offset: nat)

  /** a comes before b: at the first byte where they differ, a has the smaller one. */
  ghost predicate Before(a: seq<byte>, b: seq<byte>)
  {
    exists k: nat :: k < |a| && k < |b| && a[..k] == b[..k] && a[k] < b[k]
  }

  ghost predicate Sorted(rs: seq<Record>)
  {
    forall i: nat, j: nat :: i < j < |rs| ==> Before(rs[i].name, rs[j].name)
  }

  ghost predicate Sized(rs: seq<Record>)
  {
    forall i :: 0 <= i < |rs| ==> |rs[i].name| == 20 && |rs[i].crc| == 4 && rs[i].offset < 0x8000_0000_0000_0000
  }

  /** What a version 2 index can hold. */
  ghost predicate Indexable(rs: seq<Record>)
  {
    Sized(rs) && Sorted(rs) && |rs| < 0x1_0000_0000 && |Larges(rs)| <= 0x8000_0000
  }

  /** The offsets that need more than 31 bits, in order. */
  ghost function Larges(rs: seq<Record>): seq<nat>
  {
    if rs == [] then []
    else Larges(rs[..|rs| - 1]) + if rs[|rs| - 1].offset < 0x8000_0000 then [] else [rs[|rs| - 1].offset]
  }

  /** How many names start with a byte up to b. */
  ghost function UpTo(rs: seq<Record>, b: nat): (n: nat)
    requires Sized(rs)
    ensures n <= |rs|
  {
    if rs == [] then 0 else UpTo(rs[..|rs| - 1], b) + if rs[|rs| - 1].name[0] <= b then 1 else 0
  }

  ghost function Slot(rs: seq<Record>, i: nat): nat
    requires i < |rs|
  {
    if rs[i].offset < 0x8000_0000 then rs[i].offset else 0x8000_0000 + |Larges(rs[..i])|
  }

  lemma {:induction false} LargeAt(rs: seq<Record>, i: nat)
    requires i < |rs| && rs[i].offset >= 0x8000_0000
    ensures |Larges(rs[..i])| < |Larges(rs)| && Larges(rs)[|Larges(rs[..i])|] == rs[i].offset
    decreases |rs|
  {
    if i < |rs| - 1 {
      assert rs[..|rs| - 1][..i] == rs[..i];
      LargeAt(rs[..|rs| - 1], i);
    }
  }

  lemma {:induction false} LargesAreOffsets(rs: seq<Record>)
    requires Sized(rs)
    ensures forall j :: 0 <= j < |Larges(rs)| ==> Larges(rs)[j] < 0x8000_0000_0000_0000
  {
    if rs != [] { LargesAreOffsets(rs[..|rs| - 1]); }
  }

  lemma {:induction false} BeforeCompares(a: seq<byte>, b: seq<byte>, k: nat)
    requires k < |a| && k < |b| && a[..k] == b[..k] && a[k] < b[k]
    ensures Compare(a, b) < 0
    decreases k
  {
    if k > 0 {
      assert a[0] == a[..k][0] && b[0] == b[..k][0];
      assert a[1..][..k - 1] == a[..k][1..] && b[1..][..k - 1] == b[..k][1..];
      BeforeCompares(a[1..], b[1..], k - 1);
    }
  }

  lemma BeforeHeads(a: seq<byte>, b: seq<byte>)
    requires Before(a, b)
    ensures a[0] <= b[0]
  {
    var k: nat :| k < |a| && k < |b| && a[..k] == b[..k] && a[k] < b[k];
    if k > 0 { assert a[0] == a[..k][0] && b[0] == b[..k][0]; }
  }

  lemma {:induction false} UpToGrows(rs: seq<Record>, b: nat, c: nat)
    requires Sized(rs) && b <= c
    ensures UpTo(rs, b) <= UpTo(rs, c)
  {
    if rs != [] { UpToGrows(rs[..|rs| - 1], b, c); }
  }

  lemma {:induction false} UpToAll(rs: seq<Record>)
    requires Sized(rs)
    ensures UpTo(rs, 255) == |rs|
  {
    if rs != [] { UpToAll(rs[..|rs| - 1]); }
  }

  lemma {:induction false} UpToAt(rs: seq<Record>, b: nat, i: nat)
    requires Sized(rs) && Sorted(rs) && i < |rs|
    ensures i < UpTo(rs, b) <==> rs[i].name[0] <= b
  {
    var n := |rs| - 1;
    assert forall j :: 0 <= j < n ==> rs[..n][j] == rs[j];
    if i < n {
      UpToAt(rs[..n], b, i);
      BeforeHeads(rs[i].name, rs[n].name);
    } else if n > 0 {
      UpToAt(rs[..n], b, n - 1);
      BeforeHeads(rs[n - 1].name, rs[n].name);
      assert UpTo(rs[..n], b) <= n;
    }
  }

  // The file

  function PutUint64(n: nat): (b: seq<byte>)
    requires n < TwoTo64
    ensures |b| == 8 && Uint64(b) == n
  {
    var b := PutUint32(n / TwoTo32) + PutUint32(n % TwoTo32);
    assert b[..4] == PutUint32(n / TwoTo32) && b[4..] == PutUint32(n % TwoTo32);
    b
  }

  ghost predicate Wide(rows: seq<seq<byte>>, k: nat) { forall i :: 0 <= i < |rows| ==> |rows[i]| == k }

  /** Where the i-th row starts. */
  ghost function RowStart(k: nat, i: nat): nat { if i == 0 then 0 else RowStart(k, i - 1) + k }

  lemma {:induction false} RowStartIs(k: nat, i: nat)
    ensures RowStart(k, i) == k * i
  {
    if i > 0 { RowStartIs(k, i - 1); }
  }

  lemma {:induction false} TableLength(rows: seq<seq<byte>>, k: nat)
    requires Wide(rows, k)
    ensures |Flatten(rows)| == RowStart(k, |rows|)
  {
    if rows != [] { TableLength(rows[..|rows| - 1], k); }
  }

  lemma Within(before: seq<byte>, t: seq<byte>, after: seq<byte>, from: nat, to: nat)
    requires from <= to <= |t|
    ensures (before + (t + after))[|before| + from..|before| + to] == t[from..to]
  {
  }

  lemma {:induction false} TableRow(rows: seq<seq<byte>>, k: nat, i: nat)
    requires Wide(rows, k) && i < |rows|
    ensures var at := RowStart(k, i);
      at + k <= |Flatten(rows)| && Flatten(rows)[at..at + k] == rows[i]
    decreases |rows|
  {
    var front, last := rows[..|rows| - 1], rows[|rows| - 1];
    TableLength(front, k);
    assert |last| == k;
    if i < |rows| - 1 {
      TableRow(front, k, i);
      Within([], Flatten(front), last, RowStart(k, i), RowStart(k, i) + k);
    } else {
      Within(Flatten(front), last, [], 0, k);
      assert last[0..k] == last && last + [] == last;
    }
  }

  /** The table stands in f at pos, before other parts. */
  ghost predicate Stands(f: File, pos: nat, rows: seq<seq<byte>>, after: seq<byte>)
  {
    pos <= |f| && f == f[..pos] + (Flatten(rows) + after)
  }

  lemma HasPart(f: File, pos: nat, t: seq<byte>, from: nat, row: seq<byte>)
    requires Has(f, pos, t) && from + |row| <= |t| && t[from..from + |row|] == row
    ensures Has(f, pos + from, row)
  {
    forall i | 0 <= i < |row| ensures row[i] == f[pos + from + i] {
      assert row[i] == t[from + i] == f[pos + (from + i)];
    }
  }

  lemma HasUint32(f: File, pos: nat, row: seq<byte>)
    requires Has(f, pos, row) && |row| == 4
    ensures Uint32At(f, pos) == Uint32(row)
  {
    assert f[pos..pos + 4] == row;
  }

  lemma RowHas(f: File, pos: nat, rows: seq<seq<byte>>, k: nat, i: nat, at: nat)
    requires Has(f, pos, Flatten(rows)) && Wide(rows, k) && i < |rows| && at == pos + k * i
    ensures Has(f, at, rows[i])
  {
    RowStartIs(k, i);
    TableRow(rows, k, i);
    HasPart(f, pos, Flatten(rows), RowStart(k, i), rows[i]);
  }

  lemma StandsHas(f: File, pos: nat, rows: seq<seq<byte>>, after: seq<byte>)
    requires Stands(f, pos, rows, after)
    ensures Has(f, pos, Flatten(rows)) && pos + |Flatten(rows)| + |after| == |f|
  {
  }

  lemma NextStands(f: File, pos: nat, rows: seq<seq<byte>>, rows': seq<seq<byte>>, after: seq<byte>, k: nat)
    requires Stands(f, pos, rows, Flatten(rows') + after) && Wide(rows, k)
    ensures Stands(f, pos + RowStart(k, |rows|), rows', after)
  {
    TableLength(rows, k);
    ConcatAssoc(f[..pos], Flatten(rows), Flatten(rows') + after);
    assert f[..pos + RowStart(k, |rows|)] == f[..pos] + Flatten(rows);
  }

  ghost function Fans(rs: seq<Record>): seq<seq<byte>>
    requires Sized(rs) && |rs| < 0x1_0000_0000
  {
    seq(256, b requires 0 <= b < 256 => PutUint32(UpTo(rs, b)))
  }

  ghost function Names(rs: seq<Record>): seq<seq<byte>>
  {
    seq(|rs|, i requires 0 <= i < |rs| => rs[i].name)
  }

  ghost function Checks(rs: seq<Record>): seq<seq<byte>>
  {
    seq(|rs|, i requires 0 <= i < |rs| => rs[i].crc)
  }

  lemma SlotFits(rs: seq<Record>, i: nat)
    requires Indexable(rs) && i < |rs|
    ensures Slot(rs, i) < 0x1_0000_0000
  {
    if rs[i].offset >= 0x8000_0000 { LargeAt(rs, i); }
  }

  ghost function SlotRow(rs: seq<Record>, i: nat): (row: seq<byte>)
    requires Indexable(rs) && i < |rs|
    ensures |row| == 4 && Uint32(row) == Slot(rs, i)
  {
    SlotFits(rs, i);
    PutUint32(Slot(rs, i))
  }

  ghost function Slots(rs: seq<Record>): (rows: seq<seq<byte>>)
    requires Indexable(rs)
    ensures |rows| == |rs| && Wide(rows, 4)
  {
    seq(|rs|, i requires 0 <= i < |rs| => SlotRow(rs, i))
  }

  ghost function LargeRow(rs: seq<Record>, j: nat): (row: seq<byte>)
    requires Sized(rs) && j < |Larges(rs)|
    ensures |row| == 8 && Uint64(row) == Larges(rs)[j]
  {
    LargesAreOffsets(rs);
    PutUint64(Larges(rs)[j])
  }

  ghost function LargeRows(rs: seq<Record>): (rows: seq<seq<byte>>)
    requires Sized(rs)
    ensures |rows| == |Larges(rs)| && Wide(rows, 8)
  {
    seq(|Larges(rs)|, j requires 0 <= j < |Larges(rs)| => LargeRow(rs, j))
  }

  const Header: seq<byte> := [0xff, 0x74, 0x4f, 0x63, 0, 0, 0, 2]

  ghost function FromLarges(rs: seq<Record>, sums: seq<byte>): seq<byte>
    requires Indexable(rs)
  {
    Flatten(LargeRows(rs)) + sums
  }

  ghost function FromSlots(rs: seq<Record>, sums: seq<byte>): seq<byte>
    requires Indexable(rs)
  {
    Flatten(Slots(rs)) + FromLarges(rs, sums)
  }

  ghost function FromChecks(rs: seq<Record>, sums: seq<byte>): seq<byte>
    requires Indexable(rs)
  {
    Flatten(Checks(rs)) + FromSlots(rs, sums)
  }

  ghost function FromNames(rs: seq<Record>, sums: seq<byte>): seq<byte>
    requires Indexable(rs)
  {
    Flatten(Names(rs)) + FromChecks(rs, sums)
  }

  /** The index of rs; sums: the checksums of the pack and of the index. */
  ghost function Written(rs: seq<Record>, sums: seq<byte>): File
    requires Indexable(rs)
  {
    Header + (Flatten(Fans(rs)) + FromNames(rs, sums))
  }

  lemma FansStand(rs: seq<Record>, sums: seq<byte>)
    requires Indexable(rs)
    ensures Written(rs, sums)[..8] == Header && Stands(Written(rs, sums), 8, Fans(rs), FromNames(rs, sums))
  {
  }

  lemma NamesStand(rs: seq<Record>, sums: seq<byte>)
    requires Indexable(rs)
    ensures Stands(Written(rs, sums), 1032, Names(rs), FromChecks(rs, sums))
  {
    FansStand(rs, sums);
    RowStartIs(4, 256);
    NextStands(Written(rs, sums), 8, Fans(rs), Names(rs), FromChecks(rs, sums), 4);
  }

  lemma SlotsStand(rs: seq<Record>, sums: seq<byte>)
    requires Indexable(rs)
    ensures Stands(Written(rs, sums), 1032 + 24 * |rs|, Slots(rs), FromLarges(rs, sums))
  {
    NamesStand(rs, sums);
    RowStartIs(20, |rs|);
    RowStartIs(4, |rs|);
    NextStands(Written(rs, sums), 1032, Names(rs), Checks(rs), FromSlots(rs, sums), 20);
    NextStands(Written(rs, sums), 1032 + 20 * |rs|, Checks(rs), Slots(rs), FromLarges(rs, sums), 4);
  }

  lemma FansHeld(rs: seq<Record>, sums: seq<byte>)
    requires Indexable(rs)
    ensures Has(Written(rs, sums), 0, Header) && Has(Written(rs, sums), 8, Flatten(Fans(rs)))
  {
    FansStand(rs, sums);
    StandsHas(Written(rs, sums), 8, Fans(rs), FromNames(rs, sums));
  }

  lemma NamesHeld(rs: seq<Record>, sums: seq<byte>)
    requires Indexable(rs)
    ensures |Written(rs, sums)| >= 1032 && Has(Written(rs, sums), 1032, Flatten(Names(rs)))
  {
    NamesStand(rs, sums);
    StandsHas(Written(rs, sums), 1032, Names(rs), FromChecks(rs, sums));
  }

  lemma SlotsHeld(rs: seq<Record>, sums: seq<byte>)
    requires Indexable(rs)
    ensures Has(Written(rs, sums), 1032 + 24 * |rs|, Flatten(Slots(rs)))
  {
    SlotsStand(rs, sums);
    StandsHas(Written(rs, sums), 1032 + 24 * |rs|, Slots(rs), FromLarges(rs, sums));
  }

  lemma LargesHeld(rs: seq<Record>, sums: seq<byte>)
    requires Indexable(rs)
    ensures Has(Written(rs, sums), 1032 + 28 * |rs|, Flatten(LargeRows(rs)))
    ensures |Written(rs, sums)| == 1032 + 28 * |rs| + 8 * |Larges(rs)| + |sums|
  {
    SlotsStand(rs, sums);
    RowStartIs(4, |rs|);
    RowStartIs(8, |Larges(rs)|);
    NextStands(Written(rs, sums), 1032 + 24 * |rs|, Slots(rs), LargeRows(rs), sums, 4);
    StandsHas(Written(rs, sums), 1032 + 28 * |rs|, LargeRows(rs), sums);
    TableLength(LargeRows(rs), 8);
  }

  lemma HeaderReads(f: File)
    requires |f| >= 1032 && Has(f, 0, Header)
    ensures Uint32At(f, 0) == 0xff744f63 && Uint32At(f, 4) == 2
  {
    var h := Header;
    assert f[0..4] == [h[0], h[1], h[2], h[3]] && f[4..8] == [h[4], h[5], h[6], h[7]];
  }

  lemma FanRow(rs: seq<Record>, b: nat)
    requires Sized(rs) && |rs| < 0x1_0000_0000 && b < 256
    ensures |Fans(rs)| == 256 && Wide(Fans(rs), 4) && Uint32(Fans(rs)[b]) == UpTo(rs, b)
  {
    assert Fans(rs)[b] == PutUint32(UpTo(rs, b));
  }

  lemma FanHeld(rs: seq<Record>, sums: seq<byte>, b: nat)
    requires Indexable(rs) && b < 256
    ensures |Fans(rs)| == 256 && Has(Written(rs, sums), 8 + 4 * b, Fans(rs)[b])
  {
    FansHeld(rs, sums);
    RowHas(Written(rs, sums), 8, Fans(rs), 4, b, 8 + 4 * b);
  }

  lemma FanReads(rs: seq<Record>, sums: seq<byte>, b: nat)
    requires Indexable(rs) && b < 256
    ensures |Written(rs, sums)| >= 1032 && FanoutAt(Written(rs, sums), b) == UpTo(rs, b)
  {
    NamesHeld(rs, sums);
    FanHeld(rs, sums, b);
    FanRow(rs, b);
    HasUint32(Written(rs, sums), 8 + 4 * b, Fans(rs)[b]);
  }

  lemma WrittenMonotone(rs: seq<Record>, sums: seq<byte>)
    requires Indexable(rs)
    ensures |Written(rs, sums)| >= 1032 && Monotone(Written(rs, sums))
  {
    FanReads(rs, sums, 0);
    forall b, c | 0 <= b <= c < 256 ensures FanoutAt(Written(rs, sums), b) <= FanoutAt(Written(rs, sums), c) {
      FanReads(rs, sums, b);
      FanReads(rs, sums, c);
      UpToGrows(rs, b, c);
    }
  }

  lemma WrittenTotal(rs: seq<Record>, sums: seq<byte>)
    requires Indexable(rs)
    ensures |Written(rs, sums)| >= 1032 && Total(Written(rs, sums)) == |rs|
  {
    FanReads(rs, sums, 255);
    UpToAll(rs);
  }

  /** The parts of a version 2 index with n objects, m of them far. */
  lemma AcceptedBy(f: File, n: nat, m: nat)
    requires |f| == 1032 + 28 * n + 8 * m + 40 && Has(f, 0, Header) && Monotone(f) && Total(f) == n
    ensures Accepts(f)
  {
    HeaderReads(f);
  }

  lemma WrittenAccepted(rs: seq<Record>, sums: seq<byte>)
    requires Indexable(rs) && |sums| == 40
    ensures Accepts(Written(rs, sums)) && Total(Written(rs, sums)) == |rs|
  {
    LargesHeld(rs, sums);
    FansHeld(rs, sums);
    WrittenMonotone(rs, sums);
    WrittenTotal(rs, sums);
    AcceptedBy(Written(rs, sums), |rs|, |Larges(rs)|);
  }

  lemma NameHeld(rs: seq<Record>, sums: seq<byte>, i: nat)
    requires Indexable(rs) && i < |rs|
    ensures Has(Written(rs, sums), 1032 + 20 * i, rs[i].name)
  {
    NamesHeld(rs, sums);
    RowHas(Written(rs, sums), 1032, Names(rs), 20, i, 1032 + 20 * i);
  }

  lemma HasName(f: File, i: nat, name: seq<byte>)
    requires Has(f, 1032 + 20 * i, name) && |name| == 20
    ensures Name(f, i) == name
  {
    assert f[1032 + i * 20..1032 + i * 20 + 20] == name;
  }

  lemma NameReads(rs: seq<Record>, sums: seq<byte>, i: nat)
    requires Indexable(rs) && |sums| == 40 && i < |rs|
    ensures Accepts(Written(rs, sums)) && i < Total(Written(rs, sums)) && Name(Written(rs, sums), i) == rs[i].name
  {
    WrittenAccepted(rs, sums);
    NameHeld(rs, sums, i);
    HasName(Written(rs, sums), i, rs[i].name);
  }

  lemma SlotReads(rs: seq<Record>, sums: seq<byte>, i: nat)
    requires Indexable(rs) && i < |rs|
    ensures Has(Written(rs, sums), 1032 + 24 * |rs| + 4 * i, SlotRow(rs, i))
  {
    SlotsHeld(rs, sums);
    RowHas(Written(rs, sums), 1032 + 24 * |rs|, Slots(rs), 4, i, 1032 + 24 * |rs| + 4 * i);
    assert Slots(rs)[i] == SlotRow(rs, i);
  }

  lemma LargeRowAt(rs: seq<Record>, j: nat)
    requires Sized(rs) && j < |Larges(rs)|
    ensures LargeRows(rs)[j] == LargeRow(rs, j)
  {
  }

  lemma LargeReads(rs: seq<Record>, sums: seq<byte>, j: nat)
    requires Indexable(rs) && j < |Larges(rs)|
    ensures Has(Written(rs, sums), 1032 + 28 * |rs| + 8 * j, LargeRow(rs, j))
  {
    LargesHeld(rs, sums);
    RowHas(Written(rs, sums), 1032 + 28 * |rs|, LargeRows(rs), 8, j, 1032 + 28 * |rs| + 8 * j);
    LargeRowAt(rs, j);
  }

  lemma LargeFits(rs: seq<Record>, sums: seq<byte>, j: nat)
    requires Indexable(rs) && |sums| == 40 && j < |Larges(rs)|
    ensures 1032 + 28 * |rs| + 8 * j + 8 <= |Written(rs, sums)| - 40
  {
    LargesHeld(rs, sums);
  }

  lemma NearEntry(f: File, i: nat, n: nat, slot: seq<byte>)
    requires Accepts(f) && i < Total(f) == n && Has(f, 1032 + 24 * n + 4 * i, slot)
    requires |slot| == 4 && Uint32(slot) < 0x8000_0000
    ensures Entry(f, i) == Found(Uint32(slot))
  {
    HasUint32(f, 1032 + 24 * n + 4 * i, slot);
  }

  lemma FarEntry(f: File, i: nat, n: nat, slot: seq<byte>, j: nat, large: seq<byte>)
    requires Accepts(f) && i < Total(f) == n && Has(f, 1032 + 24 * n + 4 * i, slot)
    requires |slot| == 4 && Uint32(slot) == 0x8000_0000 + j
    requires 1032 + 28 * n + 8 * j + 8 <= |f| - 40 && Has(f, 1032 + 28 * n + 8 * j, large)
    requires |large| == 8 && Uint64(large) < 0x8000_0000_0000_0000
    ensures Entry(f, i) == Found(Uint64(large))
  {
    HasUint32(f, 1032 + 24 * n + 4 * i, slot);
    assert f[1032 + 28 * n + 8 * j..1032 + 28 * n + 8 * j + 8] == large;
  }

  lemma NearSlot(rs: seq<Record>, i: nat)
    requires Indexable(rs) && i < |rs| && rs[i].offset < 0x8000_0000
    ensures |SlotRow(rs, i)| == 4 && Uint32(SlotRow(rs, i)) == rs[i].offset
  {
  }

  lemma NearReads(rs: seq<Record>, sums: seq<byte>, i: nat)
    requires Indexable(rs) && |sums| == 40 && i < |rs| && rs[i].offset < 0x8000_0000
    ensures Accepts(Written(rs, sums)) && i < Total(Written(rs, sums)) && Entry(Written(rs, sums), i) == Found(rs[i].offset)
  {
    WrittenAccepted(rs, sums);
    SlotReads(rs, sums, i);
    NearSlot(rs, i);
    NearEntry(Written(rs, sums), i, |rs|, SlotRow(rs, i));
  }

  lemma FarValues(rs: seq<Record>, i: nat) returns (j: nat)
    requires Indexable(rs) && i < |rs| && rs[i].offset >= 0x8000_0000
    ensures j < |Larges(rs)| && Uint64(LargeRow(rs, j)) == rs[i].offset < 0x8000_0000_0000_0000
    ensures Uint32(SlotRow(rs, i)) == 0x8000_0000 + j
  {
    LargeAt(rs, i);
    j := |Larges(rs[..i])|;
  }

  lemma FarReads(rs: seq<Record>, sums: seq<byte>, i: nat)
    requires Indexable(rs) && |sums| == 40 && i < |rs| && rs[i].offset >= 0x8000_0000
    ensures Accepts(Written(rs, sums)) && i < Total(Written(rs, sums)) && Entry(Written(rs, sums), i) == Found(rs[i].offset)
  {
    var j := FarValues(rs, i);
    WrittenAccepted(rs, sums);
    SlotReads(rs, sums, i);
    LargeReads(rs, sums, j);
    LargeFits(rs, sums, j);
    FarEntry(Written(rs, sums), i, |rs|, SlotRow(rs, i), j, LargeRow(rs, j));
  }

  lemma EntryReads(rs: seq<Record>, sums: seq<byte>, i: nat)
    requires Indexable(rs) && |sums| == 40 && i < |rs|
    ensures Accepts(Written(rs, sums)) && i < Total(Written(rs, sums)) && Entry(Written(rs, sums), i) == Found(rs[i].offset)
  {
    if rs[i].offset < 0x8000_0000 { NearReads(rs, sums, i); } else { FarReads(rs, sums, i); }
  }

  lemma WrittenWellFormed(rs: seq<Record>, sums: seq<byte>)
    requires Indexable(rs) && |sums| == 40
    ensures WellFormed(Written(rs, sums))
  {
    var f := Written(rs, sums);
    WrittenAccepted(rs, sums);
    forall i: nat, j: nat | i < j < Total(f) ensures Compare(Name(f, i), Name(f, j)) < 0 {
      NameReads(rs, sums, i);
      NameReads(rs, sums, j);
      var a, b := rs[i].name, rs[j].name;
      var k: nat :| k < |a| && k < |b| && a[..k] == b[..k] && a[k] < b[k];
      BeforeCompares(a, b, k);
    }
    forall i: nat, b: nat | i < Total(f) && b < 256 ensures i < FanoutAt(f, b) <==> Name(f, i)[0] <= b {
      NameReads(rs, sums, i);
      FanReads(rs, sums, b);
      UpToAt(rs, b, i);
    }
  }

  lemma LookupIsLinear(f: File, want: seq<byte>)
    requires WellFormed(f) && |want| == 20
    ensures LookupAt(f, want) == LinearFrom(f, want, 0)
  {
    BucketBounds(f, want, BucketStart(f, want), FanoutAt(f, want[0]));
    BinaryIsLinear(f, want, BucketStart(f, want), FanoutAt(f, want[0]));
  }

  /** Every object of a written index is found where it starts, near or far. */
  lemma WrittenFound(rs: seq<Record>, sums: seq<byte>, i: nat)
    requires Indexable(rs) && |sums| == 40 && i < |rs|
    ensures LookupAt(Written(rs, sums), rs[i].name) == Found(rs[i].offset)
  {
    WrittenWellFormed(rs, sums);
    NameReads(rs, sums, i);
    EntryReads(rs, sums, i);
    LookupIsLinear(Written(rs, sums), rs[i].name);
    LinearFinds(Written(rs, sums), rs[i].name, 0, i);
  }

  /** Any other name is missing. */
  lemma WrittenMissing(rs: seq<Record>, sums: seq<byte>, want: seq<byte>)
    requires Indexable(rs) && |sums| == 40 && |want| == 20
    requires forall i :: 0 <= i < |rs| ==> rs[i].name != want
    ensures LookupAt(Written(rs, sums), want) == Missing
  {
    WrittenWellFormed(rs, sums);
    var f := Written(rs, sums);
    WrittenAccepted(rs, sums);
    forall k: nat | k < Total(f) ensures Name(f, k) != want { NameReads(rs, sums, k); }
    LookupIsLinear(f, want);
    LinearMisses(f, want, 0);
  }
}
