/**
 JLFS, the log-structured filesystem: on-disk format, mount, the operations as lists of atomic sector writes, and
 what survives a power cut between any two of them.
 */
module Jlfs {
  import opened Wrappers
  import opened Bytes

  const CP_SECTORS: seq<nat> := [1, 2]
  const LOG_START: nat := 8
  const SPILL_SECTORS: nat := 16 * 1024
  const AUDIT_SECTORS: nat := 2048
  const OTA_SLOT_SECTORS: nat := 64
  const OTA_SECTORS: nat := 1 + 2 * OTA_SLOT_SECTORS
  const SB_MAGIC: nat := 0x4A4C_4653_5F53_4230
  const CP_MAGIC: nat := 0x4A4C_4653_5F43_5030
  const MAX_FILES: nat := 8
  const MAX_NAME: nat := 28
  const ENTRY_SIZE: nat := 48
  const ENTRIES_OFF: nat := 32
  const CRC_OFF: nat := SECTOR_SIZE - 4

  // ---- checksums ---------------------------------------------------------------

  function CrcBits(crc: bv32, n: nat): bv32
    decreases n
  {
    if n == 0 then crc
    else CrcBits((crc >> 1) ^ (if crc & 1 == 1 then 0xEDB8_8320 else 0), n - 1)
  }

  function CrcFrom(data: seq<byte>, i: nat, crc: bv32): bv32
    requires i <= |data|
    decreases |data| - i
  {
    if i == |data| then crc else CrcFrom(data, i + 1, CrcBits(crc ^ (data[i] as bv32), 8))
  }

  /** CRC-32 (IEEE), bit by bit. */
  function Crc32(data: seq<byte>): (c: nat)
    ensures c < U32
  {
    (!CrcFrom(data, 0, 0xFFFF_FFFF)) as nat
  }

  function Seal(s: Sector): Sector {
    Put(s, CRC_OFF, Le(Crc32(s[..CRC_OFF]), 4))
  }

  predicate Intact(s: Sector) {
    Crc32(s[..CRC_OFF]) == U32At(s, CRC_OFF)
  }

  /** A sealed sector is intact, and sealing changes nothing before the checksum. */
  lemma SealIntact(s: Sector)
    ensures Intact(Seal(s))
    ensures Seal(s)[..CRC_OFF] == s[..CRC_OFF]
  {
    var c := Crc32(s[..CRC_OFF]);
    Widths();
    LeRoundTrip(c, 4);
    PutSame(s, CRC_OFF, Le(c, 4));
    assert Seal(s)[..CRC_OFF] == s[..CRC_OFF];
  }

  lemma SealKeeps(s: Sector, i: nat, j: nat)
    requires i <= j <= CRC_OFF
    ensures Seal(s)[i..j] == s[i..j]
  {
    PutOther(s, CRC_OFF, Le(Crc32(s[..CRC_OFF]), 4), i, j);
  }

  // ---- names -------------------------------------------------------------------

  predicate Tail(s: seq<byte>, i: nat, lo: byte, hi: byte, more: nat) {
    i + more < |s| && lo <= s[i] <= hi && forall k | i < k <= i + more :: 0x80 <= s[k] <= 0xBF
  }

  /** Well-formed UTF-8 from `i` on. */
  predicate Utf8From(s: seq<byte>, i: nat)
    decreases |s| - i
  {
    if i >= |s| then true
    else
      var b := s[i];
      if b < 0x80 then Utf8From(s, i + 1)
      else if 0xC2 <= b <= 0xDF then Tail(s, i + 1, 0x80, 0xBF, 0) && Utf8From(s, i + 2)
      else if b == 0xE0 then Tail(s, i + 1, 0xA0, 0xBF, 1) && Utf8From(s, i + 3)
      else if b == 0xED then Tail(s, i + 1, 0x80, 0x9F, 1) && Utf8From(s, i + 3)
      else if 0xE1 <= b <= 0xEF then Tail(s, i + 1, 0x80, 0xBF, 1) && Utf8From(s, i + 3)
      else if b == 0xF0 then Tail(s, i + 1, 0x90, 0xBF, 2) && Utf8From(s, i + 4)
      else if b == 0xF4 then Tail(s, i + 1, 0x80, 0x8F, 2) && Utf8From(s, i + 4)
      else 0xF1 <= b <= 0xF3 && Tail(s, i + 1, 0x80, 0xBF, 2) && Utf8From(s, i + 4)
  }

  /** What the language guarantees of a string slice. */
  type Str = s: seq<byte> | Utf8From(s, 0)

  const INVALID: seq<byte> := [60, 105, 110, 118, 97, 108, 105, 100, 62] // "<invalid>"

  function UpToNul(s: seq<byte>): (r: seq<byte>)
    ensures 0 !in r && |r| <= |s| && r == s[..|r|] && (|r| < |s| ==> s[|r|] == 0)
  {
    if s == [] || s[0] == 0 then [] else [s[0]] + UpToNul(s[1..])
  }

  function NameStr(e: FileEntry): (r: seq<byte>)
    ensures 0 !in r
  {
    var s := UpToNul(e.name);
    if Utf8From(s, 0) then s else INVALID
  }

  lemma {:induction false} UpToNulUnique(s: seq<byte>, n: nat)
    requires n <= |s| && 0 !in s[..n] && (n < |s| ==> s[n] == 0)
    ensures UpToNul(s) == s[..n]
  {
    if n > 0 {
      assert s[..n][0] == s[0];
      assert s[1..][..n - 1] == s[..n][1..];
      UpToNulUnique(s[1..], n - 1);
    }
  }

  // ---- entries and checkpoints ---------------------------------------------------

  datatype FileEntry = FileEntry(name: seq<byte>, size: nat, start: nat, sectors: nat)

  datatype Checkpoint = Checkpoint(seqno: nat, logHead: nat, files: seq<FileEntry>)

  predicate EntryFits(e: FileEntry) {
    |e.name| == MAX_NAME && e.size < U32 && e.start < U64 && e.sectors < U32
  }

  predicate Fits(cp: Checkpoint) {
    && cp.seqno < U64 && cp.logHead < U64 && |cp.files| <= MAX_FILES
    && forall i | 0 <= i < |cp.files| :: EntryFits(cp.files[i])
  }

  const FRESH: Checkpoint := Checkpoint(1, LOG_START, [])

  function EntryBytes(e: FileEntry): (b: seq<byte>)
    requires EntryFits(e)
    ensures |b| == 44
  {
    e.name + Le(e.size, 4) + Le(e.start, 8) + Le(e.sectors, 4)
  }

  function ParseEntry(b: seq<byte>): FileEntry
    requires |b| == 44
  {
    FileEntry(b[0..28], FromLe(b[28..32]), FromLe(b[32..40]), FromLe(b[40..44]))
  }

  lemma EntryRoundTrip(e: FileEntry)
    requires EntryFits(e)
    ensures ParseEntry(EntryBytes(e)) == e
  {
    Widths();
    LeRoundTrip(e.size, 4);
    LeRoundTrip(e.start, 8);
    LeRoundTrip(e.sectors, 4);
    FourFields(e.name, Le(e.size, 4), Le(e.start, 8), Le(e.sectors, 4));
  }

  lemma FourFields(a: seq<byte>, b: seq<byte>, c: seq<byte>, d: seq<byte>)
    requires |a| == 28 && |b| == 4 && |c| == 8 && |d| == 4
    ensures var r := a + b + c + d; r[0..28] == a && r[28..32] == b && r[32..40] == c && r[40..44] == d
  {
  }

  function EntryOff(i: nat): nat { ENTRIES_OFF + i * ENTRY_SIZE }

  function EntryAt(raw: Sector, i: nat): FileEntry
    requires i < MAX_FILES
  {
    ParseEntry(raw[EntryOff(i)..EntryOff(i) + 44])
  }

  function PutEntries(raw: Sector, files: seq<FileEntry>, n: nat): (r: Sector)
    requires n <= |files| <= MAX_FILES && forall i | 0 <= i < |files| :: EntryFits(files[i])
  {
    if n == 0 then raw
    else Put(PutEntries(raw, files, n - 1), EntryOff(n - 1), EntryBytes(files[n - 1]))
  }

  lemma PutKeepsEntry(r: Sector, n: nat, b: seq<byte>, i: nat)
    requires i < n < MAX_FILES && |b| == 44
    ensures EntryAt(Put(r, EntryOff(n), b), i) == EntryAt(r, i)
  {
    PutOther(r, EntryOff(n), b, EntryOff(i), EntryOff(i) + 44);
  }

  lemma {:induction false} PutEntriesReadBack(raw: Sector, files: seq<FileEntry>, n: nat)
    requires n <= |files| <= MAX_FILES && forall i | 0 <= i < |files| :: EntryFits(files[i])
    ensures PutEntries(raw, files, n)[0..ENTRIES_OFF] == raw[0..ENTRIES_OFF]
    ensures forall i | 0 <= i < n :: EntryAt(PutEntries(raw, files, n), i) == files[i]
  {
    if n > 0 {
      PutEntriesReadBack(raw, files, n - 1);
      var r0, b := PutEntries(raw, files, n - 1), EntryBytes(files[n - 1]);
      EntryRoundTrip(files[n - 1]);
      PutSame(r0, EntryOff(n - 1), b);
      PutOther(r0, EntryOff(n - 1), b, 0, ENTRIES_OFF);
      forall i: nat | i < n - 1 ensures EntryAt(PutEntries(raw, files, n), i) == files[i] {
        PutKeepsEntry(r0, n - 1, b, i);
      }
    }
  }

  function HeaderFields(cp: Checkpoint): seq<Field> {
    [Field(0, Le(CP_MAGIC, 8)), Field(8, Le(cp.seqno, 8)), Field(16, Le(cp.logHead, 8)), Field(24, Le(|cp.files|, 4))]
  }

  function Header(cp: Checkpoint): Sector {
    PutFields(Zeros(SECTOR_SIZE), HeaderFields(cp), 4)
  }

  function Encode(cp: Checkpoint): Sector
    requires Fits(cp)
  {
    Seal(PutEntries(Header(cp), cp.files, |cp.files|))
  }

  function Decode(raw: Sector): Option<Checkpoint> {
    if U64At(raw, 0) != CP_MAGIC || !Intact(raw) then None
    else
      var count := U32At(raw, 24);
      if count > MAX_FILES then None
      else Some(Checkpoint(U64At(raw, 8), U64At(raw, 16), seq(count, i requires 0 <= i < count => EntryAt(raw, i))))
  }

  /** What is committed reads back. */
  lemma CheckpointRoundTrip(cp: Checkpoint)
    requires Fits(cp)
    ensures Decode(Encode(cp)) == Some(cp)
  {
    var p, raw := PutEntries(Header(cp), cp.files, |cp.files|), Encode(cp);
    SealIntact(p);
    PutEntriesReadBack(Header(cp), cp.files, |cp.files|);
    HeaderReadBack(cp);
    SealKeeps(p, 0, ENTRIES_OFF);
    SubSlices(raw, Header(cp));
    forall i: nat | i < |cp.files| ensures EntryAt(raw, i) == cp.files[i] { SealKeepsEntry(p, i); }
    DecodeFields(raw, cp);
  }

  lemma SealKeepsEntry(s: Sector, i: nat)
    requires i < MAX_FILES
    ensures EntryAt(Seal(s), i) == EntryAt(s, i)
  {
    SealKeeps(s, EntryOff(i), EntryOff(i) + 44);
  }

  lemma DecodeFields(raw: Sector, cp: Checkpoint)
    requires Intact(raw) && U64At(raw, 0) == CP_MAGIC && U64At(raw, 8) == cp.seqno && U64At(raw, 16) == cp.logHead
    requires U32At(raw, 24) == |cp.files| <= MAX_FILES
    requires forall i | 0 <= i < |cp.files| :: EntryAt(raw, i) == cp.files[i]
    ensures Decode(raw) == Some(cp)
  {
    assert Decode(raw).value.files == cp.files;
  }

  lemma SubSlices(a: Sector, b: Sector)
    requires a[0..ENTRIES_OFF] == b[0..ENTRIES_OFF]
    ensures a[0..8] == b[0..8] && a[8..16] == b[8..16] && a[16..24] == b[16..24] && a[24..28] == b[24..28]
  {
    assert forall k | 0 <= k < ENTRIES_OFF :: a[k] == a[0..ENTRIES_OFF][k] == b[0..ENTRIES_OFF][k] == b[k];
  }

  lemma HeaderReadBack(cp: Checkpoint)
    requires Fits(cp)
    ensures var h := Header(cp);
            U64At(h, 0) == CP_MAGIC && U64At(h, 8) == cp.seqno && U64At(h, 16) == cp.logHead && U32At(h, 24) == |cp.files|
  {
    var b, fs := Zeros(SECTOR_SIZE), HeaderFields(cp);
    FieldU64(b, fs, 0, CP_MAGIC);
    FieldU64(b, fs, 1, cp.seqno);
    FieldU64(b, fs, 2, cp.logHead);
    FieldU32(b, fs, 3, |cp.files|);
  }

  lemma BlankIsNoCheckpoint()
    ensures Decode(Zeros(SECTOR_SIZE)) == None
  {
    FromLeZeros(8);
    assert Zeros(SECTOR_SIZE)[0..8] == Zeros(8);
  }

  // ---- superblock and mount ---------------------------------------------------------

  type Disk = seq<Sector>

  datatype Layout = Layout(
    total: nat, spillStart: nat, spillSectors: nat, auditStart: nat, auditSectors: nat, otaStart: nat, otaSectors: nat)

  /** A mounted filesystem: its root, the slot the root is in, and the regions it must not grow into. */
  datatype Fs = Fs(cp: Checkpoint, slot: nat, layout: Layout)

  /** The smallest disk `format` can lay out without its arithmetic underflowing. */
  const MIN_SECTORS: nat := LOG_START + OTA_SECTORS + AUDIT_SECTORS + SPILL_SECTORS

  function LayoutFor(total: nat): Layout
    requires MIN_SECTORS <= total
  {
    var spill := total - SPILL_SECTORS;
    var audit := spill - AUDIT_SECTORS;
    Layout(total, spill, SPILL_SECTORS, audit, AUDIT_SECTORS, audit - OTA_SECTORS, OTA_SECTORS)
  }

  function SuperWords(l: Layout): seq<nat>
    requires LOG_START <= l.otaStart
  {
    [l.total, LOG_START, l.otaStart - LOG_START, l.spillStart, l.spillSectors, l.auditStart, l.auditSectors, l.otaStart,
     l.otaSectors]
  }

  function Superblock(l: Layout): Sector
    requires LOG_START <= l.otaStart
  {
    Seal(Put(Put(Put(Zeros(SECTOR_SIZE), 0, Le(SB_MAGIC, 8)), 8, Le(1, 4)), 12, Le64s(SuperWords(l))))
  }

  function ReadLayout(sb: Sector): Layout {
    Layout(U64At(sb, 12), U64At(sb, 36), U64At(sb, 44), U64At(sb, 52), U64At(sb, 60), U64At(sb, 68), U64At(sb, 76))
  }

  /** The newer of the two checkpoints that decode, and where it is. */
  function Newest(a: Option<Checkpoint>, b: Option<Checkpoint>): Option<(nat, Checkpoint)> {
    match (a, b)
    case (Some(x), Some(y)) => if y.seqno > x.seqno then Some((1, y)) else Some((0, x))
    case (Some(x), None) => Some((0, x))
    case (None, Some(y)) => Some((1, y))
    case (None, None) => None
  }

  function Mount(disk: Disk): Result<Fs>
    requires |disk| >= 3
  {
    if U64At(disk[0], 0) != SB_MAGIC then Err("not a JLFS filesystem")
    else if !Intact(disk[0]) then Err("superblock checksum mismatch")
    else
      match Newest(Decode(disk[1]), Decode(disk[2]))
      case None => Err("no valid checkpoint: filesystem is unrecoverable")
      case Some((slot, cp)) => Ok(Fs(cp, slot, ReadLayout(disk[0])))
  }

  lemma SuperblockReadBack(l: Layout)
    requires LOG_START <= l.otaStart
    requires l.total < U64 && l.spillStart < U64 && l.spillSectors < U64
    requires l.auditStart < U64 && l.auditSectors < U64 && l.otaStart < U64 && l.otaSectors < U64
    ensures Intact(Superblock(l)) && U64At(Superblock(l), 0) == SB_MAGIC && ReadLayout(Superblock(l)) == l
  {
    var words := SuperWords(l);
    var h1 := Put(Zeros(SECTOR_SIZE), 0, Le(SB_MAGIC, 8));
    var h2 := Put(h1, 8, Le(1, 4));
    var raw := Put(h2, 12, Le64s(words));
    SealIntact(raw);
    var sb := Seal(raw);
    SealKeeps(raw, 0, 8);
    PutOther(h2, 12, Le64s(words), 0, 8);
    PutOther(h1, 8, Le(1, 4), 0, 8);
    PutSame(Zeros(SECTOR_SIZE), 0, Le(SB_MAGIC, 8));
    ReadU64(sb, 0, SB_MAGIC);
    SealKeeps(raw, 12, 84);
    PutSame(h2, 12, Le64s(words));
    WordAt(sb, 12, words, 0);
    WordAt(sb, 12, words, 3);
    WordAt(sb, 12, words, 4);
    WordAt(sb, 12, words, 5);
    WordAt(sb, 12, words, 6);
    WordAt(sb, 12, words, 7);
    WordAt(sb, 12, words, 8);
  }
}
