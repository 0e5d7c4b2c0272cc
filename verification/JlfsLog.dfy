/**
 JLFS operations as lists of atomic sector writes, and what is left of the filesystem when the power goes between any
 two of them.
 */
module JlfsLog {
  import opened Wrappers
  import opened Bytes
  import opened J = Jlfs

  datatype SectorWrite = SectorWrite(at: nat, data: Sector)

  /** What an operation does to the disk, and the root it ends with; without a root it ends in an error. */
  datatype Plan = Plan(writes: seq<SectorWrite>, next: Option<Checkpoint>, error: string)

  datatype Op = Write(name: Str, data: seq<byte>) | SetEntry(name: Str, entry: Option<FileEntry>)

  // ---- operations ---------------------------------------------------------------------------------

  function Lower(limit: nat, r: nat): nat { if r != 0 && r < limit then r else limit }

  /** The first sector the log may not touch. */
  function LogLimit(l: Layout): (n: nat)
    ensures n <= l.total
  {
    Lower(Lower(Lower(l.total, l.otaStart), l.auditStart), l.spillStart)
  }

  function Names(files: seq<FileEntry>): (r: seq<seq<byte>>)
    ensures |r| == |files| && forall i | 0 <= i < |files| :: r[i] == NameStr(files[i])
  {
    seq(|files|, i requires 0 <= i < |files| => NameStr(files[i]))
  }

  function PositionFrom(names: seq<seq<byte>>, name: seq<byte>, i: nat): (r: Option<nat>)
    requires i <= |names|
    ensures r.Some? ==> i <= r.value < |names| && names[r.value] == name && forall j | i <= j < r.value :: names[j] != name
    ensures r == None ==> forall j | i <= j < |names| :: names[j] != name
    decreases |names| - i
  {
    if i == |names| then None else if names[i] == name then Some(i) else PositionFrom(names, name, i + 1)
  }

  function Find(files: seq<FileEntry>, name: seq<byte>): (r: Option<nat>)
    ensures r.Some? ==> r.value < |files| && NameStr(files[r.value]) == name && forall j | 0 <= j < r.value :: NameStr(files[j]) != name
    ensures r == None ==> forall j | 0 <= j < |files| :: NameStr(files[j]) != name
  {
    PositionFrom(Names(files), name, 0)
  }

  /** Sectors for `n` bytes, counted in 32 bits. */
  function SectorsFor(n: nat): (k: nat)
    ensures k < U32
  {
    ((n + SECTOR_SIZE - 1) / SECTOR_SIZE) % U32
  }

  /** Sector `s` of `data`: the bytes that are there, then zeros. */
  function Chunk(data: seq<byte>, s: nat): Sector
    requires s * SECTOR_SIZE <= |data|
  {
    var from := s * SECTOR_SIZE;
    var n := if |data| - from < SECTOR_SIZE then |data| - from else SECTOR_SIZE;
    Padded(data[from..from + n], SECTOR_SIZE)
  }

  lemma ChunksFit(n: nat, s: nat)
    requires s < SectorsFor(n)
    ensures s * SECTOR_SIZE < n
  {
  }

  function DataWrites(start: nat, data: seq<byte>, k: nat): (ws: seq<SectorWrite>)
    requires k <= SectorsFor(|data|)
    ensures |ws| == k && forall s | 0 <= s < k :: ws[s].at == start + s
  {
    if k == 0 then []
    else
      ChunksFit(|data|, k - 1);
      DataWrites(start, data, k - 1) + [SectorWrite(start + k - 1, Chunk(data, k - 1))]
  }

  function NewEntry(name: seq<byte>, start: nat, size: nat): (e: FileEntry)
    requires |name| <= MAX_NAME
  {
    FileEntry(Padded(name, MAX_NAME), size % U32, start, SectorsFor(size))
  }

  function Removed(files: seq<FileEntry>, i: nat): seq<FileEntry>
    requires i < |files|
  {
    files[..i] + files[i + 1..]
  }

  /** The directory with the entry of `name` replaced, added or removed; `None` if there is no room. */
  function Directory(files: seq<FileEntry>, name: seq<byte>, entry: Option<FileEntry>): Option<seq<FileEntry>> {
    match (Find(files, name), entry)
    case (Some(i), Some(e)) => Some(files[i := e])
    case (Some(i), None) => Some(Removed(files, i))
    case (None, Some(e)) => if |files| == MAX_FILES then None else Some(files + [e])
    case (None, None) => Some(files)
  }

  function Commit(fs: Fs, cp: Checkpoint): SectorWrite
    requires Fits(cp) && fs.slot < 2
  {
    SectorWrite(CP_SECTORS[1 - fs.slot], Encode(cp))
  }

  /** The root that makes `files` the directory. */
  function NextRoot(fs: Fs, head: nat, files: seq<FileEntry>): Checkpoint { Checkpoint(fs.cp.seqno + 1, head, files) }

  /** What a filesystem and what it is asked must satisfy: a mounted one, and room in the 64-bit sequence number. */
  predicate Sound(fs: Fs) {
    && fs.slot < 2 && Fits(fs.cp) && fs.cp.seqno + 1 < U64 && LOG_START <= fs.cp.logHead <= LogLimit(fs.layout) < U64
  }

  /** An entry that names a finished part of the log. */
  predicate InLog(e: FileEntry, head: nat) { EntryFits(e) && LOG_START <= e.start && e.start + e.sectors <= head }

  predicate Proper(fs: Fs, op: Op) { op.SetEntry? && op.entry.Some? ==> InLog(op.entry.value, fs.cp.logHead) }

  lemma DirectoryFits(files: seq<FileEntry>, name: seq<byte>, entry: Option<FileEntry>, head: nat)
    requires |files| <= MAX_FILES && forall i | 0 <= i < |files| :: InLog(files[i], head)
    requires entry.Some? ==> InLog(entry.value, head)
    ensures var d := Directory(files, name, entry);
            d.Some? ==> |d.value| <= MAX_FILES && forall i | 0 <= i < |d.value| :: InLog(d.value[i], head)
  {
  }

  function PlanOf(fs: Fs, op: Op): Plan
    requires Sound(fs) && Proper(fs, op) && AllInLog(fs.cp)
  {
    match op
    case Write(name, data) =>
      var head := fs.cp.logHead + SectorsFor(|data|);
      if |name| > MAX_NAME then Plan([], None, "name too long")
      else if head > LogLimit(fs.layout) then Plan([], None, "log is full")
      else
        var ws := DataWrites(fs.cp.logHead, data, SectorsFor(|data|));
        DirectoryFits(fs.cp.files, name, Some(NewEntry(name, fs.cp.logHead, |data|)), head);
        var d := Directory(fs.cp.files, name, Some(NewEntry(name, fs.cp.logHead, |data|)));
        if d == None then Plan(ws, None, "directory is full")
        else
          var cp := NextRoot(fs, head, d.value);
          Plan(ws + [Commit(fs, cp)], Some(cp), "")
    case SetEntry(name, entry) =>
      DirectoryFits(fs.cp.files, name, entry, fs.cp.logHead);
      var d := Directory(fs.cp.files, name, entry);
      if d == None then Plan([], None, "directory is full")
      else if Find(fs.cp.files, name) == None && entry == None then Plan([], None, "")
      else
        var cp := NextRoot(fs, fs.cp.logHead, d.value);
        Plan([Commit(fs, cp)], Some(cp), "")
  }

  predicate AllInLog(cp: Checkpoint) { forall i | 0 <= i < |cp.files| :: InLog(cp.files[i], cp.logHead) }

  function Put1(disk: Disk, w: SectorWrite): Disk {
    if w.at < |disk| then disk[w.at := w.data] else disk
  }

  /** The disk after the first `n` writes. */
  function After(disk: Disk, ws: seq<SectorWrite>, n: nat): (d: Disk)
    requires n <= |ws|
    ensures |d| == |disk|
  {
    if n == 0 then disk else Put1(After(disk, ws, n - 1), ws[n - 1])
  }

  /** The filesystem in memory once an operation has run to its end. */
  function Finished(fs: Fs, p: Plan): Fs
    requires fs.slot < 2
  {
    if p.next == None then fs else Fs(p.next.value, 1 - fs.slot, fs.layout)
  }

  // ---- files --------------------------------------------------------------------------------------

  /** `n` sectors from `start` on, end to end. */
  function Extent(disk: Disk, start: nat, n: nat): (b: seq<byte>)
    requires start + n <= |disk|
    ensures |b| == n * SECTOR_SIZE
  {
    if n == 0 then [] else Extent(disk, start, n - 1) + disk[start + n - 1]
  }

  function Min(a: nat, b: nat): nat { if a < b then a else b }

  /** The bytes an entry stands for. */
  function Content(disk: Disk, e: FileEntry): seq<byte>
    requires e.start + e.sectors <= |disk|
  {
    Extent(disk, e.start, e.sectors)[..Min(e.size, e.sectors * SECTOR_SIZE)]
  }

  /** What reading `name` gives, if it exists. */
  function FileOf(disk: Disk, cp: Checkpoint, name: seq<byte>): Option<seq<byte>>
    requires AllInLog(cp) && cp.logHead <= |disk|
  {
    var r := Find(cp.files, name);
    if r == None then None else Some(Content(disk, cp.files[r.value]))
  }

  lemma {:induction false} ExtentPrefix(disk: Disk, start: nat, n: nat, m: nat)
    requires n <= m && start + m <= |disk|
    ensures Extent(disk, start, m)[..n * SECTOR_SIZE] == Extent(disk, start, n)
  {
    if n < m { ExtentPrefix(disk, start, n, m - 1); }
  }

  lemma {:induction false} ExtentFrame(a: Disk, b: Disk, start: nat, n: nat)
    requires start + n <= |a| && start + n <= |b| && forall i | start <= i < start + n :: a[i] == b[i]
    ensures Extent(a, start, n) == Extent(b, start, n)
  {
    if n > 0 { ExtentFrame(a, b, start, n - 1); }
  }

  /** Two disks that agree below the head of the log hold the same files. */
  lemma FilesFrame(a: Disk, b: Disk, cp: Checkpoint, name: seq<byte>)
    requires AllInLog(cp) && cp.logHead <= |a| && cp.logHead <= |b|
    requires forall i | LOG_START <= i < cp.logHead :: a[i] == b[i]
    ensures FileOf(a, cp, name) == FileOf(b, cp, name)
  {
    var r := Find(cp.files, name);
    if r.Some? {
      var e := cp.files[r.value];
      ExtentFrame(a, b, e.start, e.sectors);
    }
  }

  // ---- the invariant ------------------------------------------------------------------------------

  predicate Older(raw: Sector, seqno: nat) {
    var d := Decode(raw);
    d.Some? ==> d.value.seqno < seqno
  }

  /** The disk is laid out as the superblock says. */
  predicate LaidOut(disk: Disk, l: Layout) {
    |disk| == l.total && |disk| >= 3 && U64At(disk[0], 0) == SB_MAGIC && Intact(disk[0]) && ReadLayout(disk[0]) == l
  }

  /** The filesystem in memory is the one on disk: its root is in its slot, and the other slot is invalid or older. */
  predicate Good(fs: Fs, disk: Disk) {
    && LaidOut(disk, fs.layout) && fs.slot < 2 && Fits(fs.cp) && AllInLog(fs.cp)
    && LOG_START <= fs.cp.logHead <= LogLimit(fs.layout) < U64
    && Decode(disk[CP_SECTORS[fs.slot]]) == Some(fs.cp) && Older(disk[CP_SECTORS[1 - fs.slot]], fs.cp.seqno)
  }

  /** Mounting a good disk gives back the filesystem that was in memory. */
  lemma MountGood(fs: Fs, disk: Disk)
    requires Good(fs, disk)
    ensures Mount(disk) == Ok(fs)
  {
    hide Decode, Intact, U64At, ReadLayout;
  }

  lemma {:induction false} AfterFrame(disk: Disk, ws: seq<SectorWrite>, n: nat, i: nat)
    requires n <= |ws| && i < |disk| && forall k | 0 <= k < n :: ws[k].at != i
    ensures After(disk, ws, n)[i] == disk[i]
  {
    if n > 0 { AfterFrame(disk, ws, n - 1, i); }
  }

  /** Everything but the commit is written beyond the head of the log, where nothing points. */
  lemma PlanShape(fs: Fs, op: Op)
    requires Sound(fs) && Proper(fs, op) && AllInLog(fs.cp)
    ensures var p := PlanOf(fs, op);
            var m := |p.writes| - (if p.next.Some? then 1 else 0);
            && 0 <= m
            && (forall k | 0 <= k < m :: fs.cp.logHead <= p.writes[k].at < LogLimit(fs.layout))
            && (p.next.Some? ==>
                  && Fits(p.next.value) && AllInLog(p.next.value) && p.writes[m] == Commit(fs, p.next.value)
                  && p.next.value.seqno == fs.cp.seqno + 1 && fs.cp.logHead <= p.next.value.logHead <= LogLimit(fs.layout))
  {
    hide Encode, Chunk, Find, LogLimit, SectorsFor;
    match op
    case Write(name, data) =>
      if |name| <= MAX_NAME {
        var head := fs.cp.logHead + SectorsFor(|data|);
        DirectoryFits(fs.cp.files, name, Some(NewEntry(name, fs.cp.logHead, |data|)), head);
      }
    case SetEntry(name, entry) => DirectoryFits(fs.cp.files, name, entry, fs.cp.logHead);
  }

  /** `n` is no further than the disk goes, nor than any reserved region the superblock names begins. */
  predicate ClearOf(l: Layout, n: nat) {
    && n <= l.total
    && (l.otaStart != 0 ==> n <= l.otaStart) && (l.auditStart != 0 ==> n <= l.auditStart) && (l.spillStart != 0 ==> n <= l.spillStart)
  }

  lemma LimitIsClear(l: Layout, n: nat)
    ensures n <= LogLimit(l) <==> ClearOf(l, n)
  {
  }

  /** The log keeps out of every reserved region: each write of an operation but its commit falls below all of them. */
  lemma DataStaysClear(fs: Fs, op: Op, k: nat)
    requires Sound(fs) && Proper(fs, op) && AllInLog(fs.cp)
    requires k < |PlanOf(fs, op).writes| - (if PlanOf(fs, op).next.Some? then 1 else 0)
    ensures fs.cp.logHead <= PlanOf(fs, op).writes[k].at && ClearOf(fs.layout, PlanOf(fs, op).writes[k].at + 1)
  {
    hide PlanOf, LogLimit;
    PlanShape(fs, op);
    LimitIsClear(fs.layout, PlanOf(fs, op).writes[k].at + 1);
  }

  /**
   When a write is taken: the name is short enough, the data's sectors end clear of every reserved region, and the name is in
   the directory or there is room for it; and what it answers when not.
   */
  lemma WriteSucceeds(fs: Fs, name: Str, data: seq<byte>)
    requires Sound(fs) && AllInLog(fs.cp)
    ensures var p, end := PlanOf(fs, Write(name, data)), fs.cp.logHead + (|data| + 511) / 512 % U32;
            && (p.next.Some? <==>
                  |name| <= MAX_NAME && ClearOf(fs.layout, end) && (EntryOf(fs.cp.files, name).Some? || |fs.cp.files| != MAX_FILES))
            && (p.next == None ==>
                  p.error == if |name| > MAX_NAME then "name too long" else if !ClearOf(fs.layout, end) then "log is full" else "directory is full")
            && (p.next.Some? ==> p.next.value.logHead == end)
  {
    hide Encode, Chunk, Find, LogLimit;
    LimitIsClear(fs.layout, fs.cp.logHead + (|data| + 511) / 512 % U32);
    if |name| <= MAX_NAME {
      DirectoryFits(fs.cp.files, name, Some(NewEntry(name, fs.cp.logHead, |data|)), fs.cp.logHead + SectorsFor(|data|));
    }
  }

  /** Before the commit lands nothing has changed. */
  lemma UncommittedGood(fs: Fs, disk: Disk, op: Op, n: nat)
    requires Good(fs, disk) && Sound(fs) && Proper(fs, op)
    requires var p := PlanOf(fs, op); n <= |p.writes| - (if p.next.Some? then 1 else 0)
    ensures var d := After(disk, PlanOf(fs, op).writes, n);
            Good(fs, d) && forall i | 0 <= i < fs.cp.logHead :: d[i] == disk[i]
  {
    hide PlanOf, Decode, Intact, U64At, ReadLayout, LogLimit;
    PlanShape(fs, op);
    var p := PlanOf(fs, op);
    var d := After(disk, p.writes, n);
    forall i | 0 <= i < fs.cp.logHead ensures d[i] == disk[i] { AfterFrame(disk, p.writes, n, i); }
  }

  /** The commit changes one sector, and with it the whole directory. */
  lemma CommittedGood(fs: Fs, disk: Disk, op: Op)
    requires Good(fs, disk) && Sound(fs) && Proper(fs, op) && PlanOf(fs, op).next.Some?
    ensures var p := PlanOf(fs, op); Good(Finished(fs, p), After(disk, p.writes, |p.writes|))
  {
    hide PlanOf, Decode, Encode, Intact, U64At, ReadLayout, LogLimit, Fits;
    PlanShape(fs, op);
    var p := PlanOf(fs, op);
    UncommittedGood(fs, disk, op, |p.writes| - 1);
    CheckpointRoundTrip(p.next.value);
    var d := After(disk, p.writes, |p.writes| - 1);
    LimitInside(fs, disk);
    assert After(disk, p.writes, |p.writes|) == d[CP_SECTORS[1 - fs.slot] := Encode(p.next.value)];
  }

  lemma LimitInside(fs: Fs, disk: Disk)
    requires Good(fs, disk)
    ensures |disk| >= LOG_START
  {
  }

  /** The disk an operation leaves when the power goes after `n` of its writes. */
  function Cut(fs: Fs, disk: Disk, op: Op, n: nat): Disk
    requires Sound(fs) && Proper(fs, op) && AllInLog(fs.cp) && n <= |PlanOf(fs, op).writes|
  {
    After(disk, PlanOf(fs, op).writes, n)
  }

  /** The disk mounts as `fs`. */
  predicate MountsAs(disk: Disk, fs: Fs) { Good(fs, disk) && Mount(disk) == Ok(fs) }

  /** Both disks mount, as possibly different roots, and every name reads the same on both. */
  ghost predicate SameFiles(a: Disk, fsA: Fs, b: Disk, fsB: Fs) {
    && MountsAs(a, fsA) && MountsAs(b, fsB)
    && forall name: seq<byte> :: FileOf(a, fsA.cp, name) == FileOf(b, fsB.cp, name)
  }

  lemma UncommittedSame(fs: Fs, disk: Disk, op: Op, n: nat)
    requires Good(fs, disk) && Sound(fs) && Proper(fs, op)
    requires var p := PlanOf(fs, op); n <= |p.writes| - (if p.next.Some? then 1 else 0)
    ensures SameFiles(Cut(fs, disk, op, n), fs, disk, fs)
  {
    hide PlanOf, Mount, After, FileOf, Decode, Intact, U64At, ReadLayout;
    UncommittedGood(fs, disk, op, n);
    var d := Cut(fs, disk, op, n);
    MountGood(fs, d);
    MountGood(fs, disk);
    forall name: seq<byte> ensures FileOf(d, fs.cp, name) == FileOf(disk, fs.cp, name) { FilesFrame(d, disk, fs.cp, name); }
  }

  lemma FinishedMounts(fs: Fs, disk: Disk, op: Op)
    requires Good(fs, disk) && Sound(fs) && Proper(fs, op)
    ensures var p := PlanOf(fs, op); MountsAs(Cut(fs, disk, op, |p.writes|), Finished(fs, p))
  {
    hide PlanOf, Mount, After, LaidOut, Decode, Fits;
    var p := PlanOf(fs, op);
    if p.next.Some? { CommittedGood(fs, disk, op); } else { UncommittedGood(fs, disk, op, |p.writes|); }
    MountGood(Finished(fs, p), Cut(fs, disk, op, |p.writes|));
  }

  /**
   Atomicity of one operation. Whatever the operation, and wherever the power goes, the disk mounts, and what mounts is
   the filesystem before the operation or the one after it, with every file reading exactly as it did or would have.
   */
  lemma CutIsAtomic(fs: Fs, disk: Disk, op: Op, n: nat)
    requires Good(fs, disk) && Sound(fs) && Proper(fs, op) && n <= |PlanOf(fs, op).writes|
    ensures var d, p := Cut(fs, disk, op, n), PlanOf(fs, op);
            var done, fs' := Cut(fs, disk, op, |p.writes|), Finished(fs, p);
            SameFiles(d, fs, disk, fs) || SameFiles(d, fs', done, fs')
  {
    hide PlanOf, Mount, After, FileOf, LaidOut, Decode, Fits, SameFiles;
    var p := PlanOf(fs, op);
    if p.next == None || n < |p.writes| {
      UncommittedSame(fs, disk, op, n);
    } else {
      FinishedMounts(fs, disk, op);
      SameAsSelf(Cut(fs, disk, op, n), Finished(fs, p));
    }
  }

  lemma SameAsSelf(disk: Disk, fs: Fs)
    requires MountsAs(disk, fs)
    ensures SameFiles(disk, fs, disk, fs)
  {
  }

  // ---- what an operation does to the files ----------------------------------------------------------

  lemma {:induction false} UpToNulOfPadded(name: seq<byte>, n: nat)
    requires |name| <= n
    ensures UpToNul(Padded(name, n)) == UpToNul(name)
  {
    var k := |UpToNul(name)|;
    var s := Padded(name, n);
    assert s[..k] == name[..k];
    UpToNulUnique(s, k);
  }

  /** A string cut at its first NUL is still a string. */
  lemma {:induction false} PrefixUtf8(s: seq<byte>, i: nat, n: nat)
    requires i <= n <= |s| && Utf8From(s, i) && 0 !in s[..n] && (n < |s| ==> s[n] == 0)
    ensures Utf8From(s[..n], i)
    decreases |s| - i
  {
    if i < n {
      var b, t := s[i], s[..n];
      assert t[i] == b;
      if b < 0x80 {
        PrefixUtf8(s, i + 1, n);
      } else {
        var more := if b <= 0xDF then 0 else if b <= 0xEF then 1 else 2;
        TailInside(s, i + 1, more, n);
        PrefixUtf8(s, i + 2 + more, n);
      }
    }
  }

  /** A continuation byte is not NUL, so a sequence that starts before the cut ends before it. */
  lemma TailInside(s: seq<byte>, i: nat, more: nat, n: nat)
    requires i <= n <= |s| && i + more < |s| && (n < |s| ==> s[n] == 0)
    requires forall k | i <= k <= i + more :: 0x80 <= s[k]
    ensures i + more < n
  {
  }

  /** A new entry is found under its name up to the first NUL. */
  lemma EntryName(name: Str, start: nat, size: nat)
    requires |name| <= MAX_NAME
    ensures NameStr(NewEntry(name, start, size)) == UpToNul(name)
  {
    UpToNulOfPadded(name, MAX_NAME);
    PrefixUtf8(name, 0, |UpToNul(name)|);
  }

  lemma {:induction false} DataLands(disk: Disk, start: nat, data: seq<byte>, k: nat)
    requires k <= SectorsFor(|data|) && start + SectorsFor(|data|) <= |disk|
    ensures var d := After(disk, DataWrites(start, data, SectorsFor(|data|)), k);
            Extent(d, start, k)[..Min(|data|, k * SECTOR_SIZE)] == data[..Min(|data|, k * SECTOR_SIZE)]
  {
    if k > 0 {
      var ws := DataWrites(start, data, SectorsFor(|data|));
      DataLands(disk, start, data, k - 1);
      ChunksFit(|data|, k - 1);
      WriteAt(start, data, SectorsFor(|data|), k - 1);
      var d0, d := After(disk, ws, k - 1), After(disk, ws, k);
      ExtentFrame(d0, d, start, k - 1);
      AppendChunk(Extent(d, start, k - 1), data, k - 1);
    }
  }

  lemma {:induction false} WriteAt(start: nat, data: seq<byte>, n: nat, s: nat)
    requires s < n <= SectorsFor(|data|)
    ensures s * SECTOR_SIZE <= |data| && DataWrites(start, data, n)[s] == SectorWrite(start + s, Chunk(data, s))
  {
    ChunksFit(|data|, s);
    if s < n - 1 { WriteAt(start, data, n - 1, s); }
  }

  lemma AppendChunk(ext: seq<byte>, data: seq<byte>, s: nat)
    requires |ext| == s * SECTOR_SIZE < |data| && ext[..s * SECTOR_SIZE] == data[..s * SECTOR_SIZE]
    ensures var m := Min(|data|, (s + 1) * SECTOR_SIZE); (ext + Chunk(data, s))[..m] == data[..m]
  {
    var from := s * SECTOR_SIZE;
    var n := Min(|data| - from, SECTOR_SIZE);
    assert Chunk(data, s)[..n] == data[from..from + n];
    assert (ext + Chunk(data, s))[..from + n] == ext + Chunk(data, s)[..n];
    assert ext[..from] == ext;
  }

  /** What a finished write leaves under its entry: the data, cut to what 32 bits can count. */
  lemma WrittenContent(disk: Disk, start: nat, data: seq<byte>)
    requires start + SectorsFor(|data|) <= |disk|
    ensures var d := After(disk, DataWrites(start, data, SectorsFor(|data|)), SectorsFor(|data|));
            var e := NewEntry([], start, |data|);
            Content(d, e) == data <==> |data| < U32
  {
    hide After, DataWrites, Extent, SectorsFor;
    var k := SectorsFor(|data|);
    var d := After(disk, DataWrites(start, data, k), k);
    DataLands(disk, start, data, k);
    if |data| < U32 {
      EnoughSectors(|data|);
      assert data[..|data|] == data;
    }
  }

  lemma EnoughSectors(n: nat)
    requires n < U32
    ensures n <= SectorsFor(n) * SECTOR_SIZE
  {
  }

  function EntryOf(files: seq<FileEntry>, name: seq<byte>): Option<FileEntry> {
    var r := Find(files, name);
    if r == None then None else Some(files[r.value])
  }

  predicate Distinct(files: seq<FileEntry>) {
    forall i, j | 0 <= i < j < |files| :: NameStr(files[i]) != NameStr(files[j])
  }

  lemma EntryIs(files: seq<FileEntry>, name: seq<byte>, i: nat)
    requires i < |files| && NameStr(files[i]) == name && forall j | 0 <= j < i :: NameStr(files[j]) != name
    ensures EntryOf(files, name) == Some(files[i])
  {
  }

  /** Replacing or adding an entry under its own name changes that name only. */
  lemma PutLookup(files: seq<FileEntry>, name: seq<byte>, e: FileEntry, n: seq<byte>)
    requires Directory(files, name, Some(e)).Some? && NameStr(e) == name
    ensures EntryOf(Directory(files, name, Some(e)).value, n) == if n == name then Some(e) else EntryOf(files, n)
    ensures Distinct(files) ==> Distinct(Directory(files, name, Some(e)).value)
  {
    hide NameStr;
    var d, at := Directory(files, name, Some(e)).value, Find(files, name);
    var i := if at.Some? then at.value else |files|;
    if n == name {
      EntryIs(d, n, i);
    } else {
      var r := Find(files, n);
      if r.Some? { EntryIs(d, n, r.value); }
    }
  }

  /** No two entries have the name. */
  predicate Once(files: seq<FileEntry>, name: seq<byte>) {
    forall i, j | 0 <= i < j < |files| :: NameStr(files[i]) != name || NameStr(files[j]) != name
  }

  /** Removing an entry changes no other name, and removes its own if and only if no other entry has it. */
  lemma RemoveLookup(files: seq<FileEntry>, name: seq<byte>, n: seq<byte>)
    ensures var d := Directory(files, name, None).value;
            && (n != name ==> EntryOf(d, n) == EntryOf(files, n)) && (EntryOf(d, name) == None <==> Once(files, name))
            && (Distinct(files) ==> Distinct(d))
  {
    hide NameStr, EntryOf, Distinct, Once;
    var at := Find(files, name);
    if at.Some? {
      var d := Removed(files, at.value);
      if n != name { RemovedOther(files, at.value, d, n); }
      RemovedOwn(files, at.value, d, name);
      RemovedDistinct(files, at.value, d);
    } else {
      AbsentOnce(files, name);
    }
  }

  lemma AbsentOnce(files: seq<FileEntry>, name: seq<byte>)
    requires Find(files, name) == None
    ensures EntryOf(files, name) == None && Once(files, name)
  {
    hide NameStr;
  }

  lemma RemovedOther(files: seq<FileEntry>, i: nat, d: seq<FileEntry>, n: seq<byte>)
    requires i < |files| && d == Removed(files, i) && NameStr(files[i]) != n
    ensures EntryOf(d, n) == EntryOf(files, n)
  {
    hide NameStr;
    assert forall j | 0 <= j < |d| :: d[j] == if j < i then files[j] else files[j + 1];
    var r := Find(files, n);
    if r.Some? { EntryIs(d, n, if r.value < i then r.value else r.value - 1); }
  }

  lemma RemovedOwn(files: seq<FileEntry>, i: nat, d: seq<FileEntry>, name: seq<byte>)
    requires i < |files| && d == Removed(files, i) && Find(files, name) == Some(i)
    ensures EntryOf(d, name) == None <==> Once(files, name)
  {
    hide NameStr;
    assert forall j | 0 <= j < |d| :: d[j] == if j < i then files[j] else files[j + 1];
    if !Once(files, name) { DuplicateStays(files, i, d, name); } else { OnlyOneGoes(files, i, d, name); }
  }

  lemma DuplicateStays(files: seq<FileEntry>, i: nat, d: seq<FileEntry>, name: seq<byte>)
    requires i < |files| && |d| == |files| - 1 && !Once(files, name)
    requires forall j | 0 <= j < |d| :: d[j] == if j < i then files[j] else files[j + 1]
    requires forall j | 0 <= j < i :: NameStr(files[j]) != name
    ensures EntryOf(d, name).Some?
  {
    hide NameStr;
    var x, y :| 0 <= x < y < |files| && NameStr(files[x]) == name && NameStr(files[y]) == name;
    assert NameStr(d[y - 1]) == name;
  }

  lemma OnlyOneGoes(files: seq<FileEntry>, i: nat, d: seq<FileEntry>, name: seq<byte>)
    requires i < |files| && d == Removed(files, i) && Once(files, name) && NameStr(files[i]) == name
    ensures EntryOf(d, name) == None
  {
    hide NameStr;
  }

  lemma RemovedDistinct(files: seq<FileEntry>, i: nat, d: seq<FileEntry>)
    requires i < |files| && d == Removed(files, i)
    ensures Distinct(files) ==> Distinct(d)
  {
    hide NameStr;
    assert forall j | 0 <= j < |d| :: d[j] == if j < i then files[j] else files[j + 1];
  }

  /** A name with a NUL byte matches no entry: its entry is added at the end, behind whatever has the name before it. */
  lemma HiddenLookup(files: seq<FileEntry>, name: seq<byte>, e: FileEntry, n: seq<byte>)
    requires 0 in name && Directory(files, name, Some(e)).Some?
    ensures Find(files, name) == None && Directory(files, name, Some(e)).value == files + [e]
    ensures EntryOf(files + [e], n) == if EntryOf(files, n) == None && n == NameStr(e) then Some(e) else EntryOf(files, n)
  {
    var r := Find(files, n);
    if r.Some? { EntryIs(files + [e], n, r.value); } else if n == NameStr(e) { EntryIs(files + [e], n, |files|); }
  }

  /** An operation that ends with a new root: the disk and the filesystem it ends with. */
  predicate Ends(fs: Fs, disk: Disk, op: Op, fs': Fs, disk': Disk) {
    && Good(fs, disk) && Sound(fs) && Proper(fs, op) && PlanOf(fs, op).next.Some?
    && fs' == Finished(fs, PlanOf(fs, op)) && disk' == Cut(fs, disk, op, |PlanOf(fs, op).writes|)
  }

  lemma EndsGood(fs: Fs, disk: Disk, op: Op, fs': Fs, disk': Disk)
    requires Ends(fs, disk, op, fs', disk')
    ensures Good(fs, disk) && Good(fs', disk') && fs.cp.logHead <= fs'.cp.logHead && fs'.layout == fs.layout
    ensures forall i | LOG_START <= i < fs.cp.logHead :: disk'[i] == disk[i]
  {
    hide PlanOf, After, Intact, U64At, ReadLayout, Decode, Encode, Fits, LogLimit;
    CommittedGood(fs, disk, op);
    PlanShape(fs, op);
    var p := PlanOf(fs, op);
    forall i | LOG_START <= i < fs.cp.logHead ensures disk'[i] == disk[i] { AfterFrame(disk, p.writes, |p.writes|, i); }
  }

  /** A file whose entry is kept reads as before. */
  lemma KeptFile(fs: Fs, disk: Disk, op: Op, fs': Fs, disk': Disk, n: seq<byte>)
    requires Ends(fs, disk, op, fs', disk') && EntryOf(fs'.cp.files, n) == EntryOf(fs.cp.files, n)
    requires Good(fs', disk')
    ensures FileOf(disk', fs'.cp, n) == FileOf(disk, fs.cp, n)
  {
    hide PlanOf, After, Intact, U64At, ReadLayout, Decode, Fits, LogLimit, Finished, Cut;
    EndsGood(fs, disk, op, fs', disk');
    var r := Find(fs.cp.files, n);
    if r.Some? {
      var e := fs.cp.files[r.value];
      assert InLog(e, fs.cp.logHead);
      ExtentFrame(disk, disk', e.start, e.sectors);
    }
  }

  lemma WriteEnds(fs: Fs, disk: Disk, name: Str, data: seq<byte>, fs': Fs, disk': Disk)
    requires Ends(fs, disk, Write(name, data), fs', disk')
    ensures |name| <= MAX_NAME && fs.cp.logHead + SectorsFor(|data|) <= |disk|
    ensures var e := NewEntry(name, fs.cp.logHead, |data|);
            && Directory(fs.cp.files, name, Some(e)) == Some(fs'.cp.files)
            && e.start + e.sectors <= |disk'| == |disk|
            && (Content(disk', e) == data <==> |data| < U32)
  {
    hide Directory, Encode, Decode, Fits, Intact, U64At, ReadLayout, Chunk, Extent, SectorsFor;
    var start, k := fs.cp.logHead, SectorsFor(|data|);
    var ws, p := DataWrites(start, data, k), PlanOf(fs, Write(name, data));
    WrittenContent(disk, start, data);
    AfterPrefix(disk, ws, p.writes, k);
    ExtentFrame(After(disk, ws, k), disk', start, k);
  }

  lemma {:induction false} AfterPrefix(disk: Disk, a: seq<SectorWrite>, b: seq<SectorWrite>, n: nat)
    requires n <= |a| && n <= |b| && a[..n] == b[..n]
    ensures After(disk, a, n) == After(disk, b, n)
  {
    if n > 0 {
      assert a[n - 1] == a[..n][n - 1] && a[..n - 1] == a[..n][..n - 1] && b[..n - 1] == b[..n][..n - 1];
      AfterPrefix(disk, a, b, n - 1);
    }
  }

  /**
   What a write does. Its file reads back as the data exactly when the name has no NUL byte and the data is shorter than
   4 GiB; a name with a NUL is never found, however often it is written. No other file changes unless it was hidden so.
   */
  lemma WriteEffect(fs: Fs, disk: Disk, name: Str, data: seq<byte>, fs': Fs, disk': Disk)
    requires Ends(fs, disk, Write(name, data), fs', disk') && Good(fs', disk')
    ensures FileOf(disk', fs'.cp, name) == Some(data) <==> 0 !in name && |data| < U32
    ensures 0 in name ==> FileOf(disk', fs'.cp, name) == None && |fs'.cp.files| == |fs.cp.files| + 1
    ensures forall n: seq<byte> | n != UpToNul(name) :: FileOf(disk', fs'.cp, n) == FileOf(disk, fs.cp, n)
    ensures 0 !in name && Distinct(fs.cp.files) ==> Distinct(fs'.cp.files)
  {
    hide PlanOf, After, Intact, U64At, ReadLayout, Decode, Fits, LogLimit, Finished, Cut, Directory, Content, SectorsFor, Ends, NewEntry, Utf8From, UpToNul, NameStr;
    EndsGood(fs, disk, Write(name, data), fs', disk');
    WriteEnds(fs, disk, name, data, fs', disk');
    var e := NewEntry(name, fs.cp.logHead, |data|);
    EntryName(name, fs.cp.logHead, |data|);
    if 0 !in name {
      UpToNulUnique(name, |name|);
      assert name[..|name|] == name;
      PutLookup(fs.cp.files, name, e, name);
      assert EntryOf(fs'.cp.files, name) == Some(e);
    } else {
      HiddenLookup(fs.cp.files, name, e, name);
    }
    forall n: seq<byte> | n != UpToNul(name) ensures FileOf(disk', fs'.cp, n) == FileOf(disk, fs.cp, n) {
      WriteOthers(fs, disk, name, data, fs', disk', n);
    }
  }

  lemma WriteOthers(fs: Fs, disk: Disk, name: Str, data: seq<byte>, fs': Fs, disk': Disk, n: seq<byte>)
    requires Ends(fs, disk, Write(name, data), fs', disk') && Good(fs', disk') && n != UpToNul(name)
    ensures FileOf(disk', fs'.cp, n) == FileOf(disk, fs.cp, n)
  {
    hide PlanOf, After, Intact, U64At, ReadLayout, Decode, Fits, LogLimit, Finished, Cut, Directory, Content, SectorsFor, FileOf, EntryOf, NewEntry;
    WriteEnds(fs, disk, name, data, fs', disk');
    var e := NewEntry(name, fs.cp.logHead, |data|);
    EntryName(name, fs.cp.logHead, |data|);
    if 0 !in name {
      UpToNulUnique(name, |name|);
      assert name[..|name|] == name;
      PutLookup(fs.cp.files, name, e, n);
    } else {
      HiddenLookup(fs.cp.files, name, e, n);
    }
    KeptFile(fs, disk, Write(name, data), fs', disk', n);
  }

  /** The entry goes under its own name; or it is to go, and no other entry has its name. */
  predicate Fitting(files: seq<FileEntry>, name: seq<byte>, entry: Option<FileEntry>) {
    match entry
    case Some(e) => NameStr(e) == name
    case None => Once(files, name)
  }

  lemma SetLookup(files: seq<FileEntry>, name: seq<byte>, entry: Option<FileEntry>)
    requires Directory(files, name, entry).Some?
    ensures EntryOf(Directory(files, name, entry).value, name) == entry <==> Fitting(files, name, entry)
  {
    hide NameStr, Directory;
    if entry == None { RemoveLookup(files, name, name); }
    else if NameStr(entry.value) == name { PutLookup(files, name, entry.value, name); }
  }

  /**
   What setting an entry does. Its name is found as the entry says, or is gone, if and only if the entry goes under its own
   name, or no other entry has the name; then it reads as the entry says. Unless the entry has another name, every other
   name is as it was.
   */
  lemma SetEffect(fs: Fs, disk: Disk, name: Str, entry: Option<FileEntry>, fs': Fs, disk': Disk)
    requires Ends(fs, disk, SetEntry(name, entry), fs', disk') && Good(fs', disk')
    ensures EntryOf(fs'.cp.files, name) == entry <==> Fitting(fs.cp.files, name, entry)
    ensures entry.Some? ==> entry.value.start + entry.value.sectors <= |disk|
    ensures Fitting(fs.cp.files, name, entry) ==>
              FileOf(disk', fs'.cp, name) == if entry.Some? then Some(Content(disk, entry.value)) else None
    ensures (entry.Some? ==> NameStr(entry.value) == name) ==>
              forall n: seq<byte> | n != name :: FileOf(disk', fs'.cp, n) == FileOf(disk, fs.cp, n)
    ensures Fitting(fs.cp.files, name, entry) && Distinct(fs.cp.files) ==> Distinct(fs'.cp.files)
  {
    hide After, Intact, U64At, ReadLayout, Decode, Encode, Fits, LogLimit, Directory, Content, Distinct, NameStr, Fitting;
    EndsGood(fs, disk, SetEntry(name, entry), fs', disk');
    assert Some(fs'.cp.files) == Directory(fs.cp.files, name, entry);
    SetLookup(fs.cp.files, name, entry);
    if Fitting(fs.cp.files, name, entry) { SetName(fs, disk, name, entry, fs', disk'); }
    if entry.Some? ==> NameStr(entry.value) == name {
      forall n: seq<byte> | n != name ensures FileOf(disk', fs'.cp, n) == FileOf(disk, fs.cp, n) {
        if entry.Some? { PutLookup(fs.cp.files, name, entry.value, n); } else { RemoveLookup(fs.cp.files, name, n); }
        KeptFile(fs, disk, SetEntry(name, entry), fs', disk', n);
      }
    }
  }

  lemma SetName(fs: Fs, disk: Disk, name: Str, entry: Option<FileEntry>, fs': Fs, disk': Disk)
    requires Ends(fs, disk, SetEntry(name, entry), fs', disk') && Good(fs', disk') && Fitting(fs.cp.files, name, entry)
    requires entry.Some? ==> entry.value.start + entry.value.sectors <= |disk|
    requires Some(fs'.cp.files) == Directory(fs.cp.files, name, entry)
    ensures FileOf(disk', fs'.cp, name) == if entry.Some? then Some(Content(disk, entry.value)) else None
    ensures Distinct(fs.cp.files) ==> Distinct(fs'.cp.files)
  {
    hide PlanOf, After, Intact, U64At, ReadLayout, Decode, Encode, Fits, LogLimit, Directory, Finished, Cut, Distinct, NameStr;
    EndsGood(fs, disk, SetEntry(name, entry), fs', disk');
    if entry.Some? {
      PutLookup(fs.cp.files, name, entry.value, name);
      ExtentFrame(disk, disk', entry.value.start, entry.value.sectors);
    } else {
      RemoveLookup(fs.cp.files, name, name);
    }
  }

  // ---- every run ------------------------------------------------------------------------------------

  /** The disk `format` leaves. */
  function Formatted(disk: Disk): Disk
    requires MIN_SECTORS <= |disk| < U64
  {
    var l := LayoutFor(|disk|);
    disk[0 := Superblock(l)][2 := Zeros(SECTOR_SIZE)][1 := Encode(FRESH)][l.auditStart := Zeros(SECTOR_SIZE)][l.otaStart := Zeros(SECTOR_SIZE)]
  }

  lemma FormatIsGood(disk: Disk)
    requires MIN_SECTORS <= |disk| < U64
    ensures MountsAs(Formatted(disk), Fs(FRESH, 0, LayoutFor(|disk|)))
  {
    hide Superblock, Encode, Decode, Intact, U64At, ReadLayout, Mount;
    var l := LayoutFor(|disk|);
    SuperblockReadBack(l);
    assert Fits(FRESH);
    CheckpointRoundTrip(FRESH);
    BlankIsNoCheckpoint();
    MountGood(Fs(FRESH, 0, l), Formatted(disk));
  }

  /** An operation that runs to its end, or one cut short after `n` writes and followed by a mount. */
  datatype Event = Do(op: Op) | PowerCut(op: Op, n: nat)

  datatype Volume = Volume(fs: Fs, disk: Disk)

  predicate CanHappen(v: Volume, e: Event) {
    && Good(v.fs, v.disk) && Sound(v.fs) && Proper(v.fs, e.op)
    && (e.PowerCut? ==> e.n <= |PlanOf(v.fs, e.op).writes| && Mount(Cut(v.fs, v.disk, e.op, e.n)).Ok?)
  }

  function Next(v: Volume, e: Event): Volume
    requires CanHappen(v, e)
  {
    var p := PlanOf(v.fs, e.op);
    if e.Do? then Volume(Finished(v.fs, p), Cut(v.fs, v.disk, e.op, |p.writes|))
    else var d := Cut(v.fs, v.disk, e.op, e.n); Volume(Mount(d).value, d)
  }

  /** Nothing is asked of a run but that entries set are finished parts of the log and cuts fall within operations. */
  predicate History(vs: seq<Volume>, es: seq<Event>) {
    && |vs| == |es| + 1
    && forall i | 0 <= i < |es| ::
         && Proper(vs[i].fs, es[i].op)
         && (CanHappen(vs[i], es[i]) ==> vs[i + 1] == Next(vs[i], es[i]))
         && (es[i].PowerCut? && Sound(vs[i].fs) && AllInLog(vs[i].fs.cp) ==> es[i].n <= |PlanOf(vs[i].fs, es[i].op).writes|)
  }

  lemma EventGood(v: Volume, e: Event)
    requires MountsAs(v.disk, v.fs) && Sound(v.fs) && Proper(v.fs, e.op)
    requires e.PowerCut? ==> e.n <= |PlanOf(v.fs, e.op).writes|
    ensures CanHappen(v, e) && MountsAs(Next(v, e).disk, Next(v, e).fs)
    ensures v.fs.cp.seqno <= Next(v, e).fs.cp.seqno <= v.fs.cp.seqno + 1
  {
    hide PlanOf, Mount, After, Intact, U64At, ReadLayout, Decode, Fits, LogLimit;
    PlanShape(v.fs, e.op);
    FinishedMounts(v.fs, v.disk, e.op);
    if e.PowerCut? { CutIsAtomic(v.fs, v.disk, e.op, e.n); }
  }

  lemma {:induction false} HistoryGood(vs: seq<Volume>, es: seq<Event>, i: nat)
    requires History(vs, es) && MountsAs(vs[0].disk, vs[0].fs) && i <= |es|
    requires vs[0].fs.cp.seqno + |es| < U64
    ensures MountsAs(vs[i].disk, vs[i].fs) && vs[i].fs.cp.seqno <= vs[0].fs.cp.seqno + i
  {
    hide MountsAs, Next, Proper, PlanOf, Sound, CanHappen;
    if i > 0 {
      HistoryGood(vs, es, i - 1);
      MountedSound(vs[i - 1]);
      EventGood(vs[i - 1], es[i - 1]);
    }
  }

  /** The regions `format` reserves: apart, in order, of their sizes, at the end of the disk and after the log's start. */
  lemma RegionsFit(total: nat)
    requires MIN_SECTORS <= total
    ensures var l := LayoutFor(total);
            && LOG_START <= l.otaStart && l.otaStart + (1 + 2 * 64) == l.auditStart && l.auditStart + 2048 == l.spillStart
            && l.spillStart + 16384 == l.total == total
            && l.otaSectors == 1 + 2 * 64 && l.auditSectors == 2048 && l.spillSectors == 16384
  {
  }

  lemma EventClear(v: Volume, e: Event, s: nat)
    requires MountsAs(v.disk, v.fs) && Sound(v.fs) && Proper(v.fs, e.op)
    requires e.PowerCut? ==> e.n <= |PlanOf(v.fs, e.op).writes|
    requires s < |v.disk| && s > 2 && !ClearOf(v.fs.layout, s + 1)
    ensures CanHappen(v, e) && Next(v, e).fs.layout == v.fs.layout && |Next(v, e).disk| == |v.disk| && Next(v, e).disk[s] == v.disk[s]
  {
    hide PlanOf, Mount, Intact, U64At, ReadLayout, Decode, Encode, Fits, LogLimit, Good, ClearOf;
    MountedSound(v);
    EventGood(v, e);
    PlanShape(v.fs, e.op);
    var p := PlanOf(v.fs, e.op);
    var n := if e.PowerCut? then e.n else |p.writes|;
    forall k | 0 <= k < n ensures p.writes[k].at != s {
      if k < |p.writes| - (if p.next.Some? then 1 else 0) { DataStaysClear(v.fs, e.op, k); }
    }
    AfterFrame(v.disk, p.writes, n, s);
    if e.PowerCut? { CutLayout(v.fs, v.disk, e.op, e.n); }
  }

  lemma CutLayout(fs: Fs, disk: Disk, op: Op, n: nat)
    requires MountsAs(disk, fs) && Sound(fs) && Proper(fs, op) && n <= |PlanOf(fs, op).writes|
    ensures Mount(Cut(fs, disk, op, n)).Ok? && Mount(Cut(fs, disk, op, n)).value.layout == fs.layout
  {
    hide PlanOf, Mount, After, Good, FileOf;
    CutIsAtomic(fs, disk, op, n);
  }

  lemma {:induction false} HistoryClear(vs: seq<Volume>, es: seq<Event>, i: nat, s: nat)
    requires History(vs, es) && MountsAs(vs[0].disk, vs[0].fs) && i <= |es| && vs[0].fs.cp.seqno + |es| < U64
    requires 2 < s < |vs[0].disk| && !ClearOf(vs[0].fs.layout, s + 1)
    ensures vs[i].fs.layout == vs[0].fs.layout && |vs[i].disk| == |vs[0].disk| && vs[i].disk[s] == vs[0].disk[s]
  {
    hide MountsAs, Next, Proper, PlanOf, Sound, CanHappen, ClearOf;
    if i > 0 {
      HistoryClear(vs, es, i - 1, s);
      HistoryGood(vs, es, i - 1);
      MountedSound(vs[i - 1]);
      EventClear(vs[i - 1], es[i - 1], s);
    }
  }

  /** No history from a formatted disk, power cuts and all, changes any sector of a reserved region. */
  lemma RegionsAreKept(disk: Disk, vs: seq<Volume>, es: seq<Event>, i: nat, s: nat)
    requires MIN_SECTORS <= |disk| < U64 && History(vs, es) && i <= |es| && |es| + 1 < U64
    requires vs[0] == Volume(Fs(FRESH, 0, LayoutFor(|disk|)), Formatted(disk)) && LayoutFor(|disk|).otaStart <= s < |disk|
    ensures |vs[i].disk| == |disk| && vs[i].disk[s] == Formatted(disk)[s]
  {
    hide MountsAs, History, Formatted;
    FormatIsGood(disk);
    RegionsFit(|disk|);
    assert |Formatted(disk)| == |disk| by { FormattedLength(disk); }
    HistoryClear(vs, es, i, s);
  }

  lemma FormattedLength(disk: Disk)
    requires MIN_SECTORS <= |disk| < U64
    ensures |Formatted(disk)| == |disk|
  {
    hide Superblock, Encode;
  }

  lemma MountedSound(v: Volume)
    requires MountsAs(v.disk, v.fs) && v.fs.cp.seqno + 1 < U64
    ensures Sound(v.fs) && AllInLog(v.fs.cp)
  {
  }

  /**
   Crash consistency. From a freshly formatted disk, after any sequence of writes and entry changes, finished or cut off
   between any two sector writes: the disk mounts as the filesystem that was in memory, and an operation cut off leaves
   every file reading exactly as before it or exactly as after it.
   */
  lemma EveryHistoryIsConsistent(disk: Disk, vs: seq<Volume>, es: seq<Event>, i: nat)
    requires MIN_SECTORS <= |disk| < U64 && History(vs, es) && |es| + 1 < U64 && i <= |es|
    requires vs[0] == Volume(Fs(FRESH, 0, LayoutFor(|disk|)), Formatted(disk))
    ensures MountsAs(vs[i].disk, vs[i].fs)
    ensures i < |es| && es[i].PowerCut? ==>
              && CanHappen(vs[i], Do(es[i].op))
              && (SameFiles(vs[i + 1].disk, vs[i + 1].fs, vs[i].disk, vs[i].fs)
                  || var done := Next(vs[i], Do(es[i].op)); SameFiles(vs[i + 1].disk, vs[i + 1].fs, done.disk, done.fs))
  {
    hide Proper, PlanOf, Sound, Good, Formatted, AllInLog;
    FormatIsGood(disk);
    HistoryGood(vs, es, i);
    if i < |es| && es[i].PowerCut? {
      MountedSound(vs[i]);
      CutOutcome(vs[i], es[i], vs[i + 1]);
    }
  }

  lemma CutOutcome(v: Volume, e: Event, v': Volume)
    requires MountsAs(v.disk, v.fs) && Sound(v.fs) && Proper(v.fs, e.op) && e.PowerCut? && e.n <= |PlanOf(v.fs, e.op).writes|
    requires CanHappen(v, e) ==> v' == Next(v, e)
    ensures CanHappen(v, Do(e.op))
    ensures SameFiles(v'.disk, v'.fs, v.disk, v.fs) || var done := Next(v, Do(e.op)); SameFiles(v'.disk, v'.fs, done.disk, done.fs)
  {
    hide PlanOf, After, Intact, U64At, ReadLayout, Decode, Fits, LogLimit, FileOf;
    EventGood(v, e);
    EventGood(v, Do(e.op));
    CutIsAtomic(v.fs, v.disk, e.op, e.n);
  }
}
