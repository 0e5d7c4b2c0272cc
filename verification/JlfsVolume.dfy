/** JLFS in its own form: a mounted filesystem over a disk, changed in place by loops over sectors and entries. */
module JlfsVolume {
  import opened Wrappers
  import opened Bytes
  import opened J = Jlfs
  import opened L = JlfsLog

  class Filesystem {
    var disk: seq<Sector>
    var cp: Checkpoint
    var slot: nat
    var layout: Layout
    /** Every sector write so far, in order. */
    ghost var trace: seq<SectorWrite>

    ghost function View(): Volume
      reads this
    {
      Volume(Fs(cp, slot, layout), disk)
    }

    ghost predicate Valid()
      reads this
    {
      Good(Fs(cp, slot, layout), disk)
    }

    method WriteSector(at: nat, data: Sector)
      modifies this`disk, this`trace
      ensures disk == Put1(old(disk), SectorWrite(at, data)) && trace == old(trace) + [SectorWrite(at, data)]
    {
      if at < |disk| { disk := disk[at := data]; }
      trace := trace + [SectorWrite(at, data)];
    }

    /** `mount`: the superblock, then the newer of the checkpoints that decode. */
    static method ReadRoot(d: seq<Sector>) returns (r: Result<Fs>)
      requires |d| >= 3
      ensures r == Mount(d)
    {
      hide Decode, Intact, U64At, ReadLayout;
      if U64At(d[0], 0) != SB_MAGIC { return Err("not a JLFS filesystem"); }
      if !Intact(d[0]) { return Err("superblock checksum mismatch"); }
      var best: Option<(nat, Checkpoint)> := None;
      var i := 0;
      while i < 2
        invariant i <= 2
        invariant i == 0 ==> best == None
        invariant i == 1 ==> best == Newest(Decode(d[1]), None)
        invariant i == 2 ==> best == Newest(Decode(d[1]), Decode(d[2]))
      {
        var c := Decode(d[CP_SECTORS[i]]);
        if c.Some? && (best == None || c.value.seqno > best.value.1.seqno) { best := Some((i, c.value)); }
        i := i + 1;
      }
      if best == None { return Err("no valid checkpoint: filesystem is unrecoverable"); }
      r := Ok(Fs(best.value.1, best.value.0, ReadLayout(d[0])));
    }

    method FindEntry(name: Str) returns (r: Option<nat>)
      ensures r == Find(cp.files, name)
    {
      var i := 0;
      while i < |cp.files|
        invariant i <= |cp.files| && PositionFrom(Names(cp.files), name, i) == Find(cp.files, name)
      {
        if NameStr(cp.files[i]) == name { return Some(i); }
        i := i + 1;
      }
      r := None;
    }

    /** `log_limit`. */
    method Limit() returns (n: nat)
      ensures n == LogLimit(layout)
    {
      n := layout.total;
      var rs, i := [layout.otaStart, layout.auditStart, layout.spillStart], 0;
      while i < 3
        invariant i <= 3
        invariant n == [layout.total, Lower(layout.total, layout.otaStart),
                        Lower(Lower(layout.total, layout.otaStart), layout.auditStart), LogLimit(layout)][i]
      {
        if rs[i] != 0 && rs[i] < n { n := rs[i]; }
        i := i + 1;
      }
    }

    /** Read a file into a buffer of `room` bytes. */
    method Read(name: Str, room: nat) returns (r: Result<seq<byte>>)
      requires Valid()
      ensures r.Ok? ==> Some(r.value) == FileOf(disk, cp, name)
      ensures r.Ok? <==> Find(cp.files, name).Some? && cp.files[Find(cp.files, name).value].size <= room
    {
      hide Decode, Intact, U64At, ReadLayout, NameStr, Utf8From, Fits, Extent;
      var at := FindEntry(name);
      if at == None { return Err("no such file"); }
      var e := cp.files[at.value];
      if room < e.size { return Err("buffer too small"); }
      assert InLog(e, cp.logHead);
      var out := ReadEntry(e);
      r := Ok(out);
    }

    method ReadEntry(e: FileEntry) returns (out: seq<byte>)
      requires e.start + e.sectors <= |disk|
      ensures out == Content(disk, e)
    {
      out := [];
      var s := 0;
      while s < e.sectors
        invariant s <= e.sectors && s * SECTOR_SIZE <= e.size
        invariant out == Extent(disk, e.start, s) && |out| == s * SECTOR_SIZE
      {
        var n := if e.size - |out| < SECTOR_SIZE then e.size - |out| else SECTOR_SIZE;
        AppendSector(out, disk[e.start + s], n);
        out := out + disk[e.start + s][..n];
        s := s + 1;
        if |out| == e.size {
          ExtentPrefix(disk, e.start, s, e.sectors);
          SamePrefix(Extent(disk, e.start, e.sectors), Extent(disk, e.start, s), e.size);
          return;
        }
      }
    }

    /** The directory with `name` replaced or added. */
    method Enter(name: Str, e: FileEntry) returns (files: Option<seq<FileEntry>>)
      ensures files == Directory(cp.files, name, Some(e))
    {
      var at := FindEntry(name);
      if at.Some? { return Some(cp.files[at.value := e]); }
      if |cp.files| == MAX_FILES { return None; }
      files := Some(cp.files + [e]);
    }

    /** Append `data` to the log, then commit a root that names it. */
    method WriteFile(name: Str, data: seq<byte>) returns (r: Result<()>)
      requires Valid() && cp.seqno + 1 < U64
      modifies this
      ensures Sound(old(View()).fs) && View() == Next(old(View()), Do(Write(name, data))) && Valid()
      ensures var p := PlanOf(old(View()).fs, Write(name, data));
              trace == old(trace) + p.writes && r == if p.next.Some? then Ok(()) else Err(p.error)
    {
      hide Decode, Encode, Intact, U64At, ReadLayout, NameStr, Utf8From, Fits, Directory, DataWrites, SectorsFor, Extent, LogLimit, After, AllInLog, LaidOut, Mount;
      ghost var v := View();
      ghost var op := Write(name, data);
      MountGood(v.fs, v.disk);
      EventGood(v, Do(op));
      PlanShape(v.fs, op);
      ghost var p := PlanOf(v.fs, op);
      AfterNone(v.disk, p.writes);
      if |name| > MAX_NAME { return Err("name too long"); }
      var sectors, start := SectorsFor(|data|), cp.logHead;
      var limit := Limit();
      if start + sectors > limit { return Err("log is full"); }
      AppendData(data, sectors);
      var files := Enter(name, FileEntry(Padded(name, MAX_NAME), |data| % U32, start, sectors));
      if files == None { return Err("directory is full"); }
      CommitRoot(Checkpoint(cp.seqno + 1, start + sectors, files.value));
      AfterPrefix(v.disk, DataWrites(start, data, sectors), p.writes, sectors);
      AfterLast(v.disk, p.writes);
      r := Ok(());
    }

    method AppendData(data: seq<byte>, sectors: nat)
      requires sectors == SectorsFor(|data|)
      modifies this`disk, this`trace
      ensures disk == After(old(disk), DataWrites(cp.logHead, data, sectors), sectors)
      ensures trace == old(trace) + DataWrites(cp.logHead, data, sectors)
    {
      hide Chunk, SectorsFor;
      var s := 0;
      while s < sectors
        invariant s <= sectors == SectorsFor(|data|)
        invariant disk == After(old(disk), DataWrites(cp.logHead, data, sectors), s)
        invariant trace == old(trace) + DataWrites(cp.logHead, data, s)
      {
        WriteAt(cp.logHead, data, sectors, s);
        var sector := Fill(data, s);
        WriteSector(cp.logHead + s, sector);
        s := s + 1;
      }
    }

    static method Fill(data: seq<byte>, s: nat) returns (sector: Sector)
      requires s * SECTOR_SIZE <= |data|
      ensures sector == Chunk(data, s)
    {
      var from := s * SECTOR_SIZE;
      var n := if |data| - from < SECTOR_SIZE then |data| - from else SECTOR_SIZE;
      sector := data[from..from + n] + Zeros(SECTOR_SIZE - n);
    }

    /** One sector, so it happens or it does not. */
    method CommitRoot(next: Checkpoint)
      requires Fits(next) && slot < 2
      modifies this
      ensures layout == old(layout) && cp == next && slot == 1 - old(slot)
      ensures var w := Commit(Fs(old(cp), old(slot), old(layout)), next);
              disk == Put1(old(disk), w) && trace == old(trace) + [w]
    {
      var target := 1 - slot;
      WriteSector(CP_SECTORS[target], Encode(next));
      cp := next;
      slot := target;
    }

    /** Replace, add or remove a directory entry. */
    method SetFileEntry(name: Str, entry: Option<FileEntry>) returns (r: Result<()>)
      requires Valid() && cp.seqno + 1 < U64 && (entry.Some? ==> InLog(entry.value, cp.logHead))
      modifies this
      ensures Sound(old(View()).fs) && View() == Next(old(View()), Do(SetEntry(name, entry))) && Valid()
      ensures var p := PlanOf(old(View()).fs, SetEntry(name, entry));
              trace == old(trace) + p.writes && r == if p.error == "" then Ok(()) else Err(p.error)
    {
      hide Decode, Encode, Intact, U64At, ReadLayout, NameStr, Utf8From, Fits, Extent, LogLimit, AllInLog, LaidOut, Mount, Find;
      ghost var v := View();
      ghost var op := SetEntry(name, entry);
      MountGood(v.fs, v.disk);
      EventGood(v, Do(op));
      PlanShape(v.fs, op);
      ghost var p := PlanOf(v.fs, op);
      var at := FindEntry(name);
      if at == None && entry == None { return Ok(()); }
      var files: seq<FileEntry>;
      if at.Some? && entry == None {
        files := ShiftDown(cp.files, at.value);
      } else {
        var d := Enter(name, entry.value);
        if d == None { return Err("directory is full"); }
        files := d.value;
      }
      CommitRoot(Checkpoint(cp.seqno + 1, cp.logHead, files));
      AfterLast(v.disk, p.writes);
      r := Ok(());
    }

    /** Remove entry `i` by shifting the tail down. */
    static method ShiftDown(files: seq<FileEntry>, i: nat) returns (r: seq<FileEntry>)
      requires i < |files|
      ensures r == Removed(files, i)
    {
      r := files;
      var j := i;
      while j < |files| - 1
        invariant i <= j <= |files| - 1 && |r| == |files|
        invariant forall k | 0 <= k < i :: r[k] == files[k]
        invariant forall k | i <= k < j :: r[k] == files[k + 1]
        invariant forall k | j <= k < |files| :: r[k] == files[k]
      {
        r := r[j := r[j + 1]];
        j := j + 1;
      }
      r := r[..|files| - 1];
    }

    /** Sectors of log in use, and how many of them no file uses. Entries of one extent under two names may make it negative. */
    method Usage() returns (used: nat, garbage: int)
      requires Valid()
      ensures used == cp.logHead - LOG_START && used - garbage == LiveSectors(cp.files, |cp.files|)
    {
      hide Decode, Intact, U64At, ReadLayout, Fits;
      used := cp.logHead - LOG_START;
      var live, i := 0, 0;
      while i < |cp.files|
        invariant i <= |cp.files| && live == LiveSectors(cp.files, i)
      {
        live := live + cp.files[i].sectors;
        i := i + 1;
      }
      garbage := used - live;
    }
  }

  function LiveSectors(files: seq<FileEntry>, n: nat): nat
    requires n <= |files|
  {
    if n == 0 then 0 else LiveSectors(files, n - 1) + files[n - 1].sectors
  }

  lemma AfterNone(disk: Disk, ws: seq<SectorWrite>)
    ensures After(disk, ws, 0) == disk
  {
  }

  lemma AfterLast(disk: Disk, ws: seq<SectorWrite>)
    requires ws != []
    ensures After(disk, ws, |ws|) == Put1(After(disk, ws, |ws| - 1), ws[|ws| - 1])
  {
  }

  lemma SamePrefix(a: seq<byte>, b: seq<byte>, n: nat)
    requires n <= |b| <= |a| && a[..|b|] == b
    ensures a[..n] == b[..n]
  {
    assert a[..n] == a[..|b|][..n];
  }

  lemma AppendSector(ext: seq<byte>, s: Sector, n: nat)
    requires n <= SECTOR_SIZE
    ensures (ext + s)[..|ext| + n] == ext + s[..n]
  {
  }
}
