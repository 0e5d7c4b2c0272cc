/**
 The key/value cache: blocks in memory up to a budget, the rest spilled to a region of flash, which together must behave as
 a plain map from session and index to contents. Calls are taken one at a time.
 */
module KvCache {
  import opened Wrappers
  import opened Bytes

  const BLOCK_BYTES: nat := 4096
  const SECTORS: nat := 8
  const BUDGET: nat := 64
  const PREFIX: nat := 4

  const FULL := "cache is full and nothing could be evicted"
  const NO_MEMORY := "out of memory"
  const NO_SESSION := "no such session"
  const NO_BLOCK := "no such block"
  const NO_MEMORY_RESTORING := "out of memory restoring a block"
  const LOST := "could not read a spilled block back"

  type Page = s: seq<byte> | |s| == BLOCK_BYTES witness seq(BLOCK_BYTES, _ => 0)

  datatype Block = Resident(frame: nat, used: nat) | Spilled(sector: nat)

  datatype Session = Session(id: nat, blocks: seq<Block>)

  /** What the cache does not decide: the time at each look at the clock, and whether each sector transfer succeeds. */
  datatype Env = Env(ticks: nat -> nat, io: nat -> bool)

  /** `free` is the frame allocator's stack; `looks` and `transfers` count what has been asked of the environment. */
  datatype Cache = Cache(
    sessions: seq<Session>, nextId: nat, resident: int, spillNext: nat, spillEnd: nat,
    mem: map<nat, Page>, disk: map<nat, Sector>, free: seq<nat>, looks: nat, transfers: nat)

  function PageAt(mem: map<nat, Page>, f: nat): Page { if f in mem then mem[f] else seq(BLOCK_BYTES, _ => 0) }

  function SectorAt(disk: map<nat, Sector>, s: nat): Sector { if s in disk then disk[s] else seq(SECTOR_SIZE, _ => 0) }

  function DiskRun(disk: map<nat, Sector>, sector: nat, n: nat): (r: seq<byte>)
    ensures |r| == SECTOR_SIZE * n
    decreases n
  {
    if n == 0 then [] else DiskRun(disk, sector, n - 1) + SectorAt(disk, sector + n - 1)
  }

  /** What a block of a session is filled with. */
  function Pattern(id: nat, index: nat, offset: nat): byte {
    (id * 1103515245 + index * 12345 + offset * 31) % U64 / 8 % 256
  }

  function Filled(id: nat, index: nat, n: nat): (r: seq<byte>)
    ensures |r| == n && forall k | 0 <= k < n :: r[k] == Pattern(id, index, k)
    decreases n
  {
    if n == 0 then [] else Filled(id, index, n - 1) + [Pattern(id, index, n - 1)]
  }

  // ---- the victim -------------------------------------------------------------------------------------------

  function Age(used: nat, now: nat): nat { if used <= now then now - used else 0 }

  function Score(index: nat, used: nat, now: nat): nat {
    if index < PREFIX then Age(used, now) / 8 else Age(used, now) + 1000
  }

  datatype Victim = Victim(si: nat, bi: nat, score: nat, frame: nat)

  function ScanBlocks(si: nat, blocks: seq<Block>, n: nat, now: nat, best: Option<Victim>): Option<Victim>
    requires n <= |blocks|
    decreases n
  {
    if n == 0 then best
    else
      var v := ScanBlocks(si, blocks, n - 1, now, best);
      match blocks[n - 1]
      case Spilled(_) => v
      case Resident(frame, used) =>
        var score := Score(n - 1, used, now);
        if v == None || score > v.value.score then Some(Victim(si, n - 1, score, frame)) else v
  }

  function Worst(sessions: seq<Session>, n: nat, now: nat): Option<Victim>
    requires n <= |sessions|
    decreases n
  {
    if n == 0 then None
    else ScanBlocks(n - 1, sessions[n - 1].blocks, |sessions[n - 1].blocks|, now, Worst(sessions, n - 1, now))
  }

  predicate Has(sessions: seq<Session>, si: nat, bi: nat) { si < |sessions| && bi < |sessions[si].blocks| }

  function BlockAt(sessions: seq<Session>, si: nat, bi: nat): Block
    requires Has(sessions, si, bi)
  {
    sessions[si].blocks[bi]
  }

  predicate IsResident(sessions: seq<Session>, si: nat, bi: nat) { Has(sessions, si, bi) && BlockAt(sessions, si, bi).Resident? }

  function ScoreAt(sessions: seq<Session>, si: nat, bi: nat, now: nat): nat
    requires IsResident(sessions, si, bi)
  {
    Score(bi, BlockAt(sessions, si, bi).used, now)
  }

  predicate Earlier(si: nat, bi: nat, sj: nat, bj: nat) { si < sj || (si == sj && bi < bj) }

  /** `best` is the first of the highest scores among the resident blocks before place (`sn`, `bn`). */
  ghost predicate IsWorst(sessions: seq<Session>, now: nat, sn: nat, bn: nat, best: Option<Victim>) {
    match best
    case None => forall si, bi | IsResident(sessions, si, bi) :: !Earlier(si, bi, sn, bn)
    case Some(v) =>
      && Earlier(v.si, v.bi, sn, bn) && IsResident(sessions, v.si, v.bi)
      && v.frame == BlockAt(sessions, v.si, v.bi).frame && v.score == ScoreAt(sessions, v.si, v.bi, now)
      && forall si, bi | IsResident(sessions, si, bi) && Earlier(si, bi, sn, bn) ::
           ScoreAt(sessions, si, bi, now) <= v.score && (Earlier(si, bi, v.si, v.bi) ==> ScoreAt(sessions, si, bi, now) < v.score)
  }

  lemma {:induction false} ScanBlocksWorst(sessions: seq<Session>, si: nat, n: nat, now: nat, best: Option<Victim>)
    requires si < |sessions| && n <= |sessions[si].blocks| && IsWorst(sessions, now, si, 0, best)
    ensures IsWorst(sessions, now, si, n, ScanBlocks(si, sessions[si].blocks, n, now, best))
    decreases n
  {
    if n > 0 {
      ScanBlocksWorst(sessions, si, n - 1, now, best);
      assert sessions[si].blocks[n - 1] == BlockAt(sessions, si, n - 1);
      assert BlockAt(sessions, si, n - 1).Resident? ==> IsResident(sessions, si, n - 1);
    }
  }

  lemma {:induction false} WorstSoFar(sessions: seq<Session>, n: nat, now: nat)
    requires n <= |sessions|
    ensures IsWorst(sessions, now, n, 0, Worst(sessions, n, now))
    decreases n
  {
    if n > 0 {
      WorstSoFar(sessions, n - 1, now);
      ScanBlocksWorst(sessions, n - 1, |sessions[n - 1].blocks|, now, Worst(sessions, n - 1, now));
    }
  }

  /** The scan finds the first block of the highest score, and finds one whenever any block is resident. */
  lemma VictimIsWorst(sessions: seq<Session>, now: nat)
    ensures match Worst(sessions, |sessions|, now)
      case None => forall si, bi :: !IsResident(sessions, si, bi)
      case Some(v) =>
        && IsResident(sessions, v.si, v.bi) && v.frame == BlockAt(sessions, v.si, v.bi).frame
        && forall si, bi | IsResident(sessions, si, bi) ::
             && ScoreAt(sessions, si, bi, now) <= ScoreAt(sessions, v.si, v.bi, now)
             && (Earlier(si, bi, v.si, v.bi) ==> ScoreAt(sessions, si, bi, now) < ScoreAt(sessions, v.si, v.bi, now))
  {
    hide Worst, Score;
    WorstSoFar(sessions, |sessions|, now);
    forall si, bi | IsResident(sessions, si, bi) ensures Earlier(si, bi, |sessions|, 0) {}
  }

  /** A prefix block goes while a later one is resident only after eight times the later one's age and 8000 ticks more. */
  lemma PrefixGoesLast(sessions: seq<Session>, now: nat, si: nat, bi: nat)
    requires IsResident(sessions, si, bi) && bi >= PREFIX
    ensures Worst(sessions, |sessions|, now).Some?
    ensures var v := Worst(sessions, |sessions|, now).value;
      && IsResident(sessions, v.si, v.bi)
      && (v.bi < PREFIX ==>
            Age(BlockAt(sessions, v.si, v.bi).used, now) >= 8 * Age(BlockAt(sessions, si, bi).used, now) + 8000)
  {
    VictimIsWorst(sessions, now);
  }

  /**
   Who goes, in ages: of two blocks past the prefix the older; of two in the prefix the older, to an eighth; a prefix block
   before a later one only when an eighth of its age is more than a thousand ticks beyond the other's age.
   */
  lemma VictimIsOldest(sessions: seq<Session>, now: nat, si: nat, bi: nat)
    requires IsResident(sessions, si, bi)
    ensures Worst(sessions, |sessions|, now).Some?
    ensures var v := Worst(sessions, |sessions|, now).value;
      && IsResident(sessions, v.si, v.bi)
      && var mine, theirs := Age(BlockAt(sessions, v.si, v.bi).used, now), Age(BlockAt(sessions, si, bi).used, now);
      && (v.bi >= 4 && bi >= 4 ==> mine >= theirs) && (v.bi < 4 && bi < 4 ==> mine / 8 >= theirs / 8)
      && (v.bi < 4 && bi >= 4 ==> mine / 8 >= theirs + 1000) && (v.bi >= 4 && bi < 4 ==> mine + 1000 >= theirs / 8)
  {
    VictimIsWorst(sessions, now);
  }

  // ---- evicting, appending, reading -------------------------------------------------------------------------

  function SetBlock(sessions: seq<Session>, si: nat, bi: nat, b: Block): seq<Session>
    requires Has(sessions, si, bi)
  {
    sessions[si := sessions[si].(blocks := sessions[si].blocks[bi := b])]
  }

  function Look(c: Cache): Cache { c.(looks := c.looks + 1) }

  /** Write sectors `s..` of a frame out from `sector` on; stop at the first that fails. */
  function WriteOut(env: Env, c: Cache, frame: nat, sector: nat, s: nat): (Cache, bool)
    requires s <= SECTORS
    decreases SECTORS - s
  {
    if s == SECTORS then (c, true)
    else
      var tried := c.(transfers := c.transfers + 1);
      if !env.io(c.transfers) then (tried, false)
      else
        var part: Sector := PageAt(c.mem, frame)[s * SECTOR_SIZE..(s + 1) * SECTOR_SIZE];
        WriteOut(env, tried.(disk := c.disk[sector + s := part]), frame, sector, s + 1)
  }

  lemma {:induction false} WriteOutKeeps(env: Env, c: Cache, frame: nat, sector: nat, s: nat)
    requires s <= SECTORS
    ensures var r := WriteOut(env, c, frame, sector, s).0;
      r == c.(disk := r.disk, transfers := r.transfers) && c.transfers <= r.transfers
    decreases SECTORS - s
  {
    if s < SECTORS && env.io(c.transfers) {
      var part: Sector := PageAt(c.mem, frame)[s * SECTOR_SIZE..(s + 1) * SECTOR_SIZE];
      WriteOutKeeps(env, c.(transfers := c.transfers + 1, disk := c.disk[sector + s := part]), frame, sector, s + 1);
    }
  }

  /** The same sessions with as many blocks each. */
  predicate SameShape(a: seq<Session>, b: seq<Session>) {
    && |a| == |b|
    && forall i | 0 <= i < |a| :: a[i].id == b[i].id && |a[i].blocks| == |b[i].blocks|
  }

  /** One victim written out, and its frame freed; put back if the write failed. */
  function Evict(env: Env, c: Cache, v: Victim, now: nat): (r: (Cache, bool))
    requires Has(c.sessions, v.si, v.bi)
    ensures SameShape(c.sessions, r.0.sessions) && r.0.spillNext == c.spillNext + SECTORS && r.0.spillEnd == c.spillEnd
  {
    var sector := c.spillNext;
    WriteOutKeeps(env, c.(spillNext := c.spillNext + SECTORS), v.frame, sector, 0);
    var (out, ok) := WriteOut(env, c.(spillNext := c.spillNext + SECTORS), v.frame, sector, 0);
    if ok then
      (out.(sessions := SetBlock(out.sessions, v.si, v.bi, Spilled(sector)), resident := out.resident - 1, free := [v.frame] + out.free), true)
    else (out.(sessions := SetBlock(out.sessions, v.si, v.bi, Resident(v.frame, now))), false)
  }

  function MakeRoom(env: Env, c: Cache, want: nat): (r: Cache)
    ensures SameShape(c.sessions, r.sessions)
    decreases c.spillEnd - c.spillNext
  {
    var now, c1 := env.ticks(c.looks), Look(c);
    if c1.resident + want <= BUDGET then c1
    else
      match Worst(c1.sessions, |c1.sessions|, now)
      case None => c1
      case Some(v) =>
        VictimIsWorst(c1.sessions, now);
        if c1.spillNext + SECTORS > c1.spillEnd then c1
        else
          var (c2, ok) := Evict(env, c1, v, now);
          if ok then MakeRoom(env, c2, want) else c2
  }

  function Find(sessions: seq<Session>, id: nat): (r: Option<nat>)
    ensures r.Some? ==> r.value < |sessions| && sessions[r.value].id == id
    ensures r == None ==> forall i | 0 <= i < |sessions| :: sessions[i].id != id
  {
    if sessions == [] then None
    else if sessions[0].id == id then Some(0)
    else
      match Find(sessions[1..], id)
      case None => None
      case Some(i) => Some(i + 1)
  }

  /** `added` blocks went in before the call ended. */
  datatype Reply =
    | Opened(id: nat)
    | Appended(added: nat, error: Option<string>)
    | Found(hit: bool, bytes: seq<byte>)
    | NotFound(reason: string)

  function Open(c: Cache): (Cache, Reply) {
    (Look(c).(nextId := c.nextId + 1, sessions := c.sessions + [Session(c.nextId, [])]), Opened(c.nextId))
  }

  function Push(env: Env, c: Cache, si: nat): Cache
    requires si < |c.sessions| && c.free != []
  {
    var frame, s := c.free[0], c.sessions[si];
    var block := Resident(frame, env.ticks(c.looks));
    Look(c).(
      sessions := c.sessions[si := s.(blocks := s.blocks + [block])],
      resident := c.resident + 1,
      free := c.free[1..],
      mem := c.mem[frame := Filled(s.id, |s.blocks|, BLOCK_BYTES)])
  }

  function Append(env: Env, c: Cache, id: nat, count: nat): (Cache, Reply)
    decreases count
  {
    if count == 0 then (c, Appended(0, None))
    else
      var c1 := MakeRoom(env, c, 1);
      if c1.resident >= BUDGET then (c1, Appended(0, Some(FULL)))
      else if c1.free == [] then (c1, Appended(0, Some(NO_MEMORY)))
      else
        match Find(c1.sessions, id)
        case None => (c1.(free := [c1.free[0]] + c1.free[1..]), Appended(0, Some(NO_SESSION)))
        case Some(si) =>
          var (c2, r) := Append(env, Push(env, c1, si), id, count - 1);
          (c2, if r.Appended? then r.(added := r.added + 1) else r)
  }

  /** Read sectors `s..` back into a frame; stop at the first that fails. */
  function ReadIn(env: Env, c: Cache, frame: nat, sector: nat, s: nat): (Cache, bool)
    requires s <= SECTORS
    decreases SECTORS - s
  {
    if s == SECTORS then (c, true)
    else
      var tried := c.(transfers := c.transfers + 1);
      if !env.io(c.transfers) then (tried, false)
      else
        var page: Page := Put(PageAt(c.mem, frame), s * SECTOR_SIZE, SectorAt(c.disk, sector + s));
        ReadIn(env, tried.(mem := c.mem[frame := page]), frame, sector, s + 1)
  }

  lemma {:induction false} ReadInKeeps(env: Env, c: Cache, frame: nat, sector: nat, s: nat)
    requires s <= SECTORS
    ensures var r := ReadIn(env, c, frame, sector, s).0;
      && r == c.(mem := r.mem, transfers := r.transfers) && c.transfers <= r.transfers
      && forall f | f != frame :: PageAt(r.mem, f) == PageAt(c.mem, f)
    decreases SECTORS - s
  {
    if s < SECTORS && env.io(c.transfers) {
      var page: Page := Put(PageAt(c.mem, frame), s * SECTOR_SIZE, SectorAt(c.disk, sector + s));
      ReadInKeeps(env, c.(transfers := c.transfers + 1, mem := c.mem[frame := page]), frame, sector, s + 1);
    }
  }

  function Restore(env: Env, c: Cache, si: nat, bi: nat, sector: nat, now: nat, len: nat): (Cache, Reply)
    requires Has(c.sessions, si, bi)
  {
    var c1 := MakeRoom(env, c, 1);
    if c1.free == [] then (c1, NotFound(NO_MEMORY_RESTORING))
    else
      var frame := c1.free[0];
      ReadInKeeps(env, c1.(free := c1.free[1..]), frame, sector, 0);
      var (c2, ok) := ReadIn(env, c1.(free := c1.free[1..]), frame, sector, 0);
      if !ok then (c2.(free := [frame] + c2.free), NotFound(LOST))
      else
        (c2.(sessions := SetBlock(c2.sessions, si, bi, Resident(frame, now)), resident := c2.resident + 1),
         Found(false, CutTo(PageAt(c2.mem, frame), len)))
  }

  function Read(env: Env, c: Cache, id: nat, index: nat, len: nat): (Cache, Reply) {
    match Find(c.sessions, id)
    case None => (Look(c), NotFound(NO_SESSION))
    case Some(si) =>
      if index >= |c.sessions[si].blocks| then (Look(c), NotFound(NO_BLOCK))
      else
        var now, c1 := env.ticks(c.looks + 1), Look(Look(c));
        match BlockAt(c1.sessions, si, index)
        case Resident(frame, _) =>
          (c1.(sessions := SetBlock(c1.sessions, si, index, Resident(frame, now))), Found(true, CutTo(PageAt(c1.mem, frame), len)))
        case Spilled(sector) => Restore(env, c1, si, index, sector, now, len)
  }

  // ---- what memory and flash hold together ------------------------------------------------------------------

  function FrameOf(b: Block): multiset<nat> { if b.Resident? then multiset{b.frame} else multiset{} }

  function HeldIn(blocks: seq<Block>): multiset<nat> {
    if blocks == [] then multiset{} else HeldIn(blocks[..|blocks| - 1]) + FrameOf(blocks[|blocks| - 1])
  }

  /** The frames of all resident blocks, as often as they occur. */
  function Held(sessions: seq<Session>): multiset<nat> {
    if sessions == [] then multiset{} else Held(sessions[..|sessions| - 1]) + HeldIn(sessions[|sessions| - 1].blocks)
  }

  function Stored(c: Cache, b: Block): seq<byte> {
    match b
    case Resident(f, _) => PageAt(c.mem, f)
    case Spilled(sector) => DiskRun(c.disk, sector, SECTORS)
  }

  /** What the cache stands for: contents by session and index. `all` is every frame it or the allocator has, `start` the spill region's first sector. */
  datatype Model = Model(plain: map<nat, seq<seq<byte>>>, all: multiset<nat>, start: nat)

  predicate Known(c: Cache, g: Model) {
    && (forall i | 0 <= i < |c.sessions| ::
          && c.sessions[i].id < c.nextId && c.sessions[i].id in g.plain
          && |g.plain[c.sessions[i].id]| == |c.sessions[i].blocks|)
    && (forall i, j | 0 <= i < j < |c.sessions| :: c.sessions[i].id != c.sessions[j].id)
    && (forall id | id in g.plain :: Find(c.sessions, id).Some?)
  }

  /** Every frame is free or holds one block, and the counter counts the blocks. */
  ghost predicate Framed(c: Cache, g: Model) {
    && multiset(c.free) + Held(c.sessions) == g.all
    && (forall f | f in g.all :: g.all[f] == 1)
    && c.resident == |Held(c.sessions)|
  }

  predicate IsSpilled(sessions: seq<Session>, si: nat, bi: nat) { Has(sessions, si, bi) && BlockAt(sessions, si, bi).Spilled? }

  /** Spilled blocks lie in the used part of the region, apart from one another. */
  ghost predicate Placed(c: Cache, g: Model) {
    && g.start <= c.spillNext <= c.spillEnd
    && (forall si, bi | IsSpilled(c.sessions, si, bi) ::
          g.start <= BlockAt(c.sessions, si, bi).sector && BlockAt(c.sessions, si, bi).sector + SECTORS <= c.spillNext)
    && (forall si, bi, sj, bj | IsSpilled(c.sessions, si, bi) && IsSpilled(c.sessions, sj, bj) && (si != sj || bi != bj) ::
          DisjointRuns(BlockAt(c.sessions, si, bi).sector, BlockAt(c.sessions, sj, bj).sector))
  }

  predicate DisjointRuns(a: nat, b: nat) { a + SECTORS <= b || b + SECTORS <= a }

  predicate Good(c: Cache, g: Model, si: nat, bi: nat)
    requires Has(c.sessions, si, bi)
  {
    var id := c.sessions[si].id;
    id in g.plain && bi < |g.plain[id]| && Stored(c, c.sessions[si].blocks[bi]) == g.plain[id][bi]
  }

  ghost predicate Faithful(c: Cache, g: Model) { forall si, bi | Has(c.sessions, si, bi) :: Good(c, g, si, bi) }

  ghost predicate Inv(c: Cache, g: Model) { Known(c, g) && Framed(c, g) && Placed(c, g) && Faithful(c, g) }

  // ---- frames -----------------------------------------------------------------------------------------------

  lemma Swap(p: multiset<nat>, a: multiset<nat>, b: multiset<nat>)
    ensures p + a + b == p + b + a && a <= p + a
  {
  }

  lemma Extend(x: multiset<nat>, y: multiset<nat>, a: multiset<nat>, b: multiset<nat>, t: multiset<nat>)
    requires x + a == y + b && a <= y
    ensures (x + t) + a == (y + t) + b && a <= y + t
  {
    assert (x + t) + a == (x + a) + t;
    assert (y + t) + b == (y + b) + t;
  }

  lemma Through(x: multiset<nat>, y: multiset<nat>, p: multiset<nat>, q: multiset<nat>, a: multiset<nat>, b: multiset<nat>)
    requires x + p == y + q && q + a == p + b && a <= p <= y
    ensures x + a == y + b && a <= y
  {
    assert (x + a) + p == (y + b) + p by {
      assert (x + a) + p == (x + p) + a;
      assert (y + q) + a == y + (q + a);
      assert y + (p + b) == (y + b) + p;
    }
    assert forall f: nat :: (x + a)[f] + p[f] == ((x + a) + p)[f] && (y + b)[f] + p[f] == ((y + b) + p)[f];
  }

  lemma HeldInLast(blocks: seq<Block>, front: seq<Block>, b: Block)
    requires blocks == front + [b]
    ensures HeldIn(blocks) == HeldIn(front) + FrameOf(b)
  {
    assert blocks[..|blocks| - 1] == front;
  }

  lemma HeldLast(sessions: seq<Session>, front: seq<Session>, s: Session)
    requires sessions == front + [s]
    ensures Held(sessions) == Held(front) + HeldIn(s.blocks)
  {
    assert sessions[..|sessions| - 1] == front;
  }

  lemma {:induction false} HeldInSet(blocks: seq<Block>, bi: nat, b: Block)
    requires bi < |blocks|
    ensures HeldIn(blocks[bi := b]) + FrameOf(blocks[bi]) == HeldIn(blocks) + FrameOf(b)
    ensures FrameOf(blocks[bi]) <= HeldIn(blocks)
    decreases |blocks|
  {
    hide HeldIn, FrameOf;
    var n := |blocks| - 1;
    var front, last := blocks[..n], blocks[n];
    HeldInLast(blocks, front, last);
    if bi == n {
      HeldInLast(blocks[bi := b], front, b);
      Swap(HeldIn(front), FrameOf(b), FrameOf(last));
      Swap(HeldIn(front), FrameOf(last), FrameOf(b));
    } else {
      HeldInLast(blocks[bi := b], front[bi := b], last);
      HeldInSet(front, bi, b);
      Extend(HeldIn(front[bi := b]), HeldIn(front), FrameOf(blocks[bi]), FrameOf(b), FrameOf(last));
    }
  }

  lemma {:induction false} HeldReplace(sessions: seq<Session>, si: nat, s: Session)
    requires si < |sessions|
    ensures Held(sessions[si := s]) + HeldIn(sessions[si].blocks) == Held(sessions) + HeldIn(s.blocks)
    ensures HeldIn(sessions[si].blocks) <= Held(sessions)
    decreases |sessions|
  {
    hide Held, HeldIn;
    var n := |sessions| - 1;
    var front, last := sessions[..n], sessions[n];
    HeldLast(sessions, front, last);
    if si == n {
      HeldLast(sessions[si := s], front, s);
      Swap(Held(front), HeldIn(s.blocks), HeldIn(last.blocks));
      Swap(Held(front), HeldIn(last.blocks), HeldIn(s.blocks));
    } else {
      HeldLast(sessions[si := s], front[si := s], last);
      HeldReplace(front, si, s);
      Extend(Held(front[si := s]), Held(front), HeldIn(sessions[si].blocks), HeldIn(s.blocks), HeldIn(last.blocks));
    }
  }

  lemma HeldSet(sessions: seq<Session>, si: nat, bi: nat, b: Block)
    requires Has(sessions, si, bi)
    ensures Held(SetBlock(sessions, si, bi, b)) + FrameOf(BlockAt(sessions, si, bi)) == Held(sessions) + FrameOf(b)
    ensures FrameOf(BlockAt(sessions, si, bi)) <= Held(sessions)
  {
    hide Held, HeldIn, FrameOf;
    var was := sessions[si];
    var s := was.(blocks := was.blocks[bi := b]);
    HeldInSet(was.blocks, bi, b);
    HeldReplace(sessions, si, s);
    Through(Held(sessions[si := s]), Held(sessions), HeldIn(was.blocks), HeldIn(s.blocks), FrameOf(was.blocks[bi]), FrameOf(b));
  }

  lemma Cancel(x: multiset<nat>, y: multiset<nat>, p: multiset<nat>, b: multiset<nat>)
    requires x + p == y + (p + b)
    ensures x == y + b
  {
    assert y + (p + b) == (y + b) + p;
    assert forall f: nat :: x[f] + p[f] == (x + p)[f] && (y + b)[f] + p[f] == ((y + b) + p)[f];
  }

  lemma HeldPush(sessions: seq<Session>, si: nat, b: Block)
    requires si < |sessions|
    ensures Held(sessions[si := sessions[si].(blocks := sessions[si].blocks + [b])]) == Held(sessions) + FrameOf(b)
  {
    hide Held, HeldIn, FrameOf;
    var was := sessions[si];
    var s := was.(blocks := was.blocks + [b]);
    HeldInLast(s.blocks, was.blocks, b);
    HeldReplace(sessions, si, s);
    Cancel(Held(sessions[si := s]), Held(sessions), HeldIn(was.blocks), FrameOf(b));
  }

  lemma AtMostOne(free: multiset<nat>, held: multiset<nat>, all: multiset<nat>, f: nat)
    requires free + held == all && forall x | x in all :: all[x] == 1
    ensures free[f] + held[f] <= 1
  {
    assert (free + held)[f] == free[f] + held[f];
  }

  /** No frame holds two blocks. */
  lemma FramesDistinct(c: Cache, g: Model, si: nat, bi: nat, sj: nat, bj: nat)
    requires Framed(c, g) && IsResident(c.sessions, si, bi) && IsResident(c.sessions, sj, bj) && (si != sj || bi != bj)
    ensures BlockAt(c.sessions, si, bi).frame != BlockAt(c.sessions, sj, bj).frame
  {
    hide Held;
    var f := BlockAt(c.sessions, si, bi).frame;
    var without := SetBlock(c.sessions, si, bi, Spilled(0));
    HeldSet(c.sessions, si, bi, Spilled(0));
    assert BlockAt(without, sj, bj) == BlockAt(c.sessions, sj, bj);
    HeldSet(without, sj, bj, Spilled(0));
    AtMostOne(multiset(c.free), Held(c.sessions), g.all, f);
    assert Held(c.sessions)[f] == Held(without)[f] + 1 by {
      assert (Held(without) + multiset{f})[f] == (Held(c.sessions) + multiset{})[f];
    }
  }

  /** A free frame holds no block. */
  lemma FreeIsUnused(c: Cache, g: Model, f: nat, si: nat, bi: nat)
    requires Framed(c, g) && f in c.free && IsResident(c.sessions, si, bi)
    ensures BlockAt(c.sessions, si, bi).frame != f
  {
    hide Held;
    HeldSet(c.sessions, si, bi, Spilled(0));
    assert f in multiset(c.free);
    AtMostOne(multiset(c.free), Held(c.sessions), g.all, f);
  }

  lemma {:induction false} HeldInSome(blocks: seq<Block>)
    requires |HeldIn(blocks)| > 0
    ensures exists bi: nat :: bi < |blocks| && blocks[bi].Resident?
    decreases |blocks|
  {
    var n := |blocks| - 1;
    if !blocks[n].Resident? {
      HeldInSome(blocks[..n]);
      var bi: nat :| bi < |blocks[..n]| && blocks[..n][bi].Resident?;
      assert blocks[bi].Resident?;
    }
  }

  lemma {:induction false} HeldSome(sessions: seq<Session>)
    requires |Held(sessions)| > 0
    ensures exists si: nat, bi: nat :: IsResident(sessions, si, bi)
    decreases |sessions|
  {
    var n := |sessions| - 1;
    if |HeldIn(sessions[n].blocks)| > 0 {
      HeldInSome(sessions[n].blocks);
      var bi: nat :| bi < |sessions[n].blocks| && sessions[n].blocks[bi].Resident?;
      assert IsResident(sessions, n, bi);
    } else {
      HeldSome(sessions[..n]);
      var si: nat, bi: nat :| IsResident(sessions[..n], si, bi);
      assert IsResident(sessions, si, bi);
    }
  }

  // ---- transfers --------------------------------------------------------------------------------------------

  lemma {:induction false} SameRun(a: map<nat, Sector>, b: map<nat, Sector>, sector: nat, n: nat)
    requires forall t: nat | sector <= t < sector + n :: SectorAt(a, t) == SectorAt(b, t)
    ensures DiskRun(a, sector, n) == DiskRun(b, sector, n)
    decreases n
  {
    if n > 0 { SameRun(a, b, sector, n - 1); }
  }

  /** Writing sector `s` of a page to its place carries the run of the first `s` sectors on by one. */
  lemma RunGrows(disk: map<nat, Sector>, sector: nat, s: nat, page: Page)
    requires s < SECTORS && DiskRun(disk, sector, s) == page[..s * SECTOR_SIZE]
    ensures var part: Sector := page[s * SECTOR_SIZE..(s + 1) * SECTOR_SIZE];
      DiskRun(disk[sector + s := part], sector, s + 1) == page[..(s + 1) * SECTOR_SIZE]
  {
    var part: Sector := page[s * SECTOR_SIZE..(s + 1) * SECTOR_SIZE];
    SameRun(disk, disk[sector + s := part], sector, s);
    assert page[..(s + 1) * SECTOR_SIZE] == page[..s * SECTOR_SIZE] + part;
  }

  /** A frame written out whole is found on flash as it was. */
  lemma {:induction false} WriteOutStores(env: Env, c: Cache, frame: nat, sector: nat, s: nat)
    requires s <= SECTORS && DiskRun(c.disk, sector, s) == PageAt(c.mem, frame)[..s * SECTOR_SIZE]
    ensures var (r, ok) := WriteOut(env, c, frame, sector, s);
      ok ==> DiskRun(r.disk, sector, SECTORS) == PageAt(c.mem, frame)
    decreases SECTORS - s
  {
    hide DiskRun, PageAt;
    var page := PageAt(c.mem, frame);
    if s == SECTORS {
      assert page[..SECTORS * SECTOR_SIZE] == page;
    } else if env.io(c.transfers) {
      var part: Sector := page[s * SECTOR_SIZE..(s + 1) * SECTOR_SIZE];
      RunGrows(c.disk, sector, s, page);
      WriteOutStores(env, c.(transfers := c.transfers + 1, disk := c.disk[sector + s := part]), frame, sector, s + 1);
    }
  }

  /** No sector outside its run changes, and it stops short only at a transfer that failed. */
  lemma {:induction false} WriteOutElsewhere(env: Env, c: Cache, frame: nat, sector: nat, s: nat)
    requires s <= SECTORS
    ensures var (r, ok) := WriteOut(env, c, frame, sector, s);
      && (forall t: nat | t < sector || sector + SECTORS <= t :: SectorAt(r.disk, t) == SectorAt(c.disk, t))
      && (!ok ==> exists k: nat :: c.transfers <= k < r.transfers && !env.io(k))
    decreases SECTORS - s
  {
    hide PageAt;
    if s < SECTORS && env.io(c.transfers) {
      var part: Sector := PageAt(c.mem, frame)[s * SECTOR_SIZE..(s + 1) * SECTOR_SIZE];
      WriteOutElsewhere(env, c.(transfers := c.transfers + 1, disk := c.disk[sector + s := part]), frame, sector, s + 1);
    } else if s < SECTORS {
      assert c.transfers <= c.transfers < WriteOut(env, c, frame, sector, s).0.transfers && !env.io(c.transfers);
    }
  }

  /** A spilled block read back whole is what flash held. */
  lemma {:induction false} ReadInGets(env: Env, c: Cache, frame: nat, sector: nat, s: nat)
    requires s <= SECTORS && PageAt(c.mem, frame)[..s * SECTOR_SIZE] == DiskRun(c.disk, sector, s)
    ensures var (r, ok) := ReadIn(env, c, frame, sector, s);
      && (ok ==> PageAt(r.mem, frame) == DiskRun(c.disk, sector, SECTORS))
      && (!ok ==> exists k: nat :: c.transfers <= k < r.transfers && !env.io(k))
    decreases SECTORS - s
  {
    var page := PageAt(c.mem, frame);
    if s == SECTORS {
      assert page[..s * SECTOR_SIZE] == page;
    } else if env.io(c.transfers) {
      var part := SectorAt(c.disk, sector + s);
      var next: Page := Put(page, s * SECTOR_SIZE, part);
      assert next[..(s + 1) * SECTOR_SIZE] == page[..s * SECTOR_SIZE] + part;
      ReadInGets(env, c.(transfers := c.transfers + 1, mem := c.mem[frame := next]), frame, sector, s + 1);
    } else {
      assert c.transfers <= c.transfers < ReadIn(env, c, frame, sector, s).0.transfers && !env.io(c.transfers);
    }
  }

  // ---- every call keeps the invariant -----------------------------------------------------------------------

  lemma {:induction false} FindSame(a: seq<Session>, b: seq<Session>, id: nat)
    requires |a| == |b| && forall i | 0 <= i < |a| :: a[i].id == b[i].id
    ensures Find(a, id) == Find(b, id)
    decreases |a|
  {
    if a != [] && a[0].id != id { FindSame(a[1..], b[1..], id); }
  }

  lemma KnownSame(c: Cache, d: Cache, g: Model)
    requires Known(c, g) && SameShape(c.sessions, d.sessions) && c.nextId == d.nextId
    ensures Known(d, g)
  {
    hide Find;
    forall id | id in g.plain ensures Find(d.sessions, id).Some? { FindSame(c.sessions, d.sessions, id); }
  }

  lemma SetShape(sessions: seq<Session>, si: nat, bi: nat, b: Block)
    requires Has(sessions, si, bi)
    ensures SameShape(sessions, SetBlock(sessions, si, bi, b))
    ensures BlockAt(SetBlock(sessions, si, bi, b), si, bi) == b
    ensures forall sj, bj | Has(sessions, sj, bj) && (sj != si || bj != bi) ::
      BlockAt(SetBlock(sessions, si, bi, b), sj, bj) == BlockAt(sessions, sj, bj)
    ensures forall sj, bj :: Has(SetBlock(sessions, si, bi, b), sj, bj) <==> Has(sessions, sj, bj)
  {
  }

  /** A block's contents stay where its frame, or its run of sectors, is untouched. */
  lemma StaysGood(c: Cache, d: Cache, g: Model, si: nat, bi: nat)
    requires Has(c.sessions, si, bi) && Has(d.sessions, si, bi) && Good(c, g, si, bi)
    requires c.sessions[si].id == d.sessions[si].id && BlockAt(c.sessions, si, bi) == BlockAt(d.sessions, si, bi)
    requires var b := BlockAt(c.sessions, si, bi); b.Resident? ==> PageAt(c.mem, b.frame) == PageAt(d.mem, b.frame)
    requires var b := BlockAt(c.sessions, si, bi);
      b.Spilled? ==> forall t: nat | b.sector <= t < b.sector + SECTORS :: SectorAt(c.disk, t) == SectorAt(d.disk, t)
    ensures Good(d, g, si, bi)
  {
    hide DiskRun, PageAt;
    var b := BlockAt(c.sessions, si, bi);
    if b.Spilled? { SameRun(c.disk, d.disk, b.sector, SECTORS); }
  }

  lemma Cards(a: multiset<nat>, b: multiset<nat>)
    ensures |a + b| == |a| + |b|
  {
  }

  lemma Shift(free: multiset<nat>, less: multiset<nat>, more: multiset<nat>, m: multiset<nat>)
    requires less + m == more
    ensures (m + free) + less == free + more && |more| == |less| + |m|
  {
    Cards(less, m);
    assert (m + free) + less == free + (less + m);
  }

  /** Freeing the frame of a block that leaves memory. */
  lemma FramedOut(c: Cache, d: Cache, g: Model, si: nat, bi: nat, sector: nat)
    requires Framed(c, g) && IsResident(c.sessions, si, bi) && d.sessions == SetBlock(c.sessions, si, bi, Spilled(sector))
    requires d.resident == c.resident - 1 && d.free == [BlockAt(c.sessions, si, bi).frame] + c.free
    ensures Framed(d, g)
  {
    hide Held, SetBlock;
    var f := BlockAt(c.sessions, si, bi).frame;
    HeldSet(c.sessions, si, bi, Spilled(sector));
    assert multiset(d.free) == multiset{f} + multiset(c.free);
    assert Held(c.sessions) + multiset{} == Held(c.sessions);
    Shift(multiset(c.free), Held(d.sessions), Held(c.sessions), multiset{f});
  }

  /** Taking a free frame for a block that comes into memory. */
  lemma FramedIn(c: Cache, d: Cache, g: Model, si: nat, bi: nat, now: nat)
    requires Framed(c, g) && IsSpilled(c.sessions, si, bi) && c.free != []
    requires d.sessions == SetBlock(c.sessions, si, bi, Resident(c.free[0], now))
    requires d.resident == c.resident + 1 && d.free == c.free[1..]
    ensures Framed(d, g)
  {
    hide Held, SetBlock;
    var f := c.free[0];
    HeldSet(c.sessions, si, bi, Resident(f, now));
    assert c.free == [f] + c.free[1..];
    assert multiset(c.free) == multiset{f} + multiset(d.free);
    assert Held(d.sessions) + multiset{} == Held(d.sessions);
    Shift(multiset(d.free), Held(c.sessions), Held(d.sessions), multiset{f});
  }

  lemma FramedTouch(c: Cache, d: Cache, g: Model, si: nat, bi: nat, now: nat)
    requires Framed(c, g) && IsResident(c.sessions, si, bi)
    requires d.sessions == SetBlock(c.sessions, si, bi, Resident(BlockAt(c.sessions, si, bi).frame, now))
    requires d.resident == c.resident && d.free == c.free
    ensures Framed(d, g)
  {
    hide Held, SetBlock;
    HeldSet(c.sessions, si, bi, Resident(BlockAt(c.sessions, si, bi).frame, now));
    Cancel(Held(d.sessions), Held(c.sessions), multiset{BlockAt(c.sessions, si, bi).frame}, multiset{});
  }

  lemma PlacedOut(c: Cache, d: Cache, g: Model, si: nat, bi: nat)
    requires Placed(c, g) && Has(c.sessions, si, bi) && d.sessions == SetBlock(c.sessions, si, bi, Spilled(c.spillNext))
    requires d.spillNext == c.spillNext + SECTORS <= d.spillEnd
    ensures Placed(d, g)
  {
    hide SetBlock;
    SetShape(c.sessions, si, bi, Spilled(c.spillNext));
    forall sj, bj | IsSpilled(d.sessions, sj, bj) && (sj != si || bj != bi)
      ensures IsSpilled(c.sessions, sj, bj) && BlockAt(c.sessions, sj, bj) == BlockAt(d.sessions, sj, bj)
    {
    }
  }

  lemma PlacedFewer(c: Cache, d: Cache, g: Model, si: nat, bi: nat, b: Block)
    requires Placed(c, g) && Has(c.sessions, si, bi) && d.sessions == SetBlock(c.sessions, si, bi, b) && b.Resident?
    requires c.spillNext <= d.spillNext <= d.spillEnd
    ensures Placed(d, g)
  {
    hide SetBlock;
    SetShape(c.sessions, si, bi, b);
    forall sj, bj | IsSpilled(d.sessions, sj, bj)
      ensures IsSpilled(c.sessions, sj, bj) && BlockAt(c.sessions, sj, bj) == BlockAt(d.sessions, sj, bj)
    {
    }
  }

  /** Evicting a block, done or failed, keeps everything; a spilled block is left alone. */
  lemma EvictKeeps(env: Env, c: Cache, g: Model, v: Victim, now: nat)
    requires Inv(c, g) && IsResident(c.sessions, v.si, v.bi) && v.frame == BlockAt(c.sessions, v.si, v.bi).frame
    requires c.spillNext + SECTORS <= c.spillEnd
    ensures var (d, ok) := Evict(env, c, v, now);
      && Inv(d, g)
      && d.resident == c.resident - (if ok then 1 else 0)
      && (!ok ==> exists k: nat :: c.transfers <= k < d.transfers && !env.io(k))
      && c.transfers <= d.transfers && SpillsStay(c.sessions, d.sessions)
  {
    hide SetBlock, WriteOut, Find, Known, Framed, Placed, Good, DiskRun, PageAt;
    var (d, ok) := Evict(env, c, v, now);
    var c0 := c.(spillNext := c.spillNext + SECTORS);
    var (out, _) := WriteOut(env, c0, v.frame, c.spillNext, 0);
    WriteOutKeeps(env, c0, v.frame, c.spillNext, 0);
    WriteOutElsewhere(env, c0, v.frame, c.spillNext, 0);
    KnownSame(c, d, g);
    if ok {
      SetShape(c.sessions, v.si, v.bi, Spilled(c.spillNext));
      FramedOut(c, d, g, v.si, v.bi, c.spillNext);
      PlacedOut(c, d, g, v.si, v.bi);
      StartRun(c0, v.frame, c.spillNext);
      WriteOutStores(env, c0, v.frame, c.spillNext, 0);
      EvictedGood(c, d, g, v, c.spillNext);
    } else {
      SetShape(c.sessions, v.si, v.bi, Resident(v.frame, now));
      FramedTouch(c, d, g, v.si, v.bi, now);
      PlacedFewer(c, d, g, v.si, v.bi, Resident(v.frame, now));
      PutBackGood(c, d, g, v, now);
    }
  }

  predicate Kept(a: seq<Session>, b: seq<Session>, si: nat, bi: nat) {
    IsSpilled(a, si, bi) ==> IsSpilled(b, si, bi) && BlockAt(b, si, bi) == BlockAt(a, si, bi)
  }

  ghost predicate SpillsStay(a: seq<Session>, b: seq<Session>) { forall si, bi :: Kept(a, b, si, bi) }

  lemma StartRun(c: Cache, frame: nat, sector: nat)
    ensures DiskRun(c.disk, sector, 0) == PageAt(c.mem, frame)[..0 * SECTOR_SIZE]
  {
  }

  lemma GoodSpilled(c: Cache, d: Cache, g: Model, si: nat, bi: nat, sector: nat)
    requires IsResident(c.sessions, si, bi) && Good(c, g, si, bi) && Has(d.sessions, si, bi)
    requires BlockAt(d.sessions, si, bi) == Spilled(sector) && d.sessions[si].id == c.sessions[si].id
    requires DiskRun(d.disk, sector, SECTORS) == PageAt(c.mem, BlockAt(c.sessions, si, bi).frame)
    ensures Good(d, g, si, bi)
  {
  }

  lemma EvictedGood(c: Cache, d: Cache, g: Model, v: Victim, sector: nat)
    requires Faithful(c, g) && Placed(c, g) && IsResident(c.sessions, v.si, v.bi) && v.frame == BlockAt(c.sessions, v.si, v.bi).frame
    requires d.sessions == SetBlock(c.sessions, v.si, v.bi, Spilled(sector)) && d.mem == c.mem && sector == c.spillNext
    requires DiskRun(d.disk, sector, SECTORS) == PageAt(c.mem, v.frame)
    requires forall t: nat | t < sector || sector + SECTORS <= t :: SectorAt(d.disk, t) == SectorAt(c.disk, t)
    ensures Faithful(d, g)
  {
    hide SetBlock, Good, DiskRun, PageAt;
    SetShape(c.sessions, v.si, v.bi, Spilled(sector));
    forall si, bi | Has(d.sessions, si, bi)
      ensures Good(d, g, si, bi)
    {
      assert Has(c.sessions, si, bi);
      if si == v.si && bi == v.bi {
        GoodSpilled(c, d, g, si, bi, sector);
      } else {
        assert BlockAt(c.sessions, si, bi).Spilled? ==> IsSpilled(c.sessions, si, bi);
        StaysGood(c, d, g, si, bi);
      }
    }
  }

  lemma GoodTouched(c: Cache, d: Cache, g: Model, si: nat, bi: nat)
    requires IsResident(c.sessions, si, bi) && Good(c, g, si, bi) && IsResident(d.sessions, si, bi)
    requires BlockAt(d.sessions, si, bi).frame == BlockAt(c.sessions, si, bi).frame && d.sessions[si].id == c.sessions[si].id
    requires d.mem == c.mem
    ensures Good(d, g, si, bi)
  {
  }

  lemma PutBackGood(c: Cache, d: Cache, g: Model, v: Victim, now: nat)
    requires Faithful(c, g) && Placed(c, g) && IsResident(c.sessions, v.si, v.bi) && v.frame == BlockAt(c.sessions, v.si, v.bi).frame
    requires d.sessions == SetBlock(c.sessions, v.si, v.bi, Resident(v.frame, now)) && d.mem == c.mem
    requires forall t: nat | t < c.spillNext || c.spillNext + SECTORS <= t :: SectorAt(d.disk, t) == SectorAt(c.disk, t)
    ensures Faithful(d, g)
  {
    hide SetBlock, Good, DiskRun, PageAt;
    SetShape(c.sessions, v.si, v.bi, Resident(v.frame, now));
    forall si, bi | Has(d.sessions, si, bi)
      ensures Good(d, g, si, bi)
    {
      assert Has(c.sessions, si, bi);
      if si == v.si && bi == v.bi {
        GoodTouched(c, d, g, si, bi);
      } else {
        assert BlockAt(c.sessions, si, bi).Spilled? ==> IsSpilled(c.sessions, si, bi);
        StaysGood(c, d, g, si, bi);
      }
    }
  }

  ghost predicate Failed(env: Env, from: nat, to: nat) { exists k: nat :: from <= k < to && !env.io(k) }

  lemma SpillsStayTrans(a: seq<Session>, b: seq<Session>, c: seq<Session>)
    requires SpillsStay(a, b) && SpillsStay(b, c)
    ensures SpillsStay(a, c)
  {
    forall si, bi ensures Kept(a, c, si, bi) { assert Kept(a, b, si, bi) && Kept(b, c, si, bi); }
  }

  lemma LookKeeps(c: Cache, g: Model)
    requires Inv(c, g)
    ensures Inv(Look(c), g)
  {
    forall si, bi | Has(c.sessions, si, bi) ensures Good(Look(c), g, si, bi) { assert Good(c, g, si, bi); }
  }

  /** Making room keeps every block's contents; it ends short of the budget only when the region is full or a write failed. */
  lemma {:induction false} MakeRoomKeeps(env: Env, c: Cache, g: Model, want: nat)
    requires Inv(c, g) && want <= BUDGET
    ensures var d := MakeRoom(env, c, want);
      && Inv(d, g) && SpillsStay(c.sessions, d.sessions) && c.transfers <= d.transfers && d.resident <= c.resident
      && (d.resident + want <= BUDGET || d.spillNext + SECTORS > d.spillEnd || Failed(env, c.transfers, d.transfers))
    decreases c.spillEnd - c.spillNext
  {
    hide Inv, Evict, Worst;
    var now, c1 := env.ticks(c.looks), Look(c);
    LookKeeps(c, g);
    assert SpillsStay(c.sessions, c1.sessions);
    VictimIsWorst(c1.sessions, now);
    if c1.resident + want > BUDGET {
      SomeResident(c1, g);
      var v := Worst(c1.sessions, |c1.sessions|, now).value;
      if c1.spillNext + SECTORS <= c1.spillEnd {
        EvictKeeps(env, c1, g, v, now);
        var (c2, ok) := Evict(env, c1, v, now);
        if ok {
          MakeRoomKeeps(env, c2, g, want);
          var d := MakeRoom(env, c2, want);
          SpillsStayTrans(c.sessions, c2.sessions, d.sessions);
          if Failed(env, c2.transfers, d.transfers) {
            var k: nat :| c2.transfers <= k < d.transfers && !env.io(k);
            assert Failed(env, c.transfers, d.transfers);
          }
        }
      }
    }
  }

  /** Making room evicts nothing when there is room, and no more than is needed when there is not. */
  lemma {:induction false} EvictsOnlyAsNeeded(env: Env, c: Cache, g: Model, want: nat)
    requires Inv(c, g) && want <= BUDGET
    ensures var d := MakeRoom(env, c, want);
      && (c.resident + want <= 64 ==> d == Look(c))
      && (d.resident < c.resident ==> d.resident + want >= 64)
    decreases c.spillEnd - c.spillNext
  {
    hide Inv, Evict, Worst;
    var now, c1 := env.ticks(c.looks), Look(c);
    LookKeeps(c, g);
    VictimIsWorst(c1.sessions, now);
    if c1.resident + want > BUDGET {
      SomeResident(c1, g);
      var v := Worst(c1.sessions, |c1.sessions|, now).value;
      if c1.spillNext + SECTORS <= c1.spillEnd {
        EvictKeeps(env, c1, g, v, now);
        var (c2, ok) := Evict(env, c1, v, now);
        if ok { EvictsOnlyAsNeeded(env, c2, g, want); }
      }
    }
  }

  lemma SomeResident(c: Cache, g: Model)
    requires Inv(c, g) && c.resident > 0
    ensures exists si: nat, bi: nat :: IsResident(c.sessions, si, bi)
  {
    HeldSome(c.sessions);
  }

  function Grown(plain: map<nat, seq<seq<byte>>>, id: nat): map<nat, seq<seq<byte>>> {
    if id in plain then plain[id := plain[id] + [Filled(id, |plain[id]|, BLOCK_BYTES)]] else plain
  }

  lemma PushKeeps(env: Env, c: Cache, g: Model, si: nat)
    requires Inv(c, g) && si < |c.sessions| && c.free != []
    ensures Inv(Push(env, c, si), g.(plain := Grown(g.plain, c.sessions[si].id)))
  {
    hide Known, Framed, Placed, Faithful, Held, PageAt, DiskRun, Filled, Grown;
    var d, h := Push(env, c, si), g.(plain := Grown(g.plain, c.sessions[si].id));
    PushKnown(c, d, g, si, Resident(c.free[0], env.ticks(c.looks)));
    PushFramed(c, d, g, si, Resident(c.free[0], env.ticks(c.looks)));
    SameFrames(d, g, h);
    PushPlaced(c, d, g, h, si, Resident(c.free[0], env.ticks(c.looks)));
    PushGood(env, c, g, si);
  }

  lemma SameFrames(c: Cache, g: Model, h: Model)
    requires Framed(c, g) && g.all == h.all
    ensures Framed(c, h)
  {
  }

  lemma PushKnown(c: Cache, d: Cache, g: Model, si: nat, b: Block)
    requires Known(c, g) && si < |c.sessions| && d.nextId == c.nextId
    requires d.sessions == c.sessions[si := c.sessions[si].(blocks := c.sessions[si].blocks + [b])]
    ensures Known(d, g.(plain := Grown(g.plain, c.sessions[si].id)))
  {
    hide Find, Filled;
    var id := c.sessions[si].id;
    forall x | x in Grown(g.plain, id) ensures Find(d.sessions, x).Some? { FindSame(c.sessions, d.sessions, x); }
  }

  lemma PushPlaced(c: Cache, d: Cache, g: Model, h: Model, si: nat, b: Block)
    requires Placed(c, g) && si < |c.sessions| && b.Resident? && h.start == g.start
    requires d.spillNext == c.spillNext && d.spillEnd == c.spillEnd
    requires d.sessions == c.sessions[si := c.sessions[si].(blocks := c.sessions[si].blocks + [b])]
    ensures Placed(d, h)
  {
    assert d.sessions[si].blocks[|c.sessions[si].blocks|] == b;
    forall sj, bj | IsSpilled(d.sessions, sj, bj)
      ensures IsSpilled(c.sessions, sj, bj) && BlockAt(d.sessions, sj, bj) == BlockAt(c.sessions, sj, bj)
    {
    }
  }

  lemma PushFramed(c: Cache, d: Cache, g: Model, si: nat, b: Block)
    requires Framed(c, g) && si < |c.sessions| && c.free != [] && b.Resident? && b.frame == c.free[0]
    requires d.sessions == c.sessions[si := c.sessions[si].(blocks := c.sessions[si].blocks + [b])]
    requires d.resident == c.resident + 1 && d.free == c.free[1..]
    ensures Framed(d, g)
  {
    hide Held;
    HeldPush(c.sessions, si, b);
    assert c.free == [b.frame] + c.free[1..];
    assert multiset(c.free) == multiset{b.frame} + multiset(d.free);
    Shift(multiset(d.free), Held(c.sessions), Held(d.sessions), multiset{b.frame});
  }

  lemma PushGood(env: Env, c: Cache, g: Model, si: nat)
    requires Inv(c, g) && si < |c.sessions| && c.free != []
    ensures Faithful(Push(env, c, si), g.(plain := Grown(g.plain, c.sessions[si].id)))
  {
    hide Find, Held, DiskRun, Filled;
    var d, n, id := Push(env, c, si), |c.sessions[si].blocks|, c.sessions[si].id;
    var h := g.(plain := Grown(g.plain, id));
    forall sj, bj | Has(d.sessions, sj, bj)
      ensures Good(d, h, sj, bj)
    {
      if !(sj == si && bj == n) {
        assert Has(c.sessions, sj, bj) && Good(c, g, sj, bj);
        var b := BlockAt(c.sessions, sj, bj);
        assert BlockAt(d.sessions, sj, bj) == b;
        if b.Resident? { FreeIsUnused(c, g, c.free[0], sj, bj); }
      }
    }
  }

  /** The plain map after `k` more blocks. */
  function Extended(plain: map<nat, seq<seq<byte>>>, id: nat, k: nat): map<nat, seq<seq<byte>>>
    decreases k
  {
    if k == 0 then plain else Extended(Grown(plain, id), id, k - 1)
  }

  lemma FindKnown(c: Cache, g: Model, id: nat)
    requires Known(c, g)
    ensures id in g.plain <==> Find(c.sessions, id).Some?
    ensures id in g.plain ==> |c.sessions[Find(c.sessions, id).value].blocks| == |g.plain[id]|
  {
  }

  /**
   An append adds its blocks, filled, to that session alone, and a successful one is within budget; a failed one has added
   fewer and names a cause that is real.
   */
  lemma {:induction false} AppendKeeps(env: Env, c: Cache, g: Model, id: nat, count: nat)
    requires Inv(c, g)
    ensures var (d, r) := Append(env, c, id, count);
      && r.Appended? && r.added <= count && (r.error == None <==> r.added == count)
      && Inv(d, g.(plain := Extended(g.plain, id, r.added))) && c.transfers <= d.transfers
      && (r.error == None && count > 0 ==> id in g.plain && d.resident <= BUDGET)
      && (r.error == Some(NO_SESSION) ==> id !in g.plain)
      && (r.error == Some(NO_MEMORY) ==> d.free == [])
      && (r.error == Some(FULL) ==> d.spillNext + SECTORS > d.spillEnd || Failed(env, c.transfers, d.transfers))
    decreases count
  {
    hide Inv, MakeRoom, Find, Push, Grown, Failed;
    AppendErrors();
    if count > 0 {
      var c1 := MakeRoom(env, c, 1);
      MakeRoomKeeps(env, c, g, 1);
      assert id in g.plain <==> Find(c1.sessions, id).Some? by {
        Parts(c1, g);
        FindKnown(c1, g, id);
      }
      if c1.resident < BUDGET && c1.free != [] {
        match Find(c1.sessions, id)
        case None =>
          assert [c1.free[0]] + c1.free[1..] == c1.free;
        case Some(si) =>
          PushKeeps(env, c1, g, si);
          var c2, h := Push(env, c1, si), g.(plain := Grown(g.plain, id));
          PushCounts(env, c1, si);
          GrownKeys(g.plain, id);
          AppendKeeps(env, c2, h, id, count - 1);
          FailedLater(env, c.transfers, c2.transfers, Append(env, c2, id, count - 1).0.transfers);
      }
    }
  }

  lemma AppendErrors()
    ensures FULL != NO_MEMORY && FULL != NO_SESSION && NO_MEMORY != NO_SESSION
  {
    assert FULL[0] != NO_MEMORY[0] && FULL[0] != NO_SESSION[0] && NO_MEMORY[0] != NO_SESSION[0];
  }

  lemma GrownKeys(plain: map<nat, seq<seq<byte>>>, id: nat)
    ensures Grown(plain, id).Keys == plain.Keys
  {
  }

  lemma PushCounts(env: Env, c: Cache, si: nat)
    requires si < |c.sessions| && c.free != []
    ensures Push(env, c, si).resident == c.resident + 1 && Push(env, c, si).transfers == c.transfers
  {
  }

  lemma Parts(c: Cache, g: Model)
    requires Inv(c, g)
    ensures Known(c, g) && Framed(c, g) && Placed(c, g) && Faithful(c, g)
  {
  }

  // ---- reading back -----------------------------------------------------------------------------------------

  lemma TouchKeeps(c: Cache, g: Model, si: nat, bi: nat, now: nat)
    requires Inv(c, g) && IsResident(c.sessions, si, bi)
    ensures Inv(c.(sessions := SetBlock(c.sessions, si, bi, Resident(BlockAt(c.sessions, si, bi).frame, now))), g)
  {
    hide SetBlock, Find, Known, Framed, Placed, Good, DiskRun, PageAt;
    var f := BlockAt(c.sessions, si, bi).frame;
    var d := c.(sessions := SetBlock(c.sessions, si, bi, Resident(f, now)));
    SetShape(c.sessions, si, bi, Resident(f, now));
    KnownSame(c, d, g);
    FramedTouch(c, d, g, si, bi, now);
    assert Placed(c, g) && c.spillNext <= c.spillEnd by { Region(c, g); }
    PlacedFewer(c, d, g, si, bi, Resident(f, now));
    PutBackGood(c, d, g, Victim(si, bi, 0, f), now);
  }

  lemma Region(c: Cache, g: Model)
    requires Inv(c, g)
    ensures Placed(c, g) && g.start <= c.spillNext <= c.spillEnd
  {
  }

  /** A frame brought back in, or given up half-way. */
  lemma RestoredKeeps(env: Env, c: Cache, g: Model, si: nat, bi: nat, now: nat)
    requires Inv(c, g) && IsSpilled(c.sessions, si, bi) && c.free != []
    ensures var sector, f := BlockAt(c.sessions, si, bi).sector, c.free[0];
      var (d, ok) := ReadIn(env, c.(free := c.free[1..]), f, sector, 0);
      && d.sessions == c.sessions && c.transfers <= d.transfers && d.resident == c.resident
      && (ok ==> Inv(d.(sessions := SetBlock(c.sessions, si, bi, Resident(f, now)), resident := c.resident + 1), g))
      && (ok ==> PageAt(d.mem, f) == Stored(c, BlockAt(c.sessions, si, bi)))
      && (!ok ==> Inv(d.(free := [f] + d.free), g) && Failed(env, c.transfers, d.transfers))
      && d.free == c.free[1..] && d.spillNext == c.spillNext && d.spillEnd == c.spillEnd
  {
    hide SetBlock, ReadIn, Find, Known, Framed, Placed, Good, DiskRun, PageAt;
    var sector, f, c0 := BlockAt(c.sessions, si, bi).sector, c.free[0], c.(free := c.free[1..]);
    var (d, ok) := ReadIn(env, c0, f, sector, 0);
    ReadInKeeps(env, c0, f, sector, 0);
    StartRun(c0, f, sector);
    ReadInGets(env, c0, f, sector, 0);
    if ok {
      var e := d.(sessions := SetBlock(c.sessions, si, bi, Resident(f, now)), resident := c.resident + 1);
      SetShape(c.sessions, si, bi, Resident(f, now));
      KnownSame(c, e, g);
      FramedIn(c, e, g, si, bi, now);
      Region(c, g);
      PlacedFewer(c, e, g, si, bi, Resident(f, now));
      RestoredGood(c, e, g, si, bi, f, now);
    } else {
      var e := d.(free := [f] + d.free);
      assert e.free == c.free;
      assert Failed(env, c.transfers, d.transfers);
      GivenUp(c, e, g, f);
    }
  }

  lemma GivenUp(c: Cache, e: Cache, g: Model, f: nat)
    requires Inv(c, g) && f in c.free && e == c.(mem := e.mem, transfers := e.transfers)
    requires forall x: nat | x != f :: PageAt(e.mem, x) == PageAt(c.mem, x)
    ensures Inv(e, g)
  {
    hide Find, Held, Good, DiskRun, PageAt;
    forall si, bi | Has(e.sessions, si, bi)
      ensures Good(e, g, si, bi)
    {
      if IsResident(c.sessions, si, bi) { FreeIsUnused(c, g, f, si, bi); }
      StaysGood(c, e, g, si, bi);
    }
  }

  lemma GoodRestored(c: Cache, e: Cache, g: Model, si: nat, bi: nat)
    requires IsSpilled(c.sessions, si, bi) && Good(c, g, si, bi) && IsResident(e.sessions, si, bi)
    requires e.sessions[si].id == c.sessions[si].id
    requires PageAt(e.mem, BlockAt(e.sessions, si, bi).frame) == DiskRun(c.disk, BlockAt(c.sessions, si, bi).sector, SECTORS)
    ensures Good(e, g, si, bi)
  {
  }

  lemma RestoredGood(c: Cache, e: Cache, g: Model, si: nat, bi: nat, f: nat, now: nat)
    requires Inv(c, g) && IsSpilled(c.sessions, si, bi) && f in c.free && e.disk == c.disk
    requires e.sessions == SetBlock(c.sessions, si, bi, Resident(f, now))
    requires PageAt(e.mem, f) == DiskRun(c.disk, BlockAt(c.sessions, si, bi).sector, SECTORS)
    requires forall x: nat | x != f :: PageAt(e.mem, x) == PageAt(c.mem, x)
    ensures Faithful(e, g)
  {
    hide SetBlock, Find, Held, Good, DiskRun, PageAt;
    SetShape(c.sessions, si, bi, Resident(f, now));
    forall sj, bj | Has(e.sessions, sj, bj)
      ensures Good(e, g, sj, bj)
    {
      assert Has(c.sessions, sj, bj);
      if sj == si && bj == bi {
        GoodRestored(c, e, g, si, bi);
      } else {
        if IsResident(c.sessions, sj, bj) { FreeIsUnused(c, g, f, sj, bj); }
        StaysGood(c, e, g, sj, bj);
      }
    }
  }

  lemma Same(c: Cache, g: Model, si: nat, bi: nat, id: nat)
    requires Inv(c, g) && Has(c.sessions, si, bi) && c.sessions[si].id == id
    ensures id in g.plain && bi < |g.plain[id]| && Stored(c, BlockAt(c.sessions, si, bi)) == g.plain[id][bi]
  {
    assert Good(c, g, si, bi);
  }

  lemma RestoreKeeps(env: Env, c: Cache, g: Model, si: nat, bi: nat, now: nat, len: nat)
    requires Inv(c, g) && IsSpilled(c.sessions, si, bi)
    ensures var (d, r) := Restore(env, c, si, bi, BlockAt(c.sessions, si, bi).sector, now, len);
      var id := c.sessions[si].id;
      && Inv(d, g) && c.transfers <= d.transfers
      && id in g.plain && bi < |g.plain[id]|
      && (r == Found(false, CutTo(g.plain[id][bi], len)) || (r == NotFound(NO_MEMORY_RESTORING) && d.free == [])
          || (r == NotFound(LOST) && Failed(env, c.transfers, d.transfers)))
      && (d.resident <= BUDGET || d.spillNext + SECTORS > d.spillEnd || Failed(env, c.transfers, d.transfers))
  {
    hide Inv, MakeRoom, ReadIn, SetBlock, PageAt, CutTo, Stored;
    var c1 := MakeRoom(env, c, 1);
    MakeRoomKeeps(env, c, g, 1);
    assert Kept(c.sessions, c1.sessions, si, bi);
    Same(c, g, si, bi, c.sessions[si].id);
    Same(c1, g, si, bi, c.sessions[si].id);
    if c1.free != [] {
      RestoredKeeps(env, c1, g, si, bi, now);
      FailedLater(env, c.transfers, c1.transfers, Restore(env, c, si, bi, BlockAt(c.sessions, si, bi).sector, now, len).0.transfers);
    }
  }

  lemma FailedLater(env: Env, a: nat, b: nat, c: nat)
    requires a <= b <= c
    ensures Failed(env, b, c) ==> Failed(env, a, c)
    ensures Failed(env, a, b) ==> Failed(env, a, c)
  {
    if Failed(env, b, c) {
      var k: nat :| b <= k < c && !env.io(k);
      assert Failed(env, a, c);
    }
    if Failed(env, a, b) {
      var k: nat :| a <= k < b && !env.io(k);
      assert Failed(env, a, c);
    }
  }

  lemma HitKeeps(c: Cache, g: Model, si: nat, bi: nat, now: nat)
    requires Inv(c, g) && IsResident(c.sessions, si, bi)
    ensures Inv(c.(sessions := SetBlock(c.sessions, si, bi, Resident(BlockAt(c.sessions, si, bi).frame, now))), g)
    ensures var id := c.sessions[si].id;
      id in g.plain && bi < |g.plain[id]| && PageAt(c.mem, BlockAt(c.sessions, si, bi).frame) == g.plain[id][bi]
  {
    hide Inv, SetBlock, PageAt;
    TouchKeeps(c, g, si, bi, now);
    Same(c, g, si, bi, c.sessions[si].id);
  }

  /**
   A read finds what the plain map holds, resident or spilled, and says which it was; it fails exactly for a session or
   block that does not exist, or for a frame or a transfer that is not to be had.
   */
  lemma ReadKeeps(env: Env, c: Cache, g: Model, id: nat, index: nat, len: nat)
    requires Inv(c, g)
    ensures var (d, r) := Read(env, c, id, index, len);
      && Inv(d, g) && c.transfers <= d.transfers
      && (id !in g.plain ==> r == NotFound(NO_SESSION))
      && (id in g.plain && index >= |g.plain[id]| ==> r == NotFound(NO_BLOCK))
      && (id in g.plain && index < |g.plain[id]| ==>
            && Find(c.sessions, id).Some? && Has(c.sessions, Find(c.sessions, id).value, index)
            && var hit := BlockAt(c.sessions, Find(c.sessions, id).value, index).Resident?;
            || r == Found(hit, CutTo(g.plain[id][index], len))
            || (r == NotFound(NO_MEMORY_RESTORING) && d.free == [])
            || (r == NotFound(LOST) && Failed(env, c.transfers, d.transfers)))
      && (d.resident <= BUDGET || d.resident == c.resident || d.spillNext + SECTORS > d.spillEnd
          || Failed(env, c.transfers, d.transfers))
  {
    hide Inv, Find, Restore, SetBlock, PageAt, CutTo, Stored;
    assert (id in g.plain <==> Find(c.sessions, id).Some?)
      && (id in g.plain ==> |c.sessions[Find(c.sessions, id).value].blocks| == |g.plain[id]|) by {
      Parts(c, g);
      FindKnown(c, g, id);
    }
    LookKeeps(c, g);
    LookKeeps(Look(c), g);
    match Find(c.sessions, id)
    case None =>
    case Some(si) =>
      if index < |c.sessions[si].blocks| {
        var now, c1 := env.ticks(c.looks + 1), Look(Look(c));
        if IsResident(c1.sessions, si, index) {
          HitKeeps(c1, g, si, index, now);
        } else {
          RestoreKeeps(env, c1, g, si, index, now, len);
        }
      }
  }

  /** A block that has been read is in memory and as new as the read, so that it is the last of its kind to go. */
  lemma ReadRefreshes(env: Env, c: Cache, g: Model, id: nat, index: nat, len: nat)
    requires Inv(c, g) && Read(env, c, id, index, len).1.Found?
    ensures Find(c.sessions, id).Some?
    ensures var d, si := Read(env, c, id, index, len).0, Find(c.sessions, id).value;
      IsResident(d.sessions, si, index) && BlockAt(d.sessions, si, index).used == env.ticks(c.looks + 1)
  {
    hide Inv, MakeRoom, ReadIn, PageAt, CutTo, Find;
    var si, c1 := Find(c.sessions, id).value, Look(Look(c));
    var now := env.ticks(c.looks + 1);
    if IsSpilled(c1.sessions, si, index) {
      var c2 := MakeRoom(env, c1, 1);
      ReadInKeeps(env, c2.(free := c2.free[1..]), c2.free[0], BlockAt(c1.sessions, si, index).sector, 0);
      SetShape(c2.sessions, si, index, Resident(c2.free[0], now));
    } else {
      SetShape(c1.sessions, si, index, Resident(BlockAt(c1.sessions, si, index).frame, now));
    }
  }

  // ---- every run --------------------------------------------------------------------------------------------

  datatype Op = DoOpen | DoAppend(id: nat, count: nat) | DoRead(id: nat, index: nat, len: nat)

  function Apply(env: Env, c: Cache, op: Op): (Cache, Reply) {
    match op
    case DoOpen => Open(c)
    case DoAppend(id, count) => Append(env, c, id, count)
    case DoRead(id, index, len) => Read(env, c, id, index, len)
  }

  /** What a plain map of contents, with no memory, flash or budget, could have replied. */
  predicate Honest(plain: map<nat, seq<seq<byte>>>, op: Op, r: Reply) {
    match op
    case DoOpen => r.Opened? && r.id !in plain
    case DoAppend(id, count) =>
      && r.Appended? && r.added <= count && (r.error == None <==> r.added == count)
      && (r.added > 0 ==> id in plain)
    case DoRead(id, index, len) =>
      if id !in plain then r == NotFound(NO_SESSION)
      else if index >= |plain[id]| then r == NotFound(NO_BLOCK)
      else
        || (r.Found? && r.bytes == CutTo(plain[id][index], len))
        || r in {NotFound(NO_MEMORY_RESTORING), NotFound(LOST)}
  }

  function PlainAfter(plain: map<nat, seq<seq<byte>>>, op: Op, r: Reply): map<nat, seq<seq<byte>>> {
    match op
    case DoOpen => if r.Opened? then plain[r.id := []] else plain
    case DoAppend(id, _) => if r.Appended? then Extended(plain, id, r.added) else plain
    case DoRead(_, _, _) => plain
  }

  lemma {:induction false} FindLast(sessions: seq<Session>, s: Session, id: nat)
    ensures Find(sessions + [s], id) == match Find(sessions, id)
      case Some(i) => Some(i)
      case None => if s.id == id then Some(|sessions|) else None
    decreases |sessions|
  {
    if sessions == [] {
      assert (sessions + [s])[1..] == [];
    } else {
      assert (sessions + [s])[1..] == sessions[1..] + [s];
      FindLast(sessions[1..], s, id);
    }
  }

  lemma NextIsNew(c: Cache, g: Model)
    requires Known(c, g)
    ensures c.nextId !in g.plain
  {
    assert forall i | 0 <= i < |c.sessions| :: c.sessions[i].id < c.nextId;
    assert Find(c.sessions, c.nextId) == None;
  }

  lemma OpenKnown(c: Cache, d: Cache, g: Model, h: Model)
    requires Known(c, g) && d.nextId == c.nextId + 1 && d.sessions == c.sessions + [Session(c.nextId, [])]
    requires h.plain == g.plain[c.nextId := []]
    ensures Known(d, h)
  {
    hide Find;
    forall x | x in h.plain ensures Find(d.sessions, x).Some? { FindLast(c.sessions, Session(c.nextId, []), x); }
  }

  lemma OpenKeeps(c: Cache, g: Model)
    requires Inv(c, g)
    ensures var (d, r) := Open(c);
      r == Opened(c.nextId) && c.nextId !in g.plain && Inv(d, g.(plain := g.plain[c.nextId := []]))
  {
    hide Known, Held, Stored, Find;
    var d, h := Open(c).0, g.(plain := g.plain[c.nextId := []]);
    NextIsNew(c, g);
    OpenKnown(c, d, g, h);
    HeldLast(d.sessions, c.sessions, Session(c.nextId, []));
    assert Held(d.sessions) == Held(c.sessions) by { assert HeldIn([]) == multiset{}; }
    forall si, bi | Has(d.sessions, si, bi)
      ensures Has(c.sessions, si, bi) && BlockAt(d.sessions, si, bi) == BlockAt(c.sessions, si, bi)
    {
    }
    assert forall si, bi | IsSpilled(d.sessions, si, bi) :: IsSpilled(c.sessions, si, bi);
    forall si, bi | Has(d.sessions, si, bi)
      ensures Good(d, h, si, bi)
    {
      assert Good(c, g, si, bi);
      SameStored(c, d, BlockAt(c.sessions, si, bi));
    }
  }

  lemma SameStored(c: Cache, d: Cache, b: Block)
    requires c.mem == d.mem && c.disk == d.disk
    ensures Stored(c, b) == Stored(d, b)
  {
  }

  /** One call, whatever it does to memory and flash, looks like the same call on the plain map. */
  lemma StepInv(env: Env, c: Cache, g: Model, op: Op)
    requires Inv(c, g)
    ensures var (d, r) := Apply(env, c, op);
      Honest(g.plain, op, r) && Inv(d, g.(plain := PlainAfter(g.plain, op, r)))
  {
    hide Inv, Append, Read, CutTo, Extended;
    match op
    case DoOpen => OpenKeeps(c, g);
    case DoAppend(id, count) =>
      AppendKeeps(env, c, g, id, count);
      AppendedToKnown(env, c, g, id, count);
    case DoRead(id, index, len) =>
      ReadKeeps(env, c, g, id, index, len);
      assert g.(plain := g.plain) == g;
  }

  lemma AppendedToKnown(env: Env, c: Cache, g: Model, id: nat, count: nat)
    requires Inv(c, g)
    ensures var r := Append(env, c, id, count).1; r.Appended? && r.added > 0 ==> id in g.plain
  {
    hide Inv, MakeRoom, Find, Push;
    if count > 0 {
      MakeRoomKeeps(env, c, g, 1);
      Parts(MakeRoom(env, c, 1), g);
      FindKnown(MakeRoom(env, c, 1), g, id);
    }
  }

  datatype World = World(cache: Cache, model: Model, replies: seq<Reply>)

  function Next(env: Env, w: World, op: Op): World {
    var (d, r) := Apply(env, w.cache, op);
    World(d, w.model.(plain := PlainAfter(w.model.plain, op, r)), w.replies + [r])
  }

  function Run(env: Env, w: World, ops: seq<Op>): World
    decreases |ops|
  {
    if ops == [] then w else Next(env, Run(env, w, ops[..|ops| - 1]), ops[|ops| - 1])
  }

  /**
   Over every sequence of opens, appends and reads, under any clock and any transfer failures: each reply is one the plain
   map could have given, frames are conserved and held by one block each, spilled blocks keep apart inside the region, and
   the counter is the number of resident blocks.
   */
  lemma {:induction false} CacheRefinesMap(env: Env, w: World, ops: seq<Op>)
    requires Inv(w.cache, w.model) && w.replies == []
    ensures var end := Run(env, w, ops);
      && Inv(end.cache, end.model) && end.model.all == w.model.all && end.model.start == w.model.start
      && |end.replies| == |ops|
      && (forall i | 0 <= i < |ops| :: Honest(Run(env, w, ops[..i]).model.plain, ops[i], end.replies[i]))
    decreases |ops|
  {
    hide Inv, Honest, Apply, PlainAfter;
    if ops != [] {
      var n := |ops| - 1;
      var before := Run(env, w, ops[..n]);
      CacheRefinesMap(env, w, ops[..n]);
      StepInv(env, before.cache, before.model, ops[n]);
      var end := Run(env, w, ops);
      forall i | 0 <= i < |ops|
        ensures Honest(Run(env, w, ops[..i]).model.plain, ops[i], end.replies[i])
      {
        if i < n {
          assert ops[..n][..i] == ops[..i] && ops[..n][i] == ops[i];
        }
      }
    }
  }

  /** The cache as `init` leaves it. */
  lemma InitHolds(c: Cache, start: nat)
    requires c.sessions == [] && c.resident == 0 && c.spillNext == start <= c.spillEnd
    requires forall i, j | 0 <= i < j < |c.free| :: c.free[i] != c.free[j]
    ensures Inv(c, Model(map[], multiset(c.free), start))
  {
    assert multiset(c.free) + multiset{} == multiset(c.free);
    forall f | f in multiset(c.free) ensures multiset(c.free)[f] == 1 { Once(c.free, f); }
  }

  lemma {:induction false} Once(xs: seq<nat>, f: nat)
    requires f in xs && forall i, j | 0 <= i < j < |xs| :: xs[i] != xs[j]
    ensures multiset(xs)[f] == 1
    decreases |xs|
  {
    var n := |xs| - 1;
    assert xs == xs[..n] + [xs[n]];
    if xs[n] == f {
      assert f !in xs[..n];
      assert multiset(xs[..n])[f] == 0;
    } else {
      Once(xs[..n], f);
    }
  }

  // ---- the source's loops -----------------------------------------------------------------------------------

  class Store {
    var sessions: seq<Session>
    var nextId: nat
    var resident: int
    var spillNext: nat
    var spillEnd: nat
    var mem: map<nat, Page>
    var disk: map<nat, Sector>
    var free: seq<nat>
    var looks: nat
    var transfers: nat

    function View(): Cache reads this {
      Cache(sessions, nextId, resident, spillNext, spillEnd, mem, disk, free, looks, transfers)
    }

    method OpenSession() returns (id: nat)
      modifies this
      ensures (View(), Opened(id)) == Open(old(View()))
    {
      id := nextId;
      nextId := nextId + 1;
      looks := looks + 1;
      sessions := sessions + [Session(id, [])];
    }

    method FindVictim(now: nat) returns (v: Option<Victim>)
      ensures v == Worst(sessions, |sessions|, now)
    {
      v := None;
      for si := 0 to |sessions|
        invariant v == Worst(sessions, si, now)
      {
        var blocks := sessions[si].blocks;
        for bi := 0 to |blocks|
          invariant v == ScanBlocks(si, blocks, bi, now, Worst(sessions, si, now))
        {
          if blocks[bi].Resident? {
            var score := Score(bi, blocks[bi].used, now);
            if v == None || score > v.value.score { v := Some(Victim(si, bi, score, blocks[bi].frame)); }
          }
        }
      }
    }

    method FindSession(id: nat) returns (r: Option<nat>)
      ensures r == Find(sessions, id)
    {
      for i := 0 to |sessions|
        invariant Find(sessions, id) == (match Find(sessions[i..], id) case None => None case Some(k) => Some(i + k))
      {
        if sessions[i].id == id { return Some(i); }
        assert sessions[i..][1..] == sessions[i + 1..];
      }
      return None;
    }

    method WriteFrame(env: Env, frame: nat, sector: nat) returns (ok: bool)
      modifies this
      ensures (View(), ok) == WriteOut(env, old(View()), frame, sector, 0)
    {
      hide WriteOut, PageAt;
      ghost var all := WriteOut(env, View(), frame, sector, 0);
      for s := 0 to SECTORS
        invariant WriteOut(env, View(), frame, sector, s) == all
      {
        WriteOutStep(env, View(), frame, sector, s);
        var part: Sector := PageAt(mem, frame)[s * SECTOR_SIZE..(s + 1) * SECTOR_SIZE];
        transfers := transfers + 1;
        if !env.io(transfers - 1) { return false; }
        disk := disk[sector + s := part];
      }
      TransfersEnd(env, View(), frame, sector);
      return true;
    }

    method LoadFrame(env: Env, frame: nat, sector: nat) returns (ok: bool)
      modifies this
      ensures (View(), ok) == ReadIn(env, old(View()), frame, sector, 0)
    {
      hide ReadIn, PageAt, Put, SectorAt;
      ghost var all := ReadIn(env, View(), frame, sector, 0);
      for s := 0 to SECTORS
        invariant ReadIn(env, View(), frame, sector, s) == all
      {
        ReadInStep(env, View(), frame, sector, s);
        transfers := transfers + 1;
        if !env.io(transfers - 1) { return false; }
        var page: Page := Put(PageAt(mem, frame), s * SECTOR_SIZE, SectorAt(disk, sector + s));
        mem := mem[frame := page];
      }
      TransfersEnd(env, View(), frame, sector);
      return true;
    }

    method EvictBlock(env: Env, v: Victim, now: nat) returns (ok: bool)
      requires Has(sessions, v.si, v.bi)
      modifies this
      ensures (View(), ok) == Evict(env, old(View()), v, now)
    {
      hide WriteOut;
      var sector := spillNext;
      spillNext := spillNext + SECTORS;
      WriteOutKeeps(env, View(), v.frame, sector, 0);
      ok := WriteFrame(env, v.frame, sector);
      if ok {
        sessions := SetBlock(sessions, v.si, v.bi, Spilled(sector));
        resident := resident - 1;
        free := [v.frame] + free;
      } else {
        sessions := SetBlock(sessions, v.si, v.bi, Resident(v.frame, now));
      }
    }

    method MakeSpace(env: Env, want: nat)
      modifies this
      ensures View() == MakeRoom(env, old(View()), want)
    {
      hide Evict, Worst;
      ghost var all := MakeRoom(env, View(), want);
      while true
        invariant MakeRoom(env, View(), want) == all
        decreases spillEnd - spillNext
      {
        var now := env.ticks(looks);
        looks := looks + 1;
        if resident + want <= BUDGET { return; }
        var v := FindVictim(now);
        VictimIsWorst(sessions, now);
        if v == None { return; }
        if spillNext + SECTORS > spillEnd { return; }
        var ok := EvictBlock(env, v.value, now);
        if !ok { return; }
      }
    }

    method FillFrame(frame: nat, id: nat, index: nat)
      modifies this`mem
      ensures mem == old(mem)[frame := Filled(id, index, BLOCK_BYTES)]
    {
      var bytes: seq<byte> := [];
      for o := 0 to BLOCK_BYTES
        invariant bytes == Filled(id, index, o)
      {
        bytes := bytes + [Pattern(id, index, o)];
      }
      mem := mem[frame := bytes];
    }

    method AppendBlock(env: Env, id: nat) returns (error: Option<string>)
      modifies this
      ensures var (c, r) := Append(env, old(View()), id, 1);
        View() == c && r.Appended? && error == r.error && (error == None <==> r.added == 1)
      ensures error == None ==> Pushed(env, MakeRoom(env, old(View()), 1), id, View())
    {
      hide MakeRoom, Find, Filled;
      AppendOnce(env, View(), id);
      MakeSpace(env, 1);
      if resident >= BUDGET { return Some(FULL); }
      if free == [] { return Some(NO_MEMORY); }
      var frame := free[0];
      free := free[1..];
      var found := FindSession(id);
      if found == None {
        free := [frame] + free;
        return Some(NO_SESSION);
      }
      var s := sessions[found.value];
      var now := env.ticks(looks);
      looks := looks + 1;
      sessions := sessions[found.value := s.(blocks := s.blocks + [Resident(frame, now)])];
      resident := resident + 1;
      FillFrame(frame, s.id, |s.blocks|);
      return None;
    }

    method AppendBlocks(env: Env, id: nat, count: nat) returns (r: Reply)
      modifies this
      ensures (View(), r) == Append(env, old(View()), id, count)
    {
      hide MakeRoom, Find, Push;
      ghost var all := Append(env, View(), id, count);
      for added := 0 to count
        invariant all == More(Append(env, View(), id, count - added), added)
      {
        AppendSplits(env, View(), id, count - added);
        var error := AppendBlock(env, id);
        if error != None { return Appended(added, error); }
      }
      return Appended(count, None);
    }

    method ReadBlock(env: Env, id: nat, index: nat, len: nat) returns (r: Reply)
      modifies this
      ensures (View(), r) == Read(env, old(View()), id, index, len)
    {
      hide MakeRoom, ReadIn, Find, PageAt, CutTo;
      looks := looks + 1;
      var found := FindSession(id);
      if found == None { return NotFound(NO_SESSION); }
      var si := found.value;
      if index >= |sessions[si].blocks| { return NotFound(NO_BLOCK); }
      var now := env.ticks(looks);
      looks := looks + 1;
      match sessions[si].blocks[index]
      case Resident(frame, _) =>
        sessions := SetBlock(sessions, si, index, Resident(frame, now));
        return Found(true, CutTo(PageAt(mem, frame), len));
      case Spilled(sector) =>
        MakeSpace(env, 1);
        if free == [] { return NotFound(NO_MEMORY_RESTORING); }
        var frame := free[0];
        free := free[1..];
        ReadInKeeps(env, View(), frame, sector, 0);
        var ok := LoadFrame(env, frame, sector);
        if !ok {
          free := [frame] + free;
          return NotFound(LOST);
        }
        sessions := SetBlock(sessions, si, index, Resident(frame, now));
        resident := resident + 1;
        return Found(false, CutTo(PageAt(mem, frame), len));
    }
  }

  lemma WriteOutStep(env: Env, c: Cache, frame: nat, sector: nat, s: nat)
    requires s < SECTORS
    ensures var part: Sector := PageAt(c.mem, frame)[s * SECTOR_SIZE..(s + 1) * SECTOR_SIZE];
      var tried := c.(transfers := c.transfers + 1);
      WriteOut(env, c, frame, sector, s)
      == if env.io(c.transfers) then WriteOut(env, tried.(disk := c.disk[sector + s := part]), frame, sector, s + 1) else (tried, false)
  {
    hide PageAt;
  }

  lemma ReadInStep(env: Env, c: Cache, frame: nat, sector: nat, s: nat)
    requires s < SECTORS
    ensures var page: Page := Put(PageAt(c.mem, frame), s * SECTOR_SIZE, SectorAt(c.disk, sector + s));
      var tried := c.(transfers := c.transfers + 1);
      ReadIn(env, c, frame, sector, s)
      == if env.io(c.transfers) then ReadIn(env, tried.(mem := c.mem[frame := page]), frame, sector, s + 1) else (tried, false)
  {
    hide PageAt, Put, SectorAt;
  }

  lemma TransfersEnd(env: Env, c: Cache, frame: nat, sector: nat)
    ensures WriteOut(env, c, frame, sector, SECTORS) == (c, true) == ReadIn(env, c, frame, sector, SECTORS)
  {
  }

  predicate Pushed(env: Env, c: Cache, id: nat, d: Cache) {
    c.resident < BUDGET && c.free != [] && Find(c.sessions, id).Some? && d == Push(env, c, Find(c.sessions, id).value)
  }

  function More(o: (Cache, Reply), k: nat): (Cache, Reply) {
    (o.0, if o.1.Appended? then o.1.(added := o.1.added + k) else o.1)
  }

  lemma AppendOnce(env: Env, c: Cache, id: nat)
    ensures var (d, r) := Append(env, c, id, 1);
      && r.Appended? && (r.error == None <==> r.added == 1)
      && (r.error == None ==> Pushed(env, MakeRoom(env, c, 1), id, d))
  {
    hide MakeRoom, Find, Push;
  }

  lemma AppendSplits(env: Env, c: Cache, id: nat, count: nat)
    requires count > 0
    ensures var (d, r) := Append(env, c, id, 1);
      && r.Appended? && (r.error == None <==> r.added == 1)
      && Append(env, c, id, count) == (if r.error != None then (d, r) else More(Append(env, d, id, count - 1), 1))
      && (r.error != None ==> r.added == 0)
  {
    hide MakeRoom, Find, Push;
  }
}
