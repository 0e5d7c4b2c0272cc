/**
 The frame allocator: a bump pointer through one region that steps over reserved ranges, and a free list threaded through the
 freed frames. Calls are taken one at a time.
 */
module Frames {
  import opened Wrappers

  const PAGE: nat := 4096

  datatype Range = Range(start: nat, end: nat)

  /** `mem` holds the first word of each frame, where a free one keeps the link to the next; zero ends the list. */
  datatype Pool = Pool(reserved: seq<Range>, bump: nat, end: nat, head: nat, len: int, mem: map<nat, nat>)

  function Up(x: nat): (r: nat)
    ensures r % PAGE == 0 && x <= r < x + PAGE
  {
    (x + (PAGE - 1)) / PAGE * PAGE
  }

  lemma UpLeast(x: nat, g: nat)
    requires g % PAGE == 0 && g < Up(x)
    ensures g < x
  {
    var k := g / PAGE;
    assert g == k * PAGE;
    var up := (x + (PAGE - 1)) / PAGE;
    assert x <= g ==> up <= k;
  }

  /** The end of the first reserved range that overlaps the frame. */
  function Blocked(reserved: seq<Range>, f: nat): (r: Option<nat>)
    ensures r.Some? ==> f < r.value && exists i | 0 <= i < |reserved| :: Overlaps(reserved[i], f) && reserved[i].end == r.value
    ensures r == None <==> forall i | 0 <= i < |reserved| :: !Overlaps(reserved[i], f)
  {
    if reserved == [] then None
    else if Overlaps(reserved[0], f) then Some(reserved[0].end)
    else
      var rest := Blocked(reserved[1..], f);
      assert rest == None ==> forall i | 1 <= i < |reserved| :: reserved[i] == reserved[1..][i - 1];
      assert forall i | 0 <= i < |reserved| - 1 :: reserved[1..][i] == reserved[i + 1];
      rest
  }

  predicate Overlaps(r: Range, f: nat) { f < r.end && r.start < f + PAGE }

  predicate Free(reserved: seq<Range>, f: nat) { Blocked(reserved, f) == None }

  /** A step over a reserved range passes only frames that are reserved. */
  lemma SkipIsReserved(reserved: seq<Range>, f: nat, g: nat)
    requires Blocked(reserved, f).Some? && f <= g < Up(Blocked(reserved, f).value) && g % PAGE == 0
    ensures !Free(reserved, g)
  {
    var e := Blocked(reserved, f).value;
    UpLeast(e, g);
    var i :| 0 <= i < |reserved| && Overlaps(reserved[i], f) && reserved[i].end == e;
    assert Overlaps(reserved[i], g);
  }

  /** A range overlaps a frame exactly when they have a byte in common. */
  lemma OverlapIsSharing(r: Range, f: nat)
    requires r.start < r.end
    ensures Overlaps(r, f) <==> exists a: nat :: SharedByte(r, f, a)
  {
    if Overlaps(r, f) { assert SharedByte(r, f, if r.start <= f then f else r.start); }
  }

  predicate SharedByte(r: Range, f: nat, a: nat) { r.start <= a < r.end && f <= a < f + PAGE }

  /** Rounding a range outward to whole pages overlaps no page that the range itself does not. */
  lemma RoundingAddsNothing(r: Range, f: nat)
    requires r.start < r.end && f % PAGE == 0
    ensures Overlaps(Range(r.start / PAGE * PAGE, Up(r.end)), f) <==> Overlaps(r, f)
  {
    hide Up;
    var k := f / PAGE;
    assert f == k * PAGE;
    if f < Up(r.end) { UpLeast(r.end, f); }
    var q := r.start / PAGE;
    assert q * PAGE <= r.start < q * PAGE + PAGE;
    if r.start < f + PAGE { assert q <= k; }
  }

  // ---- how many frames are left -------------------------------------------------------------------------------

  /** The usable frames from `p` up to `end`, page by page. */
  function Count(reserved: seq<Range>, p: nat, end: nat): nat
    decreases end - p
  {
    if p + PAGE > end then 0 else (if Free(reserved, p) then 1 else 0) + Count(reserved, p + PAGE, end)
  }

  /** The same count as the source makes it, stepping over reserved ranges. */
  function SkipCount(reserved: seq<Range>, p: nat, end: nat): nat
    decreases end - p
  {
    if p + PAGE > end then 0
    else
      match Blocked(reserved, p)
      case Some(e) => SkipCount(reserved, Up(e), end)
      case None => 1 + SkipCount(reserved, p + PAGE, end)
  }

  lemma NextPage(p: nat)
    requires p % PAGE == 0
    ensures (p + PAGE) % PAGE == 0
  {
  }

  lemma OnePageOn(p: nat, q: nat)
    requires p % PAGE == 0 && q % PAGE == 0 && p < q
    ensures p + PAGE <= q
  {
  }

  /** Reserved frames count for nothing. */
  lemma {:induction false} CountSkips(reserved: seq<Range>, p: nat, q: nat, end: nat)
    requires p % PAGE == 0 && q % PAGE == 0 && p <= q
    requires forall g | p <= g < q && g % PAGE == 0 :: !Free(reserved, g)
    ensures Count(reserved, p, end) == Count(reserved, q, end)
    decreases q - p
  {
    hide Free;
    if p < q {
      OnePageOn(p, q);
      NextPage(p);
      CountSkips(reserved, p + PAGE, q, end);
    }
  }

  lemma BlockedSkips(reserved: seq<Range>, p: nat, end: nat)
    requires p % PAGE == 0 && Blocked(reserved, p).Some?
    ensures Count(reserved, p, end) == Count(reserved, Up(Blocked(reserved, p).value), end)
  {
    hide Blocked, Up, Count;
    var q := Up(Blocked(reserved, p).value);
    forall g | p <= g < q && g % PAGE == 0 ensures !Free(reserved, g) { SkipIsReserved(reserved, p, g); }
    CountSkips(reserved, p, q, end);
  }

  lemma {:induction false} SkipCounts(reserved: seq<Range>, p: nat, end: nat)
    requires p % PAGE == 0
    ensures SkipCount(reserved, p, end) == Count(reserved, p, end)
    decreases end - p
  {
    hide Blocked, Up;
    if p + PAGE <= end {
      if Blocked(reserved, p).Some? {
        BlockedSkips(reserved, p, end);
        SkipCounts(reserved, Up(Blocked(reserved, p).value), end);
      } else {
        NextPage(p);
        SkipCounts(reserved, p + PAGE, end);
      }
    }
  }

  lemma {:induction false} CountSplits(reserved: seq<Range>, p: nat, q: nat, end: nat)
    requires p % PAGE == 0 && q % PAGE == 0 && p <= q <= end
    ensures Count(reserved, p, end) == Count(reserved, p, q) + Count(reserved, q, end)
    decreases q - p
  {
    hide Free;
    if p < q {
      OnePageOn(p, q);
      NextPage(p);
      CountSplits(reserved, p + PAGE, q, end);
    }
  }

  lemma {:induction false} CountAll(reserved: seq<Range>, p: nat, n: nat)
    requires forall i | 0 <= i < n :: Free(reserved, p + i * PAGE)
    ensures Count(reserved, p, p + n * PAGE) == n
    decreases n
  {
    hide Free;
    if n > 0 {
      assert Free(reserved, p + 0 * PAGE);
      forall i | 0 <= i < n - 1 ensures Free(reserved, p + PAGE + i * PAGE) { assert Free(reserved, p + (i + 1) * PAGE); }
      CountAll(reserved, p + PAGE, n - 1);
      assert p + n * PAGE == p + PAGE + (n - 1) * PAGE;
    }
  }

  /** Frames available: not yet reached by the bump pointer, or on the free list. */
  function FreeCount(a: Pool): int { (if a.bump == 0 then 0 else Count(a.reserved, a.bump, a.end)) + a.len }

  // ---- operations ---------------------------------------------------------------------------------------------

  function LinkAt(mem: map<nat, nat>, f: nat): nat { if f in mem then mem[f] else 0 }

  function BumpAlloc(a: Pool): (Pool, Option<nat>)
    decreases a.end - a.bump
  {
    if a.bump == 0 || a.bump + PAGE > a.end then (a, None)
    else
      match Blocked(a.reserved, a.bump)
      case Some(e) => BumpAlloc(a.(bump := Up(e)))
      case None => (a.(bump := a.bump + PAGE), Some(a.bump))
  }

  function Alloc(a: Pool): (Pool, Option<nat>) {
    if a.head != 0 then (a.(head := LinkAt(a.mem, a.head), len := a.len - 1), Some(a.head)) else BumpAlloc(a)
  }

  /** The first reserved range that frames `i..count` of a run meet. */
  function RunBlocked(reserved: seq<Range>, base: nat, i: nat, count: nat): (r: Option<nat>)
    requires i <= count
    ensures r.Some? ==> exists k | i <= k < count :: Blocked(reserved, base + k * PAGE) == r
    ensures r == None ==> forall k | i <= k < count :: Free(reserved, base + k * PAGE)
    decreases count - i
  {
    if i == count then None
    else
      match Blocked(reserved, base + i * PAGE)
      case Some(e) => assert Blocked(reserved, base + i * PAGE) == Some(e); Some(e)
      case None => RunBlocked(reserved, base, i + 1, count)
  }

  lemma RunEndsAfter(reserved: seq<Range>, base: nat, count: nat)
    requires RunBlocked(reserved, base, 0, count).Some?
    ensures base < RunBlocked(reserved, base, 0, count).value
  {
    var k :| 0 <= k < count && Blocked(reserved, base + k * PAGE) == RunBlocked(reserved, base, 0, count);
    assert k * PAGE >= 0;
  }

  function AllocRun(a: Pool, count: nat): (Pool, Option<nat>)
    decreases a.end - a.bump
  {
    if count == 0 || a.bump == 0 || a.bump + count * PAGE > a.end then (a, None)
    else
      match RunBlocked(a.reserved, a.bump, 0, count)
      case Some(e) => RunEndsAfter(a.reserved, a.bump, count); AllocRun(a.(bump := Up(e)), count)
      case None => (a.(bump := a.bump + count * PAGE), Some(a.bump))
  }

  function Release(a: Pool, f: nat): Pool { a.(mem := a.mem[f := a.head], head := f, len := a.len + 1) }

  // ---- the invariant ------------------------------------------------------------------------------------------

  /** The links from `head` spell out `list` and end. */
  predicate Chain(mem: map<nat, nat>, head: nat, list: seq<nat>)
    decreases |list|
  {
    if list == [] then head == 0 else head == list[0] && head != 0 && Chain(mem, LinkAt(mem, head), list[1..])
  }

  predicate Distinct(list: seq<nat>) { forall i, j | 0 <= i < j < |list| :: list[i] != list[j] }

  /** A frame the allocator may hand out, behind the bump pointer. */
  predicate Proper(a: Pool, start: nat, f: nat) {
    f % PAGE == 0 && f != 0 && start <= f && f + PAGE <= a.bump && f + PAGE <= a.end && Free(a.reserved, f)
  }

  /** `list` is the free list, `out` what callers have. */
  ghost predicate Inv(a: Pool, start: nat, list: seq<nat>, out: set<nat>) {
    && a.bump % PAGE == 0 && start <= a.bump
    && Chain(a.mem, a.head, list) && Distinct(list) && a.len == |list|
    && (forall i | 0 <= i < |list| :: Proper(a, start, list[i]) && list[i] !in out)
    && (forall f | f in out :: Proper(a, start, f))
  }

  /** Writing outside the listed frames does not disturb the list. */
  lemma {:induction false} ChainKept(mem: map<nat, nat>, head: nat, list: seq<nat>, f: nat, w: nat)
    requires Chain(mem, head, list) && f !in list
    ensures Chain(mem[f := w], head, list)
    decreases |list|
  {
    if list != [] { ChainKept(mem, LinkAt(mem, head), list[1..], f, w); }
  }

  lemma {:induction false} BumpAllocGives(a: Pool)
    requires a.bump % PAGE == 0
    ensures var (b, r) := BumpAlloc(a);
      && b == a.(bump := b.bump) && b.bump % PAGE == 0 && a.bump <= b.bump
      && (r.Some? ==>
            && r.value % PAGE == 0 && r.value != 0 && a.bump <= r.value && b.bump == r.value + PAGE <= a.end
            && Free(a.reserved, r.value) && Count(a.reserved, a.bump, a.end) == 1 + Count(a.reserved, b.bump, a.end))
      && (r == None ==> a.bump == 0 || Count(a.reserved, a.bump, a.end) == 0 == Count(a.reserved, b.bump, a.end))
      && (a.bump != 0 ==> b.bump != 0) && (a.bump == 0 ==> b == a && r == None)
    decreases a.end - a.bump
  {
    hide Blocked, Up;
    if a.bump != 0 && a.bump + PAGE <= a.end {
      NextPage(a.bump);
      if Blocked(a.reserved, a.bump).Some? {
        BlockedSkips(a.reserved, a.bump, a.end);
        BumpAllocGives(a.(bump := Up(Blocked(a.reserved, a.bump).value)));
      }
    }
  }

  /**
   An allocation is refused exactly when nothing is free; otherwise it gives one usable frame of the region, which nobody
   has, and there is exactly one fewer.
   */
  lemma AllocGives(a: Pool, start: nat, list: seq<nat>, out: set<nat>)
    requires Inv(a, start, list, out)
    ensures var (b, r) := Alloc(a);
      && (r == None <==> FreeCount(a) == 0)
      && (r == None ==> Inv(b, start, list, out) && FreeCount(b) == 0)
      && (r.Some? ==>
            && r.value !in out && Proper(b, start, r.value) && FreeCount(b) == FreeCount(a) - 1
            && Inv(b, start, if list == [] then [] else list[1..], out + {r.value}))
  {
    hide Free, BumpAlloc;
    var (b, r) := Alloc(a);
    if list == [] {
      BumpAllocGives(a);
      forall f | f in out ensures Proper(b, start, f) && r != Some(f) { assert Proper(a, start, f); }
    } else {
      assert Proper(a, start, list[0]) && list[0] == a.head;
      assert forall i | 0 <= i < |list| - 1 :: list[1..][i] == list[i + 1];
      forall f | f in out ensures Proper(b, start, f) { assert Proper(a, start, f); }
      forall i | 0 <= i < |list| ensures Proper(b, start, list[i]) { assert Proper(a, start, list[i]); }
    }
  }

  /** Giving back a frame that was out puts it on the list, and there is exactly one more. */
  lemma ReleaseKeeps(a: Pool, start: nat, list: seq<nat>, out: set<nat>, f: nat)
    requires Inv(a, start, list, out) && f in out
    ensures Inv(Release(a, f), start, [f] + list, out - {f})
    ensures FreeCount(Release(a, f)) == FreeCount(a) + 1
  {
    hide Free;
    var b, more := Release(a, f), [f] + list;
    ChainKept(a.mem, a.head, list, f, a.head);
    assert more[1..] == list;
    assert Proper(a, start, f);
    forall i | 0 <= i < |more| ensures Proper(b, start, more[i]) && more[i] !in out - {f} {
      if i > 0 { assert more[i] == list[i - 1] && Proper(a, start, list[i - 1]); }
    }
    forall g | g in out - {f} ensures Proper(b, start, g) { assert Proper(a, start, g); }
  }

  /** A caller may write what it likes into a frame it has. */
  lemma ScribbleKeeps(a: Pool, start: nat, list: seq<nat>, out: set<nat>, f: nat, w: nat)
    requires Inv(a, start, list, out) && f in out
    ensures Inv(a.(mem := a.mem[f := w]), start, list, out)
  {
    hide Free;
    var b := a.(mem := a.mem[f := w]);
    ChainKept(a.mem, a.head, list, f, w);
    forall i | 0 <= i < |list| ensures Proper(b, start, list[i]) { assert Proper(a, start, list[i]); }
    forall g | g in out ensures Proper(b, start, g) { assert Proper(a, start, g); }
  }

  // ---- contiguous runs ----------------------------------------------------------------------------------------

  function RunSet(base: nat, count: nat): set<nat> { set i | 0 <= i < count :: base + i * PAGE }

  function Least(x: nat, y: nat): nat { if x <= y then x else y }

  lemma CountPast(reserved: seq<Range>, p: nat, q: nat, end: nat)
    requires p % PAGE == 0 && q % PAGE == 0 && p <= q && end % PAGE == 0
    ensures Count(reserved, p, end) == Count(reserved, p, Least(q, end)) + Count(reserved, q, end)
  {
    if p <= end {
      CountSplits(reserved, p, Least(q, end), end);
    }
  }

  lemma RunStep(base: nat, count: nat)
    requires base % PAGE == 0
    ensures (base + count * PAGE) % PAGE == 0
  {
  }

  /** Where a search ends, and what the run it found is. */
  lemma {:induction false} RunShape(a: Pool, count: nat)
    requires a.bump % PAGE == 0
    ensures var (b, r) := AllocRun(a, count);
      && b == a.(bump := b.bump) && b.bump % PAGE == 0 && a.bump <= b.bump && (a.bump != 0 ==> b.bump != 0) && (a.bump == 0 ==> b == a)
      && (r.Some? ==>
            && count > 0 && a.bump <= r.value && r.value % PAGE == 0 && r.value != 0 && b.bump == r.value + count * PAGE <= a.end
            && RunBlocked(a.reserved, r.value, 0, count) == None)
    decreases a.end - a.bump
  {
    hide Blocked, Up, RunBlocked;
    if count != 0 && a.bump != 0 && a.bump + count * PAGE <= a.end {
      match RunBlocked(a.reserved, a.bump, 0, count)
      case Some(e) =>
        RunEndsAfter(a.reserved, a.bump, count);
        RunShape(a.(bump := Up(e)), count);
      case None =>
        RunStep(a.bump, count);
    }
  }

  /** Every usable frame the bump pointer passes is in the run or skipped. */
  lemma {:induction false} RunAccounts(a: Pool, count: nat)
    requires a.bump % PAGE == 0 && a.end % PAGE == 0
    ensures var (b, r) := AllocRun(a, count);
      && (r.Some? ==>
            Count(a.reserved, a.bump, a.end) == Count(a.reserved, a.bump, r.value) + count + Count(a.reserved, b.bump, a.end))
      && (r == None ==>
            Count(a.reserved, a.bump, a.end) == Count(a.reserved, a.bump, Least(b.bump, a.end)) + Count(a.reserved, b.bump, a.end))
    decreases a.end - a.bump
  {
    hide Blocked, Up, RunBlocked, Count;
    if count == 0 || a.bump == 0 || a.bump + count * PAGE > a.end {
      NoneBetween(a.reserved, a.bump, Least(a.bump, a.end));
    } else {
      match RunBlocked(a.reserved, a.bump, 0, count)
      case Some(e) =>
        RunEndsAfter(a.reserved, a.bump, count);
        var c := a.(bump := Up(e));
        RunShape(c, count);
        RunAccounts(c, count);
        var (b, r) := AllocRun(c, count);
        CountPast(a.reserved, a.bump, c.bump, a.end);
        if r.Some? {
          assert c.bump <= a.end;
          CountSplits(a.reserved, a.bump, c.bump, r.value);
        } else {
          CountPast(a.reserved, a.bump, c.bump, Least(b.bump, a.end));
        }
      case None =>
        RunStep(a.bump, count);
        CountSplits(a.reserved, a.bump, a.bump + count * PAGE, a.end);
        CountAll(a.reserved, a.bump, count);
        NoneBetween(a.reserved, a.bump, a.bump);
    }
  }

  /**
   What a search for a run costs: its own frames, and besides them exactly the usable frames between where the bump pointer
   stood and where the run begins, or where the search gave up. Those are on no list and are not found again.
   */
  lemma LosesExactly(a: Pool, count: nat)
    requires a.bump % PAGE == 0 && a.end % PAGE == 0
    ensures var (b, r) := AllocRun(a, count);
      FreeCount(a) - FreeCount(b)
      == match r
         case Some(base) => count + Count(a.reserved, a.bump, base)
         case None => if a.bump == 0 then 0 else Count(a.reserved, a.bump, Least(b.bump, a.end))
  {
    hide AllocRun, Count;
    RunShape(a, count);
    RunAccounts(a, count);
  }

  lemma NoneBetween(reserved: seq<Range>, p: nat, q: nat)
    requires q <= p
    ensures Count(reserved, p, q) == 0
  {
  }

  /** A run that is given is usable throughout and nobody has any of it. */
  lemma RunGives(a: Pool, start: nat, list: seq<nat>, out: set<nat>, count: nat)
    requires Inv(a, start, list, out) && a.end % PAGE == 0
    ensures var (b, r) := AllocRun(a, count);
      && (r == None ==> Inv(b, start, list, out))
      && (r.Some? ==> RunSet(r.value, count) !! out && Inv(b, start, list, out + RunSet(r.value, count)))
  {
    hide Free, AllocRun, FreeCount;
    RunShape(a, count);
    var (b, r) := AllocRun(a, count);
    forall i | 0 <= i < |list| ensures Proper(b, start, list[i]) { assert Proper(a, start, list[i]); }
    forall f | f in out ensures Proper(b, start, f) { assert Proper(a, start, f); }
    if r.Some? {
      var run := RunSet(r.value, count);
      forall f | f in run ensures Proper(b, start, f) && a.bump <= f {
        var i :| 0 <= i < count && f == r.value + i * PAGE;
        RunStep(r.value, i);
        RunInside(i, count);
        assert Free(a.reserved, r.value + i * PAGE);
      }
      forall f | f in out ensures f < a.bump { assert Proper(a, start, f); }
      forall i | 0 <= i < |list| ensures list[i] !in run { assert Proper(a, start, list[i]); }
    }
  }

  lemma RunInside(i: nat, count: nat)
    requires i < count
    ensures 0 <= i * PAGE && i * PAGE + PAGE <= count * PAGE
  {
  }

  /** A search that fails can still cost frames: two usable frames before a reserved page, and a run of three asked for. */
  lemma FailedRunLoses()
    ensures var a := Pool([Range(0x3000, 0x4000)], 0x1000, 0x5000, 0, 0, map[]);
      FreeCount(a) == 3 && AllocRun(a, 3).1 == None && FreeCount(AllocRun(a, 3).0) == 1
  {
    var res := [Range(0x3000, 0x4000)];
    var a := Pool(res, 0x1000, 0x5000, 0, 0, map[]);
    assert res[1..] == [];
    assert Blocked(res, 0x1000) == None && Blocked(res, 0x2000) == None && Blocked(res, 0x4000) == None;
    assert Blocked(res, 0x3000) == Some(0x4000);
    assert Count(res, 0x5000, 0x5000) == 0;
    assert Count(res, 0x4000, 0x5000) == 1;
    assert Count(res, 0x3000, 0x5000) == 1;
    assert Count(res, 0x2000, 0x5000) == 2;
    assert RunBlocked(res, 0x1000, 2, 3) == Some(0x4000);
    assert RunBlocked(res, 0x1000, 1, 3) == Some(0x4000);
    assert RunBlocked(res, 0x1000, 0, 3) == Some(0x4000);
    assert Up(0x4000) == 0x4000;
    assert AllocRun(a.(bump := 0x4000), 3) == (a.(bump := 0x4000), None);
  }

  // ---- every run ----------------------------------------------------------------------------------------------

  datatype Op = DoAlloc | DoRun(count: nat) | DoFree(f: nat) | DoWrite(f: nat, w: nat)

  datatype World = World(pool: Pool, out: set<nat>)

  /** Callers give back and write only what they have. */
  predicate Allowed(w: World, op: Op) { (op.DoFree? || op.DoWrite?) ==> op.f in w.out }

  function Next(w: World, op: Op): World {
    match op
    case DoAlloc =>
      var (b, r) := Alloc(w.pool);
      World(b, if r.Some? then w.out + {r.value} else w.out)
    case DoRun(count) =>
      var (b, r) := AllocRun(w.pool, count);
      World(b, if r.Some? then w.out + RunSet(r.value, count) else w.out)
    case DoFree(f) => World(Release(w.pool, f), w.out - {f})
    case DoWrite(f, v) => w.(pool := w.pool.(mem := w.pool.mem[f := v]))
  }

  ghost predicate Sound(w: World, start: nat) {
    w.pool.end % PAGE == 0 && exists list :: Inv(w.pool, start, list, w.out)
  }

  lemma StepInv(w: World, start: nat, op: Op)
    requires Sound(w, start) && Allowed(w, op)
    ensures Sound(Next(w, op), start)
  {
    hide Inv, Free, AllocRun, BumpAlloc, FreeCount, Alloc;
    var list :| Inv(w.pool, start, list, w.out);
    EndStays(w, op);
    match op
    case DoAlloc => AllocGives(w.pool, start, list, w.out);
    case DoRun(count) => RunGives(w.pool, start, list, w.out, count);
    case DoFree(f) => ReleaseKeeps(w.pool, start, list, w.out, f);
    case DoWrite(f, v) => ScribbleKeeps(w.pool, start, list, w.out, f, v);
  }

  lemma EndStays(w: World, op: Op)
    requires w.pool.end % PAGE == 0
    ensures Next(w, op).pool.end == w.pool.end && Next(w, op).pool.reserved == w.pool.reserved
  {
    hide Blocked, Up;
    match op
    case DoAlloc => BumpEnd(w.pool);
    case DoRun(count) => RunEnd(w.pool, count);
    case DoFree(f) =>
    case DoWrite(f, v) =>
  }

  lemma {:induction false} BumpEnd(a: Pool)
    ensures BumpAlloc(a).0.end == a.end && BumpAlloc(a).0.reserved == a.reserved
    decreases a.end - a.bump
  {
    if a.bump != 0 && a.bump + PAGE <= a.end && Blocked(a.reserved, a.bump).Some? {
      BumpEnd(a.(bump := Up(Blocked(a.reserved, a.bump).value)));
    }
  }

  lemma {:induction false} RunEnd(a: Pool, count: nat)
    ensures AllocRun(a, count).0.end == a.end && AllocRun(a, count).0.reserved == a.reserved
    decreases a.end - a.bump
  {
    if count != 0 && a.bump != 0 && a.bump + count * PAGE <= a.end && RunBlocked(a.reserved, a.bump, 0, count).Some? {
      RunEndsAfter(a.reserved, a.bump, count);
      RunEnd(a.(bump := Up(RunBlocked(a.reserved, a.bump, 0, count).value)), count);
    }
  }

  function Run(w: World, ops: seq<Op>): World
    decreases |ops|
  {
    if ops == [] then w else Run(Next(w, ops[0]), ops[1..])
  }

  predicate AllAllowed(w: World, ops: seq<Op>)
    decreases |ops|
  {
    ops == [] || (Allowed(w, ops[0]) && AllAllowed(Next(w, ops[0]), ops[1..]))
  }

  /**
   Over every run of allocations, runs, releases and writes by callers to what they have: the free list is acyclic with its
   stored length, and what is out is whole usable frames of the region, none reserved and none also free.
   */
  lemma {:induction false} EveryRunIsSound(w: World, start: nat, ops: seq<Op>)
    requires Sound(w, start) && AllAllowed(w, ops)
    ensures Sound(Run(w, ops), start)
    decreases |ops|
  {
    hide Sound, Next;
    if ops != [] {
      StepInv(w, start, ops[0]);
      EveryRunIsSound(Next(w, ops[0]), start, ops[1..]);
    }
  }

  /** The allocator as `init` leaves it. */
  lemma InitIsSound(reserved: seq<Range>, start: nat, end: nat)
    requires start % PAGE == 0 && end % PAGE == 0
    ensures Sound(World(Pool(reserved, start, end, 0, 0, map[]), {}), start)
  {
    assert Inv(Pool(reserved, start, end, 0, 0, map[]), start, [], {});
  }

  // ---- the source's loops -------------------------------------------------------------------------------------

  class FrameAllocator {
    var reserved: seq<Range>
    var bump: nat
    var end: nat
    var head: nat
    var len: int
    var mem: map<nat, nat>
    var total: nat

    function View(): Pool reads this { Pool(reserved, bump, end, head, len, mem) }

    method BlockedUntil(f: nat) returns (r: Option<nat>)
      ensures r == Blocked(reserved, f)
    {
      for i := 0 to |reserved|
        invariant Blocked(reserved, f) == Blocked(reserved[i..], f)
      {
        if Overlaps(reserved[i], f) { return Some(reserved[i].end); }
        assert reserved[i..][1..] == reserved[i + 1..];
      }
      return None;
    }

    /** Claim a region: take the first eight reserved ranges, drop the empty ones, round the rest outward, and count what is usable. */
    method Claim(ranges: seq<Range>, base: nat, size: nat)
      requires head == 0 && len == 0 && bump == 0 && end == 0
      modifies this
      ensures head == 0 && len == 0 && reserved == Rounded(ranges, Least(|ranges|, 8))
      ensures var s, e := Up(base), (base + size) / PAGE * PAGE;
        if s < e then bump == s && end == e && total == Count(reserved, s, e) && FreeCount(View()) == (if s == 0 then 0 else total)
        else bump == 0 && end == 0
    {
      hide Up;
      reserved := [];
      for i := 0 to Least(|ranges|, 8)
        invariant reserved == Rounded(ranges, i) && head == 0 && len == 0 && bump == 0 && end == 0
      {
        if ranges[i].start < ranges[i].end {
          reserved := reserved + [Range(ranges[i].start / PAGE * PAGE, Up(ranges[i].end))];
        }
      }
      var s, e := Up(base), (base + size) / PAGE * PAGE;
      if s >= e { return; }
      bump, end := s, e;
      total := CountUsable(s, e);
    }

    method CountUsable(s: nat, e: nat) returns (n: nat)
      requires s % PAGE == 0
      ensures n == Count(reserved, s, e)
    {
      hide Blocked, Up;
      n := 0;
      var p := s;
      SkipCounts(reserved, s, e);
      while p + PAGE <= e
        invariant n + SkipCount(reserved, p, e) == SkipCount(reserved, s, e)
        decreases e - p
      {
        var skip := BlockedUntil(p);
        if skip.Some? {
          BlockedAhead(reserved, p);
          p := Up(skip.value);
        } else {
          n := n + 1;
          p := p + PAGE;
        }
      }
    }

    method FreeFrames() returns (n: int)
      requires bump % PAGE == 0
      ensures n == FreeCount(View())
    {
      if bump == 0 { return len; }
      var unbumped := CountUsable(bump, end);
      return unbumped + len;
    }

    method AllocFrame() returns (r: Option<nat>)
      modifies this
      ensures (View(), r) == Alloc(old(View())) && total == old(total)
    {
      hide Blocked, Up;
      if head != 0 {
        r := Some(head);
        head := LinkAt(mem, head);
        len := len - 1;
        return;
      }
      ghost var all := BumpAlloc(View());
      while true
        invariant BumpAlloc(View()) == all && total == old(total)
        decreases end - bump
      {
        if bump == 0 || bump + PAGE > end { return None; }
        var skip := BlockedUntil(bump);
        if skip.Some? {
          BlockedAhead(reserved, bump);
          bump := Up(skip.value);
        } else {
          bump := bump + PAGE;
          return Some(bump - PAGE);
        }
      }
    }

    method RunBlockedUntil(base: nat, count: nat) returns (r: Option<nat>)
      ensures r == RunBlocked(reserved, base, 0, count)
    {
      hide Blocked;
      for i := 0 to count
        invariant RunBlocked(reserved, base, 0, count) == RunBlocked(reserved, base, i, count)
      {
        r := BlockedUntil(base + i * PAGE);
        if r.Some? { return; }
      }
      return None;
    }

    method AllocContiguous(count: nat) returns (r: Option<nat>)
      modifies this
      ensures (View(), r) == AllocRun(old(View()), count) && total == old(total)
    {
      hide Blocked, Up, RunBlocked, AllocRun;
      RunUnfolds(View(), count);
      if count == 0 { return None; }
      ghost var all := AllocRun(View(), count);
      while true
        invariant AllocRun(View(), count) == all && total == old(total)
        decreases end - bump
      {
        RunUnfolds(View(), count);
        var cur := bump;
        if cur == 0 || cur + count * PAGE > end { return None; }
        var blocked := RunBlockedUntil(cur, count);
        if blocked.Some? {
          RunEndsAfter(reserved, cur, count);
          bump := Up(blocked.value);
        } else {
          bump := cur + count * PAGE;
          return Some(cur);
        }
      }
    }

    method FreeFrame(f: nat)
      modifies this
      ensures View() == Release(old(View()), f) && total == old(total)
    {
      mem := mem[f := head];
      head := f;
      len := len + 1;
    }
  }

  function Rounded(ranges: seq<Range>, n: nat): seq<Range>
    requires n <= |ranges|
  {
    if n == 0 then []
    else if ranges[n - 1].start < ranges[n - 1].end
    then Rounded(ranges, n - 1) + [Range(ranges[n - 1].start / PAGE * PAGE, Up(ranges[n - 1].end))]
    else Rounded(ranges, n - 1)
  }

  /** Being clear of the rounded ranges is being clear of every one of them. */
  lemma {:induction false} FreeOfRounded(ranges: seq<Range>, n: nat, f: nat)
    requires n <= |ranges| && f % PAGE == 0
    ensures Free(Rounded(ranges, n), f) <==> forall i | 0 <= i < n && ranges[i].start < ranges[i].end :: !Overlaps(ranges[i], f)
    decreases n
  {
    hide Overlaps, Up;
    if n > 0 {
      FreeOfRounded(ranges, n - 1, f);
      if ranges[n - 1].start < ranges[n - 1].end {
        var r := Range(ranges[n - 1].start / PAGE * PAGE, Up(ranges[n - 1].end));
        RoundingAddsNothing(ranges[n - 1], f);
        FreeMore(Rounded(ranges, n - 1), r, f);
      }
    }
  }

  lemma FreeMore(rs: seq<Range>, r: Range, f: nat)
    ensures Free(rs + [r], f) <==> Free(rs, f) && !Overlaps(r, f)
  {
    hide Overlaps;
    var all := rs + [r];
    assert forall i | 0 <= i < |rs| :: all[i] == rs[i];
    assert all[|rs|] == r;
  }

  /**
   What the allocator keeps clear of, in bytes: a page is usable if and only if it has no byte in common with any of the first
   eight ranges it was told to leave alone.
   */
  lemma UsableIs(ranges: seq<Range>, f: nat)
    requires f % PAGE == 0
    ensures Free(Rounded(ranges, Least(|ranges|, 8)), f)
      <==> forall i, a: nat | 0 <= i < Least(|ranges|, 8) :: !SharedByte(ranges[i], f, a)
  {
    hide Overlaps, Free, Rounded;
    FreeOfRounded(ranges, Least(|ranges|, 8), f);
    forall i | 0 <= i < Least(|ranges|, 8) && ranges[i].start < ranges[i].end
      ensures Overlaps(ranges[i], f) <==> exists a: nat :: SharedByte(ranges[i], f, a)
    {
      OverlapIsSharing(ranges[i], f);
    }
  }

  lemma RunUnfolds(a: Pool, count: nat)
    ensures AllocRun(a, count)
      == if count == 0 || a.bump == 0 || a.bump + count * PAGE > a.end then (a, None)
         else match RunBlocked(a.reserved, a.bump, 0, count)
              case Some(e) => AllocRun(a.(bump := Up(e)), count)
              case None => (a.(bump := a.bump + count * PAGE), Some(a.bump))
  {
    hide RunBlocked, Up;
  }

  lemma BlockedAhead(reserved: seq<Range>, p: nat)
    ensures Blocked(reserved, p).Some? ==> p < Blocked(reserved, p).value
  {
  }
}
