/**
 Page tables: a four-level radix tree of 512-word tables, grown on demand from the frame allocator, and the flat map of
 pages that it stands for.
 */
module Paging {
  import opened Wrappers
  import opened Arithmetic

  const PAGE_SIZE: nat := 4096
  const ENTRIES: nat := 512
  const ADDRESSES: nat := 0x1_0000_0000_0000
  const PAGES: nat := 0x10_0000_0000

  const UNALIGNED := "unaligned mapping"
  const NO_TABLES := "out of frames for page tables"
  const NO_FRAMES := "out of frames"

  // ---- descriptors --------------------------------------------------------------------------------------

  datatype Perm = UserText | UserReadOnly | UserData | UserDevice

  datatype Mapping = Mapping(pa: nat, perm: Perm)

  predicate IsValid(w: nat) { w % 2 == 1 }

  /** The address field: bits 12 to 47. */
  function AddrOf(w: nat): nat { w % ADDRESSES / PAGE_SIZE * PAGE_SIZE }

  function TableWord(pa: nat): nat { pa + 3 }

  /** The permission bits below the address: valid, page, memory type, user access, read-only, shareable, accessed, not global. */
  function LowBits(p: Perm): nat {
    match p
    case UserText => 0xFC7
    case UserReadOnly => 0xFC7
    case UserData => 0xF47
    case UserDevice => 0xC43
  }

  function SetBit(w: nat, bit: nat): nat
    requires bit > 0
  {
    if w / bit % 2 == 1 then w else w + bit
  }

  /** The sixteen bits above the address, from the caller's own with PXN (bit 53) and perhaps UXN (bit 54) added. */
  function HighBits(above: nat, p: Perm): nat {
    var pxn := SetBit(above, 32);
    if p == UserText then pxn else SetBit(pxn, 64)
  }

  /** `pa | perm.bits()` for a page-aligned `pa`. */
  function LeafWord(m: Mapping): nat {
    m.pa % ADDRESSES + LowBits(m.perm) + ADDRESSES * HighBits(m.pa / ADDRESSES % 0x10000, m.perm)
  }

  lemma SetBitSets(w: nat, bit: nat)
    requires bit in {32, 64}
    ensures SetBit(w, bit) / bit % 2 == 1
    ensures bit == 64 && w / 32 % 2 == 1 ==> SetBit(w, bit) / 32 % 2 == 1
  {
    if w / bit % 2 != 1 {
      if bit == 32 {
        assert (w + 32) / 32 == w / 32 + 1;
      } else {
        assert (w + 64) / 64 == w / 64 + 1;
        assert (w + 64) / 32 == w / 32 + 2;
      }
    }
  }

  lemma LeafParts(m: Mapping)
    requires m.pa % PAGE_SIZE == 0
    ensures LeafWord(m) / ADDRESSES == HighBits(m.pa / ADDRESSES % 0x10000, m.perm)
    ensures LeafWord(m) % ADDRESSES == m.pa % ADDRESSES + LowBits(m.perm)
    ensures m.pa % ADDRESSES % PAGE_SIZE == 0
  {
    var frame, above := m.pa / PAGE_SIZE, m.pa / ADDRESSES;
    assert m.pa == PAGE_SIZE * frame;
    assert m.pa % ADDRESSES == PAGE_SIZE * (frame - 0x10_0000_0000 * above);
    Quotient(m.pa % ADDRESSES, PAGE_SIZE, frame - 0x10_0000_0000 * above, 0);
    var low, high := m.pa % ADDRESSES + LowBits(m.perm), HighBits(above % 0x10000, m.perm);
    assert m.pa % ADDRESSES <= ADDRESSES - PAGE_SIZE;
    Quotient(LeafWord(m), ADDRESSES, high, low);
  }

  /**
   What a page descriptor grants: its address is the page's, whatever bits the caller left above bit 47; it is valid and
   reachable from user mode; it never runs at the kernel's level; and no page is both writable and runnable.
   */
  lemma LeafGrants(m: Mapping)
    requires m.pa % PAGE_SIZE == 0
    ensures IsValid(LeafWord(m)) && AddrOf(LeafWord(m)) == m.pa % ADDRESSES
    ensures LeafWord(m) / 0x20_0000_0000_0000 % 2 == 1
    ensures LeafWord(m) / 0x80 % 2 == 0 ==> LeafWord(m) / 0x40_0000_0000_0000 % 2 == 1
    ensures LeafWord(m) / 0x40 % 2 == 1
    ensures LeafWord(m) / 0x80 % 2 == 0 <==> m.perm in {UserData, UserDevice}
  {
    LeafParts(m);
    LowGrants(m);
    HighGrants(m);
  }

  lemma HighGrants(m: Mapping)
    requires m.pa % PAGE_SIZE == 0
    ensures LeafWord(m) / 0x20_0000_0000_0000 % 2 == 1
    ensures m.perm != UserText ==> LeafWord(m) / 0x40_0000_0000_0000 % 2 == 1
  {
    hide LeafWord;
    LeafParts(m);
    var w, h := LeafWord(m), m.pa / ADDRESSES % 0x10000;
    SetBitSets(h, 32);
    SetBitSets(SetBit(h, 32), 64);
    assert w / 0x20_0000_0000_0000 == w / ADDRESSES / 32;
    assert w / 0x40_0000_0000_0000 == w / ADDRESSES / 64;
  }

  lemma LowGrants(m: Mapping)
    requires m.pa % PAGE_SIZE == 0
    ensures IsValid(LeafWord(m)) && AddrOf(LeafWord(m)) == m.pa % ADDRESSES
    ensures LeafWord(m) / 0x40 % 2 == 1
    ensures LeafWord(m) / 0x80 % 2 == 0 <==> m.perm in {UserData, UserDevice}
  {
    hide LeafWord;
    LeafParts(m);
    var w, low, high := LeafWord(m), LowBits(m.perm), LeafWord(m) / ADDRESSES;
    var frame := m.pa % ADDRESSES / PAGE_SIZE;
    assert m.pa % ADDRESSES == PAGE_SIZE * frame;
    LowParts(w, frame, low, high);
    Quotient(w % ADDRESSES, PAGE_SIZE, frame, low);
  }

  lemma LowParts(w: nat, frame: nat, low: nat, high: nat)
    requires w == PAGE_SIZE * frame + low + ADDRESSES * high && low < PAGE_SIZE
    ensures w % 2 == low % 2 && w / 0x40 % 2 == low / 0x40 % 2 && w / 0x80 % 2 == low / 0x80 % 2
  {
    Quotient(w, 2, 2048 * frame + 0x8000_0000_0000 * high + low / 2, low % 2);
    Quotient(w, 0x40, 64 * frame + 0x400_0000_0000 * high + low / 0x40, low % 0x40);
    Quotient(w / 0x40, 2, 32 * frame + 0x200_0000_0000 * high + low / 0x40 / 2, low / 0x40 % 2);
    Quotient(w, 0x80, 32 * frame + 0x200_0000_0000 * high + low / 0x80, low % 0x80);
    Quotient(w / 0x80, 2, 16 * frame + 0x100_0000_0000 * high + low / 0x80 / 2, low / 0x80 % 2);
  }

  /** Bits `k` up of a word, `n` of them, where `unit` is two to the `k` and `size` two to the `n`. */
  function BitsAt(w: nat, unit: nat, size: nat): nat
    requires unit > 0 && size > 0
  {
    w / unit % size
  }

  /**
   Every field of a page descriptor, for a page below 2^48, by its place in the architecture: valid and a page; normal
   memory, inner shareable, except that a device's registers are neither; open to user mode; read-only exactly for text and
   constants; accessed; not global; never runnable by the kernel; and runnable by the user exactly for text.
   */
  lemma DescriptorIs(m: Mapping)
    requires m.pa % PAGE_SIZE == 0 && m.pa < ADDRESSES
    ensures var w, device := LeafWord(m), m.perm == UserDevice;
            && BitsAt(w, 0x1, 2) == 1 && BitsAt(w, 0x2, 2) == 1                       // valid, page
            && BitsAt(w, 0x4, 8) == (if device then 0 else 1)                         // memory attribute index
            && BitsAt(w, 0x20, 2) == 0                                                // secure
            && BitsAt(w, 0x40, 2) == 1                                                // user access
            && (BitsAt(w, 0x80, 2) == 1 <==> m.perm == UserText || m.perm == UserReadOnly)  // read-only
            && BitsAt(w, 0x100, 4) == (if device then 0 else 3)                       // shareability
            && BitsAt(w, 0x400, 2) == 1 && BitsAt(w, 0x800, 2) == 1                   // accessed, not global
            && BitsAt(w, 0x1000, PAGES) == m.pa / PAGE_SIZE                           // address
            && BitsAt(w, 0x20_0000_0000_0000, 2) == 1                                 // never for the kernel
            && (BitsAt(w, 0x40_0000_0000_0000, 2) == 0 <==> m.perm == UserText)       // never for the user
            && w < 0x80_0000_0000_0000 && BitsAt(w, ADDRESSES, 32) == 0               // and nothing else
  {
    hide LeafWord;
    LeafParts(m);
    assert m.pa / ADDRESSES == 0;
    var w, low, high := LeafWord(m), LowBits(m.perm), LeafWord(m) / ADDRESSES;
    assert high == if m.perm == UserText then 0x20 else 0x60;
    var frame := m.pa / PAGE_SIZE;
    assert m.pa == PAGE_SIZE * frame;
    assert w == PAGE_SIZE * frame + low + ADDRESSES * high;
    LowFields(w, frame, low, high);
    HighFields(w, frame, low, high);
  }

  lemma LowFields(w: nat, frame: nat, low: nat, high: nat)
    requires w == PAGE_SIZE * frame + low + ADDRESSES * high && low < PAGE_SIZE
    ensures BitsAt(w, 0x1, 2) == BitsAt(low, 0x1, 2) && BitsAt(w, 0x2, 2) == BitsAt(low, 0x2, 2)
    ensures BitsAt(w, 0x4, 8) == BitsAt(low, 0x4, 8) && BitsAt(w, 0x20, 2) == BitsAt(low, 0x20, 2)
    ensures BitsAt(w, 0x40, 2) == BitsAt(low, 0x40, 2) && BitsAt(w, 0x80, 2) == BitsAt(low, 0x80, 2)
    ensures BitsAt(w, 0x100, 4) == BitsAt(low, 0x100, 4) && BitsAt(w, 0x400, 2) == BitsAt(low, 0x400, 2)
    ensures BitsAt(w, 0x800, 2) == BitsAt(low, 0x800, 2)
  {
    LowField(w, frame, low, high, 0x1, 2, 2048);
    LowField(w, frame, low, high, 0x2, 2, 1024);
    LowField(w, frame, low, high, 0x4, 8, 128);
    LowField(w, frame, low, high, 0x20, 2, 64);
    LowField(w, frame, low, high, 0x40, 2, 32);
    LowField(w, frame, low, high, 0x80, 2, 16);
    LowField(w, frame, low, high, 0x100, 4, 4);
    LowField(w, frame, low, high, 0x400, 2, 2);
    LowField(w, frame, low, high, 0x800, 2, 1);
  }

  /** A field below the address is the same field of the low part. */
  lemma LowField(w: nat, frame: nat, low: nat, high: nat, unit: nat, size: nat, rest: nat)
    requires w == PAGE_SIZE * frame + low + ADDRESSES * high && unit > 0 && size > 0 && unit * size * rest == PAGE_SIZE
    ensures BitsAt(w, unit, size) == BitsAt(low, unit, size)
  {
    var g := frame + PAGES * high;
    assert w == PAGE_SIZE * g + low;
    var q, r := low / unit, low % unit;
    assert low == unit * q + r;
    assert PAGE_SIZE * g == unit * (size * rest * g) by { Regrouped(unit, size, rest, g); }
    Quotient(w, unit, size * rest * g + q, r);
    assert size * rest * g == size * (rest * g) by { Regrouped(1, size, rest, g); }
    Quotient(size * (rest * g) + q, size, rest * g + q / size, q % size);
  }

  lemma Regrouped(a: nat, b: nat, c: nat, d: nat)
    ensures a * b * c * d == a * (b * c * d) && b * c * d == b * (c * d)
  {
  }

  lemma HighFields(w: nat, frame: nat, low: nat, high: nat)
    requires w == PAGE_SIZE * frame + low + ADDRESSES * high && low < PAGE_SIZE && frame < PAGES && high in {0x20, 0x60}
    ensures BitsAt(w, 0x1000, PAGES) == frame && BitsAt(w, ADDRESSES, 32) == 0 && w < 0x80_0000_0000_0000
    ensures BitsAt(w, 0x20_0000_0000_0000, 2) == 1 && (BitsAt(w, 0x40_0000_0000_0000, 2) == 0 <==> high == 0x20)
  {
    Quotient(w, 0x1000, frame + PAGES * high, low);
    Quotient(frame + PAGES * high, PAGES, high, frame);
    var rest := PAGE_SIZE * frame + low;
    assert rest < ADDRESSES;
    Quotient(w, ADDRESSES, high, rest);
    if high == 0x20 {
      Quotient(w, 0x20_0000_0000_0000, 1, rest);
      Quotient(w, 0x40_0000_0000_0000, 0, w);
    } else {
      Quotient(w, 0x20_0000_0000_0000, 3, rest);
      Quotient(w, 0x40_0000_0000_0000, 1, w - 0x40_0000_0000_0000);
    }
  }

  lemma TableWordHolds(pa: nat)
    requires IsFrame(pa)
    ensures IsValid(TableWord(pa)) && AddrOf(TableWord(pa)) == pa
  {
    var f := pa / PAGE_SIZE;
    assert pa == PAGE_SIZE * f;
    Quotient(TableWord(pa), 2, 2048 * f + 1, 1);
    Quotient(TableWord(pa), ADDRESSES, 0, pa + 3);
    Quotient(pa + 3, PAGE_SIZE, f, 3);
  }

  // ---- the tables ---------------------------------------------------------------------------------------

  predicate IsFrame(pa: nat) { pa % PAGE_SIZE == 0 && pa < ADDRESSES }

  type Table = t: seq<nat> | |t| == ENTRIES witness seq(ENTRIES, _ => 0)

  /** `pool` is what the frame allocator will hand out, in order. */
  datatype Space = Space(root: nat, tables: map<nat, Table>, owned: seq<nat>, pool: seq<nat>)

  function ZeroTable(): (t: Table)
    ensures forall i | 0 <= i < ENTRIES :: t[i] == 0
  {
    seq(ENTRIES, _ => 0)
  }

  function Word(s: Space, table: nat, i: nat): nat
    requires i < ENTRIES
  {
    if table in s.tables then s.tables[table][i] else 0
  }

  function SetWord(s: Space, table: nat, i: nat, w: nat): Space
    requires i < ENTRIES
  {
    if table in s.tables then s.(tables := s.tables[table := s.tables[table][i := w]]) else s
  }

  /** How many addresses one entry of a table at `level` covers. */
  function Span(level: nat): (n: nat)
    ensures n > 0
    decreases 3 - level
  {
    if level >= 3 then PAGE_SIZE else ENTRIES * Span(level + 1)
  }

  function Index(va: nat, level: nat): (i: nat)
    ensures i < ENTRIES
  {
    va / Span(level) % ENTRIES
  }

  function PageOf(va: nat): (p: nat)
    ensures p < PAGES
  {
    va % ADDRESSES / PAGE_SIZE
  }

  /** The walk `translate` and `unmap` make from a table at `level`. */
  function Walk(s: Space, va: nat, table: nat, level: nat): Option<nat>
    requires level <= 3
    decreases 3 - level
  {
    if level == 3 then Some(table)
    else
      var e := Word(s, table, Index(va, level));
      if IsValid(e) then Walk(s, va, AddrOf(e), level + 1) else None
  }

  function Translate(s: Space, va: nat): Option<nat> {
    match Walk(s, va, s.root, 0)
    case None => None
    case Some(table) =>
      var e := Word(s, table, Index(va, 3));
      if IsValid(e) then Some(AddrOf(e) + va % PAGE_SIZE) else None
  }

  /** Hang a zeroed table from the allocator on an entry. */
  function Grow(s: Space, table: nat, i: nat): Space
    requires i < ENTRIES && s.pool != []
  {
    var next := s.pool[0];
    var added := s.(tables := s.tables[next := ZeroTable()], owned := s.owned + [next], pool := s.pool[1..]);
    SetWord(added, table, i, TableWord(next))
  }

  /** The walk `entry_for` makes, hanging new tables where there are none; tables hung before a failure stay. */
  function EntryFor(s: Space, va: nat, table: nat, level: nat): (Space, Option<nat>)
    requires level <= 3
    decreases 3 - level
  {
    if level == 3 then (s, Some(table))
    else
      var i := Index(va, level);
      if IsValid(Word(s, table, i)) then EntryFor(s, va, AddrOf(Word(s, table, i)), level + 1)
      else if s.pool == [] then (s, None)
      else
        var grown := Grow(s, table, i);
        EntryFor(grown, va, AddrOf(TableWord(s.pool[0])), level + 1)
  }

  /** A call's effect: the space after it, the page frames it put in place, in order, and why it stopped, if it did. */
  datatype Outcome = Outcome(space: Space, put: seq<nat>, error: Option<string>)

  function MapPage(s: Space, va: nat, m: Mapping): Outcome {
    var (grown, table) := EntryFor(s, va, s.root, 0);
    if table == None then Outcome(grown, [], Some(NO_TABLES))
    else Outcome(SetWord(grown, table.value, Index(va, 3), LeafWord(m)), [m.pa], None)
  }

  function MapFrom(s: Space, va: nat, pa: nat, pages: nat, perm: Perm): Outcome
    decreases pages
  {
    if pages == 0 then Outcome(s, [], None)
    else
      var first := MapPage(s, va, Mapping(pa, perm));
      if first.error != None then first
      else
        var rest := MapFrom(first.space, va + PAGE_SIZE, pa + PAGE_SIZE, pages - 1, perm);
        rest.(put := [pa] + rest.put)
  }

  function Map(s: Space, va: nat, pa: nat, pages: nat, perm: Perm): Outcome {
    if va % PAGE_SIZE != 0 || pa % PAGE_SIZE != 0 then Outcome(s, [], Some(UNALIGNED))
    else MapFrom(s, va, pa, pages, perm)
  }

  function Take(s: Space): Space
    requires s.pool != []
  {
    s.(owned := s.owned + [s.pool[0]], pool := s.pool[1..])
  }

  function MapAnonymous(s: Space, va: nat, pages: nat, perm: Perm): Outcome
    decreases pages
  {
    if pages == 0 then Outcome(s, [], None)
    else if s.pool == [] then Outcome(s, [], Some(NO_FRAMES))
    else
      var first := Map(Take(s), va, s.pool[0], 1, perm);
      if first.error != None then first
      else
        var rest := MapAnonymous(first.space, va + PAGE_SIZE, pages - 1, perm);
        rest.(put := [s.pool[0]] + rest.put)
  }

  function UnmapPage(s: Space, va: nat): Space {
    match Walk(s, va, s.root, 0)
    case None => s
    case Some(table) => SetWord(s, table, Index(va, 3), 0)
  }

  function Unmap(s: Space, va: nat, pages: nat): Space
    decreases pages
  {
    if pages == 0 then s else Unmap(UnmapPage(s, va), va + PAGE_SIZE, pages - 1)
  }

  // ---- nodes of the tree --------------------------------------------------------------------------------

  /** The tree node `va` passes through at `level`: a table's number among all the tables there could be at that level. */
  function Node(va: nat, level: nat): nat
    decreases 4 - level
  {
    if level >= 4 then PageOf(va) else Node(va, level + 1) / ENTRIES
  }

  lemma Spans()
    ensures Span(3) == 0x1000 && Span(2) == 0x20_0000 && Span(1) == 0x4000_0000 && Span(0) == 0x80_0000_0000
  {
    assert Span(2) == ENTRIES * Span(3);
    assert Span(1) == ENTRIES * Span(2);
    assert Span(0) == ENTRIES * Span(1);
  }

  lemma Nodes(va: nat)
    ensures Node(va, 4) == PageOf(va) && Node(va, 0) == 0
    ensures Node(va, 3) == PageOf(va) / 512 && Node(va, 2) == PageOf(va) / 0x4_0000 && Node(va, 1) == PageOf(va) / 0x800_0000
  {
    assert Node(va, 3) == Node(va, 4) / ENTRIES;
    assert Node(va, 2) == Node(va, 3) / ENTRIES;
    assert Node(va, 1) == Node(va, 2) / ENTRIES;
    assert Node(va, 0) == Node(va, 1) / ENTRIES;
  }

  /** Dividing, then taking a digit, does not see multiples of a larger power. */
  lemma Above(x: nat, h: nat, k: nat, m: nat)
    requires k > 0
    ensures (k * (ENTRIES * (m * h)) + x) / k % ENTRIES == x / k % ENTRIES
  {
    var g := m * h;
    var n, y, r := k * (ENTRIES * g) + x, x / k, x % k;
    assert x == k * y + r;
    assert n == k * (ENTRIES * g + y) + r;
    Quotient(n, k, ENTRIES * g + y, r);
    Quotient(ENTRIES * g + y, ENTRIES, g + y / ENTRIES, y % ENTRIES);
  }

  /** One digit of a page number, with what lies above it cut off or not. */
  lemma Digit(n: nat, k: nat)
    requires k in {1, 512, 0x4_0000, 0x800_0000}
    ensures n % PAGES / k % ENTRIES == n / k % ENTRIES
  {
    var x, h := n % PAGES, n / PAGES;
    var m := if k == 1 then 0x800_0000 else if k == 512 then 0x4_0000 else if k == 0x4_0000 then 512 else 1;
    Above(x, h, k, m);
    assert n == PAGES * h + x;
    assert n == k * (ENTRIES * (m * h)) + x;
  }

  lemma NodeStep(va: nat, level: nat)
    requires level <= 3
    ensures Node(va, level + 1) / ENTRIES == Node(va, level)
    ensures Node(va, level + 1) % ENTRIES == Index(va, level)
  {
    Spans();
    Nodes(va);
    PageIs(va);
    var k := if level == 3 then 1 else if level == 2 then 512 else if level == 1 then 0x4_0000 else 0x800_0000;
    Nested(va, PAGE_SIZE, k);
    Digit(va / PAGE_SIZE, k);
  }

  /** The table at node `q` of `level`, if the tree has one. */
  function Reach(s: Space, level: nat, q: nat): Option<nat> {
    if level == 0 then (if q == 0 then Some(s.root) else None)
    else
      match Reach(s, level - 1, q / ENTRIES)
      case None => None
      case Some(table) =>
        var e := Word(s, table, q % ENTRIES);
        if IsValid(e) then Some(AddrOf(e)) else None
  }

  /** The descriptor of a page; zero where there is no table to hold one. */
  function Leaf(s: Space, page: nat): nat {
    match Reach(s, 3, page / ENTRIES)
    case None => 0
    case Some(table) => Word(s, table, page % ENTRIES)
  }

  predicate Reaches(s: Space, level: nat, q: nat, table: nat) { Reach(s, level, q) == Some(table) }

  /** No two nodes share a table, at the same level or across levels. */
  ghost predicate NoSharing(s: Space) {
    forall l1, q1, l2, q2, t |
      l1 <= 3 && l2 <= 3 && Reaches(s, l1, q1, t) && Reaches(s, l2, q2, t) :: l1 == l2 && q1 == q2
  }

  ghost predicate Backed(s: Space) {
    forall l, q, t | l <= 3 && Reaches(s, l, q, t) :: t in s.tables
  }

  predicate Distinct(xs: seq<nat>) { forall i, j | 0 <= i < j < |xs| :: xs[i] != xs[j] }

  /** What the space owns and what the allocator still has are frames, each once, and every table is owned. */
  predicate Stocked(s: Space) {
    && Distinct(s.owned + s.pool)
    && (forall f | f in s.owned + s.pool :: IsFrame(f))
    && (forall t | t in s.tables :: t in s.owned)
  }

  ghost predicate Inv(s: Space) { NoSharing(s) && Backed(s) && Stocked(s) }

  lemma SameNode(s: Space, l1: nat, q1: nat, l2: nat, q2: nat, t: nat)
    requires NoSharing(s) && l1 <= 3 && l2 <= 3 && Reach(s, l1, q1) == Some(t) && Reach(s, l2, q2) == Some(t)
    ensures l1 == l2 && q1 == q2
  {
    assert Reaches(s, l1, q1, t) && Reaches(s, l2, q2, t);
  }

  lemma InTables(s: Space, l: nat, q: nat, t: nat)
    requires Backed(s) && l <= 3 && Reach(s, l, q) == Some(t)
    ensures t in s.tables
  {
    assert Reaches(s, l, q, t);
  }

  /** The walk by address is the walk by node. */
  lemma {:induction false} WalkIsReach(s: Space, va: nat, table: nat, level: nat)
    requires level <= 3 && Reach(s, level, Node(va, level)) == Some(table)
    ensures Walk(s, va, table, level) == Reach(s, 3, Node(va, 3))
    decreases 3 - level
  {
    if level < 3 {
      NodeStep(va, level);
      if IsValid(Word(s, table, Index(va, level))) {
        WalkIsReach(s, va, AddrOf(Word(s, table, Index(va, level))), level + 1);
      } else {
        Absent(s, va, level + 1);
      }
    }
  }

  lemma {:induction false} Absent(s: Space, va: nat, level: nat)
    requires level <= 3 && Reach(s, level, Node(va, level)) == None
    ensures Reach(s, 3, Node(va, 3)) == None
    decreases 3 - level
  {
    if level < 3 {
      NodeStep(va, level);
      Absent(s, va, level + 1);
    }
  }

  lemma TranslateIsLeaf(s: Space, va: nat)
    ensures Walk(s, va, s.root, 0) == Reach(s, 3, PageOf(va) / ENTRIES)
    ensures Index(va, 3) == PageOf(va) % ENTRIES
    ensures Translate(s, va)
      == (if IsValid(Leaf(s, PageOf(va))) then Some(AddrOf(Leaf(s, PageOf(va))) + va % PAGE_SIZE) else None)
  {
    Spans();
    NodeStep(va, 3);
    WalkIsReach(s, va, s.root, 0);
    assert Node(va, 4) == PageOf(va);
  }

  // ---- one entry at a time ------------------------------------------------------------------------------

  /** Hanging a table on node `q` of `level + 1` gives that node a table and changes no other. */
  lemma {:induction false} GrowReach(s: Space, level: nat, q: nat, table: nat, l: nat, p: nat)
    requires Inv(s) && level < 3 && s.pool != [] && Reach(s, level, q / ENTRIES) == Some(table)
    requires !IsValid(Word(s, table, q % ENTRIES)) && l <= 3
    ensures Reach(Grow(s, table, q % ENTRIES), l, p)
      == if l == level + 1 && p == q then Some(s.pool[0]) else Reach(s, l, p)
    decreases l
  {
    var next, grown := s.pool[0], Grow(s, table, q % ENTRIES);
    InTables(s, level, q / ENTRIES, table);
    Unowned(s);
    TableWordHolds(next);
    if l > 0 {
      GrowReach(s, level, q, table, l - 1, p / ENTRIES);
      if l - 1 == level + 1 && p / ENTRIES == q {
        assert Word(grown, next, p % ENTRIES) == 0;
      } else {
        match Reach(s, l - 1, p / ENTRIES)
        case None =>
        case Some(t) =>
          InTables(s, l - 1, p / ENTRIES, t);
          if t == table && p % ENTRIES == q % ENTRIES {
            SameNode(s, level, q / ENTRIES, l - 1, p / ENTRIES, t);
          } else {
            assert Word(grown, t, p % ENTRIES) == Word(s, t, p % ENTRIES);
          }
      }
    }
  }

  /** The allocator's next frame is not one the space has. */
  lemma Unowned(s: Space)
    requires Stocked(s) && s.pool != []
    ensures s.pool[0] !in s.tables && s.pool[0] !in s.owned && IsFrame(s.pool[0])
  {
    var all, k := s.owned + s.pool, |s.owned|;
    assert all[k] == s.pool[0] && s.pool[0] in all;
    assert forall i | 0 <= i < k :: all[i] == s.owned[i];
  }

  lemma TakeStocked(s: Space)
    requires s.pool != []
    ensures s.owned + s.pool == (s.owned + [s.pool[0]]) + s.pool[1..]
  {
  }

  lemma GrowKeeps(s: Space, level: nat, q: nat, table: nat)
    requires Inv(s) && level < 3 && s.pool != [] && Reach(s, level, q / ENTRIES) == Some(table)
    requires !IsValid(Word(s, table, q % ENTRIES))
    ensures Inv(Grow(s, table, q % ENTRIES))
    ensures Reach(Grow(s, table, q % ENTRIES), level + 1, q) == Some(s.pool[0])
    ensures forall page: nat :: Leaf(Grow(s, table, q % ENTRIES), page) == Leaf(s, page)
  {
    hide Reach;
    var next, grown := s.pool[0], Grow(s, table, q % ENTRIES);
    Unowned(s);
    TakeStocked(s);
    InTables(s, level, q / ENTRIES, table);
    assert Reach(s, level + 1, q) == None by { NoChild(s, level, q, table); }
    forall l, p, t | l <= 3 && Reaches(grown, l, p, t)
      ensures t in grown.tables
      ensures t == next <==> l == level + 1 && p == q
      ensures t != next ==> Reaches(s, l, p, t)
    {
      GrowReach(s, level, q, table, l, p);
      if !(l == level + 1 && p == q) { InTables(s, l, p, t); }
    }
    GrowReach(s, level, q, table, level + 1, q);
    forall page: nat ensures Leaf(grown, page) == Leaf(s, page) {
      GrowReach(s, level, q, table, 3, page / ENTRIES);
      LeafGrown(s, level, q, table, page);
    }
  }

  lemma NoChild(s: Space, level: nat, q: nat, table: nat)
    requires Reach(s, level, q / ENTRIES) == Some(table) && !IsValid(Word(s, table, q % ENTRIES))
    ensures Reach(s, level + 1, q) == None
  {
  }

  lemma LeafGrown(s: Space, level: nat, q: nat, table: nat, page: nat)
    requires Inv(s) && level < 3 && s.pool != [] && Reach(s, level, q / ENTRIES) == Some(table)
    requires !IsValid(Word(s, table, q % ENTRIES))
    ensures Leaf(Grow(s, table, q % ENTRIES), page) == Leaf(s, page)
  {
    hide Reach;
    var next, grown, up := s.pool[0], Grow(s, table, q % ENTRIES), page / ENTRIES;
    GrowReach(s, level, q, table, 3, up);
    Unowned(s);
    InTables(s, level, q / ENTRIES, table);
    if level + 1 == 3 && up == q {
      NoChild(s, level, q, table);
    } else {
      match Reach(s, 3, up)
      case None =>
      case Some(t) =>
        InTables(s, 3, up, t);
        if t == table { SameNode(s, level, q / ENTRIES, 3, up, t); }
    }
  }

  /** `entry_for` reaches the table for `va`, or the allocator is empty; either way no page's descriptor has changed. */
  lemma {:induction false} EntryForKeeps(s: Space, va: nat, table: nat, level: nat)
    requires Inv(s) && level <= 3 && Reach(s, level, Node(va, level)) == Some(table)
    ensures var (grown, found) := EntryFor(s, va, table, level);
      && Inv(grown) && grown.root == s.root
      && (forall page: nat :: Leaf(grown, page) == Leaf(s, page))
      && (found == None ==> grown.pool == [])
      && (found.Some? ==> Reach(grown, 3, Node(va, 3)) == found)
      && Fewer(s, grown)
    decreases 3 - level
  {
    hide Inv, Leaf;
    if level < 3 {
      NodeStep(va, level);
      var i := Index(va, level);
      if IsValid(Word(s, table, i)) {
        EntryForKeeps(s, va, AddrOf(Word(s, table, i)), level + 1);
      } else if s.pool != [] {
        GrowKeeps(s, level, Node(va, level + 1), table);
        assert Inv(s) && Stocked(s) by { Parts(s); }
        Unowned(s);
        TableWordHolds(s.pool[0]);
        EntryForKeeps(Grow(s, table, i), va, s.pool[0], level + 1);
        FewerGrow(s, table, i);
        FewerTrans(s, Grow(s, table, i), EntryFor(s, va, table, level).0);
      }
    }
  }

  lemma Parts(s: Space)
    requires Inv(s)
    ensures NoSharing(s) && Backed(s) && Stocked(s)
  {
  }

  /** Frames only move from the allocator to the space, in order; and only those become tables. */
  predicate Fewer(s: Space, t: Space) {
    && s.owned <= t.owned && s.owned + s.pool == t.owned + t.pool
    && (forall f | f in t.tables :: f in s.tables || f in s.pool)
    && (forall f | f in s.tables :: f in t.tables)
  }

  lemma FewerGrow(s: Space, table: nat, i: nat)
    requires i < ENTRIES && s.pool != []
    ensures Fewer(s, Grow(s, table, i))
  {
    TakeStocked(s);
  }

  lemma PoolShrinks(s: Space, t: Space)
    requires Fewer(s, t)
    ensures forall f | f in t.pool :: f in s.pool
  {
    var all, k := s.owned + s.pool, |t.owned|;
    assert |s.owned| <= k;
    forall f | f in t.pool
      ensures f in s.pool
    {
      var j :| 0 <= j < |t.pool| && t.pool[j] == f;
      assert (t.owned + t.pool)[k + j] == f;
      assert all[k + j] == s.pool[k + j - |s.owned|];
    }
  }

  lemma FewerTrans(s: Space, t: Space, u: Space)
    requires Fewer(s, t) && Fewer(t, u)
    ensures Fewer(s, u)
  {
    PoolShrinks(s, t);
  }

  /** Writing a page's descriptor changes that page's and no other, and no table. */
  lemma {:induction false} SetLeafReach(s: Space, page: nat, table: nat, w: nat, l: nat, p: nat)
    requires Inv(s) && Reach(s, 3, page / ENTRIES) == Some(table) && l <= 3
    ensures Reach(SetWord(s, table, page % ENTRIES, w), l, p) == Reach(s, l, p)
    decreases l
  {
    if l > 0 {
      SetLeafReach(s, page, table, w, l - 1, p / ENTRIES);
      match Reach(s, l - 1, p / ENTRIES)
      case None =>
      case Some(t) =>
        if t == table { SameNode(s, 3, page / ENTRIES, l - 1, p / ENTRIES, t); }
    }
  }

  lemma SetLeaf(s: Space, page: nat, table: nat, w: nat)
    requires Inv(s) && Reach(s, 3, page / ENTRIES) == Some(table)
    ensures var t := SetWord(s, table, page % ENTRIES, w);
      Inv(t) && forall other: nat :: Leaf(t, other) == if other == page then w else Leaf(s, other)
  {
    hide Reach;
    var t := SetWord(s, table, page % ENTRIES, w);
    InTables(s, 3, page / ENTRIES, table);
    forall l, p, u | l <= 3 && Reaches(t, l, p, u)
      ensures Reaches(s, l, p, u) && u in t.tables
    {
      SetLeafReach(s, page, table, w, l, p);
      InTables(s, l, p, u);
    }
    forall other: nat ensures Leaf(t, other) == if other == page then w else Leaf(s, other) {
      SetLeafReach(s, page, table, w, 3, other / ENTRIES);
      match Reach(s, 3, other / ENTRIES)
      case None =>
      case Some(u) =>
        if u == table { SameNode(s, 3, page / ENTRIES, 3, other / ENTRIES, u); }
    }
  }

  // ---- the flat map -------------------------------------------------------------------------------------

  /** The tree holds exactly the descriptors of `flat`. */
  ghost predicate Holds(s: Space, flat: map<nat, Mapping>) {
    && (forall page | page in flat :: flat[page].pa % PAGE_SIZE == 0)
    && (forall page: nat :: page < PAGES ==> Leaf(s, page) == Descriptor(flat, page))
  }

  function Descriptor(flat: map<nat, Mapping>, page: nat): nat {
    if page in flat then LeafWord(flat[page]) else 0
  }

  function Lookup(flat: map<nat, Mapping>, va: nat): Option<nat> {
    if PageOf(va) in flat then Some(flat[PageOf(va)].pa % ADDRESSES + va % PAGE_SIZE) else None
  }

  /** The walk is a lookup in the flat map, whatever the bits of `va` above the 48 that the tables decode. */
  lemma TranslateIsLookup(s: Space, flat: map<nat, Mapping>, va: nat)
    requires Holds(s, flat)
    ensures Translate(s, va) == Lookup(flat, va)
  {
    TranslateIsLeaf(s, va);
    if PageOf(va) in flat { LeafGrants(flat[PageOf(va)]); }
  }

  function FlatMap(flat: map<nat, Mapping>, va: nat, put: seq<nat>, perm: Perm): map<nat, Mapping>
    decreases |put|
  {
    if put == [] then flat
    else FlatMap(flat[PageOf(va) := Mapping(put[0], perm)], va + PAGE_SIZE, put[1..], perm)
  }

  function FlatUnmap(flat: map<nat, Mapping>, va: nat, pages: nat): map<nat, Mapping>
    decreases pages
  {
    if pages == 0 then flat else FlatUnmap(flat - {PageOf(va)}, va + PAGE_SIZE, pages - 1)
  }

  /** Mapping one page: that page's translation and no other's, or nothing when there is no frame for a table. */
  lemma MapPageHolds(s: Space, flat: map<nat, Mapping>, va: nat, m: Mapping)
    requires Inv(s) && Holds(s, flat) && m.pa % PAGE_SIZE == 0
    ensures var r := MapPage(s, va, m);
      && Inv(r.space) && Fewer(s, r.space)
      && Holds(r.space, if r.error == None then flat[PageOf(va) := m] else flat)
      && (r.error == None ==> r.put == [m.pa])
      && (r.error != None ==> r.put == [] && r.error == Some(NO_TABLES) && r.space.pool == [])
  {
    hide Inv, Leaf, LeafWord, Reach;
    RootReached(s, va);
    EntryForKeeps(s, va, s.root, 0);
    var (grown, table) := EntryFor(s, va, s.root, 0);
    if table.Some? {
      TranslateIsLeaf(grown, va);
      NodeStep(va, 3);
      Spans();
      SetLeaf(grown, PageOf(va), table.value, LeafWord(m));
      FewerSet(s, grown, table.value, Index(va, 3), LeafWord(m));
    }
  }

  lemma RootReached(s: Space, va: nat)
    ensures Reach(s, 0, Node(va, 0)) == Some(s.root)
  {
  }

  lemma FewerSet(s: Space, t: Space, table: nat, i: nat, w: nat)
    requires i < ENTRIES && Fewer(s, t)
    ensures Fewer(s, SetWord(t, table, i, w))
  {
  }

  lemma {:induction false} MapFromHolds(s: Space, flat: map<nat, Mapping>, va: nat, pa: nat, pages: nat, perm: Perm)
    requires Inv(s) && Holds(s, flat) && pa % PAGE_SIZE == 0
    ensures var r := MapFrom(s, va, pa, pages, perm);
      && Inv(r.space) && Fewer(s, r.space)
      && Holds(r.space, FlatMap(flat, va, r.put, perm))
      && |r.put| <= pages && (forall i | 0 <= i < |r.put| :: r.put[i] == pa + i * PAGE_SIZE)
      && (r.error == None <==> |r.put| == pages)
      && (r.error != None ==> r.error == Some(NO_TABLES) && r.space.pool == [])
    decreases pages
  {
    hide Inv, Holds, MapPage;
    if pages > 0 {
      MapPageHolds(s, flat, va, Mapping(pa, perm));
      var first := MapPage(s, va, Mapping(pa, perm));
      if first.error == None {
        var flat1 := flat[PageOf(va) := Mapping(pa, perm)];
        MapFromHolds(first.space, flat1, va + PAGE_SIZE, pa + PAGE_SIZE, pages - 1, perm);
        var rest := MapFrom(first.space, va + PAGE_SIZE, pa + PAGE_SIZE, pages - 1, perm);
        FewerTrans(s, first.space, rest.space);
        assert ([pa] + rest.put)[1..] == rest.put;
      }
    }
  }

  lemma UnmapPageHolds(s: Space, flat: map<nat, Mapping>, va: nat)
    requires Inv(s) && Holds(s, flat)
    ensures Inv(UnmapPage(s, va)) && Holds(UnmapPage(s, va), flat - {PageOf(va)}) && Fewer(s, UnmapPage(s, va))
  {
    hide Inv, Reach;
    TranslateIsLeaf(s, va);
    var page := PageOf(va);
    match Walk(s, va, s.root, 0)
    case None =>
      assert Leaf(s, page) == 0;
      if page in flat { LeafGrants(flat[page]); }
      assert flat - {page} == flat;
    case Some(table) =>
      SetLeaf(s, page, table, 0);
  }

  lemma {:induction false} UnmapHolds(s: Space, flat: map<nat, Mapping>, va: nat, pages: nat)
    requires Inv(s) && Holds(s, flat)
    ensures Inv(Unmap(s, va, pages)) && Holds(Unmap(s, va, pages), FlatUnmap(flat, va, pages))
    ensures Fewer(s, Unmap(s, va, pages))
    decreases pages
  {
    hide Inv, Holds, UnmapPage;
    if pages > 0 {
      UnmapPageHolds(s, flat, va);
      UnmapHolds(UnmapPage(s, va), flat - {PageOf(va)}, va + PAGE_SIZE, pages - 1);
      FewerTrans(s, UnmapPage(s, va), Unmap(s, va, pages));
    }
  }

  // ---- what a mapped range gives ------------------------------------------------------------------------

  lemma PageIs(va: nat)
    ensures PageOf(va) == va / PAGE_SIZE % PAGES
  {
    var x, k := va % ADDRESSES, va / ADDRESSES;
    Quotient(va, PAGE_SIZE, PAGES * k + x / PAGE_SIZE, x % PAGE_SIZE);
    Quotient(va / PAGE_SIZE, PAGES, k, x / PAGE_SIZE);
  }

  lemma PagesDiffer(va: nat, i: nat)
    requires 0 < i < PAGES
    ensures PageOf(va + i * PAGE_SIZE) != PageOf(va)
  {
    PageIs(va);
    PageIs(va + i * PAGE_SIZE);
    var n := va / PAGE_SIZE;
    Quotient(va + i * PAGE_SIZE, PAGE_SIZE, n + i, va % PAGE_SIZE);
    var r := n % PAGES;
    if r + i < PAGES {
      Quotient(n + i, PAGES, n / PAGES, r + i);
    } else {
      Quotient(n + i, PAGES, n / PAGES + 1, r + i - PAGES);
    }
  }

  /** Later pages of a range leave earlier ones alone, as long as the range does not go round. */
  lemma {:induction false} FlatMapMisses(flat: map<nat, Mapping>, va: nat, from: nat, put: seq<nat>, perm: Perm)
    requires 0 < from && from + |put| <= PAGES && PageOf(va) in flat
    ensures var f := FlatMap(flat, va + from * PAGE_SIZE, put, perm); PageOf(va) in f && f[PageOf(va)] == flat[PageOf(va)]
    decreases |put|
  {
    if put != [] {
      PagesDiffer(va, from);
      assert va + from * PAGE_SIZE + PAGE_SIZE == va + (from + 1) * PAGE_SIZE;
      FlatMapMisses(flat[PageOf(va + from * PAGE_SIZE) := Mapping(put[0], perm)], va, from + 1, put[1..], perm);
    }
  }

  lemma {:induction false} FlatMapAt(flat: map<nat, Mapping>, va: nat, put: seq<nat>, perm: Perm, i: nat)
    requires i < |put| <= PAGES
    ensures var f := FlatMap(flat, va, put, perm);
            PageOf(va + i * PAGE_SIZE) in f && f[PageOf(va + i * PAGE_SIZE)] == Mapping(put[i], perm)
    decreases i
  {
    var once := flat[PageOf(va) := Mapping(put[0], perm)];
    if i == 0 {
      assert va + 1 * PAGE_SIZE == va + PAGE_SIZE && va + 0 * PAGE_SIZE == va;
      FlatMapMisses(once, va, 1, put[1..], perm);
    } else {
      assert va + PAGE_SIZE + (i - 1) * PAGE_SIZE == va + i * PAGE_SIZE;
      FlatMapAt(once, va + PAGE_SIZE, put[1..], perm, i - 1);
    }
  }

  /**
   What a successful map gives the process: each page of the range translates to its page of memory, can be run exactly when
   it was mapped as text, and can be written exactly when it was mapped as data or as a device.
   */
  lemma MapGives(s: Space, flat: map<nat, Mapping>, va: nat, pa: nat, pages: nat, perm: Perm, i: nat, offset: nat)
    requires Inv(s) && Holds(s, flat) && Map(s, va, pa, pages, perm).error == None
    requires i < pages <= PAGES && offset < PAGE_SIZE && pa + i * PAGE_SIZE < ADDRESSES
    ensures var s', at := Map(s, va, pa, pages, perm).space, va + i * PAGE_SIZE + offset;
            var w := Leaf(s', PageOf(at));
            && Translate(s', at) == Some(pa + i * PAGE_SIZE + offset)
            && (BitsAt(w, 0x40_0000_0000_0000, 2) == 0 <==> perm == UserText)
            && (BitsAt(w, 0x80, 2) == 0 <==> perm == UserData || perm == UserDevice)
  {
    hide Inv, MapFrom, Leaf, LeafWord, Translate, BitsAt;
    MapFromHolds(s, flat, va, pa, pages, perm);
    var r := Map(s, va, pa, pages, perm);
    var at, page := va + i * PAGE_SIZE + offset, va + i * PAGE_SIZE;
    FlatMapAt(flat, va, r.put, perm, i);
    SamePage(va, i, offset);
    var flat' := FlatMap(flat, va, r.put, perm);
    TranslateIsLookup(r.space, flat', at);
    SamePage(pa, i, 0);
    DescriptorIs(Mapping(pa + i * PAGE_SIZE, perm));
    FieldBit(LeafWord(Mapping(pa + i * PAGE_SIZE, perm)));
  }

  lemma SamePage(base: nat, i: nat, offset: nat)
    requires base % PAGE_SIZE == 0 && offset < PAGE_SIZE
    ensures var page := base + i * PAGE_SIZE;
            PageOf(page + offset) == PageOf(page) && page % PAGE_SIZE == 0 && (page + offset) % PAGE_SIZE == offset
  {
    var page := base + i * PAGE_SIZE;
    Quotient(page, PAGE_SIZE, base / PAGE_SIZE + i, 0);
    Quotient(page + offset, PAGE_SIZE, base / PAGE_SIZE + i, offset);
    PageIs(page);
    PageIs(page + offset);
  }

  lemma FieldBit(w: nat)
    ensures BitsAt(w, 0x80, 2) == 0 || BitsAt(w, 0x80, 2) == 1
  {
  }

  // ---- anonymous pages ----------------------------------------------------------------------------------

  lemma TakeKeeps(s: Space, flat: map<nat, Mapping>)
    requires Inv(s) && Holds(s, flat) && s.pool != []
    ensures Inv(Take(s)) && Holds(Take(s), flat) && Fewer(s, Take(s)) && IsFrame(s.pool[0])
  {
    hide Reach;
    var t := Take(s);
    TakeStocked(s);
    Unowned(s);
    forall l, q { SameReach(s, t, l, q); }
    forall l, p, u | l <= 3 && Reaches(t, l, p, u)
      ensures Reaches(s, l, p, u) && u in t.tables
    {
      InTables(s, l, p, u);
    }
    forall page: nat ensures Leaf(t, page) == Leaf(s, page) { SameReach(s, t, 3, page / ENTRIES); }
  }

  lemma {:induction false} SameReach(s: Space, t: Space, l: nat, q: nat)
    requires s.root == t.root && s.tables == t.tables
    ensures Reach(s, l, q) == Reach(t, l, q)
    decreases l
  {
    if l > 0 { SameReach(s, t, l - 1, q / ENTRIES); }
  }

  /** One anonymous page. */
  lemma FirstHolds(s: Space, flat: map<nat, Mapping>, va: nat, perm: Perm)
    requires Inv(s) && Holds(s, flat) && s.pool != [] && va % PAGE_SIZE == 0
    ensures var first := Map(Take(s), va, s.pool[0], 1, perm);
      && Inv(first.space) && Fewer(Take(s), first.space) && Fewer(s, first.space)
      && Holds(first.space, FlatMap(flat, va, first.put, perm))
      && first.put == (if first.error == None then [s.pool[0]] else [])
      && (first.error != None ==> first.error == Some(NO_TABLES) && first.space.pool == [])
  {
    hide Inv, Holds, MapFrom;
    TakeKeeps(s, flat);
    MapFromHolds(Take(s), flat, va, s.pool[0], 1, perm);
    FewerTrans(s, Take(s), Map(Take(s), va, s.pool[0], 1, perm).space);
  }

  /** Anonymous pages: the flat map gains the frames put in place. */
  lemma {:induction false} MapAnonymousHolds(s: Space, flat: map<nat, Mapping>, va: nat, pages: nat, perm: Perm)
    requires Inv(s) && Holds(s, flat)
    ensures var r := MapAnonymous(s, va, pages, perm);
      && Inv(r.space) && Fewer(s, r.space)
      && Holds(r.space, FlatMap(flat, va, r.put, perm))
    decreases pages
  {
    hide Inv, Holds, Map, Fewer;
    if pages == 0 || s.pool == [] {
      FewerSame(s);
    } else if va % PAGE_SIZE != 0 {
      TakeKeeps(s, flat);
      assert Map(Take(s), va, s.pool[0], 1, perm) == Outcome(Take(s), [], Some(UNALIGNED)) by { Refused(Take(s), va, s.pool[0], perm); }
    } else {
      FirstHolds(s, flat, va, perm);
      var first := Map(Take(s), va, s.pool[0], 1, perm);
      if first.error == None {
        var flat1 := FlatMap(flat, va, first.put, perm);
        MapAnonymousHolds(first.space, flat1, va + PAGE_SIZE, pages - 1, perm);
        var rest := MapAnonymous(first.space, va + PAGE_SIZE, pages - 1, perm);
        FewerTrans(s, first.space, rest.space);
        FlatOnce(flat, va, s.pool[0], rest.put, perm);
      }
    }
  }

  lemma NextAligned(va: nat)
    requires va % PAGE_SIZE == 0
    ensures (va + PAGE_SIZE) % PAGE_SIZE == 0
  {
  }

  /** All pages are put in place, or the address is unaligned and none is, or the allocator has run dry. */
  lemma {:induction false} AnonymousStops(s: Space, flat: map<nat, Mapping>, va: nat, pages: nat, perm: Perm)
    requires Inv(s) && Holds(s, flat)
    ensures var r := MapAnonymous(s, va, pages, perm);
      && |r.put| <= pages && (r.error == None <==> |r.put| == pages)
      && (r.error != None && va % PAGE_SIZE != 0 ==> r.put == [])
      && (r.error != None && va % PAGE_SIZE == 0 ==> r.space.pool == [])
    decreases pages
  {
    hide Inv, Holds, Map, Fewer;
    if pages > 0 && s.pool != [] {
      if va % PAGE_SIZE != 0 {
        Refused(Take(s), va, s.pool[0], perm);
      } else {
        FirstHolds(s, flat, va, perm);
        var first := Map(Take(s), va, s.pool[0], 1, perm);
        if first.error == None {
          NextAligned(va);
          AnonymousStops(first.space, FlatMap(flat, va, first.put, perm), va + PAGE_SIZE, pages - 1, perm);
        }
      }
    }
  }

  lemma Refused(s: Space, va: nat, pa: nat, perm: Perm)
    requires va % PAGE_SIZE != 0
    ensures Map(s, va, pa, 1, perm) == Outcome(s, [], Some(UNALIGNED))
  {
  }

  lemma FewerSame(s: Space)
    ensures Fewer(s, s)
  {
  }

  /** The frames of anonymous pages come from the allocator, each once, and none is or becomes a table. */
  lemma {:induction false} AnonymousIsFresh(s: Space, flat: map<nat, Mapping>, va: nat, pages: nat, perm: Perm)
    requires Inv(s) && Holds(s, flat)
    ensures var r := MapAnonymous(s, va, pages, perm);
      && (forall f | f in r.put :: f in s.pool && f !in r.space.tables && f !in r.space.pool)
      && Distinct(r.put)
    decreases pages
  {
    hide Inv, Holds, Map, Fewer;
    if pages > 0 && s.pool != [] {
      var first := Map(Take(s), va, s.pool[0], 1, perm);
      if va % PAGE_SIZE != 0 {
        Refused(Take(s), va, s.pool[0], perm);
      } else {
        FirstHolds(s, flat, va, perm);
        if first.error == None {
          var flat1 := FlatMap(flat, va, first.put, perm);
          AnonymousIsFresh(first.space, flat1, va + PAGE_SIZE, pages - 1, perm);
          MapAnonymousHolds(first.space, flat1, va + PAGE_SIZE, pages - 1, perm);
          var rest := MapAnonymous(first.space, va + PAGE_SIZE, pages - 1, perm);
          PoolShrinks(s, first.space);
          Apart(s, Take(s), first.space, rest.space);
        }
      }
    }
  }

  lemma FlatOnce(flat: map<nat, Mapping>, va: nat, f: nat, rest: seq<nat>, perm: Perm)
    ensures FlatMap(flat, va, [f] + rest, perm) == FlatMap(FlatMap(flat, va, [f], perm), va + PAGE_SIZE, rest, perm)
  {
    assert ([f] + rest)[1..] == rest && [f][1..] == [];
  }

  /** A frame taken for a page becomes no table later, and is not handed out again. */
  lemma Apart(s: Space, taken: Space, first: Space, rest: Space)
    requires Inv(s) && s.pool != [] && taken == Take(s) && Fewer(taken, first) && Fewer(first, rest)
    ensures s.pool[0] !in rest.tables && s.pool[0] !in first.pool && s.pool[0] !in rest.pool
  {
    hide NoSharing, Backed;
    Unowned(s);
    PoolShrinks(taken, first);
    PoolShrinks(first, rest);
    var all, k := s.owned + s.pool, |s.owned|;
    assert forall j | 0 <= j < |taken.pool| :: taken.pool[j] == all[k + 1 + j];
    assert all[k] == s.pool[0];
  }

  // ---- every run ----------------------------------------------------------------------------------------

  datatype Op =
    | DoMap(va: nat, pa: nat, pages: nat, perm: Perm)
    | DoAnonymous(va: nat, pages: nat, perm: Perm)
    | DoUnmap(va: nat, pages: nat)

  function Apply(s: Space, op: Op): Outcome {
    match op
    case DoMap(va, pa, pages, perm) => Map(s, va, pa, pages, perm)
    case DoAnonymous(va, pages, perm) => MapAnonymous(s, va, pages, perm)
    case DoUnmap(va, pages) => Outcome(Unmap(s, va, pages), [], None)
  }

  /** The same call on a flat map, given the page frames it put in place. */
  function FlatApply(flat: map<nat, Mapping>, op: Op, put: seq<nat>): map<nat, Mapping> {
    match op
    case DoMap(va, pa, pages, perm) => FlatMap(flat, va, put, perm)
    case DoAnonymous(va, pages, perm) => FlatMap(flat, va, put, perm)
    case DoUnmap(va, pages) => FlatUnmap(flat, va, pages)
  }

  datatype World = World(space: Space, flat: map<nat, Mapping>)

  function Run(w: World, ops: seq<Op>): World
    decreases |ops|
  {
    if ops == [] then w
    else
      var r := Apply(w.space, ops[0]);
      Run(World(r.space, FlatApply(w.flat, ops[0], r.put)), ops[1..])
  }

  /** A new address space: one zeroed table. */
  function Fresh(pool: seq<nat>): Option<Space> {
    if pool == [] then None else Some(Space(pool[0], map[pool[0] := ZeroTable()], [pool[0]], pool[1..]))
  }

  lemma {:induction false} FreshReach(s: Space, l: nat, q: nat)
    requires s.tables == map[s.root := ZeroTable()]
    ensures Reach(s, l, q) == if l == 0 && q == 0 then Some(s.root) else None
    decreases l
  {
    if l > 0 { FreshReach(s, l - 1, q / ENTRIES); }
  }

  lemma FreshHolds(pool: seq<nat>)
    requires pool != [] && Distinct(pool) && forall f | f in pool :: IsFrame(f)
    ensures Inv(Fresh(pool).value) && Holds(Fresh(pool).value, map[])
  {
    hide Reach;
    var s := Fresh(pool).value;
    assert s.owned + s.pool == pool;
    forall l, q { FreshReach(s, l, q); }
  }

  lemma ApplyHolds(s: Space, flat: map<nat, Mapping>, op: Op)
    requires Inv(s) && Holds(s, flat)
    ensures var r := Apply(s, op);
      Inv(r.space) && Holds(r.space, FlatApply(flat, op, r.put)) && Fewer(s, r.space)
  {
    hide Inv, Holds, MapFrom;
    match op
    case DoMap(va, pa, pages, perm) =>
      if pa % PAGE_SIZE == 0 { MapFromHolds(s, flat, va, pa, pages, perm); }
    case DoAnonymous(va, pages, perm) => MapAnonymousHolds(s, flat, va, pages, perm);
    case DoUnmap(va, pages) => UnmapHolds(s, flat, va, pages);
  }

  /**
   Over every sequence of calls, failing ones included: translating any address is looking its page up in the flat map the
   same calls build, and the space owns no frame twice, so giving them back frees each once.
   */
  lemma {:induction false} EveryRunIsFlat(w: World, ops: seq<Op>, va: nat)
    requires Inv(w.space) && Holds(w.space, w.flat)
    ensures Inv(Run(w, ops).space) && Holds(Run(w, ops).space, Run(w, ops).flat)
    ensures Translate(Run(w, ops).space, va) == Lookup(Run(w, ops).flat, va)
    ensures Distinct(Run(w, ops).space.owned) && w.space.owned <= Run(w, ops).space.owned
    decreases |ops|
  {
    hide Inv, Holds, Apply, FlatApply, Translate, Lookup;
    if ops == [] {
      TranslateIsLookup(w.space, w.flat, va);
      OwnedOnce(w.space);
    } else {
      ApplyHolds(w.space, w.flat, ops[0]);
      var r := Apply(w.space, ops[0]);
      EveryRunIsFlat(World(r.space, FlatApply(w.flat, ops[0], r.put)), ops[1..], va);
    }
  }

  lemma OwnedOnce(s: Space)
    requires Inv(s)
    ensures Distinct(s.owned)
  {
    assert forall i | 0 <= i < |s.owned| :: (s.owned + s.pool)[i] == s.owned[i];
  }

  /** Bits of an address above the 48 that the tables decode are not looked at: a kernel pointer translates as its low part does. */
  lemma HighBitsIgnored(s: Space, va: nat, k: nat)
    ensures Translate(s, va + ADDRESSES * k) == Translate(s, va)
  {
    hide Translate;
    var far := va + ADDRESSES * k;
    Quotient(far, ADDRESSES, k + va / ADDRESSES, va % ADDRESSES);
    Quotient(far, PAGE_SIZE, va / PAGE_SIZE + PAGES * k, va % PAGE_SIZE);
    TranslateIsLeaf(s, va);
    TranslateIsLeaf(s, far);
  }

  // ---- pages and tables stay apart ----------------------------------------------------------------------

  /** No page is mapped over a table of the space, or over a frame the allocator still has. */
  predicate Secluded(s: Space, flat: map<nat, Mapping>) {
    forall page | page in flat :: Outside(s, flat[page].pa % ADDRESSES)
  }

  predicate Outside(s: Space, pa: nat) { pa !in s.tables && pa !in s.pool }

  /** What a caller of `map` answers for: the pages it names are nobody's tables and not free frames. */
  predicate Named(s: Space, op: Op) {
    op.DoMap? ==> forall i | 0 <= i < op.pages :: Outside(s, (op.pa + i * PAGE_SIZE) % ADDRESSES)
  }

  lemma {:induction false} FlatMapFrom(flat: map<nat, Mapping>, va: nat, put: seq<nat>, perm: Perm, page: nat)
    requires page in FlatMap(flat, va, put, perm)
    ensures || (page in flat && FlatMap(flat, va, put, perm)[page] == flat[page])
            || FlatMap(flat, va, put, perm)[page].pa in put
    decreases |put|
  {
    if put != [] { FlatMapFrom(flat[PageOf(va) := Mapping(put[0], perm)], va + PAGE_SIZE, put[1..], perm, page); }
  }

  lemma {:induction false} FlatUnmapFrom(flat: map<nat, Mapping>, va: nat, pages: nat, page: nat)
    requires page in FlatUnmap(flat, va, pages)
    ensures page in flat && FlatUnmap(flat, va, pages)[page] == flat[page]
    decreases pages
  {
    if pages > 0 { FlatUnmapFrom(flat - {PageOf(va)}, va + PAGE_SIZE, pages - 1, page); }
  }

  lemma StaysOutside(s: Space, t: Space, pa: nat)
    requires Fewer(s, t) && Outside(s, pa)
    ensures Outside(t, pa)
  {
    PoolShrinks(s, t);
  }

  /** Every frame a call puts in place lies outside the tables it leaves. */
  lemma PutOutside(s: Space, flat: map<nat, Mapping>, op: Op, f: nat)
    requires Inv(s) && Holds(s, flat) && Named(s, op) && f in Apply(s, op).put
    ensures Outside(Apply(s, op).space, f % ADDRESSES)
  {
    hide Inv, Holds, MapFrom, MapAnonymous, Fewer, Outside;
    ApplyHolds(s, flat, op);
    match op
    case DoMap(va, pa, pages, perm) =>
      MapFromHolds(s, flat, va, pa, pages, perm);
      var i :| 0 <= i < |Apply(s, op).put| && Apply(s, op).put[i] == f;
      assert Outside(s, (pa + i * PAGE_SIZE) % ADDRESSES);
      StaysOutside(s, Apply(s, op).space, f % ADDRESSES);
    case DoAnonymous(va, pages, perm) =>
      AnonymousIsFresh(s, flat, va, pages, perm);
      PoolFrame(s, f);
      OutsideNow(Apply(s, op).space, f);
    case DoUnmap(va, pages) =>
  }

  lemma PoolFrame(s: Space, f: nat)
    requires Inv(s) && f in s.pool
    ensures f % ADDRESSES == f
  {
    assert f in s.owned + s.pool;
  }

  lemma OutsideNow(s: Space, f: nat)
    requires f !in s.tables && f !in s.pool
    ensures Outside(s, f)
  {
  }

  /** One call by a caller that names only pages of its own maps nothing over a table. */
  lemma StaysSecluded(s: Space, flat: map<nat, Mapping>, op: Op)
    requires Inv(s) && Holds(s, flat) && Secluded(s, flat) && Named(s, op)
    ensures Secluded(Apply(s, op).space, FlatApply(flat, op, Apply(s, op).put))
  {
    hide Inv, Holds, Apply, Fewer, Outside;
    var r := Apply(s, op);
    var after := FlatApply(flat, op, r.put);
    ApplyHolds(s, flat, op);
    forall page | page in after
      ensures Outside(r.space, after[page].pa % ADDRESSES)
    {
      if op.DoUnmap? { FlatUnmapFrom(flat, op.va, op.pages, page); } else { FlatMapFrom(flat, op.va, r.put, op.perm, page); }
      if page in flat && after[page] == flat[page] {
        StaysOutside(s, r.space, flat[page].pa % ADDRESSES);
      } else {
        PutOutside(s, flat, op, after[page].pa);
      }
    }
  }

  /** At each call the caller names only pages of its own. */
  predicate AllNamed(w: World, ops: seq<Op>)
    decreases |ops|
  {
    ops != [] ==>
      && Named(w.space, ops[0])
      && var r := Apply(w.space, ops[0]);
         AllNamed(World(r.space, FlatApply(w.flat, ops[0], r.put)), ops[1..])
  }

  lemma {:induction false} RunSecluded(w: World, ops: seq<Op>)
    requires Inv(w.space) && Holds(w.space, w.flat) && Secluded(w.space, w.flat) && AllNamed(w, ops)
    ensures Secluded(Run(w, ops).space, Run(w, ops).flat)
    decreases |ops|
  {
    hide Inv, Holds, Apply, FlatApply, Secluded, Named;
    if ops != [] {
      ApplyHolds(w.space, w.flat, ops[0]);
      StaysSecluded(w.space, w.flat, ops[0]);
      var r := Apply(w.space, ops[0]);
      RunSecluded(World(r.space, FlatApply(w.flat, ops[0], r.put)), ops[1..]);
    }
  }

  /**
   While callers name only pages of their own, no address a process can use ever reaches a page table of its space, nor a
   frame the allocator still has: in every run from a new space, whatever it translates to lies outside both.
   */
  lemma TablesStayHidden(pool: seq<nat>, ops: seq<Op>, va: nat)
    requires pool != [] && Distinct(pool) && forall f | f in pool :: IsFrame(f)
    requires AllNamed(World(Fresh(pool).value, map[]), ops)
    ensures var s := Run(World(Fresh(pool).value, map[]), ops).space;
      match Translate(s, va)
      case None => true
      case Some(pa) => va % PAGE_SIZE <= pa && pa - va % PAGE_SIZE !in s.tables && pa - va % PAGE_SIZE !in s.pool
  {
    hide Inv, Holds, Run, Translate, AllNamed;
    var w := World(Fresh(pool).value, map[]);
    FreshHolds(pool);
    RunSecluded(w, ops);
    EveryRunIsFlat(w, ops, va);
    var end := Run(w, ops);
    if PageOf(va) in end.flat { assert Outside(end.space, end.flat[PageOf(va)].pa % ADDRESSES); }
  }

  // ---- the source's loops -------------------------------------------------------------------------------

  class AddressSpace {
    var root: nat
    var tables: map<nat, Table>
    var owned: seq<nat>
    var pool: seq<nat>

    function View(): Space reads this { Space(root, tables, owned, pool) }

    method AllocTable() returns (pa: Option<nat>)
      modifies this
      ensures root == old(root)
      ensures old(pool) == [] ==> pa == None && View() == old(View())
      ensures old(pool) != [] ==>
        && pa == Some(old(pool)[0]) && owned == old(owned) && pool == old(pool)[1..]
        && tables == old(tables)[old(pool)[0] := ZeroTable()]
    {
      if pool == [] { return None; }
      pa := Some(pool[0]);
      tables := tables[pool[0] := ZeroTable()];
      pool := pool[1..];
    }

    method StoreWord(table: nat, i: nat, w: nat)
      requires i < ENTRIES
      modifies this`tables
      ensures View() == SetWord(old(View()), table, i, w)
    {
      if table in tables { tables := tables[table := tables[table][i := w]]; }
    }

    method FindEntry(va: nat) returns (table: Option<nat>)
      modifies this
      ensures (View(), table) == EntryFor(old(View()), va, old(root), 0) && root == old(root)
    {
      var at, level := root, 0;
      ghost var was := View();
      while level < 3
        invariant level <= 3 && root == was.root
        invariant EntryFor(View(), va, at, level) == EntryFor(was, va, was.root, 0)
      {
        var i := Index(va, level);
        if !IsValid(Word(View(), at, i)) {
          var next := AllocTable();
          if next == None { return None; }
          owned := owned + [next.value];
          StoreWord(at, i, TableWord(next.value));
          at := AddrOf(TableWord(next.value));
        } else {
          at := AddrOf(Word(View(), at, i));
        }
        level := level + 1;
      }
      return Some(at);
    }

    method MapOne(va: nat, m: Mapping) returns (error: Option<string>)
      modifies this
      ensures View() == MapPage(old(View()), va, m).space && error == MapPage(old(View()), va, m).error
    {
      hide EntryFor, LeafWord, SetWord;
      var table := FindEntry(va);
      if table == None { return Some(NO_TABLES); }
      StoreWord(table.value, Index(va, 3), LeafWord(m));
      return None;
    }

    method MapRange(va: nat, pa: nat, pages: nat, perm: Perm) returns (error: Option<string>)
      modifies this
      ensures View() == Map(old(View()), va, pa, pages, perm).space && error == Map(old(View()), va, pa, pages, perm).error
    {
      hide MapPage;
      if va % PAGE_SIZE != 0 || pa % PAGE_SIZE != 0 { return Some(UNALIGNED); }
      var v: nat, p: nat := va, pa;
      ghost var all := MapFrom(View(), va, pa, pages, perm);
      for i := 0 to pages
        invariant all.space == MapFrom(View(), v, p, pages - i, perm).space
        invariant all.error == MapFrom(View(), v, p, pages - i, perm).error
      {
        error := MapOne(v, Mapping(p, perm));
        if error != None { return; }
        v, p := v + PAGE_SIZE, p + PAGE_SIZE;
      }
      return None;
    }

    method MapFreshPages(va: nat, pages: nat, perm: Perm) returns (error: Option<string>)
      modifies this
      ensures View() == MapAnonymous(old(View()), va, pages, perm).space
      ensures error == MapAnonymous(old(View()), va, pages, perm).error
    {
      hide Map;
      var v: nat := va;
      ghost var all := MapAnonymous(View(), va, pages, perm);
      for i := 0 to pages
        invariant all.space == MapAnonymous(View(), v, pages - i, perm).space
        invariant all.error == MapAnonymous(View(), v, pages - i, perm).error
      {
        if pool == [] { return Some(NO_FRAMES); }
        var frame := pool[0];
        pool := pool[1..];
        owned := owned + [frame];
        error := MapRange(v, frame, 1, perm);
        if error != None { return; }
        v := v + PAGE_SIZE;
      }
      return None;
    }

    /** The table holding the descriptor of `va`, if there is one. */
    method FindTable(va: nat) returns (table: Option<nat>)
      ensures table == Walk(View(), va, root, 0)
    {
      var at := root;
      for level := 0 to 3
        invariant Walk(View(), va, at, level) == Walk(View(), va, root, 0)
      {
        var e := Word(View(), at, Index(va, level));
        if !IsValid(e) { return None; }
        at := AddrOf(e);
      }
      return Some(at);
    }

    method UnmapRange(va: nat, pages: nat)
      modifies this`tables
      ensures View() == Unmap(old(View()), va, pages)
    {
      ghost var was := View();
      for i := 0 to pages
        invariant Unmap(was, va, pages) == Unmap(View(), va + i * PAGE_SIZE, pages - i)
      {
        var table := FindTable(va + i * PAGE_SIZE);
        if table.Some? { StoreWord(table.value, Index(va + i * PAGE_SIZE, 3), 0); }
        assert va + i * PAGE_SIZE + PAGE_SIZE == va + (i + 1) * PAGE_SIZE;
      }
    }

    method TranslateAddress(va: nat) returns (pa: Option<nat>)
      ensures pa == Translate(View(), va)
      ensures forall flat | Holds(View(), flat) :: pa == Lookup(flat, va)
    {
      var table := FindTable(va);
      if table == None {
        pa := None;
      } else {
        var e := Word(View(), table.value, Index(va, 3));
        pa := if IsValid(e) then Some(AddrOf(e) + va % PAGE_SIZE) else None;
      }
      forall flat | Holds(View(), flat) ensures pa == Lookup(flat, va) { TranslateIsLookup(View(), flat, va); }
    }
  }
}
