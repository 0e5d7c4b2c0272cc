/**
 The kernel heap: an address-sorted free list threaded through the free memory itself, first fit, split on allocation and
 merged with its neighbours on release.
 */
module Heap {
  import opened Wrappers

  const BLOCK_SIZE: nat := 16
  const MIN_ALIGN: nat := 8
  const WALK_LIMIT: nat := 1_000_000

  datatype Blk = Blk(addr: nat, size: nat)

  function End(b: Blk): nat { b.addr + b.size }

  predicate Apart(a: Blk, b: Blk) { End(a) <= b.addr || End(b) <= a.addr }

  /** Large enough for its own header, and aligned at both ends. */
  predicate Proper(b: Blk) { BLOCK_SIZE <= b.size && b.addr % MIN_ALIGN == 0 && b.size % MIN_ALIGN == 0 }

  /** Sorted, and no two blocks overlap or touch. */
  predicate Listed(free: seq<Blk>) {
    && (forall i | 0 <= i < |free| :: Proper(free[i]))
    && (forall i, j | 0 <= i < j < |free| :: End(free[i]) < free[j].addr)
  }

  predicate ApartFrom(b: Blk, bs: seq<Blk>) { forall i | 0 <= i < |bs| :: Apart(b, bs[i]) }

  function Bytes(bs: seq<Blk>): nat { if bs == [] then 0 else Bytes(bs[..|bs| - 1]) + bs[|bs| - 1].size }

  lemma {:induction false} BytesConcat(a: seq<Blk>, b: seq<Blk>)
    ensures Bytes(a + b) == Bytes(a) + Bytes(b)
  {
    if b == [] {
      assert a + b == a;
    } else {
      assert (a + b)[..|a + b| - 1] == a + b[..|b| - 1];
      BytesConcat(a, b[..|b| - 1]);
    }
  }

  lemma BytesOne(b: Blk)
    ensures Bytes([b]) == b.size
  {
    assert [b][..0] == [];
  }

  // ---- insertion ------------------------------------------------------------------------------------

  /** How many blocks lie before `addr`. */
  function Position(free: seq<Blk>, addr: nat): (k: nat)
    ensures k <= |free| && (forall i | 0 <= i < k :: free[i].addr < addr) && (k < |free| ==> addr <= free[k].addr)
  {
    if free == [] || addr <= free[0].addr then 0 else 1 + Position(free[1..], addr)
  }

  /** Put `b` before `rest`, as one block with its successor if they touch. */
  function Ahead(b: Blk, rest: seq<Blk>): (r: seq<Blk>)
    ensures r != []
  {
    if rest != [] && End(b) == rest[0].addr then [Blk(b.addr, b.size + rest[0].size)] + rest[1..] else [b] + rest
  }

  /** Put `r` after `front`, with the blocks either side of the seam as one if they touch. */
  function Behind(front: seq<Blk>, r: seq<Blk>): seq<Blk>
    requires r != []
  {
    var k := |front|;
    if k > 0 && End(front[k - 1]) == r[0].addr
    then front[..k - 1] + [Blk(front[k - 1].addr, front[k - 1].size + r[0].size)] + r[1..]
    else front + r
  }

  function Insert(free: seq<Blk>, b: Blk): seq<Blk> {
    var k := Position(free, b.addr);
    Behind(free[..k], Ahead(b, free[k..]))
  }

  lemma ApartSplit(x: Blk, a: seq<Blk>, b: seq<Blk>)
    ensures ApartFrom(x, a + b) <==> ApartFrom(x, a) && ApartFrom(x, b)
  {
    if ApartFrom(x, a + b) {
      assert forall i | 0 <= i < |a| :: a[i] == (a + b)[i];
      assert forall i | 0 <= i < |b| :: b[i] == (a + b)[|a| + i];
    }
  }

  lemma ApartOne(x: Blk, b: Blk)
    ensures ApartFrom(x, [b]) <==> Apart(x, b)
  {
    assert [b][0] == b;
  }

  /** Being apart from two touching blocks is being apart from their union, for anything that is not empty. */
  lemma MergedApart(x: Blk, a: Blk, b: Blk)
    requires End(a) == b.addr && 0 < x.size && 0 < a.size && 0 < b.size
    ensures Apart(x, Blk(a.addr, a.size + b.size)) <==> Apart(x, a) && Apart(x, b)
  {
  }

  lemma AheadListed(b: Blk, rest: seq<Blk>)
    requires Proper(b) && Listed(rest) && forall i | 0 <= i < |rest| :: End(b) <= rest[i].addr
    ensures Listed(Ahead(b, rest)) && Ahead(b, rest)[0].addr == b.addr
  {
    var r := Ahead(b, rest);
    var merged := rest != [] && End(b) == rest[0].addr;
    assert Proper(r[0]);
    forall i, j | 0 <= i < j < |r| ensures End(r[i]) < r[j].addr {
      assert r[j] == rest[if merged then j else j - 1];
      if i > 0 { assert r[i] == rest[if merged then i else i - 1]; }
    }
    forall i | 0 <= i < |r| ensures Proper(r[i]) {
      if i > 0 { assert r[i] == rest[if merged then i else i - 1]; }
    }
  }

  lemma AheadBytes(b: Blk, rest: seq<Blk>)
    ensures Bytes(Ahead(b, rest)) == b.size + Bytes(rest)
  {
    BytesOne(b);
    BytesConcat([b], rest);
    if rest != [] && End(b) == rest[0].addr {
      var m := Blk(b.addr, b.size + rest[0].size);
      BytesOne(m);
      BytesOne(rest[0]);
      BytesConcat([m], rest[1..]);
      BytesConcat([rest[0]], rest[1..]);
      assert rest == [rest[0]] + rest[1..];
    }
  }

  lemma AheadApart(b: Blk, rest: seq<Blk>, x: Blk)
    requires 0 < x.size && 0 < b.size && (rest != [] ==> 0 < rest[0].size)
    ensures ApartFrom(x, Ahead(b, rest)) <==> Apart(x, b) && ApartFrom(x, rest)
  {
    hide ApartFrom, Apart;
    if rest != [] && End(b) == rest[0].addr {
      var m := Blk(b.addr, b.size + rest[0].size);
      MergedApart(x, b, rest[0]);
      ApartOne(x, m);
      ApartSplit(x, [m], rest[1..]);
      ApartOne(x, rest[0]);
      ApartSplit(x, [rest[0]], rest[1..]);
      assert rest == [rest[0]] + rest[1..];
    } else {
      ApartOne(x, b);
      ApartSplit(x, [b], rest);
    }
  }

  lemma BehindListed(front: seq<Blk>, r: seq<Blk>)
    requires Listed(front) && Listed(r) && r != [] && forall i | 0 <= i < |front| :: End(front[i]) <= r[0].addr
    ensures Listed(Behind(front, r))
  {
    var s, k := Behind(front, r), |front|;
    if k > 0 && End(front[k - 1]) == r[0].addr {
      assert forall i | 0 <= i < |s| :: s[i] == if i < k - 1 then front[i]
             else if i == k - 1 then Blk(front[k - 1].addr, front[k - 1].size + r[0].size) else r[i - k + 1];
    } else {
      forall i, j | 0 <= i < j < |s| ensures End(s[i]) < s[j].addr {
        if i < k <= j { SeamApart(front, r, i, j - k); }
      }
    }
  }

  lemma SeamApart(front: seq<Blk>, r: seq<Blk>, i: nat, j: nat)
    requires Listed(front) && Listed(r) && i < |front| && j < |r|
    requires End(front[|front| - 1]) <= r[0].addr && End(front[|front| - 1]) != r[0].addr
    ensures End(front[i]) < r[j].addr
  {
    var last := |front| - 1;
    assert i < last ==> End(front[i]) < front[last].addr;
    assert j > 0 ==> End(r[0]) < r[j].addr;
  }

  lemma MergeBytes(init: seq<Blk>, last: Blk, head: Blk, m: Blk, tail: seq<Blk>)
    requires m.size == last.size + head.size
    ensures Bytes(init + [m] + tail) == Bytes(init + [last]) + Bytes([head] + tail)
  {
    hide Bytes;
    BytesOne(m);
    BytesOne(head);
    BytesOne(last);
    BytesConcat(init, [m]);
    BytesConcat(init + [m], tail);
    BytesConcat([head], tail);
    BytesConcat(init, [last]);
  }

  lemma BehindBytes(front: seq<Blk>, r: seq<Blk>)
    requires r != []
    ensures Bytes(Behind(front, r)) == Bytes(front) + Bytes(r)
  {
    hide Bytes;
    var k := |front|;
    if k > 0 && End(front[k - 1]) == r[0].addr {
      assert r == [r[0]] + r[1..] && front == front[..k - 1] + [front[k - 1]];
      MergeBytes(front[..k - 1], front[k - 1], r[0], Blk(front[k - 1].addr, front[k - 1].size + r[0].size), r[1..]);
    } else {
      BytesConcat(front, r);
    }
  }

  lemma BehindApart(front: seq<Blk>, r: seq<Blk>, x: Blk)
    requires r != [] && 0 < x.size && 0 < r[0].size && forall i | 0 <= i < |front| :: 0 < front[i].size
    ensures ApartFrom(x, Behind(front, r)) <==> ApartFrom(x, front) && ApartFrom(x, r)
  {
    hide ApartFrom, Apart;
    var k := |front|;
    if k > 0 && End(front[k - 1]) == r[0].addr {
      var last := front[k - 1];
      var m, init, tail := Blk(last.addr, last.size + r[0].size), front[..k - 1], r[1..];
      MergedApart(x, last, r[0]);
      ApartSplit(x, init + [m], tail);
      ApartSplit(x, init, [m]);
      ApartOne(x, m);
      ApartSplit(x, init, [last]);
      ApartOne(x, last);
      ApartSplit(x, [r[0]], tail);
      ApartOne(x, r[0]);
      assert r == [r[0]] + tail && front == init + [last];
    } else {
      ApartSplit(x, front, r);
    }
  }

  /** Inserting a block keeps the list in order and adds its bytes. */
  lemma InsertListed(free: seq<Blk>, b: Blk)
    requires Listed(free) && Proper(b) && ApartFrom(b, free)
    ensures Listed(Insert(free, b)) && Bytes(Insert(free, b)) == Bytes(free) + b.size
  {
    hide Ahead, Behind, Bytes;
    var k := Position(free, b.addr);
    var front, rest := free[..k], free[k..];
    assert free == front + rest;
    BytesConcat(front, rest);
    AllAbove(free, b, k);
    AheadListed(b, rest);
    AheadBytes(b, rest);
    BehindListed(front, Ahead(b, rest));
    BehindBytes(front, Ahead(b, rest));
  }

  lemma AllAbove(free: seq<Blk>, b: Blk, k: nat)
    requires Listed(free) && Proper(b) && ApartFrom(b, free) && k == Position(free, b.addr)
    ensures forall i | 0 <= i < k :: End(free[i]) <= b.addr
    ensures forall i | k <= i < |free| :: End(b) <= free[i].addr
  {
    forall i | k <= i < |free| ensures End(b) <= free[i].addr {
      assert i > k ==> End(free[k]) < free[i].addr;
      assert Apart(b, free[i]);
    }
    forall i | 0 <= i < k ensures End(free[i]) <= b.addr { assert Apart(b, free[i]); }
  }

  /** And makes free exactly what was free and the block. */
  lemma InsertApart(free: seq<Blk>, b: Blk, x: Blk)
    requires Listed(free) && Proper(b) && 0 < x.size
    ensures ApartFrom(x, Insert(free, b)) <==> ApartFrom(x, free) && Apart(x, b)
  {
    hide Behind, ApartFrom, Apart;
    var k := Position(free, b.addr);
    var front, rest := free[..k], free[k..];
    assert free == front + rest;
    AheadApart(b, rest, x);
    assert 0 < Ahead(b, rest)[0].size;
    BehindApart(front, Ahead(b, rest), x);
    ApartSplit(x, front, rest);
  }

  // ---- allocation -----------------------------------------------------------------------------------

  /** What `Layout` guarantees of an alignment. */
  predicate PowerOfTwo(n: nat) { n == 1 || (n > 1 && n % 2 == 0 && PowerOfTwo(n / 2)) }

  function AlignUp(v: nat, align: nat): (r: nat)
    requires align > 0
    ensures v <= r < v + align && r % align == 0
  {
    var q := (v + align - 1) / align;
    Multiple(q, align);
    q * align
  }

  lemma Multiple(q: nat, n: nat)
    requires n > 0
    ensures q * n % n == 0
  {
    var d, r := q * n / n, q * n % n;
    assert q * n == d * n + r;
    var e := q - d;
    assert e * n == q * n - d * n;
    if e >= 1 { AtLeastOnce(e, n); }
    if e <= -1 { AtLeastOnce(-e, n); }
  }

  lemma AtLeastOnce(e: nat, n: nat)
    requires e >= 1
    ensures e * n >= n
  {
  }

  function Max(a: nat, b: nat): nat { if a > b then a else b }

  /** The size a request is rounded to. */
  function SizeFor(size: nat): (s: nat)
    ensures size <= s && BLOCK_SIZE <= s && s % MIN_ALIGN == 0
  {
    AlignUp(Max(size, BLOCK_SIZE), MIN_ALIGN)
  }

  function AlignFor(align: nat): nat { Max(align, MIN_ALIGN) }

  lemma {:induction false} AlignIsMultiple(align: nat)
    requires PowerOfTwo(align)
    ensures AlignFor(align) > 0 && AlignFor(align) % MIN_ALIGN == 0 && (align <= AlignFor(align)) && AlignFor(align) % align == 0
  {
    if align > MIN_ALIGN {
      AlignIsMultiple(align / 2);
      if align / 2 < MIN_ALIGN { assert align / 2 >= 4; SmallPowers(align / 2); }
    } else {
      SmallPowers(align);
    }
  }

  lemma SmallPowers(n: nat)
    requires PowerOfTwo(n) && n <= MIN_ALIGN
    ensures n == 1 || n == 2 || n == 4 || n == 8
  {
    assert !PowerOfTwo(3) && !PowerOfTwo(6);
  }

  function Start(b: Blk, align: nat): nat
    requires align > 0
  {
    AlignUp(b.addr, align)
  }

  /** The block fits the request at its first aligned address, and the gap in front is none or a block of its own. */
  predicate Fits(b: Blk, size: nat, align: nat)
    requires align > 0
  {
    var pad := Start(b, align) - b.addr;
    (pad == 0 || pad >= BLOCK_SIZE) && pad + size <= b.size
  }

  function FirstFit(free: seq<Blk>, size: nat, align: nat, i: nat): (k: nat)
    requires align > 0 && i <= |free|
    ensures i <= k <= |free| && (k < |free| ==> Fits(free[k], size, align)) && forall j | i <= j < k :: !Fits(free[j], size, align)
    decreases |free| - i
  {
    if i == |free| || Fits(free[i], size, align) then i else FirstFit(free, size, align, i + 1)
  }

  function Without(free: seq<Blk>, k: nat): seq<Blk>
    requires k < |free|
  {
    free[..k] + free[k + 1..]
  }

  /** The free list once block `k` has been unlinked and what is left on either side put back. */
  function Carve(free: seq<Blk>, k: nat, size: nat, align: nat): seq<Blk>
    requires align > 0 && k < |free| && Fits(free[k], size, align)
  {
    var b := free[k];
    var start := Start(b, align);
    var pad, tail := start - b.addr, End(b) - (start + size);
    var f := Without(free, k);
    var f1 := if pad >= BLOCK_SIZE then Insert(f, Blk(b.addr, pad)) else f;
    if tail >= BLOCK_SIZE then Insert(f1, Blk(start + size, tail)) else f1
  }

  /** A tail too short to be a block is not put back. */
  function Lost(b: Blk, size: nat, align: nat): nat
    requires align > 0 && Fits(b, size, align)
  {
    var tail := End(b) - (Start(b, align) + size);
    if tail >= BLOCK_SIZE then 0 else tail
  }

  lemma WithoutListed(free: seq<Blk>, k: nat)
    requires Listed(free) && k < |free|
    ensures Listed(Without(free, k)) && ApartFrom(free[k], Without(free, k))
  {
    var w := Without(free, k);
    forall i: nat | i < |w| ensures w[i] == free[if i < k then i else i + 1] {}
    forall i | 0 <= i < |w| ensures Apart(free[k], w[i]) { assert w[i] == free[if i < k then i else i + 1]; }
    forall i, j | 0 <= i < j < |w| ensures End(w[i]) < w[j].addr {
      assert w[i] == free[if i < k then i else i + 1] && w[j] == free[if j < k then j else j + 1];
    }
  }

  lemma WithoutBytes(free: seq<Blk>, k: nat)
    requires k < |free|
    ensures Bytes(free) == Bytes(Without(free, k)) + free[k].size
  {
    hide Bytes;
    var a, b := free[..k], free[k + 1..];
    assert free == a + [free[k]] + b;
    BytesConcat(a + [free[k]], b);
    BytesConcat(a, [free[k]]);
    BytesConcat(a, b);
    BytesOne(free[k]);
  }

  lemma WithoutApart(free: seq<Blk>, k: nat, x: Blk)
    requires k < |free|
    ensures ApartFrom(x, free) <==> ApartFrom(x, Without(free, k)) && Apart(x, free[k])
  {
    hide ApartFrom, Apart;
    var a, b := free[..k], free[k + 1..];
    assert free == a + [free[k]] + b;
    ApartSplit(x, a + [free[k]], b);
    ApartSplit(x, a, [free[k]]);
    ApartSplit(x, a, b);
    ApartOne(x, free[k]);
  }

  /** A part of a block is apart from whatever the block is apart from. */
  lemma PartApart(b: Blk, p: Blk, bs: seq<Blk>)
    requires ApartFrom(b, bs) && b.addr <= p.addr && End(p) <= End(b)
    ensures ApartFrom(p, bs)
  {
  }

  /** The pieces of a block a request is carved from. */
  function Front(b: Blk, align: nat): Blk
    requires align > 0
  {
    Blk(b.addr, Start(b, align) - b.addr)
  }

  function Got(b: Blk, size: nat, align: nat): Blk
    requires align > 0
  {
    Blk(Start(b, align), size)
  }

  function Tail(b: Blk, size: nat, align: nat): Blk
    requires align > 0 && Fits(b, size, align)
  {
    Blk(Start(b, align) + size, End(b) - (Start(b, align) + size))
  }

  predicate Request(size: nat, align: nat) {
    align > 0 && align % MIN_ALIGN == 0 && BLOCK_SIZE <= size && size % MIN_ALIGN == 0
  }

  lemma Pieces(b: Blk, size: nat, align: nat)
    requires Proper(b) && Request(size, align) && Fits(b, size, align)
    ensures var f, g, t := Front(b, align), Got(b, size, align), Tail(b, size, align);
            && Proper(g) && g.addr % align == 0 && f.size + g.size + t.size == b.size
            && (f.size == 0 || Proper(f)) && (t.size == 0 || t.size == 8 || Proper(t))
            && Apart(f, g) && Apart(g, t) && Apart(f, t)
            && b.addr == f.addr && End(f) == g.addr && End(g) == t.addr && End(t) == End(b)
  {
    hide AlignUp;
    MultipleOf8(Start(b, align), align);
    PiecesAt(b, size, Start(b, align));
  }

  lemma PiecesAt(b: Blk, size: nat, start: nat)
    requires Proper(b) && BLOCK_SIZE <= size && size % MIN_ALIGN == 0 && start % MIN_ALIGN == 0
    requires b.addr <= start && (start == b.addr || start - b.addr >= BLOCK_SIZE) && start - b.addr + size <= b.size
    ensures start == b.addr || Proper(Blk(b.addr, start - b.addr))
    ensures var t := End(b) - (start + size); t == 0 || t == 8 || Proper(Blk(start + size, t))
  {
    var from, at, n, all := b.addr / 8, start / 8, size / 8, b.size / 8;
    assert b.addr == 8 * from && start == 8 * at && size == 8 * n && b.size == 8 * all;
    assert start - b.addr == 8 * (at - from) && End(b) - (start + size) == 8 * (from + all - at - n);
  }

  /** Carving keeps the list in order, and no byte but those handed out and a short tail is gone from it. */
  lemma CarveListed(free: seq<Blk>, k: nat, size: nat, align: nat)
    requires Listed(free) && Request(size, align) && k < |free| && Fits(free[k], size, align)
    ensures Listed(Carve(free, k, size, align))
    ensures Bytes(free) == Bytes(Carve(free, k, size, align)) + size + Lost(free[k], size, align)
    ensures Lost(free[k], size, align) == 0 || Lost(free[k], size, align) == 8
  {
    hide Insert, Bytes, AlignUp, Without, ApartFrom;
    var b := free[k];
    var f, g, t := Front(b, align), Got(b, size, align), Tail(b, size, align);
    Pieces(b, size, align);
    WithoutListed(free, k);
    WithoutBytes(free, k);
    var l := Without(free, k);
    PartApart(b, f, l);
    PartApart(b, t, l);
    var l1 := l;
    if f.size >= BLOCK_SIZE {
      InsertListed(l, f);
      l1 := Insert(l, f);
      if t.size > 0 { InsertApart(l, f, t); }
    }
    if t.size >= BLOCK_SIZE { InsertListed(l1, t); }
  }

  /** What was apart from the list is apart from what stays and from what is handed out; and those two are apart. */
  lemma CarveApart(free: seq<Blk>, k: nat, size: nat, align: nat, x: Blk)
    requires Listed(free) && Request(size, align) && k < |free| && Fits(free[k], size, align) && 0 < x.size
    requires ApartFrom(x, free) || x == Got(free[k], size, align)
    ensures ApartFrom(x, Carve(free, k, size, align)) && (ApartFrom(x, free) ==> Apart(x, Got(free[k], size, align)))
  {
    hide Insert, AlignUp, Without, ApartFrom;
    var b := free[k];
    var f, g, t := Front(b, align), Got(b, size, align), Tail(b, size, align);
    Pieces(b, size, align);
    WithoutListed(free, k);
    WithoutApart(free, k, x);
    var l := Without(free, k);
    PartApart(b, g, l);
    PartApart(b, f, l);
    PartApart(b, t, l);
    var l1 := l;
    if f.size >= BLOCK_SIZE {
      InsertApart(l, f, x);
      InsertListed(l, f);
      l1 := Insert(l, f);
    }
    if t.size >= BLOCK_SIZE { InsertApart(l1, t, x); }
  }

  lemma MultipleOf8(n: nat, align: nat)
    requires align > 0 && align % MIN_ALIGN == 0 && n % align == 0
    ensures n % MIN_ALIGN == 0
  {
    var q, m := n / align, align / MIN_ALIGN;
    assert n == q * align && align == m * MIN_ALIGN;
    assert n == (q * m) * MIN_ALIGN;
    Multiple(q * m, MIN_ALIGN);
  }

  // ---- the heap -------------------------------------------------------------------------------------

  /** The free list and counters, and beside them what is out: the live blocks and how many tails have been lost. */
  datatype State = State(free: seq<Blk>, total: nat, inUse: int, region: Blk, live: seq<Blk>, lost: nat)

  datatype Op = Alloc(size: nat, align: nat) | Free(i: nat)

  /** A heap of one region whose size and start are aligned, as `init` donates it. */
  function Fresh(region: Blk): State { State([region], region.size, 0, region, [], 0) }

  /** The address handed out, if there is one. */
  function Chosen(s: State, op: Op): Option<Blk>
    requires op.Alloc? && op.align > 0
  {
    var size, align := SizeFor(op.size), AlignFor(op.align);
    var k := FirstFit(s.free, size, align, 0);
    if k == |s.free| then None else Some(Blk(Start(s.free[k], align), size))
  }

  predicate Enabled(s: State, op: Op) {
    match op
    case Alloc(_, align) => PowerOfTwo(align)
    case Free(i) => i < |s.live|
  }

  function Next(s: State, op: Op): State
    requires Enabled(s, op)
  {
    match op
    case Alloc(n, a) =>
      AlignIsMultiple(a);
      var size, align := SizeFor(n), AlignFor(a);
      var k := FirstFit(s.free, size, align, 0);
      if k == |s.free| then s
      else s.(free := Carve(s.free, k, size, align), inUse := s.inUse + size,
              live := s.live + [Blk(Start(s.free[k], align), size)], lost := s.lost + Lost(s.free[k], size, align) / 8)
    case Free(i) =>
      s.(free := Insert(s.free, s.live[i]), inUse := s.inUse - s.live[i].size, live := s.live[..i] + s.live[i + 1..])
  }

  predicate Inside(b: Blk, region: Blk) { region.addr <= b.addr && End(b) <= End(region) }

  predicate AllInside(bs: seq<Blk>, region: Blk) { forall i | 0 <= i < |bs| :: Inside(bs[i], region) }

  predicate Inv(s: State) {
    && Listed(s.free) && AllInside(s.free, s.region) && AllInside(s.live, s.region) && s.total == s.region.size
    && (forall i | 0 <= i < |s.live| :: Proper(s.live[i]) && ApartFrom(s.live[i], s.free))
    && (forall i, j | 0 <= i < j < |s.live| :: Apart(s.live[i], s.live[j]))
    && s.inUse == Bytes(s.live) && Bytes(s.free) + s.inUse + 8 * s.lost == s.total
  }

  lemma FreshInv(region: Blk)
    requires Proper(region)
    ensures Inv(Fresh(region))
  {
    BytesOne(region);
  }

  /** What is apart from everything outside the region lies inside it. */
  lemma InsertInside(free: seq<Blk>, b: Blk, region: Blk)
    requires AllInside(free, region) && Inside(b, region)
    ensures AllInside(Insert(free, b), region)
  {
  }

  lemma CarveInside(free: seq<Blk>, k: nat, size: nat, align: nat, region: Blk)
    requires align > 0 && k < |free| && Fits(free[k], size, align) && AllInside(free, region)
    ensures AllInside(Carve(free, k, size, align), region) && Inside(Blk(Start(free[k], align), size), region)
  {
    hide Insert, AlignUp;
    var b := free[k];
    var start := Start(b, align);
    var f := Without(free, k);
    assert AllInside(f, region);
    var f1 := f;
    if start - b.addr >= BLOCK_SIZE {
      f1 := Insert(f, Blk(b.addr, start - b.addr));
      InsertInside(f, Blk(b.addr, start - b.addr), region);
    }
    var tail := End(b) - (start + size);
    if tail >= BLOCK_SIZE { InsertInside(f1, Blk(start + size, tail), region); }
  }

  lemma AllocInv(s: State, op: Op)
    requires Inv(s) && Enabled(s, op) && op.Alloc?
    ensures Inv(Next(s, op))
  {
    hide Carve, Bytes, AlignUp, SizeFor, Fits, Start, Lost, ApartFrom, Apart;
    AlignIsMultiple(op.align);
    var size, align := SizeFor(op.size), AlignFor(op.align);
    var k := FirstFit(s.free, size, align, 0);
    if k < |s.free| {
      CarveListed(s.free, k, size, align);
      CarveInside(s.free, k, size, align, s.region);
      Pieces(s.free[k], size, align);
      var got, s' := Got(s.free[k], size, align), Next(s, op);
      BytesConcat(s.live, [got]);
      BytesOne(got);
      forall i | 0 <= i < |s'.live| ensures Proper(s'.live[i]) && ApartFrom(s'.live[i], s'.free) {
        CarveApart(s.free, k, size, align, s'.live[i]);
      }
      forall i, j | 0 <= i < j < |s'.live| ensures Apart(s'.live[i], s'.live[j]) {
        if j == |s.live| { CarveApart(s.free, k, size, align, s.live[i]); }
      }
    }
  }

  lemma ApartBothWays(a: Blk, b: Blk)
    ensures Apart(a, b) <==> Apart(b, a)
  {
  }

  lemma FreeInv(s: State, op: Op)
    requires Inv(s) && Enabled(s, op) && op.Free?
    ensures Inv(Next(s, op))
  {
    hide Insert, Bytes, ApartFrom, Apart;
    var i, s' := op.i, Next(s, op);
    var b, front, rest := s.live[i], s.live[..i], s.live[i + 1..];
    assert s.live == front + [b] + rest;
    BytesConcat(front + [b], rest);
    BytesConcat(front, [b]);
    BytesConcat(front, rest);
    BytesOne(b);
    InsertListed(s.free, b);
    InsertInside(s.free, b, s.region);
    assert forall j | 0 <= j < |s'.live| :: s'.live[j] == if j < i then s.live[j] else s.live[j + 1];
    forall j | 0 <= j < |s'.live| ensures Proper(s'.live[j]) && ApartFrom(s'.live[j], s'.free) {
      var was := if j < i then j else j + 1;
      assert s'.live[j] == s.live[was];
      ApartBothWays(s.live[was], b);
      InsertApart(s.free, b, s.live[was]);
    }
  }

  lemma StepInv(s: State, op: Op)
    requires Inv(s) && Enabled(s, op)
    ensures Inv(Next(s, op))
  {
    if op.Alloc? { AllocInv(s, op); } else { FreeInv(s, op); }
  }

  predicate Run(ss: seq<State>, ops: seq<Op>) {
    && |ss| == |ops| + 1
    && forall i | 0 <= i < |ops| :: Enabled(ss[i], ops[i]) && ss[i + 1] == Next(ss[i], ops[i])
  }

  lemma {:induction false} RunInv(ss: seq<State>, ops: seq<Op>, i: nat)
    requires Run(ss, ops) && Inv(ss[0]) && i <= |ops|
    ensures Inv(ss[i])
  {
    hide Inv, Next, Enabled;
    if i > 0 {
      RunInv(ss, ops, i - 1);
      StepInv(ss[i - 1], ops[i - 1]);
    }
  }

  /**
   The heap is sound. After any sequence of allocations and releases of live blocks: the free list is sorted and aligned,
   no two of its blocks overlap or touch; live blocks overlap neither each other nor free memory; and every byte is free,
   handed out or in one of the 8-byte tails that were too short to keep.
   */
  lemma EveryRunIsSound(region: Blk, ss: seq<State>, ops: seq<Op>, i: nat)
    requires Proper(region) && Run(ss, ops) && ss[0] == Fresh(region) && i <= |ops|
    ensures var s := ss[i];
            && Listed(s.free) && AllInside(s.free, region) && AllInside(s.live, region)
            && (forall j | 0 <= j < |s.live| :: ApartFrom(s.live[j], s.free))
            && (forall j, k | 0 <= j < k < |s.live| :: Apart(s.live[j], s.live[k]))
            && s.inUse == Bytes(s.live) && Bytes(s.free) + s.inUse + 8 * s.lost == region.size
  {
    FreshInv(region);
    RunInv(ss, ops, i);
    RegionStays(ss, ops, i);
  }

  lemma {:induction false} RegionStays(ss: seq<State>, ops: seq<Op>, i: nat)
    requires Run(ss, ops) && i <= |ops|
    ensures ss[i].region == ss[0].region
  {
    if i > 0 { RegionStays(ss, ops, i - 1); }
  }

  /**
   What an allocation hands out: aligned as asked, at least as large, and disjoint from everything live and from what stays
   free. It fails exactly when no block fits at its first aligned address.
   */
  lemma AllocGives(s: State, op: Op)
    requires Inv(s) && Enabled(s, op) && op.Alloc?
    ensures op.align > 0 && AlignFor(op.align) > 0
    ensures Chosen(s, op) == None <==> forall j | 0 <= j < |s.free| :: !Fits(s.free[j], SizeFor(op.size), AlignFor(op.align))
    ensures Chosen(s, op).Some? ==>
              var b, s' := Chosen(s, op).value, Next(s, op);
              && b.addr % op.align == 0 && op.size <= b.size && s'.live == s.live + [b]
              && ApartFrom(b, s.live) && ApartFrom(b, s'.free) && Inside(b, s.region)
  {
    hide Carve, Bytes, Fits, Lost, AlignUp, SizeFor, Apart;
    AlignIsMultiple(op.align);
    var size, align := SizeFor(op.size), AlignFor(op.align);
    var k := FirstFit(s.free, size, align, 0);
    if k < |s.free| {
      CarveListed(s.free, k, size, align);
      CarveInside(s.free, k, size, align, s.region);
      var b := Got(s.free[k], size, align);
      Pieces(s.free[k], size, align);
      CarveApart(s.free, k, size, align, b);
      DividesThrough(b.addr, align, op.align);
      forall j | 0 <= j < |s.live| ensures Apart(b, s.live[j]) {
        CarveApart(s.free, k, size, align, s.live[j]);
        ApartBothWays(s.live[j], b);
      }
      SizeEnough(op.size);
    }
  }

  lemma SizeEnough(n: nat)
    ensures n <= SizeFor(n)
  {
  }

  lemma DividesThrough(n: nat, a: nat, b: nat)
    requires a > 0 && b > 0 && n % a == 0 && a % b == 0
    ensures n % b == 0
  {
    var q, m := n / a, a / b;
    assert n == q * a && a == m * b;
    assert n == (q * m) * b;
    Multiple(q * m, b);
  }

  // ---- when an allocation succeeds ------------------------------------------------------------------

  /** `a` is the first multiple of `align` from `from` on. */
  ghost predicate FirstMultiple(a: nat, align: nat, from: nat)
    requires align > 0
  {
    a % align == 0 && from <= a && forall m | from <= m < a :: m % align != 0
  }

  /** `size` is what a request for `n` bytes is rounded to: the least multiple of 8 that is at least `n` and 16. */
  ghost predicate RoundedFrom(size: nat, n: nat) {
    FirstMultiple(size, 8, if n >= 16 then n else 16)
  }

  lemma NoneBetween(v: nat, r: nat, align: nat, m: nat)
    requires align > 0 && r % align == 0 && v <= m < r < v + align
    ensures m % align != 0
  {
    if m % align == 0 {
      var p, q := m / align, r / align;
      assert m == p * align && r == q * align;
      assert (q - p) * align == r - m;
      Sign(q - p, align);
    }
  }

  lemma Sign(e: int, n: nat)
    ensures e >= 1 ==> e * n >= n
    ensures e <= 0 ==> e * n <= 0
  {
  }

  lemma AlignUpIs(v: nat, align: nat, a: nat)
    requires align > 0
    ensures FirstMultiple(a, align, v) <==> a == AlignUp(v, align)
  {
    hide AlignUp;
    var r := AlignUp(v, align);
    forall m | v <= m < r ensures m % align != 0 { NoneBetween(v, r, align, m); }
    assert FirstMultiple(r, align, v);
  }

  lemma SizeForIs(n: nat, size: nat)
    ensures RoundedFrom(size, n) <==> size == SizeFor(n)
  {
    hide AlignUp;
    AlignUpIs(Max(n, BLOCK_SIZE), MIN_ALIGN, size);
  }

  /** At `a`, its first aligned address, block `b` can give `size` bytes: what is left in front is nothing or a block. */
  ghost predicate Serves(b: Blk, size: nat, align: nat, a: nat)
    requires align > 0
  {
    FirstMultiple(a, align, b.addr) && (a == b.addr || b.addr + 16 <= a) && a + size <= b.addr + b.size
  }

  lemma FitsIsServes(b: Blk, size: nat, align: nat, a: nat)
    requires align > 0
    ensures Fits(b, size, align) && a == Start(b, align) <==> Serves(b, size, align, a)
  {
    hide AlignUp;
    AlignUpIs(b.addr, align, a);
  }

  /**
   When an allocation succeeds, in full: exactly when some free block serves it at its first aligned address; and then it
   gives that address in the first such block, and the rounded size.
   */
  lemma AllocSucceeds(s: State, op: Op, size: nat)
    requires Inv(s) && Enabled(s, op) && op.Alloc? && RoundedFrom(size, op.size)
    ensures op.align > 0
    ensures var align := if op.align >= 8 then op.align else 8;
            && (Chosen(s, op) == None <==> forall j, a: nat | 0 <= j < |s.free| :: !Serves(s.free[j], size, align, a))
            && (Chosen(s, op).Some? ==>
                  exists j | 0 <= j < |s.free| ::
                    && Chosen(s, op).value.size == size && Serves(s.free[j], size, align, Chosen(s, op).value.addr)
                    && forall i, a: nat | 0 <= i < j :: !Serves(s.free[i], size, align, a))
  {
    hide AlignUp, SizeFor, Fits, Start, Serves, Inv;
    AlignIsMultiple(op.align);
    SizeForIs(op.size, size);
    var align := if op.align >= 8 then op.align else 8;
    forall j, a: nat | 0 <= j < |s.free|
      ensures Serves(s.free[j], size, align, a) <==> Fits(s.free[j], size, align) && a == Start(s.free[j], align)
    {
      FitsIsServes(s.free[j], size, align, a);
    }
    var k := FirstFit(s.free, size, align, 0);
    if k < |s.free| {
      assert Serves(s.free[k], size, align, Start(s.free[k], align));
    } else {
      assert forall j | 0 <= j < |s.free| :: !Fits(s.free[j], size, align);
    }
  }

  /** A free block of exactly the rounded size, at an aligned address, is enough. */
  lemma ExactFitSucceeds(s: State, op: Op, j: nat)
    requires Inv(s) && Enabled(s, op) && op.Alloc? && j < |s.free|
    requires RoundedFrom(s.free[j].size, op.size) && op.align > 0 && s.free[j].addr % (if op.align >= 8 then op.align else 8) == 0
    ensures Chosen(s, op).Some?
  {
    hide Inv, Chosen;
    AllocSucceeds(s, op, s.free[j].size);
    assert Serves(s.free[j], s.free[j].size, if op.align >= 8 then op.align else 8, s.free[j].addr);
  }

  /** An inserted block lies whole in one block of the list, grown or not. */
  lemma InsertEncloses(free: seq<Blk>, b: Blk) returns (k: nat)
    requires Listed(free) && Proper(b) && ApartFrom(b, free)
    ensures k < |Insert(free, b)| && Inside(b, Insert(free, b)[k])
  {
    var at := Position(free, b.addr);
    var front, ahead := free[..at], Ahead(b, free[at..]);
    assert Inside(b, ahead[0]);
    k := if at > 0 && End(front[at - 1]) == ahead[0].addr then at - 1 else at;
    assert Insert(free, b) == Behind(front, ahead);
  }

  /** With ordinary alignment, memory just released can always be had again. */
  lemma MadeAgain(s: State, i: nat, n: nat, align: nat)
    requires Inv(s) && i < |s.live| && align in {1, 2, 4, 8} && SizeFor(n) <= s.live[i].size
    ensures Chosen(Next(s, Free(i)), Alloc(n, align)).Some?
  {
    hide Insert, SizeFor, AlignUp, Chosen, Bytes;
    var op, s' := Alloc(n, align), Next(s, Free(i));
    StepInv(s, Free(i));
    assert PowerOfTwo(1) && PowerOfTwo(2) && PowerOfTwo(4) && PowerOfTwo(8);
    var k := InsertEncloses(s.free, s.live[i]);
    SizeForIs(n, SizeFor(n));
    AllocSucceeds(s', op, SizeFor(n));
    assert Proper(s'.free[k]);
    assert Serves(s'.free[k], SizeFor(n), 8, s'.free[k].addr);
  }

  /**
   With a larger one it may not: released, a block can grow into the free block in front of it, whose first aligned address
   leaves a gap too small to keep. Here 16 bytes aligned to 16 are released and cannot be had again.
   */
  lemma ReleasedIsNotEnough(s: State)
    requires s == State([Blk(0xFF8, 24)], 40, 16, Blk(0xFF8, 40), [Blk(0x1010, 16)], 0)
    ensures Inv(s) && Next(s, Free(0)).free == [Blk(0xFF8, 40)] && PowerOfTwo(16) && AlignFor(16) == 16
    ensures Chosen(Next(s, Free(0)), Alloc(16, 16)) == None
  {
    hide AlignUp, SizeFor, FirstFit;
    BytesOne(s.free[0]);
    BytesOne(s.live[0]);
    Merges();
    assert PowerOfTwo(4) && PowerOfTwo(8);
    var t := Next(s, Free(0));
    NeverServes(16, SizeFor(16));
    FirstFitNone(t.free, SizeFor(16), 16);
  }

  lemma Merges()
    ensures Insert([Blk(0xFF8, 24)], Blk(0x1010, 16)) == [Blk(0xFF8, 40)]
  {
    var free := [Blk(0xFF8, 24)];
    assert free[1..] == [] && Position(free[1..], 0x1010) == 0;
    assert Position(free, 0x1010) == 1;
    assert free[..1] == free && free[..0] == [];
  }

  lemma NeverServes(align: nat, size: nat)
    requires align == 16
    ensures !Fits(Blk(0xFF8, 40), size, align)
  {
    hide AlignUp;
    AlignUpIs(0xFF8, 16, 0x1000);
    assert FirstMultiple(0x1000, 16, 0xFF8);
  }

  lemma FirstFitNone(free: seq<Blk>, size: nat, align: nat)
    requires align > 0 && forall j | 0 <= j < |free| :: !Fits(free[j], size, align)
    ensures FirstFit(free, size, align, 0) == |free|
  {
    hide Fits;
  }

  /** First fit looks at one address a block: here 48 aligned bytes lie free, and a request for 16 of them is refused. */
  lemma PassesOverRoom(s: State)
    requires s.free == [Blk(0x1008, 56)]
    ensures AlignFor(16) == 16 && Chosen(s, Alloc(16, 16)) == None
    ensures Start(Blk(0x1020, 16), 16) == 0x1020 && Inside(Blk(0x1020, 16), s.free[0])
  {
    assert AlignUp(0x1008, 16) == 0x1010;
    assert !Fits(s.free[0], 16, 16);
    assert SizeFor(16) == 16;
    assert FirstFit(s.free, 16, 16, 1) == 1;
  }

  /** Donating a region: the block that goes on the list lies inside it exactly when its start was aligned already. */
  lemma DonationContained(start: nat, size: nat)
    requires BLOCK_SIZE <= size
    ensures Inside(Blk(AlignUp(start, MIN_ALIGN), size), Blk(start, size)) <==> start % MIN_ALIGN == 0
  {
  }

  // ---- the list in memory -----------------------------------------------------------------------------

  /** A block's header, at the block's own address; `next` is zero at the end of the list. */
  datatype Header = Header(size: nat, next: nat)

  function AddrAt(free: seq<Blk>, i: nat): nat { if i < |free| then free[i].addr else 0 }

  function AddrBefore(free: seq<Blk>, k: nat): nat
    requires k <= |free|
  {
    if k == 0 then 0 else free[k - 1].addr
  }

  /** The header of block `i` is in memory and points at the next. */
  predicate NodeOk(mem: map<nat, Header>, free: seq<Blk>, i: nat)
    requires i < |free|
  {
    free[i].addr > 0 && free[i].addr in mem && mem[free[i].addr] == Header(free[i].size, AddrAt(free, i + 1))
  }

  /** Memory holds the list `free` from `head` on. */
  predicate Threaded(mem: map<nat, Header>, head: nat, free: seq<Blk>) {
    head == AddrAt(free, 0) && forall i: nat | i < |free| :: NodeOk(mem, free, i)
  }

  datatype Walk = Walk(blocks: nat, freeBytes: nat, error: string)

  class FreeList {
    var mem: map<nat, Header>
    var head: nat
    var total: nat
    var inUse: int
    var region: Blk
    /** The list the headers spell. */
    ghost var free: seq<Blk>

    ghost predicate Valid()
      reads this
    {
      Threaded(mem, head, free) && Listed(free)
    }

    /** The loop of `insert`: the last block before `block` and the first one not before it. */
    method Seek(block: nat) returns (prev: nat, cur: nat, ghost k: nat)
      requires Valid()
      ensures k == Position(free, block) && prev == AddrBefore(free, k) && cur == AddrAt(free, k)
    {
      hide Listed;
      prev, cur, k := 0, head, 0;
      while cur != 0 && cur < block
        invariant k <= |free| && cur == AddrAt(free, k) && prev == AddrBefore(free, k)
        invariant forall i | 0 <= i < k :: free[i].addr < block
        decreases |free| - k
      {
        assert NodeOk(mem, free, k);
        prev := cur;
        cur := mem[cur].next;
        k := k + 1;
      }
      assert k < |free| ==> NodeOk(mem, free, k);
      PositionIs(free, block, k);
    }

    /** Walk to the place of `block`, link it in, and merge with its neighbours. */
    method InsertBlock(block: nat, size: nat)
      requires Valid() && block > 0 && Proper(Blk(block, size)) && ApartFrom(Blk(block, size), free)
      modifies this`mem, this`head, this`free
      ensures Valid() && free == Insert(old(free), Blk(block, size))
    {
      hide Listed, Threaded, Ahead, Behind, Position, ApartFrom;
      var prev, cur, k := Seek(block);
      ghost var b := Blk(block, size);
      AllAbove(free, b, k);
      InsertListed(free, b);
      Relinked(mem, head, free, b, k);
      ghost var m := mem;
      var node := Header(size, cur);
      if cur != 0 && block + size == cur { node := Header(size + mem[cur].size, mem[cur].next); }
      mem := mem[block := node];
      if prev == 0 {
        head := block;
      } else if prev + mem[prev].size == block {
        mem := mem[prev := Header(mem[prev].size + node.size, node.next)];
      } else {
        mem := mem[prev := Header(mem[prev].size, block)];
      }
      assert mem == Linked(m, b, prev, cur);
      free := Insert(free, b);
    }

    /** The walk of `check`: the first structural fault it meets, if any. */
    method CheckList() returns (w: Walk)
      requires Valid() && AllInside(free, region) && total == region.size
      ensures w.error == if |free| > WALK_LIMIT then "free list has a cycle" else ""
      ensures w.error == "" ==> w.blocks == |free| && w.freeBytes == Bytes(free)
    {
      hide Listed, AllInside, Bytes;
      var cur, last := head, 0;
      w := Walk(0, 0, "");
      BytesUpTo(free, 0);
      while cur != 0
        invariant w.blocks <= |free| && cur == AddrAt(free, w.blocks) && w.error == "" && w.blocks <= WALK_LIMIT
        invariant w.freeBytes == Bytes(free[..w.blocks])
        invariant last == if w.blocks == 0 then 0 else End(free[w.blocks - 1])
        decreases |free| - w.blocks
      {
        assert NodeOk(mem, free, w.blocks);
        var size := mem[cur].size;
        BlockFacts(free, w.blocks, region);
        if cur % MIN_ALIGN != 0 { return w.(error := "block is misaligned"); }
        if cur < last { return w.(error := "free list is not sorted, or blocks overlap"); }
        if size < BLOCK_SIZE || size > total { return w.(error := "block size is impossible"); }
        if !(cur >= region.addr && cur + size <= region.addr + region.size) {
          return w.(error := "block lies outside every donated region");
        }
        BytesUpTo(free, w.blocks);
        last := cur + size;
        w := Walk(w.blocks + 1, w.freeBytes + size, "");
        if w.blocks > WALK_LIMIT { return w.(error := "free list has a cycle"); }
        cur := mem[cur].next;
      }
      assert w.blocks < |free| ==> NodeOk(mem, free, w.blocks);
      assert free[..|free|] == free;
    }

    /** First fit: unlink a block, put back what is left on either side. Zero stands for no room. */
    method Allocate(n: nat, a: nat) returns (start: nat)
      requires Valid() && PowerOfTwo(a)
      modifies this`mem, this`head, this`free, this`inUse
      ensures Valid() && AlignFor(a) > 0
      ensures var size, align := SizeFor(n), AlignFor(a);
              var k := FirstFit(old(free), size, align, 0);
              if k == |old(free)| then start == 0 && free == old(free) && inUse == old(inUse)
              else start == Start(old(free)[k], align) > 0 && free == Carve(old(free), k, size, align) && inUse == old(inUse) + size
    {
      hide AlignUp, Insert, Listed, Carve, SizeFor;
      AlignIsMultiple(a);
      var align, size := AlignFor(a), SizeFor(n);
      ghost var f, k := free, 0;
      var prev, cur := 0, head;
      while cur != 0
        invariant k <= |f| && cur == AddrAt(f, k) && prev == AddrBefore(f, k)
        invariant forall i | 0 <= i < k :: !Fits(f[i], size, align)
        invariant Valid() && free == f && inUse == old(inUse)
        decreases |f| - k
      {
        assert NodeOk(mem, f, k);
        var block := Blk(cur, mem[cur].size);
        start := AlignUp(cur, align);
        var pad := start - cur;
        if (pad == 0 || pad >= BLOCK_SIZE) && pad + size <= block.size {
          FitIsFirst(f, size, align, k);
          Unlink(prev, cur, k);
          PutBack(block, size, align, f, k);
          inUse := inUse + size;
          return;
        }
        prev := cur;
        cur := mem[cur].next;
        k := k + 1;
      }
      assert k < |f| ==> NodeOk(mem, f, k);
      FitIsFirst(f, size, align, k);
      start := 0;
    }

    method Release(addr: nat, n: nat)
      requires Valid() && addr > 0 && Proper(Blk(addr, SizeFor(n))) && ApartFrom(Blk(addr, SizeFor(n)), free)
      modifies this`mem, this`head, this`free, this`inUse
      ensures Valid() && free == Insert(old(free), Blk(addr, SizeFor(n))) && inUse == old(inUse) - SizeFor(n)
    {
      inUse := inUse - SizeFor(n);
      InsertBlock(addr, SizeFor(n));
    }

    method Unlink(prev: nat, cur: nat, ghost k: nat)
      requires Valid() && k < |free| && cur == free[k].addr && prev == AddrBefore(free, k)
      modifies this`mem, this`head, this`free
      ensures Valid() && free == Without(old(free), k)
    {
      WithoutListed(free, k);
      Unlinked(mem, head, free, k);
      var next := mem[cur].next;
      if prev == 0 { head := next; } else { mem := mem[prev := Header(mem[prev].size, next)]; }
      free := Without(free, k);
    }

    /** Return the parts of `b` on either side of what is handed out. */
    method PutBack(b: Blk, size: nat, align: nat, ghost f: seq<Blk>, ghost k: nat)
      requires Valid() && Listed(f) && Request(size, align) && k < |f| && b == f[k] && b.addr > 0 && Fits(b, size, align)
      requires free == Without(f, k)
      modifies this`mem, this`head, this`free
      ensures Valid() && free == Carve(f, k, size, align)
    {
      hide Fits, Start, Insert, ApartFrom, Without, Listed, Threaded, Proper, Carve, Front, Tail;
      CarveSteps(f, k, size, align);
      var front, tail := Front(b, align), Tail(b, size, align);
      if front.size >= BLOCK_SIZE { InsertBlock(front.addr, front.size); }
      if tail.size >= BLOCK_SIZE { InsertBlock(tail.addr, tail.size); }
    }
  }

  /** Carving is two insertions at most, each of a block apart from what is on the list. */
  lemma CarveSteps(f: seq<Blk>, k: nat, size: nat, align: nat)
    requires Listed(f) && Request(size, align) && k < |f| && Fits(f[k], size, align)
    ensures var front, tail, l := Front(f[k], align), Tail(f[k], size, align), Without(f, k);
            var l1 := if front.size >= BLOCK_SIZE then Insert(l, front) else l;
            && (front.size >= BLOCK_SIZE ==> Proper(front) && ApartFrom(front, l)) && f[k].addr <= front.addr && f[k].addr <= tail.addr
            && (tail.size >= BLOCK_SIZE ==> Proper(tail) && ApartFrom(tail, l1))
            && Carve(f, k, size, align) == if tail.size >= BLOCK_SIZE then Insert(l1, tail) else l1
  {
    hide AlignUp, Insert, ApartFrom, Without, Listed;
    var b := f[k];
    var front, tail, l := Front(b, align), Tail(b, size, align), Without(f, k);
    assert Proper(b) by { ProperAt(f, k); }
    Pieces(b, size, align);
    WithoutListed(f, k);
    PartApart(b, front, l);
    PartApart(b, tail, l);
    if front.size >= BLOCK_SIZE && tail.size > 0 { InsertApart(l, front, tail); }
  }

  lemma ProperAt(f: seq<Blk>, k: nat)
    requires Listed(f) && k < |f|
    ensures Proper(f[k])
  {
  }

  lemma {:induction false} PositionIs(free: seq<Blk>, addr: nat, k: nat)
    requires k <= |free| && (forall i | 0 <= i < k :: free[i].addr < addr) && (k < |free| ==> addr <= free[k].addr)
    ensures Position(free, addr) == k
  {
    if k > 0 { PositionIs(free[1..], addr, k - 1); }
  }

  lemma FitIsFirst(free: seq<Blk>, size: nat, align: nat, k: nat)
    requires align > 0 && k <= |free| && (forall i | 0 <= i < k :: !Fits(free[i], size, align)) && (k < |free| ==> Fits(free[k], size, align))
    ensures FirstFit(free, size, align, 0) == k
  {
    hide Fits;
  }

  /** The header of the new block, merged with its successor if they touch. */
  function NewHeader(m: map<nat, Header>, b: Blk, cur: nat): Header
    requires cur != 0 ==> cur in m
  {
    if cur != 0 && End(b) == cur then Header(b.size + m[cur].size, m[cur].next) else Header(b.size, cur)
  }

  /** What insertion writes: the new header, and the one before it. */
  function Linked(m: map<nat, Header>, b: Blk, prev: nat, cur: nat): map<nat, Header>
    requires (cur != 0 ==> cur in m) && (prev != 0 ==> prev in m)
  {
    var node := NewHeader(m, b, cur);
    var m1 := m[b.addr := node];
    if prev == 0 then m1
    else if prev + m[prev].size == b.addr then m1[prev := Header(m[prev].size + node.size, node.next)]
    else m1[prev := Header(m[prev].size, b.addr)]
  }

  lemma AheadThreaded(m: map<nat, Header>, b: Blk, rest: seq<Blk>)
    requires Threaded(m, AddrAt(rest, 0), rest) && Listed(rest) && b.addr > 0 && forall i | 0 <= i < |rest| :: b.addr < rest[i].addr
    requires AddrAt(rest, 0) != 0 ==> AddrAt(rest, 0) in m
    ensures Threaded(m[b.addr := NewHeader(m, b, AddrAt(rest, 0))], b.addr, Ahead(b, rest))
  {
    hide Listed;
    var r := Ahead(b, rest);
    var merged := rest != [] && End(b) == rest[0].addr;
    assert merged ==> NodeOk(m, rest, 0);
    var m' := m[b.addr := NewHeader(m, b, AddrAt(rest, 0))];
    forall i: nat | i < |r| ensures NodeOk(m', r, i) {
      if i > 0 {
        var j := if merged then i else i - 1;
        assert NodeOk(m, rest, j) && r[i] == rest[j] && AddrAt(r, i + 1) == AddrAt(rest, j + 1);
      }
    }
  }

  lemma Unlinked(m: map<nat, Header>, head: nat, f: seq<Blk>, k: nat)
    requires Threaded(m, head, f) && Listed(f) && k < |f|
    ensures f[k].addr in m && (k > 0 ==> f[k - 1].addr in m && f[k - 1].addr > 0)
    ensures var next := m[f[k].addr].next;
            if k == 0 then Threaded(m, next, Without(f, k))
            else Threaded(m[f[k - 1].addr := Header(m[f[k - 1].addr].size, next)], head, Without(f, k))
  {
    hide Listed;
    assert NodeOk(m, f, k) && (k > 0 ==> NodeOk(m, f, k - 1));
    var next, w := m[f[k].addr].next, Without(f, k);
    var m' := if k == 0 then m else m[f[k - 1].addr := Header(m[f[k - 1].addr].size, next)];
    forall i: nat | i < |w| ensures NodeOk(m', w, i) {
      var j := if i < k then i else i + 1;
      assert NodeOk(m, f, j) && w[i] == f[j] && AddrAt(w, i + 1) == (if i + 1 < k then AddrAt(f, i + 1) else AddrAt(f, i + 2));
      if k > 0 { DistinctAddrs(f, j, k - 1); }
    }
  }

  lemma BlockFacts(free: seq<Blk>, i: nat, region: Blk)
    requires Listed(free) && AllInside(free, region) && i < |free|
    ensures Proper(free[i]) && Inside(free[i], region) && (i > 0 ==> End(free[i - 1]) < free[i].addr)
  {
  }

  lemma BytesUpTo(free: seq<Blk>, i: nat)
    ensures Bytes(free[..0]) == 0
    ensures i < |free| ==> Bytes(free[..i + 1]) == Bytes(free[..i]) + free[i].size
  {
    if i < |free| {
      assert free[..i + 1] == free[..i] + [free[i]];
      BytesConcat(free[..i], [free[i]]);
      BytesOne(free[i]);
    }
  }

  /** What the blocks of a joined list are, and what follows each. */
  lemma BehindAt(front: seq<Blk>, r: seq<Blk>, i: nat)
    requires r != [] && front != [] && i < |Behind(front, r)|
    ensures var n, s := |front| - 1, Behind(front, r);
            var merged := End(front[n]) == r[0].addr;
            if i < n then s[i] == front[i] && AddrAt(s, i + 1) == front[i + 1].addr
            else if i == n then s[i] == (if merged then Blk(front[n].addr, front[n].size + r[0].size) else front[n])
                                && AddrAt(s, i + 1) == (if merged then AddrAt(r, 1) else r[0].addr)
            else var j := if merged then i - n else i - n - 1;
                 j < |r| && s[i] == r[j] && AddrAt(s, i + 1) == AddrAt(r, j + 1)
  {
  }

  /** Two threaded lists become one when the last header of the first points at the second. */
  lemma BehindThreaded(m: map<nat, Header>, front: seq<Blk>, r: seq<Blk>)
    requires r != [] && r[0].addr in m && Threaded(m, r[0].addr, r) && Listed(front) && front != []
    requires forall i | 0 <= i < |front| :: front[i].addr > 0 && front[i].addr in m && m[front[i].addr].size == front[i].size
    requires forall i | 0 <= i < |front| - 1 :: LeadsTo(m, front, i)
    requires forall j | 0 <= j < |r| :: front[|front| - 1].addr < r[j].addr
    ensures var last := front[|front| - 1];
            var node := if End(last) == r[0].addr then Header(last.size + r[0].size, m[r[0].addr].next) else Header(last.size, r[0].addr);
            Threaded(m[last.addr := node], front[0].addr, Behind(front, r))
  {
    hide Behind, Listed;
    var n := |front| - 1;
    var last := front[n];
    var node := if End(last) == r[0].addr then Header(last.size + r[0].size, m[r[0].addr].next) else Header(last.size, r[0].addr);
    var s, m' := Behind(front, r), m[last.addr := node];
    BehindStart(front, r);
    assert NodeOk(m, r, 0);
    forall i: nat | i < |s| ensures NodeOk(m', s, i) {
      BehindAt(front, r, i);
      if i < n {
        assert LeadsTo(m, front, i);
        DistinctAddrs(front, i, n);
      } else if i > n {
        assert NodeOk(m, r, if End(last) == r[0].addr then i - n else i - n - 1);
      }
    }
  }

  lemma BehindStart(front: seq<Blk>, r: seq<Blk>)
    requires r != [] && front != []
    ensures AddrAt(Behind(front, r), 0) == front[0].addr
  {
  }

  lemma ThreadedTail(m: map<nat, Header>, head: nat, f: seq<Blk>, k: nat)
    requires Threaded(m, head, f) && k <= |f|
    ensures Threaded(m, AddrAt(f, k), f[k..])
  {
    var r := f[k..];
    forall i: nat | i < |r| ensures NodeOk(m, r, i) {
      assert NodeOk(m, f, k + i) && r[i] == f[k + i] && AddrAt(r, i + 1) == AddrAt(f, k + i + 1);
    }
  }

  lemma Relinked(m: map<nat, Header>, head: nat, f: seq<Blk>, b: Blk, k: nat)
    requires Threaded(m, head, f) && Listed(f) && k <= |f| && b.addr > 0 && Proper(b)
    requires forall i | 0 <= i < k :: End(f[i]) <= b.addr
    requires forall i | k <= i < |f| :: End(b) <= f[i].addr
    ensures var prev, cur := AddrBefore(f, k), AddrAt(f, k);
            && (cur != 0 ==> cur in m) && (prev != 0 ==> prev in m) && (k > 0 ==> prev != 0 && prev != b.addr)
            && Threaded(Linked(m, b, prev, cur), if k == 0 then b.addr else head, Behind(f[..k], Ahead(b, f[k..])))
  {
    hide Ahead, Behind, Threaded, Listed;
    HeadersThere(m, head, f, k);
    RelinkedTail(m, head, f, b, k);
    if k > 0 {
      FrontKept(m, head, f, b, k);
      RelinkedFront(m, head, f, b, k);
    } else {
      EmptyFront(Ahead(b, f[k..]));
    }
  }

  /** The block put in front of what follows it. */
  lemma RelinkedTail(m: map<nat, Header>, head: nat, f: seq<Blk>, b: Blk, k: nat)
    requires Threaded(m, head, f) && Listed(f) && k <= |f| && b.addr > 0 && Proper(b)
    requires forall i | k <= i < |f| :: End(b) <= f[i].addr
    ensures AddrAt(f, k) != 0 ==> AddrAt(f, k) in m
    ensures Threaded(m[b.addr := NewHeader(m, b, AddrAt(f, k))], b.addr, Ahead(b, f[k..]))
  {
    hide Ahead, Threaded;
    HeadersThere(m, head, f, k);
    ThreadedTail(m, head, f, k);
    AheadThreaded(m, b, f[k..]);
  }

  /** ... and what is in front of it pointed there. */
  lemma RelinkedFront(m: map<nat, Header>, head: nat, f: seq<Blk>, b: Blk, k: nat)
    requires Threaded(m, head, f) && Listed(f) && 0 < k <= |f| && b.addr > 0 && Proper(b)
    requires forall i | 0 <= i < k :: End(f[i]) <= b.addr
    requires forall i | k <= i < |f| :: End(b) <= f[i].addr
    requires (AddrAt(f, k) != 0 ==> AddrAt(f, k) in m) && f[k - 1].addr in m && f[k - 1].addr != 0 && head == f[0].addr
    requires Threaded(m[b.addr := NewHeader(m, b, AddrAt(f, k))], b.addr, Ahead(b, f[k..]))
    ensures Threaded(Linked(m, b, f[k - 1].addr, AddrAt(f, k)), head, Behind(f[..k], Ahead(b, f[k..])))
  {
    hide Ahead, Behind, Threaded, LeadsTo;
    var front, rest, m1 := f[..k], f[k..], m[b.addr := NewHeader(m, b, AddrAt(f, k))];
    var r := Ahead(b, rest);
    AheadListed(b, rest);
    AheadAbove(b, rest);
    FrontKept(m, head, f, b, k);
    forall i | 0 <= i < k - 1 ensures LeadsTo(m1, front, i) { LeadsStill(m, front, i, b.addr, m1[b.addr]); }
    FirstNode(m1, b.addr, r);
    BehindThreaded(m1, front, r);
  }

  lemma LeadsStill(m: map<nat, Header>, front: seq<Blk>, i: nat, at: nat, h: Header)
    requires i < |front| - 1 && LeadsTo(m, front, i) && front[i].addr != at
    ensures LeadsTo(m[at := h], front, i)
  {
  }

  lemma HeadersThere(m: map<nat, Header>, head: nat, f: seq<Blk>, k: nat)
    requires Threaded(m, head, f) && k <= |f|
    ensures head == AddrAt(f, 0) && (AddrAt(f, k) != 0 ==> AddrAt(f, k) in m)
    ensures k > 0 ==> AddrBefore(f, k) > 0 && AddrBefore(f, k) in m && m[AddrBefore(f, k)].size == f[k - 1].size
  {
    assert k < |f| ==> NodeOk(m, f, k);
    assert k > 0 ==> NodeOk(m, f, k - 1);
  }

  lemma FirstNode(m: map<nat, Header>, head: nat, r: seq<Blk>)
    requires Threaded(m, head, r) && r != []
    ensures NodeOk(m, r, 0)
  {
  }

  lemma EmptyFront(r: seq<Blk>)
    requires r != []
    ensures Behind([], r) == r
  {
  }

  lemma FrontKept(m: map<nat, Header>, head: nat, f: seq<Blk>, b: Blk, k: nat)
    requires Threaded(m, head, f) && Listed(f) && 0 < k <= |f| && Proper(b) && forall i | 0 <= i < k :: End(f[i]) <= b.addr
    ensures var front := f[..k];
            && Listed(front) && front[k - 1].addr < b.addr
            && (forall i | 0 <= i < k :: front[i].addr > 0 && front[i].addr != b.addr && front[i].addr in m && m[front[i].addr].size == front[i].size)
            && (forall i | 0 <= i < k - 1 :: LeadsTo(m, front, i))
  {
    var front := f[..k];
    forall i: nat | i < k
      ensures front[i].addr > 0 && front[i].addr != b.addr && front[i].addr in m && m[front[i].addr].size == front[i].size
    {
      assert NodeOk(m, f, i) && front[i] == f[i] && Proper(f[i]);
    }
    forall i: nat | i < k - 1 ensures LeadsTo(m, front, i) {
      assert NodeOk(m, f, i) && front[i] == f[i] && front[i + 1] == f[i + 1] && AddrAt(f, i + 1) == f[i + 1].addr;
    }
  }

  predicate LeadsTo(m: map<nat, Header>, front: seq<Blk>, i: int)
    requires 0 <= i < |front| - 1
  {
    front[i].addr in m && m[front[i].addr].next == front[i + 1].addr
  }

  lemma AheadAbove(b: Blk, rest: seq<Blk>)
    requires forall i | 0 <= i < |rest| :: End(b) <= rest[i].addr
    ensures forall j | 0 <= j < |Ahead(b, rest)| :: b.addr <= Ahead(b, rest)[j].addr
  {
  }

  lemma DistinctAddrs(free: seq<Blk>, i: int, j: int)
    requires Listed(free) && 0 <= i < |free| && 0 <= j < |free|
    ensures i != j ==> free[i].addr != free[j].addr
  {
    if i < j { assert End(free[i]) < free[j].addr; } else if j < i { assert End(free[j]) < free[i].addr; }
  }
}
