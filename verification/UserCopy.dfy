/** Copies across the user boundary: one page at a time through the page tables, equal to one byte at a time. */
module UserCopy {
  import opened Wrappers
  import opened Bytes
  import opened Arithmetic
  import opened Paging

  const MAX_TRANSFER: nat := 4096
  const TOO_LARGE := "transfer too large"
  const UNMAPPED := "unmapped user address"

  /** Physical memory outside the page tables; what was never written reads as zero. */
  type Memory = map<nat, byte>

  function At(mem: Memory, pa: nat): byte { if pa in mem then mem[pa] else 0 }

  /** Where byte `k` from `va` on lies. */
  function Place(s: Space, va: nat, k: nat): Option<nat> { Translate(s, va + k) }

  function InPage(va: nat): (n: nat)
    ensures 0 < n <= PAGE_SIZE
  {
    PAGE_SIZE - va % PAGE_SIZE
  }

  /** Within one page, translation moves along with the address. */
  lemma PageMoves(s: Space, va: nat, j: nat)
    requires j < InPage(va)
    ensures Translate(s, va + j) == match Translate(s, va) case None => None case Some(pa) => Some(pa + j)
  {
    hide Translate;
    var n := va / PAGE_SIZE;
    Quotient(va + j, PAGE_SIZE, n, va % PAGE_SIZE + j);
    TranslateIsLeaf(s, va);
    TranslateIsLeaf(s, va + j);
    SamePage(va, va + j);
  }

  lemma SamePage(a: nat, b: nat)
    requires a / PAGE_SIZE == b / PAGE_SIZE
    ensures PageOf(a) == PageOf(b)
  {
    PageIs(a);
    PageIs(b);
  }

  /** One mapped byte before a stretch that is mapped so far and no further. */
  lemma OneMore(s: Space, va: nat, next: nat, n: nat, len: nat)
    requires next == va + 1 && Place(s, va, 0).Some? && n < len
    requires forall k | 0 <= k < n :: Place(s, next, k).Some?
    requires n < len - 1 ==> Place(s, next, n) == None
    ensures forall k | 0 <= k < n + 1 :: Place(s, va, k).Some?
    ensures n + 1 < len ==> Place(s, va, n + 1) == None
  {
    hide Translate;
    forall k | 0 <= k < n + 1 ensures Place(s, va, k).Some? {
      if k > 0 { assert Place(s, next, k - 1).Some?; }
    }
  }

  /** How many bytes from `va` on are mapped, up to `len`. */
  function Mapped(s: Space, va: nat, len: nat): (n: nat)
    ensures n <= len
    ensures forall k | 0 <= k < n :: Place(s, va, k).Some?
    ensures n < len ==> Place(s, va, n) == None
    decreases len
  {
    if len == 0 || Place(s, va, 0) == None then 0
    else
      var n := Mapped(s, va + 1, len - 1);
      OneMore(s, va, va + 1, n, len);
      n + 1
  }

  // ---- reading --------------------------------------------------------------------------------------------

  function Run(mem: Memory, pa: nat, n: nat): (bytes: seq<byte>)
    ensures |bytes| == n && forall k | 0 <= k < n :: bytes[k] == At(mem, pa + k)
    decreases n
  {
    if n == 0 then [] else Run(mem, pa, n - 1) + [At(mem, pa + n - 1)]
  }

  /** Byte `k` of what lies at `va`, through the page tables. */
  predicate Shows(s: Space, mem: Memory, va: nat, k: nat, b: byte) {
    Place(s, va, k).Some? && b == At(mem, Place(s, va, k).value)
  }

  predicate ShowsAll(s: Space, mem: Memory, va: nat, bytes: seq<byte>) {
    forall k | 0 <= k < |bytes| :: Shows(s, mem, va, k, bytes[k])
  }

  lemma ChunkShows(s: Space, mem: Memory, va: nat, pa: nat, n: nat)
    requires Translate(s, va) == Some(pa) && n <= InPage(va)
    ensures ShowsAll(s, mem, va, Run(mem, pa, n))
  {
    hide Translate;
    forall k | 0 <= k < n
      ensures Shows(s, mem, va, k, Run(mem, pa, n)[k])
    {
      PageMoves(s, va, k);
    }
  }

  lemma ShowsMore(s: Space, mem: Memory, va: nat, a: seq<byte>, b: seq<byte>)
    requires ShowsAll(s, mem, va, a) && ShowsAll(s, mem, va + |a|, b)
    ensures ShowsAll(s, mem, va, a + b)
  {
    hide Translate;
    forall k | 0 <= k < |a + b|
      ensures Shows(s, mem, va, k, (a + b)[k])
    {
      if k < |a| {
        assert Shows(s, mem, va, k, a[k]);
      } else {
        assert Shows(s, mem, va + |a|, k - |a|, b[k - |a|]);
        assert va + |a| + (k - |a|) == va + k;
      }
    }
  }

  /**
   The chunked copy in: every byte is the one its own address translates to; it fails exactly on a length over the limit
   or a byte that is not mapped, wherever in the range that byte lies.
   */
  method CopyFromUser(s: Space, mem: Memory, uva: nat, len: nat) returns (r: Result<seq<byte>>)
    ensures len > 4096 <==> r == Err(TOO_LARGE)
    ensures r.Ok? <==> len <= 4096 && forall k | 0 <= k < len :: Place(s, uva, k).Some?
    ensures r.Ok? ==> |r.value| == len && ShowsAll(s, mem, uva, r.value)
    ensures r.Err? && len <= MAX_TRANSFER ==> r == Err(UNMAPPED)
  {
    hide Translate;
    if len > MAX_TRANSFER { return Err(TOO_LARGE); }
    var out: seq<byte>, done: nat := [], 0;
    while done < len
      invariant done <= len && |out| == done && ShowsAll(s, mem, uva, out)
    {
      var va := uva + done;
      var pa := Translate(s, va);
      if pa == None {
        assert UNMAPPED[0] != TOO_LARGE[0] && Place(s, uva, done) == None;
        return Err(UNMAPPED);
      }
      var n := if InPage(va) <= len - done then InPage(va) else len - done;
      ChunkShows(s, mem, va, pa.value, n);
      ShowsMore(s, mem, uva, out, Run(mem, pa.value, n));
      out := out + Run(mem, pa.value, n);
      done := done + n;
    }
    forall k | 0 <= k < len ensures Place(s, uva, k).Some? { assert Shows(s, mem, uva, k, out[k]); }
    return Ok(out);
  }

  // ---- writing --------------------------------------------------------------------------------------------

  /** Bytes stored one after another from a physical address on. */
  function Stored(mem: Memory, pa: nat, data: seq<byte>): Memory
    decreases |data|
  {
    if data == [] then mem else Stored(mem[pa := data[0]], pa + 1, data[1..])
  }

  /** Bytes stored one at a time, each through the page tables. */
  function StoredAt(s: Space, mem: Memory, va: nat, data: seq<byte>): Memory
    requires Mapped(s, va, |data|) == |data|
    decreases |data|
  {
    if data == [] then mem
    else
      StillMapped(s, va, |data|, 1);
      StoredAt(s, mem[Translate(s, va).value := data[0]], va + 1, data[1..])
  }

  lemma MappedAll(s: Space, va: nat, n: nat)
    requires forall k | 0 <= k < n :: Place(s, va, k).Some?
    ensures Mapped(s, va, n) == n
  {
    hide Translate;
    var m: nat := Mapped(s, va, n);
    assert m < n ==> Place(s, va, m) == None;
  }

  lemma StillMapped(s: Space, va: nat, len: nat, k: nat)
    requires Mapped(s, va, len) == len && k <= len
    ensures Mapped(s, va + k, len - k) == len - k
    ensures Mapped(s, va, k) == k
  {
    hide Translate;
    MappedAll(s, va, k);
    var from := va + k;
    forall j | 0 <= j < len - k ensures Place(s, from, j).Some? { assert Place(s, va, k + j).Some?; }
    MappedAll(s, va + k, len - k);
  }

  lemma {:induction false} StoredMore(s: Space, mem: Memory, va: nat, a: seq<byte>, b: seq<byte>)
    requires Mapped(s, va, |a| + |b|) == |a| + |b|
    ensures Mapped(s, va, |a|) == |a| && Mapped(s, va + |a|, |b|) == |b|
    ensures StoredAt(s, mem, va, a + b) == StoredAt(s, StoredAt(s, mem, va, a), va + |a|, b)
    decreases |a|
  {
    hide Translate, Mapped;
    StillMapped(s, va, |a| + |b|, |a|);
    if a == [] {
      assert a + b == b;
    } else {
      StillMapped(s, va, |a| + |b|, 1);
      AllMapped(s, va, |a| + |b|, 0);
      assert (a + b)[1..] == a[1..] + b;
      StoredMore(s, mem[Translate(s, va).value := a[0]], va + 1, a[1..], b);
    }
  }

  lemma MappedChunk(s: Space, va: nat, n: nat)
    requires n <= InPage(va) && Translate(s, va).Some?
    ensures Mapped(s, va, n) == n
  {
    hide Translate;
    forall k | 0 <= k < n ensures Place(s, va, k).Some? { PageMoves(s, va, k); }
    MappedAll(s, va, n);
  }

  lemma {:induction false} ChunkStored(s: Space, mem: Memory, va: nat, pa: nat, data: seq<byte>)
    requires Translate(s, va) == Some(pa) && |data| <= InPage(va)
    requires Mapped(s, va, |data|) == |data|
    ensures StoredAt(s, mem, va, data) == Stored(mem, pa, data)
    decreases |data|
  {
    hide Translate, Mapped;
    if |data| > 1 {
      PageMoves(s, va, 1);
      Quotient(va + 1, PAGE_SIZE, va / PAGE_SIZE, va % PAGE_SIZE + 1);
      StillMapped(s, va, |data|, 1);
      ChunkStored(s, mem[pa := data[0]], va + 1, pa + 1, data[1..]);
    } else if |data| == 1 {
      StillMapped(s, va, 1, 1);
      assert data[1..] == [];
    }
  }

  /** How much of `data` a copy out to `va` stores before it stops. */
  function Landed(s: Space, va: nat, data: seq<byte>): (n: nat)
    ensures n <= |data|
  {
    Mapped(s, va, |data|)
  }

  lemma LandedMapped(s: Space, va: nat, data: seq<byte>)
    ensures Mapped(s, va, Landed(s, va, data)) == Landed(s, va, data)
  {
    hide Translate;
    MappedAll(s, va, Landed(s, va, data));
  }

  /** A mapped start and an unmapped byte right after it fix how much is mapped. */
  lemma MappedExactly(s: Space, va: nat, n: nat, len: nat)
    requires n <= len && Mapped(s, va, n) == n && (n < len ==> Place(s, va, n) == None)
    ensures Mapped(s, va, len) == n
  {
    hide Translate;
    var m: nat := Mapped(s, va, len);
    assert m < n ==> Place(s, va, m).Some?;
    assert n < m ==> Place(s, va, n).Some?;
  }

  lemma MappedJoin(s: Space, va: nat, a: nat, b: nat)
    requires Mapped(s, va, a) == a && Mapped(s, va + a, b) == b
    ensures Mapped(s, va, a + b) == a + b
  {
    hide Translate;
    forall k | 0 <= k < a + b
      ensures Place(s, va, k).Some?
    {
      if k >= a { assert Place(s, va + a, k - a).Some?; }
    }
    MappedAll(s, va, a + b);
  }

  class PhysicalMemory {
    var mem: Memory

    /**
     The chunked copy out stores the bytes up to the first one that is not mapped, as if one at a time, and succeeds
     exactly when there is no such byte.
     */
    method CopyToUser(s: Space, uva: nat, data: seq<byte>) returns (r: Result<()>)
      modifies this
      ensures Mapped(s, uva, Landed(s, uva, data)) == Landed(s, uva, data)
      ensures mem == StoredAt(s, old(mem), uva, data[..Landed(s, uva, data)])
      ensures r == if Landed(s, uva, data) == |data| then Ok(()) else Err(UNMAPPED)
    {
      hide Translate, Mapped, StoredAt, Stored;
      var done: nat := 0;
      LandedMapped(s, uva, data);
      StillMapped(s, uva, Landed(s, uva, data), 0);
      StoredNothing(s, mem, uva, data[..0]);
      while done < |data|
        invariant done <= |data| && Mapped(s, uva, done) == done
        invariant mem == StoredAt(s, old(mem), uva, data[..done])
      {
        var va := uva + done;
        var pa := Translate(s, va);
        if pa == None {
          MappedExactly(s, uva, done, |data|);
          return Err(UNMAPPED);
        }
        var n := if InPage(va) <= |data| - done then InPage(va) else |data| - done;
        ghost var chunk := data[done..done + n];
        MappedChunk(s, va, n);
        MappedJoin(s, uva, done, n);
        StoredMore(s, old(mem), uva, data[..done], chunk);
        ChunkStored(s, mem, va, pa.value, chunk);
        mem := Stored(mem, pa.value, data[done..done + n]);
        assert data[..done] + chunk == data[..done + n];
        done := done + n;
      }
      MappedExactly(s, uva, done, |data|);
      return Ok(());
    }
  }

  lemma StoredNothing(s: Space, mem: Memory, va: nat, data: seq<byte>)
    requires data == []
    ensures Mapped(s, va, 0) == 0 && StoredAt(s, mem, va, data) == mem
  {
  }

  // ---- what a copy out means ------------------------------------------------------------------------------

  /** The last byte of the run that lands on `pa`, if any does. */
  predicate Hits(s: Space, va: nat, k: nat, pa: nat) { Place(s, va, k) == Some(pa) }

  /** Addresses the run does not translate to keep their bytes; every other one holds the last byte that landed on it. */
  lemma {:induction false} StoredLast(s: Space, mem: Memory, va: nat, data: seq<byte>, pa: nat)
    requires Mapped(s, va, |data|) == |data|
    ensures
      || (At(StoredAt(s, mem, va, data), pa) == At(mem, pa) && forall k | 0 <= k < |data| :: !Hits(s, va, k, pa))
      || exists k | 0 <= k < |data| ::
          Hits(s, va, k, pa) && At(StoredAt(s, mem, va, data), pa) == data[k] && forall j | k < j < |data| :: !Hits(s, va, j, pa)
    decreases |data|
  {
    hide Translate, Mapped;
    if data != [] {
      var front, n := data[..|data| - 1], |data| - 1;
      assert front + data[n..] == data;
      StoredMore(s, mem, va, front, data[n..]);
      StoredLast(s, mem, va, front, pa);
      var before := StoredAt(s, mem, va, front);
      StoredOne(s, before, va + n, data[n]);
      assert data[n..] == [data[n]];
      if Hits(s, va, n, pa) {
        assert At(StoredAt(s, mem, va, data), pa) == data[n];
      } else if k: nat :| k < n && Hits(s, va, k, pa) && At(before, pa) == front[k] && forall j | k < j < n :: !Hits(s, va, j, pa) {
        assert Hits(s, va, k, pa) && At(StoredAt(s, mem, va, data), pa) == data[k];
      }
    }
  }

  lemma StoredOne(s: Space, mem: Memory, va: nat, b: byte)
    requires Mapped(s, va, 1) == 1
    ensures StoredAt(s, mem, va, [b]) == mem[Translate(s, va).value := b]
  {
    hide Translate;
    StillMapped(s, va, 1, 1);
    assert [b][1..] == [];
    StoredNothing(s, mem[Translate(s, va).value := b], va + 1, []);
  }

  /** Two places of the run that are one byte of memory are given the same value. */
  ghost predicate Agrees(s: Space, va: nat, data: seq<byte>) {
    forall i, j | 0 <= i < j < |data| :: Place(s, va, i) == Place(s, va, j) ==> data[i] == data[j]
  }

  /**
   What was copied out reads back at the same addresses if and only if no two different bytes of it went to one place: with
   the pages of the range on different frames, always.
   */
  lemma ReadsBackIff(s: Space, mem: Memory, va: nat, data: seq<byte>)
    requires Mapped(s, va, |data|) == |data|
    ensures ShowsAll(s, StoredAt(s, mem, va, data), va, data) <==> Agrees(s, va, data)
  {
    hide Translate, Mapped, StoredAt;
    var after := StoredAt(s, mem, va, data);
    if Agrees(s, va, data) {
      forall k | 0 <= k < |data|
        ensures Shows(s, after, va, k, data[k])
      {
        AllMapped(s, va, |data|, k);
        var pa := Place(s, va, k).value;
        assert Hits(s, va, k, pa);
        StoredLast(s, mem, va, data, pa);
        var j: nat :| j < |data| && Hits(s, va, j, pa) && At(after, pa) == data[j];
        assert Place(s, va, k) == Place(s, va, j);
      }
    }
    if ShowsAll(s, after, va, data) {
      forall i, j | 0 <= i < j < |data| && Place(s, va, i) == Place(s, va, j)
        ensures data[i] == data[j]
      {
        assert Shows(s, after, va, i, data[i]) && Shows(s, after, va, j, data[j]);
      }
    }
  }

  lemma AllMapped(s: Space, va: nat, n: nat, k: nat)
    requires Mapped(s, va, n) == n && k < n
    ensures Place(s, va, k).Some?
  {
  }

  /** A copy into one space is seen by another, or by the same one elsewhere, only where they share memory. */
  lemma UnsharedIsUntouched(s: Space, mem: Memory, va: nat, data: seq<byte>, other: Space, at: nat)
    requires Mapped(s, va, |data|) == |data| && Translate(other, at).Some?
    requires forall k | 0 <= k < |data| :: Place(s, va, k) != Translate(other, at)
    ensures At(StoredAt(s, mem, va, data), Translate(other, at).value) == At(mem, Translate(other, at).value)
  {
    hide Translate, Mapped, StoredAt;
    var pa := Translate(other, at).value;
    StoredLast(s, mem, va, data, pa);
    if k: nat :| k < |data| && Hits(s, va, k, pa) { assert false; }
  }
}
