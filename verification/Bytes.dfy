/** Bytes, little-endian fields and sectors: the layout helpers every on-disk format is written with. */
module Bytes {

  type byte = b: int | 0 <= b < 256

  const SECTOR_SIZE: nat := 512

  type Sector = s: seq<byte> | |s| == SECTOR_SIZE witness seq(SECTOR_SIZE, _ => 0)

  function Pow256(n: nat): (p: nat)
    ensures p > 0
  {
    if n == 0 then 1 else 256 * Pow256(n - 1)
  }

  /** As much of `s` as there is room for. */
  function CutTo(s: seq<byte>, n: nat): (r: seq<byte>)
    ensures |r| <= n && r <= s && (r == s || |r| == n)
  {
    if |s| <= n then s else s[..n]
  }

  const U32: nat := 0x1_0000_0000
  const U64: nat := 0x1_0000_0000_0000_0000

  lemma Widths()
    ensures Pow256(4) == U32 && Pow256(8) == U64
  {
    assert Pow256(2) == 256 * Pow256(1) == 65536;
    assert Pow256(4) == 256 * Pow256(3) == U32;
    assert Pow256(6) == 256 * Pow256(5);
    assert Pow256(8) == 256 * Pow256(7);
  }

  /** Byte `i` of `v`, counting from the least significant. */
  function Digit(v: nat, i: nat): byte {
    if i == 0 then v % 256 else Digit(v / 256, i - 1)
  }

  /** The low `n` bytes of `v`, least significant first; higher bytes are cut off. */
  function Le(v: nat, n: nat): (s: seq<byte>)
    ensures |s| == n
  {
    seq(n, i requires 0 <= i < n => Digit(v, i))
  }

  function FromLe(s: seq<byte>): (v: nat)
    ensures v < Pow256(|s|)
  {
    if s == [] then 0 else s[0] + 256 * FromLe(s[1..])
  }

  /** A field reads back as what was written, cut to its width. */
  lemma {:induction false} LeRoundTrip(v: nat, n: nat)
    requires v < Pow256(n)
    ensures FromLe(Le(v, n)) == v
  {
    if n > 0 {
      LeRoundTrip(v / 256, n - 1);
      assert Le(v, n)[1..] == Le(v / 256, n - 1);
    }
  }

  function Zeros(n: nat): (s: seq<byte>)
    ensures |s| == n && forall i | 0 <= i < n :: s[i] == 0
  {
    seq(n, _ => 0)
  }

  lemma {:induction false} FromLeZeros(n: nat)
    ensures FromLe(Zeros(n)) == 0
  {
    if n > 0 {
      FromLeZeros(n - 1);
      assert Zeros(n)[1..] == Zeros(n - 1);
    }
  }

  /** Write field `f` at offset `at`, leaving every other byte alone. */
  function Put(b: seq<byte>, at: nat, f: seq<byte>): (r: seq<byte>)
    requires at + |f| <= |b|
    ensures |r| == |b|
  {
    b[..at] + f + b[at + |f|..]
  }

  lemma PutSame(b: seq<byte>, at: nat, f: seq<byte>)
    requires at + |f| <= |b|
    ensures Put(b, at, f)[at..at + |f|] == f
  {
  }

  lemma PutOther(b: seq<byte>, at: nat, f: seq<byte>, i: nat, j: nat)
    requires at + |f| <= |b| && i <= j <= |b| && (j <= at || at + |f| <= i)
    ensures Put(b, at, f)[i..j] == b[i..j]
  {
    var r := Put(b, at, f);
    assert forall k | i <= k < j :: r[k] == b[k];
  }

  lemma SubSlice(b: seq<byte>, lo: nat, hi: nat, i: nat, j: nat)
    requires lo <= hi <= |b| && i <= j <= hi - lo
    ensures b[lo..hi][i..j] == b[lo + i..lo + j]
  {
    var s := b[lo..hi];
    assert forall k | 0 <= k < j - i :: s[i..j][k] == s[i + k] == b[lo + i + k] == b[lo + i..lo + j][k];
  }

  function U32At(b: seq<byte>, at: nat): (v: nat)
    requires at + 4 <= |b|
    ensures v < U32
  {
    Widths();
    FromLe(b[at..at + 4])
  }

  function U64At(b: seq<byte>, at: nat): (v: nat)
    requires at + 8 <= |b|
    ensures v < U64
  {
    Widths();
    FromLe(b[at..at + 8])
  }

  lemma ReadU64(b: seq<byte>, at: nat, v: nat)
    requires at + 8 <= |b| && v < U64 && b[at..at + 8] == Le(v, 8)
    ensures U64At(b, at) == v
  {
    Widths();
    LeRoundTrip(v, 8);
  }

  lemma ReadU32(b: seq<byte>, at: nat, v: nat)
    requires at + 4 <= |b| && v < U32 && b[at..at + 4] == Le(v, 4)
    ensures U32At(b, at) == v
  {
    Widths();
    LeRoundTrip(v, 4);
  }

  /** `bytes` cut or zero-filled to `n`, as a copy into a fresh buffer leaves it. */
  function Padded(bytes: seq<byte>, n: nat): (s: seq<byte>)
    ensures |s| == n
    ensures |bytes| <= n ==> s == bytes + Zeros(n - |bytes|)
  {
    if |bytes| <= n then bytes + Zeros(n - |bytes|) else bytes[..n]
  }

  // ---- records of several fields ---------------------------------------------------

  datatype Field = Field(at: nat, data: seq<byte>)

  predicate FieldsFit(fs: seq<Field>, len: nat) {
    && (forall i | 0 <= i < |fs| :: fs[i].at + |fs[i].data| <= len)
    && (forall i, j | 0 <= i < j < |fs| :: fs[i].at + |fs[i].data| <= fs[j].at)
  }

  /** Write the first `n` fields in order. */
  function PutFields(b: seq<byte>, fs: seq<Field>, n: nat): (r: seq<byte>)
    requires n <= |fs| && FieldsFit(fs, |b|)
    ensures |r| == |b|
  {
    if n == 0 then b else Put(PutFields(b, fs, n - 1), fs[n - 1].at, fs[n - 1].data)
  }

  lemma {:induction false} FieldsReadBack(b: seq<byte>, fs: seq<Field>, n: nat)
    requires n <= |fs| && FieldsFit(fs, |b|)
    ensures forall i | 0 <= i < n :: PutFields(b, fs, n)[fs[i].at..fs[i].at + |fs[i].data|] == fs[i].data
  {
    if n > 0 {
      FieldsReadBack(b, fs, n - 1);
      var r0, f := PutFields(b, fs, n - 1), fs[n - 1];
      PutSame(r0, f.at, f.data);
      forall i | 0 <= i < n - 1
        ensures PutFields(b, fs, n)[fs[i].at..fs[i].at + |fs[i].data|] == fs[i].data
      {
        PutOther(r0, f.at, f.data, fs[i].at, fs[i].at + |fs[i].data|);
      }
    }
  }

  /** Field `i` reads back as written. */
  lemma FieldAt(b: seq<byte>, fs: seq<Field>, i: nat)
    requires i < |fs| && FieldsFit(fs, |b|)
    ensures PutFields(b, fs, |fs|)[fs[i].at..fs[i].at + |fs[i].data|] == fs[i].data
  {
    FieldsReadBack(b, fs, |fs|);
  }

  lemma FieldU64(b: seq<byte>, fs: seq<Field>, i: nat, v: nat)
    requires i < |fs| && FieldsFit(fs, |b|) && v < U64 && fs[i].data == Le(v, 8)
    ensures U64At(PutFields(b, fs, |fs|), fs[i].at) == v
  {
    FieldAt(b, fs, i);
    ReadU64(PutFields(b, fs, |fs|), fs[i].at, v);
  }

  lemma FieldU32(b: seq<byte>, fs: seq<Field>, i: nat, v: nat)
    requires i < |fs| && FieldsFit(fs, |b|) && v < U32 && fs[i].data == Le(v, 4)
    ensures U32At(PutFields(b, fs, |fs|), fs[i].at) == v
  {
    FieldAt(b, fs, i);
    ReadU32(PutFields(b, fs, |fs|), fs[i].at, v);
  }

  /** Consecutive 64-bit words. */
  function Le64s(vals: seq<nat>): (b: seq<byte>)
    ensures |b| == 8 * |vals|
  {
    if vals == [] then [] else Le(vals[0], 8) + Le64s(vals[1..])
  }

  lemma {:induction false} Le64sAt(vals: seq<nat>, i: nat)
    requires i < |vals|
    ensures Le64s(vals)[8 * i..8 * i + 8] == Le(vals[i], 8)
  {
    var b, head := Le64s(vals), Le(vals[0], 8);
    if i == 0 {
      assert b[0..8] == head;
    } else {
      Le64sAt(vals[1..], i - 1);
      Shifted(head, Le64s(vals[1..]), 8 * (i - 1), 8 * i);
    }
  }

  lemma Shifted(a: seq<byte>, b: seq<byte>, i: nat, j: nat)
    requires i <= j <= |b|
    ensures (a + b)[|a| + i..|a| + j] == b[i..j]
  {
  }

  /** A part of a run of bytes found at `at` is found where it lies in the run. */
  lemma PartOfRun(b: seq<byte>, at: nat, run: seq<byte>, i: nat, f: seq<byte>)
    requires at + |run| <= |b| && b[at..at + |run|] == run && i + |f| <= |run| && run[i..i + |f|] == f
    ensures b[at + i..at + i + |f|] == f
  {
    SubSlice(b, at, at + |run|, i, i + |f|);
  }

  /** Word `i` of a run of words written at `at` reads back as written. */
  lemma WordAt(b: seq<byte>, at: nat, vals: seq<nat>, i: nat)
    requires i < |vals| && vals[i] < U64 && at + 8 * |vals| <= |b| && b[at..at + 8 * |vals|] == Le64s(vals)
    ensures U64At(b, at + 8 * i) == vals[i]
  {
    hide Le64s, Le, FromLe;
    Le64sAt(vals, i);
    PartOfRun(b, at, Le64s(vals), 8 * i, Le(vals[i], 8));
    ReadU64(b, at + 8 * i, vals[i]);
  }
}
