/**
 SHA-256 as FIPS 180-4 defines it, and as the kernel computes it: a context fed in pieces. Every way of cutting a message
 into pieces gives the digest of the whole.
 */
module Sha256 {
  import opened Bytes

  type Word = bv32

  function Of4(i: nat, a: Word, b: Word, c: Word, d: Word): Word
    requires i < 4
  {
    if i == 0 then a else if i == 1 then b else if i == 2 then c else d
  }

  /** The constants of section 4.2.2, four to a row. */
  function RoundConstant(i: nat): Word
    requires i < 64
  {
    match i / 4
    case 0 => Of4(i % 4, 0x428a2f98, 0x71374491, 0xb5c0fbcf, 0xe9b5dba5)
    case 1 => Of4(i % 4, 0x3956c25b, 0x59f111f1, 0x923f82a4, 0xab1c5ed5)
    case 2 => Of4(i % 4, 0xd807aa98, 0x12835b01, 0x243185be, 0x550c7dc3)
    case 3 => Of4(i % 4, 0x72be5d74, 0x80deb1fe, 0x9bdc06a7, 0xc19bf174)
    case 4 => Of4(i % 4, 0xe49b69c1, 0xefbe4786, 0x0fc19dc6, 0x240ca1cc)
    case 5 => Of4(i % 4, 0x2de92c6f, 0x4a7484aa, 0x5cb0a9dc, 0x76f988da)
    case 6 => Of4(i % 4, 0x983e5152, 0xa831c66d, 0xb00327c8, 0xbf597fc7)
    case 7 => Of4(i % 4, 0xc6e00bf3, 0xd5a79147, 0x06ca6351, 0x14292967)
    case 8 => Of4(i % 4, 0x27b70a85, 0x2e1b2138, 0x4d2c6dfc, 0x53380d13)
    case 9 => Of4(i % 4, 0x650a7354, 0x766a0abb, 0x81c2c92e, 0x92722c85)
    case 10 => Of4(i % 4, 0xa2bfe8a1, 0xa81a664b, 0xc24b8b70, 0xc76c51a3)
    case 11 => Of4(i % 4, 0xd192e819, 0xd6990624, 0xf40e3585, 0x106aa070)
    case 12 => Of4(i % 4, 0x19a4c116, 0x1e376c08, 0x2748774c, 0x34b0bcb5)
    case 13 => Of4(i % 4, 0x391c0cb3, 0x4ed8aa4a, 0x5b9cca4f, 0x682e6ff3)
    case 14 => Of4(i % 4, 0x748f82ee, 0x78a5636f, 0x84c87814, 0x8cc70208)
    case _ => Of4(i % 4, 0x90befffa, 0xa4506ceb, 0xbef9a3f7, 0xc67178f2)
  }

  /** Addition modulo 2^32. */
  function Plus(x: Word, y: Word): Word { x + y }
  function Plus4(x: Word, y: Word, z: Word, u: Word): Word { x + y + z + u }

  // ---- the standard -----------------------------------------------------------------------------

  function Ch(x: Word, y: Word, z: Word): Word { (x & y) ^ (!x & z) }
  function Maj(x: Word, y: Word, z: Word): Word { (x & y) ^ (x & z) ^ (y & z) }
  function BigSigma0(x: Word): Word { x.RotateRight(2) ^ x.RotateRight(13) ^ x.RotateRight(22) }
  function BigSigma1(x: Word): Word { x.RotateRight(6) ^ x.RotateRight(11) ^ x.RotateRight(25) }
  function Sigma0(x: Word): Word { x.RotateRight(7) ^ x.RotateRight(18) ^ (x >> 3) }
  function Sigma1(x: Word): Word { x.RotateRight(17) ^ x.RotateRight(19) ^ (x >> 10) }

  type Block = b: seq<byte> | |b| == 64 witness Zeros(64)

  /** Four bytes as a big-endian word. */
  function BigWord(b: Block, i: nat): Word
    requires i < 16
  {
    (b[4 * i] as bv32 << 24) | (b[4 * i + 1] as bv32 << 16) | (b[4 * i + 2] as bv32 << 8) | b[4 * i + 3] as bv32
  }

  /** The message schedule, section 6.2.2 step 1. */
  function Schedule(b: Block, t: nat): Word
    requires t < 64
  {
    if t < 16 then BigWord(b, t)
    else Plus4(Sigma1(Schedule(b, t - 2)), Schedule(b, t - 7), Sigma0(Schedule(b, t - 15)), Schedule(b, t - 16))
  }

  datatype Vars = Vars(a: Word, b: Word, c: Word, d: Word, e: Word, f: Word, g: Word, h: Word)

  const INIT: Vars :=
    Vars(0x6a09e667, 0xbb67ae85, 0x3c6ef372, 0xa54ff53a, 0x510e527f, 0x9b05688c, 0x1f83d9ab, 0x5be0cd19)

  function T1(v: Vars, k: Word, w: Word): Word { Plus(Plus(Plus(Plus(v.h, BigSigma1(v.e)), Ch(v.e, v.f, v.g)), k), w) }
  function T2(v: Vars): Word { Plus(BigSigma0(v.a), Maj(v.a, v.b, v.c)) }

  /** One round, section 6.2.2 step 3. */
  function Round(v: Vars, k: Word, w: Word): Vars {
    Vars(Plus(T1(v, k, w), T2(v)), v.a, v.b, v.c, Plus(v.d, T1(v, k, w)), v.e, v.f, v.g)
  }

  function Rounds(v: Vars, b: Block, n: nat): Vars
    requires n <= 64
  {
    if n == 0 then v else Round(Rounds(v, b, n - 1), RoundConstant(n - 1), Schedule(b, n - 1))
  }

  function Add(v: Vars, w: Vars): Vars {
    Vars(Plus(v.a, w.a), Plus(v.b, w.b), Plus(v.c, w.c), Plus(v.d, w.d), Plus(v.e, w.e), Plus(v.f, w.f), Plus(v.g, w.g), Plus(v.h, w.h))
  }

  function Compressed(v: Vars, b: Block): Vars { Add(v, Rounds(v, b, 64)) }

  /** The hash value after the whole blocks of `m`. */
  function HashBlocks(m: seq<byte>): Vars
    requires |m| % 64 == 0
  {
    if m == [] then INIT
    else
      BlockSplit(m);
      Compressed(HashBlocks(m[..|m| - 64]), m[|m| - 64..])
  }

  lemma BlockSplit(m: seq<byte>)
    requires m != [] && |m| % 64 == 0
    ensures |m| >= 64 && (|m| - 64) % 64 == 0
  {
  }

  function Be64(n: nat): (s: seq<byte>)
    ensures |s| == 8
  {
    var l := Le(n, 8);
    [l[7], l[6], l[5], l[4], l[3], l[2], l[1], l[0]]
  }

  function BeWord(w: Word): (s: seq<byte>)
    ensures |s| == 4
  {
    [(w >> 24) as int % 256, (w >> 16) as int % 256, (w >> 8) as int % 256, w as int % 256]
  }

  function Output(v: Vars): (s: seq<byte>)
    ensures |s| == 32
  {
    BeWord(v.a) + BeWord(v.b) + BeWord(v.c) + BeWord(v.d) + BeWord(v.e) + BeWord(v.f) + BeWord(v.g) + BeWord(v.h)
  }

  /** How many zero bytes follow the one bit: the least number that leaves eight bytes in the last block. */
  function ZeroBytes(n: nat): (k: nat)
    ensures k < 64 && (n + 1 + k) % 64 == 56
  {
    (119 - n % 64) % 64
  }

  /** Padding, section 5.1.1, for messages shorter than 2^64 bits. */
  function Padding(n: nat): (p: seq<byte>)
    requires 8 * n < U64
    ensures |p| == 9 + ZeroBytes(n) && (n + |p|) % 64 == 0
  {
    PadZeros(n);
    [0x80] + Zeros(ZeroBytes(n)) + Be64(8 * n)
  }

  /** The digest FIPS 180-4 assigns to `m`. */
  function Fips(m: seq<byte>): seq<byte>
    requires 8 * |m| < U64
  {
    Output(HashBlocks(m + Padding(|m|)))
  }

  // ---- the context --------------------------------------------------------------------------------

  /** What the kernel carries between calls: the hash so far, a partly filled block, and a 64-bit byte count. */
  datatype Ctx = Ctx(state: Vars, block: Block, filled: nat, total: nat)

  const NEW: Ctx := Ctx(INIT, Zeros(64), 0, 0)

  function MinOf(a: nat, b: nat): nat { if a < b then a else b }

  /** One turn of the loop in `update`: as many bytes as fit the block. */
  function Take(c: Ctx, data: seq<byte>): (nat, Ctx)
    requires c.filled < 64 && data != []
  {
    var n := MinOf(64 - c.filled, |data|);
    var block := Put(c.block, c.filled, data[..n]);
    (n, if c.filled + n == 64 then c.(state := Compressed(c.state, block), block := block, filled := 0)
        else c.(block := block, filled := c.filled + n))
  }

  function Absorb(c: Ctx, data: seq<byte>): (r: Ctx)
    requires c.filled < 64
    ensures r.filled < 64
    decreases |data|
  {
    if data == [] then c else var (n, c') := Take(c, data); Absorb(c', data[n..])
  }

  function Update(c: Ctx, data: seq<byte>): (r: Ctx)
    requires c.filled < 64
    ensures r.filled < 64
  {
    Absorb(c.(total := (c.total + |data|) % U64), data)
  }

  /** The loop in `finish` that pads with zeros. */
  function PadTo56(c: Ctx): (r: Ctx)
    requires c.filled < 64
    ensures r.filled == 56
    decreases (120 - c.filled) % 64
  {
    if c.filled == 56 then c else PadTo56(Absorb(c, [0]))
  }

  function Finish(c: Ctx): seq<byte>
    requires c.filled < 64
  {
    var p := PadTo56(Absorb(c, [0x80]));
    Output(Compressed(p.state, Put(p.block, 56, Be64(c.total * 8 % U64))))
  }

  function Digest(m: seq<byte>): seq<byte> { Finish(Update(NEW, m)) }

  /** The context of message `m`: whole blocks hashed, the rest in the block, the length counted. */
  predicate Represents(c: Ctx, m: seq<byte>) {
    && c.filled < 64 && c.filled == |m| % 64
    && c.state == HashBlocks(m[..|m| - c.filled])
    && c.block[..c.filled] == m[|m| - c.filled..]
  }

  lemma TakeKeeps(c: Ctx, m: seq<byte>, data: seq<byte>)
    requires Represents(c, m) && data != []
    ensures var (n, c') := Take(c, data); n <= |data| && Represents(c', m + data[..n])
  {
    hide Compressed, HashBlocks;
    var (n, c') := Take(c, data);
    var f, d := c.filled, data[..n];
    var whole, tail := m[..|m| - f], m[|m| - f..];
    assert Parts(c, m, whole, tail) by { PartsOf(c, m); }
    assert c'.block[..f + n] == tail + d by { assert c.block[..f] == tail; }
    assert m + d == whole + (tail + d);
    if f + n == 64 {
      assert c'.block == tail + d;
      LastBlock(whole, tail + d);
      assert whole + (tail + d) + [] == m + d;
      FromParts(c', m + d, m + d, []);
    } else {
      FromParts(c', m + d, whole, tail + d);
    }
  }

  /** A message in whole blocks and a tail, and the context that holds them. */
  predicate Parts(c: Ctx, m: seq<byte>, whole: seq<byte>, tail: seq<byte>) {
    m == whole + tail && |whole| % 64 == 0 && |tail| == c.filled < 64 && c.state == HashBlocks(whole) && c.block[..c.filled] == tail
  }

  lemma PartsOf(c: Ctx, m: seq<byte>)
    requires Represents(c, m)
    ensures Parts(c, m, m[..|m| - c.filled], m[|m| - c.filled..])
  {
    hide HashBlocks;
  }

  lemma FromParts(c: Ctx, m: seq<byte>, whole: seq<byte>, tail: seq<byte>)
    requires Parts(c, m, whole, tail)
    ensures Represents(c, m)
  {
    hide HashBlocks;
    assert m[..|whole|] == whole && m[|whole|..] == tail;
  }

  lemma {:induction false} AbsorbKeeps(c: Ctx, m: seq<byte>, data: seq<byte>)
    requires Represents(c, m)
    ensures Represents(Absorb(c, data), m + data)
    decreases |data|
  {
    hide HashBlocks, Take;
    if data == [] {
      assert m + data == m;
    } else {
      TakeKeeps(c, m, data);
      TakeMoves(c, data);
      var (n, c') := Take(c, data);
      AbsorbKeeps(c', m + data[..n], data[n..]);
      assert m + data[..n] + data[n..] == m + data;
    }
  }

  lemma TakeMoves(c: Ctx, data: seq<byte>)
    requires c.filled < 64 && data != []
    ensures var (n, c') := Take(c, data); 0 < n <= |data| && c'.filled < 64 && c'.total == c.total
  {
  }

  lemma {:induction false} AbsorbTotal(c: Ctx, data: seq<byte>)
    requires c.filled < 64
    ensures Absorb(c, data).total == c.total
    decreases |data|
  {
    if data != [] {
      TakeMoves(c, data);
      AbsorbTotal(Take(c, data).1, data[Take(c, data).0..]);
    }
  }

  lemma {:induction false} PadKeeps(c: Ctx, m: seq<byte>)
    requires Represents(c, m)
    ensures Represents(PadTo56(c), m + Zeros((120 - c.filled) % 64))
    decreases (120 - c.filled) % 64
  {
    hide HashBlocks, Absorb, Represents;
    FilledIs(c, m);
    if c.filled == 56 {
      assert m + Zeros(0) == m;
    } else {
      AbsorbKeeps(c, m, [0]);
      FilledIs(Absorb(c, [0]), m + [0]);
      PadArith(|m|);
      PadKeeps(Absorb(c, [0]), m + [0]);
      var k := (120 - c.filled) % 64;
      assert [0] + Zeros(k - 1) == Zeros(k);
      assert m + [0] + Zeros(k - 1) == m + ([0] + Zeros(k - 1));
    }
  }

  lemma FilledIs(c: Ctx, m: seq<byte>)
    requires Represents(c, m)
    ensures c.filled == |m| % 64 < 64
  {
  }

  lemma PadArith(n: nat)
    requires n % 64 != 56
    ensures (120 - n % 64) % 64 == (120 - (n + 1) % 64) % 64 + 1
  {
    assert (n + 1) % 64 == if n % 64 == 63 then 0 else n % 64 + 1;
  }

  lemma PadZeros(n: nat)
    ensures (120 - (n + 1) % 64) % 64 == ZeroBytes(n) && (n + 1 + ZeroBytes(n)) % 64 == 56 && (n + 1 + ZeroBytes(n) + 8) % 64 == 0
  {
    assert (n + 1) % 64 == if n % 64 == 63 then 0 else n % 64 + 1;
  }

  /** Feed the pieces one after another. */
  function UpdateAll(c: Ctx, pieces: seq<seq<byte>>): (r: Ctx)
    requires c.filled < 64
    ensures r.filled < 64
  {
    if pieces == [] then c else Update(UpdateAll(c, pieces[..|pieces| - 1]), pieces[|pieces| - 1])
  }

  function Whole(pieces: seq<seq<byte>>): seq<byte> {
    if pieces == [] then [] else Whole(pieces[..|pieces| - 1]) + pieces[|pieces| - 1]
  }

  lemma {:induction false} UpdatesRepresent(pieces: seq<seq<byte>>)
    ensures Represents(UpdateAll(NEW, pieces), Whole(pieces)) && UpdateAll(NEW, pieces).total == |Whole(pieces)| % U64
  {
    hide Absorb, Represents;
    if pieces == [] {
      EmptyHash();
    } else {
      var init, last := pieces[..|pieces| - 1], pieces[|pieces| - 1];
      UpdatesRepresent(init);
      var c := UpdateAll(NEW, init);
      var n := (c.total + |last|) % U64;
      SameButTotal(c, Whole(init), n);
      AbsorbKeeps(c.(total := n), Whole(init), last);
      AbsorbTotal(c.(total := n), last);
      AddMod(|Whole(init)|, |last|);
    }
  }

  lemma SameButTotal(c: Ctx, m: seq<byte>, n: nat)
    requires Represents(c, m)
    ensures Represents(c.(total := n), m)
  {
  }

  lemma AddMod(a: nat, b: nat)
    ensures (a % U64 + b) % U64 == (a + b) % U64
  {
    assert a == a / U64 * U64 + a % U64;
    ModShift(a / U64, a % U64 + b);
  }

  lemma EmptyHash()
    ensures HashBlocks([]) == INIT && Represents(NEW, [])
  {
  }

  lemma LastBlock(a: seq<byte>, b: Block)
    requires |a| % 64 == 0
    ensures HashBlocks(a + b) == Compressed(HashBlocks(a), b)
  {
    hide Compressed;
    assert (a + b)[..|a + b| - 64] == a && (a + b)[|a + b| - 64..] == b;
  }

  /** What the last block of a padded message is made of. */
  lemma FinishIs(c: Ctx, m: seq<byte>)
    requires Represents(c, m) && c.total == |m| % U64
    ensures (|m| + 1 + ZeroBytes(|m|) + 8) % 64 == 0
    ensures Finish(c) == Output(HashBlocks(m + [0x80] + Zeros(ZeroBytes(|m|)) + Be64(8 * |m| % U64)))
  {
    hide Compressed, Absorb, PadTo56, Output, HashBlocks, Be64, Zeros, Represents, ZeroBytes;
    FilledIs(c, m);
    AbsorbKeeps(c, m, [0x80]);
    var c1 := Absorb(c, [0x80]);
    FilledIs(c1, m + [0x80]);
    PadKeeps(c1, m + [0x80]);
    PadZeros(|m|);
    var p, m1 := PadTo56(c1), m + [0x80] + Zeros(ZeroBytes(|m|));
    Bits(c.total, |m|);
    FinalBlock(p, m1, Be64(8 * |m| % U64));
  }

  lemma FinalBlock(p: Ctx, m: seq<byte>, len: seq<byte>)
    requires Represents(p, m) && p.filled == 56 && |len| == 8 && (|m| + 8) % 64 == 0
    ensures Compressed(p.state, Put(p.block, 56, len)) == HashBlocks(m + len)
  {
    hide Compressed, HashBlocks;
    var b := p.block[..56] + len;
    assert Put(p.block, 56, len) == b;
    LastBlock(m[..|m| - 56], b);
    assert m[..|m| - 56] + b == m + len;
  }

  lemma Bits(total: nat, n: nat)
    requires total == n % U64
    ensures total * 8 % U64 == 8 * n % U64
  {
    var q := n / U64;
    assert n == q * U64 + total;
    assert 8 * n == (8 * q) * U64 + total * 8;
    ModShift(8 * q, total * 8);
  }

  lemma ModShift(q: nat, r: nat)
    ensures (q * U64 + r) % U64 == r % U64
  {
  }

  /** However a message is cut into pieces, the digest is that of the whole. */
  lemma StreamingIsOneShot(pieces: seq<seq<byte>>)
    ensures Finish(UpdateAll(NEW, pieces)) == Digest(Whole(pieces))
  {
    hide Finish, Represents, HashBlocks, Update, UpdateAll, Output, Be64, Zeros, ZeroBytes, Whole;
    UpdatesRepresent(pieces);
    FinishIs(UpdateAll(NEW, pieces), Whole(pieces));
    OneShot(Whole(pieces));
    FinishIs(Update(NEW, Whole(pieces)), Whole(pieces));
  }

  lemma OneShot(m: seq<byte>)
    ensures Represents(Update(NEW, m), m) && Update(NEW, m).total == |m| % U64
  {
    hide Represents;
    UpdatesRepresent([m]);
    assert [m][..0] == [];
    assert UpdateAll(NEW, []) == NEW && UpdateAll(NEW, [m]) == Update(NEW, m);
    assert Whole([]) == [] && Whole([m]) == [] + m == m;
  }

  /** And for messages shorter than 2^64 bits that digest is the standard's. */
  lemma DigestIsFips(m: seq<byte>)
    requires 8 * |m| < U64
    ensures Digest(m) == Fips(m)
  {
    hide Finish, Represents, HashBlocks, Update, Output, Be64, Zeros, ZeroBytes;
    OneShot(m);
    FinishIs(Update(NEW, m), m);
    assert m + [0x80] + Zeros(ZeroBytes(|m|)) + Be64(8 * |m|) == m + Padding(|m|);
  }

  lemma DigestLength(m: seq<byte>)
    ensures |Digest(m)| == 32
  {
  }

  // ---- the kernel's own form ------------------------------------------------------------------------

  function VarsOf(s: seq<Word>): Vars
    requires |s| == 8
  {
    Vars(s[0], s[1], s[2], s[3], s[4], s[5], s[6], s[7])
  }

  function WordsOf(v: Vars): (s: seq<Word>)
    ensures |s| == 8 && VarsOf(s) == v
  {
    [v.a, v.b, v.c, v.d, v.e, v.f, v.g, v.h]
  }

  lemma AddsEach(s: seq<Word>, t: seq<Word>, v: Vars)
    requires |s| == |t| == 8
    requires forall j | 0 <= j < 8 :: t[j] == Plus(s[j], WordsOf(v)[j])
    ensures VarsOf(t) == Add(VarsOf(s), v)
  {
    hide Plus;
  }

  lemma Reorder(a: Word, b: Word, c: Word, d: Word)
    ensures Plus4(a, b, c, d) == Plus4(d, c, b, a)
  {
  }

  class Hasher {
    const state: array<Word>
    const block: array<byte>
    var filled: nat
    var total: nat

    ghost predicate Valid()
      reads this
    {
      state as object != block && state.Length == 8 && block.Length == 64 && filled < 64 && total < U64
    }

    ghost function View(): Ctx
      requires Valid()
      reads this, state, block
    {
      Ctx(VarsOf(state[..]), block[..], filled, total)
    }

    constructor ()
      ensures Valid() && View() == NEW && fresh(state) && fresh(block)
    {
      state := new Word[8](i requires 0 <= i < 8 =>
        [0x6a09e667, 0xbb67ae85, 0x3c6ef372, 0xa54ff53a, 0x510e527f, 0x9b05688c, 0x1f83d9ab, 0x5be0cd19][i]);
      block := new byte[64](_ => 0);
      filled, total := 0, 0;
      new;
      assert block[..] == Zeros(64);
    }

    /** The schedule and the rounds. */
    method Compress(b: Block)
      requires Valid()
      modifies state
      ensures VarsOf(state[..]) == Compressed(old(VarsOf(state[..])), b)
    {
      hide Schedule, Rounds, Plus, Add, VarsOf, WordsOf;
      ghost var before := state[..];
      var w := MakeSchedule(b);
      var h := RunRounds(VarsOf(state[..]), w, b);
      var hs := WordsOf(h);
      var i := 0;
      while i < 8
        invariant i <= 8
        invariant forall j | 0 <= j < i :: state[j] == Plus(before[j], hs[j])
        invariant forall j | i <= j < 8 :: state[j] == before[j]
      {
        state[i] := Plus(state[i], hs[i]);
        i := i + 1;
      }
      AddsEach(before, state[..], h);
    }

    static method MakeSchedule(b: Block) returns (w: seq<Word>)
      ensures |w| == 64 && forall j | 0 <= j < 64 :: w[j] == Schedule(b, j)
    {
      hide BigWord, Sigma0, Sigma1, Plus4;
      w := [];
      var i := 0;
      while i < 16
        invariant i <= 16 && |w| == i && forall j | 0 <= j < i :: w[j] == Schedule(b, j)
      {
        w := w + [BigWord(b, i)];
        i := i + 1;
      }
      while i < 64
        invariant 16 <= i <= 64 && |w| == i && forall j | 0 <= j < i :: w[j] == Schedule(b, j)
      {
        var s0 := Sigma0(w[i - 15]);
        var s1 := Sigma1(w[i - 2]);
        Reorder(w[i - 16], s0, w[i - 7], s1);
        w := w + [Plus4(w[i - 16], s0, w[i - 7], s1)];
        i := i + 1;
      }
    }

    static method RunRounds(v: Vars, w: seq<Word>, b: Block) returns (h: Vars)
      requires |w| == 64 && forall j | 0 <= j < 64 :: w[j] == Schedule(b, j)
      ensures h == Rounds(v, b, 64)
    {
      hide Schedule, BigSigma0, BigSigma1, Ch, Maj, Plus, RoundConstant;
      h := v;
      var i := 0;
      while i < 64
        invariant i <= 64 && h == Rounds(v, b, i)
      {
        var t1 := Plus(Plus(Plus(Plus(h.h, BigSigma1(h.e)), Ch(h.e, h.f, h.g)), RoundConstant(i)), w[i]);
        var t2 := Plus(BigSigma0(h.a), Maj(h.a, h.b, h.c));
        h := Vars(Plus(t1, t2), h.a, h.b, h.c, Plus(h.d, t1), h.e, h.f, h.g);
        i := i + 1;
      }
    }

    method Fill(piece: seq<byte>)
      requires Valid() && filled + |piece| <= 64
      modifies block
      ensures block[..] == Put(old(block[..]), filled, piece)
    {
      var i := 0;
      while i < |piece|
        invariant i <= |piece|
        invariant block[..] == Put(old(block[..]), filled, piece[..i])
      {
        block[filled + i] := piece[i];
        assert piece[..i + 1] == piece[..i] + [piece[i]];
        i := i + 1;
      }
      assert piece[..|piece|] == piece;
    }

    /** As many bytes of `data` as fit the block, compressing it when it is full. */
    method TakeIn(data: seq<byte>) returns (n: nat)
      requires Valid() && data != []
      modifies this`filled, state, block
      ensures Valid() && total == old(total) && (n, View()) == Take(old(View()), data)
    {
      hide Compressed;
      n := if 64 - filled < |data| then 64 - filled else |data|;
      Fill(data[..n]);
      if filled + n == 64 {
        var b := block[..];
        Compress(b);
        filled := 0;
      } else {
        filled := filled + n;
      }
    }

    method Feed(data: seq<byte>)
      requires Valid()
      modifies this`filled, this`total, state, block
      ensures Valid() && View() == Update(old(View()), data)
    {
      hide Take;
      total := (total + |data|) % U64;
      ghost var start := View();
      var rest := data;
      while rest != []
        invariant Valid() && start.filled < 64 && Absorb(View(), rest) == Absorb(start, data)
        decreases |rest|
      {
        TakeMoves(View(), rest);
        var n := TakeIn(rest);
        rest := rest[n..];
      }
    }

    /** Pad and give the digest; the context is used up. */
    method Close() returns (out: seq<byte>)
      requires Valid()
      modifies this`filled, this`total, state, block
      ensures out == Finish(old(View()))
    {
      hide Compressed, Output, Absorb;
      ghost var start := View();
      var bits := total * 8 % U64;
      FeedKeepingTotal([0x80]);
      ghost var padded := View();
      while filled != 56
        invariant Valid() && padded.filled < 64 && PadTo56(View()) == PadTo56(padded)
        decreases (120 - filled) % 64
      {
        ghost var c := View();
        PadMoves(c);
        FeedKeepingTotal([0]);
      }
      FillAt56(Be64(bits));
      var b := block[..];
      Compress(b);
      out := Output(VarsOf(state[..]));
    }

    /** `update`, and the counter put back. */
    method FeedKeepingTotal(data: seq<byte>)
      requires Valid()
      modifies this`filled, this`total, state, block
      ensures Valid() && View() == Absorb(old(View()), data)
    {
      ghost var c := View();
      var t := total;
      Feed(data);
      total := t;
      TotalApart(c, (c.total + |data|) % U64, data);
      AbsorbTotal(c, data);
    }

    method FillAt56(len: seq<byte>)
      requires Valid() && filled == 56 && |len| == 8
      modifies block
      ensures block[..] == Put(old(block[..]), 56, len)
    {
      Fill(len);
    }
  }

  lemma PadMoves(c: Ctx)
    requires c.filled < 64 && c.filled != 56
    ensures (120 - Absorb(c, [0]).filled) % 64 < (120 - c.filled) % 64
  {
    hide Compressed;
    assert Absorb(c, [0]) == Take(c, [0]).1 by { assert [0][1..] == []; }
  }

  /** The count travels beside the rest. */
  lemma {:induction false} TotalApart(c: Ctx, n: nat, data: seq<byte>)
    requires c.filled < 64
    ensures Absorb(c.(total := n), data) == Absorb(c, data).(total := n)
    decreases |data|
  {
    hide Compressed;
    if data != [] {
      TakeMoves(c, data);
      TotalApart(Take(c, data).1, n, data[Take(c, data).0..]);
    }
  }
}
