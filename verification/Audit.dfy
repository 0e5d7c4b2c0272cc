/** The action log: records chained by hash in a reserved region, four to a sector. Calls are taken one at a time. */
module Audit {
  import opened Wrappers
  import opened Bytes
  import opened Arithmetic

  const RECORD: nat := 128
  const PER_SECTOR: nat := 4
  const NAME_BYTES: nat := 32
  const DETAIL_BYTES: nat := 40
  const HASH_AT: nat := 120
  const MAGIC: nat := 0x4A5F_4155_4449_5430
  const BASIS: nat := 0xcbf2_9ce4_8422_2325
  const PRIME: nat := 0x100_0000_01B3

  const NO_LOG := "no audit log"
  const LOG_FULL := "audit log is full"

  // ---- the hash ---------------------------------------------------------------------------------------------

  function Pow2(n: nat): (p: nat)
    ensures p > 0
  {
    if n == 0 then 1 else 2 * Pow2(n - 1)
  }

  /** Bitwise exclusive or of the low `n` bits. */
  function Xor(a: nat, b: nat, n: nat): (r: nat)
    ensures r < Pow2(n)
    decreases n
  {
    if n == 0 then 0 else 2 * Xor(a / 2, b / 2, n - 1) + (a + b) % 2
  }

  lemma LastBit(a: nat, b: nat, c: nat, x: nat, y: nat)
    requires 2 * x + (a + b) % 2 == 2 * y + (a + c) % 2
    ensures x == y && b % 2 == c % 2
  {
    assert (a + b) % 2 == (a + c) % 2;
  }

  lemma {:induction false} XorInjective(a: nat, b: nat, c: nat, n: nat)
    requires b < Pow2(n) && c < Pow2(n) && Xor(a, b, n) == Xor(a, c, n)
    ensures b == c
    decreases n
  {
    if n > 0 {
      LastBit(a, b, c, Xor(a / 2, b / 2, n - 1), Xor(a / 2, c / 2, n - 1));
      XorInjective(a / 2, b / 2, c / 2, n - 1);
      assert b == 2 * (b / 2) + b % 2 && c == 2 * (c / 2) + c % 2;
    }
  }

  lemma {:induction false} XorCommutes(a: nat, b: nat, n: nat)
    ensures Xor(a, b, n) == Xor(b, a, n)
    decreases n
  {
    if n > 0 { XorCommutes(a / 2, b / 2, n - 1); }
  }

  lemma EightMore(n: nat)
    ensures Pow2(n + 8) == 256 * Pow2(n)
  {
    assert Pow2(n + 2) == 4 * Pow2(n);
    assert Pow2(n + 4) == 16 * Pow2(n);
    assert Pow2(n + 6) == 64 * Pow2(n);
  }

  lemma Width()
    ensures Pow2(64) == U64
  {
    assert Pow2(0) == 1;
    hide Pow2;
    EightMore(0);
    EightMore(8);
    EightMore(16);
    EightMore(24);
    EightMore(32);
    EightMore(40);
    EightMore(48);
    EightMore(56);
  }

  /** One round: fold a byte in, multiply modulo 2^64. */
  function Mix(h: nat, b: byte): (r: nat)
    ensures r < U64
  {
    Xor(h, b, 64) * PRIME % U64
  }

  /** The multiplier is odd, so multiplying by it modulo 2^64 can be undone. */
  lemma PrimeCancels(x: nat, y: nat)
    requires x < U64 && y < U64 && x * PRIME % U64 == y * PRIME % U64
    ensures x == y
  {
    Undo(x);
    Undo(y);
  }

  const INVERSE: nat := 0xce96_5057_aff6_957b
  const CARRIES: nat := 887285111055

  lemma Undo(x: nat)
    requires x < U64
    ensures (x * PRIME % U64) * INVERSE % U64 == x
  {
    var a := x * PRIME / U64;
    var r := x * PRIME % U64;
    assert PRIME * INVERSE == 1 + CARRIES * U64;
    assert r == x * PRIME - a * U64;
    assert r * INVERSE == x * (PRIME * INVERSE) - a * U64 * INVERSE;
    assert x * (PRIME * INVERSE) == x + x * CARRIES * U64;
    var q := x * CARRIES - a * INVERSE;
    assert r * INVERSE == x + q * U64;
    Quotient(r * INVERSE, U64, q, x);
  }

  lemma MixSeparates(h: nat, g: nat, b: byte, c: byte)
    requires h < U64 && g < U64 && ((h == g && b != c) || (h != g && b == c))
    ensures Mix(h, b) != Mix(g, c)
  {
    hide Xor, Pow2;
    Width();
    if Mix(h, b) == Mix(g, c) {
      PrimeCancels(Xor(h, b, 64), Xor(g, c, 64));
      if h == g {
        XorInjective(h, b, c, 64);
      } else {
        XorCommutes(h, b, 64);
        XorCommutes(g, b, 64);
        XorInjective(b, h, g, 64);
      }
    }
  }

  function HashFrom(h: nat, data: seq<byte>): nat
    decreases |data|
  {
    if data == [] then h else HashFrom(Mix(h, data[0]), data[1..])
  }

  lemma {:induction false} HashBound(h: nat, data: seq<byte>)
    requires h < U64
    ensures HashFrom(h, data) < U64
    decreases |data|
  {
    if data != [] { HashBound(Mix(h, data[0]), data[1..]); }
  }

  lemma {:induction false} SeedSeparates(h: nat, g: nat, data: seq<byte>)
    requires h < U64 && g < U64 && h != g
    ensures HashFrom(h, data) != HashFrom(g, data)
    decreases |data|
  {
    hide Mix;
    if data != [] {
      MixSeparates(h, g, data[0], data[0]);
      SeedSeparates(Mix(h, data[0]), Mix(g, data[0]), data[1..]);
    }
  }

  /** Changing one byte anywhere changes the hash. */
  lemma {:induction false} ByteSeparates(h: nat, data: seq<byte>, k: nat, b: byte)
    requires h < U64 && k < |data| && data[k] != b
    ensures HashFrom(h, data[k := b]) != HashFrom(h, data)
    decreases |data|
  {
    hide Mix;
    var other := data[k := b];
    if k == 0 {
      MixSeparates(h, h, data[0], b);
      assert other[1..] == data[1..];
      SeedSeparates(Mix(h, data[0]), Mix(h, b), data[1..]);
    } else {
      assert other[1..] == data[1..][k - 1 := b];
      ByteSeparates(Mix(h, data[0]), data[1..], k - 1, b);
    }
  }

  // ---- records ----------------------------------------------------------------------------------------------

  type Rec = r: seq<byte> | |r| == RECORD witness seq(RECORD, _ => 0)

  function Seed(prev: nat): (h: nat)
    ensures h < U64
  {
    Width();
    Xor(prev, BASIS, 64)
  }

  function HashOf(rec: Rec, prev: nat): (h: nat)
    ensures h < U64
  {
    HashBound(Seed(prev), rec[..HASH_AT]);
    HashFrom(Seed(prev), rec[..HASH_AT])
  }

  datatype Event = Event(tick: nat, actorLength: nat, cap: nat, name: seq<byte>, detail: seq<byte>)

  function Fields(number: nat, prev: nat, e: Event): (fs: seq<Field>)
    ensures FieldsFit(fs, RECORD) && |fs| == 8
  {
    [Field(0, Le(MAGIC, 8)), Field(8, Le(number, 8)), Field(16, Le(prev, 8)), Field(24, Le(e.tick, 8)),
     Field(32, Le(e.actorLength, 8)), Field(40, Le(e.cap, 8)), Field(48, CutTo(e.name, NAME_BYTES)),
     Field(80, CutTo(e.detail, DETAIL_BYTES))]
  }

  function Body(number: nat, prev: nat, e: Event): Rec {
    PutFields(Zeros(RECORD), Fields(number, prev, e), 8)
  }

  /** A record as `append` builds it: the fields, then the hash of everything before the hash. */
  function Record(number: nat, prev: nat, e: Event): Rec {
    Put(Body(number, prev, e), HASH_AT, Le(HashOf(Body(number, prev, e), prev), 8))
  }

  type Disk = map<nat, Sector>

  function SectorAt(disk: Disk, s: nat): Sector { if s in disk then disk[s] else seq(SECTOR_SIZE, _ => 0) }

  function SlotOf(i: nat): (s: nat)
    ensures s + RECORD <= SECTOR_SIZE
  {
    i % PER_SECTOR * RECORD
  }

  function InSector(s: Sector, i: nat): Rec { s[SlotOf(i)..SlotOf(i) + RECORD] }

  function RecordAt(disk: Disk, start: nat, i: nat): Rec { InSector(SectorAt(disk, start + i / PER_SECTOR), i) }

  function WriteAt(disk: Disk, start: nat, i: nat, rec: Rec): Disk {
    disk[start + i / PER_SECTOR := Put(SectorAt(disk, start + i / PER_SECTOR), SlotOf(i), rec)]
  }

  /** Writing one record changes no other, in its sector or elsewhere. */
  lemma WriteOneRecord(disk: Disk, start: nat, i: nat, rec: Rec, j: nat)
    ensures RecordAt(WriteAt(disk, start, i, rec), start, j) == if j == i then rec else RecordAt(disk, start, j)
  {
    hide Put;
    var was, at := SectorAt(disk, start + i / PER_SECTOR), SlotOf(i);
    if j == i {
      PutSame(was, at, rec);
    } else if j / PER_SECTOR == i / PER_SECTOR {
      assert j % PER_SECTOR != i % PER_SECTOR;
      PutOther(was, at, rec, SlotOf(j), SlotOf(j) + RECORD);
    }
  }

  // ---- the log ----------------------------------------------------------------------------------------------

  datatype Log = Log(start: nat, sectors: nat, nextSeq: nat, lastHash: nat, ready: bool)

  function Capacity(log: Log): nat { log.sectors * PER_SECTOR }

  function MagicOf(r: Rec): nat { U64At(r, 0) }
  function SeqOf(r: Rec): nat { U64At(r, 8) }
  function PrevOf(r: Rec): nat { U64At(r, 16) }
  function StoredHash(r: Rec): nat { U64At(r, HASH_AT) }

  datatype State = State(disk: Disk, log: Log)

  function Append(s: State, e: Event): (State, Result<nat>) {
    var log := s.log;
    if !log.ready then (s, Err(NO_LOG))
    else if log.nextSeq >= Capacity(log) then (s, Err(LOG_FULL))
    else
      var rec := Record(log.nextSeq, log.lastHash, e);
      (State(WriteAt(s.disk, log.start, log.nextSeq, rec),
             log.(nextSeq := log.nextSeq + 1, lastHash := HashOf(Body(log.nextSeq, log.lastHash, e), log.lastHash))),
       Ok(log.nextSeq))
  }

  /** The scan for the end of the log: the number after the last record's own, and its hash. */
  function ScanFrom(disk: Disk, start: nat, capacity: nat, i: nat, next: nat, last: nat): (nat, nat)
    requires i <= capacity
    decreases capacity - i
  {
    if i == capacity then (next, last)
    else
      var rec := RecordAt(disk, start, i);
      if MagicOf(rec) != MAGIC then (next, last)
      else ScanFrom(disk, start, capacity, i + 1, (SeqOf(rec) + 1) % U64, StoredHash(rec))
  }

  function Init(disk: Disk, start: nat, sectors: nat): Log {
    var (next, last) := ScanFrom(disk, start, sectors * PER_SECTOR, 0, 0, 0);
    Log(start, sectors, if next <= sectors * PER_SECTOR then next else sectors * PER_SECTOR, last, true)
  }

  datatype Verified = Verified(records: nat, firstBad: Option<nat>)

  predicate Links(r: Rec, prev: nat) { MagicOf(r) == MAGIC && PrevOf(r) == prev && HashOf(r, prev) == StoredHash(r) }

  function VerifyFrom(disk: Disk, start: nat, count: nat, i: nat, prev: nat): Verified
    requires i <= count
    decreases count - i
  {
    if i == count then Verified(i, None)
    else
      var rec := RecordAt(disk, start, i);
      if !Links(rec, prev) then Verified(i, Some(i))
      else VerifyFrom(disk, start, count, i + 1, StoredHash(rec))
  }

  function Verify(s: State): Verified { VerifyFrom(s.disk, s.log.start, s.log.nextSeq, 0, 0) }

  // ---- a log built by appends -------------------------------------------------------------------------------

  /** The hash record `i` must carry on from. */
  function Before(disk: Disk, start: nat, i: nat): nat {
    if i == 0 then 0 else StoredHash(RecordAt(disk, start, i - 1))
  }

  predicate Intact(disk: Disk, start: nat, i: nat) {
    Links(RecordAt(disk, start, i), Before(disk, start, i)) && SeqOf(RecordAt(disk, start, i)) == i
  }

  predicate Blank(r: Rec) { MagicOf(r) != MAGIC }

  predicate Inv(s: State) {
    var log := s.log;
    && log.ready && log.nextSeq <= Capacity(log) < U64
    && (forall i | 0 <= i < log.nextSeq :: Intact(s.disk, log.start, i))
    && (forall i | log.nextSeq <= i < Capacity(log) :: Blank(RecordAt(s.disk, log.start, i)))
    && log.lastHash == Before(s.disk, log.start, log.nextSeq)
  }

  lemma HashSplit(number: nat, prev: nat, e: Event)
    ensures Record(number, prev, e)[..HASH_AT] == Body(number, prev, e)[..HASH_AT]
    ensures HashOf(Record(number, prev, e), prev) == HashOf(Body(number, prev, e), prev)
    ensures StoredHash(Record(number, prev, e)) == HashOf(Body(number, prev, e), prev)
  {
    hide HashFrom, Le, FromLe, Body;
    var body := Body(number, prev, e);
    var h := HashOf(body, prev);
    PutOther(body, HASH_AT, Le(h, 8), 0, HASH_AT);
    assert Record(number, prev, e)[0..HASH_AT] == Record(number, prev, e)[..HASH_AT];
    assert body[0..HASH_AT] == body[..HASH_AT];
    PutSame(body, HASH_AT, Le(h, 8));
    ReadU64(Record(number, prev, e), HASH_AT, h);
  }

  /** A field of the body is the same field of the record. */
  lemma BodyField(number: nat, prev: nat, e: Event, i: nat, v: nat)
    requires i < 6 && v < U64 && Fields(number, prev, e)[i].data == Le(v, 8)
    ensures U64At(Record(number, prev, e), 8 * i) == v
  {
    hide Le, FromLe, PutFields, HashOf;
    var fs, rec := Fields(number, prev, e), Record(number, prev, e);
    FieldAt(Zeros(RECORD), fs, i);
    PutOther(Body(number, prev, e), HASH_AT, Le(HashOf(Body(number, prev, e), prev), 8), 8 * i, 8 * i + 8);
    ReadU64(rec, 8 * i, v);
  }

  /** A record reads back as what happened: number, time, authority, and as much of the name and detail as fits. */
  lemma RecordReads(number: nat, prev: nat, e: Event)
    requires number < U64 && prev < U64
    ensures MagicOf(Record(number, prev, e)) == MAGIC && SeqOf(Record(number, prev, e)) == number && PrevOf(Record(number, prev, e)) == prev
    ensures e.tick < U64 ==> U64At(Record(number, prev, e), 24) == e.tick
    ensures e.actorLength < U64 ==> U64At(Record(number, prev, e), 32) == e.actorLength
    ensures e.cap < U64 ==> U64At(Record(number, prev, e), 40) == e.cap
    ensures var n := CutTo(e.name, 32); Record(number, prev, e)[48..48 + |n|] == n
    ensures var d := CutTo(e.detail, 40); Record(number, prev, e)[80..80 + |d|] == d
    ensures Links(Record(number, prev, e), prev)
  {
    hide Le, FromLe, PutFields, HashOf, Record, Fields;
    HeaderReads(number, prev, e);
    EventReads(number, prev, e);
    TextReads(number, prev, e);
    HashSplit(number, prev, e);
  }

  lemma HeaderReads(number: nat, prev: nat, e: Event)
    requires number < U64 && prev < U64
    ensures var r := Record(number, prev, e); MagicOf(r) == MAGIC && SeqOf(r) == number && PrevOf(r) == prev
  {
    hide Le, FromLe, PutFields, HashOf, Record, CutTo;
    BodyField(number, prev, e, 0, MAGIC);
    BodyField(number, prev, e, 1, number);
    BodyField(number, prev, e, 2, prev);
  }

  lemma EventReads(number: nat, prev: nat, e: Event)
    ensures e.tick < U64 ==> U64At(Record(number, prev, e), 24) == e.tick
    ensures e.actorLength < U64 ==> U64At(Record(number, prev, e), 32) == e.actorLength
    ensures e.cap < U64 ==> U64At(Record(number, prev, e), 40) == e.cap
  {
    hide Le, FromLe, PutFields, HashOf, Record, CutTo;
    if e.tick < U64 { BodyField(number, prev, e, 3, e.tick); }
    if e.actorLength < U64 { BodyField(number, prev, e, 4, e.actorLength); }
    if e.cap < U64 { BodyField(number, prev, e, 5, e.cap); }
  }

  lemma TextReads(number: nat, prev: nat, e: Event)
    ensures var n := CutTo(e.name, 32); Record(number, prev, e)[48..48 + |n|] == n
    ensures var d := CutTo(e.detail, 40); Record(number, prev, e)[80..80 + |d|] == d
  {
    hide Le, FromLe, PutFields, HashOf, Record, CutTo;
    BodyText(number, prev, e, 6);
    BodyText(number, prev, e, 7);
  }

  lemma BodyText(number: nat, prev: nat, e: Event, i: nat)
    requires 6 <= i < 8
    ensures var f := Fields(number, prev, e)[i]; Record(number, prev, e)[f.at..f.at + |f.data|] == f.data
  {
    hide Le, FromLe, PutFields, HashOf;
    var fs := Fields(number, prev, e);
    FieldAt(Zeros(RECORD), fs, i);
    PutOther(Body(number, prev, e), HASH_AT, Le(HashOf(Body(number, prev, e), prev), 8), fs[i].at, fs[i].at + |fs[i].data|);
  }

  /** An append keeps the chain and every earlier record, byte for byte; it fails exactly when there is no log or no room. */
  lemma AppendKeeps(s: State, e: Event)
    requires Inv(s)
    ensures var (t, r) := Append(s, e);
      && Inv(t) && t.log.start == s.log.start && t.log.sectors == s.log.sectors
      && r == (if s.log.nextSeq < Capacity(s.log) then Ok(s.log.nextSeq) else Err(LOG_FULL))
      && t.log.nextSeq == s.log.nextSeq + (if r.Ok? then 1 else 0)
      && (forall j | 0 <= j < s.log.nextSeq :: RecordAt(t.disk, s.log.start, j) == RecordAt(s.disk, s.log.start, j))
      && (r.Ok? ==> RecordAt(t.disk, s.log.start, r.value) == Record(s.log.nextSeq, s.log.lastHash, e))
  {
    hide Record, RecordAt, WriteAt, HashOf, U64At;
    var (t, r) := Append(s, e);
    if s.log.nextSeq < Capacity(s.log) {
      var n, start := s.log.nextSeq, s.log.start;
      var rec := Record(n, s.log.lastHash, e);
      RecordReads(n, s.log.lastHash, e);
      HashSplit(n, s.log.lastHash, e);
      forall j ensures RecordAt(t.disk, start, j) == if j == n then rec else RecordAt(s.disk, start, j) {
        WriteOneRecord(s.disk, start, n, rec, j);
      }
      forall i | 0 <= i <= n ensures Intact(t.disk, start, i) {
        assert i < n ==> Intact(s.disk, start, i);
      }
    }
  }

  /** On a log built by appends the walk finds no bad record. */
  lemma {:induction false} VerifyClean(s: State, i: nat)
    requires Inv(s) && i <= s.log.nextSeq
    ensures VerifyFrom(s.disk, s.log.start, s.log.nextSeq, i, Before(s.disk, s.log.start, i)) == Verified(s.log.nextSeq, None)
    decreases s.log.nextSeq - i
  {
    hide RecordAt, HashOf, U64At;
    if i < s.log.nextSeq {
      assert Intact(s.disk, s.log.start, i);
      VerifyClean(s, i + 1);
    }
  }

  lemma {:induction false} ScanFinds(s: State, i: nat)
    requires Inv(s) && i <= s.log.nextSeq
    ensures ScanFrom(s.disk, s.log.start, Capacity(s.log), i, i, Before(s.disk, s.log.start, i)) == (s.log.nextSeq, s.log.lastHash)
    decreases s.log.nextSeq - i
  {
    hide RecordAt, HashOf, U64At;
    var rec := RecordAt(s.disk, s.log.start, i);
    if i < s.log.nextSeq {
      assert Intact(s.disk, s.log.start, i);
      ScanFinds(s, i + 1);
    } else if i < Capacity(s.log) {
      assert Blank(rec);
    }
  }

  /** After a restart the log is found again exactly: its length and its last hash. */
  lemma InitRecovers(s: State)
    requires Inv(s)
    ensures Init(s.disk, s.log.start, s.log.sectors) == s.log
  {
    ScanFinds(s, 0);
  }

  datatype Op = DoAppend(event: Event) | DoRestart

  function Apply(s: State, op: Op): State {
    match op
    case DoAppend(e) => Append(s, e).0
    case DoRestart => s.(log := Init(s.disk, s.log.start, s.log.sectors))
  }

  function Run(s: State, ops: seq<Op>): State
    decreases |ops|
  {
    if ops == [] then s else Run(Apply(s, ops[0]), ops[1..])
  }

  lemma {:induction false} RunKeeps(s: State, ops: seq<Op>)
    requires Inv(s)
    ensures Inv(Run(s, ops)) && s.log.nextSeq <= Run(s, ops).log.nextSeq
    ensures Run(s, ops).log.start == s.log.start && Run(s, ops).log.sectors == s.log.sectors
    ensures forall j | 0 <= j < s.log.nextSeq :: RecordAt(Run(s, ops).disk, s.log.start, j) == RecordAt(s.disk, s.log.start, j)
    decreases |ops|
  {
    hide Inv, RecordAt, Append;
    if ops != [] {
      match ops[0] {
        case DoAppend(e) => AppendKeeps(s, e);
        case DoRestart => InitRecovers(s);
      }
      RunKeeps(Apply(s, ops[0]), ops[1..]);
    }
  }

  predicate Zeroed(disk: Disk, start: nat, sectors: nat) {
    forall t | start <= t < start + sectors :: SectorAt(disk, t) == Zeros(SECTOR_SIZE)
  }

  lemma ZeroIsBlank(disk: Disk, start: nat, sectors: nat, i: nat)
    requires Zeroed(disk, start, sectors) && i < sectors * PER_SECTOR
    ensures Blank(RecordAt(disk, start, i))
  {
    hide FromLe;
    var rec := RecordAt(disk, start, i);
    var t := start + i / PER_SECTOR;
    assert SectorAt(disk, t) == Zeros(SECTOR_SIZE);
    assert rec[0..8] == Zeros(8);
    FromLeZeros(8);
  }

  /**
   Over every run of appends and restarts on a zeroed region: the walk finds no bad record and counts them all, a restart
   finds the log as it was, and no record once written is ever changed.
   */
  lemma EveryRunVerifies(disk: Disk, start: nat, sectors: nat, ops: seq<Op>)
    requires Zeroed(disk, start, sectors) && sectors * PER_SECTOR < U64
    ensures var s := Run(State(disk, Init(disk, start, sectors)), ops);
      && Inv(s) && Verify(s) == Verified(s.log.nextSeq, None)
      && Init(s.disk, start, sectors) == s.log
  {
    hide RecordAt, U64At;
    var s0 := State(disk, Init(disk, start, sectors));
    forall i | 0 <= i < sectors * PER_SECTOR ensures Blank(RecordAt(disk, start, i)) { ZeroIsBlank(disk, start, sectors, i); }
    assert s0.log == Log(start, sectors, 0, 0, true);
    assert Inv(s0);
    RunKeeps(s0, ops);
    VerifyClean(Run(s0, ops), 0);
    InitRecovers(Run(s0, ops));
  }

  // ---- tampering --------------------------------------------------------------------------------------------

  /** Byte `k` of record `i` set to `b` behind the log's back. */
  function Tamper(disk: Disk, start: nat, i: nat, k: nat, b: byte): Disk
    requires k < RECORD
  {
    WriteAt(disk, start, i, RecordAt(disk, start, i)[k := b])
  }

  lemma TamperedSlices(r: Rec, k: nat, b: byte)
    requires k < RECORD && r[k] != b
    ensures k < HASH_AT ==> r[k := b][..HASH_AT] == r[..HASH_AT][k := b] && StoredHash(r[k := b]) == StoredHash(r)
    ensures k >= HASH_AT ==> r[k := b][..HASH_AT] == r[..HASH_AT] && StoredHash(r[k := b]) != StoredHash(r)
  {
    hide FromLe;
    var t := r[k := b];
    if k < HASH_AT {
      assert t[HASH_AT..HASH_AT + 8] == r[HASH_AT..HASH_AT + 8];
    } else {
      var j := k - HASH_AT;
      assert t[HASH_AT..HASH_AT + 8][j] == b && r[HASH_AT..HASH_AT + 8][j] == r[k];
      FromLeSeparates(t[HASH_AT..HASH_AT + 8], r[HASH_AT..HASH_AT + 8]);
    }
  }

  lemma {:induction false} FromLeSeparates(a: seq<byte>, b: seq<byte>)
    requires |a| == |b| && a != b
    ensures FromLe(a) != FromLe(b)
    decreases |a|
  {
    assert a == [a[0]] + a[1..] && b == [b[0]] + b[1..];
    if a[0] == b[0] {
      FromLeSeparates(a[1..], b[1..]);
    } else {
      assert (a[0] + 256 * FromLe(a[1..])) % 256 == a[0];
      assert (b[0] + 256 * FromLe(b[1..])) % 256 == b[0];
    }
  }

  /** A record with one byte changed no longer links. */
  lemma TamperedBreaks(r: Rec, prev: nat, k: nat, b: byte)
    requires Links(r, prev) && k < RECORD && r[k] != b
    ensures !Links(r[k := b], prev)
  {
    hide HashFrom, U64At;
    TamperedSlices(r, k, b);
    if k < HASH_AT { ByteSeparates(Seed(prev), r[..HASH_AT], k, b); }
  }

  lemma {:induction false} VerifyUpTo(disk: Disk, start: nat, count: nat, j: nat, i: nat)
    requires j <= i < count
    requires forall x | 0 <= x < i :: Links(RecordAt(disk, start, x), Before(disk, start, x))
    requires !Links(RecordAt(disk, start, i), Before(disk, start, i))
    ensures VerifyFrom(disk, start, count, j, Before(disk, start, j)) == Verified(i, Some(i))
    decreases i - j
  {
    hide RecordAt, Links, U64At;
    if j < i { VerifyUpTo(disk, start, count, j + 1, i); }
  }

  lemma TamperedRecords(s: State, i: nat, k: nat, b: byte)
    requires Inv(s) && i < s.log.nextSeq && k < RECORD && RecordAt(s.disk, s.log.start, i)[k] != b
    ensures var d := Tamper(s.disk, s.log.start, i, k, b);
      && (forall x | x != i :: RecordAt(d, s.log.start, x) == RecordAt(s.disk, s.log.start, x))
      && RecordAt(d, s.log.start, i) == RecordAt(s.disk, s.log.start, i)[k := b]
      && (forall x | 0 <= x < i :: Links(RecordAt(d, s.log.start, x), Before(d, s.log.start, x)))
      && !Links(RecordAt(d, s.log.start, i), Before(d, s.log.start, i))
  {
    hide RecordAt, WriteAt, Links, U64At;
    var start, d := s.log.start, Tamper(s.disk, s.log.start, i, k, b);
    var rec := RecordAt(s.disk, start, i);
    forall x: nat ensures RecordAt(d, start, x) == if x == i then rec[k := b] else RecordAt(s.disk, start, x) {
      WriteOneRecord(s.disk, start, i, rec[k := b], x);
    }
    assert Intact(s.disk, start, i);
    TamperedBreaks(rec, Before(s.disk, start, i), k, b);
    forall x | 0 <= x < i ensures Links(RecordAt(d, start, x), Before(d, start, x)) { assert Intact(s.disk, start, x); }
  }

  /** Any one byte of any record changed: the walk reports that very record, and vouches for exactly those before it. */
  lemma TamperLocated(s: State, i: nat, k: nat, b: byte)
    requires Inv(s) && i < s.log.nextSeq && k < RECORD && RecordAt(s.disk, s.log.start, i)[k] != b
    ensures Verify(s.(disk := Tamper(s.disk, s.log.start, i, k, b))) == Verified(i, Some(i))
  {
    hide RecordAt, Tamper, Links, U64At;
    TamperedRecords(s, i, k, b);
    VerifyUpTo(Tamper(s.disk, s.log.start, i, k, b), s.log.start, s.log.nextSeq, 0, i);
  }

  /** A record the scan passes: a record by its magic, with its own number. */
  predicate Passes(disk: Disk, start: nat, x: nat) {
    MagicOf(RecordAt(disk, start, x)) == MAGIC && SeqOf(RecordAt(disk, start, x)) == x
  }

  lemma {:induction false} ScanPast(disk: Disk, start: nat, capacity: nat, j: nat, i: nat)
    requires j <= i <= capacity < U64 && forall x | j <= x < i :: Passes(disk, start, x)
    ensures ScanFrom(disk, start, capacity, j, j, Before(disk, start, j)) == ScanFrom(disk, start, capacity, i, i, Before(disk, start, i))
    decreases i - j
  {
    hide RecordAt, U64At;
    if j < i {
      assert Passes(disk, start, j);
      ScanPast(disk, start, capacity, j + 1, i);
    }
  }

  lemma FieldSame(r: Rec, k: nat, b: byte, at: nat)
    requires k < RECORD && at + 8 <= RECORD && r[k] != b
    ensures U64At(r[k := b], at) == U64At(r, at) <==> !(at <= k < at + 8)
  {
    hide FromLe;
    var t := r[k := b];
    if at <= k < at + 8 {
      assert t[at..at + 8][k - at] == b && r[at..at + 8][k - at] == r[k];
      FromLeSeparates(t[at..at + 8], r[at..at + 8]);
    } else {
      assert t[at..at + 8] == r[at..at + 8];
    }
  }

  /** The length a restart finds after byte `k` of record `i` became `b`, before it is held to the capacity. */
  function Refound(s: State, i: nat, k: nat, b: byte): nat
    requires k < RECORD
  {
    if k < 8 then i
    else if k < 16 && i + 1 == s.log.nextSeq then (SeqOf(RecordAt(s.disk, s.log.start, i)[k := b]) + 1) % U64
    else s.log.nextSeq
  }

  lemma ScanTampered(s: State, i: nat, k: nat, b: byte)
    requires Inv(s) && i < s.log.nextSeq && k < RECORD && RecordAt(s.disk, s.log.start, i)[k] != b
    ensures ScanFrom(Tamper(s.disk, s.log.start, i, k, b), s.log.start, Capacity(s.log), 0, 0, 0).0 == Refound(s, i, k, b)
  {
    hide RecordAt, Tamper, Links, U64At;
    var start, n, cap, d := s.log.start, s.log.nextSeq, Capacity(s.log), Tamper(s.disk, s.log.start, i, k, b);
    TamperedRecords(s, i, k, b);
    forall x | 0 <= x < n && x != i ensures Passes(d, start, x) {
      assert Intact(s.disk, start, x);
      LinkedMagic(RecordAt(s.disk, start, x), Before(s.disk, start, x));
    }
    ScanPast(d, start, cap, 0, i);
    var rec := RecordAt(s.disk, start, i);
    assert Intact(s.disk, start, i);
    LinkedMagic(rec, Before(s.disk, start, i));
    FieldSame(rec, k, b, 0);
    FieldSame(rec, k, b, 8);
    if k >= 8 {
      assert n < cap ==> Blank(RecordAt(s.disk, start, n));
      ScanRest(d, start, cap, i, n);
    }
  }

  /** Past a record whose number is not its own, the scan ends with that number if it is the last, and unharmed if not. */
  lemma ScanRest(d: Disk, start: nat, cap: nat, i: nat, n: nat)
    requires i < n <= cap < U64 && MagicOf(RecordAt(d, start, i)) == MAGIC
    requires forall x | i < x < n :: Passes(d, start, x)
    requires n < cap ==> Blank(RecordAt(d, start, n))
    ensures ScanFrom(d, start, cap, i, i, Before(d, start, i)).0
      == if i + 1 == n then (SeqOf(RecordAt(d, start, i)) + 1) % U64 else n
  {
    hide RecordAt, U64At;
    if i + 1 < n {
      assert Passes(d, start, i + 1);
      ScanPast(d, start, cap, i + 2, n);
    }
  }

  lemma LinkedMagic(r: Rec, prev: nat)
    requires Links(r, prev)
    ensures MagicOf(r) == MAGIC
  {
  }

  lemma {:induction false} VerifyAll(disk: Disk, start: nat, count: nat, j: nat)
    requires j <= count && forall x | 0 <= x < count :: Links(RecordAt(disk, start, x), Before(disk, start, x))
    ensures VerifyFrom(disk, start, count, j, Before(disk, start, j)) == Verified(count, None)
    decreases count - j
  {
    hide RecordAt, Links, U64At;
    if j < count { VerifyAll(disk, start, count, j + 1); }
  }

  /**
   After a restart the same tampering is reported if and only if recovery still counts the record: it did not hit the magic,
   nor make the last record's number smaller (or all ones). Otherwise the log comes back shorter, and verifies clean.
   */
  lemma TamperAfterRestart(s: State, i: nat, k: nat, b: byte)
    requires Inv(s) && i < s.log.nextSeq && k < RECORD && RecordAt(s.disk, s.log.start, i)[k] != b
    ensures var d := Tamper(s.disk, s.log.start, i, k, b);
      var v := Verify(State(d, Init(d, s.log.start, s.log.sectors)));
      var number := SeqOf(RecordAt(s.disk, s.log.start, i)[k := b]);
      && (v == Verified(i, Some(i)) <==>
            k >= 8 && (k < 16 && i + 1 == s.log.nextSeq ==> i <= number && number + 1 < U64))
      && (v != Verified(i, Some(i)) ==> v.firstBad == None && v.records <= i)
  {
    hide RecordAt, Tamper, Links, U64At, ScanFrom, VerifyFrom;
    var start, d := s.log.start, Tamper(s.disk, s.log.start, i, k, b);
    var after := Init(d, start, s.log.sectors);
    TamperedRecords(s, i, k, b);
    ScanTampered(s, i, k, b);
    if after.nextSeq > i {
      VerifyUpTo(d, start, after.nextSeq, 0, i);
    } else {
      VerifyAll(d, start, after.nextSeq, 0);
    }
  }

  // ---- the source's loops -----------------------------------------------------------------------------------

  method HashRecord(rec: Rec, prev: nat) returns (h: nat)
    ensures h == HashOf(rec, prev)
  {
    hide Mix;
    h := Seed(prev);
    for k := 0 to HASH_AT
      invariant HashFrom(h, rec[k..HASH_AT]) == HashFrom(Seed(prev), rec[..HASH_AT])
    {
      h := Mix(h, rec[k]);
      assert rec[k..HASH_AT][1..] == rec[k + 1..HASH_AT];
    }
  }

  class ActionLog {
    var disk: Disk
    var log: Log

    function View(): State reads this { State(disk, log) }

    method FindEnd(start: nat, sectors: nat)
      modifies this`log
      ensures log == Init(disk, start, sectors)
    {
      hide U64At, InSector;
      var next: nat, last: nat, done := 0, 0, false;
      ghost var all := ScanFrom(disk, start, sectors * PER_SECTOR, 0, 0, 0);
      var s := 0;
      while s < sectors && !done
        invariant s <= sectors
        invariant if done then all == (next, last) else all == ScanFrom(disk, start, sectors * PER_SECTOR, s * PER_SECTOR, next, last)
      {
        next, last, done := ScanSector(start, sectors, s, next, last);
        s := s + 1;
      }
      log := Log(start, sectors, if next <= sectors * PER_SECTOR then next else sectors * PER_SECTOR, last, true);
    }

    /** One sector of the scan: where it stands after the sector, and whether it has met the end. */
    method ScanSector(start: nat, sectors: nat, s: nat, next0: nat, last0: nat) returns (next: nat, last: nat, done: bool)
      requires s < sectors
      ensures var was := ScanFrom(disk, start, sectors * PER_SECTOR, s * PER_SECTOR, next0, last0);
        if done then was == (next, last) else was == ScanFrom(disk, start, sectors * PER_SECTOR, (s + 1) * PER_SECTOR, next, last)
    {
      hide U64At, InSector;
      next, last := next0, last0;
      var buf := SectorAt(disk, start + s);
      for r := 0 to PER_SECTOR
        invariant ScanFrom(disk, start, sectors * PER_SECTOR, s * PER_SECTOR + r, next, last)
          == ScanFrom(disk, start, sectors * PER_SECTOR, s * PER_SECTOR, next0, last0)
      {
        var i := s * PER_SECTOR + r;
        assert i / PER_SECTOR == s;
        var rec := InSector(buf, i);
        if MagicOf(rec) != MAGIC { return next, last, true; }
        next, last := (SeqOf(rec) + 1) % U64, StoredHash(rec);
      }
      return next, last, false;
    }

    method AppendEvent(e: Event) returns (r: Result<nat>)
      modifies this
      ensures (View(), r) == Append(old(View()), e)
    {
      hide HashOf, Body;
      if !log.ready { return Err(NO_LOG); }
      var number, prev := log.nextSeq, log.lastHash;
      if number >= log.sectors * PER_SECTOR { return Err(LOG_FULL); }
      var rec := Body(number, prev, e);
      var hash := HashRecord(rec, prev);
      rec := Put(rec, HASH_AT, Le(hash, 8));
      var sector := log.start + number / PER_SECTOR;
      var buf := SectorAt(disk, sector);
      disk := disk[sector := Put(buf, SlotOf(number), rec)];
      log := log.(nextSeq := number + 1, lastHash := hash);
      return Ok(number);
    }

    method VerifyChain() returns (v: Verified)
      ensures v == Verify(View())
    {
      hide U64At, HashOf, InSector;
      var prev: nat, buf := 0, SectorAt(disk, log.start);
      for i := 0 to log.nextSeq
        invariant i > 0 ==> buf == SectorAt(disk, log.start + (i - 1) / PER_SECTOR)
        invariant VerifyFrom(disk, log.start, log.nextSeq, i, prev) == Verify(View())
      {
        if i % PER_SECTOR == 0 { buf := SectorAt(disk, log.start + i / PER_SECTOR); }
        assert buf == SectorAt(disk, log.start + i / PER_SECTOR);
        var rec := InSector(buf, i);
        var stored := StoredHash(rec);
        var h := HashRecord(rec, prev);
        if MagicOf(rec) != MAGIC || PrevOf(rec) != prev || h != stored { return Verified(i, Some(i)); }
        prev := stored;
      }
      return Verified(log.nextSeq, None);
    }
  }
}
