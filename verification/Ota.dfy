/**
 A/B system updates: two image slots and a one-sector control block, run through any sequence of boots, installs,
 confirmations and power cuts between any two sector writes.
 */
module Ota {
  import opened Wrappers
  import opened Bytes
  import opened J = Jlfs
  import L = JlfsLog
  import H = Sha256

  const CB_MAGIC: nat := 0x4A42_4F4F_5443_4230
  const IMG_MAGIC: nat := 0x4A53_5953_494D_4730
  const MAX_TRIES: nat := 2
  const IMAGE_BYTES: nat := 4096
  const IMAGE_HEADER: nat := 32
  const IMAGE_SECTORS: nat := 8
  const FLAG_HEALTHY: nat := 1

  datatype SlotState = Empty | Unverified | Successful | Failed

  function FromByte(v: byte): SlotState {
    if v == 1 then Unverified else if v == 2 then Successful else if v == 3 then Failed else Empty
  }

  function ToByte(s: SlotState): byte {
    match s
    case Empty => 0
    case Unverified => 1
    case Successful => 2
    case Failed => 3
  }

  // ---- the control block ----------------------------------------------------------------------------

  datatype Control = Control(
    seqno: nat, active: nat, tries: nat, rollbacks: nat, state: seq<SlotState>, version: seq<nat>, digest: seq<seq<byte>>)

  predicate ControlFits(c: Control) {
    && c.seqno < U64 && c.active < 2 && c.tries < 256 && c.rollbacks < 256
    && |c.state| == 2 && |c.version| == 2 && |c.digest| == 2
    && c.version[0] < U64 && c.version[1] < U64 && |c.digest[0]| == 32 && |c.digest[1]| == 32
  }

  function Fields(c: Control): seq<Field>
    requires ControlFits(c)
  {
    [Field(0, Le(CB_MAGIC, 8)), Field(8, Le(c.seqno, 8)),
     Field(16, [c.active, c.tries, c.rollbacks, ToByte(c.state[0]), ToByte(c.state[1])]),
     Field(24, Le(c.version[0], 8)), Field(32, Le(c.version[1], 8)), Field(40, c.digest[0]), Field(72, c.digest[1])]
  }

  function EncodeControl(c: Control): Sector
    requires ControlFits(c)
  {
    Seal(Body(c))
  }

  function DecodeControl(raw: Sector): Option<Control> {
    if U64At(raw, 0) != CB_MAGIC || !Intact(raw) then None
    else Some(Control(U64At(raw, 8), raw[16] % 2, raw[17], raw[18], [FromByte(raw[19]), FromByte(raw[20])],
                      [U64At(raw, 24), U64At(raw, 32)], [raw[40..72], raw[72..104]]))
  }

  lemma FlagBytes(raw: Sector, c: Control)
    requires ControlFits(c) && raw[16..21] == [c.active, c.tries, c.rollbacks, ToByte(c.state[0]), ToByte(c.state[1])]
    ensures raw[16] == c.active && raw[17] == c.tries && raw[18] == c.rollbacks
    ensures [FromByte(raw[19]), FromByte(raw[20])] == c.state
  {
    var f := raw[16..21];
    assert f[0] == raw[16] && f[1] == raw[17] && f[2] == raw[18] && f[3] == raw[19] && f[4] == raw[20];
  }

  function Body(c: Control): Sector
    requires ControlFits(c)
  {
    PutFields(Zeros(SECTOR_SIZE), Fields(c), 7)
  }

  lemma BodyReads(c: Control)
    requires ControlFits(c)
    ensures var b := Body(c);
            && U64At(b, 0) == CB_MAGIC && U64At(b, 8) == c.seqno && U64At(b, 24) == c.version[0] && U64At(b, 32) == c.version[1]
            && b[16..21] == [c.active, c.tries, c.rollbacks, ToByte(c.state[0]), ToByte(c.state[1])]
            && b[40..72] == c.digest[0] && b[72..104] == c.digest[1]
  {
    hide Le, PutFields, ToByte, U64At;
    var z, fs := Zeros(SECTOR_SIZE), Fields(c);
    FieldU64(z, fs, 0, CB_MAGIC);
    FieldU64(z, fs, 1, c.seqno);
    FieldAt(z, fs, 2);
    FieldU64(z, fs, 3, c.version[0]);
    FieldU64(z, fs, 4, c.version[1]);
    FieldAt(z, fs, 5);
    FieldAt(z, fs, 6);
  }

  lemma SealKeepsU64(b: Sector, at: nat)
    requires at + 8 <= CRC_OFF
    ensures U64At(Seal(b), at) == U64At(b, at)
  {
    hide Seal;
    SealKeeps(b, at, at + 8);
  }

  /** What is written to the control sector is what the next boot reads. */
  lemma ControlRoundTrip(c: Control)
    requires ControlFits(c)
    ensures DecodeControl(EncodeControl(c)) == Some(c)
  {
    hide Intact, ToByte, FromByte, Body, Seal, U64At;
    var b := Body(c);
    SealIntact(b);
    BodyReads(c);
    SealKeepsU64(b, 0);
    SealKeepsU64(b, 8);
    SealKeepsU64(b, 24);
    SealKeepsU64(b, 32);
    SealKeeps(b, 16, 21);
    SealKeeps(b, 40, 72);
    SealKeeps(b, 72, 104);
    DecodeIs(Seal(b), c);
  }

  lemma DecodeIs(raw: Sector, c: Control)
    requires ControlFits(c) && Intact(raw) && U64At(raw, 0) == CB_MAGIC && U64At(raw, 8) == c.seqno
    requires U64At(raw, 24) == c.version[0] && U64At(raw, 32) == c.version[1]
    requires raw[16..21] == [c.active, c.tries, c.rollbacks, ToByte(c.state[0]), ToByte(c.state[1])]
    requires raw[40..72] == c.digest[0] && raw[72..104] == c.digest[1]
    ensures DecodeControl(raw) == Some(c)
  {
    hide Intact, ToByte, FromByte, U64At;
    FlagBytes(raw, c);
    assert [c.version[0], c.version[1]] == c.version && [c.digest[0], c.digest[1]] == c.digest;
  }

  // ---- images ---------------------------------------------------------------------------------------

  function ImageByte(version: nat, offset: nat): byte {
    ((((offset * 37) % 256) as bv8) ^ (((version * 1103) % 256) as bv8)) as int
  }

  function Pattern(version: nat, n: nat): (b: seq<byte>)
    ensures |b| == n
  {
    if n == 0 then [] else Pattern(version, n - 1) + [ImageByte(version, n - 1 + IMAGE_HEADER)]
  }

  function BuildImage(version: nat, healthy: bool): (img: seq<byte>)
    ensures |img| == IMAGE_BYTES
  {
    Le(IMG_MAGIC, 8) + Le(version, 8) + Le(if healthy then FLAG_HEALTHY else 0, 8) + Le(IMAGE_BYTES - IMAGE_HEADER, 8)
    + Pattern(version, IMAGE_BYTES - IMAGE_HEADER)
  }

  lemma ImageHeader(version: nat, healthy: bool)
    requires version < U64
    ensures var img := BuildImage(version, healthy);
            && U64At(img, 0) == IMG_MAGIC && U64At(img, 8) == version
            && U64At(img, 16) == if healthy then FLAG_HEALTHY else 0
  {
    hide Le, Pattern;
    var img := BuildImage(version, healthy);
    assert img[0..8] == Le(IMG_MAGIC, 8) && img[8..16] == Le(version, 8);
    assert img[16..24] == Le(if healthy then FLAG_HEALTHY else 0, 8);
    ReadU64(img, 0, IMG_MAGIC);
    ReadU64(img, 8, version);
    ReadU64(img, 16, if healthy then FLAG_HEALTHY else 0);
  }

  function SlotSector(start: nat, slot: nat): nat { start + 1 + slot * OTA_SLOT_SECTORS }

  /** The region lies on the disk. */
  predicate Room(disk: Disk, start: nat) { start + OTA_SECTORS <= |disk| }

  function SlotBytes(disk: Disk, start: nat, slot: nat): (b: seq<byte>)
    requires Room(disk, start) && slot < 2
    ensures |b| == IMAGE_BYTES
  {
    L.Extent(disk, SlotSector(start, slot), IMAGE_SECTORS)
  }

  datatype Image = Image(version: nat, flags: nat, digest: seq<byte>)

  /** `load`: read a slot back and measure it. */
  function Load(disk: Disk, start: nat, slot: nat): Option<Image>
    requires Room(disk, start) && slot < 2
  {
    var img := SlotBytes(disk, start, slot);
    if U64At(img, 0) != IMG_MAGIC then None else Some(Image(U64At(img, 8), U64At(img, 16), H.Digest(img)))
  }

  /** The slot holds what the control block says. */
  predicate Holds(disk: Disk, start: nat, c: Control, slot: nat)
    requires Room(disk, start) && ControlFits(c) && slot < 2
  {
    var i := Load(disk, start, slot);
    i.Some? && i.value.digest == c.digest[slot] && i.value.version == c.version[slot]
  }

  // ---- operations -------------------------------------------------------------------------------------

  datatype Outcome =
    | Fresh
    | Trying(slot: nat, version: nat, triesLeft: nat, healthy: bool)
    | RolledBack(from: nat, to: nat, version: nat)
    | Booted(slot: nat, version: nat)
    | Corrupt(slot: nat)
    | Done

  datatype Ram = Off | FreshBoot | Up(c: Control)

  /** The sector writes of an operation, what the system then holds in memory, and what it reports. */
  datatype Plan = Plan(writes: seq<L.SectorWrite>, ram: Ram, outcome: Outcome)

  datatype Op = Boot | Stage(version: nat, healthy: bool) | Confirm | Initialise | PowerOff

  datatype State = State(disk: Disk, start: nat, ram: Ram)

  function Bumped(c: Control): Control { c.(seqno := c.seqno + 1) }

  /** `write_control`, for a block whose number is already counted up. */
  function Store(start: nat, c: Control): L.SectorWrite
    requires ControlFits(c)
  {
    L.SectorWrite(start, EncodeControl(c))
  }

  /** What is left of `boot` once there are tries or a slot that has proved itself. */
  function BootSlot(disk: Disk, start: nat, c: Control, before: seq<L.SectorWrite>): Plan
    requires Room(disk, start) && ControlFits(c) && c.seqno + 1 < U64
  {
    if !Holds(disk, start, c, c.active) then Plan(before, Up(c), Corrupt(c.active))
    else
      var img := Load(disk, start, c.active).value;
      if c.state[c.active] == Unverified then
        var c' := Bumped(c.(tries := if c.tries == 0 then 0 else c.tries - 1));
        Plan(before + [Store(start, c')], Up(c'), Trying(c.active, img.version, c'.tries, img.flags % 2 == 1))
      else Plan(before, Up(c), Booted(c.active, img.version))
  }

  function Spent(c: Control): bool
    requires ControlFits(c)
  {
    c.state[c.active] == Unverified && c.tries == 0
  }

  function Returned(c: Control): Control
    requires ControlFits(c)
  {
    Bumped(c.(state := c.state[c.active := Failed], active := 1 - c.active,
              rollbacks := if c.rollbacks == 255 then 255 else c.rollbacks + 1))
  }

  function PlanBoot(disk: Disk, start: nat): Plan
    requires Room(disk, start) && Countable(disk, start)
  {
    match DecodeControl(disk[start])
    case None => Plan([], FreshBoot, Fresh)
    case Some(c) =>
      if Spent(c) && c.state[1 - c.active] == Successful then
        Plan([Store(start, Returned(c))], Up(Returned(c)), RolledBack(c.active, 1 - c.active, c.version[1 - c.active]))
      else if Spent(c) then
        var c' := Bumped(c.(tries := 1));
        BootSlot(disk, start, c', [Store(start, c')])
      else BootSlot(disk, start, c, [])
  }

  /** What decodes fits its fields, and its number can be counted on. */
  predicate Countable(disk: Disk, start: nat)
    requires Room(disk, start)
  {
    var d := DecodeControl(disk[start]);
    d.Some? ==> ControlFits(d.value) && d.value.seqno + 3 < U64
  }

  function ImageWrites(start: nat, slot: nat, img: seq<byte>): (ws: seq<L.SectorWrite>)
    requires |img| == IMAGE_BYTES
    ensures |ws| == IMAGE_SECTORS && forall s | 0 <= s < IMAGE_SECTORS :: ws[s].at == SlotSector(start, slot) + s
  {
    assert L.SectorsFor(IMAGE_BYTES) == IMAGE_SECTORS;
    L.DataWrites(SlotSector(start, slot), img, IMAGE_SECTORS)
  }

  /** The block that points at a new image in `slot`. */
  function Pointing(c: Control, slot: nat, version: nat, digest: seq<byte>): Control
    requires ControlFits(c) && slot < 2
  {
    Bumped(c.(version := c.version[slot := version], digest := c.digest[slot := digest],
              state := c.state[slot := Unverified], active := slot, tries := MAX_TRIES))
  }

  /** `stage` into `slot`: the image first, and only then the control block. */
  function PlanStage(start: nat, c: Control, slot: nat, version: nat, healthy: bool): Plan
    requires ControlFits(c) && slot < 2 && version < U64 && c.seqno + 1 < U64
  {
    var img := BuildImage(version, healthy);
    H.DigestLength(img);
    var c' := Pointing(c, slot, version, H.Digest(img));
    Plan(ImageWrites(start, slot, img) + [Store(start, c')], Up(c'), Done)
  }

  function Confirmed(c: Control): Control
    requires ControlFits(c)
  {
    var st := c.state[c.active := Successful];
    Bumped(c.(state := if st[1 - c.active] == Successful then st[1 - c.active := Empty] else st, tries := 0))
  }

  function FirstControl(): (c: Control)
    ensures ControlFits(c)
  {
    H.DigestLength(BuildImage(1, true));
    Control(1, 0, 0, 0, [Successful, Empty], [1, 0], [H.Digest(BuildImage(1, true)), Zeros(32)])
  }

  predicate Enabled(s: State, op: Op) {
    && Room(s.disk, s.start) && Countable(s.disk, s.start) && (s.ram.Up? ==> ControlFits(s.ram.c) && s.ram.c.seqno + 3 < U64)
    && match op
       case Boot => s.ram == Off
       case Stage(version, _) => s.ram.Up? && s.ram.c.state[s.ram.c.active] == Successful && version < U64
       case Confirm => s.ram.Up?
       case Initialise => s.ram == FreshBoot
       case PowerOff => true
  }

  function PlanOf(s: State, op: Op): Plan
    requires Enabled(s, op)
  {
    match op
    case Boot => PlanBoot(s.disk, s.start)
    case Stage(version, healthy) => PlanStage(s.start, s.ram.c, 1 - s.ram.c.active, version, healthy)
    case Confirm => Plan([Store(s.start, Confirmed(s.ram.c))], Up(Confirmed(s.ram.c)), Done)
    case Initialise =>
      Plan(ImageWrites(s.start, 0, BuildImage(1, true)) + [Store(s.start, FirstControl())], Up(FirstControl()), Done)
    case PowerOff => Plan([], Off, Done)
  }

  /** An operation that finishes, or loses power after `cut` of its writes. */
  datatype Event = Event(op: Op, cut: Option<nat>)

  predicate CanHappen(s: State, e: Event) {
    Enabled(s, e.op) && (e.cut.Some? ==> e.cut.value <= |PlanOf(s, e.op).writes|)
  }

  function Next(s: State, e: Event): State
    requires CanHappen(s, e)
  {
    var p := PlanOf(s, e.op);
    if e.cut.Some? then s.(disk := L.After(s.disk, p.writes, e.cut.value), ram := Off)
    else s.(disk := L.After(s.disk, p.writes, |p.writes|), ram := p.ram)
  }

  // ---- the invariant ----------------------------------------------------------------------------------

  /**
   A block to rely on: exactly one slot has proved itself. It is the active one, or the active one is on probation with
   tries left or spent; and every slot that may be booted holds what the block says.
   */
  predicate Reliable(disk: Disk, start: nat, c: Control)
    requires Room(disk, start)
  {
    && ControlFits(c) && Holds(disk, start, c, c.active) && c.tries <= MAX_TRIES
    && (c.state[c.active] == Successful ==> c.state[1 - c.active] != Successful)
    && (c.state[c.active] != Successful ==>
          c.state[c.active] == Unverified && c.state[1 - c.active] == Successful && Holds(disk, start, c, 1 - c.active))
  }

  predicate Inv(s: State) {
    && Room(s.disk, s.start)
    && match DecodeControl(s.disk[s.start])
       case None => !s.ram.Up?
       case Some(c) => Reliable(s.disk, s.start, c) && s.ram != FreshBoot && (s.ram.Up? ==> s.ram.c == c)
  }

  lemma HoldsFrame(a: Disk, b: Disk, start: nat, c: Control, c': Control, slot: nat)
    requires Room(a, start) && Room(b, start) && slot < 2 && ControlFits(c) && ControlFits(c') && Holds(a, start, c, slot)
    requires c'.digest[slot] == c.digest[slot] && c'.version[slot] == c.version[slot]
    requires forall i | SlotSector(start, slot) <= i < SlotSector(start, slot) + IMAGE_SECTORS :: a[i] == b[i]
    ensures Holds(b, start, c', slot)
  {
    L.ExtentFrame(a, b, SlotSector(start, slot), IMAGE_SECTORS);
  }

  /** A step whose writes are all to the control sector. */
  lemma ControlWrite(s: State, c: Control, c': Control, ram: Ram)
    requires Room(s.disk, s.start) && ControlFits(c) && ControlFits(c') && DecodeControl(s.disk[s.start]) == Some(c)
    requires ram == Off || ram == Up(c')
    requires c'.active < 2 && Holds(s.disk, s.start, c, c'.active) && c'.digest == c.digest && c'.version == c.version
    requires c'.tries <= MAX_TRIES && (c'.state[c'.active] == Successful ==> c'.state[1 - c'.active] != Successful)
    requires c'.state[c'.active] != Successful ==>
               c'.state[c'.active] == Unverified && c'.state[1 - c'.active] == Successful && Holds(s.disk, s.start, c, 1 - c'.active)
    ensures Inv(State(L.Put1(s.disk, Store(s.start, c')), s.start, ram))
  {
    hide EncodeControl, DecodeControl, Holds;
    ControlRoundTrip(c');
    var d := L.Put1(s.disk, Store(s.start, c'));
    HoldsFrame(s.disk, d, s.start, c, c', c'.active);
    if c'.state[c'.active] != Successful { HoldsFrame(s.disk, d, s.start, c, c', 1 - c'.active); }
  }

  lemma After0(disk: Disk, ws: seq<L.SectorWrite>)
    ensures L.After(disk, ws, 0) == disk
  {
  }

  lemma After1(disk: Disk, w: L.SectorWrite)
    ensures L.After(disk, [w], 0) == disk && L.After(disk, [w], 1) == L.Put1(disk, w)
  {
    assert L.After(disk, [w], 1) == L.Put1(L.After(disk, [w], 0), [w][0]);
  }

  /** What boot makes of a reliable block: nothing new, one try fewer, or back to the slot that proved itself. */
  function Advance(c: Control): (c': Control)
    requires ControlFits(c) && c.seqno + 1 < U64
    ensures ControlFits(c')
  {
    if c.state[c.active] == Successful then c
    else if c.tries == 0 then Returned(c)
    else Bumped(c.(tries := c.tries - 1))
  }

  function Report(c: Control, healthy: bool): Outcome
    requires ControlFits(c)
  {
    if c.state[c.active] == Successful then Booted(c.active, c.version[c.active])
    else if c.tries == 0 then RolledBack(c.active, 1 - c.active, c.version[1 - c.active])
    else Trying(c.active, c.version[c.active], c.tries - 1, healthy)
  }

  /** Whether the image in a slot says that it will come up: bit 0 of its third word. */
  predicate SaysHealthy(disk: Disk, start: nat, slot: nat)
    requires Room(disk, start) && slot < 2
  {
    U64At(SlotBytes(disk, start, slot), 16) % 2 == 1
  }

  /** `boot`, on a block to rely on. */
  predicate BootsTo(p: Plan, start: nat, c: Control, healthy: bool)
    requires ControlFits(c) && c.seqno + 1 < U64
  {
    && p.ram == Up(Advance(c)) && p.outcome == Report(c, healthy)
    && p.writes == if c.state[c.active] == Successful then [] else [Store(start, Advance(c))]
  }

  lemma BootIs(s: State, c: Control)
    requires Inv(s) && Enabled(s, Boot) && DecodeControl(s.disk[s.start]) == Some(c)
    ensures ControlFits(c) && c.seqno + 1 < U64 && BootsTo(PlanOf(s, Boot), s.start, c, SaysHealthy(s.disk, s.start, c.active))
  {
    hide EncodeControl, DecodeControl, Load;
    if c.state[c.active] == Unverified && c.tries == 0 {
      assert PlanOf(s, Boot).writes == [Store(s.start, Returned(c))];
    } else {
      assert PlanOf(s, Boot) == BootSlot(s.disk, s.start, c, []);
      HeldBoots(s.disk, s.start, c);
    }
  }

  /** `boot` on a slot that holds what it should. */
  lemma HeldBoots(disk: Disk, start: nat, c: Control)
    requires Room(disk, start) && ControlFits(c) && c.seqno + 1 < U64 && Holds(disk, start, c, c.active)
    requires c.state[c.active] == Successful || (c.state[c.active] == Unverified && c.tries > 0)
    ensures BootsTo(BootSlot(disk, start, c, []), start, c, SaysHealthy(disk, start, c.active))
  {
    hide EncodeControl, SlotBytes, U64At, H.Digest;
    assert [] + [Store(start, Advance(c))] == [Store(start, Advance(c))];
  }

  lemma BootInv(s: State, cut: Option<nat>)
    requires Inv(s) && CanHappen(s, Event(Boot, cut))
    ensures Inv(Next(s, Event(Boot, cut)))
  {
    hide EncodeControl, DecodeControl, Load, PlanBoot;
    var p := PlanOf(s, Boot);
    After0(s.disk, p.writes);
    match DecodeControl(s.disk[s.start])
    case None => assert p == Plan([], FreshBoot, Fresh) by { FreshIs(s); }
    case Some(c) =>
      BootIs(s, c);
      if c.state[c.active] != Successful {
        After1(s.disk, Store(s.start, Advance(c)));
        ControlWrite(s, c, Advance(c), if cut.Some? then Off else Up(Advance(c)));
      }
  }

  lemma FreshIs(s: State)
    requires Enabled(s, Boot) && DecodeControl(s.disk[s.start]) == None
    ensures PlanOf(s, Boot) == Plan([], FreshBoot, Fresh)
  {
  }

  lemma ConfirmInv(s: State, cut: Option<nat>)
    requires Inv(s) && CanHappen(s, Event(Confirm, cut))
    ensures Inv(Next(s, Event(Confirm, cut)))
  {
    hide EncodeControl, DecodeControl, Load;
    var c := s.ram.c;
    After1(s.disk, Store(s.start, Confirmed(c)));
    ControlWrite(s, c, Confirmed(c), if cut.Some? then Off else Up(Confirmed(c)));
  }

  /** Up to its last write an install touches nothing but its slot. */
  lemma {:induction false} InstallFrame(disk: Disk, start: nat, slot: nat, img: seq<byte>, last: L.SectorWrite, n: nat)
    requires Room(disk, start) && slot < 2 && |img| == IMAGE_BYTES && n <= IMAGE_SECTORS
    ensures var d := L.After(disk, ImageWrites(start, slot, img) + [last], n);
            && d[start] == disk[start]
            && (forall i | SlotSector(start, 1 - slot) <= i < SlotSector(start, 1 - slot) + IMAGE_SECTORS :: d[i] == disk[i])
            && (n == IMAGE_SECTORS ==> SlotBytes(d, start, slot) == img)
  {
    hide L.DataWrites, L.Extent;
    var ws := ImageWrites(start, slot, img);
    var d := L.After(disk, ws + [last], n);
    L.AfterFrame(disk, ws + [last], n, start);
    forall i | SlotSector(start, 1 - slot) <= i < SlotSector(start, 1 - slot) + IMAGE_SECTORS ensures d[i] == disk[i] {
      L.AfterFrame(disk, ws + [last], n, i);
    }
    if n == IMAGE_SECTORS {
      assert (ws + [last])[..n] == ws == ws[..n];
      L.AfterPrefix(disk, ws, ws + [last], n);
      L.DataLands(disk, SlotSector(start, slot), img, n);
      assert img[..IMAGE_BYTES] == img;
      var e := L.Extent(d, SlotSector(start, slot), n);
      assert e[..IMAGE_BYTES] == e;
    }
  }

  /** A finished image is what its block says it is. */
  lemma InstalledHolds(disk: Disk, start: nat, slot: nat, version: nat, healthy: bool, c: Control)
    requires Room(disk, start) && slot < 2 && version < U64 && ControlFits(c) && SlotBytes(disk, start, slot) == BuildImage(version, healthy)
    requires c.version[slot] == version && c.digest[slot] == H.Digest(BuildImage(version, healthy))
    ensures Holds(disk, start, c, slot)
  {
    hide BuildImage, H.Digest;
    ImageHeader(version, healthy);
  }

  lemma LastWrite(disk: Disk, ws: seq<L.SectorWrite>, w: L.SectorWrite)
    ensures L.After(disk, ws + [w], |ws| + 1) == L.Put1(L.After(disk, ws + [w], |ws|), w)
  {
  }

  lemma StageInv(s: State, e: Event)
    requires Inv(s) && CanHappen(s, e) && e.op.Stage?
    ensures Inv(Next(s, e))
  {
    hide EncodeControl, DecodeControl, Load, BuildImage, H.Digest, Holds, L.After;
    var c, version, healthy := s.ram.c, e.op.version, e.op.healthy;
    var slot, img := 1 - c.active, BuildImage(version, healthy);
    H.DigestLength(img);
    var c' := Pointing(c, slot, version, H.Digest(img));
    var ws := ImageWrites(s.start, slot, img);
    var n := if e.cut.Some? then e.cut.value else 9;
    InstallFrame(s.disk, s.start, slot, img, Store(s.start, c'), if n <= 8 then n else 8);
    var d := L.After(s.disk, ws + [Store(s.start, c')], if n <= 8 then n else 8);
    HoldsFrame(s.disk, d, s.start, c, c, c.active);
    if n == 9 {
      LastWrite(s.disk, ws, Store(s.start, c'));
      PointingIs(c, version, healthy);
      InstallDone(d, s.start, c, c', slot, version, healthy, if e.cut.Some? then Off else Up(c'));
    }
  }

  /** `c'` is `c` with a new image in `slot`, the active slot of `c'` but not of `c`. */
  predicate Points(c: Control, c': Control, slot: nat, version: nat, healthy: bool)
    requires ControlFits(c)
  {
    && slot == 1 - c.active && ControlFits(c') && c'.active == slot && c'.tries == MAX_TRIES
    && c'.state[slot] == Unverified && c'.state[c.active] == c.state[c.active]
    && c'.version[slot] == version && c'.digest[slot] == H.Digest(BuildImage(version, healthy))
    && c'.version[c.active] == c.version[c.active] && c'.digest[c.active] == c.digest[c.active]
  }

  lemma PointingIs(c: Control, version: nat, healthy: bool)
    requires ControlFits(c) && version < U64 && c.seqno + 1 < U64
    ensures Points(c, Pointing(c, 1 - c.active, version, H.Digest(BuildImage(version, healthy))), 1 - c.active, version, healthy)
  {
    hide BuildImage, H.Digest;
    H.DigestLength(BuildImage(version, healthy));
  }

  lemma InstallDone(disk: Disk, start: nat, c: Control, c': Control, slot: nat, version: nat, healthy: bool, ram: Ram)
    requires Room(disk, start) && ControlFits(c) && version < U64 && Points(c, c', slot, version, healthy)
    requires c.state[c.active] == Successful && Holds(disk, start, c, c.active)
    requires SlotBytes(disk, start, slot) == BuildImage(version, healthy) && (ram == Off || ram == Up(c'))
    ensures Inv(State(L.Put1(disk, Store(start, c')), start, ram))
  {
    hide EncodeControl, DecodeControl, BuildImage, H.Digest, Holds;
    var d := L.Put1(disk, Store(start, c'));
    ControlRoundTrip(c');
    InstalledHolds(disk, start, slot, version, healthy, c');
    HoldsFrame(disk, d, start, c', c', slot);
    HoldsFrame(disk, d, start, c, c', c.active);
  }

  lemma InitialiseInv(s: State, e: Event)
    requires Inv(s) && CanHappen(s, e) && e.op.Initialise?
    ensures Inv(Next(s, e))
  {
    hide EncodeControl, DecodeControl, Load, BuildImage, H.Digest, Holds, L.After;
    var c', img := FirstControl(), BuildImage(1, true);
    var ws := ImageWrites(s.start, 0, img);
    var n := if e.cut.Some? then e.cut.value else 9;
    InstallFrame(s.disk, s.start, 0, img, Store(s.start, c'), if n <= 8 then n else 8);
    var d0 := L.After(s.disk, ws + [Store(s.start, c')], if n <= 8 then n else 8);
    if n == 9 {
      LastWrite(s.disk, ws, Store(s.start, c'));
      var d := L.Put1(d0, Store(s.start, c'));
      ControlRoundTrip(c');
      InstalledHolds(d0, s.start, 0, 1, true, c');
      HoldsFrame(d0, d, s.start, c', c', 0);
    }
  }

  lemma OffInv(s: State, e: Event)
    requires Inv(s) && CanHappen(s, e) && e.op.PowerOff?
    ensures Next(s, e) == s.(ram := Off) && Inv(Next(s, e))
  {
    hide DecodeControl, Holds;
    After0(s.disk, []);
  }

  lemma StepInv(s: State, e: Event)
    requires Inv(s) && CanHappen(s, e)
    ensures Inv(Next(s, e))
  {
    hide Inv, CanHappen, Next;
    match e.op
    case Boot => BootInv(s, e.cut);
    case Stage(_, _) => StageInv(s, e);
    case Confirm => ConfirmInv(s, e.cut);
    case Initialise => InitialiseInv(s, e);
    case PowerOff => OffInv(s, e);
  }

  // ---- every run --------------------------------------------------------------------------------------

  predicate Run(ss: seq<State>, es: seq<Event>) {
    && |ss| == |es| + 1
    && forall i | 0 <= i < |es| :: CanHappen(ss[i], es[i]) && ss[i + 1] == Next(ss[i], es[i])
  }

  lemma {:induction false} RunInv(ss: seq<State>, es: seq<Event>, i: nat)
    requires Run(ss, es) && Inv(ss[0]) && i <= |es|
    ensures Inv(ss[i])
  {
    hide Inv, CanHappen, Next;
    if i > 0 {
      RunInv(ss, es, i - 1);
      StepInv(ss[i - 1], es[i - 1]);
    }
  }

  /** A formatted disk, powered off: no control block yet. */
  predicate Formatted(s: State) { Room(s.disk, s.start) && s.disk[s.start] == Zeros(SECTOR_SIZE) && s.ram == Off }

  lemma FormattedInv(s: State)
    requires Formatted(s)
    ensures Inv(s)
  {
    FromLeZeros(8);
    assert Zeros(SECTOR_SIZE)[0..8] == Zeros(8);
  }

  /**
   There is always a way to come up. In every run from a formatted disk, wherever the power goes: once there is a control
   block, exactly one slot has proved itself, and its image is the one the block measured; and no boot finds its slot corrupt.
   */
  lemma AlwaysBootable(ss: seq<State>, es: seq<Event>, i: nat)
    requires Run(ss, es) && Formatted(ss[0]) && i <= |es|
    ensures Room(ss[i].disk, ss[i].start)
    ensures var d := DecodeControl(ss[i].disk[ss[i].start]);
            d.Some? ==> ControlFits(d.value) && exists g | 0 <= g < 2 ::
              d.value.state[g] == Successful && d.value.state[1 - g] != Successful && Holds(ss[i].disk, ss[i].start, d.value, g)
    ensures i < |es| && es[i].op == Boot ==> !PlanOf(ss[i], Boot).outcome.Corrupt?
  {
    hide DecodeControl, Holds, PlanOf, Inv, Next;
    FormattedInv(ss[0]);
    RunInv(ss, es, i);
    OneIsProven(ss[i]);
    if i < |es| && es[i].op == Boot { NotCorrupt(ss[i]); }
  }

  lemma OneIsProven(s: State)
    requires Inv(s)
    ensures Room(s.disk, s.start)
    ensures var d := DecodeControl(s.disk[s.start]);
            d.Some? ==> ControlFits(d.value) && exists g | 0 <= g < 2 ::
              d.value.state[g] == Successful && d.value.state[1 - g] != Successful && Holds(s.disk, s.start, d.value, g)
  {
    hide DecodeControl, Holds;
    var d := DecodeControl(s.disk[s.start]);
    if d.Some? {
      var c := d.value;
      var g := if c.state[c.active] == Successful then c.active else 1 - c.active;
      assert c.state[g] == Successful;
    }
  }

  lemma NotCorrupt(s: State)
    requires Inv(s) && Enabled(s, Boot)
    ensures !PlanOf(s, Boot).outcome.Corrupt?
  {
    hide DecodeControl, Holds, PlanBoot;
    var d := DecodeControl(s.disk[s.start]);
    if d.Some? { BootIs(s, d.value); } else { FreshIs(s); }
  }

  /** The event runs a slot on probation; and it records a try, whether it goes on to run the slot or loses power first. */
  predicate Tries(s: State, e: Event)
    requires CanHappen(s, e)
  {
    e.op == Boot && e.cut == None && PlanOf(s, Boot).outcome.Trying?
  }

  predicate Records(s: State, e: Event)
    requires CanHappen(s, e)
  {
    e.op == Boot && e.cut != Some(0) && PlanOf(s, Boot).outcome.Trying?
  }

  function Tried(ss: seq<State>, es: seq<Event>, n: nat): nat
    requires Run(ss, es) && n <= |es|
  {
    if n == 0 then 0 else Tried(ss, es, n - 1) + if Tries(ss[n - 1], es[n - 1]) then 1 else 0
  }

  function Recorded(ss: seq<State>, es: seq<Event>, n: nat): nat
    requires Run(ss, es) && n <= |es|
  {
    if n == 0 then 0 else Recorded(ss, es, n - 1) + if Records(ss[n - 1], es[n - 1]) then 1 else 0
  }

  /** The block on disk. */
  function OnDisk(s: State): Option<Control>
    requires Room(s.disk, s.start)
  {
    DecodeControl(s.disk[s.start])
  }

  /** `b` still has the slot of `c` on probation. */
  predicate OnTrial(b: Control, c: Control) {
    ControlFits(b) && b.active == c.active && b.state == c.state && b.version == c.version && b.state[b.active] == Unverified
  }

  /** `b` has gone back from the slot of `c` to the other one, and will not choose it again. */
  predicate GoneBack(b: Control, c: Control) {
    ControlFits(b) && b.active == 1 - c.active && b.state[b.active] == Successful && b.state[1 - b.active] == Failed && b.version == c.version
  }

  /**
   The event neither confirms the slot of `c` nor stages it again: a boot, a loss of power, a confirmation of the other slot,
   an install that loses power before its control block; each with any cut.
   */
  predicate Spares(s: State, e: Event, c: Control)
    requires Room(s.disk, s.start)
  {
    match e.op
    case Boot => true
    case PowerOff => true
    case Confirm => OnDisk(s).Some? && OnDisk(s).value.active != c.active
    case Stage(_, _) => e.cut.Some? && e.cut.value <= IMAGE_SECTORS
    case Initialise => false
  }

  predicate Probation(ss: seq<State>, es: seq<Event>, c: Control) {
    && Run(ss, es) && Inv(ss[0]) && OnDisk(ss[0]) == Some(c) && ControlFits(c) && c.state[c.active] == Unverified
    && forall i | 0 <= i < |es| :: Spares(ss[i], es[i], c)
  }

  /** A boot on probation: with tries left it runs the slot with one fewer, without it goes back; a cut leaves either block. */
  lemma TrialBoot(s: State, cut: Option<nat>, b: Control, c: Control)
    requires Inv(s) && CanHappen(s, Event(Boot, cut)) && OnDisk(s) == Some(b) && OnTrial(b, c) && ControlFits(c)
    ensures var s' := Next(s, Event(Boot, cut));
            var o := PlanOf(s, Boot).outcome;
            && s'.start == s.start && Room(s'.disk, s'.start) && b.tries <= MAX_TRIES && b.seqno + 1 < U64
            && (b.tries > 0 ==> o.Trying? && o.slot == c.active && o.version == c.version[c.active] && o.triesLeft == b.tries - 1)
            && (o.Trying? ==> o.healthy == SaysHealthy(s.disk, s.start, c.active))
            && (b.tries == 0 ==> o == RolledBack(c.active, 1 - c.active, c.version[1 - c.active]))
            && (cut == Some(0) ==> OnDisk(s') == Some(b))
            && (cut != Some(0) ==> OnDisk(s') == Some(Advance(b)))
            && (if b.tries > 0 then OnTrial(Advance(b), c) && Advance(b).tries == b.tries - 1
                else GoneBack(Advance(b), c) && Advance(b).rollbacks == if b.rollbacks < 255 then b.rollbacks + 1 else 255)
  {
    hide OnDisk, PlanOf, Next, Inv, CanHappen, Advance, GoneBack;
    TriesAtMost(s, b);
    TrialReports(s, cut, b, c);
    AdvanceIs(s, b, c);
    TrialWrites(s, cut, b);
  }

  lemma TrialReports(s: State, cut: Option<nat>, b: Control, c: Control)
    requires Inv(s) && CanHappen(s, Event(Boot, cut)) && OnDisk(s) == Some(b) && OnTrial(b, c) && ControlFits(c)
    ensures b.seqno + 1 < U64
    ensures var o := PlanOf(s, Boot).outcome;
            && (b.tries > 0 ==> o.Trying? && o.slot == c.active && o.version == c.version[c.active] && o.triesLeft == b.tries - 1)
            && (o.Trying? ==> o.healthy == SaysHealthy(s.disk, s.start, c.active))
            && (b.tries == 0 ==> o == RolledBack(c.active, 1 - c.active, c.version[1 - c.active]))
  {
    hide EncodeControl, DecodeControl, PlanOf, Holds, Advance, Countable, SaysHealthy, Load, Inv;
    BootIs(s, b);
  }

  lemma AdvanceIs(s: State, b: Control, c: Control)
    requires Inv(s) && OnDisk(s) == Some(b) && OnTrial(b, c) && ControlFits(c) && b.seqno + 1 < U64
    ensures if b.tries > 0 then OnTrial(Advance(b), c) && Advance(b).tries == b.tries - 1
            else GoneBack(Advance(b), c) && Advance(b).rollbacks == if b.rollbacks < 255 then b.rollbacks + 1 else 255
  {
    hide DecodeControl, Holds;
  }

  lemma TrialWrites(s: State, cut: Option<nat>, b: Control)
    requires Inv(s) && CanHappen(s, Event(Boot, cut)) && OnDisk(s) == Some(b) && ControlFits(b) && b.state[b.active] == Unverified
    requires b.seqno + 1 < U64
    ensures var s' := Next(s, Event(Boot, cut));
            && s'.start == s.start && Room(s'.disk, s'.start)
            && OnDisk(s') == Some(if cut == Some(0) then b else Advance(b))
  {
    hide EncodeControl, DecodeControl, PlanBoot, Holds, Advance, Report, Inv, Countable;
    BootIs(s, b);
    After1(s.disk, Store(s.start, Advance(b)));
    ControlRoundTrip(Advance(b));
  }

  /** A boot after going back runs the other slot and writes nothing. */
  lemma BackBoot(s: State, cut: Option<nat>, b: Control, c: Control)
    requires Inv(s) && CanHappen(s, Event(Boot, cut)) && OnDisk(s) == Some(b) && GoneBack(b, c) && ControlFits(c)
    ensures PlanOf(s, Boot).outcome == Booted(1 - c.active, c.version[1 - c.active])
    ensures Next(s, Event(Boot, cut)).start == s.start && Next(s, Event(Boot, cut)).disk == s.disk
  {
    hide EncodeControl, DecodeControl, PlanOf, Holds, SaysHealthy, Load, Advance, Countable, Inv, L.After;
    BootIs(s, b);
    After0(s.disk, []);
  }

  /** Confirming the other slot, or an install cut off before its control block, does not bring the slot back. */
  lemma BackStays(s: State, e: Event, b: Control, c: Control)
    requires Inv(s) && CanHappen(s, e) && OnDisk(s) == Some(b) && GoneBack(b, c) && ControlFits(c) && Spares(s, e, c)
    ensures var s' := Next(s, e); s'.start == s.start && Room(s'.disk, s'.start) && OnDisk(s').Some? && GoneBack(OnDisk(s').value, c)
  {
    hide EncodeControl, DecodeControl, PlanBoot, Holds, H.Digest, BuildImage;
    match e.op
    case Boot => BackBoot(s, e.cut, b, c);
    case PowerOff => OffInv(s, e);
    case Confirm =>
      After1(s.disk, Store(s.start, Confirmed(b)));
      ControlRoundTrip(Confirmed(b));
    case Stage(version, healthy) =>
      var img := BuildImage(version, healthy);
      H.DigestLength(img);
      InstallFrame(s.disk, s.start, 1 - b.active, img, Store(s.start, Pointing(b, 1 - b.active, version, H.Digest(img))), e.cut.value);
  }

  /** On probation only boots and losses of power are left. */
  lemma TrialEvents(s: State, e: Event, b: Control, c: Control)
    requires Inv(s) && CanHappen(s, e) && OnDisk(s) == Some(b) && OnTrial(b, c) && Spares(s, e, c)
    ensures e.op == Boot || e.op == PowerOff
  {
    hide DecodeControl, Holds;
  }

  /** One event: on trial each recorded try is one fewer, or the block goes back when there are none; gone back it stays. */
  lemma FateStep(s: State, e: Event, b: Control, c: Control)
    requires Inv(s) && CanHappen(s, e) && OnDisk(s) == Some(b) && ControlFits(c) && Spares(s, e, c) && (OnTrial(b, c) || GoneBack(b, c))
    ensures var s' := Next(s, e);
            && Room(s'.disk, s'.start) && OnDisk(s').Some? && (Tries(s, e) ==> Records(s, e))
            && (GoneBack(b, c) ==> GoneBack(OnDisk(s').value, c) && !Records(s, e))
            && (OnTrial(b, c) ==>
                  || (OnTrial(OnDisk(s').value, c) && OnDisk(s').value.tries == b.tries - (if Records(s, e) then 1 else 0))
                  || (GoneBack(OnDisk(s').value, c) && !Records(s, e)))
  {
    hide DecodeControl, PlanBoot, EncodeControl, Holds, Inv, Advance, GoneBack, Spares;
    if GoneBack(b, c) {
      BackStays(s, e, b, c);
      if e.op == Boot { BackBoot(s, e.cut, b, c); }
      assert !OnTrial(b, c) by { NotBoth(b, c); }
    } else {
      TrialEvents(s, e, b, c);
      if e.op == Boot { TrialBoot(s, e.cut, b, c); } else { OffInv(s, e); }
    }
  }

  lemma NotBoth(b: Control, c: Control)
    ensures !(OnTrial(b, c) && GoneBack(b, c))
  {
  }

  /** The block after `n` events, and what the tries have come to. */
  predicate Fate(ss: seq<State>, es: seq<Event>, c: Control, n: nat)
    requires Run(ss, es) && n <= |es| && Room(ss[n].disk, ss[n].start)
  {
    var b := OnDisk(ss[n]);
    && b.Some? && Tried(ss, es, n) <= Recorded(ss, es, n) <= c.tries
    && ((OnTrial(b.value, c) && b.value.tries + Recorded(ss, es, n) == c.tries) || GoneBack(b.value, c))
  }

  lemma {:induction false} TriesFall(ss: seq<State>, es: seq<Event>, c: Control, n: nat)
    requires Probation(ss, es, c) && n <= |es|
    ensures Inv(ss[n]) && Fate(ss, es, c, n)
  {
    hide OnDisk, Tries, Records, Next, Inv, OnTrial, GoneBack, CanHappen;
    RunInv(ss, es, n);
    InvRoom(ss[n]);
    if n == 0 {
      StartsOnTrial(c);
    } else {
      TriesFall(ss, es, c, n - 1);
      InvRoom(ss[n - 1]);
      assert Spares(ss[n - 1], es[n - 1], c);
      FateStep(ss[n - 1], es[n - 1], OnDisk(ss[n - 1]).value, c);
    }
  }

  lemma StartsOnTrial(c: Control)
    requires ControlFits(c) && c.state[c.active] == Unverified
    ensures OnTrial(c, c)
  {
  }

  lemma InvRoom(s: State)
    requires Inv(s)
    ensures Room(s.disk, s.start)
  {
  }

  predicate Back(s: State, c: Control) { Room(s.disk, s.start) && OnDisk(s).Some? && GoneBack(OnDisk(s).value, c) }

  lemma BackStep(s: State, e: Event, c: Control)
    requires Inv(s) && CanHappen(s, e) && Back(s, c) && ControlFits(c) && Spares(s, e, c)
    ensures Back(Next(s, e), c)
  {
    hide DecodeControl, Inv, CanHappen, Next, GoneBack, Spares;
    BackStays(s, e, OnDisk(s).value, c);
  }

  lemma {:induction false} StaysBack(ss: seq<State>, es: seq<Event>, c: Control, m: nat, n: nat)
    requires Probation(ss, es, c) && m <= n <= |es| && Back(ss[m], c)
    ensures Inv(ss[n]) && Back(ss[n], c)
    decreases n - m
  {
    hide OnDisk, Inv, CanHappen, Next, Back;
    RunInv(ss, es, n);
    if m < n {
      StaysBack(ss, es, c, m, n - 1);
      InvRoom(ss[n - 1]);
      assert Spares(ss[n - 1], es[n - 1], c);
      BackStep(ss[n - 1], es[n - 1], c);
    }
  }

  /** Once gone back, the slot stays out: every later boot runs the other slot. */
  lemma NeverRunAgain(ss: seq<State>, es: seq<Event>, c: Control, m: nat, n: nat)
    requires Probation(ss, es, c) && m <= n < |es| && Back(ss[m], c) && es[n].op == Boot
    ensures PlanOf(ss[n], Boot).outcome == Booted(1 - c.active, c.version[1 - c.active])
  {
    hide DecodeControl, PlanOf, Inv, Next, GoneBack, Spares;
    StaysBack(ss, es, c, m, n);
    BackBoot(ss[n], es[n].cut, OnDisk(ss[n]).value, c);
  }

  /**
   A bad update goes away by itself. In every run in which the slot is neither confirmed nor staged again, with power lost
   at any write of any event: it is run at most as often as it had tries, each boot that got as far as recording its try
   having spent exactly one; the block is on trial or has gone back; a boot that finishes with the tries spent goes back to
   the slot that proved itself; and from the first block that has gone back on, every boot runs that slot.
   */
  lemma ProbationEnds(ss: seq<State>, es: seq<Event>, c: Control, n: nat)
    requires Probation(ss, es, c) && n <= |es|
    ensures Inv(ss[n]) && Tried(ss, es, n) <= Recorded(ss, es, n) <= c.tries <= MAX_TRIES && Fate(ss, es, c, n)
    ensures n < |es| && es[n].op == Boot && OnTrial(OnDisk(ss[n]).value, c) && Recorded(ss, es, n) < c.tries ==>
              PlanOf(ss[n], Boot).outcome.Trying? && PlanOf(ss[n], Boot).outcome.slot == c.active
    ensures n < |es| && es[n].op == Boot && OnTrial(OnDisk(ss[n]).value, c) && Recorded(ss, es, n) == c.tries ==>
              && PlanOf(ss[n], Boot).outcome == RolledBack(c.active, 1 - c.active, c.version[1 - c.active])
              && (es[n].cut == None ==> OnDisk(ss[n + 1]).Some? && GoneBack(OnDisk(ss[n + 1]).value, c))
    ensures GoneBack(OnDisk(ss[n]).value, c) ==>
              forall k | n <= k < |es| && es[k].op == Boot :: PlanOf(ss[k], Boot).outcome == Booted(1 - c.active, c.version[1 - c.active])
  {
    hide DecodeControl, PlanBoot, EncodeControl, Holds, Next, Inv, Advance, OnTrial, GoneBack, Spares;
    TriesFall(ss, es, c, n);
    TriesAtMost(ss[0], c);
    InvRoom(ss[n]);
    var b := OnDisk(ss[n]).value;
    if n < |es| && es[n].op == Boot && OnTrial(b, c) { TrialBoot(ss[n], es[n].cut, b, c); }
    if GoneBack(b, c) {
      forall k | n <= k < |es| && es[k].op == Boot
        ensures PlanOf(ss[k], Boot).outcome == Booted(1 - c.active, c.version[1 - c.active])
      {
        NeverRunAgain(ss, es, c, n, k);
      }
    }
  }

  lemma TriesAtMost(s: State, c: Control)
    requires Inv(s) && OnDisk(s) == Some(c)
    ensures c.tries <= MAX_TRIES
  {
    hide DecodeControl, Holds;
  }

  /** A fresh install is on probation with all its tries. */
  lemma StageStartsProbation(s: State, op: Op)
    requires Inv(s) && Enabled(s, op) && op.Stage?
    ensures var s', c := Next(s, Event(op, None)), s.ram.c;
            && Room(s'.disk, s'.start) && DecodeControl(s'.disk[s'.start]).Some?
            && var c' := DecodeControl(s'.disk[s'.start]).value;
            && c'.active == 1 - c.active && |c'.state| == 2 && c'.state[c'.active] == Unverified && c'.tries == MAX_TRIES
            && |c'.version| == 2 && c'.version[c'.active] == op.version && c'.version[c.active] == c.version[c.active]
  {
    hide EncodeControl, BuildImage, H.Digest, Holds;
    StepInv(s, Event(op, None));
  }

  /**
   When a slot is refused, whatever the block says: exactly when it is not an image, or not the one the block measured, or not
   of the block's version. Nothing is written then, unless tries had run out with nowhere to go back to.
   */
  lemma CorruptIff(disk: Disk, start: nat, c: Control)
    requires Room(disk, start) && Countable(disk, start) && DecodeControl(disk[start]) == Some(c) && ControlFits(c)
    requires c.state[c.active] == Unverified && c.tries == 0 ==> c.state[1 - c.active] != Successful
    ensures var b := SlotBytes(disk, start, c.active);
            var sound := U64At(b, 0) == IMG_MAGIC && H.Digest(b) == c.digest[c.active] && U64At(b, 8) == c.version[c.active];
            && (PlanBoot(disk, start).outcome == Corrupt(c.active) <==> !sound)
            && (!sound && !(c.state[c.active] == Unverified && c.tries == 0) ==> PlanBoot(disk, start).writes == [])
  {
    hide DecodeControl, EncodeControl, H.Digest, SlotBytes, U64At;
  }

  /**
   Out of tries with no slot to go back to, the device keeps trying the one it has: the try it takes is granted and recorded
   first, and spent and recorded before the slot runs, so that the next boot is in the same place.
   */
  lemma KeepsTrying(disk: Disk, start: nat, c: Control)
    requires Room(disk, start) && Countable(disk, start) && DecodeControl(disk[start]) == Some(c) && ControlFits(c)
    requires c.state[c.active] == Unverified && c.tries == 0 && c.state[1 - c.active] != Successful && Holds(disk, start, c, c.active)
    ensures var p := PlanBoot(disk, start);
            var granted := c.(tries := 1, seqno := c.seqno + 1);
            var spent := c.(seqno := c.seqno + 2);
            && ControlFits(granted) && ControlFits(spent)
            && p.writes == [Store(start, granted), Store(start, spent)] && p.ram == Up(spent)
            && p.outcome == Trying(c.active, c.version[c.active], 0, SaysHealthy(disk, start, c.active))
  {
    hide DecodeControl, EncodeControl, H.Digest, SlotBytes, U64At;
    var granted, spent := c.(tries := 1, seqno := c.seqno + 1), c.(seqno := c.seqno + 2);
    assert granted.(tries := 0, seqno := granted.seqno + 1) == spent;
    assert [Store(start, granted)] + [Store(start, spent)] == [Store(start, granted), Store(start, spent)];
  }

  /** A finished install boots, the first time, as what was installed, healthy or not as it was built, with a try spent. */
  lemma StagedBoots(s: State, op: Op, off: State)
    requires Inv(s) && Enabled(s, op) && op.Stage?
    requires off == Next(s, Event(op, None)).(ram := Off) && Enabled(off, Boot)
    ensures PlanOf(off, Boot).outcome == Trying(1 - s.ram.c.active, op.version, MAX_TRIES - 1, op.healthy)
  {
    hide EncodeControl, DecodeControl, PlanBoot, BuildImage, H.Digest, Holds, Load, Advance, Pointing, L.After, SlotBytes, PlanStage, Countable;
    var c, s' := s.ram.c, Next(s, Event(op, None));
    StepInv(s, Event(op, None));
    StagedBlock(s, op);
    StagedImage(s, op);
    ImageHeader(op.version, op.healthy);
    var b := OnDisk(s').value;
    BootIs(off, b);
  }

  lemma StagedBlock(s: State, op: Op)
    requires Inv(s) && Enabled(s, op) && op.Stage?
    ensures var s', c := Next(s, Event(op, None)), s.ram.c;
            && Room(s'.disk, s'.start) && OnDisk(s').Some? && ControlFits(OnDisk(s').value)
            && var b := OnDisk(s').value;
            && b.active == 1 - c.active && b.state[b.active] == Unverified && b.tries == MAX_TRIES && b.version[b.active] == op.version
  {
    hide EncodeControl, BuildImage, H.Digest, Holds;
    StepInv(s, Event(op, None));
  }

  lemma StagedImage(s: State, op: Op)
    requires Inv(s) && Enabled(s, op) && op.Stage?
    ensures var s', c := Next(s, Event(op, None)), s.ram.c;
            Room(s'.disk, s'.start) && SlotBytes(s'.disk, s'.start, 1 - c.active) == BuildImage(op.version, op.healthy)
  {
    hide EncodeControl, DecodeControl, BuildImage, H.Digest, Holds, L.After, SlotBytes, Load;
    PointingIs(s.ram.c, op.version, op.healthy);
    var c, img := s.ram.c, BuildImage(op.version, op.healthy);
    H.DigestLength(img);
    var slot, last := 1 - c.active, Store(s.start, Pointing(c, 1 - c.active, op.version, H.Digest(img)));
    var ws := ImageWrites(s.start, slot, img);
    InstallFrame(s.disk, s.start, slot, img, last, IMAGE_SECTORS);
    LastWrite(s.disk, ws, last);
    var d := L.After(s.disk, ws + [last], IMAGE_SECTORS);
    SameImages(d, L.Put1(d, last), s.start, slot);
  }

  /**
   What a confirmation does. The slot that is running becomes the one that has proved itself, with no tries outstanding; the
   other is no longer one to go back to; images, versions and the rest are as they were; and disk and memory agree.
   */
  lemma ConfirmDoes(s: State)
    requires Inv(s) && CanHappen(s, Event(Confirm, None))
    ensures var s' := Next(s, Event(Confirm, None));
            && OnDisk(s) == Some(s.ram.c) && Inv(s') && s'.ram.Up? && OnDisk(s') == Some(s'.ram.c)
            && var c, b := s.ram.c, s'.ram.c;
            && b.active == c.active && b.state[b.active] == Successful && b.tries == 0
            && b.state[1 - b.active] == (if c.state[1 - c.active] == Successful then Empty else c.state[1 - c.active])
            && b.version == c.version && b.digest == c.digest && b.rollbacks == c.rollbacks && b.seqno == c.seqno + 1
            && (forall i | s.start < i < |s.disk| :: s'.disk[i] == s.disk[i])
  {
    hide EncodeControl, DecodeControl, Holds;
    ConfirmInv(s, None);
    After1(s.disk, Store(s.start, Confirmed(s.ram.c)));
    ControlRoundTrip(Confirmed(s.ram.c));
  }

  /** What setting a device up for the first time does: slot 0 holds version 1 and has proved itself. */
  lemma InitialiseDoes(s: State)
    requires Inv(s) && CanHappen(s, Event(Initialise, None))
    ensures var s' := Next(s, Event(Initialise, None));
            && Inv(s') && s'.ram.Up? && OnDisk(s') == Some(s'.ram.c)
            && var b := s'.ram.c;
            b.active == 0 && b.state == [Successful, Empty] && b.version == [1, 0] && b.tries == 0 && b.rollbacks == 0
  {
    hide EncodeControl, DecodeControl, Load, BuildImage, H.Digest, Holds, L.After, L.DataWrites;
    InitialiseInv(s, Event(Initialise, None));
    var ws := ImageWrites(s.start, 0, BuildImage(1, true));
    LastWrite(s.disk, ws, Store(s.start, FirstControl()));
    ControlRoundTrip(FirstControl());
  }

  /** The slot of `c` has proved itself, and is the one to boot. */
  predicate Settled(s: State, c: Control) {
    && Room(s.disk, s.start) && OnDisk(s).Some? && ControlFits(OnDisk(s).value) && ControlFits(c)
    && var b := OnDisk(s).value;
    b.active == c.active && b.state[b.active] == Successful && b.version[b.active] == c.version[c.active]
  }

  /** Anything but an install that gets as far as its control block. */
  predicate Unstaged(e: Event) { e.op.Stage? ==> e.cut.Some? && e.cut.value <= IMAGE_SECTORS }

  lemma SettledStep(s: State, e: Event, c: Control)
    requires Inv(s) && CanHappen(s, e) && Settled(s, c) && Unstaged(e)
    ensures Settled(Next(s, e), c)
    ensures e.op == Boot ==> PlanOf(s, Boot).outcome == Booted(c.active, c.version[c.active])
  {
    hide EncodeControl, DecodeControl, PlanBoot, Holds, H.Digest, BuildImage, L.DataWrites, Countable;
    var b := OnDisk(s).value;
    match e.op
    case Boot =>
      BootIs(s, b);
      After0(s.disk, []);
    case PowerOff => OffInv(s, e);
    case Confirm =>
      After1(s.disk, Store(s.start, Confirmed(b)));
      ControlRoundTrip(Confirmed(b));
    case Initialise =>
    case Stage(version, healthy) =>
      var img := BuildImage(version, healthy);
      H.DigestLength(img);
      InstallFrame(s.disk, s.start, 1 - b.active, img, Store(s.start, Pointing(b, 1 - b.active, version, H.Digest(img))), e.cut.value);
  }

  /**
   A confirmation lasts. From a finished confirmation until the next finished install, wherever the power goes, every boot runs
   the slot that was confirmed, at its version.
   */
  lemma {:induction false} ConfirmationLasts(ss: seq<State>, es: seq<Event>, n: nat)
    requires Run(ss, es) && Inv(ss[0]) && 0 < n <= |es| && es[0] == Event(Confirm, None)
    requires forall i | 0 < i < |es| :: Unstaged(es[i])
    ensures ss[0].ram.Up? && Settled(ss[n], ss[0].ram.c)
    ensures n < |es| && es[n].op == Boot ==> PlanOf(ss[n], Boot).outcome == Booted(ss[0].ram.c.active, ss[0].ram.c.version[ss[0].ram.c.active])
  {
    hide DecodeControl, EncodeControl, Holds, PlanBoot, Next, Inv, Confirmed, Unstaged;
    RunInv(ss, es, n);
    if n == 1 {
      ConfirmDoes(ss[0]);
      FitsInMemory(ss[0]);
      FitsInMemory(ss[1]);
    } else {
      ConfirmationLasts(ss, es, n - 1);
      RunInv(ss, es, n - 1);
      SettledStep(ss[n - 1], es[n - 1], ss[0].ram.c);
    }
    if n < |es| { SettledStep(ss[n], es[n], ss[0].ram.c); }
  }

  lemma FitsInMemory(s: State)
    requires Inv(s)
    ensures Room(s.disk, s.start) && (s.ram.Up? ==> ControlFits(s.ram.c))
  {
    hide DecodeControl, Holds;
  }

  /**
   Why the target must be the other slot. An install over the active one, cut off anywhere after its first sector and
   before its control block, leaves a device that finds its slot corrupt.
   */
  lemma StageOverActive(s: State, version: nat, healthy: bool, n: nat)
    requires Inv(s) && s.ram.Up? && s.ram.c.state[s.ram.c.active] == Successful && s.ram.c.seqno + 3 < U64
    requires version < U64 && version != s.ram.c.version[s.ram.c.active] && 1 <= n <= IMAGE_SECTORS
    ensures var p := PlanStage(s.start, s.ram.c, s.ram.c.active, version, healthy);
            && n <= |p.writes|
            && var d := L.After(s.disk, p.writes, n);
            Room(d, s.start) && Countable(d, s.start) && PlanBoot(d, s.start).outcome == Corrupt(s.ram.c.active)
  {
    hide EncodeControl, DecodeControl, H.Digest, BuildImage, L.After, L.DataWrites;
    var c, img := s.ram.c, BuildImage(version, healthy);
    H.DigestLength(img);
    var p := PlanStage(s.start, c, c.active, version, healthy);
    var ws, d := ImageWrites(s.start, c.active, img), L.After(s.disk, p.writes, n);
    InstallFrame(s.disk, s.start, c.active, img, p.writes[8], n);
    assert DecodeControl(d[s.start]) == Some(c);
    FirstSector(s.disk, s.start, c.active, img, p.writes[8], n);
    ImageHeader(version, healthy);
    VersionDiffers(d, s.start, c, img);
  }

  lemma VersionDiffers(d: Disk, start: nat, c: Control, img: seq<byte>)
    requires Room(d, start) && ControlFits(c) && |img| == IMAGE_BYTES && SlotBytes(d, start, c.active)[..16] == img[..16]
    requires U64At(img, 8) != c.version[c.active]
    ensures !Holds(d, start, c, c.active)
  {
    hide L.Extent;
    var b := SlotBytes(d, start, c.active);
    assert b[8..16] == b[..16][8..16] && img[8..16] == img[..16][8..16];
  }

  lemma {:induction false} FirstSector(disk: Disk, start: nat, slot: nat, img: seq<byte>, last: L.SectorWrite, n: nat)
    requires Room(disk, start) && slot < 2 && |img| == IMAGE_BYTES && 1 <= n <= IMAGE_SECTORS
    ensures SlotBytes(L.After(disk, ImageWrites(start, slot, img) + [last], n), start, slot)[..16] == img[..16]
  {
    hide L.DataWrites, L.Extent, L.After;
    var ws := ImageWrites(start, slot, img);
    var base := SlotSector(start, slot);
    assert (ws + [last])[..n] == ws[..n];
    L.AfterPrefix(disk, ws, ws + [last], n);
    var d := L.After(disk, ws, n);
    L.DataLands(disk, base, img, n);
    L.ExtentPrefix(d, base, n, IMAGE_SECTORS);
    var e, f := L.Extent(d, base, IMAGE_SECTORS), L.Extent(d, base, n);
    var m := L.Min(IMAGE_BYTES, n * SECTOR_SIZE);
    assert f[..m][..16] == f[..16] && img[..m][..16] == img[..16];
    assert e[..n * SECTOR_SIZE][..16] == e[..16];
  }

  // ---- the kernel's own form --------------------------------------------------------------------------

  /** The update region of a disk, written sector by sector. */
  class Updater {
    var disk: seq<Sector>
    const start: nat

    constructor (d: seq<Sector>, at: nat)
      ensures disk == d && start == at
    {
      disk, start := d, at;
    }

    method WriteSector(w: L.SectorWrite)
      modifies this
      ensures disk == L.Put1(old(disk), w)
    {
      if w.at < |disk| { disk := disk[w.at := w.data]; }
    }

    method WriteImage(slot: nat, img: seq<byte>)
      requires slot < 2 && |img| == IMAGE_BYTES
      modifies this
      ensures disk == L.After(old(disk), ImageWrites(start, slot, img), IMAGE_SECTORS)
    {
      hide L.Chunk;
      var s := 0;
      while s < IMAGE_SECTORS
        invariant s <= IMAGE_SECTORS && disk == L.After(old(disk), ImageWrites(start, slot, img), s)
      {
        L.WriteAt(SlotSector(start, slot), img, IMAGE_SECTORS, s);
        var sector := WholeSector(img, s);
        WriteSector(L.SectorWrite(SlotSector(start, slot) + s, sector));
        s := s + 1;
      }
    }

    static method WholeSector(img: seq<byte>, s: nat) returns (r: Sector)
      requires |img| == IMAGE_BYTES && s < IMAGE_SECTORS
      ensures r == L.Chunk(img, s)
    {
      r := img[s * SECTOR_SIZE..(s + 1) * SECTOR_SIZE];
      assert r + Zeros(0) == r;
    }

    /** Read a slot back and measure it. */
    method LoadSlot(slot: nat) returns (r: Option<Image>)
      requires Room(disk, start) && slot < 2
      ensures r == Load(disk, start, slot)
    {
      hide H.Digest;
      var img: seq<byte>, s := [], 0;
      while s < IMAGE_SECTORS
        invariant s <= IMAGE_SECTORS && img == L.Extent(disk, SlotSector(start, slot), s)
      {
        img := img + disk[SlotSector(start, slot) + s];
        s := s + 1;
      }
      if U64At(img, 0) != IMG_MAGIC { return None; }
      r := Some(Image(U64At(img, 8), U64At(img, 16), H.Digest(img)));
    }

    method WriteControl(c: Control) returns (c': Control)
      requires ControlFits(c) && c.seqno + 1 < U64
      modifies this
      ensures c' == Bumped(c) && disk == L.Put1(old(disk), Store(start, c'))
    {
      c' := c.(seqno := c.seqno + 1);
      WriteSector(L.SectorWrite(start, EncodeControl(c')));
    }

    method StageSlot(c: Control, slot: nat, version: nat, healthy: bool) returns (c': Control)
      requires ControlFits(c) && slot < 2 && version < U64 && c.seqno + 1 < U64
      modifies this
      ensures var p := PlanStage(start, c, slot, version, healthy); disk == L.After(old(disk), p.writes, 9) && p.ram == Up(c')
    {
      hide BuildImage, H.Digest, EncodeControl, L.DataWrites, L.After;
      var img := BuildImage(version, healthy);
      H.DigestLength(img);
      WriteImage(slot, img);
      c' := c.(version := c.version[slot := version], digest := c.digest[slot := H.Digest(img)],
               state := c.state[slot := Unverified], active := slot, tries := MAX_TRIES);
      c' := WriteControl(c');
      ghost var ws := ImageWrites(start, slot, img);
      LastWrite(old(disk), ws, Store(start, c'));
      assert (ws + [Store(start, c')])[..8] == ws[..8];
      L.AfterPrefix(old(disk), ws, ws + [Store(start, c')], 8);
    }

    method MarkSuccessful(c: Control) returns (c': Control)
      requires ControlFits(c) && c.seqno + 1 < U64
      modifies this
      ensures c' == Confirmed(c) && disk == L.Put1(old(disk), Store(start, c'))
    {
      var st := c.state[c.active := Successful];
      if st[1 - c.active] == Successful { st := st[1 - c.active := Empty]; }
      c' := WriteControl(c.(state := st, tries := 0));
    }

    /** Decide what to boot, and record the decision before acting on it. */
    method BootDevice() returns (ram: Ram, outcome: Outcome)
      requires Room(disk, start) && Countable(disk, start)
      modifies this
      ensures var p := PlanBoot(old(disk), start);
              disk == L.After(old(disk), p.writes, |p.writes|) && ram == p.ram && outcome == p.outcome
    {
      hide EncodeControl, DecodeControl, Load;
      ghost var p := PlanBoot(disk, start);
      After0(disk, p.writes);
      var d := DecodeControl(disk[start]);
      if d == None { return FreshBoot, Fresh; }
      var c := d.value;
      if c.state[c.active] == Unverified && c.tries == 0 {
        var from, to := c.active, 1 - c.active;
        if c.state[to] == Successful {
          c := WriteControl(c.(state := c.state[from := Failed], active := to,
                               rollbacks := if c.rollbacks == 255 then 255 else c.rollbacks + 1));
          After1(old(disk), Store(start, c));
          return Up(c), RolledBack(from, to, c.version[to]);
        }
        c := WriteControl(c.(tries := 1));
        After1(old(disk), Store(start, c));
        SameImages(old(disk), disk, start, c.active);
        ram, outcome := BootFrom(c);
        AfterMore(old(disk), Store(start, c), p.writes);
        return;
      }
      ram, outcome := BootFrom(c);
    }

    method BootFrom(c: Control) returns (ram: Ram, outcome: Outcome)
      requires Room(disk, start) && ControlFits(c) && c.seqno + 1 < U64
      modifies this
      ensures var p := BootSlot(old(disk), start, c, []);
              disk == L.After(old(disk), p.writes, |p.writes|) && ram == p.ram && outcome == p.outcome
    {
      hide EncodeControl, Load;
      var img := LoadSlot(c.active);
      After0(disk, []);
      if img == None || img.value.digest != c.digest[c.active] || img.value.version != c.version[c.active] {
        return Up(c), Corrupt(c.active);
      }
      if c.state[c.active] == Unverified {
        var c' := WriteControl(c.(tries := if c.tries == 0 then 0 else c.tries - 1));
        After1(old(disk), Store(start, c'));
        assert [] + [Store(start, c')] == [Store(start, c')];
        return Up(c'), Trying(c.active, img.value.version, c'.tries, img.value.flags % 2 == 1);
      }
      return Up(c), Booted(c.active, img.value.version);
    }
  }

  lemma SameImages(a: Disk, b: Disk, start: nat, slot: nat)
    requires Room(a, start) && |b| == |a| && slot < 2 && forall i | 0 <= i < |a| && i != start :: a[i] == b[i]
    ensures SlotBytes(a, start, slot) == SlotBytes(b, start, slot) && Load(a, start, slot) == Load(b, start, slot)
  {
    L.ExtentFrame(a, b, SlotSector(start, slot), IMAGE_SECTORS);
  }

  /** A write before a list of at most one more. */
  lemma AfterMore(disk: Disk, w: L.SectorWrite, ws: seq<L.SectorWrite>)
    requires 1 <= |ws| <= 2 && ws[0] == w
    ensures L.After(disk, ws, |ws|) == L.After(L.Put1(disk, w), ws[1..], |ws| - 1)
  {
    After0(disk, ws);
    assert L.After(disk, ws, 1) == L.Put1(disk, w);
    After0(L.Put1(disk, w), ws[1..]);
  }
}
