/** Capabilities: a ledger of who derived what from whom, tables of installed capabilities, and revocation of a subtree. */
module Capability {
  import opened Wrappers

  const CAP_SLOTS: nat := 8
  const BAD_SLOT := "capability slot out of range"
  const NO_PROCESS := "no such process"

  datatype Obj = Channel(ch: nat) | Mmio(base: nat, size: nat) | Irq(line: nat) | Dma(start: nat, pages: nat) | Operation(name: string)

  /** A word of rights, as the set of its bits. */
  type Rights = set<nat>

  datatype Provenance = Provenance(parent: nat, holder: string, purpose: string, rights: Rights)

  datatype Cap = Cap(id: nat, obj: Obj, rights: Rights, revoked: bool, holder: string, purpose: string)

  /** Entry `id - 1` tells of capability `id`; parent zero is none. */
  type Ledger = seq<Provenance>

  /** Every capability was derived from an older one. */
  predicate Forest(l: Ledger) { forall i | 0 <= i < |l| :: l[i].parent <= i }

  predicate Within(a: Rights, b: Rights) { a <= b }

  /** Rights are intersected, never joined. */
  function Narrow(a: Rights, b: Rights): (r: Rights)
    ensures Within(r, a) && forall x :: x in r <==> x in a && x in b
  {
    a * b
  }

  // ---- descent ------------------------------------------------------------------------------------------------

  /** The climb `is_descendant` makes. */
  predicate Descends(l: Ledger, id: nat, ancestor: nat)
    requires Forest(l)
    decreases id
  {
    id != 0 && (id == ancestor || (id <= |l| && Descends(l, l[id - 1].parent, ancestor)))
  }

  predicate Child(l: Ledger, id: nat, parent: nat) { 1 <= id <= |l| && l[id - 1].parent == parent && parent != 0 }

  /** A line of descent, child to parent. */
  predicate Line(l: Ledger, p: seq<nat>) {
    p != [] && p[0] != 0 && forall i | 0 <= i < |p| - 1 :: Child(l, p[i], p[i + 1])
  }

  ghost predicate AncestorOf(l: Ledger, id: nat, ancestor: nat) {
    exists p :: Line(l, p) && p[0] == id && p[|p| - 1] == ancestor
  }

  lemma {:induction false} DescendsHasLine(l: Ledger, id: nat, ancestor: nat)
    requires Forest(l) && Descends(l, id, ancestor)
    ensures AncestorOf(l, id, ancestor)
    decreases id
  {
    if id == ancestor {
      assert Line(l, [id]) && [id][0] == id && [id][|[id]| - 1] == ancestor;
    } else {
      var parent := l[id - 1].parent;
      DescendsHasLine(l, parent, ancestor);
      var p :| Line(l, p) && p[0] == parent && p[|p| - 1] == ancestor;
      var q := [id] + p;
      forall i | 0 <= i < |q| - 1 ensures Child(l, q[i], q[i + 1]) {
        if i > 0 { assert Child(l, p[i - 1], p[i]); }
      }
      assert Line(l, q) && q[0] == id && q[|q| - 1] == ancestor;
    }
  }

  lemma {:induction false} LineDescends(l: Ledger, p: seq<nat>)
    requires Forest(l) && Line(l, p)
    ensures Descends(l, p[0], p[|p| - 1])
    decreases |p|
  {
    if |p| > 1 {
      assert Child(l, p[0], p[1]);
      var q := p[1..];
      forall i | 0 <= i < |q| - 1 ensures Child(l, q[i], q[i + 1]) { assert Child(l, p[i + 1], p[i + 2]); }
      LineDescends(l, q);
    }
  }

  /** The climb answers exactly whether there is a line of descent. */
  lemma DescendsIsAncestry(l: Ledger, id: nat, ancestor: nat)
    requires Forest(l)
    ensures Descends(l, id, ancestor) <==> AncestorOf(l, id, ancestor)
  {
    if Descends(l, id, ancestor) { DescendsHasLine(l, id, ancestor); }
    if AncestorOf(l, id, ancestor) {
      var p :| Line(l, p) && p[0] == id && p[|p| - 1] == ancestor;
      LineDescends(l, p);
    }
  }

  /** Descent never goes to a younger capability, so no capability descends from its own descendant. */
  lemma {:induction false} DescendsDown(l: Ledger, id: nat, ancestor: nat)
    requires Forest(l) && Descends(l, id, ancestor)
    ensures 0 < ancestor <= id
    decreases id
  {
    if id != ancestor { DescendsDown(l, l[id - 1].parent, ancestor); }
  }

  /** Rights only shrink from parent to child. */
  predicate Shrinking(l: Ledger)
    requires Forest(l)
  {
    forall i | 0 <= i < |l| && l[i].parent != 0 :: Within(l[i].rights, l[l[i].parent - 1].rights)
  }

  lemma WithinTrans(a: Rights, b: Rights, c: Rights)
    requires Within(a, b) && Within(b, c)
    ensures Within(a, c)
  {
  }

  /** No capability has a right its ancestors lack. */
  lemma {:induction false} RightsShrink(l: Ledger, id: nat, ancestor: nat)
    requires Forest(l) && Shrinking(l) && Descends(l, id, ancestor) && id <= |l|
    ensures 0 < ancestor <= id && Within(l[id - 1].rights, l[ancestor - 1].rights)
    decreases id
  {
    hide Within;
    DescendsDown(l, id, ancestor);
    if id == ancestor {
      WithinSelf(l[id - 1].rights);
    } else {
      var parent := l[id - 1].parent;
      RightsShrink(l, parent, ancestor);
      WithinTrans(l[id - 1].rights, l[parent - 1].rights, l[ancestor - 1].rights);
    }
  }

  lemma WithinSelf(a: Rights)
    ensures Within(a, a)
  {
  }

  /** Minting does not change who descends from whom. */
  lemma {:induction false} DescendsKept(l: Ledger, p: Provenance, id: nat, ancestor: nat)
    requires Forest(l) && Forest(l + [p]) && id <= |l|
    ensures Descends(l + [p], id, ancestor) <==> Descends(l, id, ancestor)
    decreases id
  {
    if id != 0 {
      assert (l + [p])[id - 1] == l[id - 1];
      DescendsKept(l, p, l[id - 1].parent, ancestor);
    }
  }

  // ---- the chain of delegation --------------------------------------------------------------------------------

  /** What `chain` writes into a buffer of `room` entries. */
  function Chain(l: Ledger, id: nat, room: nat): seq<(nat, Provenance)>
    decreases room
  {
    if id == 0 || room == 0 || id > |l| then [] else [(id, l[id - 1])] + Chain(l, l[id - 1].parent, room - 1)
  }

  predicate Mentions(c: seq<(nat, Provenance)>, x: nat) { exists i | 0 <= i < |c| :: c[i].0 == x }

  /** With room enough, the chain names the capability's ancestors, all of them and nothing else. */
  lemma {:induction false} ChainIsAncestry(l: Ledger, id: nat, room: nat, x: nat)
    requires Forest(l) && id <= |l| && id <= room
    ensures Mentions(Chain(l, id, room), x) <==> Descends(l, id, x)
    decreases id
  {
    if id != 0 {
      var rest := Chain(l, l[id - 1].parent, room - 1);
      var all := Chain(l, id, room);
      ChainIsAncestry(l, l[id - 1].parent, room - 1, x);
      assert all[0].0 == id;
      if Mentions(rest, x) {
        var i :| 0 <= i < |rest| && rest[i].0 == x;
        assert all[i + 1].0 == x;
      }
      if Mentions(all, x) && x != id {
        var i :| 0 <= i < |all| && all[i].0 == x;
        assert rest[i - 1].0 == x;
      }
    }
  }

  /** However little room there is, what is written is the nearest part of the chain, child to parent, each with its record. */
  lemma {:induction false} ChainIsLine(l: Ledger, id: nat, room: nat)
    requires Forest(l) && 0 < id <= |l| && room > 0
    ensures var c := Chain(l, id, room);
      && c != [] && c[0] == (id, l[id - 1]) && |c| <= room
      && (forall i | 0 <= i < |c| :: 1 <= c[i].0 <= |l| && c[i].1 == l[c[i].0 - 1])
      && (forall i | 0 <= i < |c| - 1 :: c[i].1.parent == c[i + 1].0)
      && (|c| < room ==> c[|c| - 1].1.parent == 0)
    decreases id
  {
    var parent := l[id - 1].parent;
    if parent != 0 && room > 1 { ChainIsLine(l, parent, room - 1); }
  }

  // ---- the system ---------------------------------------------------------------------------------------------

  type Slots = t: seq<Option<Cap>> | |t| == CAP_SLOTS witness seq(CAP_SLOTS, _ => None)

  /** `tables` are the processes' capability tables; `loose` the copies held by kernel code. */
  datatype System = System(ledger: Ledger, tables: seq<Slots>, loose: seq<Cap>)

  function Register(l: Ledger, parent: nat, holder: string, purpose: string, rights: Rights): (Ledger, nat) {
    (l + [Provenance(parent, holder, purpose, rights)], |l| + 1)
  }

  function Root(s: System, obj: Obj, rights: Rights, holder: string, purpose: string): System {
    var (l, id) := Register(s.ledger, 0, holder, purpose, rights);
    s.(ledger := l, loose := s.loose + [Cap(id, obj, rights, false, holder, purpose)])
  }

  function Derive(s: System, c: Cap, rights: Rights, holder: string, purpose: string): System {
    var narrowed := Narrow(c.rights, rights);
    var (l, id) := Register(s.ledger, c.id, holder, purpose, narrowed);
    s.(ledger := l, loose := s.loose + [Cap(id, c.obj, narrowed, c.revoked, holder, purpose)])
  }

  function Lookup(s: System, pid: nat, slot: nat): Option<Cap> {
    if slot < CAP_SLOTS && pid < |s.tables| then s.tables[pid][slot] else None
  }

  function Install(s: System, pid: nat, slot: nat, c: Cap): (System, Option<string>) {
    if slot >= CAP_SLOTS then (s, Some(BAD_SLOT))
    else if pid >= |s.tables| then (s, Some(NO_PROCESS))
    else (s.(tables := s.tables[pid := s.tables[pid][slot := Some(c)]]), None)
  }

  function Spawn(s: System): System { s.(tables := s.tables + [seq(CAP_SLOTS, _ => None)]) }

  /**
   What a derivation makes: a capability to the same object, with exactly the rights both asked for and held, dead if its
   parent is, and a ledger entry naming that parent; nothing else changes.
   */
  lemma DeriveIs(s: System, c: Cap, rights: Rights, holder: string, purpose: string)
    ensures var t, n := Derive(s, c, rights, holder, purpose), |s.ledger|;
      && |t.ledger| == n + 1 && t.ledger[..n] == s.ledger && t.tables == s.tables
      && |t.loose| == |s.loose| + 1 && t.loose[..|s.loose|] == s.loose
      && var d, e := t.loose[|s.loose|], t.ledger[n];
      && d.id == n + 1 && d.obj == c.obj && d.revoked == c.revoked && d.holder == holder && d.purpose == purpose
      && (forall x :: x in d.rights <==> x in c.rights && x in rights)
      && e.parent == c.id && e.rights == d.rights && e.holder == holder && e.purpose == purpose
  {
    hide Narrow;
  }

  /** What minting makes: a live capability with all the rights asked for, derived from none. */
  lemma RootIs(s: System, obj: Obj, rights: Rights, holder: string, purpose: string)
    ensures var t, n := Root(s, obj, rights, holder, purpose), |s.ledger|;
      && t.ledger == s.ledger + [Provenance(0, holder, purpose, rights)] && t.tables == s.tables
      && t.loose == s.loose + [Cap(n + 1, obj, rights, false, holder, purpose)]
  {
  }

  /** What is installed is what is found, at that place and no other; and it is refused only where there is no such place. */
  lemma InstalledIsFound(s: System, pid: nat, slot: nat, c: Cap, p: nat, i: nat)
    ensures var (t, error) := Install(s, pid, slot, c);
      && (error == None <==> slot < 8 && pid < |s.tables|)
      && (error == None ==> Lookup(t, p, i) == if p == pid && i == slot then Some(c) else Lookup(s, p, i))
      && (error != None ==> t == s && error.value == if slot >= 8 then "capability slot out of range" else "no such process")
  {
  }

  predicate Doomed(l: Ledger, c: Option<Cap>, x: nat)
    requires Forest(l)
  {
    c.Some? && !c.value.revoked && Descends(l, c.value.id, x)
  }

  function Killed(l: Ledger, c: Option<Cap>, x: nat): Option<Cap>
    requires Forest(l)
  {
    if Doomed(l, c, x) then Some(c.value.(revoked := true)) else c
  }

  function KillSlots(l: Ledger, slots: seq<Option<Cap>>, x: nat): (r: seq<Option<Cap>>)
    requires Forest(l)
    ensures |r| == |slots| && forall i | 0 <= i < |slots| :: r[i] == Killed(l, slots[i], x)
  {
    if slots == [] then [] else KillSlots(l, slots[..|slots| - 1], x) + [Killed(l, slots[|slots| - 1], x)]
  }

  function KillTables(l: Ledger, tables: seq<Slots>, x: nat): (r: seq<Slots>)
    requires Forest(l)
    ensures |r| == |tables| && forall i | 0 <= i < |tables| :: r[i] == KillSlots(l, tables[i], x)
  {
    if tables == [] then [] else KillTables(l, tables[..|tables| - 1], x) + [KillSlots(l, tables[|tables| - 1], x)]
  }

  function Revoke(s: System, x: nat): System
    requires Forest(s.ledger)
  {
    s.(tables := KillTables(s.ledger, s.tables, x))
  }

  /** The places whose capability a revocation ends. */
  function DoomedPlaces(l: Ledger, tables: seq<Slots>, x: nat): set<(nat, nat)>
    requires Forest(l)
  {
    set p, i | 0 <= p < |tables| && 0 <= i < CAP_SLOTS && Doomed(l, tables[p][i], x) :: (p, i)
  }

  /** A revocation ends exactly the live installed descendants and changes nothing else about any capability. */
  lemma RevokeMarks(s: System, x: nat, pid: nat, slot: nat)
    requires Forest(s.ledger) && pid < |s.tables| && slot < CAP_SLOTS
    ensures var was, now := s.tables[pid][slot], Revoke(s, x).tables[pid][slot];
      && (was == None ==> now == None)
      && (was.Some? ==>
            now.Some? && now.value == was.value.(revoked := was.value.revoked || AncestorOf(s.ledger, was.value.id, x)))
  {
    hide Descends, AncestorOf;
    var was := s.tables[pid][slot];
    if was.Some? { DescendsIsAncestry(s.ledger, was.value.id, x); }
  }

  // ---- every run ----------------------------------------------------------------------------------------------

  datatype Op =
    | DoRoot(obj: Obj, rights: Rights, holder: string, purpose: string)
    | DoDerive(i: nat, rights: Rights, holder: string, purpose: string)
    | DoLookup(pid: nat, slot: nat)
    | DoInstall(pid: nat, slot: nat, i: nat)
    | DoForget(i: nat)
    | DoSpawn
    | DoRevoke(x: nat)

  function Apply(s: System, op: Op): System
    requires Forest(s.ledger)
  {
    match op
    case DoRoot(obj, rights, holder, purpose) => Root(s, obj, rights, holder, purpose)
    case DoDerive(i, rights, holder, purpose) => if i < |s.loose| then Derive(s, s.loose[i], rights, holder, purpose) else s
    case DoLookup(pid, slot) => (match Lookup(s, pid, slot) case None => s case Some(c) => s.(loose := s.loose + [c]))
    case DoInstall(pid, slot, i) => if i < |s.loose| then Install(s, pid, slot, s.loose[i]).0 else s
    case DoForget(i) => if i < |s.loose| then s.(loose := s.loose[..i] + s.loose[i + 1..]) else s
    case DoSpawn => Spawn(s)
    case DoRevoke(x) => Revoke(s, x)
  }

  /** A capability says of itself what the ledger says of it. */
  predicate Known(l: Ledger, c: Cap) { 1 <= c.id <= |l| && c.rights == l[c.id - 1].rights }

  predicate SlotKnown(l: Ledger, c: Option<Cap>) { c.Some? ==> Known(l, c.value) }

  predicate Inv(s: System) {
    && Forest(s.ledger) && Shrinking(s.ledger)
    && (forall i | 0 <= i < |s.loose| :: Known(s.ledger, s.loose[i]))
    && (forall p, i | 0 <= p < |s.tables| && 0 <= i < CAP_SLOTS :: SlotKnown(s.ledger, s.tables[p][i]))
  }

  /** The system before anything is minted. */
  lemma EmptyInv()
    ensures Inv(System([], [], []))
  {
  }

  lemma MintKeeps(s: System, parent: nat, holder: string, purpose: string, rights: Rights, c: Cap)
    requires Inv(s) && parent <= |s.ledger| && (parent != 0 ==> Within(rights, s.ledger[parent - 1].rights))
    requires c.id == |s.ledger| + 1 && c.rights == rights
    ensures Inv(s.(ledger := s.ledger + [Provenance(parent, holder, purpose, rights)], loose := s.loose + [c]))
  {
    hide Within;
    var l, m := s.ledger, s.ledger + [Provenance(parent, holder, purpose, rights)];
    assert forall i | 0 <= i < |l| :: m[i] == l[i];
    assert forall d: Cap | Known(l, d) :: Known(m, d);
    forall p, i | 0 <= p < |s.tables| && 0 <= i < CAP_SLOTS ensures SlotKnown(m, s.tables[p][i]) {
      assert SlotKnown(l, s.tables[p][i]);
    }
  }

  lemma LookupInv(s: System, c: Cap, pid: nat, slot: nat)
    requires Inv(s) && Lookup(s, pid, slot) == Some(c)
    ensures Inv(s.(loose := s.loose + [c]))
  {
    hide Shrinking, Known;
    assert SlotKnown(s.ledger, s.tables[pid][slot]);
  }

  lemma InstallInv(s: System, pid: nat, slot: nat, i: nat)
    requires Inv(s) && i < |s.loose|
    ensures Inv(Install(s, pid, slot, s.loose[i]).0)
  {
    hide Shrinking, Known;
    assert Known(s.ledger, s.loose[i]);
  }

  lemma ForgetInv(s: System, i: nat)
    requires Inv(s) && i < |s.loose|
    ensures Inv(s.(loose := s.loose[..i] + s.loose[i + 1..]))
  {
    hide Shrinking, Known;
    var rest := s.loose[..i] + s.loose[i + 1..];
    forall j | 0 <= j < |rest| ensures Known(s.ledger, rest[j]) {
      assert rest[j] == if j < i then s.loose[j] else s.loose[j + 1];
    }
  }

  lemma RevokeInv(s: System, x: nat)
    requires Inv(s)
    ensures Inv(Revoke(s, x))
  {
    hide Shrinking, Descends;
    var t := Revoke(s, x);
    forall p, i | 0 <= p < |t.tables| && 0 <= i < CAP_SLOTS ensures SlotKnown(t.ledger, t.tables[p][i]) {
      assert SlotKnown(s.ledger, s.tables[p][i]);
      assert t.tables[p][i] == Killed(s.ledger, s.tables[p][i], x);
    }
  }

  lemma SpawnInv(s: System)
    requires Inv(s)
    ensures Inv(Spawn(s))
  {
    hide Shrinking, Known;
  }

  lemma RootInv(s: System, obj: Obj, rights: Rights, holder: string, purpose: string)
    requires Inv(s)
    ensures Inv(Root(s, obj, rights, holder, purpose))
  {
    hide Inv;
    MintKeeps(s, 0, holder, purpose, rights, Cap(|s.ledger| + 1, obj, rights, false, holder, purpose));
  }

  lemma LooseKnown(s: System, i: nat)
    requires Inv(s) && i < |s.loose|
    ensures Known(s.ledger, s.loose[i])
  {
  }

  lemma DeriveInv(s: System, i: nat, rights: Rights, holder: string, purpose: string)
    requires Inv(s) && i < |s.loose|
    ensures Inv(Derive(s, s.loose[i], rights, holder, purpose))
  {
    hide Within, Inv, Narrow;
    var c := s.loose[i];
    LooseKnown(s, i);
    MintKeeps(s, c.id, holder, purpose, Narrow(c.rights, rights), Cap(|s.ledger| + 1, c.obj, Narrow(c.rights, rights), c.revoked, holder, purpose));
  }

  /** Every operation keeps the ledger a forest whose rights shrink, and every capability true to it. */
  lemma StepInv(s: System, op: Op)
    requires Inv(s)
    ensures Inv(Apply(s, op)) && s.ledger <= Apply(s, op).ledger
  {
    hide Inv, Descends, KillTables, Known, SlotKnown;
    match op
    case DoRoot(obj, rights, holder, purpose) => RootInv(s, obj, rights, holder, purpose);
    case DoDerive(i, rights, holder, purpose) =>
      if i < |s.loose| { DeriveInv(s, i, rights, holder, purpose); }
    case DoLookup(pid, slot) =>
      if Lookup(s, pid, slot).Some? { LookupInv(s, Lookup(s, pid, slot).value, pid, slot); }
    case DoInstall(pid, slot, i) =>
      if i < |s.loose| { InstallInv(s, pid, slot, i); }
    case DoForget(i) =>
      if i < |s.loose| { ForgetInv(s, i); }
    case DoSpawn => SpawnInv(s);
    case DoRevoke(x) => RevokeInv(s, x);
  }

  /** A capability that works and comes from `x`. */
  predicate Live(l: Ledger, c: Cap, x: nat)
    requires Forest(l)
  {
    !c.revoked && Descends(l, c.id, x)
  }

  predicate CutOff(s: System, x: nat)
    requires Forest(s.ledger)
  {
    forall p, i | 0 <= p < |s.tables| && 0 <= i < CAP_SLOTS :: !Doomed(s.ledger, s.tables[p][i], x)
  }

  predicate NoneLoose(s: System, x: nat)
    requires Forest(s.ledger)
  {
    forall i | 0 <= i < |s.loose| :: !Live(s.ledger, s.loose[i], x)
  }

  /** Revoking cuts off everything installed, at once. */
  lemma RevokeCuts(s: System, x: nat)
    requires Forest(s.ledger)
    ensures CutOff(Revoke(s, x), x)
  {
    hide Descends;
    var t := Revoke(s, x);
    forall p, i | 0 <= p < |t.tables| && 0 <= i < CAP_SLOTS ensures !Doomed(t.ledger, t.tables[p][i], x) {
      assert t.tables[p][i] == Killed(s.ledger, s.tables[p][i], x);
    }
  }

  lemma MintedDescends(l: Ledger, p: Provenance, x: nat)
    requires Forest(l) && p.parent <= |l| && x <= |l|
    ensures Forest(l + [p]) && (Descends(l + [p], |l| + 1, x) <==> Descends(l, p.parent, x))
  {
    assert (l + [p])[|l|] == p;
    DescendsKept(l, p, p.parent, x);
  }

  lemma MintStaysCut(s: System, t: System, p: Provenance, c: Cap, x: nat)
    requires Inv(s) && x <= |s.ledger| && CutOff(s, x) && NoneLoose(s, x) && p.parent <= |s.ledger|
    requires t == s.(ledger := s.ledger + [p], loose := s.loose + [c]) && c.id == |s.ledger| + 1
    requires Descends(s.ledger, p.parent, x) ==> c.revoked
    ensures Forest(t.ledger) && CutOff(t, x) && NoneLoose(t, x)
  {
    hide Descends, Shrinking;
    MintedDescends(s.ledger, p, x);
    forall i | 0 <= i < |t.loose| ensures !Live(t.ledger, t.loose[i], x) {
      if i < |s.loose| {
        assert Known(s.ledger, s.loose[i]) && !Live(s.ledger, s.loose[i], x);
        DescendsKept(s.ledger, p, s.loose[i].id, x);
      }
    }
    forall q, i | 0 <= q < |t.tables| && 0 <= i < CAP_SLOTS ensures !Doomed(t.ledger, t.tables[q][i], x) {
      assert SlotKnown(s.ledger, s.tables[q][i]) && !Doomed(s.ledger, s.tables[q][i], x);
      if s.tables[q][i].Some? { DescendsKept(s.ledger, p, s.tables[q][i].value.id, x); }
    }
  }

  /** With no working copy anywhere, no operation brings one back. */
  lemma StepStaysCut(s: System, op: Op, x: nat)
    requires Inv(s) && x <= |s.ledger| && CutOff(s, x) && NoneLoose(s, x)
    ensures Forest(Apply(s, op).ledger) && CutOff(Apply(s, op), x) && NoneLoose(Apply(s, op), x)
  {
    hide Descends, Shrinking;
    match op
    case DoRoot(obj, rights, holder, purpose) =>
      NothingAboveZero(s.ledger, x);
      MintStaysCut(s, Apply(s, op), Provenance(0, holder, purpose, rights), Cap(|s.ledger| + 1, obj, rights, false, holder, purpose), x);
    case DoDerive(i, rights, holder, purpose) =>
      if i < |s.loose| {
        var c := s.loose[i];
        var narrowed := Narrow(c.rights, rights);
        assert Known(s.ledger, c) && !Live(s.ledger, c, x);
        MintStaysCut(s, Apply(s, op), Provenance(c.id, holder, purpose, narrowed),
                     Cap(|s.ledger| + 1, c.obj, narrowed, c.revoked, holder, purpose), x);
      }
    case DoLookup(pid, slot) =>
      if Lookup(s, pid, slot).Some? { assert !Doomed(s.ledger, s.tables[pid][slot], x); }
    case DoInstall(pid, slot, i) =>
      if i < |s.loose| { assert !Live(s.ledger, s.loose[i], x); }
    case DoForget(i) =>
    case DoSpawn =>
    case DoRevoke(y) =>
      var t := Apply(s, op);
      forall p, i | 0 <= p < |t.tables| && 0 <= i < CAP_SLOTS ensures !Doomed(t.ledger, t.tables[p][i], x) {
        assert !Doomed(s.ledger, s.tables[p][i], x);
        assert t.tables[p][i] == Killed(s.ledger, s.tables[p][i], y);
      }
  }

  lemma NothingAboveZero(l: Ledger, x: nat)
    requires Forest(l)
    ensures !Descends(l, 0, x)
  {
  }

  function Run(s: System, ops: seq<Op>): (t: System)
    requires Inv(s)
    ensures Inv(t)
    decreases |ops|
  {
    if ops == [] then s
    else
      StepInv(s, ops[0]);
      Run(Apply(s, ops[0]), ops[1..])
  }

  /** A revocation lasts through every later run when no working copy was kept out of the tables. */
  lemma {:induction false} RevocationLasts(s: System, x: nat, ops: seq<Op>)
    requires Inv(s) && x <= |s.ledger| && CutOff(s, x) && NoneLoose(s, x)
    ensures CutOff(Run(s, ops), x)
    decreases |ops|
  {
    hide Inv, Apply, CutOff, NoneLoose;
    if ops != [] {
      StepInv(s, ops[0]);
      StepStaysCut(s, ops[0], x);
      RevocationLasts(Apply(s, ops[0]), x, ops[1..]);
    }
  }

  /**
   The exact condition: after `revoke(x)` nothing installed ever works on the authority of `x` again if and only if kernel
   code holds no working copy from it, since a copy outside the tables is not found by the revocation and can be installed.
   */
  lemma StaysCutOff(s: System, x: nat)
    requires Inv(s) && x <= |s.ledger|
    ensures Inv(Revoke(s, x))
    ensures (forall ops :: CutOff(Run(Revoke(s, x), ops), x)) <==> NoneLoose(s, x)
  {
    hide Run, CutOff, Shrinking, Known, SlotKnown, Descends;
    assert Revoke(s, x) == Apply(s, DoRevoke(x));
    StepInv(s, DoRevoke(x));
    var t := Revoke(s, x);
    RevokeCuts(s, x);
    if NoneLoose(s, x) {
      forall ops ensures CutOff(Run(t, ops), x) { RevocationLasts(t, x, ops); }
    } else {
      var i :| 0 <= i < |t.loose| && Live(t.ledger, t.loose[i], x);
      var ops := [DoSpawn, DoInstall(|t.tables|, 0, i)];
      CopyComesBack(t, x, i);
      assert !CutOff(Run(Revoke(s, x), ops), x);
    }
  }

  /** A working copy outside the tables, installed in a new process, works. */
  lemma CopyComesBack(t: System, x: nat, i: nat)
    requires Inv(t) && i < |t.loose| && Live(t.ledger, t.loose[i], x)
    ensures !CutOff(Run(t, [DoSpawn, DoInstall(|t.tables|, 0, i)]), x)
  {
    hide Descends, Shrinking, Known, SlotKnown;
    var install := DoInstall(|t.tables|, 0, i);
    var ops := [DoSpawn, install];
    StepInv(t, DoSpawn);
    var u := Apply(t, DoSpawn);
    StepInv(u, install);
    assert ops[1..] == [install] && [install][1..] == [];
    var v := Apply(u, install);
    assert Run(u, [install]) == Run(v, []) == v;
    assert Run(t, ops) == v;
    assert v.tables[|t.tables|][0] == Some(t.loose[i]);
    assert Doomed(v.ledger, v.tables[|t.tables|][0], x);
  }

  // ---- the source's loops -------------------------------------------------------------------------------------

  predicate Before(p: nat, i: nat, q: nat, j: nat) { p < q || (p == q && i < j) }

  /** The doomed places before (`q`, `j`). */
  function PlacesBefore(l: Ledger, tables: seq<Slots>, x: nat, q: nat, j: nat): set<(nat, nat)>
    requires Forest(l)
  {
    set p, i | 0 <= p < |tables| && 0 <= i < CAP_SLOTS && Before(p, i, q, j) && Doomed(l, tables[p][i], x) :: (p, i)
  }

  lemma OnePlaceMore(l: Ledger, tables: seq<Slots>, x: nat, q: nat, j: nat)
    requires Forest(l) && q < |tables| && j < CAP_SLOTS
    ensures var one := if Doomed(l, tables[q][j], x) then {(q, j)} else {};
      && PlacesBefore(l, tables, x, q, j + 1) == PlacesBefore(l, tables, x, q, j) + one
      && |PlacesBefore(l, tables, x, q, j + 1)| == |PlacesBefore(l, tables, x, q, j)| + |one|
  {
    hide Doomed;
    var one := if Doomed(l, tables[q][j], x) then {(q, j)} else {};
    var before := PlacesBefore(l, tables, x, q, j);
    assert PlacesBefore(l, tables, x, q, j + 1) == before + one;
    assert before !! one;
  }

  lemma NextRow(l: Ledger, tables: seq<Slots>, x: nat, q: nat)
    requires Forest(l)
    ensures PlacesBefore(l, tables, x, q, CAP_SLOTS) == PlacesBefore(l, tables, x, q + 1, 0)
    ensures PlacesBefore(l, tables, x, 0, 0) == {} && PlacesBefore(l, tables, x, |tables|, 0) == DoomedPlaces(l, tables, x)
  {
    hide Doomed;
  }

  /** Channel `ch` is what one of these places reached. */
  ghost predicate Reached(tables: seq<Slots>, places: set<(nat, nat)>, ch: nat) {
    exists p: nat, i: nat | p < |tables| && i < CAP_SLOTS && (p, i) in places ::
      tables[p][i].Some? && tables[p][i].value.obj == Channel(ch)
  }

  class CapSystem {
    var ledger: Ledger
    var tables: seq<Slots>

    method Mint(parent: nat, holder: string, purpose: string, rights: Rights) returns (id: nat)
      modifies this`ledger
      ensures (ledger, id) == Register(old(ledger), parent, holder, purpose, rights)
    {
      ledger := ledger + [Provenance(parent, holder, purpose, rights)];
      return |ledger|;
    }

    method ChainOf(id: nat, room: nat) returns (out: seq<(nat, Provenance)>)
      ensures out == Chain(ledger, id, room)
    {
      var cur: nat := id;
      out := [];
      while cur != 0 && |out| < room && cur <= |ledger|
        invariant |out| <= room && out + Chain(ledger, cur, room - |out|) == Chain(ledger, id, room)
        decreases room - |out|
      {
        var p := ledger[cur - 1];
        assert out + ([(cur, p)] + Chain(ledger, p.parent, room - |out| - 1)) == (out + [(cur, p)]) + Chain(ledger, p.parent, room - |out| - 1);
        out := out + [(cur, p)];
        cur := p.parent;
      }
    }

    method IsDescendant(id: nat, ancestor: nat) returns (r: bool)
      requires Forest(ledger)
      ensures r <==> AncestorOf(ledger, id, ancestor)
    {
      var cur: nat := id;
      DescendsIsAncestry(ledger, id, ancestor);
      while cur != 0
        invariant Descends(ledger, cur, ancestor) == Descends(ledger, id, ancestor)
        decreases cur
      {
        if cur == ancestor { return true; }
        if cur > |ledger| { return false; }
        cur := ledger[cur - 1].parent;
      }
      return false;
    }

    method DeriveFor(c: Cap, rights: Rights, holder: string, purpose: string) returns (d: Cap)
      modifies this`ledger
      ensures System(ledger, tables, [d]) == Derive(System(old(ledger), old(tables), []), c, rights, holder, purpose)
    {
      var narrowed := Narrow(c.rights, rights);
      var id := Mint(c.id, holder, purpose, narrowed);
      return Cap(id, c.obj, narrowed, c.revoked, holder, purpose);
    }

    method InstallCap(pid: nat, slot: nat, c: Cap) returns (error: Option<string>)
      modifies this`tables
      ensures (System(ledger, tables, []), error) == Install(System(ledger, old(tables), []), pid, slot, c)
    {
      if slot >= CAP_SLOTS { return Some(BAD_SLOT); }
      if pid >= |tables| { return Some(NO_PROCESS); }
      tables := tables[pid := tables[pid][slot := Some(c)]];
      return None;
    }

    method RevokeRow(x: nat, p: nat, killed0: nat, channels0: seq<nat>, ghost was: seq<Slots>)
      returns (killed: nat, channels: seq<nat>)
      requires Forest(ledger) && p < |was| == |tables| && tables[p] == was[p]
      requires killed0 == |PlacesBefore(ledger, was, x, p, 0)|
      requires forall ch :: ch in channels0 <==> Reached(was, PlacesBefore(ledger, was, x, p, 0), ch)
      modifies this`tables
      ensures tables == old(tables)[p := KillSlots(ledger, was[p], x)]
      ensures killed == |PlacesBefore(ledger, was, x, p + 1, 0)|
      ensures forall ch :: ch in channels <==> Reached(was, PlacesBefore(ledger, was, x, p + 1, 0), ch)
    {
      hide Descends, Forest, PlacesBefore, Reached;
      killed, channels := killed0, channels0;
      for i := 0 to CAP_SLOTS
        invariant |tables| == |was| && tables == old(tables)[p := tables[p]]
        invariant forall k | 0 <= k < i :: tables[p][k] == Killed(ledger, was[p][k], x)
        invariant forall k | i <= k < CAP_SLOTS :: tables[p][k] == was[p][k]
        invariant killed == |PlacesBefore(ledger, was, x, p, i)|
        invariant forall ch :: ch in channels <==> Reached(was, PlacesBefore(ledger, was, x, p, i), ch)
      {
        OnePlaceMore(ledger, was, x, p, i);
        ghost var before := PlacesBefore(ledger, was, x, p, i);
        var slot := tables[p][i];
        var hit := false;
        if slot.Some? && !slot.value.revoked {
          hit := IsDescendant(slot.value.id, x);
          DescendsIsAncestry(ledger, slot.value.id, x);
        }
        assert hit <==> Doomed(ledger, was[p][i], x);
        if hit {
          tables := tables[p := tables[p][i := Some(slot.value.(revoked := true))]];
          killed := killed + 1;
          forall ch ensures Reached(was, before + {(p, i)}, ch) <==> Reached(was, before, ch) || slot.value.obj == Channel(ch) {
            ReachedMore(was, before, p, i, ch);
          }
          if slot.value.obj.Channel? && slot.value.obj.ch !in channels { channels := channels + [slot.value.obj.ch]; }
        } else {
          assert before + {} == before;
        }
      }
      NextRow(ledger, was, x, p);
      assert tables[p] == KillSlots(ledger, was[p], x);
    }

    /** Revoke a capability and everything derived from it, wherever it is installed. */
    method RevokeAll(x: nat) returns (killed: nat, channels: seq<nat>)
      requires Forest(ledger)
      modifies this`tables
      ensures tables == KillTables(ledger, old(tables), x)
      ensures killed == |DoomedPlaces(ledger, old(tables), x)|
      ensures forall ch :: ch in channels <==> Reached(old(tables), DoomedPlaces(ledger, old(tables), x), ch)
    {
      hide Descends, Forest, PlacesBefore, Reached, DoomedPlaces, KillSlots;
      killed, channels := 0, [];
      ghost var was := tables;
      NextRow(ledger, was, x, 0);
      forall ch ensures !Reached(was, {}, ch) { ReachedNone(was, ch); }
      for p := 0 to |tables|
        invariant |tables| == |was| && killed == |PlacesBefore(ledger, was, x, p, 0)|
        invariant forall q | 0 <= q < p :: tables[q] == KillSlots(ledger, was[q], x)
        invariant forall q | p <= q < |was| :: tables[q] == was[q]
        invariant forall ch :: ch in channels <==> Reached(was, PlacesBefore(ledger, was, x, p, 0), ch)
      {
        killed, channels := RevokeRow(x, p, killed, channels, was);
      }
      assert tables == KillTables(ledger, was, x);
    }
  }

  lemma ReachedMore(tables: seq<Slots>, places: set<(nat, nat)>, p: nat, i: nat, ch: nat)
    requires p < |tables| && i < CAP_SLOTS && tables[p][i].Some?
    ensures Reached(tables, places + {(p, i)}, ch) <==> Reached(tables, places, ch) || tables[p][i].value.obj == Channel(ch)
  {
    assert (p, i) in places + {(p, i)};
  }

  lemma ReachedNone(tables: seq<Slots>, ch: nat)
    ensures !Reached(tables, {}, ch)
  {
  }
}
