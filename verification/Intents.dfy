/** Intents: what an agent did, recorded step by step before it was done, and put back newest first. */
module Intents {
  import opened Wrappers
  import opened Bytes
  import opened J = Jlfs
  import opened L = JlfsLog
  import opened V = JlfsVolume

  /** The target and its directory entry before the step; without one it did not exist. */
  datatype Step = Step(op: string, target: Str, before: Option<FileEntry>, undoable: bool)

  datatype IntentState = Open | Committed | Undone

  datatype Intent = Intent(id: nat, goal: string, actor: string, cap: nat, steps: seq<Step>, state: IntentState)

  // ---- undo ---------------------------------------------------------------------------------------

  /** What `set_entry` is asked to put back must be a part of the log, as every entry it ever handed out is. */
  predicate CanReverse(v: Volume, s: Step) {
    Good(v.fs, v.disk) && Sound(v.fs) && Proper(v.fs, SetEntry(s.target, s.before))
  }

  function Reversed(v: Volume, s: Step): Volume
    requires CanReverse(v, s)
  {
    Next(v, Do(SetEntry(s.target, s.before)))
  }

  function ErrorOf(v: Volume, s: Step): string
    requires CanReverse(v, s)
  {
    PlanOf(v.fs, SetEntry(s.target, s.before)).error
  }

  function PutBack(v: Volume, s: Step): Result<Volume> {
    if !CanReverse(v, s) then Err("not an entry of this log")
    else if ErrorOf(v, s) != "" then Err(ErrorOf(v, s))
    else Ok(Reversed(v, s))
  }

  datatype Outcome = Outcome(volume: Volume, reversed: nat, refused: nat, error: string)

  /** Put back the first `k` steps, newest first, up to the first error. */
  function UndoFrom(v: Volume, steps: seq<Step>, k: nat, reversed: nat, refused: nat): Outcome
    requires k <= |steps|
    decreases k
  {
    if k == 0 then Outcome(v, reversed, refused, "")
    else if !steps[k - 1].undoable then UndoFrom(v, steps, k - 1, reversed, refused + 1)
    else
      match PutBack(v, steps[k - 1])
      case Err(e) => Outcome(v, reversed, refused, e)
      case Ok(v') => UndoFrom(v', steps, k - 1, reversed + 1, refused)
  }

  // ---- what an intent does, and others beside it ------------------------------------------------------

  /**
   A change the intent makes to a file; something of the intent's that leaves the device and cannot be undone; or a change
   somebody else makes meanwhile.
   */
  datatype Act = Change(what: string, op: Op) | External(what: string, target: Str) | Other(op: Op)

  /** A change under a name without NUL bytes; an entry set goes under its own name. */
  predicate Tracked(v: Volume, a: Act) {
    !a.External? ==>
      && Proper(v.fs, a.op) && 0 !in a.op.name
      && (a.op.SetEntry? && a.op.entry.Some? ==> NameStr(a.op.entry.value) == a.op.name)
  }

  /** `record` with the file's current entry. */
  function Recorded(v: Volume, a: Act): Step
    requires !a.Other?
  {
    match a
    case Change(what, op) => Step(what, op.name, EntryOf(v.fs.cp.files, op.name), true)
    case External(what, target) => Step(what, target, None, false)
  }

  /** A mounted filesystem with no two files of one name, and room for `n` more commits. */
  predicate Clean(v: Volume, n: nat) { MountsAs(v.disk, v.fs) && Distinct(v.fs.cp.files) && v.fs.cp.seqno + n < U64 }

  function NameOf(op: Op): seq<byte> { op.name }

  /** The names the intent changes. */
  function Touched(acts: seq<Act>): set<seq<byte>> { set i | 0 <= i < |acts| && acts[i].Change? :: NameOf(acts[i].op) }

  /** The acts one after the other; others change only names the intent does not. */
  predicate Carried(vs: seq<Volume>, acts: seq<Act>) {
    && |vs| == |acts| + 1
    && forall i | 0 <= i < |acts| ::
         && Tracked(vs[i], acts[i])
         && (!acts[i].External? && CanHappen(vs[i], Do(acts[i].op)) ==> vs[i + 1] == Next(vs[i], Do(acts[i].op)))
         && (acts[i].External? ==> vs[i + 1] == vs[i])
         && (acts[i].Other? ==> acts[i].op.name !in Touched(acts))
  }

  /** What the intent has recorded of the first `k` acts, each just before it was done. */
  function StepsOf(vs: seq<Volume>, acts: seq<Act>, k: nat): seq<Step>
    requires k <= |acts| <= |vs|
  {
    if k == 0 then []
    else if acts[k - 1].Other? then StepsOf(vs, acts, k - 1)
    else StepsOf(vs, acts, k - 1) + [Recorded(vs[k - 1], acts[k - 1])]
  }

  /** `v` has the intent's names as `w` has them, all other names as `now` has them, over the log of `now`. */
  ghost predicate Blends(v: Volume, w: Volume, now: Volume, names: set<seq<byte>>) {
    && (forall n: seq<byte> :: EntryOf(v.fs.cp.files, n) == EntryOf((if n in names then w else now).fs.cp.files, n))
    && Continues(now, v)
  }

  /** `v` has the log of `w`, possibly longer. */
  predicate Continues(w: Volume, v: Volume) {
    && w.fs.cp.logHead <= v.fs.cp.logHead <= |v.disk| == |w.disk|
    && forall i | LOG_START <= i < w.fs.cp.logHead :: v.disk[i] == w.disk[i]
  }

  lemma SameFile(v: Volume, w: Volume, name: seq<byte>)
    requires EntryOf(v.fs.cp.files, name) == EntryOf(w.fs.cp.files, name) && Continues(w, v) && AllInLog(v.fs.cp) && AllInLog(w.fs.cp)
    ensures FileOf(v.disk, v.fs.cp, name) == FileOf(w.disk, w.fs.cp, name)
  {
    var r := EntryOf(w.fs.cp.files, name);
    if r.Some? {
      assert InLog(r.value, w.fs.cp.logHead);
      ExtentFrame(v.disk, w.disk, r.value.start, r.value.sectors);
    }
  }

  /** One finished operation: other names keep their entries, the log grows, and names stay distinct. */
  lemma ChangeKeeps(v: Volume, op: Op, k: nat)
    requires Clean(v, k + 1) && Tracked(v, Change("", op))
    ensures CanHappen(v, Do(op)) && Clean(Next(v, Do(op)), k) && Continues(v, Next(v, Do(op)))
    ensures forall n: seq<byte> | n != op.name :: EntryOf(Next(v, Do(op)).fs.cp.files, n) == EntryOf(v.fs.cp.files, n)
    ensures op.SetEntry? && PlanOf(v.fs, op).error == "" ==> EntryOf(Next(v, Do(op)).fs.cp.files, op.name) == op.entry
    ensures op.Write? && PlanOf(v.fs, op).error == "" ==> EntryOf(Next(v, Do(op)).fs.cp.files, op.name).Some?
  {
    hide PlanOf, Good, Mount, Distinct, EntryOf, Directory, Cut, Utf8From, UpToNul, NameStr, AllInLog;
    CleanSound(v, k);
    EventGood(v, Do(op));
    var v' := Next(v, Do(op));
    if PlanOf(v.fs, op).next.Some? {
      assert Ends(v.fs, v.disk, op, v'.fs, v'.disk);
      EndsGood(v.fs, v.disk, op, v'.fs, v'.disk);
      GoodSize(v'.fs, v'.disk);
      GoodSize(v.fs, v.disk);
      CommittedEntries(v, op, v');
    } else {
      NothingCommitted(v, op);
    }
  }

  lemma CleanSound(v: Volume, k: nat)
    requires Clean(v, k + 1)
    ensures Good(v.fs, v.disk) && Sound(v.fs) && AllInLog(v.fs.cp) && v.fs.cp.logHead <= |v.disk|
  {
  }

  lemma GoodSize(fs: Fs, disk: Disk)
    requires Good(fs, disk)
    ensures fs.cp.logHead <= |disk| == fs.layout.total && AllInLog(fs.cp)
  {
  }

  lemma NothingCommitted(v: Volume, op: Op)
    requires CanHappen(v, Do(op)) && Tracked(v, Change("", op)) && PlanOf(v.fs, op).next == None
    ensures var v' := Next(v, Do(op)); v'.fs == v.fs && Continues(v, v')
    ensures op.SetEntry? && PlanOf(v.fs, op).error == "" ==> op.entry == None && EntryOf(v.fs.cp.files, op.name) == None
    ensures op.Write? ==> PlanOf(v.fs, op).error != ""
  {
    hide Decode, Intact, U64At, ReadLayout, Fits, NameStr, Utf8From, Mount;
    UncommittedGood(v.fs, v.disk, op, |PlanOf(v.fs, op).writes|);
  }

  lemma CommittedEntries(v: Volume, op: Op, v': Volume)
    requires Ends(v.fs, v.disk, op, v'.fs, v'.disk) && Distinct(v.fs.cp.files) && Tracked(v, Change("", op))
    ensures Distinct(v'.fs.cp.files)
    ensures forall n: seq<byte> | n != op.name :: EntryOf(v'.fs.cp.files, n) == EntryOf(v.fs.cp.files, n)
    ensures op.SetEntry? ==> EntryOf(v'.fs.cp.files, op.name) == op.entry
    ensures op.Write? ==> EntryOf(v'.fs.cp.files, op.name).Some?
  {
    hide Decode, Encode, Intact, U64At, ReadLayout, Fits, NameStr, Utf8From, UpToNul, Mount, Distinct, EntryOf, Directory, Find;
    var files := v.fs.cp.files;
    var entry := if op.Write? then Some(NewEntry(op.name, v.fs.cp.logHead, |op.data|)) else op.entry;
    assert Directory(files, op.name, entry) == Some(v'.fs.cp.files);
    if op.Write? {
      EntryName(op.name, v.fs.cp.logHead, |op.data|);
      UpToNulUnique(op.name, |op.name|);
      assert op.name[..|op.name|] == op.name;
    }
    EntriesAfter(files, op.name, entry, v'.fs.cp.files);
  }

  lemma EntriesAfter(files: seq<FileEntry>, name: seq<byte>, entry: Option<FileEntry>, files': seq<FileEntry>)
    requires Directory(files, name, entry) == Some(files') && Distinct(files) && (entry.Some? ==> NameStr(entry.value) == name)
    ensures Distinct(files') && EntryOf(files', name) == entry
    ensures forall n: seq<byte> | n != name :: EntryOf(files', n) == EntryOf(files, n)
  {
    hide NameStr, Distinct, EntryOf, Directory;
    if entry.Some? {
      PutLookup(files, name, entry.value, name);
    } else {
      RemoveLookup(files, name, name);
      DistinctOnce(files, name);
    }
    forall n: seq<byte> | n != name ensures EntryOf(files', n) == EntryOf(files, n) {
      if entry.Some? { PutLookup(files, name, entry.value, n); } else { RemoveLookup(files, name, n); }
    }
  }

  lemma DistinctOnce(files: seq<FileEntry>, name: seq<byte>)
    requires Distinct(files)
    ensures Once(files, name)
  {
    hide NameStr;
  }

  // ---- how full the directory is ----------------------------------------------------------------------

  function NameSet(files: seq<FileEntry>): set<seq<byte>> { set i | 0 <= i < |files| :: NameStr(files[i]) }

  lemma {:induction false} CountNames(files: seq<FileEntry>)
    requires Distinct(files)
    ensures |NameSet(files)| == |files|
  {
    hide NameStr;
    if files != [] {
      var n := |files| - 1;
      var init := files[..n];
      CountNames(init);
      assert forall i | 0 <= i < n :: NameStr(init[i]) == NameStr(files[i]) && NameStr(files[i]) in NameSet(init);
      assert NameSet(files) == NameSet(init) + {NameStr(files[n])};
    }
  }

  lemma NamedIffEntry(files: seq<FileEntry>, n: seq<byte>)
    ensures n in NameSet(files) <==> EntryOf(files, n).Some?
  {
    hide NameStr;
  }

  /** The files there would be with the intent's names as in `w` and all others as in `now`. */
  function Crowd(w: Volume, now: Volume, names: set<seq<byte>>): nat {
    |NameSet(now.fs.cp.files) - names| + |NameSet(w.fs.cp.files) * names|
  }

  lemma BlendNames(v: Volume, w: Volume, now: Volume, names: set<seq<byte>>)
    requires Blends(v, w, now, names)
    ensures NameSet(v.fs.cp.files) == (NameSet(now.fs.cp.files) - names) + (NameSet(w.fs.cp.files) * names)
  {
    hide NameStr, EntryOf, NameSet;
    forall n: seq<byte>
      ensures n in NameSet(v.fs.cp.files) <==> n in NameSet((if n in names then w else now).fs.cp.files)
    {
      NamedIffEntry(v.fs.cp.files, n);
      NamedIffEntry(w.fs.cp.files, n);
      NamedIffEntry(now.fs.cp.files, n);
    }
  }

  lemma BlendSize(v: Volume, w: Volume, now: Volume, names: set<seq<byte>>)
    requires Blends(v, w, now, names) && Distinct(v.fs.cp.files)
    ensures |v.fs.cp.files| == Crowd(w, now, names)
  {
    hide NameStr, EntryOf, NameSet, Distinct, Blends;
    CountNames(v.fs.cp.files);
    BlendNames(v, w, now, names);
    var others, own := NameSet(now.fs.cp.files) - names, NameSet(w.fs.cp.files) * names;
    assert others !! own;
  }

  /** The same names of the intent's present: the same crowd. */
  lemma SameCrowd(w: Volume, w': Volume, now: Volume, names: set<seq<byte>>)
    requires forall n: seq<byte> | n in names :: EntryOf(w.fs.cp.files, n) == EntryOf(w'.fs.cp.files, n)
    ensures Crowd(w, now, names) == Crowd(w', now, names)
  {
    hide NameStr, EntryOf, NameSet;
    forall n: seq<byte> ensures n in NameSet(w.fs.cp.files) * names <==> n in NameSet(w'.fs.cp.files) * names {
      NamedIffEntry(w.fs.cp.files, n);
      NamedIffEntry(w'.fs.cp.files, n);
    }
    assert NameSet(w.fs.cp.files) * names == NameSet(w'.fs.cp.files) * names;
  }

  /** One name of the intent's more present: one more in the crowd. */
  lemma OneMore(w: Volume, w': Volume, now: Volume, names: set<seq<byte>>, t: seq<byte>)
    requires t in names && EntryOf(w.fs.cp.files, t).Some? && EntryOf(w'.fs.cp.files, t) == None
    requires forall n: seq<byte> | n in names && n != t :: EntryOf(w.fs.cp.files, n) == EntryOf(w'.fs.cp.files, n)
    ensures Crowd(w, now, names) == Crowd(w', now, names) + 1
  {
    hide NameStr, EntryOf, NameSet;
    var a, b := NameSet(w.fs.cp.files) * names, NameSet(w'.fs.cp.files) * names;
    forall n: seq<byte> ensures n in a <==> n == t || n in b {
      NamedIffEntry(w.fs.cp.files, n);
      NamedIffEntry(w'.fs.cp.files, n);
    }
    NamedIffEntry(w'.fs.cp.files, t);
    assert a == b + {t} && t !in b;
  }

  // ---- one step back --------------------------------------------------------------------------------

  /**
   Putting a step back from where the intent's names are as after it: it fails exactly when the directory would be over
   full, and says so; otherwise the intent's names are as before the step, and all others as they were.
   */
  lemma ReverseStep(v: Volume, w: Volume, w': Volume, now: Volume, names: set<seq<byte>>, a: Act, k: nat)
    requires Clean(v, k + 1) && Blends(v, w', now, names) && Clean(w, 0) && Tracked(w, a) && a.Change? && Continues(w, now)
    requires a.op.name in names
    requires forall n: seq<byte> | n in names && n != a.op.name :: EntryOf(w'.fs.cp.files, n) == EntryOf(w.fs.cp.files, n)
    ensures var s := Recorded(w, a);
            && CanReverse(v, s) && (ErrorOf(v, s) == "" <==> Crowd(w, now, names) <= MAX_FILES)
            && (ErrorOf(v, s) == "" ==> Clean(Reversed(v, s), k) && Blends(Reversed(v, s), w, now, names))
            && (ErrorOf(v, s) != "" ==> ErrorOf(v, s) == "directory is full")
  {
    hide PlanOf, Good, Mount, Distinct, Cut, Utf8From, NameStr, Directory, Crowd;
    var s := Recorded(w, a);
    var op := SetEntry(s.target, s.before);
    CleanSound(v, k);
    ContinuesThrough(w, now, v);
    assert Proper(v.fs, op) && (op.entry.Some? ==> NameStr(op.entry.value) == op.name) by { BeforeIsInLog(w, v, s.target); }
    ErrorIs(v, op);
    if PlanOf(v.fs, op).error == "" {
      ChangeKeeps(v, op, k);
      var v' := Reversed(v, s);
      assert Blends(v', w, now, names);
      assert Clean(v', k) && Clean(v', 0);
      FewFiles(v');
      BlendSize(v', w, now, names);
    } else {
      BlendSize(v, w', now, names);
      OneMore(w, w', now, names, op.name);
    }
  }

  /** The one error of putting an entry back. */
  lemma ErrorIs(v: Volume, op: Op)
    requires Good(v.fs, v.disk) && Sound(v.fs) && Proper(v.fs, op) && op.SetEntry?
    ensures PlanOf(v.fs, op).error != "" <==>
              op.entry.Some? && EntryOf(v.fs.cp.files, op.name) == None && |v.fs.cp.files| == MAX_FILES
    ensures PlanOf(v.fs, op).error != "" ==> PlanOf(v.fs, op).error == "directory is full"
  {
    hide NameStr, Decode, Encode, Intact, U64At, ReadLayout, Fits, Distinct;
  }

  lemma BeforeIsInLog(w: Volume, v: Volume, name: seq<byte>)
    requires Clean(w, 0) && Continues(w, v)
    ensures var e := EntryOf(w.fs.cp.files, name); e.Some? ==> InLog(e.value, v.fs.cp.logHead) && NameStr(e.value) == name
  {
    hide NameStr, Decode, LaidOut, Fits;
  }

  lemma FewFiles(v: Volume)
    requires Clean(v, 0)
    ensures |v.fs.cp.files| <= MAX_FILES
  {
  }

  // ---- the whole intent -----------------------------------------------------------------------------

  function Undoable(steps: seq<Step>, k: nat): nat
    requires k <= |steps|
  {
    if k == 0 then 0 else Undoable(steps, k - 1) + if steps[k - 1].undoable then 1 else 0
  }

  lemma {:induction false} UndoablePrefix(a: seq<Step>, b: seq<Step>, k: nat)
    requires k <= |a| && k <= |b| && a[..k] == b[..k]
    ensures Undoable(a, k) == Undoable(b, k)
  {
    if k > 0 {
      assert a[..k][..k - 1] == a[..k - 1] && b[..k][..k - 1] == b[..k - 1] && a[k - 1] == a[..k][k - 1] && b[k - 1] == b[..k][k - 1];
      UndoablePrefix(a, b, k - 1);
    }
  }

  /** Only the steps still to be put back matter. */
  lemma {:induction false} UndoPrefix(v: Volume, a: seq<Step>, b: seq<Step>, k: nat, reversed: nat, refused: nat)
    requires k <= |a| && k <= |b| && a[..k] == b[..k]
    ensures UndoFrom(v, a, k, reversed, refused) == UndoFrom(v, b, k, reversed, refused)
    decreases k
  {
    hide PutBack;
    if k > 0 {
      assert a[..k][..k - 1] == a[..k - 1] && b[..k][..k - 1] == b[..k - 1] && a[k - 1] == a[..k][k - 1] && b[k - 1] == b[..k][k - 1];
      if !a[k - 1].undoable {
        UndoPrefix(v, a, b, k - 1, reversed, refused + 1);
      } else if PutBack(v, a[k - 1]).Ok? {
        UndoPrefix(PutBack(v, a[k - 1]).value, a, b, k - 1, reversed + 1, refused);
      }
    }
  }

  lemma {:induction false} CarriedClean(vs: seq<Volume>, acts: seq<Act>, i: nat, room: nat)
    requires Carried(vs, acts) && Clean(vs[0], |acts| + room) && i <= |acts|
    ensures Clean(vs[i], |acts| + room - i) && Continues(vs[0], vs[i])
    ensures i > 0 ==> Clean(vs[i - 1], |acts| + room - i + 1) && Continues(vs[i - 1], vs[i])
                      && (!acts[i - 1].External? ==> forall n: seq<byte> | n != acts[i - 1].op.name ::
                            EntryOf(vs[i].fs.cp.files, n) == EntryOf(vs[i - 1].fs.cp.files, n))
  {
    hide Clean, Next, CanHappen, EntryOf, Touched;
    if i > 0 {
      CarriedClean(vs, acts, i - 1, room);
      var a, w := acts[i - 1], vs[i - 1];
      CleanWeaker(w, |acts| + room - i + 1, |acts| + room - i);
      if !a.External? {
        TrackedByOp(w, a);
        ChangeKeeps(w, a.op, |acts| + room - i);
        ContinuesThrough(vs[0], w, vs[i]);
      }
    } else {
      CleanWeaker(vs[0], |acts| + room, 0);
    }
  }

  lemma {:induction false} CarriesOn(vs: seq<Volume>, acts: seq<Act>, i: nat, j: nat, room: nat)
    requires Carried(vs, acts) && Clean(vs[0], |acts| + room) && i <= j <= |acts|
    ensures Continues(vs[i], vs[j])
    decreases j - i
  {
    hide Clean, Next, CanHappen, EntryOf, Touched;
    CarriedClean(vs, acts, j, room);
    if i < j {
      CarriesOn(vs, acts, i, j - 1, room);
      ContinuesThrough(vs[i], vs[j - 1], vs[j]);
    } else {
      CleanWeaker(vs[i], |acts| + room - i, 0);
    }
  }

  lemma CleanWeaker(v: Volume, n: nat, m: nat)
    requires Clean(v, n) && m <= n
    ensures Clean(v, m) && Continues(v, v)
  {
  }

  lemma TrackedByOp(v: Volume, a: Act)
    requires Tracked(v, a) && !a.External?
    ensures Tracked(v, Change("", a.op))
  {
  }

  lemma ContinuesThrough(a: Volume, b: Volume, c: Volume)
    requires Continues(a, b) && Continues(b, c)
    ensures Continues(a, c)
  {
  }

  /** With its intent's names as in any of the states from `i` up to `k`, the directory has room. */
  ghost predicate RoomFor(vs: seq<Volume>, acts: seq<Act>, i: nat, k: nat)
    requires i <= k <= |acts| < |vs|
  {
    forall j | i <= j < k :: Crowd(vs[j], vs[|acts|], Touched(acts)) <= MAX_FILES
  }

  /** Where undo of the first `k` acts ends: at `begin`, or just after the first put-back there is no room for. */
  ghost predicate EndsWell(vs: seq<Volume>, acts: seq<Act>, k: nat, o: Outcome, a: nat, b: nat)
    requires k <= |acts| < |vs|
  {
    var steps := StepsOf(vs, acts, k);
    && (o.error == "" <==> RoomFor(vs, acts, 0, k))
    && (o.error == "" ==>
          && Clean(o.volume, 0) && Blends(o.volume, vs[0], vs[|acts|], Touched(acts))
          && o.reversed == a + Undoable(steps, |steps|) && o.refused == b + |steps| - Undoable(steps, |steps|))
    && (o.error != "" ==>
          && o.error == "directory is full" && Clean(o.volume, 0)
          && exists j | 0 < j <= k ::
               && Blends(o.volume, vs[j], vs[|acts|], Touched(acts)) && RoomFor(vs, acts, j, k)
               && Crowd(vs[j - 1], vs[|acts|], Touched(acts)) > MAX_FILES)
  }

  /** One act earlier: the intent's other names are the same, and so is the crowd unless the act is the intent's own. */
  lemma Earlier(vs: seq<Volume>, acts: seq<Act>, k: nat)
    requires Carried(vs, acts) && Clean(vs[0], 2 * |acts|) && 0 < k <= |acts|
    ensures Clean(vs[k - 1], 0) && Continues(vs[k - 1], vs[|acts|])
    ensures forall n: seq<byte> | n in Touched(acts) && (acts[k - 1].Change? ==> n != acts[k - 1].op.name) ::
              EntryOf(vs[k].fs.cp.files, n) == EntryOf(vs[k - 1].fs.cp.files, n)
    ensures !acts[k - 1].Change? ==> Crowd(vs[k - 1], vs[|acts|], Touched(acts)) == Crowd(vs[k], vs[|acts|], Touched(acts))
    ensures acts[k - 1].Change? ==> acts[k - 1].op.name in Touched(acts)
  {
    hide Clean, EntryOf, Crowd, Next, CanHappen;
    CarriedClean(vs, acts, k, |acts|);
    CleanWeaker(vs[k - 1], 2 * |acts| - k + 1, 0);
    CarriesOn(vs, acts, k - 1, |acts|, |acts|);
    if !acts[k - 1].Change? { SameCrowd(vs[k - 1], vs[k], vs[|acts|], Touched(acts)); }
  }

  /** Blending with another state that has the same entries for the intent's names is the same. */
  lemma BlendSame(v: Volume, w: Volume, w': Volume, now: Volume, names: set<seq<byte>>)
    requires Blends(v, w, now, names) && forall n: seq<byte> | n in names :: EntryOf(w.fs.cp.files, n) == EntryOf(w'.fs.cp.files, n)
    ensures Blends(v, w', now, names)
  {
    hide EntryOf;
  }

  /** Dropping the last step, or none, of what is recorded. */
  lemma LastStep(vs: seq<Volume>, acts: seq<Act>, k: nat)
    requires 0 < k <= |acts| <= |vs|
    ensures var all, rest := StepsOf(vs, acts, k), StepsOf(vs, acts, k - 1);
            if acts[k - 1].Other? then all == rest
            else |all| == |rest| + 1 && all[..|rest|] == rest[..|rest|] && all[|rest|] == Recorded(vs[k - 1], acts[k - 1])
                 && Undoable(all, |all|) == Undoable(rest, |rest|) + if acts[k - 1].Change? then 1 else 0
  {
    var all, rest := StepsOf(vs, acts, k), StepsOf(vs, acts, k - 1);
    if !acts[k - 1].Other? { UndoablePrefix(all, rest, |rest|); }
  }

  lemma {:induction false} UndoGoesBack(vs: seq<Volume>, acts: seq<Act>, v: Volume, k: nat, a: nat, b: nat)
    requires Carried(vs, acts) && Clean(vs[0], 2 * |acts|) && k <= |acts|
    requires Clean(v, k) && Blends(v, vs[k], vs[|acts|], Touched(acts))
    requires Crowd(vs[k], vs[|acts|], Touched(acts)) <= MAX_FILES
    ensures var steps := StepsOf(vs, acts, k); EndsWell(vs, acts, k, UndoFrom(v, steps, |steps|, a, b), a, b)
    decreases k
  {
    hide Clean, Reversed, CanReverse, ErrorOf, Tracked, EntryOf, Crowd, Blends, StepsOf, Carried, Touched;
    CarriedLength(vs, acts);
    if k == 0 {
      CleanWeaker(v, 0, 0);
      assert StepsOf(vs, acts, 0) == [] by { NoSteps(vs, acts); }
    } else {
      var all, rest, now, names := StepsOf(vs, acts, k), StepsOf(vs, acts, k - 1), vs[|acts|], Touched(acts);
      LastStep(vs, acts, k);
      Earlier(vs, acts, k);
      CleanWeaker(v, k, k - 1);
      var act := acts[k - 1];
      if act.Change? {
        assert Tracked(vs[k - 1], act) by { TrackedAt(vs, acts, k - 1); }
        ReverseStep(v, vs[k - 1], vs[k], now, names, act, k - 1);
        var s := Recorded(vs[k - 1], act);
        if ErrorOf(v, s) == "" {
          UndoGoesBack(vs, acts, Reversed(v, s), k - 1, a + 1, b);
          UndoPrefix(Reversed(v, s), all, rest, |rest|, a + 1, b);
        } else {
          CleanWeaker(v, k, 0);
        }
      } else {
        BlendSame(v, vs[k], vs[k - 1], now, names);
        if act.External? {
          UndoGoesBack(vs, acts, v, k - 1, a, b + 1);
          UndoPrefix(v, all, rest, |rest|, a, b + 1);
        } else {
          UndoGoesBack(vs, acts, v, k - 1, a, b);
        }
      }
    }
  }

  lemma CarriedLength(vs: seq<Volume>, acts: seq<Act>)
    requires Carried(vs, acts)
    ensures |vs| == |acts| + 1
  {
  }

  lemma NoSteps(vs: seq<Volume>, acts: seq<Act>)
    requires |acts| <= |vs|
    ensures StepsOf(vs, acts, 0) == []
  {
  }

  lemma TrackedAt(vs: seq<Volume>, acts: seq<Act>, i: nat)
    requires Carried(vs, acts) && i < |acts|
    ensures Tracked(vs[i], acts[i])
  {
  }

  lemma StartsBlended(now: Volume, names: set<seq<byte>>)
    requires Clean(now, 0)
    ensures Blends(now, now, now, names) && Crowd(now, now, names) <= MAX_FILES
  {
    hide EntryOf, Distinct, Crowd, NameSet;
    CleanWeaker(now, 0, 0);
    FewFiles(now);
    BlendSize(now, now, now, names);
  }

  /** The files undo leaves: the intent's as they were at `begin`, all others as they are now. */
  ghost predicate PutRight(v: Volume, begin: Volume, now: Volume, names: set<seq<byte>>) {
    && MountsAs(v.disk, v.fs) && MountsAs(begin.disk, begin.fs) && MountsAs(now.disk, now.fs)
    && forall n: seq<byte> ::
         FileOf(v.disk, v.fs.cp, n)
         == if n in names then FileOf(begin.disk, begin.fs.cp, n) else FileOf(now.disk, now.fs.cp, n)
  }

  lemma BlendFiles(v: Volume, w: Volume, now: Volume, names: set<seq<byte>>)
    requires Clean(v, 0) && Clean(w, 0) && Clean(now, 0) && Blends(v, w, now, names) && Continues(w, now)
    ensures PutRight(v, w, now, names)
  {
    hide Mount, Decode, LaidOut, Fits, FileOf, EntryOf, Distinct;
    ContinuesThrough(w, now, v);
    forall n: seq<byte>
      ensures FileOf(v.disk, v.fs.cp, n)
              == if n in names then FileOf(w.disk, w.fs.cp, n) else FileOf(now.disk, now.fs.cp, n)
    {
      if n in names { SameFile(v, w, n); } else { SameFile(v, now, n); }
    }
  }

  /**
   Undo. Let an intent record each of its changes with the file's entry just before making it, with anyone else changing
   other files in between. Then undo gives every file the intent changed the existence and bytes it had at `begin`, however
   often it was rewritten, created or removed, and leaves every other file as it is now; it puts back every recorded change
   and refuses exactly what left the device. It succeeds if and only if at no put-back the directory is over full: the other
   files there are now, and the intent's that there were in each of its states, must fit together. Otherwise it stops at the
   first put-back for which they do not, and says that the directory is full; even then other files are as they are now.
   */
  lemma UndoRestores(vs: seq<Volume>, acts: seq<Act>)
    requires Carried(vs, acts) && Clean(vs[0], 2 * |acts|)
    ensures var steps, now, names := StepsOf(vs, acts, |acts|), vs[|acts|], Touched(acts);
            var o := UndoFrom(now, steps, |steps|, 0, 0);
            && (o.error == "" <==> forall j | 0 <= j < |acts| :: Crowd(vs[j], now, names) <= MAX_FILES)
            && (o.error == "" ==> PutRight(o.volume, vs[0], now, names) && o.reversed == Undoable(steps, |steps|) && o.reversed + o.refused == |steps|)
            && (o.error != "" ==>
                  && o.error == "directory is full"
                  && exists j | 0 < j <= |acts| :: PutRight(o.volume, vs[j], now, names) && Crowd(vs[j - 1], now, names) > MAX_FILES)
  {
    hide UndoFrom, Clean, Crowd, Blends, PutRight, StepsOf, Touched, Carried, Undoable;
    CarriedLength(vs, acts);
    var n := |acts|;
    var steps, now, names := StepsOf(vs, acts, n), vs[n], Touched(acts);
    CarriedClean(vs, acts, n, n);
    CleanWeaker(now, n, 0);
    StartsBlended(now, names);
    UndoGoesBack(vs, acts, now, n, 0, 0);
    var o := UndoFrom(now, steps, |steps|, 0, 0);
    if o.error == "" {
      FilesAt(vs, acts, 0, o.volume);
    } else {
      var j :| 0 < j <= n && Blends(o.volume, vs[j], now, names) && Crowd(vs[j - 1], now, names) > MAX_FILES;
      FilesAt(vs, acts, j, o.volume);
    }
  }

  lemma FilesAt(vs: seq<Volume>, acts: seq<Act>, j: nat, v: Volume)
    requires Carried(vs, acts) && Clean(vs[0], 2 * |acts|) && j <= |acts|
    requires Clean(v, 0) && Blends(v, vs[j], vs[|acts|], Touched(acts))
    ensures PutRight(v, vs[j], vs[|acts|], Touched(acts))
  {
    hide Clean, Blends, PutRight, Touched, Carried;
    CarriedLength(vs, acts);
    var n := |acts|;
    CarriedClean(vs, acts, j, n);
    CarriedClean(vs, acts, n, n);
    CleanWeaker(vs[j], 2 * n - j, 0);
    CleanWeaker(vs[n], n, 0);
    CarriesOn(vs, acts, j, n, n);
    BlendFiles(v, vs[j], vs[n], Touched(acts));
  }

  // ---- with nobody else, and with somebody ------------------------------------------------------------

  lemma {:induction false} OthersSame(vs: seq<Volume>, acts: seq<Act>, j: nat, k: nat)
    requires Carried(vs, acts) && Clean(vs[0], 2 * |acts|) && j <= k <= |acts| && forall i | 0 <= i < |acts| :: !acts[i].Other?
    ensures forall n: seq<byte> | n !in Touched(acts) :: EntryOf(vs[j].fs.cp.files, n) == EntryOf(vs[k].fs.cp.files, n)
    decreases k - j
  {
    hide Clean, EntryOf, Next, CanHappen;
    if j < k {
      OthersSame(vs, acts, j, k - 1);
      CarriedClean(vs, acts, k, |acts|);
      if acts[k - 1].Change? { assert NameOf(acts[k - 1].op) in Touched(acts); }
    }
  }

  lemma CrowdOfOne(w: Volume, now: Volume, names: set<seq<byte>>)
    requires Clean(w, 0) && forall n: seq<byte> | n !in names :: EntryOf(w.fs.cp.files, n) == EntryOf(now.fs.cp.files, n)
    ensures Crowd(w, now, names) <= MAX_FILES
  {
    hide NameStr, EntryOf, NameSet, Mount, Good;
    var a, b := NameSet(w.fs.cp.files), NameSet(now.fs.cp.files);
    forall n: seq<byte> | n !in names ensures n in a <==> n in b {
      NamedIffEntry(w.fs.cp.files, n);
      NamedIffEntry(now.fs.cp.files, n);
    }
    assert b - names == a - names;
    assert a == (a - names) + (a * names) && (a - names) !! (a * names);
    CountNames(w.fs.cp.files);
    FewFiles(w);
  }

  /** With nobody else at work undo never fails, and every file whatever is as it was at `begin`. */
  lemma UndoAlone(vs: seq<Volume>, acts: seq<Act>)
    requires Carried(vs, acts) && Clean(vs[0], 2 * |acts|) && forall i | 0 <= i < |acts| :: !acts[i].Other?
    ensures var steps := StepsOf(vs, acts, |acts|);
            var o := UndoFrom(vs[|acts|], steps, |steps|, 0, 0);
            o.error == "" && SameFiles(o.volume.disk, o.volume.fs, vs[0].disk, vs[0].fs)
  {
    hide Tracked, EntryOf, Next, CanHappen, UndoFrom, Clean, Crowd, StepsOf, Touched, FileOf, Good, Mount;
    var n := |acts|;
    forall j | 0 <= j < n ensures Crowd(vs[j], vs[n], Touched(acts)) <= MAX_FILES {
      OthersSame(vs, acts, j, n);
      CarriedClean(vs, acts, j, n);
      CleanWeaker(vs[j], 2 * n - j, 0);
      CrowdOfOne(vs[j], vs[n], Touched(acts));
    }
    UndoRestores(vs, acts);
    var steps := StepsOf(vs, acts, n);
    var v := UndoFrom(vs[n], steps, |steps|, 0, 0).volume;
    OthersSame(vs, acts, 0, n);
    CarriedClean(vs, acts, n, n);
    CleanWeaker(vs[0], 2 * n, 0);
    CleanWeaker(vs[n], n, 0);
    CleanInLog(vs[0]);
    CleanInLog(vs[n]);
    MountedInLog(v);
    forall name: seq<byte> ensures FileOf(v.disk, v.fs.cp, name) == FileOf(vs[0].disk, vs[0].fs.cp, name) {
      if name !in Touched(acts) { SameFile(vs[n], vs[0], name); }
    }
  }

  lemma CleanInLog(v: Volume)
    requires Clean(v, 0)
    ensures AllInLog(v.fs.cp) && v.fs.cp.logHead <= |v.disk|
  {
  }

  lemma MountedInLog(v: Volume)
    requires MountsAs(v.disk, v.fs)
    ensures AllInLog(v.fs.cp) && v.fs.cp.logHead <= |v.disk|
  {
  }

  /** Directories that differ in one name differ by one in length. */
  lemma OneLonger(a: seq<FileEntry>, b: seq<FileEntry>, t: seq<byte>)
    requires Distinct(a) && Distinct(b) && EntryOf(a, t).Some? && EntryOf(b, t) == None
    requires forall n: seq<byte> | n != t :: EntryOf(a, n) == EntryOf(b, n)
    ensures |a| == |b| + 1
  {
    hide NameStr, EntryOf, Distinct, NameSet;
    CountNames(a);
    CountNames(b);
    forall n: seq<byte> ensures n in NameSet(a) <==> n == t || n in NameSet(b) {
      NamedIffEntry(a, n);
      NamedIffEntry(b, n);
    }
    NamedIffEntry(b, t);
    assert NameSet(a) == NameSet(b) + {t} && t !in NameSet(b);
  }

  lemma EmptyFits(v: Volume, y: Str)
    requires Good(v.fs, v.disk) && Sound(v.fs) && |y| <= MAX_NAME && |v.fs.cp.files| < MAX_FILES
    ensures PlanOf(v.fs, Write(y, [])).error == ""
  {
    hide NameStr, Decode, Encode, Intact, U64At, ReadLayout, Fits;
  }

  /**
   It does happen. From every full directory: the intent removes `x`, somebody else creates `y`, and undo stops with the
   directory full, and `x` stays gone.
   */
  lemma FullDirectoryStops(v: Volume, x: Str, y: Str) returns (w: Volume, z: Volume)
    requires Clean(v, 4) && |v.fs.cp.files| == MAX_FILES && 0 !in x && 0 !in y && |y| <= MAX_NAME
    requires EntryOf(v.fs.cp.files, x).Some? && EntryOf(v.fs.cp.files, y) == None
    ensures var acts := [Change("remove", SetEntry(x, None)), Other(Write(y, []))];
            && Carried([v, w, z], acts) && StepsOf([v, w, z], acts, 2) == [Recorded(v, acts[0])]
            && UndoFrom(z, [Recorded(v, acts[0])], 1, 0, 0) == Outcome(z, 0, 0, "directory is full")
            && EntryOf(z.fs.cp.files, x) == None && EntryOf(v.fs.cp.files, x).Some?
  {
    hide PlanOf, Good, Mount, Distinct, EntryOf, Cut, Utf8From, NameStr, Next;
    var remove, create := SetEntry(x, None), Write(y, []);
    CleanSound(v, 3);
    ErrorIs(v, remove);
    ChangeKeeps(v, remove, 3);
    w := Next(v, Do(remove));
    OneLonger(v.fs.cp.files, w.fs.cp.files, x);
    CleanSound(w, 2);
    EmptyFits(w, y);
    ChangeKeeps(w, create, 2);
    z := Next(w, Do(create));
    OneLonger(z.fs.cp.files, w.fs.cp.files, y);
    CleanSound(z, 1);
    ContinuesThrough(v, w, z);
    BeforeIsInLog(v, z, x);
    ErrorIs(z, SetEntry(x, EntryOf(v.fs.cp.files, x)));
    var acts := [Change("remove", remove), Other(create)];
    assert forall n: seq<byte> | n in Touched(acts) :: n == NameOf(remove);
    StepsAre([v, w, z], acts);
  }

  lemma StepsAre(vs: seq<Volume>, acts: seq<Act>)
    requires |acts| == 2 <= |vs| && acts[0].Change? && acts[1].Other?
    ensures StepsOf(vs, acts, 2) == [Recorded(vs[0], acts[0])]
  {
    assert StepsOf(vs, acts, 1) == StepsOf(vs, acts, 0) + [Recorded(vs[0], acts[0])];
  }

  lemma NulUndo(v: Volume, v': Volume, name: Str, data: seq<byte>)
    requires 0 in name && Good(v'.fs, v'.disk)
    ensures UndoFrom(v', [Recorded(v, Change("write", Write(name, data)))], 1, 0, 0).volume == v'
  {
    hide Decode, Encode, Intact, U64At, ReadLayout, Fits, NameStr, Utf8From, UpToNul, Mount;
    NeverFound(v.fs.cp.files, name);
    NeverFound(v'.fs.cp.files, name);
    var s := Recorded(v, Change("write", Write(name, data)));
    if CanReverse(v', s) {
      assert PlanOf(v'.fs, SetEntry(name, None)) == Plan([], None, "");
      assert After(v'.disk, [], 0) == v'.disk;
      assert Reversed(v', s) == v';
    }
  }

  lemma NeverFound(files: seq<FileEntry>, name: seq<byte>)
    requires 0 in name
    ensures Find(files, name) == None
  {
  }

  /**
   Names with a NUL byte are another matter: such a name is recorded as absent and never found again, so undoing a write under it does
   nothing. Exactly when the part before the NUL names no file yet, that leaves a file that was not there.
   */
  lemma NulNameEscapesUndo(v: Volume, name: Str, data: seq<byte>, v': Volume)
    requires Clean(v, 2) && 0 in name && Ends(v.fs, v.disk, Write(name, data), v'.fs, v'.disk) && Good(v'.fs, v'.disk)
    ensures UndoFrom(v', [Recorded(v, Change("write", Write(name, data)))], 1, 0, 0).volume == v'
    ensures AllInLog(v.fs.cp) && v.fs.cp.logHead <= |v.disk|
    ensures (forall n: seq<byte> :: FileOf(v'.disk, v'.fs.cp, n) == FileOf(v.disk, v.fs.cp, n))
            <==> EntryOf(v.fs.cp.files, UpToNul(name)).Some?
  {
    hide Decode, Encode, Intact, U64At, ReadLayout, Fits, NameStr, Utf8From, UpToNul, Mount, Directory, PlanOf, After, Content, Extent;
    WriteEnds(v.fs, v.disk, name, data, v'.fs, v'.disk);
    var e, p := NewEntry(name, v.fs.cp.logHead, |data|), UpToNul(name);
    EntryName(name, v.fs.cp.logHead, |data|);
    HiddenLookup(v.fs.cp.files, name, e, p);
    NulUndo(v, v', name, data);
    if EntryOf(v.fs.cp.files, p).Some? {
      forall n: seq<byte> ensures FileOf(v'.disk, v'.fs.cp, n) == FileOf(v.disk, v.fs.cp, n) {
        HiddenLookup(v.fs.cp.files, name, e, n);
        KeptFile(v.fs, v.disk, Write(name, data), v'.fs, v'.disk, n);
      }
    } else {
      assert FileOf(v'.disk, v'.fs.cp, p).Some? && FileOf(v.disk, v.fs.cp, p) == None;
    }
  }

  // ---- the ledger -----------------------------------------------------------------------------------

  /** Every intent so far, updated in place. */
  class IntentLog {
    var intents: seq<Intent>
    var nextId: nat

    ghost predicate Valid()
      reads this
    {
      forall i | 0 <= i < |intents| :: intents[i].id < nextId && forall j | 0 <= j < i :: intents[j].id != intents[i].id
    }

    constructor ()
      ensures Valid() && intents == [] && nextId == 1
    {
      intents, nextId := [], 1;
    }

    method Begin(goal: string, actor: string, cap: nat) returns (id: nat)
      requires Valid()
      modifies this
      ensures Valid() && id == old(nextId) && intents == old(intents) + [Intent(id, goal, actor, cap, [], Open)]
    {
      id := nextId;
      nextId := nextId + 1;
      intents := intents + [Intent(id, goal, actor, cap, [], Open)];
    }

    method Locate(id: nat) returns (r: Option<nat>)
      ensures r.Some? ==> r.value < |intents| && intents[r.value].id == id
      ensures r == None ==> forall i | 0 <= i < |intents| :: intents[i].id != id
    {
      var i := 0;
      while i < |intents|
        invariant i <= |intents| && forall j | 0 <= j < i :: intents[j].id != id
      {
        if intents[i].id == id { return Some(i); }
        i := i + 1;
      }
      r := None;
    }

    method Record(id: nat, s: Step)
      requires Valid()
      modifies this`intents
      ensures Valid() && |intents| == |old(intents)|
      ensures forall i | 0 <= i < |intents| ::
                intents[i] == if old(intents)[i].id == id then old(intents)[i].(steps := old(intents)[i].steps + [s]) else old(intents)[i]
    {
      var at := Locate(id);
      if at.Some? { intents := intents[at.value := intents[at.value].(steps := intents[at.value].steps + [s])]; }
    }

    method Commit(id: nat)
      requires Valid()
      modifies this`intents
      ensures Valid() && |intents| == |old(intents)|
      ensures forall i | 0 <= i < |intents| ::
                intents[i] == if old(intents)[i].id == id then old(intents)[i].(state := Committed) else old(intents)[i]
    {
      var at := Locate(id);
      if at.Some? { intents := intents[at.value := intents[at.value].(state := Committed)]; }
    }

    /** The filesystem can take every step of intent `i` back: each entry is one it handed out. */
    ghost predicate CanUndo(i: nat, fs: Filesystem)
      requires i < |intents|
      reads this, fs
    {
      && fs.Valid() && fs.cp.seqno + |intents[i].steps| < U64
      && forall k | 0 <= k < |intents[i].steps| && intents[i].steps[k].before.Some? ::
           InLog(intents[i].steps[k].before.value, fs.cp.logHead)
    }

    method Undo(id: nat, fs: Filesystem) returns (r: Result<(nat, nat)>)
      requires Valid() && fs.Valid() && forall i | 0 <= i < |intents| && intents[i].id == id :: CanUndo(i, fs)
      modifies this`intents, fs
      ensures fs.Valid()
      ensures (forall i | 0 <= i < |old(intents)| :: old(intents)[i].id != id) ==> r == Err("no such intent") && fs.View() == old(fs.View())
      ensures forall i | 0 <= i < |old(intents)| && old(intents)[i].id == id && old(intents)[i].state != Undone ::
                var o := UndoFrom(old(fs.View()), old(intents)[i].steps, |old(intents)[i].steps|, 0, 0);
                fs.View() == o.volume && r == if o.error == "" then Ok((o.reversed, o.refused)) else Err(o.error)
      ensures forall i | 0 <= i < |old(intents)| && old(intents)[i].id == id && old(intents)[i].state == Undone ::
                r == Err("already undone") && fs.View() == old(fs.View())
    {
      hide Good, UndoFrom, InLog;
      var at := Locate(id);
      if at == None { return Err("no such intent"); }
      r := UndoAt(at.value, fs);
    }

    /** Walk the steps backwards through `set_entry`. */
    method UndoAt(at: nat, fs: Filesystem) returns (r: Result<(nat, nat)>)
      requires Valid() && at < |intents| && CanUndo(at, fs)
      modifies this`intents, fs
      ensures fs.Valid()
      ensures old(intents[at].state) == Undone ==> r == Err("already undone") && fs.View() == old(fs.View()) && intents == old(intents)
      ensures old(intents[at].state) != Undone ==>
                var steps := old(intents[at].steps);
                var o := UndoFrom(old(fs.View()), steps, |steps|, 0, 0);
                && fs.View() == o.volume
                && r == (if o.error == "" then Ok((o.reversed, o.refused)) else Err(o.error))
                && intents == if o.error == "" then old(intents)[at := old(intents)[at].(state := Undone)] else old(intents)
    {
      hide PlanOf, Good, CanHappen, Next, InLog, LogLimit;
      if intents[at].state == Undone { return Err("already undone"); }
      var steps := intents[at].steps;
      ghost var start := fs.View();
      var k, reversed, refused := |steps|, 0, 0;
      while k > 0
        invariant 0 <= k <= |steps| && fs.Valid() && fs.cp.seqno + k < U64 && intents == old(intents)
        invariant forall i | 0 <= i < k && steps[i].before.Some? :: InLog(steps[i].before.value, fs.cp.logHead)
        invariant UndoFrom(start, steps, |steps|, 0, 0) == UndoFrom(fs.View(), steps, k, reversed, refused)
      {
        var s := steps[k - 1];
        if !s.undoable {
          refused := refused + 1;
        } else {
          ghost var v := fs.View();
          var e := fs.SetFileEntry(s.target, s.before);
          Reverses(v, s, fs.View());
          if e.Err? { return Err(e.error); }
          reversed := reversed + 1;
        }
        k := k - 1;
      }
      intents := intents[at := intents[at].(state := Undone)];
      r := Ok((reversed, refused));
    }
  }

  lemma Reverses(v: Volume, s: Step, v': Volume)
    requires Good(v.fs, v.disk) && Sound(v.fs) && Proper(v.fs, SetEntry(s.target, s.before))
    requires v' == Next(v, Do(SetEntry(s.target, s.before)))
    ensures PutBack(v, s) == if PlanOf(v.fs, SetEntry(s.target, s.before)).error == "" then Ok(v') else Err(PlanOf(v.fs, SetEntry(s.target, s.before)).error)
    ensures PlanOf(v.fs, SetEntry(s.target, s.before)).error != "" ==> v' == v
    ensures v'.fs.cp.logHead == v.fs.cp.logHead && v'.fs.cp.seqno <= v.fs.cp.seqno + 1
  {
    hide Decode, Encode, Intact, U64At, ReadLayout, Fits, NameStr, Utf8From, Mount;
  }
}
