/**
 Blocking and waking. Channels, the accelerator and the scheduler together: a thread prepares to block under the lock of
 what it waits for, and whoever makes that ready wakes it in a later, separate step.
 */
module Wakeup {
  import opened Wrappers
  import opened Bytes
  import S = Scheduler
  import T = Tensor

  // ---- channels -----------------------------------------------------------------------------------

  datatype Message = Message(from: nat, bytes: seq<byte>)

  datatype Channel = Channel(queue: seq<Message>, sent: nat, received: nat)

  function Sent(chans: seq<Channel>, ch: nat, m: Message): Option<seq<Channel>> {
    if ch >= |chans| then None
    else Some(chans[ch := Channel(chans[ch].queue + [m], chans[ch].sent + 1, chans[ch].received)])
  }

  /** The channels with the oldest message of `ch` taken, if there is one. */
  function Taken(chans: seq<Channel>, ch: nat): (seq<Channel>, Option<Message>) {
    if ch >= |chans| || chans[ch].queue == [] then (chans, None)
    else
      (chans[ch := Channel(chans[ch].queue[1..], chans[ch].sent, chans[ch].received + 1)], Some(chans[ch].queue[0]))
  }

  /** The channel table, updated in place under its lock. */
  class Channels {
    var chans: seq<Channel>

    method Create() returns (ch: nat)
      modifies this
      ensures ch == |old(chans)| && chans == old(chans) + [Channel([], 0, 0)]
    {
      chans := chans + [Channel([], 0, 0)];
      ch := |chans| - 1;
    }

    method Enqueue(ch: nat, m: Message) returns (ok: bool)
      modifies this
      ensures ok <==> ch < |old(chans)|
      ensures chans == if ok then Sent(old(chans), ch, m).value else old(chans)
    {
      if ch >= |chans| { return false; }
      var c := chans[ch];
      chans := chans[ch := c.(queue := c.queue + [m], sent := c.sent + 1)];
      ok := true;
    }

    method TryReceive(ch: nat) returns (m: Option<Message>)
      modifies this
      ensures (chans, m) == Taken(old(chans), ch)
    {
      if ch >= |chans| { return None; }
      var c := chans[ch];
      if c.queue == [] { return None; }
      m := Some(c.queue[0]);
      chans := chans[ch := c.(queue := c.queue[1..], received := c.received + 1)];
    }
  }

  // ---- the system ---------------------------------------------------------------------------------

  /** What a thread can wait for. */
  datatype What = Mail(ch: nat) | Work | JobEnd(id: nat)

  const DEVICE_TOKEN: nat := 0xDEC0_DE00_7E45_0201

  function JobToken(id: nat): nat { ((0x7E45_0000_0000 as bv64) | ((id % U64) as bv64)) as nat }

  /** Tokens of different things may coincide; that only wakes more threads than needed. */
  function Token(w: What): nat {
    match w
    case Mail(ch) => ch
    case Work => DEVICE_TOKEN
    case JobEnd(id) => JobToken(id)
  }

  /** Where a thread is in the kernel: between calls, about to wake, in `block`, running a segment, in `sleep_ticks`, or gone. */
  datatype Pc = Free | Waking(token: nat) | Waits(what: What) | InSegment(id: nat) | Asleep(until: nat) | Exited

  datatype State = State(sched: S.State, pcs: seq<Pc>, chans: seq<Channel>, dev: T.Device, clock: nat)

  datatype Step =
    | Switch(step: S.Step)                        // the scheduler's own steps, and wakes from outside
    | NewChannel(core: nat)
    | Send(core: nat, ch: nat, m: Message)
    | Receive(core: nat, ch: nat)                 // `recv_or_prepare`
    | TryReceive(core: nat, ch: nat)
    | Submit(core: nat, o: T.Offer, at: nat)
    | Begin(core: nat)                            // the worker's first locked section
    | End(core: nat, elapsed: nat, at: nat)       // and its second
    | Await(core: nat, id: nat)                   // `finished_or_prepare`
    | DoWake(core: nat)                           // `wake_all_on`
    | Recheck(core: nat)                          // the test in the loop of `block`
    | GiveUp(core: nat)                           // `cancel_block`
    | Sleep(core: nat, until: nat)
    | Rise(core: nat)                             // the loop of `sleep_ticks` finds its time come
    | Tick
    | Exit(core: nat)

  predicate Ready(s: State, w: What) {
    match w
    case Mail(ch) => ch < |s.chans| && s.chans[ch].queue != []
    case Work => exists i | 0 <= i < |s.dev.jobs| :: T.Pickable(s.dev.jobs[i])
    case JobEnd(id) => var r := T.Find(s.dev.jobs, id); r.Some? && !T.Live(s.dev.jobs[r.value])
  }

  /** Core `c` is in a thread, and that thread is at `pc`. */
  predicate AtPc(s: State, c: nat, pc: Pc -> bool) {
    S.InThread(s.sched, c) && s.sched.cores[c].current < |s.pcs| && pc(s.pcs[s.sched.cores[c].current])
  }

  predicate Calls(s: State, c: nat) { AtPc(s, c, (p: Pc) => p.Free?) }

  predicate Enabled(s: State, step: Step) {
    match step
    case Switch(k) => S.Enabled(s.sched, k) && !k.SetState? && !k.Cancel? && (k.WakeSleepers? ==> k.now <= s.clock)
    case NewChannel(c) => Calls(s, c)
    case Send(c, _, _) => Calls(s, c)
    case Receive(c, _) => Calls(s, c)
    case TryReceive(c, _) => Calls(s, c)
    case Submit(c, _, _) => Calls(s, c)
    case Begin(c) => Calls(s, c)
    case End(c, _, _) => AtPc(s, c, (p: Pc) => p.InSegment?)
    case Await(c, _) => Calls(s, c)
    case DoWake(c) => AtPc(s, c, (p: Pc) => p.Waking?)
    case Recheck(c) => AtPc(s, c, (p: Pc) => p.Waits?)
    case GiveUp(c) => AtPc(s, c, (p: Pc) => p.Waits?)
    case Sleep(c, _) => Calls(s, c)
    case Rise(c) => AtPc(s, c, (p: Pc) => p.Asleep? && p.until <= s.clock)
    case Tick => true
    case Exit(c) => Calls(s, c)
  }

  function Me(s: State, c: nat): (t: nat)
    requires S.InThread(s.sched, c)
    ensures t < |s.sched.threads|
  {
    s.sched.cores[c].current
  }

  function Goto(s: State, c: nat, pc: Pc): State
    requires S.InThread(s.sched, c) && Me(s, c) < |s.pcs|
  {
    s.(pcs := s.pcs[Me(s, c) := pc])
  }

  /** Mark the running thread blocked, still under the lock of what it waits for. */
  function Prepare(s: State, c: nat, w: What): State
    requires S.InThread(s.sched, c) && Me(s, c) < |s.pcs|
  {
    Goto(s, c, Waits(w)).(sched := S.Apply(s.sched, S.SetState(c, S.Blocked(Token(w)))))
  }

  function Apply(s: State, step: Step): State
    requires Enabled(s, step)
  {
    match step
    case Switch(k) => s.(sched := S.Apply(s.sched, k), pcs := s.pcs + if k.Adopt? || k.Spawn? then [Free] else [])
    case NewChannel(_) => s.(chans := s.chans + [Channel([], 0, 0)])
    case Send(c, ch, m) =>
      var r := Sent(s.chans, ch, m);
      if r == None then s else Goto(s, c, Waking(Token(Mail(ch)))).(chans := r.value)
    case Receive(c, ch) =>
      if ch >= |s.chans| then s
      else if s.chans[ch].queue != [] then s.(chans := Taken(s.chans, ch).0)
      else Prepare(s, c, Mail(ch))
    case TryReceive(_, ch) => s.(chans := Taken(s.chans, ch).0)
    case Submit(c, o, at) =>
      var (dev, a) := T.Submit(s.dev, o, at);
      if a.Admitted? then Goto(s, c, Waking(DEVICE_TOKEN)).(dev := dev) else s.(dev := dev)
    case Begin(c) =>
      var (dev, id) := T.Begin(s.dev);
      if id == None then Prepare(s.(dev := dev), c, Work) else Goto(s, c, InSegment(id.value)).(dev := dev)
    case End(c, elapsed, at) =>
      var (dev, ended) := T.End(s.dev, s.pcs[Me(s, c)].id, elapsed, at);
      Goto(s, c, if ended.Some? then Waking(JobToken(ended.value)) else Free).(dev := dev)
    case Await(c, id) =>
      var r := T.Find(s.dev.jobs, id);
      if r == None || !T.Live(s.dev.jobs[r.value]) then s else Prepare(s, c, JobEnd(id))
    case DoWake(c) => Goto(s, c, Free).(sched := S.Apply(s.sched, S.Wake(s.pcs[Me(s, c)].token)))
    case Recheck(c) =>
      if s.sched.threads[Me(s, c)].state == S.Blocked(Token(s.pcs[Me(s, c)].what)) then s else Goto(s, c, Free)
    case GiveUp(c) => Goto(s, c, Free).(sched := S.Apply(s.sched, S.Cancel(c)))
    case Sleep(c, until) => Goto(s, c, Asleep(until)).(sched := S.Apply(s.sched, S.SetState(c, S.Sleeping(until))))
    case Rise(c) => Goto(s, c, Free)
    case Tick => s.(clock := s.clock + 1)
    case Exit(c) => Goto(s, c, Exited).(sched := S.Apply(s.sched, S.SetState(c, S.Finished)))
  }

  predicate Start(s: State) {
    S.Boot(s.sched) && s.pcs == [Free, Free] && s.chans == [] && s.dev == T.IDLE_DEVICE
  }

  // ---- the invariant ------------------------------------------------------------------------------

  /** Somebody is about to wake everyone on `token`. */
  predicate Pending(s: State, token: nat) { exists u | 0 <= u < |s.pcs| :: s.pcs[u] == Waking(token) }

  /**
   A thread can run, or will as soon as somebody looks: it is runnable, or still marked as sleeping to a time that has come.
   A thread can be so marked and on a core, because `sleep_ticks` goes by the clock and not by the mark.
   */
  predicate Able(clock: nat, st: S.RunState) { st == S.Runnable || (st.Sleeping? && st.until <= clock) }

  /** What a thread's state can be at each point. */
  predicate Marked(clock: nat, st: S.RunState, pc: Pc) {
    match pc
    case Free => Able(clock, st) || st == S.New
    case Waking(_) => Able(clock, st)
    case InSegment(_) => Able(clock, st)
    case Waits(_) => st == S.Runnable || st.Blocked?
    case Asleep(until) => st == S.Runnable || st == S.Sleeping(until)
    case Exited => st.Finished?
  }

  /** A blocked thread waits for something, and if that is ready already a wake is on its way. */
  predicate Cared(s: State, st: S.RunState, pc: Pc) {
    && (st.Blocked? ==>
          && pc.Waits? && st.token == Token(pc.what)
          && (pc.what.JobEnd? ==> T.Find(s.dev.jobs, pc.what.id).Some?)
          && (Ready(s, pc.what) ==> Pending(s, st.token)))
    && Marked(s.clock, st, pc)
  }

  predicate Counted(c: Channel) { c.sent == c.received + |c.queue| }

  ghost predicate Inv(s: State) {
    && S.Inv(s.sched) && S.Begun(s.sched) && |s.pcs| == |s.sched.threads|
    && (forall t | 0 <= t < |s.pcs| :: Cared(s, s.sched.threads[t].state, s.pcs[t]))
    && (forall ch | 0 <= ch < |s.chans| :: Counted(s.chans[ch]))
  }

  /** What makes the next state as careful as this one: nothing becomes ready, and no pending wake disappears, unseen. */
  lemma CareFrame(s: State, s': State, st: S.RunState, pc: Pc)
    requires Cared(s, st, pc) && s.clock <= s'.clock
    requires pc.Waits? && pc.what.JobEnd? && T.Find(s.dev.jobs, pc.what.id).Some? ==> T.Find(s'.dev.jobs, pc.what.id).Some?
    requires pc.Waits? && st == S.Blocked(Token(pc.what)) && Ready(s', pc.what) && (Ready(s, pc.what) ==> Pending(s, Token(pc.what)))
             ==> Pending(s', Token(pc.what))
    ensures Cared(s', st, pc)
  {
  }

  lemma SwitchInv(s: State, k: S.Step)
    requires Inv(s) && Enabled(s, Switch(k))
    ensures Inv(Apply(s, Switch(k)))
  {
    hide S.Inv, S.Begun, S.Enabled, S.PickNext, T.Find, T.Pickable, Token;
    var s' := Apply(s, Switch(k));
    S.StepInv(s.sched, k);
    S.BegunStep(s.sched, k);
    SwitchStates(s.sched, k);
    forall tok | Pending(s, tok) ensures Pending(s', tok) {
      var u :| 0 <= u < |s.pcs| && s.pcs[u] == Waking(tok);
      assert s'.pcs[u] == Waking(tok);
    }
    forall t | 0 <= t < |s'.pcs| ensures Cared(s', s'.sched.threads[t].state, s'.pcs[t]) {
      if t < |s.pcs| {
        assert Cared(s, s.sched.threads[t].state, s.pcs[t]);
        CareFrame(s, s', s.sched.threads[t].state, s.pcs[t]);
      }
    }
  }

  /** The scheduler's own steps never block or finish a thread. */
  lemma SwitchStates(s: S.State, k: S.Step)
    requires S.Enabled(s, k) && !k.SetState? && !k.Cancel?
    ensures var s' := S.Apply(s, k);
            && |s'.threads| == |s.threads| + (if k.Adopt? || k.Spawn? then 1 else 0)
            && (forall t | 0 <= t < |s.threads| ::
                  s'.threads[t].state == s.threads[t].state
                  || (s'.threads[t].state == S.Runnable && !s.threads[t].state.Finished?))
            && (forall t | |s.threads| <= t < |s'.threads| :: s'.threads[t].state == S.Runnable || s'.threads[t].state == S.New)
  {
    hide S.PickNext;
  }

  /** Nobody waits for a job that does not exist. */
  predicate Waitable(s: State, w: What) { w.JobEnd? ==> T.Find(s.dev.jobs, w.id).Some? }

  /** If `w` is ready now, and was not or had a wake pending, a wake is pending now. */
  predicate Covers(s: State, s': State, w: What) {
    Waitable(s, w) && Ready(s', w) && (Ready(s, w) ==> Pending(s, Token(w))) ==> Pending(s', Token(w))
  }

  predicate OthersStay(s: State, s': State, me: nat) {
    && |s'.pcs| == |s.pcs| == |s.sched.threads| == |s'.sched.threads| && me < |s.pcs|
    && forall t | 0 <= t < |s.pcs| && t != me :: s'.pcs[t] == s.pcs[t]
  }

  /** A step of thread `me` keeps the invariant if it covers all that can be waited for, but for what it has just woken. */
  lemma OwnInv(s: State, s': State, me: nat, woken: Option<nat>)
    requires Inv(s) && S.Inv(s'.sched) && S.Begun(s'.sched) && OthersStay(s, s', me) && s.clock == s'.clock
    requires forall t | 0 <= t < |s.pcs| && t != me ::
               s'.sched.threads[t].state == if woken.Some? && s.sched.threads[t].state == S.Blocked(woken.value) then S.Runnable
                                            else s.sched.threads[t].state
    requires forall id: nat | T.Find(s.dev.jobs, id).Some? :: T.Find(s'.dev.jobs, id).Some?
    requires forall w | woken != Some(Token(w)) :: Covers(s, s', w)
    requires Cared(s', s'.sched.threads[me].state, s'.pcs[me])
    requires forall ch | 0 <= ch < |s'.chans| :: Counted(s'.chans[ch])
    ensures Inv(s')
  {
    hide S.Inv, S.Begun, T.Find, T.Pickable, Token, Ready, Pending;
    forall t | 0 <= t < |s'.pcs| ensures Cared(s', s'.sched.threads[t].state, s'.pcs[t]) {
      assert Cared(s, s.sched.threads[t].state, s.pcs[t]);
      if t != me && s.pcs[t].Waits? { assert woken == Some(Token(s.pcs[t].what)) || Covers(s, s', s.pcs[t].what); }
    }
  }

  /** A wake that was pending is still pending if its thread has not moved. */
  lemma CoversOld(s: State, s': State, me: nat, w: What)
    requires OthersStay(s, s', me) && !s.pcs[me].Waking? && (Waitable(s, w) && Ready(s', w) ==> Ready(s, w))
    ensures Covers(s, s', w)
  {
    hide Ready, Token, Waitable;
    if Ready(s', w) && Pending(s, Token(w)) {
      var u :| 0 <= u < |s.pcs| && s.pcs[u] == Waking(Token(w));
      assert s'.pcs[u] == Waking(Token(w));
    }
  }

  /** What the step has made ready is covered by its own wake to come. */
  lemma CoversNew(s: State, s': State, me: nat, w: What)
    requires OthersStay(s, s', me) && s'.pcs[me] == Waking(Token(w))
    ensures Covers(s, s', w)
  {
  }

  /** Steps that change the device only in ways that make nothing ready, or nothing but `made`. */
  lemma QuietInv(s: State, s': State, c: nat, made: Option<What>)
    requires Inv(s) && Inv'(s, s', c)
    requires forall w | Some(w) != made && Waitable(s, w) && Ready(s', w) :: Ready(s, w)
    requires made.Some? ==> s'.pcs[Me(s, c)] == Waking(Token(made.value))
    ensures Inv(s')
  {
    hide S.Inv, S.Begun, S.InThread, T.Find, Ready, Token, Cared, Covers, Waitable;
    var me := Me(s, c);
    forall w ensures Covers(s, s', w) {
      if Some(w) == made { CoversNew(s, s', me, w); } else { CoversOld(s, s', me, w); }
    }
    OwnInv(s, s', me, None);
  }

  /** The frame of a step of the thread on core `c` that wakes nobody. */
  ghost predicate Inv'(s: State, s': State, c: nat) {
    && S.InThread(s.sched, c) && S.Inv(s'.sched) && S.Begun(s'.sched) && s'.clock == s.clock && OthersStay(s, s', Me(s, c)) && !s.pcs[Me(s, c)].Waking?
    && (forall t | 0 <= t < |s.pcs| && t != Me(s, c) :: s'.sched.threads[t].state == s.sched.threads[t].state)
    && (forall id: nat | T.Find(s.dev.jobs, id).Some? :: T.Find(s'.dev.jobs, id).Some?)
    && Cared(s', s'.sched.threads[Me(s, c)].state, s'.pcs[Me(s, c)])
    && (forall ch | 0 <= ch < |s'.chans| :: Counted(s'.chans[ch]))
  }

  lemma PrepareInv(s: State, c: nat, w: What)
    requires Inv(s) && Calls(s, c) && !Ready(s, w) && (w.JobEnd? ==> T.Find(s.dev.jobs, w.id).Some?)
    ensures Inv(Prepare(s, c, w))
  {
    hide S.Inv, S.Begun, Token, T.Find, T.Pickable;
    var s' := Prepare(s, c, w);
    S.StepInv(s.sched, S.SetState(c, S.Blocked(Token(w))));
    S.BegunStep(s.sched, S.SetState(c, S.Blocked(Token(w))));
    QuietInv(s, s', c, None);
  }

  lemma MailInv(s: State, step: Step)
    requires Inv(s) && Enabled(s, step) && (step.Send? || step.Receive? || step.TryReceive? || step.NewChannel?)
    ensures Inv(Apply(s, step))
  {
    hide S.Inv, S.Begun, Token, T.Find, T.Pickable;
    var s' := Apply(s, step);
    Mine(s, step.core);
    if step.Receive? && step.ch < |s.chans| && s.chans[step.ch].queue == [] {
      PrepareInv(s, step.core, Mail(step.ch));
    } else if step.Send? && step.ch < |s.chans| {
      QuietInv(s, s', step.core, Some(Mail(step.ch)));
    } else if !step.Send? {
      assert forall ch | 0 <= ch < |s.chans| :: Counted(s.chans[ch]);
      QuietInv(s, s', step.core, None);
    }
  }

  // ---- the device ---------------------------------------------------------------------------------

  lemma {:induction false} FindSame(a: seq<T.Job>, b: seq<T.Job>, id: nat, i: nat)
    requires i <= |a| <= |b| && forall k | 0 <= k < |a| :: a[k].id == b[k].id
    ensures T.FindFrom(a, id, i).Some? ==> T.FindFrom(b, id, i) == T.FindFrom(a, id, i)
    decreases |a| - i
  {
    if i < |a| { FindSame(a, b, id, i + 1); }
  }

  /** The jobs of `b` are those of `a`, some further on, and possibly new ones. */
  predicate Later(a: seq<T.Job>, b: seq<T.Job>) {
    |a| <= |b| && forall k | 0 <= k < |a| :: a[k].id == b[k].id
  }

  lemma LaterFinds(a: seq<T.Job>, b: seq<T.Job>)
    requires Later(a, b)
    ensures forall id: nat | T.Find(a, id).Some? :: T.Find(b, id) == T.Find(a, id)
  {
    forall id: nat | T.Find(a, id).Some? ensures T.Find(b, id) == T.Find(a, id) { FindSame(a, b, id, 0); }
  }

  lemma SubmitAdds(d: T.Device, o: T.Offer, at: nat)
    ensures var (d', a) := T.Submit(d, o, at);
            && |d'.jobs| == |d.jobs| + 1 && d'.jobs[..|d.jobs|] == d.jobs && Later(d.jobs, d'.jobs)
            && (a.Admitted? || !T.Live(d'.jobs[|d.jobs|]))
  {
    hide T.Verdict;
  }

  lemma SubmitInv(s: State, step: Step)
    requires Inv(s) && Enabled(s, step) && step.Submit?
    ensures Inv(Apply(s, step))
  {
    hide S.Inv, S.Begun, T.FindFrom, T.Submit, JobToken, T.Find;
    var s' := Apply(s, step);
    var (dev, a) := T.Submit(s.dev, step.o, step.at);
    SubmitAdds(s.dev, step.o, step.at);
    Mine(s, step.core);
    LaterFinds(s.dev.jobs, dev.jobs);
    assert forall k | 0 <= k < |s.dev.jobs| :: dev.jobs[k] == dev.jobs[..|s.dev.jobs|][k] == s.dev.jobs[k];
    QuietInv(s, s', step.core, if a.Admitted? then Some(Work) else None);
  }

  lemma BeginJobs(d: T.Device)
    ensures var (d', id) := T.Begin(d);
            && |d'.jobs| == |d.jobs| && Later(d.jobs, d'.jobs)
            && (forall i | 0 <= i < |d.jobs| :: T.Live(d'.jobs[i]) == T.Live(d.jobs[i]) && T.Pickable(d'.jobs[i]) == T.Pickable(d.jobs[i]))
            && (id == None ==> d'.jobs == d.jobs && forall i | 0 <= i < |d.jobs| :: !T.Pickable(d.jobs[i]))
  {
    hide T.PickIn, T.FindFrom;
    if T.Pick(d) == None { T.PickNone(d.jobs, |d.jobs|); }
  }

  lemma BeginInv(s: State, step: Step)
    requires Inv(s) && Enabled(s, step) && step.Begin?
    ensures Inv(Apply(s, step))
  {
    hide S.Inv, S.Begun, T.Begin, T.Find, T.Pickable, T.Live, Token;
    var c, s' := step.core, Apply(s, step);
    var (dev, id) := T.Begin(s.dev);
    BeginJobs(s.dev);
    LaterFinds(s.dev.jobs, dev.jobs);
    Mine(s, c);
    if id == None {
      QuietInv(s, s.(dev := dev), c, None);
      PrepareInv(s.(dev := dev), c, Work);
    } else {
      QuietInv(s, s', c, None);
    }
  }

  lemma EndJobs(d: T.Device, id: nat, elapsed: nat, at: nat)
    ensures var (d', ended) := T.End(d, id, elapsed, at);
            && |d'.jobs| == |d.jobs| && Later(d.jobs, d'.jobs)
            && (forall i | 0 <= i < |d.jobs| && T.Pickable(d'.jobs[i]) :: T.Pickable(d.jobs[i]))
            && (forall i | 0 <= i < |d.jobs| && T.Live(d.jobs[i]) && !T.Live(d'.jobs[i]) :: ended == Some(d.jobs[i].id))
  {
    hide T.FindFrom;
  }

  lemma EndInv(s: State, step: Step)
    requires Inv(s) && Enabled(s, step) && step.End?
    ensures Inv(Apply(s, step))
  {
    hide S.Inv, S.Begun, T.End, T.Find, T.Pickable, T.Live, JobToken;
    var c, s' := step.core, Apply(s, step);
    var id := s.pcs[Me(s, c)].id;
    var (dev, ended) := T.End(s.dev, id, step.elapsed, step.at);
    EndJobs(s.dev, id, step.elapsed, step.at);
    Mine(s, c);
    LaterFinds(s.dev.jobs, dev.jobs);
    QuietInv(s, s', c, if ended.Some? then Some(JobEnd(ended.value)) else None);
  }

  lemma AwaitInv(s: State, step: Step)
    requires Inv(s) && Enabled(s, step) && step.Await?
    ensures Inv(Apply(s, step))
  {
    hide Inv, T.Find, T.Live, Token, Prepare;
    var r := T.Find(s.dev.jobs, step.id);
    if r.Some? && T.Live(s.dev.jobs[r.value]) { PrepareInv(s, step.core, JobEnd(step.id)); }
  }

  // ---- waking -------------------------------------------------------------------------------------

  lemma WakeInv(s: State, c: nat)
    requires Inv(s) && Enabled(s, DoWake(c))
    ensures Inv(Apply(s, DoWake(c)))
  {
    hide S.Inv, S.Begun, T.Find, T.Pickable, Token;
    var s', me := Apply(s, DoWake(c)), Me(s, c);
    var tok := s.pcs[me].token;
    S.StepInv(s.sched, S.Wake(tok));
    S.BegunStep(s.sched, S.Wake(tok));
    forall w | Some(tok) != Some(Token(w)) ensures Covers(s, s', w) {
      if Ready(s', w) && Pending(s, Token(w)) {
        var u :| 0 <= u < |s.pcs| && s.pcs[u] == Waking(Token(w));
        assert s'.pcs[u] == Waking(Token(w));
      }
    }
    Mine(s, c);
    OwnInv(s, s', me, Some(tok));
  }

  lemma OwnStep(s: State, k: S.Step)
    requires Inv(s) && S.Enabled(s.sched, k)
    ensures S.Inv(S.Apply(s.sched, k)) && S.Begun(S.Apply(s.sched, k))
  {
    hide S.Inv, S.Begun, S.Enabled, S.Apply;
    S.StepInv(s.sched, k);
    S.BegunStep(s.sched, k);
  }

  /** Time passes. */
  lemma TickInv(s: State)
    requires Inv(s)
    ensures Inv(Apply(s, Tick))
  {
    hide S.Inv, S.Begun, T.Find, T.Pickable, Token;
    var s' := s.(clock := s.clock + 1);
    forall t | 0 <= t < |s'.pcs| ensures Cared(s', s'.sched.threads[t].state, s'.pcs[t]) {
      assert Cared(s, s.sched.threads[t].state, s.pcs[t]);
      assert forall tok: nat | Pending(s, tok) :: Pending(s', tok);
      CareFrame(s, s', s.sched.threads[t].state, s.pcs[t]);
    }
  }

  /** The thread on a core has been started. */
  lemma Mine(s: State, c: nat)
    requires Inv(s) && S.InThread(s.sched, c)
    ensures s.sched.threads[Me(s, c)].state != S.New && Marked(s.clock, s.sched.threads[Me(s, c)].state, s.pcs[Me(s, c)])
  {
    S.CurrentHasBegun(s.sched, c);
    assert Cared(s, s.sched.threads[Me(s, c)].state, s.pcs[Me(s, c)]);
  }

  lemma SelfInv(s: State, step: Step)
    requires Inv(s) && Enabled(s, step) && (step.Recheck? || step.GiveUp? || step.Sleep? || step.Rise? || step.Exit?)
    ensures Inv(Apply(s, step))
  {
    hide S.Inv, S.Begun, T.Find, T.Pickable, Token;
    var c, s' := step.core, Apply(s, step);
    if step.GiveUp? { OwnStep(s, S.Cancel(c)); }
    if step.Sleep? { OwnStep(s, S.SetState(c, S.Sleeping(step.until))); }
    if step.Exit? { OwnStep(s, S.SetState(c, S.Finished)); }
    assert Cared(s, s.sched.threads[Me(s, c)].state, s.pcs[Me(s, c)]);
    QuietInv(s, s', c, None);
  }

  lemma StepInv(s: State, step: Step)
    requires Inv(s) && Enabled(s, step)
    ensures Inv(Apply(s, step))
  {
    hide Inv, Enabled, Apply;
    match step
    case Switch(k) => SwitchInv(s, k);
    case Submit(_, _, _) => SubmitInv(s, step);
    case Begin(_) => BeginInv(s, step);
    case End(_, _, _) => EndInv(s, step);
    case Await(_, _) => AwaitInv(s, step);
    case DoWake(c) => WakeInv(s, c);
    case Recheck(_) => SelfInv(s, step);
    case GiveUp(_) => SelfInv(s, step);
    case Sleep(_, _) => SelfInv(s, step);
    case Rise(_) => SelfInv(s, step);
    case Exit(_) => SelfInv(s, step);
    case Tick => TickInv(s);
    case _ => MailInv(s, step);
  }

  // ---- every run ----------------------------------------------------------------------------------

  predicate Run(states: seq<State>, steps: seq<Step>) {
    && |states| == |steps| + 1
    && forall i | 0 <= i < |steps| :: Enabled(states[i], steps[i]) && states[i + 1] == Apply(states[i], steps[i])
  }

  lemma {:induction false} RunInv(states: seq<State>, steps: seq<Step>, i: nat)
    requires Run(states, steps) && Start(states[0]) && i < |states|
    ensures Inv(states[i])
  {
    hide Enabled, Apply;
    if i == 0 {
      S.BootInv(states[0].sched);
    } else {
      RunInv(states, steps, i - 1);
      StepInv(states[i - 1], steps[i - 1]);
    }
  }

  /**
   No wakeup is lost. In every state of every run, whatever the interleaving: a blocked thread is in `block` for the token
   it is blocked on, and if what it waits for is already there (a message, a job to pick, the end of its job), some other
   thread, itself runnable or due to be made so, is about to wake that token.
   */
  lemma NoLostWakeup(states: seq<State>, steps: seq<Step>, i: nat, t: nat)
    requires Run(states, steps) && Start(states[0]) && i < |states|
    requires t < |states[i].sched.threads| && states[i].sched.threads[t].state.Blocked?
    ensures var s := states[i];
            && |s.pcs| == |s.sched.threads| && s.pcs[t].Waits?
            && s.sched.threads[t].state == S.Blocked(Token(s.pcs[t].what))
            && (Ready(s, s.pcs[t].what) ==>
                  exists u | 0 <= u < |s.pcs| ::
                    s.pcs[u] == Waking(Token(s.pcs[t].what)) && u != t && Able(s.clock, s.sched.threads[u].state))
  {
    hide S.Inv, S.Begun, Ready, Token, Start, Run;
    RunInv(states, steps, i);
    var s := states[i];
    assert Cared(s, s.sched.threads[t].state, s.pcs[t]);
    if Ready(s, s.pcs[t].what) {
      var u :| 0 <= u < |s.pcs| && s.pcs[u] == Waking(Token(s.pcs[t].what));
      assert Cared(s, s.sched.threads[u].state, s.pcs[u]);
    }
  }

  /**
   What that wake does: afterwards no thread at all is blocked on the token; those that were can run, are still in `block`
   and will look again; and every other thread is as it was.
   */
  lemma WakeReaches(s: State, c: nat)
    requires Inv(s) && Enabled(s, DoWake(c))
    ensures var s', token := Apply(s, DoWake(c)), s.pcs[Me(s, c)].token;
            && |s'.sched.threads| == |s'.pcs| == |s.pcs|
            && forall t | 0 <= t < |s'.pcs| ::
                 && s'.sched.threads[t].state != S.Blocked(token)
                 && (s.sched.threads[t].state == S.Blocked(token) ==>
                       s'.sched.threads[t].state == S.Runnable && t != Me(s, c) && s'.pcs[t] == s.pcs[t] && s'.pcs[t].Waits?)
                 && (s.sched.threads[t].state != S.Blocked(token) ==> s'.sched.threads[t] == s.sched.threads[t])
  {
    hide S.Inv, S.Begun, T.Find, T.Pickable, Token;
    Mine(s, c);
    forall t | 0 <= t < |s.pcs| ensures s.sched.threads[t].state.Blocked? ==> s.pcs[t].Waits? {
      assert Cared(s, s.sched.threads[t].state, s.pcs[t]);
    }
  }

  function QueueOf(s: State, ch: nat): seq<Message> { if ch < |s.chans| then s.chans[ch].queue else [] }

  /** What a step puts on a channel, and what it takes off. */
  function PutBy(s: State, step: Step, ch: nat): seq<Message> {
    if step.Send? && step.ch == ch && ch < |s.chans| then [step.m] else []
  }

  function TakenBy(s: State, step: Step, ch: nat): seq<Message> {
    if (step.Receive? || step.TryReceive?) && step.ch == ch && QueueOf(s, ch) != [] then [QueueOf(s, ch)[0]] else []
  }

  lemma StepQueue(s: State, step: Step, ch: nat)
    requires Enabled(s, step)
    ensures QueueOf(s, ch) + PutBy(s, step, ch) == TakenBy(s, step, ch) + QueueOf(Apply(s, step), ch)
  {
    hide Enabled, S.Apply, T.Submit, T.Begin, T.End, Token, JobToken;
    var q := QueueOf(s, ch);
    assert q != [] ==> q == [q[0]] + q[1..];
  }

  /** Everything put on a channel in the first `i` steps, in order; and everything taken off. */
  function AllPut(states: seq<State>, steps: seq<Step>, i: nat, ch: nat): seq<Message>
    requires Run(states, steps) && i <= |steps|
  {
    if i == 0 then [] else AllPut(states, steps, i - 1, ch) + PutBy(states[i - 1], steps[i - 1], ch)
  }

  function AllTaken(states: seq<State>, steps: seq<Step>, i: nat, ch: nat): seq<Message>
    requires Run(states, steps) && i <= |steps|
  {
    if i == 0 then [] else AllTaken(states, steps, i - 1, ch) + TakenBy(states[i - 1], steps[i - 1], ch)
  }

  /** No message is lost, invented or reordered: what was sent on a channel is what was received, then what is queued; the counters agree. */
  lemma {:induction false} MailIsConserved(states: seq<State>, steps: seq<Step>, i: nat, ch: nat)
    requires Run(states, steps) && Start(states[0]) && i <= |steps|
    ensures AllPut(states, steps, i, ch) == AllTaken(states, steps, i, ch) + QueueOf(states[i], ch)
    ensures ch < |states[i].chans| ==> states[i].chans[ch].sent == states[i].chans[ch].received + |QueueOf(states[i], ch)|
    decreases i
  {
    hide Enabled, Apply, PutBy, TakenBy;
    RunInv(states, steps, i);
    assert ch < |states[i].chans| ==> Counted(states[i].chans[ch]);
    if i > 0 {
      MailIsConserved(states, steps, i - 1, ch);
      var s, step := states[i - 1], steps[i - 1];
      StepQueue(s, step, ch);
      Regroup(AllTaken(states, steps, i - 1, ch), QueueOf(s, ch), PutBy(s, step, ch), TakenBy(s, step, ch), QueueOf(states[i], ch));
    }
  }

  lemma Regroup(a: seq<Message>, q: seq<Message>, p: seq<Message>, t: seq<Message>, r: seq<Message>)
    requires q + p == t + r
    ensures (a + q) + p == (a + t) + r
  {
    assert (a + q) + p == a + (q + p);
    assert (a + t) + r == a + (t + r);
  }
}
