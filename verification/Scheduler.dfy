/**
 The scheduler: any number of cores over one thread table. Choosing a thread, saving the old context, loading the new
 one and releasing the old thread are separate steps, interleaved with those of every other core.
 */
module Scheduler {
  import opened Wrappers

  datatype RunState = New | Runnable | Sleeping(until: nat) | Blocked(token: nat) | Finished

  /** `saved`: the context in memory is complete, so that loading it resumes the thread where it stopped. */
  datatype Thread = Thread(state: RunState, onCpu: Option<nat>, affinity: Option<nat>, slices: nat, saved: bool)

  /** Where a core is: in a thread, or somewhere between the decision to switch and the release of the old thread. */
  datatype Phase =
    | Running
    | Saving                  // the next thread is claimed, the old context is being written
    | Loading                 // the old context is complete, the new one is being read
    | Switched                // on the new thread's stack, before `finish_switch`
    | Releasing(prev: nat)    // in `finish_switch`, before its lock

  datatype Core =
    | Offline
    | Online(current: nat, idle: nat, cursor: nat, releasePrev: Option<nat>, phase: Phase)

  datatype State = State(threads: seq<Thread>, cores: seq<Core>)

  datatype Step =
    | Decide(core: nat)                          // the locked part of `schedule`
    | Save(core: nat)                            // the first half of `cpu_switch_to`
    | Load(core: nat)                            // and the second
    | TakePrev(core: nat)                        // `finish_switch` up to its lock
    | Release(core: nat)                         // and under it
    | Adopt(core: nat)                           // a core comes up and becomes its own idle thread
    | Spawn(affinity: Option<nat>)
    | StartThread(thread: nat)
    | SetState(core: nat, state: RunState)       // the running thread sleeps, prepares to block or exits
    | Cancel(core: nat)
    | Wake(token: nat)
    | WakeSleepers(now: nat)

  // ---- choosing -------------------------------------------------------------------------------

  predicate Eligible(t: Thread, core: nat) {
    t.state == Runnable && t.onCpu == None && (t.affinity == None || t.affinity == Some(core))
  }

  predicate IsOnline(s: State, c: nat) { c < |s.cores| && s.cores[c].Online? }

  predicate CoreFits(s: State, c: nat) {
    IsOnline(s, c) && s.cores[c].current < |s.threads| && s.cores[c].idle < |s.threads| && s.cores[c].cursor < |s.threads|
  }

  predicate Candidate(s: State, c: nat, i: nat)
    requires CoreFits(s, c) && i < |s.threads|
  {
    i != s.cores[c].idle && i != s.cores[c].current && Eligible(s.threads[i], c)
  }

  /** The thread `step` places after the cursor. */
  function At(s: State, c: nat, step: nat): (i: nat)
    requires CoreFits(s, c)
    ensures i < |s.threads|
  {
    (s.cores[c].cursor + step) % |s.threads|
  }

  function Fallback(s: State, c: nat): nat
    requires CoreFits(s, c)
  {
    var k := s.cores[c];
    if s.threads[k.current].state == Runnable && k.current != k.idle then k.current else k.idle
  }

  function ScanFrom(s: State, c: nat, step: nat): (i: nat)
    requires CoreFits(s, c) && step <= |s.threads| + 1
    ensures i < |s.threads|
    decreases |s.threads| + 1 - step
  {
    if step == |s.threads| + 1 then Fallback(s, c)
    else if Candidate(s, c, At(s, c, step)) then At(s, c, step)
    else ScanFrom(s, c, step + 1)
  }

  function PickNext(s: State, c: nat): (i: nat)
    requires CoreFits(s, c)
    ensures i < |s.threads|
  {
    ScanFrom(s, c, 1)
  }

  /** How many places `to` is after `from` in a circle of `n`; a whole turn for the place itself. */
  function Dist(n: nat, from: nat, to: nat): (d: nat)
    requires from < n && to < n
    ensures 1 <= d <= n
  {
    if from < to then to - from else to + n - from
  }

  lemma OneTurn(n: nat, k: nat)
    requires 0 < n && k < 2 * n
    ensures k % n == if k < n then k else k - n
  {
    if k >= n { assert k == (k - n) + 1 * n; }
  }

  lemma AtDist(s: State, c: nat, i: nat)
    requires CoreFits(s, c) && i < |s.threads|
    ensures At(s, c, Dist(|s.threads|, s.cores[c].cursor, i)) == i
  {
    OneTurn(|s.threads|, s.cores[c].cursor + Dist(|s.threads|, s.cores[c].cursor, i));
  }

  lemma DistAt(s: State, c: nat, step: nat)
    requires CoreFits(s, c) && 1 <= step <= |s.threads|
    ensures Dist(|s.threads|, s.cores[c].cursor, At(s, c, step)) == step
  {
    OneTurn(|s.threads|, s.cores[c].cursor + step);
  }

  lemma {:induction false} ScanFirst(s: State, c: nat, step: nat)
    requires CoreFits(s, c) && 1 <= step <= |s.threads| + 1
    ensures var p := ScanFrom(s, c, step);
            || (exists k: nat | step <= k <= |s.threads| ::
                  p == At(s, c, k) && Candidate(s, c, p) && forall j: nat | step <= j < k :: !Candidate(s, c, At(s, c, j)))
            || (p == Fallback(s, c) && forall j: nat | step <= j <= |s.threads| :: !Candidate(s, c, At(s, c, j)))
    decreases |s.threads| + 1 - step
  {
    if step <= |s.threads| && !Candidate(s, c, At(s, c, step)) {
      ScanFirst(s, c, step + 1);
    }
  }

  /** The choice is the nearest candidate after the cursor, if there is any at all. */
  lemma PickIsNearest(s: State, c: nat, t: nat)
    requires CoreFits(s, c) && t < |s.threads| && Candidate(s, c, t)
    ensures var n, cur := |s.threads|, s.cores[c].cursor;
            var p := PickNext(s, c);
            Candidate(s, c, p) && Dist(n, cur, p) <= Dist(n, cur, t)
  {
    hide At, Dist, Candidate, Fallback;
    ScanFirst(s, c, 1);
    AtDist(s, c, t);
    var d := Dist(|s.threads|, s.cores[c].cursor, t);
    var p := PickNext(s, c);
    var k: nat :| 1 <= k <= |s.threads| && p == At(s, c, k) && forall j: nat | 1 <= j < k :: !Candidate(s, c, At(s, c, j));
    DistAt(s, c, k);
  }

  /** Thread `t` could take the core over: it can run, on this core, and no core has it. */
  predicate CouldTake(s: State, c: nat, t: nat) {
    && IsOnline(s, c) && t < |s.threads| && t != s.cores[c].idle && t != s.cores[c].current
    && var th := s.threads[t];
    th.state == Runnable && th.onCpu == None && (th.affinity.Some? ==> th.affinity.value == c)
  }

  lemma CandidateIs(s: State, c: nat, t: nat)
    requires CoreFits(s, c) && t < |s.threads|
    ensures Candidate(s, c, t) <==> CouldTake(s, c, t)
  {
  }

  /**
   What a core runs next. If any thread could take it over, one of them does, and none of them is nearer after the cursor;
   otherwise the core keeps its thread if that can still run and is not the idle one, and idles if not.
   */
  lemma PickIs(s: State, c: nat)
    requires CoreFits(s, c)
    ensures var k, n, p := s.cores[c], |s.threads|, PickNext(s, c);
            && ((exists t: nat | t < n :: CouldTake(s, c, t)) ==>
                  CouldTake(s, c, p) && forall t: nat | t < n && CouldTake(s, c, t) :: Dist(n, k.cursor, p) <= Dist(n, k.cursor, t))
            && ((forall t: nat | t < n :: !CouldTake(s, c, t)) ==>
                  p == if s.threads[k.current].state == Runnable && k.current != k.idle then k.current else k.idle)
  {
    hide At, Dist, Candidate, CouldTake;
    forall t: nat | t < |s.threads| ensures Candidate(s, c, t) <==> CouldTake(s, c, t) { CandidateIs(s, c, t); }
    forall t: nat | t < |s.threads| && CouldTake(s, c, t)
      ensures CouldTake(s, c, PickNext(s, c)) && Dist(|s.threads|, s.cores[c].cursor, PickNext(s, c)) <= Dist(|s.threads|, s.cores[c].cursor, t)
    {
      PickIsNearest(s, c, t);
    }
    ScanFirst(s, c, 1);
  }

  /** A core that is not idling goes idle exactly when its thread cannot run and no other could take over. */
  lemma IdlesIff(s: State, c: nat)
    requires CoreFits(s, c) && s.cores[c].current != s.cores[c].idle
    ensures PickNext(s, c) == s.cores[c].idle
            <==> s.threads[s.cores[c].current].state != Runnable && forall t: nat | t < |s.threads| :: !CouldTake(s, c, t)
  {
    hide Dist, PickNext;
    PickIs(s, c);
  }

  // ---- steps ------------------------------------------------------------------------------------

  predicate InThread(s: State, c: nat) { CoreFits(s, c) && s.cores[c].phase == Running }

  predicate Enabled(s: State, step: Step) {
    match step
    case Decide(c) => InThread(s, c)
    case Save(c) => CoreFits(s, c) && s.cores[c].phase == Saving && s.cores[c].releasePrev.Some?
                    && s.cores[c].releasePrev.value < |s.threads|
    case Load(c) => CoreFits(s, c) && s.cores[c].phase == Loading
    case TakePrev(c) => CoreFits(s, c) && s.cores[c].phase == Switched
    case Release(c) => CoreFits(s, c) && s.cores[c].phase.Releasing? && s.cores[c].phase.prev < |s.threads|
    case Adopt(c) => c < |s.cores| && s.cores[c].Offline?
    case Spawn(a) => true
    case StartThread(t) => true
    case SetState(c, st) => InThread(s, c) && (st.Sleeping? || st.Blocked? || st.Finished?)
    case Cancel(c) => InThread(s, c)
    case Wake(_) => true
    case WakeSleepers(_) => true
  }

  function WithState(t: Thread, st: RunState): Thread { t.(state := st) }

  function Woken(t: Thread, token: nat): Thread {
    if t.state == Blocked(token) then t.(state := Runnable) else t
  }

  function Roused(t: Thread, now: nat): Thread {
    if t.state.Sleeping? && now >= t.state.until then t.(state := Runnable) else t
  }

  function AllWoken(ts: seq<Thread>, token: nat): (r: seq<Thread>)
    ensures |r| == |ts| && forall i | 0 <= i < |ts| :: r[i] == Woken(ts[i], token)
  {
    seq(|ts|, i requires 0 <= i < |ts| => Woken(ts[i], token))
  }

  function AllRoused(ts: seq<Thread>, now: nat): (r: seq<Thread>)
    ensures |r| == |ts| && forall i | 0 <= i < |ts| :: r[i] == Roused(ts[i], now)
  {
    seq(|ts|, i requires 0 <= i < |ts| => Roused(ts[i], now))
  }

  /** Claim `next`; the old thread stays claimed until its context is saved and someone releases it. */
  function Claim(s: State, c: nat, next: nat): State
    requires CoreFits(s, c) && next < |s.threads|
  {
    var k, t := s.cores[c], s.threads[next];
    s.(threads := s.threads[next := t.(onCpu := Some(c), slices := t.slices + 1)],
       cores := s.cores[c := Online(next, k.idle, next, Some(k.current), Saving)])
  }

  function Apply(s: State, step: Step): State
    requires Enabled(s, step)
  {
    match step
    case Decide(c) =>
      var next := PickNext(s, c);
      if next == s.cores[c].current then s else Claim(s, c, next)
    case Save(c) =>
      var p := s.cores[c].releasePrev.value;
      s.(threads := s.threads[p := s.threads[p].(saved := true)], cores := s.cores[c := s.cores[c].(phase := Loading)])
    case Load(c) =>
      var t := s.cores[c].current;
      s.(threads := s.threads[t := s.threads[t].(saved := false)], cores := s.cores[c := s.cores[c].(phase := Switched)])
    case TakePrev(c) =>
      var k := s.cores[c];
      if k.releasePrev == None then s.(cores := s.cores[c := k.(phase := Running)])
      else s.(cores := s.cores[c := k.(releasePrev := None, phase := Releasing(k.releasePrev.value))])
    case Release(c) =>
      var p := s.cores[c].phase.prev;
      s.(threads := s.threads[p := s.threads[p].(onCpu := None)], cores := s.cores[c := s.cores[c].(phase := Running)])
    case Adopt(c) =>
      var id := |s.threads|;
      State(s.threads + [Thread(Runnable, Some(c), Some(c), 1, false)], s.cores[c := Online(id, id, id, None, Running)])
    case Spawn(a) => s.(threads := s.threads + [Thread(New, None, a, 0, true)])
    case StartThread(t) =>
      if t < |s.threads| && s.threads[t].state == New then
        s.(threads := s.threads[t := WithState(s.threads[t], Runnable)])
      else s
    case SetState(c, st) =>
      var t := s.cores[c].current;
      s.(threads := s.threads[t := WithState(s.threads[t], st)])
    case Cancel(c) =>
      var t := s.cores[c].current;
      if s.threads[t].state.Blocked? then s.(threads := s.threads[t := WithState(s.threads[t], Runnable)]) else s
    case Wake(token) => s.(threads := AllWoken(s.threads, token))
    case WakeSleepers(now) => s.(threads := AllRoused(s.threads, now))
  }

  /** After `init`: core 0 in the boot thread, its idle thread ready, every other core off. */
  predicate Boot(s: State) {
    && |s.cores| >= 1 && s.cores[0] == Online(0, 1, 0, None, Running)
    && (forall c | 1 <= c < |s.cores| :: s.cores[c] == Offline)
    && s.threads == [Thread(Runnable, Some(0), None, 1, false), Thread(Runnable, None, Some(0), 0, true)]
  }

  // ---- safety -------------------------------------------------------------------------------------

  /** Core `k` has thread `t` in its hands: it runs it, or has not yet let go of it. */
  predicate Holds(k: Core, t: nat) {
    k.Online? && (k.current == t || k.releasePrev == Some(t) || k.phase == Releasing(t))
  }

  /** What a core may rely on at each point of a switch. */
  ghost predicate CoreInv(s: State, c: nat) {
    IsOnline(s, c) ==>
      && CoreFits(s, c)
      && var k := s.cores[c];
      && k.cursor == k.current && s.threads[k.idle].affinity == Some(c)
      && (forall t: nat | Holds(k, t) :: t < |s.threads| && s.threads[t].onCpu == Some(c))
      && match k.phase
         case Running => k.releasePrev == None && !s.threads[k.current].saved
         case Saving => k.releasePrev.Some? && k.releasePrev != Some(k.current) && s.threads[k.current].saved
         case Loading => k.releasePrev.Some? && k.releasePrev != Some(k.current) && s.threads[k.current].saved
                         && k.releasePrev.value < |s.threads| && s.threads[k.releasePrev.value].saved
         case Switched => k.releasePrev.Some? && k.releasePrev != Some(k.current) && !s.threads[k.current].saved
                          && k.releasePrev.value < |s.threads| && s.threads[k.releasePrev.value].saved
         case Releasing(p) => k.releasePrev == None && p != k.current && !s.threads[k.current].saved
                               && p < |s.threads| && s.threads[p].saved
  }

  predicate ThreadInv(s: State, t: nat)
    requires t < |s.threads|
  {
    match s.threads[t].onCpu
    case None => s.threads[t].saved
    case Some(c) => IsOnline(s, c) && Holds(s.cores[c], t)
                    && (s.threads[t].affinity == None || s.threads[t].affinity == Some(c))
  }

  ghost predicate Inv(s: State) {
    && (forall c: nat | c < |s.cores| :: CoreInv(s, c))
    && (forall t: nat | t < |s.threads| :: ThreadInv(s, t))
  }

  lemma BootInv(s: State)
    requires Boot(s)
    ensures Inv(s) && Begun(s)
  {
  }

  /** The idle thread of a core that is in a thread is either that thread or free. */
  lemma IdleIsMine(s: State, c: nat)
    requires Inv(s) && InThread(s, c)
    ensures var k := s.cores[c]; k.idle == k.current || s.threads[k.idle].onCpu == None
  {
    var k := s.cores[c];
    assert CoreInv(s, c) && ThreadInv(s, k.idle);
  }

  lemma PickIsFree(s: State, c: nat)
    requires Inv(s) && InThread(s, c)
    ensures var p := PickNext(s, c);
            p == s.cores[c].current
            || (s.threads[p].onCpu == None && (s.threads[p].affinity == None || s.threads[p].affinity == Some(c)))
  {
    hide At;
    assert CoreInv(s, c);
    ScanFirst(s, c, 1);
    IdleIsMine(s, c);
  }

  lemma ClaimInv(s: State, c: nat, next: nat)
    requires Inv(s) && InThread(s, c) && next < |s.threads| && next != s.cores[c].current
    requires s.threads[next].onCpu == None && (s.threads[next].affinity == None || s.threads[next].affinity == Some(c))
    ensures Inv(Claim(s, c, next))
  {
    var s' := Claim(s, c, next);
    assert CoreInv(s, c) && ThreadInv(s, next) && ThreadInv(s, s.cores[c].current);
    forall d: nat | d < |s'.cores| ensures CoreInv(s', d) {
      assert CoreInv(s, d);
    }
    forall t: nat | t < |s'.threads| ensures ThreadInv(s', t) {
      assert ThreadInv(s, t);
    }
  }

  lemma DecideInv(s: State, c: nat)
    requires Inv(s) && Enabled(s, Decide(c))
    ensures Inv(Apply(s, Decide(c)))
  {
    hide PickNext, Inv;
    PickIsFree(s, c);
    if PickNext(s, c) != s.cores[c].current { ClaimInv(s, c, PickNext(s, c)); }
  }

  /** Steps that touch run states only. */
  lemma StatesInv(s: State, s': State)
    requires Inv(s) && s'.cores == s.cores && |s'.threads| == |s.threads|
    requires forall t | 0 <= t < |s.threads| :: s'.threads[t] == s.threads[t].(state := s'.threads[t].state)
    ensures Inv(s')
  {
    forall d: nat | d < |s'.cores| ensures CoreInv(s', d) { assert CoreInv(s, d); }
    forall t: nat | t < |s'.threads| ensures ThreadInv(s', t) { assert ThreadInv(s, t); }
  }

  lemma SwitchInv(s: State, step: Step)
    requires Inv(s) && Enabled(s, step) && (step.Save? || step.Load? || step.TakePrev? || step.Release?)
    ensures Inv(Apply(s, step))
  {
    hide CoreInv, ThreadInv;
    var s' := Apply(s, step);
    forall d: nat | d < |s'.cores| ensures CoreInv(s', d) { SwitchCore(s, step, d); }
    forall t: nat | t < |s'.threads| ensures ThreadInv(s', t) { SwitchThread(s, step, t); }
  }

  lemma SwitchCore(s: State, step: Step, d: nat)
    requires Inv(s) && Enabled(s, step) && (step.Save? || step.Load? || step.TakePrev? || step.Release?) && d < |s.cores|
    ensures CoreInv(Apply(s, step), d)
  {
    hide PickNext, AllWoken, AllRoused;
    assert CoreInv(s, step.core) && CoreInv(s, d);
  }

  lemma SwitchThread(s: State, step: Step, t: nat)
    requires Inv(s) && Enabled(s, step) && (step.Save? || step.Load? || step.TakePrev? || step.Release?) && t < |s.threads|
    ensures ThreadInv(Apply(s, step), t)
  {
    assert CoreInv(s, step.core) && ThreadInv(s, t);
  }

  lemma GrowInv(s: State, step: Step)
    requires Inv(s) && Enabled(s, step) && (step.Adopt? || step.Spawn?)
    ensures Inv(Apply(s, step))
  {
    var s' := Apply(s, step);
    forall d: nat | d < |s'.cores| ensures CoreInv(s', d) {
      assert CoreInv(s, d);
      assert forall t: nat | Holds(s.cores[d], t) :: s'.threads[t] == s.threads[t];
    }
    forall t: nat | t < |s'.threads| ensures ThreadInv(s', t) {
      if t < |s.threads| { assert ThreadInv(s, t); }
    }
  }

  lemma StepInv(s: State, step: Step)
    requires Inv(s) && Enabled(s, step)
    ensures Inv(Apply(s, step))
  {
    hide Inv, PickNext;
    match step
    case Decide(c) => DecideInv(s, c);
    case Save(_) => SwitchInv(s, step);
    case Load(_) => SwitchInv(s, step);
    case TakePrev(_) => SwitchInv(s, step);
    case Release(_) => SwitchInv(s, step);
    case Adopt(_) => GrowInv(s, step);
    case Spawn(_) => GrowInv(s, step);
    case _ => StatesInv(s, Apply(s, step));
  }

  /** A run: the states it goes through and the steps between them. */
  predicate Run(states: seq<State>, steps: seq<Step>) {
    && |states| == |steps| + 1
    && forall i | 0 <= i < |steps| :: Enabled(states[i], steps[i]) && states[i + 1] == Apply(states[i], steps[i])
  }

  /** A thread that has not been started is on no core, and is nobody's idle thread. */
  ghost predicate Begun(s: State) {
    && (forall t: nat | t < |s.threads| && s.threads[t].onCpu.Some? :: s.threads[t].state != New)
    && (forall c: nat | IsOnline(s, c) :: s.cores[c].idle < |s.threads| ==> s.threads[s.cores[c].idle].state != New)
  }

  lemma PickHasBegun(s: State, c: nat)
    requires Inv(s) && Begun(s) && InThread(s, c)
    ensures s.threads[PickNext(s, c)].state != New
  {
    hide At;
    assert CoreInv(s, c);
    ScanFirst(s, c, 1);
  }

  lemma BegunStep(s: State, step: Step)
    requires Inv(s) && Begun(s) && Enabled(s, step)
    ensures Begun(Apply(s, step))
  {
    hide PickNext;
    forall c: nat | IsOnline(s, c) ensures s.cores[c].idle < |s.threads| { assert CoreInv(s, c); }
    if step.Decide? { PickHasBegun(s, step.core); }
  }

  /** The thread a core is in has been started. */
  lemma CurrentHasBegun(s: State, c: nat)
    requires Inv(s) && Begun(s) && InThread(s, c)
    ensures s.threads[s.cores[c].current].state != New
  {
    assert CoreInv(s, c);
    assert Holds(s.cores[c], s.cores[c].current);
  }

  lemma {:induction false} RunInv(states: seq<State>, steps: seq<Step>, i: nat)
    requires Run(states, steps) && Inv(states[0]) && i < |states|
    ensures Inv(states[i])
  {
    hide Inv, Enabled, Apply;
    if i > 0 {
      RunInv(states, steps, i - 1);
      StepInv(states[i - 1], steps[i - 1]);
    }
  }

  /**
   Safety. In every state of every run from boot no thread is in the hands of two cores, a thread no core has claimed
   has a complete context, and a context is only ever loaded when it is complete.
   */
  lemma EveryRunIsSafe(states: seq<State>, steps: seq<Step>, i: nat)
    requires Run(states, steps) && Boot(states[0]) && i < |states|
    ensures var s := states[i];
            && (forall c: nat, d: nat, t: nat | c < |s.cores| && d < |s.cores| && Holds(s.cores[c], t) && Holds(s.cores[d], t) :: c == d)
            && (forall t: nat | t < |s.threads| && s.threads[t].onCpu == None :: s.threads[t].saved)
            && (i < |steps| && steps[i].Load? ==> s.threads[s.cores[steps[i].core].current].saved)
  {
    BootInv(states[0]);
    RunInv(states, steps, i);
    var s := states[i];
    forall c: nat, d: nat, t: nat | c < |s.cores| && d < |s.cores| && Holds(s.cores[c], t) && Holds(s.cores[d], t)
      ensures c == d
    {
      assert CoreInv(s, c) && CoreInv(s, d);
    }
    forall t: nat | t < |s.threads| && s.threads[t].onCpu == None ensures s.threads[t].saved { assert ThreadInv(s, t); }
    if i < |steps| && steps[i].Load? { assert CoreInv(s, steps[i].core); }
  }

  /**
   What a decision does. If the core is to go on with its thread, nothing; otherwise the thread chosen is claimed and counted a
   slice, becomes the core's and its cursor, and the old one is kept to be released; no other thread or core changes.
   */
  lemma DecideIs(s: State, c: nat, i: nat, d: nat)
    requires Enabled(s, Decide(c)) && i < |s.threads| && d < |s.cores|
    ensures var s', p, k := Apply(s, Decide(c)), PickNext(s, c), s.cores[c];
            if p == k.current then s' == s
            else
              && |s'.threads| == |s.threads| && |s'.cores| == |s.cores|
              && s'.threads[i] == (if i == p then s.threads[i].(onCpu := Some(c), slices := s.threads[i].slices + 1) else s.threads[i])
              && (d != c ==> s'.cores[d] == s.cores[d])
              && var k' := s'.cores[c];
              k'.Online? && k'.current == p && k'.cursor == p && k'.releasePrev == Some(k.current) && k'.idle == k.idle && k'.phase == Saving
  {
    hide PickNext;
  }

  /** A sweep at `now` makes runnable exactly the sleepers whose time has come, and touches nothing else. */
  lemma RouseIs(s: State, now: nat, t: nat)
    requires t < |s.threads|
    ensures var s' := Apply(s, WakeSleepers(now));
            && s'.cores == s.cores && |s'.threads| == |s.threads|
            && match s.threads[t].state
               case Sleeping(until) => s'.threads[t] == s.threads[t].(state := if until <= now then Runnable else Sleeping(until))
               case _ => s'.threads[t] == s.threads[t]
  {
  }

  // ---- fairness -----------------------------------------------------------------------------------

  /** Thread `t` could be chosen by core `c` at its next decision. */
  predicate Waits(s: State, c: nat, t: nat) {
    CoreFits(s, c) && CouldTake(s, c, t)
  }

  /** How many of the first `n` steps are decisions of core `c`. */
  function Decisions(steps: seq<Step>, c: nat, n: nat): nat
    requires n <= |steps|
  {
    if n == 0 then 0 else Decisions(steps, c, n - 1) + if steps[n - 1] == Decide(c) then 1 else 0
  }

  /** Thread `t` waits at every decision of core `c`, none of which takes it, while the table keeps its size. */
  predicate Bypassed(states: seq<State>, steps: seq<Step>, c: nat, t: nat) {
    && Run(states, steps)
    && (forall i | 0 <= i < |states| :: |states[i].threads| == |states[0].threads|)
    && forall i | 0 <= i < |steps| && steps[i] == Decide(c) :: Waits(states[i], c, t) && PickNext(states[i], c) != t
  }

  lemma CursorMoves(s: State, step: Step, c: nat)
    requires Enabled(s, step) && CoreFits(s, c) && step != Decide(c)
    ensures IsOnline(Apply(s, step), c) && Apply(s, step).cores[c].cursor == s.cores[c].cursor
  {
    hide PickNext, AllWoken, AllRoused;
  }

  /** Each bypass brings the cursor closer by the length of the jump. */
  lemma BypassCloses(s: State, c: nat, t: nat)
    requires Inv(s) && InThread(s, c) && Waits(s, c, t) && PickNext(s, c) != t
    ensures var s' := Apply(s, Decide(c));
            var n := |s.threads|;
            && |s'.threads| == n && CoreFits(s', c)
            && Dist(n, s'.cores[c].cursor, t) == Dist(n, s.cores[c].cursor, t) - Dist(n, s.cores[c].cursor, PickNext(s, c))
  {
    hide Candidate, PickNext;
    CandidateIs(s, c, t);
    PickIsNearest(s, c, t);
    assert PickNext(s, c) != s.cores[c].current by { CandidateIsOther(s, c, PickNext(s, c)); }
    var p := PickNext(s, c);
    assert Dist(|s.threads|, s.cores[c].cursor, p) <= Dist(|s.threads|, s.cores[c].cursor, t);
  }

  lemma CandidateIsOther(s: State, c: nat, i: nat)
    requires CoreFits(s, c) && i < |s.threads| && Candidate(s, c, i)
    ensures i != s.cores[c].current
  {
  }

  lemma {:induction false} BypassBound(states: seq<State>, steps: seq<Step>, c: nat, t: nat, m: nat)
    requires Bypassed(states, steps, c, t) && Inv(states[0]) && m <= |steps|
    requires CoreFits(states[0], c) && t < |states[0].threads|
    ensures CoreFits(states[m], c)
    ensures var n := |states[0].threads|;
            Dist(n, states[m].cores[c].cursor, t) + Decisions(steps, c, m) <= Dist(n, states[0].cores[c].cursor, t)
  {
    hide Dist, Enabled, Waits, CoreInv, ThreadInv, PickNext;
    if m > 0 {
      BypassBound(states, steps, c, t, m - 1);
      RunInv(states, steps, m - 1);
      RunInv(states, steps, m);
      var s := states[m - 1];
      if steps[m - 1] == Decide(c) {
        assert Waits(s, c, t) && InThread(s, c) by { DecideEnabled(s, c); }
        BypassCloses(s, c, t);
      } else {
        CursorMoves(s, steps[m - 1], c);
        assert CoreInv(states[m], c);
        assert CoreFits(states[m], c) by { OnlineFits(states[m], c); }
      }
    }
  }

  lemma DecideEnabled(s: State, c: nat)
    requires Enabled(s, Decide(c))
    ensures InThread(s, c)
  {
  }

  lemma OnlineFits(s: State, c: nat)
    requires IsOnline(s, c) && CoreInv(s, c)
    ensures CoreFits(s, c)
  {
  }

  /**
   Fairness. In a table of `n` threads a thread that stays eligible for a core, and is neither its idle nor its current
   thread, is passed over fewer than `n - 1` times: one of the core's next `n - 1` decisions takes it.
   */
  lemma ChosenInTime(states: seq<State>, steps: seq<Step>, c: nat, t: nat)
    requires Bypassed(states, steps, c, t) && Inv(states[0])
    requires CoreFits(states[0], c) && t < |states[0].threads| && t != states[0].cores[c].current
    ensures Decisions(steps, c, |steps|) < |states[0].threads| - 1
  {
    BypassBound(states, steps, c, t, |steps|);
    assert CoreInv(states[0], c);
  }

  // ---- the kernel's own form ------------------------------------------------------------------------

  /** The thread table and the per-core records, updated in place. */
  class Kernel {
    var threads: seq<Thread>
    var cores: seq<Core>

    ghost function View(): State
      reads this
    {
      State(threads, cores)
    }

    /** The scan of `pick_next`. */
    method Pick(c: nat) returns (next: nat)
      requires CoreFits(View(), c)
      ensures next == PickNext(View(), c)
    {
      var k, n := cores[c], |threads|;
      var step := 1;
      while step <= n
        invariant 1 <= step <= n + 1 && ScanFrom(View(), c, step) == PickNext(View(), c)
      {
        var i := (k.cursor + step) % n;
        if i != k.idle && i != k.current && Eligible(threads[i], c) { return i; }
        step := step + 1;
      }
      next := if threads[k.current].state == Runnable && k.current != k.idle then k.current else k.idle;
    }

    /** The locked part of `schedule`. */
    method Schedule(c: nat) returns (switched: bool)
      requires Enabled(View(), Decide(c))
      modifies this
      ensures View() == Apply(old(View()), Decide(c))
      ensures switched == (PickNext(old(View()), c) != old(cores)[c].current)
    {
      var next := Pick(c);
      if next == cores[c].current { return false; }
      var k, t := cores[c], threads[next];
      threads := threads[next := t.(onCpu := Some(c), slices := t.slices + 1)];
      cores := cores[c := k.(releasePrev := Some(k.current), cursor := next, current := next, phase := Saving)];
      return true;
    }

    method WakeAllOn(token: nat) returns (woke: bool)
      modifies this`threads
      ensures View() == Apply(old(View()), Wake(token))
      ensures woke <==> exists i | 0 <= i < |old(threads)| :: old(threads)[i].state == Blocked(token)
    {
      woke := false;
      var i := 0;
      while i < |threads|
        invariant 0 <= i <= |threads| == |old(threads)|
        invariant forall j | 0 <= j < i :: threads[j] == Woken(old(threads)[j], token)
        invariant forall j | i <= j < |threads| :: threads[j] == old(threads)[j]
        invariant woke <==> exists j | 0 <= j < i :: old(threads)[j].state == Blocked(token)
      {
        if threads[i].state == Blocked(token) {
          threads := threads[i := threads[i].(state := Runnable)];
          woke := true;
        }
        i := i + 1;
      }
      assert threads == AllWoken(old(threads), token);
    }

    /** One pass: wake what is due, and say whether there is work and when the next sleeper is due. */
    method WakeDue(now: nat) returns (work: bool, earliest: Option<nat>)
      modifies this`threads
      ensures View() == Apply(old(View()), WakeSleepers(now))
      ensures forall i | 0 <= i < |threads| && threads[i].state.Sleeping? ::
                earliest.Some? && now < earliest.value <= threads[i].state.until
      ensures earliest.Some? ==> exists i | 0 <= i < |threads| :: threads[i].state == Sleeping(earliest.value)
      ensures work <==> exists i | 0 <= i < |threads| ::
                threads[i].state == Runnable && (threads[i].affinity == None || old(threads)[i].state.Sleeping?)
    {
      work, earliest := false, None;
      var i := 0;
      while i < |threads|
        invariant 0 <= i <= |threads| == |old(threads)|
        invariant forall j | 0 <= j < i :: threads[j] == Roused(old(threads)[j], now)
        invariant forall j | i <= j < |threads| :: threads[j] == old(threads)[j]
        invariant forall j | 0 <= j < i && threads[j].state.Sleeping? ::
                    earliest.Some? && now < earliest.value <= threads[j].state.until
        invariant earliest.Some? ==> now < earliest.value
        invariant earliest.Some? ==> exists j | 0 <= j < i :: threads[j].state == Sleeping(earliest.value)
        invariant work <==> exists j | 0 <= j < i ::
                    threads[j].state == Runnable && (threads[j].affinity == None || old(threads)[j].state.Sleeping?)
      {
        ghost var before := threads;
        var st := threads[i].state;
        if st.Sleeping? && now >= st.until {
          threads := threads[i := threads[i].(state := Runnable)];
          work := true;
        } else if st.Sleeping? {
          earliest := if earliest.Some? && earliest.value <= st.until then earliest else Some(st.until);
        } else if st == Runnable && threads[i].affinity == None {
          work := true;
        }
        assert forall j | 0 <= j < i :: threads[j] == before[j];
        i := i + 1;
      }
      assert threads == AllRoused(old(threads), now);
    }
  }
}
