/**
 The tensor scheduler: jobs of segments on one accelerator, picked by class and then by deadline, admitted when their
 deadline can be met, and preempted only between segments.
 */
module Tensor {
  import opened Wrappers

  datatype Qos = Interactive | Foreground | Background | Opportunistic

  function Rank(q: Qos): nat {
    match q
    case Interactive => 0
    case Foreground => 1
    case Background => 2
    case Opportunistic => 3
  }

  datatype JobState = Queued | Running | Done | Refused | OverBudget

  datatype Job = Job(
    id: nat, owner: nat, qos: Qos, segments: nat, done: nat, deadline: Option<nat>, submitted: nat, finished: nat,
    state: JobState, preemptions: nat, energy: nat, budget: Option<nat>, deviceUs: nat, refusal: string)

  /** `cost` is the running average of a segment in microseconds; temperatures are thousandths of a degree. */
  datatype Device = Device(
    jobs: seq<Job>, nextId: nat, temp: nat, thermalUpdated: nat, cost: nat, lastRun: Option<nat>, segmentsRun: nat,
    peak: nat, refused: nat, preemptions: nat)

  const DEVICE_POWER_MW: nat := 2500
  const INITIAL_SEGMENT_US: nat := 1000
  const RISE_PER_SEGMENT: nat := 200
  const DECAY_PER_MS: nat := 120
  const THROTTLE: nat := 15_000
  const CRITICAL: nat := 45_000
  const U64_MAX: nat := 0xFFFF_FFFF_FFFF_FFFF

  const IDLE_DEVICE: Device := Device([], 1, 0, 0, INITIAL_SEGMENT_US, None, 0, 0, 0, 0)

  // ---- admission --------------------------------------------------------------------------------

  function Minus(a: nat, b: nat): nat { if a >= b then a - b else 0 }

  /** The device with the cooling since the last look applied. */
  function Cooled(d: Device, now: nat): Device {
    if d.thermalUpdated == 0 then d.(thermalUpdated := now)
    else
      var ms := Minus(now, d.thermalUpdated) / 1000;
      if ms > 0 then d.(temp := Minus(d.temp, ms * DECAY_PER_MS), thermalUpdated := now) else d
  }

  function Limit(q: Qos): nat {
    match q
    case Interactive => CRITICAL
    case Foreground => CRITICAL
    case _ => THROTTLE
  }

  predicate Live(j: Job) { j.state == Queued || j.state == Running }

  predicate Pickable(j: Job) { Live(j) && j.done < j.segments }

  function Left(j: Job): nat { Minus(j.segments, j.done) }

  /** Segments of live jobs of class `q` or above among the first `n`. */
  function AheadIn(jobs: seq<Job>, q: Qos, n: nat): nat
    requires n <= |jobs|
  {
    if n == 0 then 0
    else AheadIn(jobs, q, n - 1) + if Live(jobs[n - 1]) && Rank(jobs[n - 1].qos) <= Rank(q) then Left(jobs[n - 1]) else 0
  }

  datatype Offer = Offer(owner: nat, qos: Qos, segments: nat, window: Option<nat>, budget: Option<nat>)

  datatype Answer = Admitted(id: nat) | Undeliverable(needed: nat, available: nat) | NoHeadroom(temp: nat, limit: nat)

  function NewJob(d: Device, o: Offer, now: nat, st: JobState, why: string): Job {
    Job(d.nextId, o.owner, o.qos, o.segments, 0, if o.window.Some? then Some(now + o.window.value) else None, now, 0, st, 0, 0,
        o.budget, 0, why)
  }

  function Push(d: Device, j: Job): Device { d.(jobs := d.jobs + [j], nextId := d.nextId + 1) }

  /** What `submit_with_budget` decides about an offer, on a device already cooled. */
  function Verdict(d: Device, o: Offer): Answer {
    var need := o.segments * d.cost + AheadIn(d.jobs, o.qos, |d.jobs|) * d.cost;
    if d.temp >= Limit(o.qos) then NoHeadroom(d.temp, Limit(o.qos))
    else if o.window.Some? && need > o.window.value then Undeliverable(need, o.window.value)
    else Admitted(d.nextId)
  }

  function Submit(d: Device, o: Offer, now: nat): (Device, Answer) {
    var c := Cooled(d, now);
    var a := Verdict(c, o);
    match a
    case Admitted(_) => (Push(c, NewJob(c, o, now, Queued, "")), a)
    case NoHeadroom(_, _) => (Push(c.(refused := c.refused + 1), NewJob(c, o, now, Refused, "no thermal headroom")), a)
    case Undeliverable(_, _) => (Push(c.(refused := c.refused + 1), NewJob(c, o, now, Refused, "deadline cannot be met")), a)
  }

  // ---- picking ----------------------------------------------------------------------------------

  function Due(j: Job): nat { if j.deadline.Some? then j.deadline.value else U64_MAX }

  /** `a` comes strictly before `b`: a higher class, or the same class and a nearer deadline. */
  predicate Before(a: Job, b: Job) {
    Rank(a.qos) < Rank(b.qos) || (Rank(a.qos) == Rank(b.qos) && Due(a) < Due(b))
  }

  /** The best pickable job among the first `n`; of equals, the first. */
  function PickIn(jobs: seq<Job>, n: nat): (r: Option<nat>)
    requires n <= |jobs|
    ensures r.Some? ==> r.value < n && Pickable(jobs[r.value])
  {
    if n == 0 then None
    else
      var best := PickIn(jobs, n - 1);
      if Pickable(jobs[n - 1]) && (best == None || Before(jobs[n - 1], jobs[best.value])) then Some(n - 1) else best
  }

  function Pick(d: Device): (r: Option<nat>)
    ensures r.Some? ==> r.value < |d.jobs|
  {
    PickIn(d.jobs, |d.jobs|)
  }

  /** What is picked beats everything before it in the list strictly, and nothing after it beats it. */
  lemma {:induction false} PickIsBest(jobs: seq<Job>, n: nat, i: nat)
    requires n <= |jobs| && i < n && Pickable(jobs[i])
    ensures var r := PickIn(jobs, n);
            r.Some? && !Before(jobs[i], jobs[r.value]) && (i < r.value ==> Before(jobs[r.value], jobs[i]))
  {
    if i < n - 1 {
      PickIsBest(jobs, n - 1, i);
    } else {
      var best := PickIn(jobs, n - 1);
      if best.Some? { PickIsBest(jobs, n - 1, best.value); }
    }
  }

  lemma PickNone(jobs: seq<Job>, n: nat)
    requires n <= |jobs| && PickIn(jobs, n) == None
    ensures forall i: nat | i < n :: !Pickable(jobs[i])
  {
    forall i: nat | i < n && Pickable(jobs[i]) ensures false { PickIsBest(jobs, n, i); }
  }

  /** Class `a` is more urgent than class `b`. */
  predicate MoreUrgent(a: Qos, b: Qos) {
    match a
    case Interactive => b != Interactive
    case Foreground => b == Background || b == Opportunistic
    case Background => b == Opportunistic
    case Opportunistic => false
  }

  /**
   What is picked, spelled out: a queued or running job with segments left, such that no other of those is of a more urgent
   class, nor of the same class with an earlier deadline, nor, with the same class and deadline, earlier in the list. No
   deadline comes after every deadline.
   */
  lemma PickedIs(d: Device, i: nat)
    requires i < |d.jobs| && (d.jobs[i].state == Queued || d.jobs[i].state == Running) && d.jobs[i].done < d.jobs[i].segments
    requires forall k | 0 <= k < |d.jobs| && d.jobs[k].deadline.Some? :: d.jobs[k].deadline.value < U64_MAX
    ensures Pick(d).Some?
    ensures var p, j := d.jobs[Pick(d).value], d.jobs[i];
            && (p.state == Queued || p.state == Running) && p.done < p.segments
            && !MoreUrgent(j.qos, p.qos)
            && (j.qos == p.qos && j.deadline.Some? ==> p.deadline.Some? && p.deadline.value <= j.deadline.value)
            && (j.qos == p.qos && j.deadline == p.deadline ==> Pick(d).value <= i)
  {
    PickIsBest(d.jobs, |d.jobs|, i);
  }

  // ---- the worker -------------------------------------------------------------------------------

  function FindFrom(jobs: seq<Job>, id: nat, i: nat): (r: Option<nat>)
    requires i <= |jobs|
    ensures r.Some? ==> i <= r.value < |jobs| && jobs[r.value].id == id
    decreases |jobs| - i
  {
    if i == |jobs| then None else if jobs[i].id == id then Some(i) else FindFrom(jobs, id, i + 1)
  }

  function Find(jobs: seq<Job>, id: nat): (r: Option<nat>)
    ensures r.Some? ==> r.value < |jobs| && jobs[r.value].id == id
  {
    FindFrom(jobs, id, 0)
  }

  /** The job that loses the device when `id` gets it, if it still has work. */
  function Loser(d: Device, id: nat): Option<nat> {
    if d.lastRun == None || d.lastRun == Some(id) then None
    else
      var r := Find(d.jobs, d.lastRun.value);
      if r.Some? && d.jobs[r.value].done < d.jobs[r.value].segments then r else None
  }

  /** The first locked section: choose a job, or nothing. */
  function Begin(d: Device): (Device, Option<nat>) {
    match Pick(d)
    case None => (d.(lastRun := None), None)
    case Some(i) =>
      var id := d.jobs[i].id;
      var l := Loser(d, id);
      var jobs := if l.Some? then d.jobs[l.value := d.jobs[l.value].(preemptions := d.jobs[l.value].preemptions + 1)] else d.jobs;
      (d.(jobs := jobs[i := jobs[i].(state := Running)], lastRun := Some(id),
          preemptions := d.preemptions + if l.Some? then 1 else 0), Some(id))
  }

  /** A job with one more segment accounted for. */
  function Charged(j: Job, elapsed: nat): Job {
    j.(done := j.done + 1, deviceUs := j.deviceUs + elapsed, energy := j.energy + elapsed * DEVICE_POWER_MW / 1000)
  }

  predicate SpentOut(j: Job) { j.budget.Some? && j.energy >= j.budget.value }

  predicate Ends(j: Job) { j.done >= j.segments || SpentOut(j) }

  function Advanced(j: Job, elapsed: nat, now: nat): Job {
    var a := Charged(j, elapsed);
    if a.done >= a.segments then a.(state := Done, finished := now)
    else if SpentOut(a) then a.(state := OverBudget, finished := now)
    else a
  }

  function Max(a: nat, b: nat): nat { if a > b then a else b }

  /** Cost, heat and count after a segment. */
  function Warmed(d: Device, elapsed: nat, now: nat): Device {
    var c := Cooled(d.(cost := (d.cost * 3 + elapsed) / 4, segmentsRun := d.segmentsRun + 1), now);
    c.(temp := c.temp + RISE_PER_SEGMENT, peak := Max(c.peak, c.temp + RISE_PER_SEGMENT))
  }

  /** The second locked section: account for the segment, and say whether the job has come to an end. */
  function End(d: Device, id: nat, elapsed: nat, now: nat): (Device, Option<nat>) {
    var w := Warmed(d, elapsed, now);
    match Find(w.jobs, id)
    case None => (w, None)
    case Some(i) =>
      (w.(jobs := w.jobs[i := Advanced(w.jobs[i], elapsed, now)]),
       if Ends(Charged(w.jobs[i], elapsed)) then Some(id) else None)
  }

  // ---- runs -------------------------------------------------------------------------------------

  /** The device, and the job whose segment is running outside the lock. */
  datatype State = State(dev: Device, inFlight: Option<nat>)

  datatype Step = Offered(o: Offer, at: nat) | Chosen | Segment(elapsed: nat, at: nat)

  predicate Enabled(s: State, step: Step) {
    match step
    case Offered(_, _) => true
    case Chosen => s.inFlight == None
    case Segment(_, _) => s.inFlight.Some?
  }

  function Apply(s: State, step: Step): State
    requires Enabled(s, step)
  {
    match step
    case Offered(o, at) => s.(dev := Submit(s.dev, o, at).0)
    case Chosen => State(Begin(s.dev).0, Begin(s.dev).1)
    case Segment(elapsed, at) => State(End(s.dev, s.inFlight.value, elapsed, at).0, None)
  }

  predicate Run(states: seq<State>, steps: seq<Step>) {
    && |states| == |steps| + 1
    && forall i | 0 <= i < |steps| :: Enabled(states[i], steps[i]) && states[i + 1] == Apply(states[i], steps[i])
  }

  /** Every job has its place in the list as its number, and the segment in flight belongs to a job with work left. */
  predicate Inv(s: State) {
    && s.dev.nextId == |s.dev.jobs| + 1
    && (forall i | 0 <= i < |s.dev.jobs| :: s.dev.jobs[i].id == i + 1)
    && (s.inFlight.Some? ==> 1 <= s.inFlight.value <= |s.dev.jobs| && Pickable(s.dev.jobs[s.inFlight.value - 1]))
  }

  /** The device as it starts. */
  lemma IdleInv()
    ensures Inv(State(IDLE_DEVICE, None))
  {
  }

  lemma {:induction false} FindIs(jobs: seq<Job>, id: nat, i: nat)
    requires forall k | 0 <= k < |jobs| :: jobs[k].id == k + 1
    requires i < id <= |jobs|
    ensures FindFrom(jobs, id, i) == Some(id - 1)
    decreases |jobs| - i
  {
    if i + 1 < id { FindIs(jobs, id, i + 1); }
  }

  lemma StepInv(s: State, step: Step)
    requires Inv(s) && Enabled(s, step)
    ensures Inv(Apply(s, step)) && |Apply(s, step).dev.jobs| >= |s.dev.jobs|
  {
    hide Verdict, PickIn, FindFrom, Advanced, Pickable;
    match step
    case Offered(o, at) =>
    case Chosen =>
      var r := Pick(s.dev);
      if r.Some? { BegunPickable(s.dev, r.value); }
    case Segment(elapsed, at) =>
      AdvancedId(s.dev.jobs, elapsed, at);
  }

  lemma BegunPickable(d: Device, i: nat)
    requires Pick(d) == Some(i)
    ensures Pickable(Begin(d).0.jobs[i])
  {
  }

  lemma AdvancedId(jobs: seq<Job>, elapsed: nat, at: nat)
    ensures forall i | 0 <= i < |jobs| :: Advanced(jobs[i], elapsed, at).id == jobs[i].id
  {
  }

  // ---- how long a job waits ---------------------------------------------------------------------

  /** Segments of `j` (the `i`-th job) that run before job `k` does, with the class and deadline of `key`. */
  function Weight(key: Job, k: nat, j: Job, i: nat): nat {
    if Live(j) && (i == k || (i < k && !Before(key, j))) then Left(j) else 0
  }

  function Work(jobs: seq<Job>, key: Job, k: nat, n: nat): nat
    requires n <= |jobs|
  {
    if n == 0 then 0 else Work(jobs, key, k, n - 1) + Weight(key, k, jobs[n - 1], n - 1)
  }

  /** A segment in flight for a job that is not in the way delays everything by one. */
  function Extra(s: State, key: Job, k: nat): nat
    requires Inv(s)
  {
    if s.inFlight.Some? && Weight(key, k, s.dev.jobs[s.inFlight.value - 1], s.inFlight.value - 1) == 0 then 1 else 0
  }

  /** Segments the device will run up to the end of job `k`. */
  function Until(s: State, key: Job, k: nat): nat
    requires Inv(s) && k < |s.dev.jobs|
  {
    Work(s.dev.jobs, key, k, k + 1) + Extra(s, key, k)
  }

  lemma {:induction false} WorkSame(a: seq<Job>, b: seq<Job>, key: Job, k: nat, n: nat)
    requires n <= |a| && n <= |b| && forall i | 0 <= i < n :: Weight(key, k, a[i], i) == Weight(key, k, b[i], i)
    ensures Work(a, key, k, n) == Work(b, key, k, n)
  {
    if n > 0 { WorkSame(a, b, key, k, n - 1); }
  }

  lemma {:induction false} WorkUpdate(a: seq<Job>, key: Job, k: nat, n: nat, i: nat, j: Job)
    requires i < n <= |a|
    ensures Work(a[i := j], key, k, n) + Weight(key, k, a[i], i) == Work(a, key, k, n) + Weight(key, k, j, i)
  {
    if i == n - 1 {
      WorkSame(a, a[i := j], key, k, n - 1);
    } else {
      WorkUpdate(a, key, k, n - 1, i, j);
    }
  }

  lemma {:induction false} WorkAtLeast(a: seq<Job>, key: Job, k: nat, n: nat, i: nat)
    requires i < n <= |a|
    ensures Work(a, key, k, n) >= Weight(key, k, a[i], i)
  {
    if i < n - 1 { WorkAtLeast(a, key, k, n - 1, i); }
  }

  /** A job that has come to an end: finished, or stopped by its energy cap. */
  predicate Over(j: Job) { j.state == Done || j.state == OverBudget }

  /** Job `k` is `key`'s and has work left; nothing behind it in the list may go before it. */
  predicate Waiting(s: State, key: Job, k: nat) {
    && Inv(s) && k < |s.dev.jobs|
    && var j := s.dev.jobs[k];
    && Pickable(j) && j.budget == key.budget && j.qos == key.qos && j.deadline == key.deadline
    && NothingOvertakes(s, key, k)
    && (s.inFlight == Some(k + 1) ==> forall i: nat | i < k :: Weight(key, k, s.dev.jobs[i], i) == 0)
  }

  predicate NothingOvertakes(s: State, key: Job, k: nat) {
    forall i | k < i < |s.dev.jobs| && Pickable(s.dev.jobs[i]) :: !Before(s.dev.jobs[i], key)
  }

  predicate NoCaps(s: State, key: Job, k: nat) {
    forall i: nat | i < |s.dev.jobs| && Weight(key, k, s.dev.jobs[i], i) > 0 :: s.dev.jobs[i].budget == None
  }

  lemma OfferKeeps(s: State, key: Job, k: nat, step: Step)
    requires Waiting(s, key, k) && step.Offered?
    ensures var s' := Apply(s, step);
            && Inv(s') && Until(s', key, k) == Until(s, key, k) && (NoCaps(s, key, k) ==> NoCaps(s', key, k))
            && (NothingOvertakes(s', key, k) ==> Waiting(s', key, k))
  {
    hide Verdict;
    StepInv(s, step);
    var s' := Apply(s, step);
    WorkSame(s.dev.jobs, s'.dev.jobs, key, k, k + 1);
  }

  lemma BeginWeights(d: Device, key: Job, k: nat, i: nat)
    requires i < |d.jobs|
    ensures var j, j' := d.jobs[i], Begin(d).0.jobs[i];
            Weight(key, k, j', i) == Weight(key, k, j, i) && j'.budget == j.budget && (Pickable(j) <==> Pickable(j')) && j'.qos == j.qos && j'.deadline == j.deadline
  {
    hide PickIn, FindFrom;
  }

  lemma ChoiceKeeps(s: State, key: Job, k: nat)
    requires Waiting(s, key, k) && Enabled(s, Chosen)
    ensures var s' := Apply(s, Chosen);
            && Inv(s') && Until(s', key, k) == Until(s, key, k) && (NoCaps(s, key, k) ==> NoCaps(s', key, k))
            && (NothingOvertakes(s', key, k) ==> Waiting(s', key, k))
  {
    hide PickIn, FindFrom, Begin, Pickable, Weight, Before;
    StepInv(s, Chosen);
    var s', n := Apply(s, Chosen), |s.dev.jobs|;
    BeginLength(s.dev);
    forall i: nat | i < n ensures Weight(key, k, s'.dev.jobs[i], i) == Weight(key, k, s.dev.jobs[i], i) {
      BeginWeights(s.dev, key, k, i);
    }
    forall i: nat | i < n ensures s'.dev.jobs[i].budget == s.dev.jobs[i].budget { BeginWeights(s.dev, key, k, i); }
    BeginWeights(s.dev, key, k, k);
    WorkSame(s.dev.jobs, s'.dev.jobs, key, k, k + 1);
    PickIsBest(s.dev.jobs, n, k);
    var r := Pick(s.dev).value;
    PickedInTheWay(s, key, k, r);
    BeginReturns(s);
    WeightOfOthers(s, key, k, r);
  }

  lemma BeginLength(d: Device)
    ensures |Begin(d).0.jobs| == |d.jobs|
  {
  }

  lemma BeginReturns(s: State)
    requires Inv(s) && Pick(s.dev).Some?
    ensures Begin(s.dev).1 == Some(Pick(s.dev).value + 1)
  {
  }

  lemma PickedInTheWay(s: State, key: Job, k: nat, r: nat)
    requires Waiting(s, key, k) && Pick(s.dev) == Some(r)
    ensures r <= k && Weight(key, k, s.dev.jobs[r], r) > 0
  {
    PickIsBest(s.dev.jobs, |s.dev.jobs|, k);
  }

  /** Job `k` only gets the device when nothing is left in its way. */
  lemma WeightOfOthers(s: State, key: Job, k: nat, r: nat)
    requires Waiting(s, key, k) && Pick(s.dev) == Some(r)
    ensures r == k ==> forall i: nat | i < k :: Weight(key, k, s.dev.jobs[i], i) == 0
  {
    if r == k {
      forall i: nat | i < k ensures Weight(key, k, s.dev.jobs[i], i) == 0 {
        if Weight(key, k, s.dev.jobs[i], i) > 0 { PickIsBest(s.dev.jobs, |s.dev.jobs|, i); }
      }
    }
  }

  lemma AdvanceWeight(key: Job, k: nat, j: Job, i: nat, elapsed: nat, at: nat)
    requires Pickable(j)
    ensures var w, w' := Weight(key, k, j, i), Weight(key, k, Advanced(j, elapsed, at), i);
            (w == 0 ==> w' == 0) && (w > 0 ==> w' < w) && (w > 0 && j.budget == None ==> w' == w - 1)
    ensures var a := Advanced(j, elapsed, at);
            && a.budget == j.budget && a.qos == j.qos && a.deadline == j.deadline
            && (Pickable(a) || (Over(a) && Weight(key, k, a, i) == 0)) && (j.budget == None ==> a.state != OverBudget)
  {
  }

  /** The end of `key`'s job: its cap can only stop it if it has one. */
  predicate Finished(j: Job, key: Job) { Over(j) && (key.budget == None ==> j.state == Done) }

  lemma BehindHasNone(key: Job, k: nat, j: Job, i: nat)
    ensures i > k ==> Weight(key, k, j, i) == 0
  {
  }

  lemma SegmentCounts(s: State, key: Job, k: nat, step: Step)
    requires Waiting(s, key, k) && step.Segment? && Enabled(s, step) && NothingOvertakes(Apply(s, step), key, k)
    ensures var s' := Apply(s, step);
            && Inv(s') && Until(s', key, k) + 1 <= Until(s, key, k)
            && (NoCaps(s, key, k) ==> Until(s', key, k) + 1 == Until(s, key, k) && NoCaps(s', key, k))
            && ((NothingOvertakes(s', key, k) && Waiting(s', key, k))
                || (Finished(s'.dev.jobs[k], key) && Until(s', key, k) == 0))
  {
    hide FindFrom, Work, Before, Weight, Pickable, Advanced;
    StepInv(s, step);
    var s', i := Apply(s, step), s.inFlight.value - 1;
    FindIs(s.dev.jobs, s.inFlight.value, 0);
    AdvanceWeight(key, k, s.dev.jobs[i], i, step.elapsed, step.at);
    assert Weight(key, k, s.dev.jobs[i], i) == 0 || i <= k by { BehindHasNone(key, k, s.dev.jobs[i], i); }
    assert s'.dev.jobs == s.dev.jobs[i := Advanced(s.dev.jobs[i], step.elapsed, step.at)];
    if i <= k {
      WorkUpdate(s.dev.jobs, key, k, k + 1, i, s'.dev.jobs[i]);
    } else {
      WorkSame(s.dev.jobs, s'.dev.jobs, key, k, k + 1);
    }
    if !Pickable(s'.dev.jobs[k]) {
      assert i == k;
      WorkNone(s'.dev.jobs, key, k, k + 1);
    }
  }

  lemma {:induction false} WorkNone(a: seq<Job>, key: Job, k: nat, n: nat)
    requires n <= |a| && forall i | 0 <= i < n :: Weight(key, k, a[i], i) == 0
    ensures Work(a, key, k, n) == 0
  {
    if n > 0 { WorkNone(a, key, k, n - 1); }
  }

  /** One step while job `k` waits: it goes on waiting or is done, and only segments bring its end closer. */
  lemma StepCounts(s: State, key: Job, k: nat, step: Step)
    requires Waiting(s, key, k) && Enabled(s, step)
    requires NothingOvertakes(Apply(s, step), key, k)
    ensures var s', u := Apply(s, step), if step.Segment? then 1 else 0;
            && Inv(s') && k < |s'.dev.jobs|
            && Until(s', key, k) + u <= Until(s, key, k)
            && (NoCaps(s, key, k) ==> Until(s', key, k) + u == Until(s, key, k) && NoCaps(s', key, k))
            && (Waiting(s', key, k) || (Finished(s'.dev.jobs[k], key) && Until(s', key, k) == 0 && step.Segment?))
  {
    hide Until, Weight, Pickable, Before, Work, NoCaps, Apply, Enabled;
    StepInv(s, step);
    match step
    case Offered(_, _) => OfferKeeps(s, key, k, step);
    case Chosen => ChoiceKeeps(s, key, k);
    case Segment(_, _) => SegmentCounts(s, key, k, step);
  }

  function Segments(steps: seq<Step>, n: nat): nat
    requires n <= |steps|
  {
    if n == 0 then 0 else Segments(steps, n - 1) + if steps[n - 1].Segment? then 1 else 0
  }

  /** A run in which no later job of a strictly better class or deadline comes in front of job `k`. */
  predicate Undisturbed(states: seq<State>, steps: seq<Step>, key: Job, k: nat) {
    && Run(states, steps) && Waiting(states[0], key, k)
    && forall i | 0 <= i < |states| :: NothingOvertakes(states[i], key, k)
  }

  lemma {:induction false} RunCounts(states: seq<State>, steps: seq<Step>, key: Job, k: nat, n: nat)
    requires Undisturbed(states, steps, key, k) && n <= |steps|
    ensures Inv(states[n]) && k < |states[n].dev.jobs|
    ensures Waiting(states[n], key, k) || Finished(states[n].dev.jobs[k], key)
    ensures Waiting(states[n], key, k) ==>
              && Segments(steps, n) + Until(states[n], key, k) <= Until(states[0], key, k)
              && (NoCaps(states[0], key, k) ==>
                    NoCaps(states[n], key, k) && Segments(steps, n) + Until(states[n], key, k) == Until(states[0], key, k))
    ensures NoCaps(states[0], key, k) && Over(states[n].dev.jobs[k]) ==> Segments(steps, n) >= Until(states[0], key, k)
    ensures n > 0 && Waiting(states[n - 1], key, k) ==> Segments(steps, n) <= Until(states[0], key, k)
  {
    hide Until, Waiting, NoCaps, Apply, Enabled, NothingOvertakes;
    if n > 0 {
      RunCounts(states, steps, key, k, n - 1);
      if Waiting(states[n - 1], key, k) {
        StepCounts(states[n - 1], key, k, steps[n - 1]);
      } else {
        OverStays(states[n - 1], k, steps[n - 1]);
      }
    }
    WaitingNotDone(states[n], key, k);
  }

  lemma WaitingNotDone(s: State, key: Job, k: nat)
    ensures Waiting(s, key, k) ==> Inv(s) && k < |s.dev.jobs| && !Over(s.dev.jobs[k]) && Until(s, key, k) >= 1
  {
    if Waiting(s, key, k) { WorkAtLeast(s.dev.jobs, key, k, k + 1, k); }
  }

  lemma OverStays(s: State, k: nat, step: Step)
    requires Inv(s) && Enabled(s, step) && k < |s.dev.jobs| && Over(s.dev.jobs[k])
    ensures var s' := Apply(s, step); Inv(s') && k < |s'.dev.jobs| && s'.dev.jobs[k].state == s.dev.jobs[k].state
  {
    hide Verdict, PickIn, FindFrom, Advanced;
    StepInv(s, step);
    if step.Segment? { FindIs(s.dev.jobs, s.inFlight.value, 0); }
  }

  /**
   The bound. A waiting job has come to an end by the time the device has run `Until` segments, whatever else is submitted
   behind it, and without an energy cap of its own that end is completion; and exactly then, neither earlier nor later, if
   no job in its way has a cap.
   */
  lemma DoneInTime(states: seq<State>, steps: seq<Step>, key: Job, k: nat, n: nat)
    requires Undisturbed(states, steps, key, k) && n <= |steps|
    ensures k < |states[n].dev.jobs|
    ensures Segments(steps, n) >= Until(states[0], key, k) ==> Finished(states[n].dev.jobs[k], key)
    ensures NoCaps(states[0], key, k) && Over(states[n].dev.jobs[k]) ==> Segments(steps, n) >= Until(states[0], key, k)
  {
    hide Until, Waiting, NoCaps;
    RunCounts(states, steps, key, k, n);
    WaitingNotDone(states[n], key, k);
  }

  // ---- what admission counts ----------------------------------------------------------------------

  /** A segment of a class the new job outranks is on the device. */
  function LowerInFlight(s: State, q: Qos): nat
    requires Inv(s)
  {
    if s.inFlight.Some? && Rank(s.dev.jobs[s.inFlight.value - 1].qos) > Rank(q) then 1 else 0
  }

  /** What is in the way of a job was counted ahead of it; `skip` is a counted job that is not in the way. */
  lemma {:induction false} WorkIsCounted(jobs: seq<Job>, key: Job, k: nat, n: nat, skip: Option<nat>)
    requires n <= k && n <= |jobs|
    requires skip.Some? ==> skip.value < n && Weight(key, k, jobs[skip.value], skip.value) == 0
                            && Pickable(jobs[skip.value]) && Rank(jobs[skip.value].qos) <= Rank(key.qos)
    ensures Work(jobs, key, k, n) + (if skip.Some? then 1 else 0) <= AheadIn(jobs, key.qos, n)
  {
    if n > 0 { WorkIsCounted(jobs, key, k, n - 1, if skip == Some(n - 1) then None else skip); }
  }

  /** Nothing else is counted: when no counted job would let the new one pass, the count is exactly what is in its way. */
  lemma {:induction false} CountedIsInTheWay(jobs: seq<Job>, key: Job, k: nat, n: nat)
    requires n <= k && n <= |jobs|
    requires forall i | 0 <= i < n && Rank(jobs[i].qos) <= Rank(key.qos) :: !Before(key, jobs[i])
    ensures AheadIn(jobs, key.qos, n) == Work(jobs, key, k, n)
  {
    if n > 0 { CountedIsInTheWay(jobs, key, k, n - 1); }
  }

  /** Jobs that are over, and jobs of lower classes, count for nothing. */
  lemma {:induction false} OnlyLiveJobsCount(jobs: seq<Job>, q: Qos, n: nat)
    requires n <= |jobs|
    requires forall i | 0 <= i < n :: jobs[i].state == Done || jobs[i].state == Refused || jobs[i].state == OverBudget || Rank(jobs[i].qos) > Rank(q)
    ensures AheadIn(jobs, q, n) == 0
  {
    if n > 0 { OnlyLiveJobsCount(jobs, q, n - 1); }
  }

  // ---- admission, in terms of what a caller sees ----------------------------------------------------

  /** Degrees lost by `now`: 120 thousandths for each whole millisecond since the last look that counted. */
  lemma CoolingIs(d: Device, now: nat)
    ensures var c := Cooled(d, now);
            && c == d.(temp := c.temp, thermalUpdated := c.thermalUpdated)
            && (d.thermalUpdated == 0 ==> c.temp == d.temp && c.thermalUpdated == now)
            && (d.thermalUpdated != 0 && now < d.thermalUpdated + 1000 ==> c == d)
            && (d.thermalUpdated != 0 && now >= d.thermalUpdated + 1000 ==>
                  c.thermalUpdated == now && c.temp == Minus(d.temp, 120 * ((now - d.thermalUpdated) / 1000)))
  {
    if d.thermalUpdated != 0 && now >= d.thermalUpdated + 1000 { assert (now - d.thermalUpdated) / 1000 >= 1; }
  }

  /** Looking at the temperature more often never makes the device cooler than looking once. */
  lemma LookingDoesNotCool(d: Device, t1: nat, t2: nat)
    requires t1 <= t2 && d.thermalUpdated != 0 && d.thermalUpdated <= t1
    ensures Cooled(d, t2).temp <= Cooled(Cooled(d, t1), t2).temp
  {
    CoolingIs(d, t1);
    CoolingIs(Cooled(d, t1), t2);
    CoolingIs(d, t2);
    var u := d.thermalUpdated;
    if t1 >= u + 1000 && t2 >= t1 + 1000 {
      assert (t1 - u) / 1000 + (t2 - t1) / 1000 <= (t2 - u) / 1000;
    } else if t1 >= u + 1000 {
      assert (t1 - u) / 1000 <= (t2 - u) / 1000;
    }
  }

  /** How hot is too hot: 45 degrees for the two classes a user waits on, 15 for the others. */
  function HeatLimit(interactive: bool): nat { if interactive then 45_000 else 15_000 }

  /**
   What becomes of an offer. It is refused for heat exactly when the device, cooled to now, is at its class's limit; failing
   that, for its deadline exactly when its own segments and those ahead, at the running average, do not fit its window; and
   admitted otherwise. Either way one job is added and no other changed; admitted, it is queued with all its work to do.
   */
  lemma SubmitIs(d: Device, o: Offer, now: nat)
    ensures var (d', a) := Submit(d, o, now);
            var temp, n := Cooled(d, now).temp, |d.jobs|;
            var need := (o.segments + AheadIn(d.jobs, o.qos, n)) * d.cost;
            var hot := temp >= HeatLimit(o.qos == Interactive || o.qos == Foreground);
            var late := o.window.Some? && need > o.window.value;
            && (a.NoHeadroom? <==> hot) && (a.Undeliverable? <==> !hot && late) && (a.Admitted? <==> !hot && !late)
            && (a.NoHeadroom? ==> a.temp == temp) && (a.Undeliverable? ==> a.needed == need && a.available == o.window.value)
            && |d'.jobs| == n + 1 && d'.jobs[..n] == d.jobs && d'.nextId == d.nextId + 1 && (a.Admitted? ==> a.id == d.nextId)
            && d'.refused == d.refused + (if a.Admitted? then 0 else 1)
            && d'.cost == d.cost && d'.lastRun == d.lastRun && d'.segmentsRun == d.segmentsRun && d'.preemptions == d.preemptions
            && var j := d'.jobs[n];
            && j.id == d.nextId && j.owner == o.owner && j.qos == o.qos && j.segments == o.segments && j.done == 0
            && j.budget == o.budget && j.energy == 0 && j.deviceUs == 0 && j.submitted == now
            && j.deadline == (if o.window.Some? then Some(now + o.window.value) else None)
            && j.state == if a.Admitted? then Queued else Refused
  {
    hide AheadIn;
    CoolingIs(d, now);
    Shared(o.segments, AheadIn(d.jobs, o.qos, |d.jobs|), d.cost);
  }

  lemma Shared(a: nat, b: nat, c: nat)
    ensures (a + b) * c == a * c + b * c
  {
  }

  // ---- the worker's sections, in terms of what a caller sees ----------------------------------------

  /**
   Choosing: the picked job, and no other, is put to run; a job that had the device, has work left and is not the one picked
   counts one preemption.
   */
  lemma BeginIs(s: State, i: nat)
    requires Inv(s) && s.inFlight == None && i < |s.dev.jobs|
    ensures var r, d' := Pick(s.dev), Apply(s, Chosen).dev;
            && |d'.jobs| == |s.dev.jobs|
            && var j, j' := s.dev.jobs[i], d'.jobs[i];
            var ousted := r.Some? && s.dev.lastRun == Some(j.id) && j.done < j.segments && r != Some(i);
            && j' == j.(state := if r == Some(i) then Running else j.state, preemptions := j.preemptions + if ousted then 1 else 0)
            && Apply(s, Chosen).inFlight == (if r.Some? then Some(s.dev.jobs[r.value].id) else None)
            && d'.lastRun == Apply(s, Chosen).inFlight
            && d'.temp == s.dev.temp && d'.cost == s.dev.cost && d'.segmentsRun == s.dev.segmentsRun
  {
    hide PickIn;
    if s.dev.lastRun.Some? {
      var id := s.dev.lastRun.value;
      if 1 <= id <= |s.dev.jobs| { FindIs(s.dev.jobs, id, 0); }
    }
  }

  /**
   After a segment: the job that ran it has one more done, its time and its energy at 2500 mW; it is done when all its
   segments are, and otherwise over budget when it has a cap and has spent it. The average moves a quarter of the way to what
   the segment took, the device gains 200 thousandths on what it has cooled to, and no other job changes.
   */
  lemma EndIs(s: State, elapsed: nat, at: nat, i: nat)
    requires Inv(s) && s.inFlight.Some? && i < |s.dev.jobs|
    ensures var d' := Apply(s, Segment(elapsed, at)).dev;
            && |d'.jobs| == |s.dev.jobs| && Apply(s, Segment(elapsed, at)).inFlight == None
            && d'.cost == (s.dev.cost * 3 + elapsed) / 4 && d'.temp == Cooled(s.dev, at).temp + 200
            && d'.segmentsRun == s.dev.segmentsRun + 1 && d'.peak == Max(s.dev.peak, d'.temp)
            && var j, j' := s.dev.jobs[i], d'.jobs[i];
            if s.inFlight != Some(j.id) then j' == j
            else
              && j'.done == j.done + 1 && j'.deviceUs == j.deviceUs + elapsed && j'.energy == j.energy + elapsed * 2500 / 1000
              && (j'.state == Done <==> j'.done == j.segments)
              && (j'.state == OverBudget <==> j'.done < j.segments && j.budget.Some? && j'.energy >= j.budget.value)
              && (j'.state != Done && j'.state != OverBudget ==> j'.state == j.state && j'.finished == j.finished)
              && (j'.state == Done || j'.state == OverBudget ==> j'.finished == at)
  {
    FindIs(s.dev.jobs, s.inFlight.value, 0);
    CoolingIs(s.dev, at);
    CoolingIs(s.dev.(cost := (s.dev.cost * 3 + elapsed) / 4, segmentsRun := s.dev.segmentsRun + 1), at);
  }

  /** The state just after an offer is admitted, and the place of the new job. */
  predicate JustAdmitted(s: State, o: Offer, at: nat) {
    Inv(s) && o.segments > 0 && Submit(s.dev, o, at).1.Admitted?
  }

  lemma AdmittedWaits(s: State, o: Offer, at: nat)
    requires JustAdmitted(s, o, at)
    ensures var s', k := Apply(s, Offered(o, at)), |s.dev.jobs|;
            && k < |s'.dev.jobs| && Waiting(s', s'.dev.jobs[k], k)
            && Until(s', s'.dev.jobs[k], k) <= o.segments + AheadIn(s.dev.jobs, o.qos, k) + LowerInFlight(s, o.qos)
  {
    hide Verdict, Before;
    var s', k := Apply(s, Offered(o, at)), |s.dev.jobs|;
    StepInv(s, Offered(o, at));
    var key := s'.dev.jobs[k];
    WorkSame(s.dev.jobs, s'.dev.jobs, key, k, k);
    var f := s.inFlight;
    var skip := if f.Some? && Extra(s', key, k) == 1 && LowerInFlight(s, o.qos) == 0 then Some(f.value - 1) else None;
    WorkIsCounted(s.dev.jobs, key, k, k, skip);
  }

  function DeviceTime(steps: seq<Step>, n: nat): nat
    requires n <= |steps|
  {
    if n == 0 then 0 else DeviceTime(steps, n - 1) + if steps[n - 1].Segment? then steps[n - 1].elapsed else 0
  }

  lemma {:induction false} TimeBound(steps: seq<Step>, n: nat, cost: nat)
    requires n <= |steps| && forall i | 0 <= i < n && steps[i].Segment? :: steps[i].elapsed <= cost
    ensures DeviceTime(steps, n) <= Segments(steps, n) * cost
  {
    if n > 0 { TimeBound(steps, n - 1, cost); }
  }

  lemma Scale(a: nat, b: nat, c: nat)
    requires a <= b
    ensures a * c <= b * c
  {
  }

  /**
   What admission promises. From the moment a deadline job is admitted until it is done the device is busy for no longer
   than its window, plus one segment if a lower class had the device, as long as segments cost no more than the average
   admission reckoned with and nothing more urgent is submitted.
   */
  lemma AdmissionHolds(s: State, o: Offer, at: nat, key: Job, states: seq<State>, steps: seq<Step>, n: nat)
    requires JustAdmitted(s, o, at) && o.window.Some? && n <= |steps| && states != [] && states[0] == Apply(s, Offered(o, at))
    requires Undisturbed(states, steps, key, |s.dev.jobs|) && key == states[0].dev.jobs[|s.dev.jobs|]
    requires n > 0 ==> Waiting(states[n - 1], key, |s.dev.jobs|)
    requires forall i | 0 <= i < n && steps[i].Segment? :: steps[i].elapsed <= s.dev.cost
    ensures DeviceTime(steps, n) <= o.window.value + LowerInFlight(s, o.qos) * s.dev.cost
  {
    hide Waiting, Undisturbed, Until, Submit, AheadIn;
    var k := |s.dev.jobs|;
    AdmittedWaits(s, o, at);
    TimeBound(steps, n, s.dev.cost);
    if n > 0 { RunCounts(states, steps, key, k, n); }
    var ahead, lower := AheadIn(s.dev.jobs, o.qos, k), LowerInFlight(s, o.qos);
    Scale(Segments(steps, n), o.segments + ahead + lower, s.dev.cost);
    Distribute(o.segments, ahead, lower, s.dev.cost);
    WindowFits(s, o, at);
  }

  lemma {:induction false} TimeExact(steps: seq<Step>, n: nat, cost: nat)
    requires n <= |steps| && forall i | 0 <= i < n && steps[i].Segment? :: steps[i].elapsed == cost
    ensures DeviceTime(steps, n) == Segments(steps, n) * cost
  {
    if n > 0 { TimeExact(steps, n - 1, cost); }
  }

  /**
   When an admitted deadline is met, exactly. With no energy cap in the way and segments that cost what admission reckoned
   with, the device time from admission to the end of the job is within the window if and only if the segments it has to
   wait for fit: its own, those in its way, and the one in flight, all known when it is submitted. That is always so when
   no lower class has the device.
   */
  lemma AdmissionExact(s: State, o: Offer, at: nat, key: Job, states: seq<State>, steps: seq<Step>, n: nat)
    requires JustAdmitted(s, o, at) && o.window.Some? && 0 < n <= |steps| && states != [] && states[0] == Apply(s, Offered(o, at))
    requires Undisturbed(states, steps, key, |s.dev.jobs|) && key == states[0].dev.jobs[|s.dev.jobs|]
    requires NoCaps(states[0], key, |s.dev.jobs|)
    requires Waiting(states[n - 1], key, |s.dev.jobs|) && |s.dev.jobs| < |states[n].dev.jobs| && Over(states[n].dev.jobs[|s.dev.jobs|])
    requires forall i | 0 <= i < n && steps[i].Segment? :: steps[i].elapsed == s.dev.cost
    ensures DeviceTime(steps, n) <= o.window.value <==> Until(states[0], key, |s.dev.jobs|) * s.dev.cost <= o.window.value
    ensures LowerInFlight(s, o.qos) == 0 ==> DeviceTime(steps, n) <= o.window.value
  {
    hide Waiting, Undisturbed, Until, Submit, AheadIn, NoCaps, LowerInFlight;
    RunCounts(states, steps, key, |s.dev.jobs|, n);
    TimeExact(steps, n, s.dev.cost);
    AdmissionHolds(s, o, at, key, states, steps, n);
  }

  lemma Distribute(a: nat, b: nat, c: nat, d: nat)
    ensures (a + b + c) * d == a * d + b * d + c * d
  {
  }

  lemma WindowFits(s: State, o: Offer, at: nat)
    requires JustAdmitted(s, o, at) && o.window.Some?
    ensures o.segments * s.dev.cost + AheadIn(s.dev.jobs, o.qos, |s.dev.jobs|) * s.dev.cost <= o.window.value
  {
  }

  const LOW: Offer := Offer(1, Opportunistic, 2, None, None)
  const URGENT: Offer := Offer(2, Interactive, 1, Some(1000), None)
  const LOW_JOB: Job := Job(1, 1, Opportunistic, 2, 0, None, 0, 0, Running, 0, 0, None, 0, "")
  const URGENT_JOB: Job := Job(2, 2, Interactive, 1, 0, Some(1000), 0, 0, Queued, 0, 0, None, 0, "")

  lemma LowTakesTheDevice()
    ensures Apply(Apply(State(IDLE_DEVICE, None), Offered(LOW, 0)), Chosen)
            == State(Device([LOW_JOB], 2, 0, 0, 1000, Some(1), 0, 0, 0, 0), Some(1))
  {
    var s1 := Apply(State(IDLE_DEVICE, None), Offered(LOW, 0));
    assert s1.dev.jobs == [LOW_JOB.(state := Queued)];
    assert PickIn(s1.dev.jobs, 0) == None;
    assert PickIn(s1.dev.jobs, 1) == Some(0);
  }

  lemma UrgentIsAdmitted(s: State)
    requires s == State(Device([LOW_JOB], 2, 0, 0, 1000, Some(1), 0, 0, 0, 0), Some(1))
    ensures JustAdmitted(s, URGENT, 0)
    ensures Apply(s, Offered(URGENT, 0)) == State(Device([LOW_JOB, URGENT_JOB], 3, 0, 0, 1000, Some(1), 0, 0, 0, 0), Some(1))
  {
    assert AheadIn(s.dev.jobs, Interactive, 0) == 0;
    assert AheadIn(s.dev.jobs, Interactive, 1) == 0;
  }

  lemma LowGoesFirst(s: State)
    requires s == State(Device([LOW_JOB, URGENT_JOB], 3, 0, 0, 1000, Some(1), 0, 0, 0, 0), Some(1))
    ensures Apply(s, Segment(1000, 1000)).inFlight == None
    ensures Apply(s, Segment(1000, 1000)).dev.jobs == [Advanced(LOW_JOB, 1000, 1000), URGENT_JOB]
  {
    FindIs(s.dev.jobs, 1, 0);
  }

  lemma UrgentIsLate(s: State)
    requires s.inFlight == None && s.dev.jobs == [Advanced(LOW_JOB, 1000, 1000), URGENT_JOB]
    ensures var s' := Apply(s, Chosen);
            && s'.inFlight == Some(2)
            && var j := Apply(s', Segment(1000, 2000)).dev.jobs[1];
            j.state == Done && j.deadline == Some(1000) && j.finished == 2000
  {
    assert PickIn(s.dev.jobs, 0) == None;
    assert PickIn(s.dev.jobs, 1) == Some(0);
    assert Pick(s.dev) == Some(1);
    var s' := Apply(s, Chosen);
    assert s'.dev.jobs[1] == URGENT_JOB.(state := Running, preemptions := s'.dev.jobs[1].preemptions);
    FindIs(s'.dev.jobs, 2, 0);
  }

  /** The extra segment is real: admitted with a window of one segment, done after two that cost what was reckoned. */
  lemma AdmissionCanMiss() returns (states: seq<State>, steps: seq<Step>)
    ensures Run(states, steps) && states[0] == State(IDLE_DEVICE, None)
    ensures steps == [Offered(LOW, 0), Chosen, Offered(URGENT, 0), Segment(1000, 1000), Chosen, Segment(1000, 2000)]
    ensures JustAdmitted(states[2], URGENT, 0) && states[2].dev.cost == 1000
    ensures var j := states[6].dev.jobs; |j| == 2 && j[1].state == Done && j[1].deadline == Some(1000) && j[1].finished == 2000
  {
    hide Apply, JustAdmitted;
    var s0 := State(IDLE_DEVICE, None);
    steps := [Offered(LOW, 0), Chosen, Offered(URGENT, 0), Segment(1000, 1000), Chosen, Segment(1000, 2000)];
    var s1 := Apply(s0, steps[0]);
    assert s1.inFlight == None by { OfferLeavesDevice(s0, steps[0]); }
    var s2 := Apply(s1, Chosen);
    LowTakesTheDevice();
    UrgentIsAdmitted(s2);
    var s3 := Apply(s2, steps[2]);
    LowGoesFirst(s3);
    var s4 := Apply(s3, steps[3]);
    UrgentIsLate(s4);
    var s5 := Apply(s4, Chosen);
    var s6 := Apply(s5, steps[5]);
    assert |s6.dev.jobs| == 2 by { JobsKept(s4, s5, s6); }
    states := [s0, s1, s2, s3, s4, s5, s6];
  }

  lemma OfferLeavesDevice(s: State, step: Step)
    requires step.Offered?
    ensures Apply(s, step).inFlight == s.inFlight
  {
  }

  lemma JobsKept(s: State, s1: State, s2: State)
    requires Enabled(s, Chosen) && s1 == Apply(s, Chosen) && s1.inFlight.Some? && s2 == Apply(s1, Segment(1000, 2000))
    ensures |s2.dev.jobs| == |s.dev.jobs|
  {
    BeginLength(s.dev);
  }

  // ---- a job with nothing to do -------------------------------------------------------------------

  /** An offer of no segments is admitted whenever there is headroom and no deadline: nothing looks at the count. */
  lemma EmptyIsAdmitted(d: Device, o: Offer, now: nat)
    requires o.segments == 0 && o.window == None && Cooled(d, now).temp < Limit(o.qos)
    ensures var (d', a) := Submit(d, o, now);
            a.Admitted? && |d'.jobs| == |d.jobs| + 1 && d'.jobs[|d.jobs|].state == Queued && d'.jobs[|d.jobs|].segments == 0
  {
  }

  /** A job of no segments is never picked and never ends: whoever waits for it waits for ever. */
  lemma {:induction false} EmptyJobNeverEnds(states: seq<State>, steps: seq<Step>, k: nat, n: nat)
    requires Run(states, steps) && Inv(states[0]) && n <= |steps|
    requires k < |states[0].dev.jobs| && states[0].dev.jobs[k].state == Queued && states[0].dev.jobs[k].segments == 0
    ensures Inv(states[n]) && k < |states[n].dev.jobs| && states[n].dev.jobs[k].state == Queued && states[n].dev.jobs[k].segments == 0
  {
    hide Apply, Enabled;
    if n > 0 {
      EmptyJobNeverEnds(states, steps, k, n - 1);
      EmptyStays(states[n - 1], k, steps[n - 1]);
    }
  }

  lemma EmptyStays(s: State, k: nat, step: Step)
    requires Inv(s) && Enabled(s, step) && k < |s.dev.jobs| && s.dev.jobs[k].state == Queued && s.dev.jobs[k].segments == 0
    ensures var s' := Apply(s, step); Inv(s') && k < |s'.dev.jobs| && s'.dev.jobs[k].state == Queued && s'.dev.jobs[k].segments == 0
  {
    hide Verdict, PickIn, FindFrom, Advanced;
    StepInv(s, step);
    if step.Segment? { FindIs(s.dev.jobs, s.inFlight.value, 0); }
  }

  /**
   A job ends if and only if it has work: once the device has run its own segments, those counted ahead and one in flight,
   with nothing more urgent submitted, an admitted job is done or over budget exactly when it had a segment to run.
   */
  lemma EndsIffWork(s: State, o: Offer, at: nat, key: Job, states: seq<State>, steps: seq<Step>, n: nat)
    requires Inv(s) && Submit(s.dev, o, at).1.Admitted? && Run(states, steps) && n <= |steps| && states[0] == Apply(s, Offered(o, at))
    requires |s.dev.jobs| < |states[0].dev.jobs| && key == states[0].dev.jobs[|s.dev.jobs|]
    requires forall i | 0 <= i < |states| :: NothingOvertakes(states[i], key, |s.dev.jobs|)
    requires Segments(steps, n) >= o.segments + AheadIn(s.dev.jobs, o.qos, |s.dev.jobs|) + LowerInFlight(s, o.qos)
    ensures |s.dev.jobs| < |states[n].dev.jobs|
    ensures Over(states[n].dev.jobs[|s.dev.jobs|]) <==> o.segments > 0
  {
    hide Until, Verdict, AheadIn, LowerInFlight, NothingOvertakes;
    var k := |s.dev.jobs|;
    StepInv(s, Offered(o, at));
    if o.segments > 0 {
      AdmittedWaits(s, o, at);
      DoneInTime(states, steps, key, k, n);
    } else {
      EmptyJobNeverEnds(states, steps, k, n);
    }
  }

  // ---- the device's own form ------------------------------------------------------------------------

  /** The device record, updated in place under its lock. */
  class Accelerator {
    var jobs: seq<Job>
    var nextId: nat
    var temp: nat
    var thermalUpdated: nat
    var cost: nat
    var lastRun: Option<nat>
    var segmentsRun: nat
    var peak: nat
    var refused: nat
    var preemptions: nat

    ghost function View(): Device
      reads this
    {
      Device(jobs, nextId, temp, thermalUpdated, cost, lastRun, segmentsRun, peak, refused, preemptions)
    }

    method Cool(now: nat)
      modifies this`temp, this`thermalUpdated
      ensures View() == Cooled(old(View()), now)
    {
      if thermalUpdated == 0 {
        thermalUpdated := now;
        return;
      }
      var ms := Minus(now, thermalUpdated) / 1000;
      if ms > 0 {
        temp := Minus(temp, ms * DECAY_PER_MS);
        thermalUpdated := now;
      }
    }

    method SubmitJob(o: Offer, now: nat) returns (a: Answer)
      modifies this
      ensures View() == Submit(old(View()), o, now).0 && a == Submit(old(View()), o, now).1
    {
      Cool(now);
      ghost var c := View();
      if temp >= Limit(o.qos) {
        a := NoHeadroom(temp, Limit(o.qos));
        Record(o, now, Refused, "no thermal headroom");
        refused := refused + 1;
        return;
      }
      if o.window.Some? {
        var ahead, i := 0, 0;
        while i < |jobs|
          invariant 0 <= i <= |jobs| && ahead == AheadIn(jobs, o.qos, i) * cost
        {
          if Live(jobs[i]) && Rank(jobs[i].qos) <= Rank(o.qos) { ahead := ahead + Left(jobs[i]) * cost; }
          i := i + 1;
        }
        if o.segments * cost + ahead > o.window.value {
          a := Undeliverable(o.segments * cost + ahead, o.window.value);
          Record(o, now, Refused, "deadline cannot be met");
          refused := refused + 1;
          return;
        }
      }
      a := Admitted(nextId);
      Record(o, now, Queued, "");
    }

    method Record(o: Offer, now: nat, st: JobState, why: string)
      modifies this`jobs, this`nextId
      ensures View() == Push(old(View()), NewJob(old(View()), o, now, st, why))
    {
      var deadline := if o.window.Some? then Some(now + o.window.value) else None;
      jobs := jobs + [Job(nextId, o.owner, o.qos, o.segments, 0, deadline, now, 0, st, 0, 0, o.budget, 0, why)];
      nextId := nextId + 1;
    }

    /** The loop of `pick`. */
    method PickJob() returns (best: Option<nat>)
      ensures best == Pick(View())
    {
      best := None;
      var i := 0;
      while i < |jobs|
        invariant 0 <= i <= |jobs| && best == PickIn(jobs, i)
      {
        var j := jobs[i];
        if Live(j) && j.done < j.segments {
          if best == None || Before(j, jobs[best.value]) { best := Some(i); }
        }
        i := i + 1;
      }
    }

    method FindJob(id: nat) returns (r: Option<nat>)
      ensures r == Find(jobs, id)
    {
      var i := 0;
      while i < |jobs|
        invariant 0 <= i <= |jobs| && Find(jobs, id) == FindFrom(jobs, id, i)
      {
        if jobs[i].id == id { return Some(i); }
        i := i + 1;
      }
      r := None;
    }

    /** The worker's first locked section. */
    method BeginSegment() returns (id: Option<nat>)
      modifies this`jobs, this`lastRun, this`preemptions
      ensures View() == Begin(old(View())).0 && id == Begin(old(View())).1
    {
      var best := PickJob();
      if best == None {
        lastRun := None;
        return None;
      }
      var i := best.value;
      id := Some(jobs[i].id);
      if lastRun.Some? && lastRun != id {
        var p := FindJob(lastRun.value);
        if p.Some? && jobs[p.value].done < jobs[p.value].segments {
          jobs := jobs[p.value := jobs[p.value].(preemptions := jobs[p.value].preemptions + 1)];
          preemptions := preemptions + 1;
        }
      }
      lastRun := id;
      jobs := jobs[i := jobs[i].(state := Running)];
    }

    method Warm(elapsed: nat, now: nat)
      modifies this`cost, this`segmentsRun, this`temp, this`thermalUpdated, this`peak
      ensures View() == Warmed(old(View()), elapsed, now)
    {
      cost := (cost * 3 + elapsed) / 4;
      segmentsRun := segmentsRun + 1;
      Cool(now);
      temp := temp + RISE_PER_SEGMENT;
      if temp > peak { peak := temp; }
    }

    /** The worker's second locked section. */
    method EndSegment(id: nat, elapsed: nat, now: nat) returns (finished: Option<nat>)
      modifies this
      ensures View() == End(old(View()), id, elapsed, now).0 && finished == End(old(View()), id, elapsed, now).1
    {
      Warm(elapsed, now);
      ghost var w := View();
      var r := FindJob(id);
      if r == None { return None; }
      var j := jobs[r.value];
      j := j.(done := j.done + 1, deviceUs := j.deviceUs + elapsed, energy := j.energy + elapsed * DEVICE_POWER_MW / 1000);
      assert j == Charged(w.jobs[r.value], elapsed);
      if j.done >= j.segments {
        j, finished := j.(state := Done, finished := now), Some(id);
      } else if SpentOut(j) {
        j, finished := j.(state := OverBudget, finished := now), Some(id);
      } else {
        finished := None;
      }
      assert j == Advanced(w.jobs[r.value], elapsed, now);
      jobs := jobs[r.value := j];
    }
  }
}
