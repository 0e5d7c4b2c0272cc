/**
 The block client: any number of threads talking to one driver process over two first-in first-out channels. A request
 may be given up while its reply is still on its way; the tag is what keeps late replies from answering the wrong request.
 */
module BlockClient {
  import opened Wrappers
  import opened Bytes
  import J = Jlfs

  const OP_INFO: byte := 0
  const OP_READ: byte := 1
  const OP_WRITE: byte := 2
  const OP_SHUTDOWN: byte := 3
  const HEADER: nat := 13
  const REPLY_HEADER: nat := 5

  // ---- the wire -------------------------------------------------------------------------------

  datatype Request = Info | Read(sector: nat) | Write(sector: nat, data: Sector) | Shutdown

  function OpOf(r: Request): byte {
    match r
    case Info => OP_INFO
    case Read(_) => OP_READ
    case Write(_, _) => OP_WRITE
    case Shutdown => OP_SHUTDOWN
  }

  function SectorOf(r: Request): nat {
    match r
    case Read(sector) => sector
    case Write(sector, _) => sector
    case _ => 0
  }

  /** What the 64-bit sector field can carry. */
  predicate Fits(r: Request) { SectorOf(r) < U64 }

  /** `[op][tag][sector]`, then the data of a write. */
  function Encode(r: Request, tag: nat): (m: seq<byte>)
    ensures |m| >= HEADER
  {
    [OpOf(r)] + Le(tag, 4) + Le(SectorOf(r), 8) + if r.Write? then r.data else []
  }

  /** The tag of a reply; one too short to have a tag counts as zero. */
  function ReplyTag(m: seq<byte>): nat {
    if |m| < REPLY_HEADER then 0 else U32At(m, 1)
  }

  /** How the device took a request. A write it reports as failed may have reached the medium. */
  datatype Outcome = Outcome(ok: bool, landed: bool)

  function Reply(status: byte, tag: seq<byte>, data: seq<byte>): seq<byte> { [status] + tag + data }

  /** The driver's loop body: what it answers to message `m`, and what is on the disk afterwards. */
  function Serve(m: seq<byte>, disk: J.Disk, o: Outcome): (Option<seq<byte>>, J.Disk) {
    if |m| < HEADER then (None, disk)
    else
      var tag, sector := m[1..5], U64At(m, 5);
      if m[0] == OP_INFO then (Some(Reply(0, tag, Le(|disk|, 8))), disk)
      else if m[0] == OP_READ then
        (Some(if o.ok && sector < |disk| then Reply(0, tag, disk[sector]) else Reply(1, tag, Zeros(SECTOR_SIZE))), disk)
      else if m[0] == OP_WRITE then
        var data := Padded(m[HEADER..], SECTOR_SIZE);
        (Some(Reply(if o.ok && sector < |disk| then 0 else 1, tag, [])),
         if sector < |disk| && (o.ok || o.landed) then disk[sector := data] else disk)
      else if m[0] == OP_SHUTDOWN then (Some(Reply(0, tag, [])), disk)
      else (Some(Reply(1, tag, [])), disk)
  }

  /** The same without the wire: what a request asks for, and what it does. */
  function Answer(r: Request, tag: nat, disk: J.Disk, o: Outcome): seq<byte> {
    match r
    case Info => Reply(0, Le(tag, 4), Le(|disk|, 8))
    case Read(sector) =>
      if o.ok && sector < |disk| then Reply(0, Le(tag, 4), disk[sector]) else Reply(1, Le(tag, 4), Zeros(SECTOR_SIZE))
    case Write(sector, _) => Reply(if o.ok && sector < |disk| then 0 else 1, Le(tag, 4), [])
    case Shutdown => Reply(0, Le(tag, 4), [])
  }

  function Effect(r: Request, disk: J.Disk, o: Outcome): (d: J.Disk)
    ensures |d| == |disk|
  {
    if r.Write? && r.sector < |disk| && (o.ok || o.landed) then disk[r.sector := r.data] else disk
  }

  lemma EncodeParts(r: Request, tag: nat)
    requires tag < U32 && Fits(r)
    ensures var m := Encode(r, tag);
            && m[0] == OpOf(r) && m[1..5] == Le(tag, 4) && U64At(m, 5) == SectorOf(r)
            && (r.Write? ==> m[HEADER..] == r.data)
  {
    var m := Encode(r, tag);
    assert m[5..13] == Le(SectorOf(r), 8);
    ReadU64(m, 5, SectorOf(r));
    assert m[1..5] == Le(tag, 4);
  }

  /** The driver understands every request as it was meant, and echoes its tag. */
  lemma ServeUnderstands(r: Request, tag: nat, disk: J.Disk, o: Outcome)
    requires tag < U32 && Fits(r)
    ensures Serve(Encode(r, tag), disk, o) == (Some(Answer(r, tag, disk, o)), Effect(r, disk, o))
    ensures ReplyTag(Answer(r, tag, disk, o)) == tag
  {
    hide Encode, Le;
    EncodeParts(r, tag);
    if r.Write? { assert Padded(r.data, SECTOR_SIZE) == r.data; }
    var a := Answer(r, tag, disk, o);
    assert |a| >= REPLY_HEADER && a[1..5] == Le(tag, 4);
    ReadU32(a, 1, tag);
  }

  // ---- the system -----------------------------------------------------------------------------

  /** Where a thread is in `round_trip`. `at` and `sentAs` are the position of its request among all requests sent. */
  datatype Phase =
    | Idle
    | Drawn(draw: nat, req: Request)                 // has a tag, and spins on the flag
    | Holding(draw: nat, req: Request)               // has set the flag
    | Waiting(draw: nat, req: Request, at: nat)      // has sent, and polls the reply channel
    | Returned(draw: nat, req: Request, sentAs: Option<nat>, reply: Result<seq<byte>>)

  datatype Sent = Sent(draw: nat, req: Request)

  /** The record, and below it what has happened so far: tags drawn, requests sent, how each was served, replies taken. */
  datatype State = State(
    attached: bool, nextTag: nat, inFlight: bool, requests: seq<seq<byte>>, replies: seq<seq<byte>>,
    threads: seq<Phase>, disk: J.Disk, stopped: bool, stale: nat,
    initial: J.Disk, draws: nat, sent: seq<Sent>, log: seq<Outcome>, received: nat)

  datatype Step =
    | Attach
    | Draw(t: nat, req: Request)      // `next_tag`
    | Acquire(t: nat)                 // the compare-and-exchange that succeeds
    | Refuse(t: nat)                  // no driver attached
    | Send(t: nat)
    | Poll(t: nat)                    // a reply is there: take it
    | GiveUp(t: nat)                  // the deadline has passed
    | Release(t: nat)                 // the guard is dropped
    | DriverServes(o: Outcome)

  /** The tag the `draw`-th call of `next_tag` returns. */
  function Tag(draw: nat): (tag: nat)
    ensures tag < U32
  {
    (draw + 1) % U32
  }

  predicate Holds(p: Phase) { p.Holding? || p.Waiting? || p.Returned? }

  predicate Start(s: State) {
    && !s.attached && s.nextTag == 1 && !s.inFlight && s.requests == [] && s.replies == [] && !s.stopped && s.stale == 0
    && (forall t | 0 <= t < |s.threads| :: s.threads[t] == Idle)
    && s.initial == s.disk && s.draws == 0 && s.sent == [] && s.log == [] && s.received == 0
  }

  predicate Enabled(s: State, step: Step) {
    match step
    case Attach => true
    case Draw(t, req) => t < |s.threads| && s.threads[t].Idle? && Fits(req)
    case Acquire(t) => t < |s.threads| && s.threads[t].Drawn? && !s.inFlight
    case Refuse(t) => t < |s.threads| && s.threads[t].Holding? && !s.attached
    case Send(t) => t < |s.threads| && s.threads[t].Holding? && s.attached
    case Poll(t) => t < |s.threads| && s.threads[t].Waiting? && s.replies != []
    case GiveUp(t) => t < |s.threads| && s.threads[t].Waiting?
    case Release(t) => t < |s.threads| && s.threads[t].Returned?
    case DriverServes(_) => s.requests != [] && !s.stopped
  }

  /** What `round_trip` makes of a reply with the right tag. */
  function Accept(m: seq<byte>): Result<seq<byte>> {
    if m != [] && m[0] == 0 then Ok(m) else Err("driver reported an error")
  }

  function Apply(s: State, step: Step): State
    requires Enabled(s, step)
  {
    match step
    case Attach => s.(attached := true)
    case Draw(t, req) =>
      s.(nextTag := (s.nextTag + 1) % U32, draws := s.draws + 1, threads := s.threads[t := Drawn(s.draws, req)])
    case Acquire(t) => s.(inFlight := true, threads := s.threads[t := Holding(s.threads[t].draw, s.threads[t].req)])
    case Refuse(t) =>
      s.(threads := s.threads[t := Returned(s.threads[t].draw, s.threads[t].req, None, Err("no block driver attached"))])
    case Send(t) =>
      var p := s.threads[t];
      s.(requests := s.requests + [Encode(p.req, Tag(p.draw))], sent := s.sent + [Sent(p.draw, p.req)],
         threads := s.threads[t := Waiting(p.draw, p.req, |s.sent|)])
    case Poll(t) =>
      var p, m := s.threads[t], s.replies[0];
      var s' := s.(replies := s.replies[1..], received := s.received + 1);
      if ReplyTag(m) != Tag(p.draw) then s'.(stale := s.stale + 1)
      else s'.(threads := s.threads[t := Returned(p.draw, p.req, Some(p.at), Accept(m))])
    case GiveUp(t) =>
      var p := s.threads[t];
      s.(threads := s.threads[t := Returned(p.draw, p.req, Some(p.at), Err("block driver did not answer"))])
    case Release(t) => s.(inFlight := false, threads := s.threads[t := Idle])
    case DriverServes(o) =>
      var (reply, disk) := Serve(s.requests[0], s.disk, o);
      s.(requests := s.requests[1..], disk := disk, log := s.log + [o],
         replies := s.replies + (if reply.Some? then [reply.value] else []),
         stopped := s.requests[0] != [] && s.requests[0][0] == OP_SHUTDOWN)
  }

  // ---- what the driver has done ---------------------------------------------------------------------

  /** The disk after the first `k` requests, in the order they were sent. */
  function DiskAfter(initial: J.Disk, sent: seq<Sent>, log: seq<Outcome>, k: nat): (d: J.Disk)
    requires k <= |log| <= |sent|
    ensures |d| == |initial|
  {
    if k == 0 then initial else Effect(sent[k - 1].req, DiskAfter(initial, sent, log, k - 1), log[k - 1])
  }

  /** The driver's answer to the `k`-th request. */
  function ReplyTo(initial: J.Disk, sent: seq<Sent>, log: seq<Outcome>, k: nat): seq<byte>
    requires k < |log| <= |sent|
  {
    Answer(sent[k].req, Tag(sent[k].draw), DiskAfter(initial, sent, log, k), log[k])
  }

  lemma {:induction false} DiskFrame(d: J.Disk, sent: seq<Sent>, log: seq<Outcome>, sent': seq<Sent>, log': seq<Outcome>, k: nat)
    requires k <= |log| <= |sent| && |log'| <= |sent'| && sent <= sent' && log <= log'
    ensures DiskAfter(d, sent, log, k) == DiskAfter(d, sent', log', k)
  {
    if k > 0 { DiskFrame(d, sent, log, sent', log', k - 1); }
  }

  lemma ReplyFrame(d: J.Disk, sent: seq<Sent>, log: seq<Outcome>, sent': seq<Sent>, log': seq<Outcome>, k: nat)
    requires k < |log| <= |sent| && |log'| <= |sent'| && sent <= sent' && log <= log'
    ensures ReplyTo(d, sent, log, k) == ReplyTo(d, sent', log', k)
  {
    DiskFrame(d, sent, log, sent', log', k);
  }

  // ---- the invariant ------------------------------------------------------------------------------------

  predicate Bounds(s: State) { s.received <= |s.log| <= |s.sent| }

  /** The request channel holds what has been sent and not served, the reply channel what has been answered and not taken. */
  predicate Queues(s: State)
    requires Bounds(s)
  {
    && s.disk == DiskAfter(s.initial, s.sent, s.log, |s.log|)
    && |s.requests| == |s.sent| - |s.log| && |s.replies| == |s.log| - s.received
    && (forall j | 0 <= j < |s.requests| :: s.requests[j] == Encode(s.sent[|s.log| + j].req, Tag(s.sent[|s.log| + j].draw)))
    && (forall j | 0 <= j < |s.replies| :: s.replies[j] == ReplyTo(s.initial, s.sent, s.log, s.received + j))
  }

  /** Every draw is used for one request, by one thread. */
  predicate Names(s: State) {
    && s.nextTag == Tag(s.draws)
    && (forall i | 0 <= i < |s.sent| :: s.sent[i].draw < s.draws && Fits(s.sent[i].req))
    && (forall i, j | 0 <= i < j < |s.sent| :: s.sent[i].draw != s.sent[j].draw)
    && (forall t | 0 <= t < |s.threads| && !s.threads[t].Idle? :: s.threads[t].draw < s.draws && Fits(s.threads[t].req))
    && (forall t, u | 0 <= t < u < |s.threads| && !s.threads[t].Idle? && !s.threads[u].Idle? ::
          s.threads[t].draw != s.threads[u].draw)
    && (forall t, i | 0 <= t < |s.threads| && 0 <= i < |s.sent| && (s.threads[t].Drawn? || s.threads[t].Holding?) ::
          s.threads[t].draw != s.sent[i].draw)
    && (forall t | 0 <= t < |s.threads| && Located(s.threads[t]) :: AtSent(s, s.threads[t]))
  }

  predicate Located(p: Phase) { p.Waiting? || (p.Returned? && p.sentAs.Some?) }

  function Position(p: Phase): nat
    requires Located(p)
  {
    if p.Waiting? then p.at else p.sentAs.value
  }

  predicate AtSent(s: State, p: Phase)
    requires Located(p)
  {
    Position(p) < |s.sent| && s.sent[Position(p)] == Sent(p.draw, p.req)
  }

  /** One request is outstanding at a time. */
  predicate Exclusive(s: State) {
    && (forall t | 0 <= t < |s.threads| && Holds(s.threads[t]) :: s.inFlight)
    && (forall t, u | 0 <= t < u < |s.threads| :: !(Holds(s.threads[t]) && Holds(s.threads[u])))
  }

  /** A thread that waits has not lost its reply; one that has succeeded holds the answer to its own request. */
  predicate Own(s: State, p: Phase)
    requires Bounds(s)
  {
    && (p.Waiting? ==> s.received <= p.at)
    && (p.Returned? && p.reply.Ok? ==>
          && p.sentAs.Some? && p.sentAs.value < |s.log|
          && p.reply.value == ReplyTo(s.initial, s.sent, s.log, p.sentAs.value)
          && p.reply.value != [] && p.reply.value[0] == 0)
  }

  predicate AllOwn(s: State)
    requires Bounds(s)
  {
    forall t | 0 <= t < |s.threads| :: Own(s, s.threads[t])
  }

  /** Tags are 32 bits wide: the 2^32 first draws have different ones. */
  predicate Inv(s: State) {
    Bounds(s) && Queues(s) && Names(s) && Exclusive(s) && (s.draws <= U32 ==> AllOwn(s))
  }

  lemma TagsDiffer(a: nat, b: nat)
    requires a < U32 && b < U32 && Tag(a) == Tag(b)
    ensures a == b
  {
  }

  lemma StartInv(s: State)
    requires Start(s)
    ensures Inv(s)
  {
  }

  /** What has been answered stays answered the same way. */
  lemma OwnFrame(s: State, s': State, p: Phase)
    requires Bounds(s) && Bounds(s') && Own(s, p) && s.sent <= s'.sent && s.log <= s'.log && s'.initial == s.initial
    requires s'.received == s.received
    ensures Own(s', p)
  {
    hide ReplyTo;
    if p.Returned? && p.reply.Ok? { ReplyFrame(s.initial, s.sent, s.log, s'.sent, s'.log, p.sentAs.value); }
  }

  lemma SendInv(s: State, t: nat)
    requires Inv(s) && Enabled(s, Send(t))
    ensures Inv(Apply(s, Send(t)))
  {
    hide ReplyTo, DiskAfter, Encode, Tag;
    var s' := Apply(s, Send(t));
    DiskFrame(s.initial, s.sent, s.log, s'.sent, s'.log, |s.log|);
    forall j | 0 <= j < |s'.replies| ensures s'.replies[j] == ReplyTo(s'.initial, s'.sent, s'.log, s'.received + j) {
      ReplyFrame(s.initial, s.sent, s.log, s'.sent, s'.log, s.received + j);
    }
    if s'.draws <= U32 {
      forall u | 0 <= u < |s'.threads| ensures Own(s', s'.threads[u]) {
        if u != t { OwnFrame(s, s', s.threads[u]); }
      }
    }
  }

  lemma ServeInv(s: State, o: Outcome)
    requires Inv(s) && Enabled(s, DriverServes(o))
    ensures Inv(Apply(s, DriverServes(o)))
  {
    hide ReplyTo, Encode, Tag, Serve, Answer, Effect;
    var s', k := Apply(s, DriverServes(o)), |s.log|;
    ServeUnderstands(s.sent[k].req, Tag(s.sent[k].draw), s.disk, o);
    DiskFrame(s.initial, s.sent, s.log, s'.sent, s'.log, k);
    ServedReply(s, o);
    forall j | 0 <= j < |s'.replies| ensures s'.replies[j] == ReplyTo(s'.initial, s'.sent, s'.log, s'.received + j) {
      if s.received + j < k { ReplyFrame(s.initial, s.sent, s.log, s'.sent, s'.log, s.received + j); }
    }
    if s'.draws <= U32 {
      forall u | 0 <= u < |s'.threads| ensures Own(s', s'.threads[u]) { OwnFrame(s, s', s.threads[u]); }
    }
  }

  lemma ServedReply(s: State, o: Outcome)
    requires Bounds(s) && |s.log| < |s.sent| && s.disk == DiskAfter(s.initial, s.sent, s.log, |s.log|)
    ensures ReplyTo(s.initial, s.sent, s.log + [o], |s.log|) ==
              Answer(s.sent[|s.log|].req, Tag(s.sent[|s.log|].draw), s.disk, o)
  {
    DiskFrame(s.initial, s.sent, s.log, s.sent, s.log + [o], |s.log|);
  }

  lemma ReplyToTag(s: State, k: nat)
    requires Bounds(s) && k < |s.log| && Fits(s.sent[k].req)
    ensures ReplyTag(ReplyTo(s.initial, s.sent, s.log, k)) == Tag(s.sent[k].draw)
  {
    hide Answer, Serve, Effect;
    ServeUnderstands(s.sent[k].req, Tag(s.sent[k].draw), DiskAfter(s.initial, s.sent, s.log, k), s.log[k]);
  }

  /** The next reply has the tag thread `t` waits for exactly when it answers thread `t`'s request. */
  lemma TagTellsOwn(s: State, t: nat)
    requires Inv(s) && s.draws <= U32 && Enabled(s, Poll(t))
    ensures ReplyTag(s.replies[0]) == Tag(s.threads[t].draw) <==> s.received == s.threads[t].at
  {
    hide ReplyTo, DiskAfter, Encode, Tag, ReplyTag;
    var p, k := s.threads[t], s.received;
    assert AtSent(s, p);
    assert s.replies[0] == ReplyTo(s.initial, s.sent, s.log, k + 0);
    ReplyToTag(s, k);
    if Tag(s.sent[k].draw) == Tag(p.draw) {
      TagsDiffer(s.sent[k].draw, p.draw);
      assert k < p.at || p.at < k || k == p.at;
    }
  }

  lemma PollInv(s: State, t: nat)
    requires Inv(s) && Enabled(s, Poll(t))
    ensures Inv(Apply(s, Poll(t)))
  {
    hide ReplyTo, DiskAfter, Encode, Tag, ReplyTag, Names;
    var s', p := Apply(s, Poll(t)), s.threads[t];
    MovesNames(s, s', t, s'.threads[t]);
    LocalExclusive(s, Poll(t));
    assert s'.threads == s.threads[t := s'.threads[t]];
    forall j | 0 <= j < |s'.replies| ensures s'.replies[j] == ReplyTo(s'.initial, s'.sent, s'.log, s'.received + j) {
      assert s.replies[j + 1] == ReplyTo(s.initial, s.sent, s.log, s.received + (j + 1));
    }
    if s.draws <= U32 {
      TagTellsOwn(s, t);
      assert s.replies[0] == ReplyTo(s.initial, s.sent, s.log, s.received + 0);
      forall u | 0 <= u < |s'.threads| ensures Own(s', s'.threads[u]) {
        assert Own(s, s.threads[u]);
        if u != t { assert u < t || t < u; }
      }
    }
  }

  /** Only thread `t` moves, to a phase that still goes with its request. */
  ghost predicate Moves(s: State, s': State, t: nat, p: Phase) {
    && t < |s.threads| && s'.threads == s.threads[t := p] && s'.sent == s.sent && s'.draws == s.draws && s'.nextTag == s.nextTag
    && (p.Idle? || (!s.threads[t].Idle? && p.draw == s.threads[t].draw && p.req == s.threads[t].req))
    && (p.Drawn? || p.Holding? ==> s.threads[t].Drawn? || s.threads[t].Holding?)
    && (Located(p) ==> Located(s.threads[t]) && Position(p) == Position(s.threads[t]))
  }

  lemma MovesNames(s: State, s': State, t: nat, p: Phase)
    requires Names(s) && Moves(s, s', t, p)
    ensures Names(s')
  {
    hide Tag;
    forall u | 0 <= u < |s'.threads| && Located(s'.threads[u]) ensures AtSent(s', s'.threads[u]) {
      assert AtSent(s, s.threads[u]);
    }
  }

  lemma DrawNames(s: State, t: nat, req: Request)
    requires Names(s) && Enabled(s, Draw(t, req))
    ensures Names(Apply(s, Draw(t, req)))
  {
    var s' := Apply(s, Draw(t, req));
    forall u | 0 <= u < |s'.threads| && Located(s'.threads[u]) ensures AtSent(s', s'.threads[u]) {
      assert AtSent(s, s.threads[u]);
    }
  }

  lemma LocalNames(s: State, step: Step)
    requires Names(s) && Enabled(s, step) && !step.Send? && !step.Poll? && !step.DriverServes?
    ensures Names(Apply(s, step))
  {
    hide Names;
    var s' := Apply(s, step);
    if step.Attach? {
      AttachNames(s, s');
    } else if step.Draw? {
      DrawNames(s, step.t, step.req);
    } else {
      MovesNames(s, s', step.t, s'.threads[step.t]);
    }
  }

  lemma AttachNames(s: State, s': State)
    requires Names(s) && s' == s.(attached := true)
    ensures Names(s')
  {
    forall u | 0 <= u < |s'.threads| && Located(s'.threads[u]) ensures AtSent(s', s'.threads[u]) {
      assert AtSent(s, s.threads[u]);
    }
  }

  lemma LocalExclusive(s: State, step: Step)
    requires Exclusive(s) && Enabled(s, step)
    ensures Exclusive(Apply(s, step))
  {
    hide Serve, Encode, Tag, ReplyTag;
    if step.Release? {
      forall u | 0 <= u < |s.threads| && u != step.t ensures !Holds(s.threads[u]) { assert u < step.t || step.t < u; }
    }
  }

  lemma LocalInv(s: State, step: Step)
    requires Inv(s) && Enabled(s, step) && !step.Send? && !step.Poll? && !step.DriverServes?
    ensures Inv(Apply(s, step))
  {
    hide ReplyTo, DiskAfter, Encode, Names, Exclusive;
    var s' := Apply(s, step);
    LocalNames(s, step);
    LocalExclusive(s, step);
    if s'.draws <= U32 {
      forall u | 0 <= u < |s'.threads| ensures Own(s', s'.threads[u]) { assert Own(s, s.threads[u]); }
    }
  }

  lemma StepInv(s: State, step: Step)
    requires Inv(s) && Enabled(s, step)
    ensures Inv(Apply(s, step))
  {
    match step
    case Send(t) => SendInv(s, t);
    case Poll(t) => PollInv(s, t);
    case DriverServes(o) => ServeInv(s, o);
    case _ => LocalInv(s, step);
  }

  // ---- every run ------------------------------------------------------------------------------------------

  ghost predicate Runs(s: State, steps: seq<Step>)
    decreases |steps|, 0
  {
    steps == [] || (Runs(s, steps[..|steps| - 1]) && Enabled(After(s, steps[..|steps| - 1]), steps[|steps| - 1]))
  }

  ghost function After(s: State, steps: seq<Step>): State
    requires Runs(s, steps)
    decreases |steps|, 1
  {
    if steps == [] then s else Apply(After(s, steps[..|steps| - 1]), steps[|steps| - 1])
  }

  lemma {:induction false} RunInv(s: State, steps: seq<Step>)
    requires Start(s) && Runs(s, steps)
    ensures Inv(After(s, steps)) && After(s, steps).initial == s.disk
    decreases |steps|
  {
    hide Inv, Start;
    if steps == [] {
      StartInv(s);
      assert s.initial == s.disk by { StartDisk(s); }
    } else {
      RunInv(s, steps[..|steps| - 1]);
      StepInv(After(s, steps[..|steps| - 1]), steps[|steps| - 1]);
    }
  }

  lemma StartDisk(s: State)
    requires Start(s)
    ensures s.initial == s.disk
  {
  }

  /** What `read_sector` hands its caller. */
  function ReadResult(reply: seq<byte>): Result<seq<byte>> {
    if |reply| < REPLY_HEADER + SECTOR_SIZE then Err("short read reply")
    else Ok(reply[REPLY_HEADER..REPLY_HEADER + SECTOR_SIZE])
  }

  /** The last request before the `k`-th that changed the sector is the `i`-th. */
  predicate LastWrite(sent: seq<Sent>, log: seq<Outcome>, k: nat, sector: nat, i: nat)
    requires k <= |log| <= |sent|
  {
    && i < k && Changes(sent[i].req, log[i], sector)
    && forall j | i < j < k :: !Changes(sent[j].req, log[j], sector)
  }

  predicate Changes(r: Request, o: Outcome, sector: nat) { r.Write? && r.sector == sector && (o.ok || o.landed) }

  lemma {:induction false} DiskHoldsLastWrite(d: J.Disk, sent: seq<Sent>, log: seq<Outcome>, k: nat, sector: nat)
    requires k <= |log| <= |sent| && sector < |d|
    ensures forall i: nat | LastWrite(sent, log, k, sector, i) :: DiskAfter(d, sent, log, k)[sector] == sent[i].req.data
    ensures (forall i | 0 <= i < k :: !Changes(sent[i].req, log[i], sector)) ==> DiskAfter(d, sent, log, k)[sector] == d[sector]
  {
    if k > 0 {
      DiskHoldsLastWrite(d, sent, log, k - 1, sector);
      forall i: nat | LastWrite(sent, log, k, sector, i) ensures DiskAfter(d, sent, log, k)[sector] == sent[i].req.data {
        if i < k - 1 { assert LastWrite(sent, log, k - 1, sector, i); }
      }
    }
  }

  /**
   A successful read is the answer to that very read. In every run with at most 2^32 requests, whatever timed out before
   and however late its reply, the bytes handed to the caller are what the last write sent before this read left in the
   sector, or what was there at the start if there was none.
   */
  lemma ReadReflectsLastWrite(s: State, steps: seq<Step>, t: nat)
    requires Start(s) && Runs(s, steps) && After(s, steps).draws <= U32
    requires var s' := After(s, steps);
             t < |s'.threads| && s'.threads[t].Returned? && s'.threads[t].req.Read? && s'.threads[t].reply.Ok?
    ensures var s' := After(s, steps);
            var p := s'.threads[t];
            && p.sentAs.Some? && p.sentAs.value < |s'.log| <= |s'.sent| && s'.sent[p.sentAs.value] == Sent(p.draw, p.req)
            && p.req.sector < |s.disk| && ReadResult(p.reply.value).Ok?
            && (forall i: nat | LastWrite(s'.sent, s'.log, p.sentAs.value, p.req.sector, i) ::
                  ReadResult(p.reply.value).value == s'.sent[i].req.data)
            && ((forall i | 0 <= i < p.sentAs.value :: !Changes(s'.sent[i].req, s'.log[i], p.req.sector)) ==>
                  ReadResult(p.reply.value).value == s.disk[p.req.sector])
  {
    RunInv(s, steps);
    var s' := After(s, steps);
    var p := s'.threads[t];
    var k := p.sentAs.value;
    assert Own(s', p) && AtSent(s', p);
    var disk := DiskAfter(s'.initial, s'.sent, s'.log, k);
    ReadAnswer(p.req.sector, Tag(p.draw), disk, s'.log[k]);
    DiskHoldsLastWrite(s'.initial, s'.sent, s'.log, k, p.req.sector);
  }

  lemma ReadAnswer(sector: nat, tag: nat, disk: J.Disk, o: Outcome)
    requires Answer(Read(sector), tag, disk, o)[0] == 0
    ensures sector < |disk| && ReadResult(Answer(Read(sector), tag, disk, o)) == Ok(disk[sector])
  {
    var a := Answer(Read(sector), tag, disk, o);
    assert a[REPLY_HEADER..REPLY_HEADER + SECTOR_SIZE] == disk[sector];
  }

  /** A write reported as done is on the disk the driver has from then on: the device took it. */
  lemma WriteIsDone(s: State, steps: seq<Step>, t: nat)
    requires Start(s) && Runs(s, steps) && After(s, steps).draws <= U32
    requires var s' := After(s, steps);
             t < |s'.threads| && s'.threads[t].Returned? && s'.threads[t].req.Write? && s'.threads[t].reply.Ok?
    ensures var s' := After(s, steps);
            var p := s'.threads[t];
            && p.sentAs.Some? && p.sentAs.value < |s'.log| <= |s'.sent| && s'.sent[p.sentAs.value] == Sent(p.draw, p.req)
            && s'.log[p.sentAs.value].ok && p.req.sector < |s.disk|
            && DiskAfter(s.disk, s'.sent, s'.log, p.sentAs.value + 1)[p.req.sector] == p.req.data
  {
    hide Runs, After, Queues, Encode;
    RunInv(s, steps);
    var s' := After(s, steps);
    assert Own(s', s'.threads[t]) && AtSent(s', s'.threads[t]);
  }

  /**
   Only abandoned replies are dropped. A reply thrown away as stale answers a request nobody waits for any more; and a
   thread that waits still has its request in one channel or its reply in the other.
   */
  lemma StaleIsAbandoned(s: State, steps: seq<Step>, t: nat, u: nat)
    requires Start(s) && Runs(s, steps) && After(s, steps).draws <= U32
    requires var s' := After(s, steps); Enabled(s', Poll(t)) && u < |s'.threads| && s'.threads[u].Waiting?
    ensures var s' := After(s, steps);
            && (Apply(s', Poll(t)).stale == s'.stale + 1 ==> s'.threads[u].at != s'.received)
            && s'.received <= s'.threads[u].at < |s'.sent|
  {
    hide ReplyTo, DiskAfter, Encode, Tag, ReplyTag;
    RunInv(s, steps);
    var s' := After(s, steps);
    assert Own(s', s'.threads[u]) && AtSent(s', s'.threads[u]);
    TagTellsOwn(s', t);
    assert t < u || u < t || t == u;
  }

  // ---- one request too many -----------------------------------------------------------------------------------

  /** Ask for sector 0 and give up before the driver has looked. */
  const ABANDON: seq<Step> := [Draw(0, Read(0)), Acquire(0), Send(0), GiveUp(0), Release(0)]

  function Abandoned(n: nat): seq<Step> {
    if n == 0 then [Attach] else Abandoned(n - 1) + ABANDON
  }

  /** The lone client with `n` requests abandoned and none served. */
  predicate Backlog(s: State, s': State, n: nat) {
    && s'.attached && !s'.inFlight && !s'.stopped && s'.threads == [Idle] && s'.disk == s.disk && s'.replies == []
    && s'.draws == n && |s'.requests| == |s'.sent| == n && s'.log == []
    && (n > 0 ==> s'.requests[0] == Encode(Read(0), Tag(0)))
  }

  lemma RunsSnoc(s: State, steps: seq<Step>, step: Step)
    requires Runs(s, steps) && Enabled(After(s, steps), step)
    ensures Runs(s, steps + [step]) && After(s, steps + [step]) == Apply(After(s, steps), step)
  {
    assert (steps + [step])[..|steps|] == steps;
  }

  lemma {:induction false} BacklogGrows(s: State, n: nat)
    requires Start(s) && s.threads == [Idle]
    ensures Runs(s, Abandoned(n)) && Backlog(s, After(s, Abandoned(n)), n)
  {
    if n == 0 {
      RunsSnoc(s, [], Attach);
      assert [] + [Attach] == Abandoned(0);
    } else {
      BacklogGrows(s, n - 1);
      AbandonOne(s, Abandoned(n - 1), n - 1);
    }
  }

  lemma AbandonOne(s: State, steps: seq<Step>, n: nat)
    requires Runs(s, steps) && Backlog(s, After(s, steps), n)
    ensures Runs(s, steps + ABANDON) && Backlog(s, After(s, steps + ABANDON), n + 1)
  {
    hide Runs, After, Encode, Tag;
    var a := After(s, steps);
    RunsSnoc(s, steps, ABANDON[0]);
    var steps1 := steps + [ABANDON[0]];
    RunsSnoc(s, steps1, ABANDON[1]);
    var steps2 := steps1 + [ABANDON[1]];
    RunsSnoc(s, steps2, ABANDON[2]);
    var steps3 := steps2 + [ABANDON[2]];
    RunsSnoc(s, steps3, ABANDON[3]);
    var steps4 := steps3 + [ABANDON[3]];
    RunsSnoc(s, steps4, ABANDON[4]);
    assert steps4 + [ABANDON[4]] == steps + ABANDON;
  }

  /** The steps after the backlog: ask for sector 1, and have the driver answer the oldest request. */
  const ASK: seq<Step> := [Draw(0, Read(1)), Acquire(0), Send(0), DriverServes(Outcome(true, true)), Poll(0)]

  ghost predicate WrongAnswer(s: State, s': State) {
    && s'.draws == U32 + 1 && |s'.threads| == 1 && |s.disk| >= 2
    && var p := s'.threads[0];
       p.Returned? && p.req == Read(1) && p.reply.Ok? && ReadResult(p.reply.value) == Ok(s.disk[0])
  }

  /**
   What taking a reply comes to, in every run with at most 2^32 requests. If it answers the thread's own request, the thread
   returns at once, and with success exactly when the driver had no reason to refuse: the device took the request and the
   sector exists. If it answers another, it is counted as stale, and nothing else changes.
   */
  lemma PollIs(s: State, steps: seq<Step>, t: nat)
    requires Start(s) && Runs(s, steps) && After(s, steps).draws <= U32 && Enabled(After(s, steps), Poll(t))
    ensures var s1 := After(s, steps);
            var s2, p := Apply(s1, Poll(t)), s1.threads[t];
            && s2.received == s1.received + 1 && s2.replies == s1.replies[1..] && s1.received < |s1.log|
            && (s1.received == p.at ==>
                  && s2.threads[t].Returned? && s2.threads[t].sentAs == Some(p.at) && s2.stale == s1.stale
                  && var o := s1.log[p.at];
                  && (s2.threads[t].reply.Ok? <==> match p.req
                       case Read(sector) => o.ok && sector < |s.disk|
                       case Write(sector, _) => o.ok && sector < |s.disk|
                       case _ => true)
                  && (s2.threads[t].reply.Err? ==> s2.threads[t].reply.error == "driver reported an error"))
            && (s1.received != p.at ==> s2.threads == s1.threads && s2.stale == s1.stale + 1)
  {
    hide Runs, After, DiskAfter, Encode, Tag, ReplyTag, Names, Start;
    RunInv(s, steps);
    var s1 := After(s, steps);
    TagTellsOwn(s1, t);
    assert s1.replies[0] == ReplyTo(s1.initial, s1.sent, s1.log, s1.received + 0);
    SentAtPosition(s1, t);
  }

  lemma SentAtPosition(s: State, t: nat)
    requires Inv(s) && t < |s.threads| && s.threads[t].Waiting?
    ensures AtSent(s, s.threads[t])
  {
    hide Encode, Tag;
  }

  lemma AskAfterBacklog(s: State, steps: seq<Step>, n: nat)
    requires Runs(s, steps) && Backlog(s, After(s, steps), n) && n == U32 && |s.disk| >= 2
    ensures Runs(s, steps + ASK) && WrongAnswer(s, After(s, steps + ASK))
  {
    hide Runs, After, Encode, Answer, Serve, ReadResult, ReplyTag, Tag;
    RunsSnoc(s, steps, ASK[0]);
    var steps1 := steps + [ASK[0]];
    RunsSnoc(s, steps1, ASK[1]);
    var steps2 := steps1 + [ASK[1]];
    RunsSnoc(s, steps2, ASK[2]);
    var steps3 := steps2 + [ASK[2]];
    RunsSnoc(s, steps3, ASK[3]);
    var steps4 := steps3 + [ASK[3]];
    ServeUnderstands(Read(0), Tag(0), s.disk, ASK[3].o);
    FirstAnswer(s.disk, ASK[3].o);
    assert After(s, steps4).replies == [Answer(Read(0), Tag(0), s.disk, ASK[3].o)];
    TagWraps(n);
    RunsSnoc(s, steps4, ASK[4]);
    assert steps4 + [ASK[4]] == steps + ASK;
  }

  lemma TagWraps(n: nat)
    requires n == U32
    ensures Tag(n) == Tag(0)
  {
  }

  /**
   The bound is exact. One request past 2^32 the tag of the first comes round again: with that first request still
   unanswered, the reader of sector 1 is handed sector 0.
   */
  lemma TagComesRound(s: State, n: nat)
    requires Start(s) && s.threads == [Idle] && |s.disk| >= 2 && n == U32
    ensures Runs(s, Abandoned(n) + ASK) && WrongAnswer(s, After(s, Abandoned(n) + ASK))
  {
    hide Runs, After, Abandoned, Backlog;
    BacklogGrows(s, n);
    AskAfterBacklog(s, Abandoned(n), n);
  }

  lemma FirstAnswer(disk: J.Disk, o: Outcome)
    requires |disk| >= 2 && o.ok
    ensures var a := Answer(Read(0), Tag(0), disk, o); a != [] && a[0] == 0 && ReadResult(a) == Ok(disk[0])
  {
    ReadAnswer(0, Tag(0), disk, o);
  }

  // ---- the polling loop ------------------------------------------------------------------------------------------

  /** How many of the first `n` polls brought a reply with another tag. */
  function StaleIn(polls: seq<Option<seq<byte>>>, tag: nat, n: nat): nat
    requires n <= |polls|
  {
    if n == 0 then 0
    else StaleIn(polls, tag, n - 1) + if polls[n - 1].Some? && ReplyTag(polls[n - 1].value) != tag then 1 else 0
  }

  predicate Matches(poll: Option<seq<byte>>, tag: nat) { poll.Some? && ReplyTag(poll.value) == tag }

  class Client {
    var attached: bool
    var nextTag: nat
    var inFlight: bool
    var stale: nat

    /** `next_tag`: the old value, and one more modulo 2^32. */
    method NextTag() returns (tag: nat)
      requires nextTag < U32
      modifies this`nextTag
      ensures tag == old(nextTag) && nextTag == (old(nextTag) + 1) % U32
    {
      tag := nextTag;
      nextTag := if nextTag + 1 == U32 then 0 else nextTag + 1;
    }

    /**
     Wait for the reply. `polls` is what the reply channel gives on each turn of the loop until the deadline: the first
     reply with the tag decides, the ones before it are counted and dropped, and without one the request has timed out.
     */
    method AwaitReply(polls: seq<Option<seq<byte>>>, tag: nat) returns (r: Result<seq<byte>>, n: nat)
      requires attached && inFlight
      modifies this`stale, this`inFlight
      ensures !inFlight && n <= |polls|
      ensures forall j | 0 <= j < n :: !Matches(polls[j], tag)
      ensures stale == old(stale) + StaleIn(polls, tag, n)
      ensures if n < |polls| then Matches(polls[n], tag) && r == Accept(polls[n].value)
              else r == Err("block driver did not answer")
    {
      n := 0;
      r := Err("block driver did not answer");
      while n < |polls|
        invariant n <= |polls| && r == Err("block driver did not answer")
        invariant forall j | 0 <= j < n :: !Matches(polls[j], tag)
        invariant stale == old(stale) + StaleIn(polls, tag, n)
      {
        if polls[n].Some? {
          var m := polls[n].value;
          if ReplyTag(m) == tag {
            r := if m != [] && m[0] == 0 then Ok(m) else Err("driver reported an error");
            break;
          }
          stale := stale + 1;
        }
        n := n + 1;
      }
      inFlight := false;
    }
  }
}
