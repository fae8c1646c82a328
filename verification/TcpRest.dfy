/** The two-session system left to itself: it always comes to rest, after a number of steps that can
    be read off its state, and if nothing has gone wrong by then every frame has arrived. */
module TcpRest {
  import opened Framing
  import opened TcpActors
  import opened TcpNetwork
  import opened TcpInvariants
  import opened TcpTheorems

  // ---------- A measure that every step of its own uses up ----------

  /** A byte still to be written counts 3, one in flight 2, one of a header being read 1. */
  function WritingWork(p: WritePhase): nat {
    3 * |Todo(p)| + if p.InLength? || p.InBody? then 1 else 0
  }

  function FrameWork(f: Frame): nat {
    3 * (HEADER_SIZE + |f|) + 2
  }

  function QueuedWork(queue: seq<Frame>): nat {
    if queue == [] then 0 else FrameWork(queue[0]) + QueuedWork(queue[1..])
  }

  function MailWork(mailbox: seq<SessionMsg>): nat {
    if mailbox == [] then 0
    else (if mailbox[0].Send? then FrameWork(mailbox[0].frame) + 1 else 1) + MailWork(mailbox[1..])
  }

  function ReadingWork(r: ReaderState): nat {
    (match r.phase
     case InHeader(got) => |got|
     case InPayload(_, _) => HEADER_SIZE - 2
     case Idle => if r.cell.mailbox == [] then 0 else if r.cell.mailbox[0].ReadFrame? then HEADER_SIZE - 1 else 1)
    + if r.open then 2 else 0
  }

  function Lifetime(alive: bool): nat {
    if alive then 2 else 0
  }

  function EndWork(e: Endpoint): nat {
    MailWork(e.session.cell.mailbox) + |e.session.events| + QueuedWork(e.writer.cell.mailbox)
    + WritingWork(e.writer.phase) + ReadingWork(e.reader)
    + Lifetime(e.session.cell.alive) + Lifetime(e.writer.cell.alive) + Lifetime(e.reader.cell.alive)
  }

  function ViewWork(v: View): nat {
    EndWork(v.me) + 2 * |v.inn.bytes| + 2 * |v.out.bytes|
  }

  function Work(s: Net): nat {
    EndWork(s.left) + EndWork(s.right) + 2 * |s.toLeft.bytes| + 2 * |s.toRight.bytes|
  }

  lemma {:induction false} MailWorkAppend(mailbox: seq<SessionMsg>, m: SessionMsg)
    ensures MailWork(mailbox + [m]) == MailWork(mailbox) + MailWork([m])
  {
    if mailbox == [] {
      assert mailbox + [m] == [m];
    } else {
      MailWorkAppend(mailbox[1..], m);
      assert (mailbox + [m])[1..] == mailbox[1..] + [m] && (mailbox + [m])[0] == mailbox[0];
    }
  }

  lemma {:induction false} QueuedWorkAppend(queue: seq<Frame>, f: Frame)
    ensures QueuedWork(queue + [f]) == QueuedWork(queue) + FrameWork(f)
  {
    if queue == [] {
      assert queue + [f] == [f];
    } else {
      QueuedWorkAppend(queue[1..], f);
      assert (queue + [f])[1..] == queue[1..] + [f] && (queue + [f])[0] == queue[0];
    }
  }

  lemma MessageUsesWork(e: Endpoint)
    requires e.session.cell.Ready()
    ensures EndWork(HandleMessage(e, true)) < EndWork(e)
  {
    if e.session.cell.mailbox[0].Send? {
      QueuedWorkAppend(e.writer.cell.mailbox, e.session.cell.mailbox[0].frame);
    }
  }

  lemma TakeUpUsesWork(e: Endpoint)
    requires e.writer.phase.Resting? && e.writer.cell.mailbox != []
    ensures EndWork(TakeUp(e)) < EndWork(e)
  {
  }

  lemma PushUsesWork(v: View, n: nat)
    requires v.me.writer.phase.InLength? || v.me.writer.phase.InBody?
    requires 0 < n <= |v.me.writer.phase.todo|
    ensures ViewWork(Push(v, n)) < ViewWork(v)
  {
  }

  lemma TakeChunkUsesWork(v: View, n: nat)
    requires 0 < n <= Need(v.me.reader.phase) && n <= |v.inn.bytes|
    ensures ViewWork(TakeChunk(v, n)) < ViewWork(v)
  {
  }

  lemma FinishReadUsesWork(e: Endpoint)
    requires e.reader.cell.alive && !e.reader.phase.Idle? && ReaderShape(e)
    requires e.reader.phase.InHeader? ==> |e.reader.phase.got| == HEADER_SIZE
    ensures EndWork(FinishRead(e)) < EndWork(e)
  {
    if e.reader.phase.InPayload? && e.session.cell.alive {
      MailWorkAppend(e.session.cell.mailbox, FrameReady(e.reader.phase.body));
    }
  }

  lemma EndOfStreamUsesWork(e: Endpoint)
    requires e.reader.cell.alive && Need(e.reader.phase) > 0 && ReaderShape(e)
    ensures EndWork(EndOfStream(e)) < EndWork(e)
  {
  }

  lemma BeginReadUsesWork(r: ReaderState)
    requires r.open && r.phase.Idle? && r.cell.mailbox != []
    ensures ReadingWork(BeginRead(r)) < ReadingWork(r)
    ensures BeginRead(r).cell.alive == r.cell.alive
  {
  }

  lemma EventUsesWork(e: Endpoint)
    requires e.session.events != []
    ensures EndWork(HandleEvent(e)) < EndWork(e)
  {
  }

  /** The end of an actor, and the notice of it. */
  lemma EndingUsesWork(v: View, notice: seq<SupervisionEvent>)
    requires |notice| <= 1
    ensures v.me.writer.cell.alive ==> ViewWork(EndWriter(v, notice)) < ViewWork(v)
    ensures v.me.reader.cell.alive ==> EndWork(EndReader(v.me, notice)) < EndWork(v.me)
    ensures v.me.session.cell.alive ==> EndWork(ExitSession(v.me)) < EndWork(v.me)
  {
  }

  lemma StepUsesWork(v: View, op: Op)
    requires Enabled(v, op) && Progress(op) && ReaderShape(v.me)
    ensures ViewWork(Apply(v, op)) < ViewWork(v)
  {
    match op
    case SessionMessage(_) => MessageUsesWork(v.me);
    case SessionEvent => EventUsesWork(v.me);
    case SessionExit => EndingUsesWork(v, []);
    case WriterTake => TakeUpUsesWork(v.me);
    case WriterPush(n) => PushUsesWork(v, n);
    case WriterFinish =>
    case WriterExit => EndingUsesWork(v, [ActorTerminated(Writer)]);
    case ReaderTake => BeginReadUsesWork(v.me.reader);
    case ReaderChunk(n) => TakeChunkUsesWork(v, n);
    case ReaderFinish => FinishReadUsesWork(v.me);
    case ReaderEof => EndOfStreamUsesWork(v.me);
    case ReaderExit => EndingUsesWork(v, [ActorTerminated(Reader)]);
    case Killed(_) => EndingUsesWork(v, []);
  }

  // ---------- The system left to itself ----------

  /** `longer` goes on from `run` by steps of the system's own only. */
  ghost predicate GoesOn(run: Run, longer: Run) {
    longer == run || (longer.Then? && GoesOn(run, longer.prior) && Progress(longer.op))
  }

  function Steps(run: Run): nat {
    if run.Start? then 0 else Steps(run.prior) + 1
  }

  ghost predicate AllQuiet(s: Net) {
    Quiet(At(s, Left)) && Quiet(At(s, Right))
  }

  lemma WorkSeen(s: Net, d: Side)
    ensures Work(s) == ViewWork(At(s, d)) + EndWork(At(s, Other(d)).me)
  {
  }

  lemma {:induction false} StepCounts(run: Run)
    requires run.Then? && Valid(run) && Progress(run.op)
    ensures Work(End(run)) < Work(End(run.prior))
  {
    WorkSeen(End(run.prior), run.side);
    WorkSeen(End(run), run.side);
    Invariants(run.prior, run.side);
    StepSeen(run);
    StepUsesWork(At(End(run.prior), run.side), run.op);
  }

  /** However it is interleaved, the system takes no more steps of its own than its work allows. */
  lemma {:induction false} BoundedProgress(run: Run, longer: Run)
    requires Valid(longer) && GoesOn(run, longer)
    ensures Valid(run)
    ensures Steps(longer) + Work(End(longer)) <= Steps(run) + Work(End(run))
  {
    if longer != run {
      BoundedProgress(run, longer.prior);
      StepCounts(longer);
    }
  }

  /** From every reachable state the system can be left to itself until both ends are at rest. */
  lemma {:induction false} ComesToRest(run: Run) returns (longer: Run)
    requires Valid(run)
    ensures Valid(longer) && GoesOn(run, longer) && AllQuiet(End(longer))
    decreases Work(End(run))
  {
    longer := run;
    if !AllQuiet(End(run)) {
      var side := if Quiet(At(End(run), Left)) then Right else Left;
      var op :| Progress(op) && Enabled(At(End(run), side), op);
      var next := Then(run, side, op);
      StepCounts(next);
      longer := ComesToRest(next);
      GoesOnFrom(run, next, longer);
    }
  }

  lemma {:induction false} GoesOnFrom(run: Run, next: Run, longer: Run)
    requires GoesOn(run, next) && GoesOn(next, longer)
    ensures GoesOn(run, longer)
  {
    if longer != next {
      GoesOnFrom(run, next, longer.prior);
    }
  }

  // ---------- Everything arrives ----------

  /** Nothing at this end has stopped, failed or been asked to stop, and its input is intact. */
  ghost predicate Healthy(v: View) {
    && AllAlive(v.me)
    && !v.me.session.cell.stopping && !v.me.writer.cell.stopping && !v.me.reader.cell.stopping
    && (forall evt | evt in v.me.session.events :: evt.ActorStarted?)
    && !v.inn.closed && !v.inn.cut
  }

  lemma HealthyKept(v: View, op: Op)
    requires Enabled(v, op) && Progress(op) && Healthy(v) && WriterShape(v.me) && Supervised(v.me) && !v.out.closed
    ensures Healthy(Apply(v, op))
    ensures Apply(v, op).out.closed == v.out.closed && Apply(v, op).out.cut == v.out.cut
    ensures Apply(v, op).me.log.accepted == v.me.log.accepted && Apply(v, op).me.log.lost == v.me.log.lost
  {
    if op.SessionEvent? {
      assert v.me.session.events[0] in v.me.session.events;
    }
  }

  predicate SameToSend(e: Endpoint, e': Endpoint) {
    e'.log.accepted == e.log.accepted && e'.log.lost == e.log.lost
  }

  lemma {:induction false} StaysHealthy(run: Run, longer: Run)
    requires Valid(longer) && GoesOn(run, longer)
    requires Healthy(At(End(run), Left)) && Healthy(At(End(run), Right))
    ensures Healthy(At(End(longer), Left)) && Healthy(At(End(longer), Right))
    ensures forall d: Side :: SameToSend(At(End(run), d).me, At(End(longer), d).me)
    ensures forall d: Side :: AlignedReads(run, d) <==> AlignedReads(longer, d)
    ensures forall d: Side :: AlignedLengths(run, d) <==> AlignedLengths(longer, d)
    ensures forall d: Side :: NoLengthFailure(run, d) <==> NoLengthFailure(longer, d)
  {
    if longer != run {
      var prior := longer.prior;
      StaysHealthy(run, prior);
      Invariants(prior, longer.side);
      StepSeen(longer);
      HealthyKept(At(End(prior), longer.side), longer.op);
      forall d: Side
        ensures Healthy(At(End(longer), d))
        ensures SameToSend(At(End(run), d).me, At(End(longer), d).me)
      {
        assert d == longer.side || d == Other(longer.side);
      }
    }
  }

  /** Liveness: if all actors are well and the system is left to itself, then wherever it comes to rest,
      every frame either end was given to send has been received at the other if and only if no read
      failed part-way through a frame before and no length failed to be written; and with every failed
      length write untouched, every frame not dropped has been, if and only if no read failed part-way. */
  lemma {:induction false} EverythingArrives(run: Run, longer: Run, d: Side)
    requires Valid(longer) && GoesOn(run, longer) && AllQuiet(End(longer))
    requires Healthy(At(End(run), Left)) && Healthy(At(End(run), Right))
    ensures var (received, from) := (At(End(longer), d).me.session.received, At(End(run), Other(d)).me);
            && (received == from.log.accepted <==> AlignedReads(run, d) && NoLengthFailure(run, Other(d)))
            && (AlignedLengths(run, Other(d)) ==> (received == Sendable(from) <==> AlignedReads(run, d)))
  {
    StaysHealthy(run, longer);
    DeliversAll(longer, d);
  }
}
