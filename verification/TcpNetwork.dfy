/** Two TCP sessions joined by a connection, as one system: six actors, their mailboxes and
    supervision queues, and the bytes in flight each way, interleaved arbitrarily. */
module TcpNetwork {
  import opened Framing
  import opened Runtime
  import opened TcpActors

  // ---------- State ----------

  /** Where the writer is inside its handler. `Unsent` is what a failed body write left behind. */
  datatype WritePhase =
    | Resting
    | InLength(todo: seq<Byte>, frame: Frame)
    | InBody(todo: seq<Byte>)
    | Unsent(todo: seq<Byte>)

  datatype WriterState = WriterState(cell: Cell<Frame>, phase: WritePhase)

  datatype SessionState = SessionState(cell: Cell<SessionMsg>, events: seq<SupervisionEvent>, received: seq<Frame>)

  /** How many bytes of a length header went out before its write failed. */
  type Part = k: nat | k < HEADER_SIZE

  /** What has happened at one end so far: frames the session accepted for sending, frames the writer
      took up, which of them (counting from 1) it dropped because their length could not be written,
      and how much of that had been, bytes it wrote, bytes the reader took, frames the reader handed on,
      and the bytes of a cut-off frame that the reader dropped at the end of the stream. */
  datatype Log = Log(accepted: seq<Frame>, begun: seq<Frame>, lost: map<nat, Part>, written: seq<Byte>,
                     consumed: seq<Byte>, forwarded: seq<Frame>, dropped: seq<Byte>)

  datatype Endpoint = Endpoint(session: SessionState, writer: WriterState, reader: ReaderState, log: Log)

  /** Bytes in flight one way. `cut` once bytes have been lost. */
  datatype Wire = Wire(bytes: seq<Byte>, closed: bool, cut: bool)

  /** All that one end's actors can see and change. */
  datatype View = View(me: Endpoint, inn: Wire, out: Wire)

  datatype Side = Left | Right

  datatype Net = Net(left: Endpoint, right: Endpoint, toLeft: Wire, toRight: Wire)

  function Other(d: Side): Side {
    if d.Left? then Right else Left
  }

  function At(s: Net, d: Side): View {
    if d.Left? then View(s.left, s.toLeft, s.toRight) else View(s.right, s.toRight, s.toLeft)
  }

  function Put(d: Side, v: View, s: Net): Net {
    if d.Left? then Net(v.me, s.right, v.inn, v.out) else Net(s.left, v.me, v.out, v.inn)
  }

  const NEW_ENDPOINT := Endpoint(
    SessionState(Spawned([]), [ActorStarted(Writer), ActorStarted(Reader)], []),
    WriterState(Spawned([]), Resting),
    ReaderState(Spawned([WaitForFrame]), true, Idle),
    Log([], [], map[], [], [], [], []))

  const NEW_WIRE := Wire([], false, false)

  const INIT := Net(NEW_ENDPOINT, NEW_ENDPOINT, NEW_WIRE, NEW_WIRE)

  // ---------- Steps ----------

  datatype Op =
    // from outside
    | ClientSend(frame: Frame)
    | AskStop
    | CutWire(kept: nat)
    // the session
    | SessionMessage(accepts: bool)
    | SessionEvent
    | SessionExit
    // the writer
    | WriterTake
    | WriterPush(count: nat)
    | WriterFinish
    | LengthWriteFails
    | BodyWriteFails
    | WriterCrash
    | WriterExit
    // the reader
    | ReaderTake
    | ReaderChunk(count: nat)
    | ReaderFinish
    | ReaderEof
    | ReaderIoError
    | ReaderExit
    // a kill taking effect
    | Killed(child: Child)

  /** Bytes the reader still wants before its current read is done. */
  function Need(p: ReadPhase): nat {
    match p
    case Idle => 0
    case InHeader(got) => if |got| <= HEADER_SIZE then HEADER_SIZE - |got| else 0
    case InPayload(n, body) => if |body| <= n then n - |body| else 0
  }

  predicate Enabled(v: View, op: Op) {
    var (session, writer, reader) := (v.me.session, v.me.writer, v.me.reader);
    match op
    case ClientSend(_) => session.cell.alive
    case AskStop => session.cell.alive
    case CutWire(kept) => kept <= |v.inn.bytes|
    case SessionMessage(_) => session.cell.Ready() && session.events == []
    case SessionEvent => session.cell.alive && !session.cell.stopping && session.events != []
    case SessionExit => session.cell.alive && session.cell.stopping
    case WriterTake => writer.cell.Ready() && writer.phase.Resting?
    case WriterPush(n) =>
      writer.cell.alive && (writer.phase.InLength? || writer.phase.InBody?) && 0 < n <= |writer.phase.todo|
    case WriterFinish => writer.cell.alive && writer.phase == InBody([])
    case LengthWriteFails => writer.cell.alive && writer.phase.InLength?
    case BodyWriteFails => writer.cell.alive && writer.phase.InBody? && writer.phase.todo != []
    case WriterCrash => writer.cell.alive && (writer.phase.InLength? || writer.phase.InBody?)
    case WriterExit => writer.cell.alive && writer.cell.stopping && (writer.phase.Resting? || writer.phase.Unsent?)
    case ReaderTake => reader.cell.Ready() && reader.phase.Idle?
    case ReaderChunk(n) => reader.cell.alive && 0 < n <= Need(reader.phase) && n <= |v.inn.bytes|
    case ReaderFinish =>
      reader.cell.alive && !reader.phase.Idle? && Need(reader.phase) == 0 &&
      (reader.phase.InHeader? ==> |reader.phase.got| == HEADER_SIZE)
    case ReaderEof => reader.cell.alive && Need(reader.phase) > 0 && v.inn.bytes == [] && v.inn.closed
    case ReaderIoError =>
      reader.cell.alive && (Need(reader.phase) > 0 || (reader.phase.InPayload? && reader.phase.body == []))
    case ReaderExit => reader.cell.alive && reader.cell.stopping && reader.phase.Idle?
    case Killed(Writer) => writer.cell.alive && writer.cell.killed
    case Killed(Reader) => reader.cell.alive && reader.cell.killed
  }

  function Apply(v: View, op: Op): View
    requires Enabled(v, op)
  {
    match op
    case ClientSend(f) => v.(me := AcceptSend(v.me, f))
    case AskStop => v.(me := v.me.(session := v.me.session.(cell := v.me.session.cell.Stop())))
    case CutWire(kept) => v.(inn := Wire(v.inn.bytes[..kept], true, true))
    case SessionMessage(accepts) => v.(me := HandleMessage(v.me, accepts))
    case SessionEvent => v.(me := HandleEvent(v.me))
    case SessionExit => v.(me := ExitSession(v.me))
    case WriterTake => v.(me := TakeUp(v.me))
    case WriterPush(n) => Push(v, n)
    case WriterFinish => v.(me := SetWritePhase(v.me, Resting))
    case LengthWriteFails => v.(me := DropFrame(v.me))
    case BodyWriteFails =>
      var w := v.me.writer;
      v.(me := v.me.(writer := WriterState(w.cell.Stop(), Unsent(w.phase.todo))))
    case WriterCrash => EndWriter(v, [ActorFailed(Writer)])
    case WriterExit => EndWriter(v, [ActorTerminated(Writer)])
    case ReaderTake => v.(me := v.me.(reader := BeginRead(v.me.reader)))
    case ReaderChunk(n) => TakeChunk(v, n)
    case ReaderFinish => v.(me := FinishRead(v.me))
    case ReaderEof => v.(me := EndOfStream(v.me))
    case ReaderIoError => v.(me := v.me.(reader := AbandonRead(v.me.reader)))
    case ReaderExit => v.(me := EndReader(v.me, [ActorTerminated(Reader)]))
    case Killed(Writer) => EndWriter(v, [])
    case Killed(Reader) => v.(me := EndReader(v.me, []))
  }

  function AcceptSend(e: Endpoint, f: Frame): Endpoint {
    e.(session := e.session.(cell := e.session.cell.Cast(Send(f))),
       log := e.log.(accepted := e.log.accepted + [f]))
  }

  /** The session's death kills its linked children. */
  function ExitSession(e: Endpoint): Endpoint {
    e.(session := e.session.(cell := e.session.cell.Die()),
       writer := e.writer.(cell := e.writer.cell.Kill()),
       reader := e.reader.(cell := e.reader.cell.Kill()))
  }

  function CellsOf(e: Endpoint): Cells {
    Cells(e.session.cell, e.writer.cell, e.reader.cell)
  }

  function WithCells(e: Endpoint, c: Cells): Endpoint {
    e.(session := e.session.(cell := c.session), writer := e.writer.(cell := c.writer),
       reader := e.reader.(cell := c.reader))
  }

  function HandleMessage(e: Endpoint, accepts: bool): Endpoint
    requires e.session.cell.mailbox != []
  {
    var msg := e.session.cell.mailbox[0];
    var rest := e.(session := e.session.(cell := e.session.cell.Dequeue()));
    match msg
    case Send(f) => WithCells(rest, OnSend(CellsOf(rest), f))
    case FrameReady(f) =>
      if accepts then rest.(session := rest.session.(received := rest.session.received + [f])) else ExitSession(rest)
  }

  function HandleEvent(e: Endpoint): Endpoint
    requires e.session.events != []
  {
    var rest := e.(session := e.session.(events := e.session.events[1..]));
    WithCells(rest, OnSupervision(CellsOf(rest), e.session.events[0]))
  }

  function SetWritePhase(e: Endpoint, p: WritePhase): Endpoint {
    e.(writer := e.writer.(phase := p))
  }

  /** The writer giving up the frame it last took up. */
  function DropFrame(e: Endpoint): Endpoint
    requires e.writer.phase.InLength?
  {
    SetWritePhase(e, Resting).(log := e.log.(lost := e.log.lost[|e.log.begun| := SentOfLength(e.writer.phase.todo)]))
  }

  function SentOfLength(todo: seq<Byte>): Part {
    if 0 < |todo| <= HEADER_SIZE then HEADER_SIZE - |todo| else 0
  }

  function TakeUp(e: Endpoint): Endpoint
    requires e.writer.cell.mailbox != []
  {
    var f := e.writer.cell.mailbox[0];
    e.(writer := WriterState(e.writer.cell.Dequeue(), InLength(Header(|f|), f)),
       log := e.log.(begun := e.log.begun + [f]))
  }

  /** Bytes written once the wire is closed go nowhere. */
  function Push(v: View, n: nat): View
    requires v.me.writer.phase.InLength? || v.me.writer.phase.InBody?
    requires n <= |v.me.writer.phase.todo|
  {
    var p := v.me.writer.phase;
    var chunk, left := p.todo[..n], p.todo[n..];
    var next := if p.InBody? then InBody(left) else if left == [] then InBody(p.frame) else InLength(left, p.frame);
    View(SetWritePhase(v.me, next).(log := v.me.log.(written := v.me.log.written + chunk)),
         v.inn,
         if v.out.closed then v.out.(cut := true) else v.out.(bytes := v.out.bytes + chunk))
  }

  /** The writer's death drops its half of the socket. */
  function EndWriter(v: View, notice: seq<SupervisionEvent>): View {
    v.(me := v.me.(writer := v.me.writer.(cell := v.me.writer.cell.Die()),
                   session := v.me.session.(events := v.me.session.events + notice)),
       out := v.out.(closed := true))
  }

  function EndReader(e: Endpoint, notice: seq<SupervisionEvent>): Endpoint {
    e.(reader := e.reader.(cell := e.reader.cell.Die(), open := false),
       session := e.session.(events := e.session.events + notice))
  }

  function BeginRead(r: ReaderState): ReaderState
    requires r.cell.mailbox != []
  {
    var next := r.(cell := r.cell.Dequeue());
    if !r.open then WaitAgain(next)
    else match r.cell.mailbox[0]
      case WaitForFrame => next.(phase := InHeader([]))
      case ReadFrame(n) => next.(phase := InPayload(n, []))
  }

  function TakeChunk(v: View, n: nat): View
    requires n <= Need(v.me.reader.phase) && n <= |v.inn.bytes|
  {
    var chunk := v.inn.bytes[..n];
    var p := match v.me.reader.phase
      case Idle => Idle
      case InHeader(got) => InHeader(got + chunk)
      case InPayload(len, body) => InPayload(len, body + chunk);
    v.(me := v.me.(reader := v.me.reader.(phase := p), log := v.me.log.(consumed := v.me.log.consumed + chunk)),
       inn := v.inn.(bytes := v.inn.bytes[n..]))
  }

  /** Finishing a payload hands it to the session, and fails the reader if the session is gone. */
  function FinishRead(e: Endpoint): Endpoint
    requires e.reader.phase.InHeader? ==> |e.reader.phase.got| == HEADER_SIZE
  {
    match e.reader.phase
    case Idle => e
    case InHeader(got) => e.(reader := AfterHeader(e.reader, Bytes(got)))
    case InPayload(_, body) =>
      if e.session.cell.alive then
        e.(reader := AfterPayload(e.reader, Bytes(body)),
           session := e.session.(cell := e.session.cell.Cast(FrameReady(body))),
           log := e.log.(forwarded := e.log.forwarded + [body]))
      else
        EndReader(e, [ActorFailed(Reader)])
  }

  function EndOfStream(e: Endpoint): Endpoint {
    e.(reader := if e.reader.phase.InPayload? then AfterPayload(e.reader, UnexpectedEof)
                 else AfterHeader(e.reader, UnexpectedEof),
       log := e.log.(dropped := e.log.dropped + Partial(e.reader)))
  }

  function AbandonRead(r: ReaderState): ReaderState {
    if r.phase.InPayload? then AfterPayload(r, OtherError) else AfterHeader(r, OtherError)
  }

  /** The bytes of the current frame that the reader has taken so far. */
  function Partial(r: ReaderState): seq<Byte> {
    match r.phase
    case InHeader(got) => got
    case InPayload(n, body) => Header(n) + body
    case Idle =>
      if r.cell.mailbox != [] && r.cell.mailbox[0].ReadFrame? then Header(r.cell.mailbox[0].length) else []
  }

  // ---------- Runs ----------

  datatype Run = Start | Then(prior: Run, side: Side, op: Op)

  function End(run: Run): Net {
    match run
    case Start => INIT
    case Then(prior, d, op) =>
      var s := End(prior);
      if Enabled(At(s, d), op) then Put(d, Apply(At(s, d), op), s) else s
  }

  ghost predicate Valid(run: Run) {
    run.Then? ==> Valid(run.prior) && Enabled(At(End(run.prior), run.side), run.op)
  }

  /** No read at `d` failed, other than at the end of the stream, with part of a frame already taken. */
  predicate AlignedReads(run: Run, d: Side) {
    run.Then? ==>
      && AlignedReads(run.prior, d)
      && (run.side == d && run.op.ReaderIoError? ==> Partial(At(End(run.prior), d).me.reader) == [])
  }

  /** No length header written at `d` failed with part of it already sent. */
  predicate AlignedLengths(run: Run, d: Side) {
    run.Then? ==>
      && AlignedLengths(run.prior, d)
      && (run.side == d && run.op.LengthWriteFails? ==> LengthUntouched(At(End(run.prior), d).me.writer.phase))
  }

  predicate LengthUntouched(p: WritePhase) {
    p.InLength? && |p.todo| == HEADER_SIZE
  }

  /** No length header failed to be written at `d`. */
  predicate NoLengthFailure(run: Run, d: Side) {
    run.Then? ==> NoLengthFailure(run.prior, d) && !(run.side == d && run.op.LengthWriteFails?)
  }

  /** What is left of some frames without those whose places, counting from 1, are in `lost`. */
  function Without(fs: seq<Frame>, lost: map<nat, Part>): seq<Frame> {
    if fs == [] then []
    else Without(fs[..|fs| - 1], lost) + if |fs| in lost then [] else [fs[|fs| - 1]]
  }

  /** How the write of the frame in a given place ended, if it was not cut short later than in its length. */
  function OutcomeOf(lost: map<nat, Part>, place: nat): WriteResult {
    if place in lost then LengthFailed(lost[place]) else Written
  }

  /** All that the writes of some frames put on the wire, frame by frame. */
  ghost function OnWire(fs: seq<Frame>, lost: map<nat, Part>): seq<Byte> {
    if fs == [] then []
    else OnWire(fs[..|fs| - 1], lost) + BytesOf(fs[|fs| - 1], OutcomeOf(lost, |fs|))
  }
}
