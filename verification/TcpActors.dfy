/** The three actors of a TCP session, handler by handler: the reader and the writer, which own
    the two halves of the socket, and the session that supervises them. */
module TcpActors {
  import opened Framing
  import opened Runtime

  /** A u64 taken off the wire. */
  type Length = n: nat | n < TWO_TO_64

  datatype SessionMsg = Send(frame: Frame) | FrameReady(frame: Frame)

  datatype ReaderMsg = WaitForFrame | ReadFrame(length: Length)

  datatype Child = Reader | Writer

  datatype SupervisionEvent = ActorTerminated(child: Child) | ActorFailed(child: Child) | ActorStarted(child: Child)

  /** How a read of a fixed number of bytes ended. */
  datatype IoResult = Bytes(data: seq<Byte>) | UnexpectedEof | OtherError

  /** How far writing one frame got; `sent` counts the bytes of the failing part that did go out. */
  datatype WriteResult = Written | NotWritable | LengthFailed(sent: nat) | BodyFailed(sent: nat) | FlushFailed

  // ---------- Handlers as functions ----------

  /** Where the reader is inside a handler. Between handlers it is `Idle`. */
  datatype ReadPhase = Idle | InHeader(got: seq<Byte>) | InPayload(length: Length, body: Frame)

  datatype ReaderState = ReaderState(cell: Cell<ReaderMsg>, open: bool, phase: ReadPhase)

  /** The reader dropping its stream and asking to be stopped. */
  function CloseReader(r: ReaderState): ReaderState {
    r.(cell := r.cell.Stop(), open := false, phase := Idle)
  }

  function WaitAgain(r: ReaderState): ReaderState {
    r.(cell := r.cell.Cast(WaitForFrame), phase := Idle)
  }

  function LengthIn(header: seq<Byte>): Length
    requires |header| == HEADER_SIZE
  {
    HeaderRoundTrip(0, header);
    DecodeBE(header)
  }

  /** `wait_for_frame` once the read of the length header has returned `io`. */
  function AfterHeader(r: ReaderState, io: IoResult): ReaderState
    requires io.Bytes? ==> |io.data| == HEADER_SIZE
  {
    match io
    case Bytes(header) =>
      r.(cell := r.cell.Cast(ReadFrame(LengthIn(header))), phase := Idle)
    case UnexpectedEof => WaitAgain(CloseReader(r))
    case OtherError => WaitAgain(r)
  }

  /** `read_frame` once the read of the payload has returned `io` and any frame reached the session. */
  function AfterPayload(r: ReaderState, io: IoResult): ReaderState {
    match io
    case Bytes(_) => WaitAgain(r)
    case UnexpectedEof => CloseReader(r)
    case OtherError => WaitAgain(r)
  }

  /** The session and its two children, as its handlers reach them. */
  datatype Cells = Cells(session: Cell<SessionMsg>, writer: Cell<Frame>, reader: Cell<ReaderMsg>)

  function OnSend(c: Cells, f: Frame): Cells {
    c.(writer := c.writer.Cast(f))
  }

  /** Any exit of a child stops everything; a child's start changes nothing. */
  function OnSupervision(c: Cells, evt: SupervisionEvent): Cells {
    if evt.ActorStarted? then c else Cells(c.session.Stop(), c.writer.Stop(), c.reader.Stop())
  }

  /** Reading `len` bytes off a stream holding `before` may end as `io` and leave `after`. */
  ghost predicate Reads(before: seq<Byte>, len: nat, faulty: bool, io: IoResult, after: seq<Byte>) {
    match io
    case Bytes(data) => |data| == len && before == data + after
    case UnexpectedEof => |before| < len && after == []
    case OtherError =>
      && faulty && |after| <= |before| && after == before[|before| - |after|..]
      && (after == before || |before| < |after| + len)
  }

  /** The bytes that a write of `msg` ending in `result` puts on the stream. */
  ghost function BytesOf(msg: Frame, result: WriteResult): seq<Byte>
    requires result.LengthFailed? ==> result.sent < HEADER_SIZE
    requires result.BodyFailed? ==> result.sent < |msg|
  {
    match result
    case Written => Encode(msg)
    case FlushFailed => Encode(msg)
    case NotWritable => []
    case LengthFailed(k) => Header(|msg|)[..k]
    case BodyFailed(k) => Header(|msg|) + msg[..k]
  }

  // ---------- The socket ----------

  /** The read half: `pending` is all that the peer sends before the end of the stream. */
  class ReadHalf {
    var pending: seq<Byte>
    const faulty: bool

    constructor (pending: seq<Byte>, faulty: bool)
      ensures this.pending == pending && this.faulty == faulty
    {
      this.pending := pending;
      this.faulty := faulty;
    }

    /** Waiting for something to read. */
    method Readable() returns (ok: bool)
      ensures !ok ==> faulty
    {
      var fails: bool := *;
      ok := !(fails && faulty);
    }

    /** One read into `buf[from..]`: any positive number of the bytes that are there and fit, none at the end. */
    method Read(buf: array<Byte>, from: nat) returns (n: nat, ok: bool)
      requires from < buf.Length
      modifies this, buf
      ensures n <= buf.Length - from && n <= |old(pending)|
      ensures buf[..from] == old(buf[..from]) && buf[from..from + n] == old(pending)[..n]
      ensures pending == old(pending)[n..]
      ensures !ok ==> faulty && n == 0
      ensures ok ==> (n == 0 <==> old(pending) == [])
    {
      var fails: bool := *;
      if (fails && faulty) || pending == [] {
        n, ok := 0, pending == [] && !(fails && faulty);
        assert buf[..from] == old(buf[..from]);
        return;
      }
      ok := true;
      n :| 1 <= n <= buf.Length - from && n <= |pending|;
      forall i | 0 <= i < n {
        buf[from + i] := pending[i];
      }
      pending := pending[n..];
    }
  }

  /** Reads exactly `len` bytes, however the stream hands them out. */
  method ReadNBytes(stream: ReadHalf, len: nat) returns (r: IoResult)
    modifies stream
    ensures Reads(old(stream.pending), len, stream.faulty, r, stream.pending)
  {
    var buf := new Byte[len](_ => 0);
    var c_len := 0;
    var ready := stream.Readable();
    if !ready {
      return OtherError;
    }
    while c_len < len
      invariant c_len <= len
      invariant c_len <= |old(stream.pending)|
      invariant buf[..c_len] == old(stream.pending)[..c_len]
      invariant stream.pending == old(stream.pending)[c_len..]
      decreases len - c_len
    {
      var n, ok := stream.Read(buf, c_len);
      if !ok {
        return OtherError;
      }
      if n == 0 {
        return UnexpectedEof;
      }
      assert buf[..c_len + n] == buf[..c_len] + buf[c_len..c_len + n];
      c_len := c_len + n;
    }
    assert buf[..] == buf[..c_len];
    r := Bytes(buf[..]);
  }

  class WriteHalf {
    var sent: seq<Byte>
    const faulty: bool

    constructor (faulty: bool)
      ensures sent == [] && this.faulty == faulty
    {
      sent := [];
      this.faulty := faulty;
    }

    /** Waiting for room to write. */
    method Writable() returns (ok: bool)
      ensures !ok ==> faulty
    {
      var fails: bool := *;
      ok := !(fails && faulty);
    }

    /** Writes all of `data`, or fails having written only its first `k` bytes. */
    method WriteAll(data: seq<Byte>) returns (ok: bool, k: nat)
      modifies this
      ensures k <= |data| && sent == old(sent) + data[..k]
      ensures ok <==> k == |data|
      ensures !ok ==> faulty
    {
      k := |data|;
      if faulty {
        k :| 0 <= k <= |data|;
      }
      ok := k == |data|;
      sent := sent + data[..k];
    }

    method Flush() returns (ok: bool)
      ensures !ok ==> faulty
    {
      var fails: bool := *;
      ok := !(fails && faulty);
    }
  }

  // ---------- The actors ----------

  class SessionReader {
    const myself: ActorRef<ReaderMsg>
    const session: ActorRef<SessionMsg>
    var reader: ReadHalf?

    ghost predicate Valid() {
      (myself as object) != (session as object)
    }

    ghost function Model(): ReaderState
      reads this, myself
    {
      ReaderState(myself.cell, reader != null, Idle)
    }

    constructor (myself: ActorRef<ReaderMsg>, session: ActorRef<SessionMsg>, stream: ReadHalf)
      requires (myself as object) != (session as object)
      requires myself.cell == Spawned([])
      modifies myself
      ensures Valid() && this.myself == myself && this.session == session && reader == stream
      ensures Model() == ReaderState(Spawned([WaitForFrame]), true, Idle)
    {
      this.myself := myself;
      this.session := session;
      this.reader := stream;
      new;
      var _ := myself.Cast(WaitForFrame);
    }

    method PostStop()
      requires Valid()
      modifies this
      ensures Model() == old(Model()).(open := false)
    {
      reader := null;
    }

    method WaitForFrameHandler() returns (ghost io: IoResult)
      requires Valid()
      modifies this, myself, reader
      ensures Valid()
      ensures old(reader) == null ==> Model() == WaitAgain(old(Model()))
      ensures old(reader) != null ==>
                && Reads(old(reader.pending), HEADER_SIZE, old(reader).faulty, io, old(reader).pending)
                && Model() == AfterHeader(old(Model()), io)
      ensures old(reader) != null && io.Bytes? ==>
                reader == old(reader) && myself.cell == old(myself.cell).Cast(ReadFrame(LengthIn(io.data)))
      ensures old(reader) != null && io.UnexpectedEof? ==>
                reader == null && myself.cell == old(myself.cell).Stop().Cast(WaitForFrame)
      ensures old(reader) != null && io.OtherError? ==>
                reader == old(reader) && myself.cell == old(myself.cell).Cast(WaitForFrame)
    {
      io := OtherError;
      if reader != null {
        var r := ReadNBytes(reader, HEADER_SIZE);
        io := r;
        match r
        case Bytes(header) =>
          var _ := myself.Cast(ReadFrame(LengthIn(header)));
          return;
        case UnexpectedEof =>
          reader := null;
          myself.Stop();
        case OtherError =>
      }
      var _ := myself.Cast(WaitForFrame);
    }

    /** `ok` is whether the handler succeeded; it fails only when the session is gone. */
    method ReadFrameHandler(length: Length) returns (ok: bool, ghost io: IoResult)
      requires Valid()
      modifies this, myself, session, reader
      ensures Valid()
      ensures old(reader) == null ==> ok && Model() == WaitAgain(old(Model())) && session.cell == old(session.cell)
      ensures old(reader) != null ==>
                && Reads(old(reader.pending), length, old(reader).faulty, io, old(reader).pending)
                && session.cell
                   == (if io.Bytes? then old(session.cell).Cast(FrameReady(io.data)) else old(session.cell))
                && (ok <==> io.Bytes? ==> old(session.cell).alive)
                && Model() == (if ok then AfterPayload(old(Model()), io) else old(Model()))
                && (io.UnexpectedEof? ==> reader == null && myself.cell == old(myself.cell).Stop())
                && (ok && !io.UnexpectedEof? ==>
                      reader == old(reader) && myself.cell == old(myself.cell).Cast(WaitForFrame))
    {
      ok := true;
      io := OtherError;
      if reader != null {
        var r := ReadNBytes(reader, length);
        io := r;
        match r
        case Bytes(buf) =>
          ok := session.Cast(FrameReady(buf));
          if !ok {
            return;
          }
        case UnexpectedEof =>
          reader := null;
          myself.Stop();
          return;
        case OtherError =>
      }
      var _ := myself.Cast(WaitForFrame);
    }
  }

  class SessionWriter {
    const myself: ActorRef<Frame>
    var writer: WriteHalf?

    constructor (myself: ActorRef<Frame>, stream: WriteHalf)
      ensures this.myself == myself && writer == stream
    {
      this.myself := myself;
      this.writer := stream;
    }

    method PostStop()
      modifies this
      ensures writer == null
    {
      writer := null;
    }

    /** A failed length write drops the frame and carries on; a failed body write stops the actor; a
        failed wait or flush fails it. */
    method Write(msg: Frame) returns (ok: bool, ghost result: WriteResult)
      modifies myself, writer
      ensures writer == null ==> ok && myself.cell == old(myself.cell)
      ensures writer != null ==>
                && (result.LengthFailed? ==> result.sent < HEADER_SIZE)
                && (result.BodyFailed? ==> result.sent < |msg|)
                && writer.sent == old(writer.sent) + BytesOf(msg, result)
                && (!writer.faulty ==> result.Written?)
                && (ok <==> !result.FlushFailed? && !result.NotWritable?)
                && myself.cell == if result.BodyFailed? then old(myself.cell).Stop() else old(myself.cell)
    {
      ok := true;
      result := Written;
      if writer != null {
        var ready := writer.Writable();
        if !ready {
          ok, result := false, NotWritable;
          return;
        }
        var wroteLength, k := writer.WriteAll(Header(|msg|));
        if !wroteLength {
          result := LengthFailed(k);
        } else {
          assert Header(|msg|)[..k] == Header(|msg|);
          ghost var before := old(writer.sent);
          var wroteBody, j := writer.WriteAll(msg);
          ConcatAssociates(before, Header(|msg|), msg[..j]);
          if !wroteBody {
            result := BodyFailed(j);
            myself.Stop();
            return;
          }
          assert msg[..j] == msg;
          ok := writer.Flush();
          if !ok {
            result := FlushFailed;
          }
        }
      }
    }
  }

  /** The user's callback; it may reject a frame. */
  class FrameReceiver {
    var frames: seq<Frame>

    constructor ()
      ensures frames == []
    {
      frames := [];
    }

    method FrameReady(f: Frame) returns (ok: bool)
      modifies this
      ensures frames == if ok then old(frames) + [f] else old(frames)
    {
      ok := *;
      if ok {
        frames := frames + [f];
      }
    }
  }

  class TcpSession {
    const myself: ActorRef<SessionMsg>
    const writer: ActorRef<Frame>
    const reader: ActorRef<ReaderMsg>
    const receiver: FrameReceiver

    ghost predicate Valid() {
      && (myself as object) != (writer as object)
      && (myself as object) != (reader as object)
      && (writer as object) != (reader as object)
    }

    constructor (myself: ActorRef<SessionMsg>, writer: ActorRef<Frame>, reader: ActorRef<ReaderMsg>,
                 receiver: FrameReceiver)
      requires (myself as object) != (writer as object)
      requires (myself as object) != (reader as object)
      requires (writer as object) != (reader as object)
      ensures Valid()
      ensures this.myself == myself && this.writer == writer && this.reader == reader && this.receiver == receiver
    {
      this.myself := myself;
      this.writer := writer;
      this.reader := reader;
      this.receiver := receiver;
    }

    ghost function Model(): Cells
      reads myself, writer, reader
    {
      Cells(myself.cell, writer.cell, reader.cell)
    }

    method SendHandler(msg: Frame)
      requires Valid()
      modifies writer
      ensures Model() == OnSend(old(Model()), msg)
    {
      var _ := writer.Cast(msg);
    }

    method FrameReadyHandler(msg: Frame) returns (ok: bool)
      requires Valid()
      modifies receiver
      ensures receiver.frames == if ok then old(receiver.frames) + [msg] else old(receiver.frames)
    {
      ok := receiver.FrameReady(msg);
    }

    method HandleSupervisorEvt(evt: SupervisionEvent)
      requires Valid()
      modifies myself, writer, reader
      ensures Model() == OnSupervision(old(Model()), evt)
    {
      match evt
      case ActorFailed(_) =>
        StopEverything();
      case ActorTerminated(_) =>
        StopEverything();
      case ActorStarted(_) =>
    }

    method StopEverything()
      requires Valid()
      modifies myself, writer, reader
      ensures myself.cell == old(myself.cell).Stop()
      ensures writer.cell == old(writer.cell).Stop() && reader.cell == old(reader.cell).Stop()
    {
      writer.Stop();
      reader.Stop();
      myself.Stop();
    }
  }
}
