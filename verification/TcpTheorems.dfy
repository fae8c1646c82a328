/** What the two-session system delivers. */
module TcpTheorems {
  import opened Framing
  import opened TcpActors
  import opened TcpNetwork
  import opened TcpInvariants

  // ---------- Main results ----------

  /** The bytes between the frames already handed on at `d` and the frames not yet taken up by its peer's writer. */
  function InFlight(s: Net, d: Side): seq<Byte> {
    Partial(At(s, d).me.reader) + At(s, d).inn.bytes + Todo(At(s, Other(d)).me.writer.phase)
  }

  /** What an end was given to send, less the frames it dropped because their length could not be written. */
  function Sendable(e: Endpoint): seq<Frame> {
    Without(e.log.accepted, e.log.lost)
  }

  lemma SendableMeans(e: Endpoint)
    requires WriterShape(e) && SenderOrder(e)
    ensures Attempted(e) <= Sendable(e)
    ensures e.log.lost == map[] ==> Sendable(e) == e.log.accepted
    ensures e.writer.cell.alive ==>
              Attempted(e) + e.writer.cell.mailbox + Sends(e.session.cell.mailbox) == Sendable(e)
  {
    WithoutPrefix(e.log.begun, e.log.accepted, e.log.lost);
    WithoutNothing(e.log.accepted);
    if e.writer.cell.alive {
      var (queue, unsent) := (e.writer.cell.mailbox, Sends(e.session.cell.mailbox));
      ConcatAssociates(e.log.begun, queue, unsent);
      WithoutConcat(e.log.begun, queue + unsent, e.log.lost);
      ConcatAssociates(Attempted(e), queue, unsent);
    }
  }

  /** Whatever is cut, killed, stopped or fails to be written or read, as long as no failure struck
      part-way through a frame, the receiver holds, unaltered and in order, a prefix of the frames its
      peer was given to send, without those it dropped. */
  lemma {:induction false} ReceivesPrefix(run: Run, d: Side)
    requires Valid(run) && AlignedReads(run, d) && AlignedLengths(run, Other(d))
    ensures var (to, from) := (At(End(run), d).me, At(End(run), Other(d)).me);
            && to.session.received <= Sendable(from)
            && (from.log.lost == map[] ==> to.session.received <= from.log.accepted)
  {
    var (to, from) := (At(End(run), d).me, At(End(run), Other(d)).me);
    Invariants(run, d);
    Invariants(run, Other(d));
    ReaderAlignment(run, d);
    WriterAlignment(run, Other(d));
    assert EncodeAll(to.log.forwarded) <= to.log.consumed <= from.log.written <= EncodeAll(Attempted(from));
    WholeFramesComplete(to.log.forwarded, EncodeAll(Attempted(from)));
    DecodeWhole(Attempted(from));
    SendableMeans(from);
  }

  /** While nothing is lost on the way, every frame is in exactly one place, in order: received, queued
      at the session, among the bytes in flight, queued at the writer, or queued to be sent. */
  lemma {:induction false} Conservation(run: Run, d: Side)
    requires Valid(run) && AlignedReads(run, d) && AlignedLengths(run, Other(d))
    requires var (here, there) := (At(End(run), d), At(End(run), Other(d)));
             && here.me.session.cell.alive && here.me.reader.open && !here.inn.cut && there.me.writer.cell.alive
    ensures var (s, to, from) := (End(run), At(End(run), d).me, At(End(run), Other(d)).me);
            && to.session.received + Readies(to.session.cell.mailbox) + Complete(InFlight(s, d))
               + from.writer.cell.mailbox + Sends(from.session.cell.mailbox) == Sendable(from)
            && Rest(InFlight(s, d)) == []
            && (from.log.lost == map[] ==> Sendable(from) == from.log.accepted)
  {
    Invariants(run, d);
    Invariants(run, Other(d));
    ReaderAlignment(run, d);
    WriterAlignment(run, Other(d));
    PipeConserves(At(End(run), Other(d)).me, At(End(run), d).inn, At(End(run), d).me);
    SendableMeans(At(End(run), Other(d)).me);
  }

  lemma PipeConserves(from: Endpoint, wire: Wire, to: Endpoint)
    requires WriterShape(from) && WriterExact(from) && SenderOrder(from) && from.writer.cell.alive
    requires WireFlow(from.log.written, wire, to.log.consumed) && !wire.cut
    requires ReaderShape(to) && ReaderExact(to) && to.reader.open
    requires ReceiverOrder(to) && to.session.cell.alive
    ensures var flight := Partial(to.reader) + wire.bytes + Todo(from.writer.phase);
            && to.session.received + Readies(to.session.cell.mailbox) + Complete(flight)
               + from.writer.cell.mailbox + Sends(from.session.cell.mailbox) == Sendable(from)
            && Rest(flight) == []
  {
    var (forwarded, attempted) := (to.log.forwarded, Attempted(from));
    var (partial, rest, todo) := (Partial(to.reader), wire.bytes, Todo(from.writer.phase));
    var flight := partial + rest + todo;
    assert EncodeAll(attempted) == EncodeAll(forwarded) + flight by {
      DropEmpty(to);
      assert EncodeAll(attempted) == ((EncodeAll(forwarded) + partial) + rest) + todo;
      ConcatAssociates(EncodeAll(forwarded), partial, rest);
      ConcatAssociates(EncodeAll(forwarded), partial + rest, todo);
    }
    DecodeEncodeAll(forwarded, flight);
    DecodeWhole(attempted);
    SendableMeans(from);
  }

  lemma DecodeWhole(fs: seq<Frame>)
    ensures Complete(EncodeAll(fs)) == fs && Rest(EncodeAll(fs)) == []
  {
    DecodeEncodeAll(fs, []);
    assert EncodeAll(fs) + [] == EncodeAll(fs) && fs + [] == fs;
  }

  /** Nothing more happens at this end until a client, the peer or a failure acts. */
  predicate Progress(op: Op) {
    match op
    case ClientSend(_) => false
    case AskStop => false
    case CutWire(_) => false
    case SessionMessage(accepts) => accepts
    case LengthWriteFails => false
    case BodyWriteFails => false
    case WriterCrash => false
    case ReaderIoError => false
    case _ => true
  }

  ghost predicate Quiet(v: View) {
    forall op :: Progress(op) ==> !Enabled(v, op)
  }

  predicate AllAlive(e: Endpoint) {
    e.session.cell.alive && e.writer.cell.alive && e.reader.cell.alive
  }

  predicate AllDead(e: Endpoint) {
    !e.session.cell.alive && !e.writer.cell.alive && !e.reader.cell.alive
  }

  /** A dead child is never overlooked: its notice is still queued, or all three actors have been
      asked to stop, or the session is gone, and then the other child is dead or about to be killed. */
  lemma {:induction false} DeathIsNoticed(run: Run, d: Side, c: Child)
    requires Valid(run)
    requires var e := At(End(run), d).me;
             if c.Writer? then !e.writer.cell.alive else !e.reader.cell.alive
    ensures var e := At(End(run), d).me;
            || ExitQueued(e, c)
            || AllAskedToStop(e)
            || (!e.session.cell.alive
                && (!e.writer.cell.alive || e.writer.cell.killed) && (!e.reader.cell.alive || e.reader.cell.killed))
  {
    Invariants(run, d);
  }

  /** Once an end comes to rest, its three actors are all alive or all dead, whatever failed. */
  lemma {:induction false} TeardownIsComplete(run: Run, d: Side)
    requires Valid(run) && Quiet(At(End(run), d))
    ensures AllAlive(At(End(run), d).me) || AllDead(At(End(run), d).me)
  {
    Invariants(run, d);
    QuietIsUniform(At(End(run), d));
  }

  lemma QuietIsUniform(v: View)
    requires Supervised(v.me) && Quiet(v)
    ensures AllAlive(v.me) || AllDead(v.me)
  {
    assert !Enabled(v, SessionEvent) && !Enabled(v, SessionExit);
    assert !Enabled(v, Killed(Writer)) && !Enabled(v, Killed(Reader));
  }

  /** An end at rest with its actors alive has passed on all it had and is waiting for bytes. */
  ghost predicate Drained(v: View) {
    && v.me.session.cell.mailbox == [] && v.me.writer.cell.mailbox == [] && v.me.writer.phase.Resting?
    && v.me.reader.open && Need(v.me.reader.phase) > 0 && v.inn.bytes == []
  }

  lemma AtRest(v: View)
    requires EndInv(v.me) && Quiet(v) && AllAlive(v.me)
    ensures Drained(v)
  {
    var (writer, reader) := (v.me.writer, v.me.reader);
    assert !v.me.session.cell.stopping && v.me.session.events == [] && v.me.session.cell.mailbox == [] by {
      assert !Enabled(v, SessionEvent) && !Enabled(v, SessionExit) && !Enabled(v, SessionMessage(true));
    }
    assert writer.phase.Resting? && writer.cell.mailbox == [] by {
      assert !Enabled(v, WriterTake) && !Enabled(v, WriterFinish) && !Enabled(v, WriterExit);
      assert !Enabled(v, WriterPush(1));
    }
    assert reader.open && Need(reader.phase) > 0 by {
      assert !Enabled(v, ReaderTake) && !Enabled(v, ReaderFinish) && !Enabled(v, ReaderExit);
    }
    assert !Enabled(v, ReaderChunk(1));
  }

  /** Delivery, exactly: when both ends have come to rest alive and the wire was not cut, every frame
      accepted has been received if and only if no read failed part-way through a frame and no length
      failed to be written; and with every failed length write untouched, every frame not dropped has
      been, if and only if no read failed part-way. */
  lemma {:induction false} DeliversAll(run: Run, d: Side)
    requires Valid(run)
    requires var (here, there) := (At(End(run), d), At(End(run), Other(d)));
             Quiet(here) && Quiet(there) && AllAlive(here.me) && AllAlive(there.me) && !here.inn.cut
    ensures var (received, from) := (At(End(run), d).me.session.received, At(End(run), Other(d)).me);
            && (received == from.log.accepted <==> AlignedReads(run, d) && NoLengthFailure(run, Other(d)))
            && (AlignedLengths(run, Other(d)) ==> (received == Sendable(from) <==> AlignedReads(run, d)))
            && (from.log.lost == map[] ==> Sendable(from) == from.log.accepted)
  {
    var (here, there) := (At(End(run), d), At(End(run), Other(d)));
    Invariants(run, d);
    Invariants(run, Other(d));
    AtRest(here);
    AtRest(there);
    ReaderAlignment(run, d);
    WriterAlignment(run, Other(d));
    WriterTotalAlways(run, Other(d));
    LostByRun(run, Other(d));
    TotalMeans(there.me);
    SendableMeans(there.me);
    RestAccounts(here, there);
    if AlignedReads(run, d) && AlignedLengths(run, Other(d)) {
      Conservation(run, d);
      NothingInFlight(here, there);
    }
  }

  /** At rest what is conserved has been received. */
  lemma NothingInFlight(here: View, there: View)
    requires Drained(here) && Drained(there)
    requires var (to, from) := (here.me, there.me);
             to.session.received + Readies(to.session.cell.mailbox)
             + Complete(Partial(to.reader) + here.inn.bytes + Todo(from.writer.phase))
             + from.writer.cell.mailbox + Sends(from.session.cell.mailbox) == Sendable(from)
    ensures here.me.session.received == Sendable(there.me)
  {
    ShortPartial(here.me.reader);
    assert Partial(here.me.reader) + [] + [] == Partial(here.me.reader);
    assert here.me.session.received + [] + [] + [] + [] == here.me.session.received;
  }

  /** At rest, all bytes written are in frames received, in the current frame, or lost to a read error. */
  lemma RestAccounts(here: View, there: View)
    requires Drained(here) && Drained(there) && AllAlive(here.me) && AllAlive(there.me) && !here.inn.cut
    requires ReaderShape(here.me) && ReceiverOrder(here.me)
    requires WriterShape(there.me) && SenderOrder(there.me)
    requires WireFlow(there.me.log.written, here.inn, here.me.log.consumed)
    ensures |there.me.log.written|
            == |EncodeAll(here.me.session.received)| + |Partial(here.me.reader)| + Unaccounted(here.me)
    ensures there.me.log.begun == there.me.log.accepted && Attempted(there.me) == Sendable(there.me)
    ensures Todo(there.me.writer.phase) == []
  {
    var (to, from) := (here.me, there.me);
    assert to.log.consumed + [] == to.log.consumed;
    assert to.session.received + [] == to.session.received;
    assert from.log.begun + [] + [] == from.log.begun;
  }

  /** Whatever bytes arrive and in whatever chunks: a reader that has met the end of the stream had
      forwarded exactly the frames wholly contained in it, and has asked to be stopped. */
  lemma {:induction false} ReaderForwardsComplete(run: Run, d: Side)
    requires Valid(run) && AlignedReads(run, d)
    requires var r := At(End(run), d).me.reader; r.cell.alive && !r.open
    ensures var v := At(End(run), d);
            && v.inn.closed && v.inn.bytes == [] && v.me.reader.cell.stopping
            && v.me.log.forwarded == Complete(v.me.log.consumed)
            && v.me.log.dropped == Rest(v.me.log.consumed)
  {
    Invariants(run, d);
    ReaderAlignment(run, d);
    ClosedForwardsComplete(At(End(run), d).me);
  }

  lemma ClosedForwardsComplete(e: Endpoint)
    requires ReaderShape(e) && ReaderExact(e) && e.reader.cell.alive && !e.reader.open
    ensures e.log.forwarded == Complete(e.log.consumed) && e.log.dropped == Rest(e.log.consumed)
  {
    assert EncodeAll(e.log.forwarded) + [] == EncodeAll(e.log.forwarded);
    DecodeEncodeAll(e.log.forwarded, e.log.dropped);
    assert e.log.forwarded + [] == e.log.forwarded;
  }

  /** If the stream was cut at any byte, the frames forwarded are those wholly before the cut and no others. */
  lemma {:induction false} TruncationIsExact(run: Run, d: Side)
    requires Valid(run) && AlignedReads(run, d) && AlignedLengths(run, Other(d))
    requires var r := At(End(run), d).me.reader; r.cell.alive && !r.open
    ensures var (to, attempted) := (At(End(run), d).me.log, Attempted(At(End(run), Other(d)).me));
            var k := |to.forwarded|;
            && k <= |attempted| && to.forwarded == attempted[..k]
            && EncodeAll(attempted[..k]) <= to.consumed
            && (k < |attempted| ==> |to.consumed| < |EncodeAll(attempted[..k + 1])|)
  {
    var (to, from) := (At(End(run), d).me, At(End(run), Other(d)).me);
    ReaderForwardsComplete(run, d);
    Invariants(run, d);
    WriterAlignment(run, Other(d));
    assert to.log.consumed <= from.log.written <= EncodeAll(Attempted(from));
    Truncation(Attempted(from), to.log.consumed);
  }

  // ---------- The machine's reads and writes are the handlers' ----------

  /** The bytes of its current read that the reader has taken so far. */
  function Got(p: ReadPhase): seq<Byte> {
    match p
    case Idle => []
    case InHeader(got) => got
    case InPayload(_, body) => body
  }

  /** How many bytes the current read is for. */
  function Wanted(p: ReadPhase): nat {
    match p
    case Idle => 0
    case InHeader(_) => HEADER_SIZE
    case InPayload(n, _) => n
  }

  /** They are the last bytes taken off the wire. */
  ghost predicate GotLast(e: Endpoint) {
    var (got, consumed) := (Got(e.reader.phase), e.log.consumed);
    |got| <= |consumed| && consumed[|consumed| - |got|..] == got
  }

  lemma GotLastKept(v: View, op: Op)
    requires Enabled(v, op) && GotLast(v.me)
    ensures GotLast(Apply(v, op).me)
  {
    if !ReaderOp(op) {
      OthersKeepReader(v, op);
    }
  }

  lemma {:induction false} AlwaysGotLast(run: Run, d: Side)
    requires Valid(run)
    ensures GotLast(At(End(run), d).me)
  {
    if run.Then? {
      AlwaysGotLast(run.prior, d);
      StepSeen(run);
      if run.side == d {
        GotLastKept(At(End(run.prior), d), run.op);
      }
    }
  }

  /** How a read ends with a step. */
  function ReadResult(p: ReadPhase, op: Op): IoResult {
    if op.ReaderFinish? then Bytes(Got(p)) else if op.ReaderEof? then UnexpectedEof else OtherError
  }

  predicate EndsRead(op: Op) {
    op.ReaderFinish? || op.ReaderEof? || op.ReaderIoError?
  }

  /** Whatever chunks it came in and whatever happened in between, a read that ends relates the bytes
      that were there when it began to those left, as the loop of `read_n_bytes` does, for all that may
      still follow on the wire; and the reader goes on as its handlers do with that result. */
  lemma {:induction false} ReaderMatchesHandler(run: Run, d: Side, op: Op, later: seq<Byte>)
    requires Valid(run) && EndsRead(op) && Enabled(At(End(run), d), op)
    requires At(End(run), d).inn.closed ==> later == []
    ensures var (v, v') := (At(End(run), d), Apply(At(End(run), d), op));
            var (p, io) := (v.me.reader.phase, ReadResult(v.me.reader.phase, op));
            && GotLast(v.me) && v'.inn == v.inn && v'.me.log.consumed == v.me.log.consumed
            && Reads(Got(p) + v.inn.bytes + later, Wanted(p), true, io, v.inn.bytes + later)
            && (p.InHeader? ==> v'.me.reader == AfterHeader(v.me.reader, io))
            && (p.InPayload? && (io.Bytes? ==> v.me.session.cell.alive) ==>
                  v'.me.reader == AfterPayload(v.me.reader, io))
            && v'.me.log.forwarded == v.me.log.forwarded
                 + if p.InPayload? && io.Bytes? && v.me.session.cell.alive then [io.data] else []
  {
    var v := At(End(run), d);
    Invariants(run, d);
    AlwaysGotLast(run, d);
    EndedReadReads(v, op, later);
    EndedReadGoesOn(v, op);
  }

  lemma EndedReadReads(v: View, op: Op, later: seq<Byte>)
    requires Enabled(v, op) && EndsRead(op) && ReaderShape(v.me) && (v.inn.closed ==> later == [])
    ensures var p := v.me.reader.phase;
            Reads(Got(p) + v.inn.bytes + later, Wanted(p), true, ReadResult(p, op), v.inn.bytes + later)
  {
    var (got, left) := (Got(v.me.reader.phase), v.inn.bytes + later);
    ConcatAssociates(got, v.inn.bytes, later);
    assert (got + left)[|got|..] == left;
    assert op.ReaderEof? ==> left == [] && got + left == got;
  }

  lemma EndedReadGoesOn(v: View, op: Op)
    requires Enabled(v, op) && EndsRead(op)
    ensures var (v', p, io) := (Apply(v, op), v.me.reader.phase, ReadResult(v.me.reader.phase, op));
            && v'.inn == v.inn && v'.me.log.consumed == v.me.log.consumed
            && (p.InHeader? ==> v'.me.reader == AfterHeader(v.me.reader, io))
            && (p.InPayload? && (io.Bytes? ==> v.me.session.cell.alive) ==>
                  v'.me.reader == AfterPayload(v.me.reader, io))
            && v'.me.log.forwarded == v.me.log.forwarded
                 + if p.InPayload? && io.Bytes? && v.me.session.cell.alive then [io.data] else []
  {
  }

  /** How a writer that fails or finishes now leaves the write of its current frame, which came to
      `ended` if it has left it behind. */
  function ResultSoFar(p: WritePhase, f: Frame, ended: WriteResult): WriteResult {
    match p
    case Resting => ended
    case InLength(todo, _) => LengthFailed(SentOfLength(todo))
    case InBody(todo) => if 0 < |todo| <= |f| then BodyFailed(|f| - |todo|) else Written
    case Unsent(todo) => if 0 < |todo| <= |f| then BodyFailed(|f| - |todo|) else Written
  }

  ghost predicate WritesMatch(e: Endpoint)
    requires e.log.begun != []
  {
    var (last, lost) := (|e.log.begun|, e.log.lost);
    var f := e.log.begun[last - 1];
    var result := ResultSoFar(e.writer.phase, f, OutcomeOf(lost, last));
    && (result.LengthFailed? ==> result.sent < HEADER_SIZE)
    && (result.BodyFailed? ==> result.sent < |f|)
    && e.log.written == OnWire(e.log.begun[..last - 1], lost) + BytesOf(f, result)
  }

  /** Whatever interleaves and whatever fails, what has been written is, frame by frame, exactly what the
      `write` handler puts out for such an outcome, up to where it is with the current one. */
  lemma {:induction false} WriterMatchesHandler(run: Run, d: Side)
    requires Valid(run) && At(End(run), d).me.log.begun != []
    ensures WritesMatch(At(End(run), d).me)
  {
    Invariants(run, d);
    WriterTotalAlways(run, d);
    WrittenSoFar(At(End(run), d).me);
  }

  lemma WrittenSoFar(e: Endpoint)
    requires WriterShape(e) && WriterTotal(e) && e.log.begun != []
    ensures WritesMatch(e)
  {
    var (last, todo) := (|e.log.begun|, Todo(e.writer.phase));
    var (before, f) := (OnWire(e.log.begun[..last - 1], e.log.lost), e.log.begun[last - 1]);
    if e.writer.phase.Resting? {
      assert e.log.written + [] == e.log.written;
    } else {
      var sent := BytesOf(f, ResultSoFar(e.writer.phase, f, Written));
      SentAndTodo(e.writer.phase, f);
      ConcatAssociates(before, sent, todo);
      ConcatCancels(e.log.written, before + sent, todo);
    }
  }

  lemma SentAndTodo(p: WritePhase, f: Frame)
    requires p.InLength? ==>
               p.frame == f && 0 < |p.todo| <= HEADER_SIZE && p.todo == Header(|f|)[HEADER_SIZE - |p.todo|..]
    requires p.InBody? || p.Unsent? ==> |p.todo| <= |f| && p.todo == f[|f| - |p.todo|..]
    ensures Encode(f) == BytesOf(f, ResultSoFar(p, f, Written)) + Todo(p)
  {
    if p.InLength? {
      var k := HEADER_SIZE - |p.todo|;
      assert Header(|f|) == Header(|f|)[..k] + p.todo;
      ConcatAssociates(Header(|f|)[..k], p.todo, f);
    } else if p.InBody? || p.Unsent? {
      var k := |f| - |p.todo|;
      assert f == f[..k] + p.todo;
      ConcatAssociates(Header(|f|), f[..k], p.todo);
    }
  }

  ghost predicate WholeFrames(bytes: seq<Byte>) {
    exists fs :: EncodeAll(fs) == bytes
  }

  lemma OnlyWholeHeaders(fs: seq<Frame>, part: seq<Byte>)
    requires |part| < HEADER_SIZE
    ensures WholeFrames(EncodeAll(fs) + part) <==> part == []
  {
    if part == [] {
      assert EncodeAll(fs) + [] == EncodeAll(fs);
    }
    DecodeEncodeAll(fs, part);
    forall gs | EncodeAll(gs) == EncodeAll(fs) + part
      ensures part == []
    {
      DecodeWhole(gs);
    }
  }

  /** After a failed length write the writer carries on; what it has written is still whole frames, the
      one it dropped left out, if and only if no byte of that length went out. */
  lemma {:induction false} LengthErrorAlignment(run: Run, d: Side)
    requires Valid(run) && AlignedLengths(run, d) && Enabled(At(End(run), d), LengthWriteFails)
    ensures var (e, e') := (At(End(run), d).me, Apply(At(End(run), d), LengthWriteFails).me);
            && (WholeFrames(e'.log.written) <==> |e.writer.phase.todo| == HEADER_SIZE)
            && Attempted(e) == Attempted(e') + [e.writer.phase.frame]
  {
    Invariants(run, d);
    WriterAlignment(run, d);
    DropFrameAligned(At(End(run), d).me);
  }

  lemma DropFrameAligned(e: Endpoint)
    requires e.writer.phase.InLength? && WriterShape(e) && WriterExact(e)
    ensures WholeFrames(e.log.written) <==> |e.writer.phase.todo| == HEADER_SIZE
    ensures Attempted(e) == Attempted(DropFrame(e)) + [e.writer.phase.frame]
  {
    DropFrameAttempted(e);
    PartOfLengthWritten(Attempted(e), e.log.written, e.writer.phase.todo);
  }

  lemma PartOfLengthWritten(begun: seq<Frame>, written: seq<Byte>, todo: seq<Byte>)
    requires begun != [] && |todo| <= HEADER_SIZE
    requires var f := begun[|begun| - 1];
             && todo == Header(|f|)[HEADER_SIZE - |todo|..]
             && written + (todo + f) == EncodeAll(begun)
    requires |todo| > 0
    ensures WholeFrames(written) <==> |todo| == HEADER_SIZE
  {
    var before, f := begun[..|begun| - 1], begun[|begun| - 1];
    var sent := Header(|f|)[..HEADER_SIZE - |todo|];
    assert begun == before + [f];
    EncodeAllAppend(before, f);
    assert Header(|f|) == sent + todo;
    ConcatAssociates(sent, todo, f);
    ConcatAssociates(EncodeAll(before), sent, todo + f);
    ConcatCancels(written, EncodeAll(before) + sent, todo + f);
    OnlyWholeHeaders(before, sent);
  }
}
