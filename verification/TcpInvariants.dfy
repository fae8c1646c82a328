/** What every step of the two-session system keeps, over all runs and whatever fails. */
module TcpInvariants {
  import opened Framing
  import opened TcpActors
  import opened TcpNetwork

  // ---------- Views of the state ----------

  function Sends(mailbox: seq<SessionMsg>): seq<Frame> {
    if mailbox == [] then []
    else (if mailbox[0].Send? then [mailbox[0].frame] else []) + Sends(mailbox[1..])
  }

  function Readies(mailbox: seq<SessionMsg>): seq<Frame> {
    if mailbox == [] then []
    else (if mailbox[0].FrameReady? then [mailbox[0].frame] else []) + Readies(mailbox[1..])
  }

  lemma {:induction false} SendsAppend(mailbox: seq<SessionMsg>, m: SessionMsg)
    ensures Sends(mailbox + [m]) == Sends(mailbox) + Sends([m])
  {
    if mailbox == [] {
      assert mailbox + [m] == [m];
    } else {
      SendsAppend(mailbox[1..], m);
      assert (mailbox + [m])[1..] == mailbox[1..] + [m] && (mailbox + [m])[0] == mailbox[0];
      ConcatAssociates(Sends([mailbox[0]]), Sends(mailbox[1..]), Sends([m]));
    }
  }

  lemma {:induction false} ReadiesAppend(mailbox: seq<SessionMsg>, m: SessionMsg)
    ensures Readies(mailbox + [m]) == Readies(mailbox) + Readies([m])
  {
    if mailbox == [] {
      assert mailbox + [m] == [m];
    } else {
      ReadiesAppend(mailbox[1..], m);
      assert (mailbox + [m])[1..] == mailbox[1..] + [m] && (mailbox + [m])[0] == mailbox[0];
      ConcatAssociates(Readies([mailbox[0]]), Readies(mailbox[1..]), Readies([m]));
    }
  }

  lemma MailboxAppend(mailbox: seq<SessionMsg>, m: SessionMsg)
    ensures Sends(mailbox + [m]) == Sends(mailbox) + (if m.Send? then [m.frame] else [])
    ensures Readies(mailbox + [m]) == Readies(mailbox) + (if m.FrameReady? then [m.frame] else [])
  {
    SendsAppend(mailbox, m);
    ReadiesAppend(mailbox, m);
  }

  /** Bytes of frames the writer has taken up that it has yet to write. */
  function Todo(p: WritePhase): seq<Byte> {
    match p
    case Resting => []
    case InLength(todo, f) => todo + f
    case InBody(todo) => todo
    case Unsent(todo) => todo
  }

  // ---------- Invariants of one end ----------

  ghost predicate ReaderShape(e: Endpoint) {
    var r := e.reader;
    && |r.cell.mailbox| <= 1
    && (!r.phase.Idle? ==> r.cell.mailbox == [])
    && (r.phase.InHeader? ==> |r.phase.got| <= HEADER_SIZE)
    && (r.phase.InPayload? ==> |r.phase.body| <= r.phase.length)
    && (r.cell.alive && r.open && r.phase.Idle? ==> |r.cell.mailbox| == 1)
    && (r.open ==> e.log.dropped == [])
    && (r.cell.alive && !r.open ==> r.cell.stopping && r.phase.Idle? && Partial(r) == [])
    && (e.log.dropped != [] ==> Partial(r) == [])
    && !HasFrame(e.log.dropped)
  }

  /** Every byte taken off the wire is in a frame handed on, in the current frame, or in the cut-off last one. */
  ghost predicate ReaderExact(e: Endpoint) {
    e.log.consumed == EncodeAll(e.log.forwarded) + Partial(e.reader) + e.log.dropped
  }

  ghost predicate ReceiverOrder(e: Endpoint) {
    && e.session.received <= e.log.forwarded
    && (e.session.cell.alive ==> e.session.received + Readies(e.session.cell.mailbox) == e.log.forwarded)
  }

  ghost predicate WriterShape(e: Endpoint) {
    var (phase, begun, lost) := (e.writer.phase, e.log.begun, e.log.lost);
    && (forall k | k in lost :: 0 < k <= |begun|)
    && (!phase.Resting? ==> begun != [] && |begun| !in lost)
    && (phase.InLength? ==>
          && begun[|begun| - 1] == phase.frame
          && 0 < |phase.todo| <= HEADER_SIZE
          && phase.todo == Header(|phase.frame|)[HEADER_SIZE - |phase.todo|..])
    && (phase.InBody? || phase.Unsent? ==>
          var f := begun[|begun| - 1];
          |phase.todo| <= |f| && phase.todo == f[|f| - |phase.todo|..])
    && (phase.Unsent? ==> e.writer.cell.stopping)
  }

  /** The frames the writer took up and did not drop. */
  function Attempted(e: Endpoint): seq<Frame> {
    Without(e.log.begun, e.log.lost)
  }

  /** What is written and what is still to write are what the writes of the frames taken up put on the wire. */
  ghost predicate WriterTotal(e: Endpoint) {
    e.log.written + Todo(e.writer.phase) == OnWire(e.log.begun, e.log.lost)
  }

  /** What is written and what is still to write make up whole frames, in the order they were taken up. */
  ghost predicate WriterExact(e: Endpoint) {
    e.log.written + Todo(e.writer.phase) == EncodeAll(Attempted(e))
  }

  ghost predicate SenderOrder(e: Endpoint) {
    && e.log.begun + e.writer.cell.mailbox <= e.log.accepted
    && (e.writer.cell.alive ==>
          e.log.begun + e.writer.cell.mailbox + Sends(e.session.cell.mailbox) == e.log.accepted)
  }

  predicate ExitQueued(e: Endpoint, c: Child) {
    ActorFailed(c) in e.session.events || ActorTerminated(c) in e.session.events
  }

  predicate AllAskedToStop(e: Endpoint) {
    e.session.cell.stopping && e.writer.cell.stopping && e.reader.cell.stopping
  }

  ghost predicate Supervised(e: Endpoint) {
    && (e.session.cell.alive ==>
          && !e.session.cell.killed && !e.writer.cell.killed && !e.reader.cell.killed
          && (!e.writer.cell.alive ==> ExitQueued(e, Writer) || AllAskedToStop(e))
          && (!e.reader.cell.alive ==> ExitQueued(e, Reader) || AllAskedToStop(e)))
    && (!e.session.cell.alive ==>
          && (!e.writer.cell.alive || e.writer.cell.killed)
          && (!e.reader.cell.alive || e.reader.cell.killed))
  }

  // ---------- Each step keeps them ----------

  predicate ReaderOp(op: Op) {
    op.ReaderTake? || op.ReaderChunk? || op.ReaderFinish? || op.ReaderEof? || op.ReaderIoError? || op.ReaderExit?
  }

  /** What the other actors can do to the reader: ask it to stop, or kill it. */
  lemma OthersKeepReader(v: View, op: Op)
    requires Enabled(v, op) && !ReaderOp(op)
    ensures var (r, r') := (v.me.reader, Apply(v, op).me.reader);
            && r'.phase == r.phase && r'.cell.mailbox == r.cell.mailbox
            && (r.cell.stopping ==> r'.cell.stopping)
            && (r'.open == r.open || !r'.cell.alive)
            && (r'.open ==> r.open) && (r'.cell.alive ==> r.cell.alive)
    ensures var (log, log') := (v.me.log, Apply(v, op).me.log);
            log'.consumed == log.consumed && log'.forwarded == log.forwarded && log'.dropped == log.dropped
  {
  }

  lemma ReaderShapeKept(v: View, op: Op)
    requires Enabled(v, op) && ReaderShape(v.me)
    ensures ReaderShape(Apply(v, op).me)
  {
    if !ReaderOp(op) {
      OthersKeepReader(v, op);
    } else if op.ReaderEof? {
      EndOfStreamShape(v.me);
    } else if op.ReaderFinish? {
      FinishReadShape(v.me);
    }
  }

  lemma EndOfStreamShape(e: Endpoint)
    requires e.reader.cell.alive && Need(e.reader.phase) > 0 && ReaderShape(e)
    ensures ReaderShape(EndOfStream(e))
  {
    ShortPartial(e.reader);
    assert [] + Partial(e.reader) == Partial(e.reader);
  }

  lemma FinishReadShape(e: Endpoint)
    requires e.reader.cell.alive && !e.reader.phase.Idle? && ReaderShape(e)
    requires e.reader.phase.InHeader? ==> |e.reader.phase.got| == HEADER_SIZE
    ensures ReaderShape(FinishRead(e))
  {
  }

  /** While the reader still needs bytes, what it has of the current frame is not a whole frame. */
  lemma ShortPartial(r: ReaderState)
    requires Need(r.phase) > 0
    ensures !HasFrame(Partial(r))
  {
    if r.phase.InPayload? {
      HeaderRoundTrip(r.phase.length, Header(r.phase.length));
      assert Partial(r)[..HEADER_SIZE] == Header(r.phase.length);
    }
  }

  lemma TakeChunkExact(v: View, n: nat)
    requires Enabled(v, ReaderChunk(n)) && ReaderShape(v.me) && ReaderExact(v.me)
    ensures ReaderExact(TakeChunk(v, n).me)
  {
    var (e, e', chunk) := (v.me, TakeChunk(v, n).me, v.inn.bytes[..n]);
    assert Partial(e'.reader) == Partial(e.reader) + chunk by {
      if e.reader.phase.InPayload? {
        ConcatAssociates(Header(e.reader.phase.length), e.reader.phase.body, chunk);
      }
    }
    ConcatAssociates(EncodeAll(e.log.forwarded), Partial(e.reader), chunk);
    DropEmpty(e);
    DropEmpty(e');
  }

  /** As long as nothing was dropped, the last part of `ReaderExact` plays no role. */
  lemma DropEmpty(e: Endpoint)
    requires e.log.dropped == []
    ensures ReaderExact(e) <==> e.log.consumed == EncodeAll(e.log.forwarded) + Partial(e.reader)
  {
    assert EncodeAll(e.log.forwarded) + Partial(e.reader) + [] == EncodeAll(e.log.forwarded) + Partial(e.reader);
  }

  lemma FinishReadExact(e: Endpoint)
    requires !e.reader.phase.Idle? && Need(e.reader.phase) == 0 && e.reader.cell.alive
    requires e.reader.phase.InHeader? ==> |e.reader.phase.got| == HEADER_SIZE
    requires ReaderShape(e) && ReaderExact(e)
    ensures ReaderExact(FinishRead(e))
  {
    var e' := FinishRead(e);
    DropEmpty(e);
    DropEmpty(e');
    match e.reader.phase
    case InHeader(got) => HeaderRoundTrip(0, got);
    case InPayload(n, body) =>
      if e.session.cell.alive {
        EncodeAllAppend(e.log.forwarded, body);
        assert EncodeAll(e'.log.forwarded) + [] == EncodeAll(e'.log.forwarded);
      }
  }

  lemma EndOfStreamExact(e: Endpoint)
    requires e.reader.cell.alive && !e.reader.phase.Idle? && ReaderShape(e) && ReaderExact(e)
    ensures ReaderExact(EndOfStream(e))
  {
    DropEmpty(e);
    assert EncodeAll(e.log.forwarded) + [] == EncodeAll(e.log.forwarded);
    assert [] + Partial(e.reader) == Partial(e.reader);
  }

  lemma ReaderExactKept(v: View, op: Op)
    requires Enabled(v, op) && ReaderShape(v.me) && ReaderExact(v.me)
    requires op.ReaderIoError? ==> Partial(v.me.reader) == []
    ensures ReaderExact(Apply(v, op).me)
  {
    if !ReaderOp(op) {
      OthersKeepReader(v, op);
    } else {
      if op.ReaderChunk? {
        TakeChunkExact(v, op.count);
      } else if op.ReaderFinish? {
        FinishReadExact(v.me);
      } else if op.ReaderEof? {
        EndOfStreamExact(v.me);
      } else {
        assert Partial(Apply(v, op).me.reader) == Partial(v.me.reader);
      }
    }
  }

  /** How many of the bytes taken off the wire are in none of the places where `ReaderExact` puts them. */
  function Unaccounted(e: Endpoint): int {
    |e.log.consumed| - |EncodeAll(e.log.forwarded)| - |Partial(e.reader)| - |e.log.dropped|
  }

  lemma FinishReadUnaccounted(e: Endpoint)
    requires e.reader.cell.alive && !e.reader.phase.Idle? && ReaderShape(e)
    requires e.reader.phase.InHeader? ==> |e.reader.phase.got| == HEADER_SIZE
    ensures Unaccounted(FinishRead(e)) == Unaccounted(e)
  {
    if e.reader.phase.InPayload? {
      EncodeAllAppend(e.log.forwarded, e.reader.phase.body);
    } else {
      HeaderRoundTrip(0, e.reader.phase.got);
    }
  }

  /** A read error loses the bytes of the current frame taken so far, and nothing ever finds them again. */
  lemma UnaccountedKept(v: View, op: Op)
    requires Enabled(v, op) && ReaderShape(v.me)
    ensures Unaccounted(Apply(v, op).me)
            == Unaccounted(v.me) + if op.ReaderIoError? then |Partial(v.me.reader)| else 0
  {
    if !ReaderOp(op) {
      OthersKeepReader(v, op);
    } else if op.ReaderFinish? {
      FinishReadUnaccounted(v.me);
    }
  }

  lemma ReceiverOrderKept(v: View, op: Op)
    requires Enabled(v, op) && ReceiverOrder(v.me)
    ensures ReceiverOrder(Apply(v, op).me)
  {
    var mailbox := v.me.session.cell.mailbox;
    match op
    case ClientSend(f) =>
      MailboxAppend(mailbox, Send(f));
    case ReaderFinish =>
      if v.me.reader.phase.InPayload? {
        MailboxAppend(mailbox, FrameReady(v.me.reader.phase.body));
      }
    case _ =>
  }

  predicate WriterOp(op: Op) {
    op.WriterTake? || op.WriterPush? || op.WriterFinish? || op.LengthWriteFails? || op.BodyWriteFails?
  }

  /** What the other steps can do to the writer's work: nothing. */
  lemma OthersKeepWriter(v: View, op: Op)
    requires Enabled(v, op) && !WriterOp(op)
    ensures var (e, e') := (v.me, Apply(v, op).me);
            && e'.writer.phase == e.writer.phase && e'.log.begun == e.log.begun && e'.log.written == e.log.written
            && e'.log.lost == e.log.lost && (e.writer.cell.stopping ==> e'.writer.cell.stopping)
  {
  }

  lemma WriterShapeKept(v: View, op: Op)
    requires Enabled(v, op) && WriterShape(v.me)
    ensures WriterShape(Apply(v, op).me)
  {
    if !WriterOp(op) {
      OthersKeepWriter(v, op);
    } else if op.WriterPush? {
      PushShape(v, op.count);
    } else if op.WriterTake? {
      TakeUpShape(v.me);
    }
  }

  lemma PushShape(v: View, n: nat)
    requires v.me.writer.phase.InLength? || v.me.writer.phase.InBody?
    requires 0 < n <= |v.me.writer.phase.todo| && WriterShape(v.me)
    ensures WriterShape(Push(v, n).me)
  {
  }

  lemma TakeUpShape(e: Endpoint)
    requires e.writer.cell.mailbox != [] && WriterShape(e)
    ensures WriterShape(TakeUp(e))
  {
    var (f, begun) := (e.writer.cell.mailbox[0], TakeUp(e).log.begun);
    assert begun[|begun| - 1] == f;
  }

  lemma WithoutAppend(fs: seq<Frame>, f: Frame, lost: map<nat, Part>)
    ensures Without(fs + [f], lost) == Without(fs, lost) + if |fs| + 1 in lost then [] else [f]
  {
    assert (fs + [f])[..|fs|] == fs;
  }

  /** Only places that exist matter. */
  lemma {:induction false} WithoutAgrees(fs: seq<Frame>, lost: map<nat, Part>, gone: map<nat, Part>)
    requires forall k | 0 < k <= |fs| :: k in lost <==> k in gone
    ensures Without(fs, lost) == Without(fs, gone)
  {
    if fs != [] {
      WithoutAgrees(fs[..|fs| - 1], lost, gone);
    }
  }

  lemma {:induction false} WithoutNothing(fs: seq<Frame>)
    ensures Without(fs, map[]) == fs
  {
    if fs != [] {
      WithoutNothing(fs[..|fs| - 1]);
    }
  }

  lemma {:induction false} WithoutPrefix(fs: seq<Frame>, gs: seq<Frame>, lost: map<nat, Part>)
    requires fs <= gs
    ensures Without(fs, lost) <= Without(gs, lost)
  {
    if |fs| < |gs| {
      WithoutPrefix(fs, gs[..|gs| - 1], lost);
    } else {
      assert fs == gs;
    }
  }

  /** Frames not yet taken up have not been dropped. */
  lemma {:induction false} WithoutConcat(fs: seq<Frame>, gs: seq<Frame>, lost: map<nat, Part>)
    requires forall k | k in lost :: k <= |fs|
    ensures Without(fs + gs, lost) == Without(fs, lost) + gs
  {
    if gs == [] {
      assert fs + gs == fs && Without(fs, lost) + gs == Without(fs, lost);
    } else {
      var (front, last) := (gs[..|gs| - 1], gs[|gs| - 1]);
      WithoutConcat(fs, front, lost);
      WithoutAppend(fs + front, last, lost);
      assert fs + gs == (fs + front) + [last] && gs == front + [last];
      ConcatAssociates(Without(fs, lost), front, [last]);
    }
  }

  lemma TakeUpAttempted(e: Endpoint)
    requires e.writer.cell.mailbox != [] && WriterShape(e)
    ensures Attempted(TakeUp(e)) == Attempted(e) + [e.writer.cell.mailbox[0]]
  {
    WithoutAppend(e.log.begun, e.writer.cell.mailbox[0], e.log.lost);
  }

  /** Giving up the last frame takes it out of those attempted, and no other. */
  lemma DropFrameAttempted(e: Endpoint)
    requires e.writer.phase.InLength? && e.log.begun != [] && |e.log.begun| !in e.log.lost
    ensures Attempted(e) == Attempted(DropFrame(e)) + [e.log.begun[|e.log.begun| - 1]]
  {
    WithoutAgrees(e.log.begun[..|e.log.begun| - 1], e.log.lost, DropFrame(e).log.lost);
  }

  lemma {:induction false} OnWireAgrees(fs: seq<Frame>, lost: map<nat, Part>, gone: map<nat, Part>)
    requires forall k | 0 < k <= |fs| :: OutcomeOf(lost, k) == OutcomeOf(gone, k)
    ensures OnWire(fs, lost) == OnWire(fs, gone)
  {
    if fs != [] {
      OnWireAgrees(fs[..|fs| - 1], lost, gone);
    }
  }

  lemma TakeUpTotal(e: Endpoint)
    requires e.writer.phase.Resting? && e.writer.cell.mailbox != [] && WriterShape(e) && WriterTotal(e)
    ensures WriterTotal(TakeUp(e))
  {
    var f := e.writer.cell.mailbox[0];
    assert (e.log.begun + [f])[..|e.log.begun|] == e.log.begun;
    assert e.log.written + [] == e.log.written;
  }

  lemma PushTotal(v: View, n: nat)
    requires v.me.writer.phase.InLength? || v.me.writer.phase.InBody?
    requires n <= |v.me.writer.phase.todo| && WriterTotal(v.me)
    ensures WriterTotal(Push(v, n).me)
  {
    var (written, phase) := (v.me.log.written, v.me.writer.phase);
    var chunk, left := phase.todo[..n], phase.todo[n..];
    assert phase.todo == chunk + left;
    if phase.InBody? {
      ConcatAssociates(written, chunk, left);
    } else {
      ConcatAssociates(chunk, left, phase.frame);
      ConcatAssociates(written, chunk, left + phase.frame);
      assert left == [] ==> left + phase.frame == phase.frame;
    }
  }

  lemma TornLength<T>(written: seq<T>, before: seq<T>, sent: seq<T>, todo: seq<T>, f: seq<T>)
    requires written + (todo + f) == before + ((sent + todo) + f)
    ensures written == before + sent
  {
    ConcatAssociates(sent, todo, f);
    ConcatAssociates(before, sent, todo + f);
    ConcatCancels(written, before + sent, todo + f);
  }

  lemma DropFrameTotal(e: Endpoint)
    requires e.writer.phase.InLength? && WriterShape(e) && WriterTotal(e)
    ensures WriterTotal(DropFrame(e))
  {
    var (front, f, todo) := (e.log.begun[..|e.log.begun| - 1], e.writer.phase.frame, e.writer.phase.todo);
    var (before, sent) := (OnWire(front, e.log.lost), Header(|f|)[..SentOfLength(todo)]);
    assert Header(|f|) == sent + todo;
    TornLength(e.log.written, before, sent, todo, f);
    OnWireAgrees(front, e.log.lost, DropFrame(e).log.lost);
    assert e.log.written + [] == e.log.written;
  }

  lemma WriterTotalKept(v: View, op: Op)
    requires Enabled(v, op) && WriterShape(v.me) && WriterTotal(v.me)
    ensures WriterTotal(Apply(v, op).me)
  {
    if op.WriterTake? {
      TakeUpTotal(v.me);
    } else if op.WriterPush? {
      PushTotal(v, op.count);
    } else if op.LengthWriteFails? {
      DropFrameTotal(v.me);
    } else if !WriterOp(op) {
      OthersKeepWriter(v, op);
    }
  }

  /** No part of a length was sent for a frame that was dropped. */
  predicate NothingTorn(lost: map<nat, Part>) {
    forall k | k in lost :: lost[k] == 0
  }

  /** With no part of a length sent, the wire holds the frames attempted and nothing else. */
  lemma {:induction false} OnWireWhole(fs: seq<Frame>, lost: map<nat, Part>)
    requires NothingTorn(lost)
    ensures OnWire(fs, lost) == EncodeAll(Without(fs, lost))
  {
    if fs != [] {
      var (front, last) := (fs[..|fs| - 1], fs[|fs| - 1]);
      OnWireWhole(front, lost);
      if |fs| in lost {
        assert Header(|last|)[..0] == [] && OnWire(front, lost) + [] == OnWire(front, lost);
        assert Without(front, lost) + [] == Without(front, lost);
      } else {
        EncodeAllAppend(Without(front, lost), last);
      }
    }
  }

  /** Otherwise it holds more: the parts sent of the lengths of frames dropped. */
  lemma {:induction false} OnWireTorn(fs: seq<Frame>, lost: map<nat, Part>)
    ensures |EncodeAll(Without(fs, lost))| <= |OnWire(fs, lost)|
    ensures (exists k :: k in lost && 0 < k <= |fs| && lost[k] > 0) ==>
              |EncodeAll(Without(fs, lost))| < |OnWire(fs, lost)|
  {
    if fs != [] {
      var (front, last) := (fs[..|fs| - 1], fs[|fs| - 1]);
      OnWireTorn(front, lost);
      if |fs| in lost {
        assert Without(front, lost) + [] == Without(front, lost);
      } else {
        EncodeAllAppend(Without(front, lost), last);
      }
    }
  }

  /** Every frame dropped leaves the wire short of what was taken up. */
  lemma {:induction false} OnWireShort(fs: seq<Frame>, lost: map<nat, Part>)
    ensures |OnWire(fs, lost)| <= |EncodeAll(fs)|
    ensures (exists k :: k in lost && 0 < k <= |fs|) ==> |OnWire(fs, lost)| < |EncodeAll(fs)|
  {
    if fs != [] {
      var (front, last) := (fs[..|fs| - 1], fs[|fs| - 1]);
      OnWireShort(front, lost);
      EncodeAllAppend(front, last);
      assert fs == front + [last];
    }
  }

  /** How many bytes were written that belong to no frame attempted. */
  function Surplus(e: Endpoint): int {
    |e.log.written| + |Todo(e.writer.phase)| - |EncodeAll(Attempted(e))|
  }

  lemma TotalMeans(e: Endpoint)
    requires WriterShape(e) && WriterTotal(e)
    ensures WriterExact(e) <==> NothingTorn(e.log.lost)
    ensures NothingTorn(e.log.lost) || Surplus(e) > 0
    ensures |e.log.written| + |Todo(e.writer.phase)| <= |EncodeAll(e.log.begun)|
    ensures e.log.lost == map[] || |e.log.written| + |Todo(e.writer.phase)| < |EncodeAll(e.log.begun)|
  {
    if NothingTorn(e.log.lost) {
      OnWireWhole(e.log.begun, e.log.lost);
    }
    OnWireTorn(e.log.begun, e.log.lost);
    OnWireShort(e.log.begun, e.log.lost);
    assert |e.log.written + Todo(e.writer.phase)| == |e.log.written| + |Todo(e.writer.phase)|;
    if e.log.lost != map[] {
      var k :| k in e.log.lost;
    }
  }

  lemma AcceptSendOrder(e: Endpoint, f: Frame)
    requires e.session.cell.alive && SenderOrder(e)
    ensures SenderOrder(AcceptSend(e, f))
  {
    var (mailbox, held) := (e.session.cell.mailbox, e.log.begun + e.writer.cell.mailbox);
    MailboxAppend(mailbox, Send(f));
    ConcatAssociates(held, Sends(mailbox), [f]);
  }

  lemma OneMoves<T>(begun: seq<T>, queue: seq<T>, f: T, unsent: seq<T>)
    ensures (begun + queue) + ([f] + unsent) == (begun + (queue + [f])) + unsent
  {
    ConcatAssociates(begun, queue, [f]);
    ConcatAssociates(begun + queue, [f], unsent);
  }

  lemma HandleMessageOrder(e: Endpoint, accepts: bool)
    requires e.session.cell.mailbox != [] && SenderOrder(e)
    ensures SenderOrder(HandleMessage(e, accepts))
  {
    var mailbox := e.session.cell.mailbox;
    if mailbox[0].Send? {
      OneMoves(e.log.begun, e.writer.cell.mailbox, mailbox[0].frame, Sends(mailbox[1..]));
    } else {
      assert Sends(mailbox) == Sends(mailbox[1..]);
    }
  }

  lemma TakeUpOrder(e: Endpoint)
    requires e.writer.cell.mailbox != [] && SenderOrder(e)
    ensures SenderOrder(TakeUp(e))
  {
    var queue := e.writer.cell.mailbox;
    ConcatAssociates(e.log.begun, [queue[0]], queue[1..]);
    assert [queue[0]] + queue[1..] == queue;
  }

  lemma SenderOrderKept(v: View, op: Op)
    requires Enabled(v, op) && SenderOrder(v.me)
    ensures SenderOrder(Apply(v, op).me)
  {
    match op
    case ClientSend(f) => AcceptSendOrder(v.me, f);
    case SessionMessage(accepts) => HandleMessageOrder(v.me, accepts);
    case WriterTake => TakeUpOrder(v.me);
    case ReaderFinish =>
      if v.me.reader.phase.InPayload? {
        MailboxAppend(v.me.session.cell.mailbox, FrameReady(v.me.reader.phase.body));
      }
    case _ =>
  }

  lemma SupervisedKept(v: View, op: Op)
    requires Enabled(v, op) && Supervised(v.me)
    ensures Supervised(Apply(v, op).me)
  {
    var e := v.me;
    if op.SessionEvent? {
      assert e.session.events == [e.session.events[0]] + e.session.events[1..];
    }
  }

  // ---------- The wires ----------

  /** What was taken off a wire and what is still on it are the first bytes written, all of them unless cut. */
  ghost predicate WireFlow(written: seq<Byte>, w: Wire, consumed: seq<Byte>) {
    && consumed + w.bytes <= written
    && (!w.cut ==> consumed + w.bytes == written)
    && (w.cut ==> w.closed)
  }

  /** A reader that dropped its stream had taken everything and none will follow. */
  ghost predicate Exhausted(r: ReaderState, w: Wire) {
    r.cell.alive && !r.open ==> w.closed && w.bytes == []
  }

  lemma InWireKept(v: View, op: Op, written: seq<Byte>)
    requires Enabled(v, op)
    requires WireFlow(written, v.inn, v.me.log.consumed) && Exhausted(v.me.reader, v.inn)
    ensures WireFlow(written, Apply(v, op).inn, Apply(v, op).me.log.consumed)
    ensures Exhausted(Apply(v, op).me.reader, Apply(v, op).inn)
  {
    if op.ReaderChunk? {
      var n := op.count;
      ConcatAssociates(v.me.log.consumed, v.inn.bytes[..n], v.inn.bytes[n..]);
      assert v.inn.bytes == v.inn.bytes[..n] + v.inn.bytes[n..];
    } else if !ReaderOp(op) {
      OthersKeepReader(v, op);
    }
  }

  lemma OutWireKept(v: View, op: Op, peer: ReaderState, consumed: seq<Byte>)
    requires Enabled(v, op)
    requires WireFlow(v.me.log.written, v.out, consumed) && Exhausted(peer, v.out)
    ensures WireFlow(Apply(v, op).me.log.written, Apply(v, op).out, consumed)
    ensures Exhausted(peer, Apply(v, op).out)
  {
  }

  // ---------- Over whole runs ----------

  ghost predicate EndInv(e: Endpoint) {
    ReaderShape(e) && ReceiverOrder(e) && WriterShape(e) && SenderOrder(e) && Supervised(e)
  }

  ghost predicate LineInv(s: Net, d: Side) {
    && WireFlow(At(s, Other(d)).me.log.written, At(s, d).inn, At(s, d).me.log.consumed)
    && Exhausted(At(s, d).me.reader, At(s, d).inn)
  }

  lemma InvariantsHere(v: View, op: Op, written: seq<Byte>)
    requires Enabled(v, op) && EndInv(v.me)
    requires WireFlow(written, v.inn, v.me.log.consumed) && Exhausted(v.me.reader, v.inn)
    ensures var v' := Apply(v, op);
            EndInv(v'.me) && WireFlow(written, v'.inn, v'.me.log.consumed) && Exhausted(v'.me.reader, v'.inn)
  {
    ReaderShapeKept(v, op);
    ReceiverOrderKept(v, op);
    WriterShapeKept(v, op);
    SenderOrderKept(v, op);
    SupervisedKept(v, op);
    InWireKept(v, op, written);
  }

  /** One step of a run, seen from both ends. */
  lemma StepSeen(run: Run)
    requires run.Then? && Valid(run)
    ensures At(End(run), run.side) == Apply(At(End(run.prior), run.side), run.op)
    ensures At(End(run), Other(run.side)).me == At(End(run.prior), Other(run.side)).me
    ensures At(End(run), Other(run.side)).inn == Apply(At(End(run.prior), run.side), run.op).out
  {
  }

  lemma {:induction false} Invariants(run: Run, d: Side)
    requires Valid(run)
    ensures EndInv(At(End(run), d).me) && LineInv(End(run), d)
  {
    if run.Then? {
      var (s, side, op) := (End(run.prior), run.side, run.op);
      Invariants(run.prior, d);
      StepSeen(run);
      if side == d {
        InvariantsHere(At(s, d), op, At(s, Other(d)).me.log.written);
      } else {
        OutWireKept(At(s, side), op, At(s, d).me.reader, At(s, d).me.log.consumed);
      }
    }
  }

  /** The reader's books are exact if and only if no read failed with part of a frame already taken;
      bytes lost that way are never recovered. */
  lemma {:induction false} ReaderAlignment(run: Run, d: Side)
    requires Valid(run)
    ensures ReaderExact(At(End(run), d).me) <==> AlignedReads(run, d)
    ensures AlignedReads(run, d) || Unaccounted(At(End(run), d).me) > 0
  {
    if run.Then? {
      var (v, op) := (At(End(run.prior), d), run.op);
      ReaderAlignment(run.prior, d);
      Invariants(run.prior, d);
      StepSeen(run);
      if run.side == d {
        UnaccountedKept(v, op);
        if AlignedReads(run, d) {
          ReaderExactKept(v, op);
        }
      }
      ExactLeavesNothing(At(End(run), d).me);
    }
  }

  lemma ExactLeavesNothing(e: Endpoint)
    ensures ReaderExact(e) ==> Unaccounted(e) == 0
  {
  }

  /** Over all runs, whatever failed: what is written is what the writes of the frames put on the wire. */
  lemma {:induction false} WriterTotalAlways(run: Run, d: Side)
    requires Valid(run)
    ensures WriterTotal(At(End(run), d).me)
  {
    if run.Then? {
      WriterTotalAlways(run.prior, d);
      Invariants(run.prior, d);
      StepSeen(run);
      if run.side == d {
        WriterTotalKept(At(End(run.prior), d), run.op);
      }
    }
  }

  lemma LostKept(v: View, op: Op)
    requires Enabled(v, op) && WriterShape(v.me)
    ensures var (lost, lost') := (v.me.log.lost, Apply(v, op).me.log.lost);
            if op.LengthWriteFails? then
              && lost' != map[] && (NothingTorn(lost') <==> NothingTorn(lost) && LengthUntouched(v.me.writer.phase))
            else lost' == lost
  {
    if op.LengthWriteFails? {
      var (begun, lost) := (v.me.log.begun, v.me.log.lost);
      var lost' := lost[|begun| := SentOfLength(v.me.writer.phase.todo)];
      assert |begun| in lost' && forall k | k in lost :: k in lost' && lost'[k] == lost[k];
    } else if !WriterOp(op) {
      OthersKeepWriter(v, op);
    }
  }

  /** The frames dropped, by the steps of the run. */
  lemma {:induction false} LostByRun(run: Run, d: Side)
    requires Valid(run)
    ensures NothingTorn(At(End(run), d).me.log.lost) <==> AlignedLengths(run, d)
    ensures At(End(run), d).me.log.lost == map[] <==> NoLengthFailure(run, d)
  {
    if run.Then? {
      LostByRun(run.prior, d);
      Invariants(run.prior, d);
      StepSeen(run);
      if run.side == d {
        LostKept(At(End(run.prior), d), run.op);
      }
    }
  }

  /** The bytes written are whole frames so far if and only if no length write failed part-way. */
  lemma {:induction false} WriterAlignment(run: Run, d: Side)
    requires Valid(run)
    ensures WriterExact(At(End(run), d).me) <==> AlignedLengths(run, d)
    ensures AlignedLengths(run, d) || Surplus(At(End(run), d).me) > 0
  {
    Invariants(run, d);
    WriterTotalAlways(run, d);
    LostByRun(run, d);
    TotalMeans(At(End(run), d).me);
  }
}
