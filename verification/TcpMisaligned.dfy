/** What read and write errors can do: a run in which carrying on after a read error makes the receiver
    hold a frame that nobody sent, and one in which a failed length write loses a frame for good. */
module TcpMisaligned {
  import opened Framing
  import opened Runtime
  import opened TcpActors
  import opened TcpNetwork

  /** Eight payload bytes that read as the length header of an empty frame. */
  const BAIT: Frame := Header(0)

  const EMPTY_FRAME: Frame := []

  const SETTLED := NEW_ENDPOINT.(session := NEW_ENDPOINT.session.(events := []))

  const SENDER := SETTLED.(
    writer := WriterState(Spawned([]), InBody([])),
    log := Log([BAIT], [BAIT], map[], Encode(BAIT), [], [], []))

  /** The right end while nothing is received, and then with what the reader has done. */
  function Reading(mailbox: seq<ReaderMsg>, phase: ReadPhase, consumed: seq<Byte>): Endpoint {
    SETTLED.(reader := ReaderState(Spawned(mailbox), true, phase), log := Log([], [], map[], [], consumed, [], []))
  }

  function Sent(from: Endpoint, right: Endpoint, flight: seq<Byte>): Net {
    Net(from, right, NEW_WIRE, Wire(flight, false, false))
  }

  ghost predicate Sound(run: Run) {
    Valid(run) && AlignedLengths(run, Left)
  }

  /** `longer` went on from `run` without a new failure that struck part-way. */
  ghost predicate SoundFrom(run: Run, longer: Run) {
    Sound(longer) && (AlignedReads(run, Right) ==> AlignedReads(longer, Right))
  }

  lemma BothSettled() returns (run: Run)
    ensures SoundFrom(Start, run) && End(run) == Net(SETTLED, SETTLED, NEW_WIRE, NEW_WIRE)
  {
    var events := NEW_ENDPOINT.session.events;
    assert events[1..][1..] == [];
    run := Then(Then(Start, Left, SessionEvent), Left, SessionEvent);
    assert End(run) == Net(SETTLED, NEW_ENDPOINT, NEW_WIRE, NEW_WIRE);
    assert SoundFrom(Start, run);
    run := Then(Then(run, Right, SessionEvent), Right, SessionEvent);
  }

  lemma BaitQueued() returns (run: Run)
    ensures SoundFrom(Start, run)
    ensures End(run) == Net(SETTLED.(writer := WriterState(Spawned([BAIT]), Resting),
                                     log := Log([BAIT], [], map[], [], [], [], [])),
                            SETTLED, NEW_WIRE, NEW_WIRE)
  {
    run := BothSettled();
    run := Then(run, Left, ClientSend(BAIT));
    assert [] + [Send(BAIT)] == [Send(BAIT)] && [] + [BAIT] == [BAIT];
    assert End(run).left == SETTLED.(session := SETTLED.session.(cell := Spawned([Send(BAIT)])),
                                     log := Log([BAIT], [], map[], [], [], [], []));
    assert [Send(BAIT)][1..] == [];
    run := Then(run, Left, SessionMessage(true));
  }

  lemma BaitTaken() returns (run: Run)
    ensures SoundFrom(Start, run)
    ensures End(run) == Net(SETTLED.(writer := WriterState(Spawned([]), InLength(Header(HEADER_SIZE), BAIT)),
                                     log := Log([BAIT], [BAIT], map[], [], [], [], [])),
                            SETTLED, NEW_WIRE, NEW_WIRE)
  {
    run := BaitQueued();
    assert [] + [BAIT] == [BAIT] && [BAIT][1..] == [];
    run := Then(run, Left, WriterTake);
  }

  lemma BaitSent() returns (run: Run)
    ensures Sound(run) && End(run) == Sent(SENDER, SETTLED, Encode(BAIT))
  {
    run := BaitTaken();
    var length := Header(HEADER_SIZE);
    assert length[..HEADER_SIZE] == length && length[HEADER_SIZE..] == [] && [] + length == length;
    assert BAIT[..HEADER_SIZE] == BAIT && BAIT[HEADER_SIZE..] == [];
    run := Then(run, Left, WriterPush(HEADER_SIZE));
    run := Then(run, Left, WriterPush(HEADER_SIZE));
  }

  lemma HeaderTaken(run: Run, from: Endpoint, header: seq<Byte>, consumed: seq<Byte>, flight: seq<Byte>)
    returns (longer: Run)
    requires Sound(run) && |header| == HEADER_SIZE
    requires End(run) == Sent(from, Reading([WaitForFrame], Idle, consumed), header + flight)
    ensures SoundFrom(run, longer)
    ensures End(longer) == Sent(from, Reading([], InHeader(header), consumed + header), flight)
  {
    longer := Then(run, Right, ReaderTake);
    assert End(longer) == Sent(from, Reading([], InHeader([]), consumed), header + flight);
    assert (header + flight)[..HEADER_SIZE] == header && (header + flight)[HEADER_SIZE..] == flight;
    assert [] + header == header;
    longer := Then(longer, Right, ReaderChunk(HEADER_SIZE));
  }

  lemma HeaderFinished(e: Endpoint, header: seq<Byte>, n: Length)
    requires |header| == HEADER_SIZE && DecodeBE(header) == n
    requires e.reader == ReaderState(Spawned([]), true, InHeader(header))
    ensures FinishRead(e) == e.(reader := ReaderState(Spawned([ReadFrame(n)]), true, Idle))
  {
    assert [] + [ReadFrame(n)] == [ReadFrame(n)];
  }

  lemma PayloadBegun(r: ReaderState, n: Length)
    requires r == ReaderState(Spawned([ReadFrame(n)]), true, Idle)
    ensures BeginRead(r) == ReaderState(Spawned([]), true, InPayload(n, []))
  {
    assert [ReadFrame(n)][1..] == [];
  }

  lemma PayloadTurn(run: Run, from: Endpoint, n: Length, consumed: seq<Byte>, flight: seq<Byte>)
    returns (longer: Run)
    requires Sound(run) && End(run) == Sent(from, Reading([ReadFrame(n)], Idle, consumed), flight)
    ensures SoundFrom(run, longer) && End(longer) == Sent(from, Reading([], InPayload(n, []), consumed), flight)
  {
    PayloadBegun(End(run).right.reader, n);
    longer := Then(run, Right, ReaderTake);
  }

  lemma HeaderTurn(run: Run, from: Endpoint, header: seq<Byte>, n: Length, consumed: seq<Byte>, flight: seq<Byte>)
    returns (longer: Run)
    requires Sound(run) && |header| == HEADER_SIZE && DecodeBE(header) == n
    requires End(run) == Sent(from, Reading([], InHeader(header), consumed), flight)
    ensures SoundFrom(run, longer) && End(longer) == Sent(from, Reading([ReadFrame(n)], Idle, consumed), flight)
  {
    HeaderFinished(End(run).right, header, n);
    longer := Then(run, Right, ReaderFinish);
  }

  /** One whole length header read off the wire, and its `ReadFrame` taken up. */
  lemma HeaderRead(run: Run, from: Endpoint, header: seq<Byte>, n: Length, consumed: seq<Byte>, flight: seq<Byte>)
    returns (longer: Run)
    requires Sound(run) && |header| == HEADER_SIZE && DecodeBE(header) == n
    requires End(run) == Sent(from, Reading([WaitForFrame], Idle, consumed), header + flight)
    ensures SoundFrom(run, longer)
    ensures End(longer) == Sent(from, Reading([], InPayload(n, []), consumed + header), flight)
  {
    longer := HeaderTaken(run, from, header, consumed, flight);
    longer := HeaderTurn(longer, from, header, n, consumed + header, flight);
    longer := PayloadTurn(longer, from, n, consumed + header, flight);
  }

  /** The empty frame just read is handed to the session and on to the receiver. */
  lemma EmptyFrameReceived(run: Run, from: Endpoint, consumed: seq<Byte>) returns (longer: Run)
    requires Sound(run) && End(run) == Sent(from, Reading([], InPayload(0, []), consumed), [])
    ensures SoundFrom(run, longer)
    ensures End(longer).left == from && End(longer).right.session.received == [[]]
  {
    longer := Then(run, Right, ReaderFinish);
    assert End(longer).right.session.cell.mailbox == [FrameReady([])];
    longer := Then(longer, Right, SessionMessage(true));
  }

  lemma BaitMistaken() returns (run: Run)
    ensures Sound(run)
    ensures End(run) == Sent(SENDER, Reading([], InPayload(0, []), [] + Header(HEADER_SIZE) + BAIT), [])
  {
    HeaderRoundTrip(HEADER_SIZE, BAIT);
    HeaderRoundTrip(0, BAIT);
    run := BaitSent();
    run := HeaderRead(run, SENDER, Header(HEADER_SIZE), HEADER_SIZE, [], BAIT);
    run := Then(run, Right, ReaderIoError);
    assert BAIT + [] == BAIT;
    run := HeaderRead(run, SENDER, BAIT, 0, [] + Header(HEADER_SIZE), []);
  }

  /** One read error, and the payload of the only frame sent is taken for the header of another. */
  lemma ReadErrorForgesFrame() returns (run: Run)
    ensures Valid(run) && AlignedLengths(run, Left)
    ensures End(run).right.session.received == [[]] && End(run).left.log.accepted == [BAIT]
    ensures !(End(run).right.session.received <= End(run).left.log.accepted)
  {
    run := BaitMistaken();
    run := EmptyFrameReceived(run, SENDER, [] + Header(HEADER_SIZE) + BAIT);
    var forged := End(run).right.session.received;
    assert forged[0] == [] && |BAIT| == HEADER_SIZE;
  }

  // ---------- A frame dropped ----------

  /** The left end after its first frame's length write failed, with an empty frame to follow. */
  function Dropping(writer: WriterState, begun: seq<Frame>, written: seq<Byte>): Endpoint {
    SETTLED.(writer := writer, log := Log([BAIT, EMPTY_FRAME], begun, map[1 := 0], written, [], [], []))
  }

  lemma LengthFailedWhole() returns (run: Run)
    ensures SoundFrom(Start, run)
    ensures End(run)
            == Net(SETTLED.(log := Log([BAIT], [BAIT], map[1 := 0], [], [], [], [])), SETTLED, NEW_WIRE, NEW_WIRE)
  {
    run := BaitTaken();
    run := Then(run, Left, LengthWriteFails);
    assert map[][1 := 0] == map[1 := 0];
  }

  lemma NextQueued() returns (run: Run)
    ensures SoundFrom(Start, run)
    ensures End(run)
            == Net(Dropping(WriterState(Spawned([EMPTY_FRAME]), Resting), [BAIT], []), SETTLED, NEW_WIRE, NEW_WIRE)
  {
    run := LengthFailedWhole();
    run := Then(run, Left, ClientSend(EMPTY_FRAME));
    assert [] + [Send(EMPTY_FRAME)] == [Send(EMPTY_FRAME)];
    assert [BAIT] + [EMPTY_FRAME] == [BAIT, EMPTY_FRAME] && [] + [EMPTY_FRAME] == [EMPTY_FRAME];
    assert End(run).left.session.cell == Spawned([Send(EMPTY_FRAME)]);
    assert [Send(EMPTY_FRAME)][1..] == [];
    run := Then(run, Left, SessionMessage(true));
  }

  lemma NextSent() returns (run: Run)
    ensures SoundFrom(Start, run)
    ensures var from := Dropping(WriterState(Spawned([]), InBody([])), [BAIT, EMPTY_FRAME], Header(0));
            End(run) == Sent(from, SETTLED, Header(0))
  {
    run := NextQueued();
    assert [BAIT] + [EMPTY_FRAME] == [BAIT, EMPTY_FRAME] && [EMPTY_FRAME][1..] == [];
    run := Then(run, Left, WriterTake);
    assert End(run).left
           == Dropping(WriterState(Spawned([]), InLength(Header(0), EMPTY_FRAME)), [BAIT, EMPTY_FRAME], []);
    assert Header(0)[..HEADER_SIZE] == Header(0) && Header(0)[HEADER_SIZE..] == [] && [] + Header(0) == Header(0);
    run := Then(run, Left, WriterPush(HEADER_SIZE));
  }

  /** A length write that fails without sending a byte leaves everything aligned, and loses its frame:
      of two frames sent, the receiver is handed the second only. */
  lemma LengthErrorLosesFrame() returns (run: Run)
    ensures Valid(run) && AlignedReads(run, Right) && AlignedLengths(run, Left)
    ensures End(run).left.log.accepted == [BAIT, EMPTY_FRAME] && End(run).right.session.received == [[]]
    ensures !(End(run).right.session.received <= End(run).left.log.accepted)
  {
    run := NextSent();
    var from := End(run).left;
    HeaderRoundTrip(0, Header(0));
    assert Header(0) + [] == Header(0);
    run := HeaderRead(run, from, Header(0), 0, [], []);
    run := EmptyFrameReceived(run, from, [] + Header(0));
    var received := End(run).right.session.received;
    assert received[0] == [] && |BAIT| == HEADER_SIZE;
  }
}
