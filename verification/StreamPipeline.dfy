/** A stream pump running concurrently with the multiplexer it feeds, and what every interleaving
    of the two delivers. */
module StreamPipeline {
  import opened Runtime
  import opened StreamActors
  import opened StreamSpec

  // ---------- The system ----------

  /** `handled` counts the messages the multiplexer has handled. */
  datatype Pipeline = Pipeline(loop: LoopState, mux: MuxState, events: seq<PumpEvent>, handled: nat)

  function Init(u: Setup): Pipeline {
    Pipeline(LoopState(Spawned([()]), 0), Fresh(u), [PumpStarted], 0)
  }

  datatype Step =
    | LoopTurn
    | StreamPanics
    | LoopExit
    | LoopKilled
    | MuxMessage
    | MuxEvent
    | MuxExit
    | OutsideStop

  predicate Enabled(s: Pipeline, step: Step) {
    match step
    case LoopTurn => s.loop.cell.Ready()
    case StreamPanics => s.loop.cell.Ready()
    case LoopExit => s.loop.cell.alive && s.loop.cell.stopping
    case LoopKilled => s.loop.cell.alive && s.loop.cell.killed
    case MuxMessage => s.mux.cell.Ready() && s.events == [] && Known(s.mux.targets, s.mux.world)
    case MuxEvent => s.mux.cell.alive && !s.mux.cell.stopping && s.events != []
    case MuxExit => s.mux.cell.alive && s.mux.cell.stopping
    case OutsideStop => s.mux.cell.alive
  }

  function LoopDies(s: Pipeline, e: PumpEvent): Pipeline {
    s.(loop := s.loop.(cell := s.loop.cell.Die()), events := s.events + [e])
  }

  /** The multiplexer's death kills the pump, which is linked to it. */
  function MuxDies(s: Pipeline): Pipeline {
    s.(mux := s.mux.(cell := s.mux.cell.Die()), loop := s.loop.(cell := s.loop.cell.Kill()))
  }

  function Turn(u: Setup, s: Pipeline): Pipeline
    requires s.loop.cell.mailbox != []
  {
    var (l, cell, ok) := LoopHandle(s.loop.(cell := s.loop.cell.Dequeue()), s.mux.cell, u.src);
    var s' := s.(loop := l, mux := s.mux.(cell := cell));
    if ok then s' else LoopDies(s', PumpFailed)
  }

  function TakeMessage(u: Setup, s: Pipeline): Pipeline
    requires s.mux.cell.mailbox != [] && Known(s.mux.targets, s.mux.world)
  {
    var m := s.mux.(cell := s.mux.cell.Dequeue());
    s.(mux := MuxHandle(u.config, m, s.mux.cell.mailbox[0]), handled := s.handled + 1)
  }

  function Apply(u: Setup, s: Pipeline, step: Step): Pipeline
    requires Enabled(s, step)
  {
    match step
    case LoopTurn => Turn(u, s)
    case StreamPanics => LoopDies(s, PumpFailed)
    case LoopExit => LoopDies(s, PumpTerminated)
    case LoopKilled => s.(loop := s.loop.(cell := s.loop.cell.Die()))
    case MuxMessage => TakeMessage(u, s)
    case MuxEvent =>
      var s' := s.(events := s.events[1..]);
      if s.events[0].PumpFailed? then MuxDies(s') else s'
    case MuxExit => MuxDies(s)
    case OutsideStop => s.(mux := s.mux.(cell := s.mux.cell.Stop()))
  }

  datatype Run = Start | Then(prior: Run, step: Step)

  function End(u: Setup, run: Run): Pipeline {
    match run
    case Start => Init(u)
    case Then(prior, step) =>
      var s := End(u, prior);
      if Enabled(s, step) then Apply(u, s, step) else s
  }

  ghost predicate Valid(u: Setup, run: Run) {
    run.Then? ==> Valid(u, run.prior) && Enabled(End(u, run.prior), run.step)
  }

  /** The stream did not panic and nobody outside stopped the multiplexer. */
  predicate Undisturbed(run: Run) {
    run.Then? ==> Undisturbed(run.prior) && !run.step.StreamPanics? && !run.step.OutsideStop?
  }

  predicate Progress(step: Step) {
    !step.StreamPanics? && !step.OutsideStop?
  }

  /** Nothing is left to happen by itself. */
  ghost predicate Completed(s: Pipeline) {
    forall step :: Progress(step) ==> !Enabled(s, step)
  }

  // ---------- Invariants ----------

  /** The messages from the i-th to before the j-th that the stream gives rise to. */
  function Messages(src: Source, i: nat, j: nat): seq<Option<Item>>
    requires i <= j
  {
    seq(j - i, k requires 0 <= k < j - i => src(i + k))
  }

  ghost predicate MuxFollows(u: Setup, s: Pipeline) {
    var m := Spec(u, s.handled);
    && s.mux.targets == m.targets && s.mux.world == m.world
    && (m.cell.stopping ==> s.mux.cell.stopping)
    && (s.handled > 0 ==> !Spec(u, s.handled - 1).cell.stopping)
  }

  ghost predicate LineFlows(u: Setup, s: Pipeline) {
    && s.handled <= s.loop.calls
    && (s.mux.cell.alive ==> s.mux.cell.mailbox == Messages(u.src, s.handled, s.loop.calls))
  }

  ghost predicate LoopTurns(u: Setup, s: Pipeline) {
    var (cell, calls) := (s.loop.cell, s.loop.calls);
    && (calls > 0 ==> Flows(u.src, calls - 1))
    && (cell.alive && !cell.stopping ==> cell.mailbox == [()] && Flows(u.src, calls))
    && (cell.stopping ==> cell.mailbox == [] && calls > 0 && u.src(calls - 1).None?)
  }

  ghost predicate Linked(s: Pipeline) {
    && (s.loop.cell.killed ==> !s.mux.cell.alive)
    && (s.mux.cell.alive && !s.loop.cell.alive ==> s.loop.cell.stopping || PumpFailed in s.events)
    && (!s.mux.cell.alive ==> !s.loop.cell.alive || s.loop.cell.killed)
    && !s.mux.cell.killed
  }

  ghost predicate Inv(u: Setup, s: Pipeline) {
    MuxFollows(u, s) && LineFlows(u, s) && LoopTurns(u, s) && Linked(s)
  }

  /** What holds besides when nothing disturbs the run: only the multiplexer itself decides to stop. */
  ghost predicate Calm(u: Setup, s: Pipeline) {
    && (PumpFailed in s.events ==> !s.mux.cell.alive)
    && (s.mux.cell.stopping ==> Spec(u, s.handled).cell.stopping)
    && (!s.mux.cell.alive ==> s.mux.cell.stopping)
  }

  lemma HandleIgnoresCell(c: Config, m: MuxState, n: MuxState, msg: Option<Item>)
    requires m.targets == n.targets && m.world == n.world && Known(m.targets, m.world)
    ensures var (m', n') := (MuxHandle(c, m, msg), MuxHandle(c, n, msg));
            && m'.targets == n'.targets && m'.world == n'.world
            && (m'.cell == m.cell || m'.cell == m.cell.Stop())
            && (!n.cell.stopping ==> m'.cell == if n'.cell.stopping then m.cell.Stop() else m.cell)
  {
  }

  /** The message at the head of the mailbox is the next one of the stream. */
  lemma NextMessage(u: Setup, s: Pipeline)
    requires s.mux.cell.Ready() && LineFlows(u, s)
    ensures s.handled < s.loop.calls && s.mux.cell.mailbox[0] == u.src(s.handled)
    ensures s.mux.cell.mailbox[1..] == Messages(u.src, s.handled + 1, s.loop.calls)
  {
  }

  lemma MessageFollows(u: Setup, s: Pipeline)
    requires s.mux.cell.Ready() && Known(s.mux.targets, s.mux.world) && MuxFollows(u, s)
    requires s.mux.cell.mailbox[0] == u.src(s.handled)
    ensures MuxFollows(u, TakeMessage(u, s))
    ensures TakeMessage(u, s).mux.cell.stopping <==> Spec(u, s.handled + 1).cell.stopping
  {
    HandleIgnoresCell(u.config, s.mux.(cell := s.mux.cell.Dequeue()), Spec(u, s.handled), s.mux.cell.mailbox[0]);
  }

  /** One message handled, whatever that does to the targets. */
  ghost predicate OneHandled(s: Pipeline, s': Pipeline)
    requires s.mux.cell.mailbox != []
  {
    && s'.loop == s.loop && s'.events == s.events && s'.handled == s.handled + 1
    && s'.mux.cell.alive && !s'.mux.cell.killed && s'.mux.cell.mailbox == s.mux.cell.mailbox[1..]
  }

  lemma MessageFrame(u: Setup, s: Pipeline)
    requires s.mux.cell.Ready() && Known(s.mux.targets, s.mux.world)
    ensures OneHandled(s, TakeMessage(u, s))
  {
    HandleIgnoresCell(u.config, s.mux.(cell := s.mux.cell.Dequeue()), s.mux, s.mux.cell.mailbox[0]);
  }

  lemma AfterMessage(u: Setup, s: Pipeline, s': Pipeline)
    requires s.mux.cell.Ready() && OneHandled(s, s') && LineFlows(u, s) && LoopTurns(u, s) && Linked(s)
    ensures LineFlows(u, s') && LoopTurns(u, s') && Linked(s')
  {
    NextMessage(u, s);
  }

  lemma MessageKept(u: Setup, s: Pipeline)
    requires Enabled(s, MuxMessage) && Inv(u, s)
    ensures Inv(u, TakeMessage(u, s))
    ensures Calm(u, s) ==> Calm(u, TakeMessage(u, s))
  {
    var s' := TakeMessage(u, s);
    NextMessage(u, s);
    MessageFollows(u, s);
    MessageFrame(u, s);
    AfterMessage(u, s, s');
  }

  lemma TurnLine(u: Setup, s: Pipeline)
    requires s.loop.cell.Ready() && LineFlows(u, s)
    ensures LineFlows(u, Turn(u, s))
  {
    var calls := s.loop.calls;
    assert Messages(u.src, s.handled, calls) + [u.src(calls)] == Messages(u.src, s.handled, calls + 1);
  }

  lemma TurnLoop(u: Setup, s: Pipeline)
    requires s.loop.cell.Ready() && LoopTurns(u, s)
    ensures LoopTurns(u, Turn(u, s))
  {
  }

  lemma TurnKept(u: Setup, s: Pipeline)
    requires Enabled(s, LoopTurn) && Inv(u, s)
    ensures Inv(u, Turn(u, s))
    ensures Calm(u, s) ==> Calm(u, Turn(u, s))
  {
    TurnLine(u, s);
    TurnLoop(u, s);
  }

  /** Steps that leave the multiplexer's work alone: they end an actor, drop a notice or ask for a stop. */
  predicate Housekeeping(step: Step) {
    !step.LoopTurn? && !step.MuxMessage?
  }

  lemma HousekeepingIsHarmless(u: Setup, s: Pipeline, step: Step)
    requires Enabled(s, step) && Housekeeping(step)
    ensures var s' := Apply(u, s, step);
            && s'.mux.targets == s.mux.targets && s'.mux.world == s.mux.world && s'.handled == s.handled
            && s'.loop.calls == s.loop.calls && s'.mux.cell.mailbox == s.mux.cell.mailbox
            && s'.loop.cell.mailbox == s.loop.cell.mailbox && s'.loop.cell.stopping == s.loop.cell.stopping
            && (s'.mux.cell.alive ==> s.mux.cell.alive) && (s'.loop.cell.alive ==> s.loop.cell.alive)
            && (s'.mux.cell.stopping == s.mux.cell.stopping || (step.OutsideStop? && s'.mux.cell.stopping))
  {
  }

  lemma HousekeepingLinked(u: Setup, s: Pipeline, step: Step)
    requires Enabled(s, step) && Housekeeping(step) && Linked(s)
    ensures Linked(Apply(u, s, step))
    ensures (PumpFailed in s.events ==> !s.mux.cell.alive) && (!s.mux.cell.alive ==> s.mux.cell.stopping)
            && Progress(step) ==>
              var s' := Apply(u, s, step);
              && (PumpFailed in s'.events ==> !s'.mux.cell.alive)
              && (!s'.mux.cell.alive ==> s'.mux.cell.stopping)
  {
    if step.MuxEvent? {
      assert s.events == [s.events[0]] + s.events[1..];
    }
  }

  lemma StepKept(u: Setup, s: Pipeline, step: Step)
    requires Enabled(s, step) && Inv(u, s)
    ensures Inv(u, Apply(u, s, step))
    ensures Calm(u, s) && Progress(step) ==> Calm(u, Apply(u, s, step))
  {
    match step
    case MuxMessage => MessageKept(u, s);
    case LoopTurn => TurnKept(u, s);
    case _ =>
      HousekeepingIsHarmless(u, s, step);
      HousekeepingLinked(u, s, step);
  }

  lemma {:induction false} Invariants(u: Setup, run: Run)
    requires Valid(u, run)
    ensures Inv(u, End(u, run))
    ensures Undisturbed(run) ==> Calm(u, End(u, run))
  {
    match run
    case Start =>
    case Then(prior, step) =>
      Invariants(u, prior);
      StepKept(u, End(u, prior), step);
  }

  // ---------- Main results ----------

  /** While the multiplexer lives, the messages it has handled, those in its mailbox and those the
      pump has yet to send are the stream's items and one end marker, in order; and the loop owes
      itself exactly one message until it stops. */
  lemma {:induction false} StreamConserved(u: Setup, run: Run, n: nat)
    requires Valid(u, run) && Ends(u.src, n) && End(u, run).mux.cell.alive
    ensures var (s, src) := (End(u, run), u.src);
            && s.handled <= s.loop.calls <= n + 1
            && Messages(src, 0, s.handled) + s.mux.cell.mailbox + Messages(src, s.loop.calls, n + 1)
               == Messages(src, 0, n + 1)
            && (s.loop.cell.alive ==> |s.loop.cell.mailbox| == if s.loop.cell.stopping then 0 else 1)
  {
    Invariants(u, run);
    var s := End(u, run);
    MessagesJoin(u.src, 0, s.handled, s.loop.calls);
    MessagesJoin(u.src, 0, s.loop.calls, n + 1);
  }

  lemma MessagesJoin(src: Source, i: nat, j: nat, k: nat)
    requires i <= j <= k
    ensures Messages(src, i, j) + Messages(src, j, k) == Messages(src, i, k)
  {
  }

  /** In every run, however disturbed, the end of the stream is announced at most once, and after
      every failed target. */
  lemma {:induction false} EndAnnouncedOnceAndLast(u: Setup, run: Run)
    requires Valid(u, run)
    ensures var notes := End(u, run).mux.world.notes;
            forall i | 0 <= i < |notes| - 1 :: notes[i].TargetFailed?
  {
    var s := End(u, run);
    Invariants(u, run);
    SpecNotes(u, s.handled);
    assert s.mux.world == Spec(u, s.handled).world;
  }

  lemma {:induction false} OnlyFailuresNoted(c: Config, ts: seq<Target>, item: Item, w: World)
    requires Known(ts, w)
    requires forall n | n in w.notes :: n.TargetFailed?
    ensures forall n | n in Offer(c, ts, item, w).0.notes :: n.TargetFailed?
  {
    if ts != [] {
      OnlyFailuresNoted(c, ts[..|ts| - 1], item, w);
    }
  }

  lemma {:induction false} SpecNotes(u: Setup, h: nat)
    requires h > 0 ==> !Spec(u, h - 1).cell.stopping
    ensures var (m, notes) := (Spec(u, h), Spec(u, h).world.notes);
            && (!m.cell.stopping ==> forall n | n in notes :: n.TargetFailed?)
            && (m.cell.stopping ==> |notes| > 0 && notes[|notes| - 1].EndOfStream?)
            && forall i | 0 <= i < |notes| - 1 :: notes[i].TargetFailed?
  {
    if h > 0 {
      if h > 1 {
        StopIsFinal(u, h - 2);
      }
      SpecNotes(u, h - 1);
      HandleNotes(u.config, Spec(u, h - 1), u.src(h - 1));
    }
  }

  lemma HandleNotes(c: Config, m: MuxState, msg: Option<Item>)
    requires Known(m.targets, m.world) && !m.cell.stopping
    requires forall n | n in m.world.notes :: n.TargetFailed?
    ensures var (m', notes) := (MuxHandle(c, m, msg), MuxHandle(c, m, msg).world.notes);
            && (!m'.cell.stopping ==> forall n | n in notes :: n.TargetFailed?)
            && (m'.cell.stopping ==> |notes| > 0 && notes[|notes| - 1].EndOfStream?)
            && forall i | 0 <= i < |notes| - 1 :: notes[i].TargetFailed?
  {
    if msg.Some? {
      OnlyFailuresNoted(c, m.targets, msg.value, m.world);
    }
  }

  /** What a stream of `n` items brings about, worked out without reference to any interleaving. */
  ghost function Outcome(u: Setup, n: nat): World
    requires Ends(u.src, n)
  {
    var w := Delivered(u, n);
    w.(notes := w.notes + [EndOfStream])
  }

  /** Once every target has been dropped, one more item would change nothing. */
  lemma NothingMore(u: Setup, h: nat)
    requires Flows(u.src, h) && Flows(u.src, h + 1)
    requires Retain(Targets(u.ids), Dropped(u.ids, u.config, h)) == []
    ensures Retain(Targets(u.ids), Dropped(u.ids, u.config, h + 1)) == []
    ensures Delivered(u, h + 1) == Delivered(u, h)
  {
    var gone := Dropped(u.ids, u.config, h);
    RemainingTargets(u, gone);
    RetainTwice(Targets(u.ids), gone, Dropped(u.ids, u.config, h + 1));
    assert gone + Dropped(u.ids, u.config, h + 1) == Dropped(u.ids, u.config, h + 1);
    forall k: nat | k < |u.ids|
      ensures Reach(u.ids, u.config, k, h + 1) == Reach(u.ids, u.config, k, h)
    {
      assert u.ids[k] in gone;
    }
    assert Failures([], u.config, h) == [];
  }

  lemma {:induction false} NothingLeft(u: Setup, h: nat, n: nat)
    requires h <= n && Flows(u.src, h) && Flows(u.src, n)
    requires Retain(Targets(u.ids), Dropped(u.ids, u.config, h)) == []
    ensures Delivered(u, n) == Delivered(u, h)
    decreases n - h
  {
    if h < n {
      assert Flows(u.src, h + 1);
      NothingMore(u, h);
      NothingLeft(u, h + 1, n);
    }
  }

  lemma OutcomeAtStop(u: Setup, n: nat, h: nat)
    requires Ends(u.src, n) && 0 < h <= n + 1
    requires !Spec(u, h - 1).cell.stopping && Spec(u, h).cell.stopping
    ensures Spec(u, h).world == Outcome(u, n)
  {
    if h == n + 1 {
      if n > 0 {
        StopIsFinal(u, n - 1);
      }
      SpecIsClosed(u, n);
    } else {
      SpecIsClosed(u, h);
      NothingLeft(u, h, n);
    }
  }

  /** Confluence: every undisturbed run over a finite stream that has run to its end leaves the same
      logs and notifications, ending in one end-of-stream, and both actors gone. */
  lemma {:induction false} Confluence(u: Setup, run: Run, n: nat)
    requires Valid(u, run) && Undisturbed(run) && Ends(u.src, n) && Completed(End(u, run))
    ensures End(u, run).mux.world == Outcome(u, n)
    ensures !End(u, run).mux.cell.alive && !End(u, run).loop.cell.alive
  {
    Invariants(u, run);
    CompletedOutcome(u, End(u, run), n);
  }

  lemma CompletedOutcome(u: Setup, s: Pipeline, n: nat)
    requires Inv(u, s) && Calm(u, s) && Completed(s) && Ends(u.src, n)
    ensures s.mux.world == Outcome(u, n)
    ensures !s.mux.cell.alive && !s.loop.cell.alive
  {
    AllGone(u, s);
    assert s.handled <= n + 1;
    OutcomeAtStop(u, n, s.handled);
  }

  lemma AllGone(u: Setup, s: Pipeline)
    requires Inv(u, s) && Calm(u, s) && Completed(s)
    ensures !s.mux.cell.alive && !s.loop.cell.alive
    ensures s.handled > 0 && Spec(u, s.handled).cell.stopping
  {
    assert !Enabled(s, MuxExit) && !Enabled(s, MuxMessage) && !Enabled(s, MuxEvent);
    assert !Enabled(s, LoopTurn) && !Enabled(s, LoopExit) && !Enabled(s, LoopKilled);
    DrainedMeansStopped(u, s);
  }

  /** Once the pump has sent the end marker and all is handled, the multiplexer has decided to stop. */
  lemma DrainedMeansStopped(u: Setup, s: Pipeline)
    requires Inv(u, s)
    ensures s.mux.cell.alive && s.mux.cell.mailbox == [] && s.loop.cell.stopping ==> Spec(u, s.handled).cell.stopping
  {
    if s.mux.cell.alive && s.mux.cell.mailbox == [] && s.loop.cell.stopping {
      assert s.handled == s.loop.calls;
      assert u.src(s.handled - 1).None?;
    }
  }

  /** So in every such run the end of the stream is announced exactly once, whichever handler did it. */
  lemma {:induction false} EndAnnouncedExactlyOnce(u: Setup, run: Run, n: nat)
    requires Valid(u, run) && Undisturbed(run) && Ends(u.src, n) && Completed(End(u, run))
    ensures var notes := End(u, run).mux.world.notes;
            && notes != [] && notes[|notes| - 1].EndOfStream?
            && forall i | 0 <= i < |notes| - 1 :: notes[i].TargetFailed?
  {
    Confluence(u, run, n);
    EndAnnouncedOnceAndLast(u, run);
  }

  // ---------- What the closed form says of each target ----------

  /** Some target reporting the same id as target `k` fails on item `p`. */
  ghost predicate GroupFails(ids: seq<TargetId>, c: Config, k: nat, p: nat)
    requires k < |ids|
  {
    exists j: nat :: j < |ids| && ids[j] == ids[k] && c.fails(j, p)
  }

  lemma {:induction false} DroppedMeans(ids: seq<TargetId>, c: Config, k: nat, h: nat)
    requires k < |ids| && c.stopOnFailure
    ensures ids[k] in Dropped(ids, c, h) <==> exists p: nat :: p < h && GroupFails(ids, c, k, p)
  {
    if h > 0 {
      DroppedMeans(ids, c, k, h - 1);
      assert GroupFails(ids, c, k, h - 1) <==> ids[k] in set j | 0 <= j < |ids| && c.fails(j, h - 1) :: ids[j];
    }
  }

  /** With the flag, each target is offered the items up to and including the first on which a target
      of its id fails; without it, every item. */
  lemma {:induction false} ReachMeans(ids: seq<TargetId>, c: Config, k: nat, n: nat)
    requires k < |ids|
    ensures var r := Reach(ids, c, k, n);
            && (!c.stopOnFailure ==> r == n)
            && (c.stopOnFailure ==>
                  && (forall p: nat | p + 1 < r :: !GroupFails(ids, c, k, p))
                  && (r < n ==> r > 0 && GroupFails(ids, c, k, r - 1)))
  {
    if n > 0 {
      ReachMeans(ids, c, k, n - 1);
      if c.stopOnFailure {
        DroppedMeans(ids, c, k, n - 1);
      }
    }
  }

  ghost predicate Unique(ids: seq<TargetId>) {
    forall i, j | 0 <= i < j < |ids| :: ids[i] != ids[j]
  }

  /** What a target is offered depends on its own failures only, whatever the others do. */
  ghost predicate Isolates(ids: seq<TargetId>) {
    forall fails: Oracle, other: Oracle, k: nat, n: nat | k < |ids| && (forall p: nat :: fails(k, p) == other(k, p)) ::
      Reach(ids, Config(true, fails), k, n) == Reach(ids, Config(true, other), k, n)
  }

  lemma UniqueFailsAlone(ids: seq<TargetId>, c: Config, k: nat, h: nat)
    requires Unique(ids) && k < |ids| && c.stopOnFailure
    ensures ids[k] in Dropped(ids, c, h) <==> exists p: nat :: p < h && c.fails(k, p)
  {
    DroppedMeans(ids, c, k, h);
    forall p: nat
      ensures GroupFails(ids, c, k, p) <==> c.fails(k, p)
    {
    }
  }

  lemma {:induction false} SameReach(ids: seq<TargetId>, c: Config, d: Config, k: nat, n: nat)
    requires Unique(ids) && k < |ids| && c.stopOnFailure && d.stopOnFailure
    requires forall p: nat :: c.fails(k, p) == d.fails(k, p)
    ensures Reach(ids, c, k, n) == Reach(ids, d, k, n)
  {
    if n > 0 {
      SameReach(ids, c, d, k, n - 1);
      UniqueFailsAlone(ids, c, k, n - 1);
      UniqueFailsAlone(ids, d, k, n - 1);
    }
  }

  /** One target's failure never costs another an item, if and only if the target ids are unique. */
  lemma IsolationNeedsUniqueIds(ids: seq<TargetId>)
    ensures Isolates(ids) <==> Unique(ids)
  {
    if Unique(ids) {
      forall fails: Oracle, other: Oracle, k: nat, n: nat
        | k < |ids| && (forall p: nat :: fails(k, p) == other(k, p))
        ensures Reach(ids, Config(true, fails), k, n) == Reach(ids, Config(true, other), k, n)
      {
        SameReach(ids, Config(true, fails), Config(true, other), k, n);
      }
    } else {
      var i, j :| 0 <= i < j < |ids| && ids[i] == ids[j];
      SharedIdCosts(ids, i, j);
    }
  }

  /** The first of two targets with one id failing the first item costs the other the second. */
  lemma SharedIdCosts(ids: seq<TargetId>, i: nat, j: nat)
    requires i < j < |ids| && ids[i] == ids[j]
    ensures !Isolates(ids)
  {
    var fails: Oracle := (key, p) => key == i;
    var never: Oracle := (key, p) => false;
    assert GroupFails(ids, Config(true, fails), j, 0);
    ReachMeans(ids, Config(true, fails), j, 2);
    ReachMeans(ids, Config(true, never), j, 2);
    assert Reach(ids, Config(true, fails), j, 2) != Reach(ids, Config(true, never), j, 2);
    assert forall p: nat :: fails(j, p) == never(j, p);
  }

  // ---------- Termination ----------

  /** Bounds the steps left to a finite stream. */
  function Work(s: Pipeline, n: nat): int {
    var toSend := n + 1 - s.loop.calls;
    2 * (if toSend > 0 then toSend else 0) + |s.mux.cell.mailbox| + |s.events|
    + (if s.loop.cell.alive then 3 else 0) + (if s.mux.cell.alive then 2 else 0)
  }

  /** Every step that is not a disturbance uses some of it up. */
  lemma {:induction false} EveryStepCounts(u: Setup, run: Run, n: nat, step: Step)
    requires Valid(u, run) && Ends(u.src, n) && Progress(step) && Enabled(End(u, run), step)
    ensures 0 <= Work(Apply(u, End(u, run), step), n) < Work(End(u, run), n)
  {
    Invariants(u, run);
    StepUsesWork(u, End(u, run), n, step);
  }

  ghost predicate Extends(run: Run, longer: Run) {
    longer == run || (longer.Then? && Extends(run, longer.prior))
  }

  lemma {:induction false} ExtendsFrom(run: Run, next: Run, longer: Run)
    requires Extends(run, next) && Extends(next, longer)
    ensures Extends(run, longer)
  {
    if longer != next {
      ExtendsFrom(run, next, longer.prior);
    }
  }

  /** So every undisturbed run over a finite stream goes on, undisturbed, until it has run to its end. */
  lemma {:induction false} Completes(u: Setup, run: Run, n: nat) returns (longer: Run)
    requires Valid(u, run) && Undisturbed(run) && Ends(u.src, n)
    ensures Valid(u, longer) && Undisturbed(longer) && Extends(run, longer) && Completed(End(u, longer))
    decreases Work(End(u, run), n)
  {
    longer := run;
    if !Completed(End(u, run)) {
      var step :| Progress(step) && Enabled(End(u, run), step);
      EveryStepCounts(u, run, n, step);
      longer := Completes(u, Then(run, step), n);
      ExtendsFrom(run, Then(run, step), longer);
    }
  }

  lemma StepUsesWork(u: Setup, s: Pipeline, n: nat, step: Step)
    requires Inv(u, s) && Ends(u.src, n) && Progress(step) && Enabled(s, step)
    ensures 0 <= Work(Apply(u, s, step), n) < Work(s, n)
  {
    if step.MuxMessage? {
      MessageFrame(u, s);
    } else if step.LoopTurn? {
      assert s.loop.calls <= n;
    }
  }
}
