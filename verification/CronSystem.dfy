/** The cron manager together with all its workers: requests, supervision events, timers and the
    deaths of workers in any order. */
module CronSystem {
  import opened Runtime
  import opened CronWorker
  import opened CronManager

  /** Whether a worker has announced its start, and the tally of its timers. */
  datatype Extra = Extra(started: bool, tally: Tally)

  /** The manager, whether it is alive or asked to stop, its queued supervision events, and the workers' extras. */
  datatype System = System(m: ManagerState, alive: bool, stopping: bool, events: seq<SupervisionEvent>,
                           extras: map<WorkerId, Extra>)

  const INIT := System(EMPTY, true, false, [], map[])

  datatype Request =
    | Start(name: Name, schedule: Schedule, upcoming: Upcoming)
    | Stop(name: Name)
    | Reschedule(name: Name, schedule: Schedule)
    | Subscription(who: SubscriberId)
    | Unsubscription(who: SubscriberId)

  datatype Step =
    | ManagerRequest(request: Request)
    | ManagerEvent
    | ManagerAskedToStop
    | ManagerExits
    | WorkerStarts(w: WorkerId)
    | WorkerMessage(w: WorkerId, upcoming: Upcoming, panics: bool, what: Reason)
    | TimerFires(w: WorkerId, timer: nat)
    | WorkerAskedToStop(w: WorkerId)
    | WorkerExits(w: WorkerId, reason: Option<Reason>)
    | WorkerKilled(w: WorkerId)

  function Workers(s: System): map<WorkerId, WorkerState> {
    s.m.pool.workers
  }

  predicate Enabled(s: System, step: Step) {
    var workers := Workers(s);
    match step
    case ManagerRequest(_) => s.alive && !s.stopping && s.events == []
    case ManagerEvent => s.alive && !s.stopping && s.events != []
    case ManagerAskedToStop => s.alive
    case ManagerExits => s.alive && s.stopping
    case WorkerStarts(w) => w in workers && w in s.extras && workers[w].cell.alive && !s.extras[w].started
    case WorkerMessage(w, _, _, _) => w in workers && w in s.extras && s.extras[w].started && workers[w].cell.Ready()
    case TimerFires(w, t) => w in workers && t in workers[w].live
    case WorkerAskedToStop(w) => w in workers && workers[w].cell.alive
    case WorkerExits(w, _) =>
      w in workers && w in s.extras && s.extras[w].started && workers[w].cell.alive && workers[w].cell.stopping
    case WorkerKilled(w) => w in workers && workers[w].cell.alive && workers[w].cell.killed
  }

  function SetWorker(s: System, w: WorkerId, state: WorkerState): System {
    s.(m := s.m.(pool := s.m.pool.(workers := s.m.pool.workers[w := state])))
  }

  /** The manager's death kills its linked children. */
  function ManagerDies(s: System): System {
    var workers := map w | w in Workers(s) :: Workers(s)[w].(cell := Workers(s)[w].cell.Kill());
    s.(alive := false, m := s.m.(pool := s.m.pool.(workers := workers)))
  }

  function WorkerDies(s: System, w: WorkerId, state: WorkerState, notice: seq<SupervisionEvent>): System {
    SetWorker(s, w, state.(cell := state.cell.Die())).(events := s.events + notice)
  }

  ghost function Apply(s: System, step: Step): System
    requires Enabled(s, step)
  {
    match step
    case ManagerRequest(request) => HandleRequest(s, request)
    case ManagerEvent => s.(m := Supervise(s.m, s.events[0]), events := s.events[1..])
    case ManagerAskedToStop => s.(stopping := true)
    case ManagerExits => ManagerDies(s.(m := StopAll(s.m)))
    case WorkerStarts(w) =>
      s.(events := s.events + [ActorStarted(w)], extras := s.extras[w := s.extras[w].(started := true)])
    case WorkerMessage(w, upcoming, panics, what) => HandleWorkerMessage(s, w, upcoming, panics, what)
    case TimerFires(w, t) =>
      var state := Workers(s)[w];
      SetWorker(s, w, state.(live := state.live - {t}, cell := state.cell.Cast(Execute)))
    case WorkerAskedToStop(w) => s.(m := s.m.(pool := s.m.pool.StopWorker(w)))
    case WorkerExits(w, reason) => WorkerDies(s, w, AbortStored(Workers(s)[w]), [ActorTerminated(w, reason)])
    case WorkerKilled(w) => WorkerDies(s, w, Workers(s)[w], [])
  }

  function HandleRequest(s: System, request: Request): System {
    match request
    case Start(name, schedule, upcoming) =>
      var s' := s.(m := StartJob(s.m, name, schedule, upcoming));
      if s'.m.pool.next == s.m.pool.next then s'
      else s'.(extras := s.extras[s.m.pool.next := Extra(false, Tally(Stalled(upcoming), 0))])
    case Stop(name) => s.(m := StopJob(s.m, name))
    case Reschedule(name, schedule) =>
      var (m, ok) := SetSchedule(s.m, name, schedule);
      if ok then s.(m := m) else ManagerDies(s.(m := m))
    case Subscription(who) => s.(m := Subscribe(s.m, who))
    case Unsubscription(who) => s.(m := Unsubscribe(s.m, who))
  }

  /** A panicking job or a failed scheduling ends the worker. */
  function HandleWorkerMessage(s: System, w: WorkerId, upcoming: Upcoming, panics: bool, what: Reason): System
    requires w in Workers(s) && w in s.extras && Workers(s)[w].cell.mailbox != []
  {
    var (state, tally) := (Workers(s)[w], s.extras[w].tally);
    var rest := state.(cell := state.cell.Dequeue());
    match state.cell.mailbox[0]
    case Execute =>
      if panics || upcoming.Past? then WorkerDies(s, w, rest, [ActorFailed(w, what)])
      else
        SetWorker(s, w, Executed(rest, upcoming)).(
        extras := s.extras[w := s.extras[w].(tally := tally.(stalled := tally.stalled + Stalled(upcoming)))])
    case UpdateSchedule(schedule) =>
      var state' := Updated(rest, schedule, upcoming);
      if upcoming.Past? then WorkerDies(s, w, state', [ActorFailed(w, what)])
      else
        SetWorker(s, w, state').(
        extras := s.extras[w := s.extras[w].(
          tally := Tally(tally.stalled + Stalled(upcoming), tally.overlaps + if Overlaps(state) then 1 else 0))])
  }

  datatype Run = Begin | Then(prior: Run, step: Step)

  ghost function End(run: Run): System {
    match run
    case Begin => INIT
    case Then(prior, step) =>
      var s := End(prior);
      if Enabled(s, step) then Apply(s, step) else s
  }

  ghost predicate Valid(run: Run) {
    run.Then? ==> Valid(run.prior) && Enabled(End(run.prior), run.step)
  }

  // ---------- The table ----------

  ghost predicate Listed(jobs: map<Name, Job>, w: WorkerId) {
    exists n :: n in jobs && jobs[n].worker == w
  }

  ghost predicate TableSound(s: System) {
    && Injective(s.m.jobs)
    && (forall n | n in s.m.jobs :: s.m.jobs[n].worker in Workers(s))
    && (forall w | w in Workers(s) :: w < s.m.pool.next)
    && s.extras.Keys == Workers(s).Keys
  }

  // ---------- Coherence and counts ----------

  /** What the manager answers about a live worker's schedule is what the worker will settle on. */
  ghost predicate Coherent(s: System) {
    forall n | n in s.m.jobs && s.m.jobs[n].worker in Workers(s) ::
      var state := Workers(s)[s.m.jobs[n].worker];
      state.cell.alive ==> s.m.jobs[n].schedule == Settled(state)
  }

  ghost predicate AllCounted(s: System) {
    forall w | w in Workers(s) && w in s.extras && Workers(s)[w].cell.alive :: Counted(Workers(s)[w], s.extras[w].tally)
  }

  // ---------- What a step can change ----------

  predicate WorkerStep(step: Step) {
    !step.ManagerRequest? && !step.ManagerEvent? && !step.ManagerAskedToStop? && !step.ManagerExits?
  }

  /** A worker's step changes that worker, its extra and the end of the event queue. */
  ghost predicate OnlyWorker(s: System, s': System, w: WorkerId) {
    && s'.m == s.m.(pool := s'.m.pool) && s'.m.pool.next == s.m.pool.next
    && s'.alive == s.alive && s'.stopping == s.stopping
    && Workers(s').Keys == Workers(s).Keys && s'.extras.Keys == s.extras.Keys
    && (forall v | v in Workers(s) && v != w :: Workers(s')[v] == Workers(s)[v])
    && (forall v | v in s.extras && v != w :: s'.extras[v] == s.extras[v])
  }

  lemma WorkerStepFrame(s: System, step: Step)
    requires Enabled(s, step) && WorkerStep(step)
    ensures OnlyWorker(s, Apply(s, step), step.w)
  {
    if step.WorkerMessage? {
      MessageFrame(s, step.w, step.upcoming, step.panics, step.what);
    }
  }

  lemma MessageFrame(s: System, w: WorkerId, upcoming: Upcoming, panics: bool, what: Reason)
    requires w in Workers(s) && w in s.extras && Workers(s)[w].cell.mailbox != []
    ensures OnlyWorker(s, HandleWorkerMessage(s, w, upcoming, panics, what), w)
  {
  }

  /** The same worker but for being asked to stop, killed or dead. */
  ghost predicate Softer(a: WorkerState, b: WorkerState) {
    && b.(cell := a.cell) == a && b.cell.mailbox == a.cell.mailbox && b.cell.alive == a.cell.alive
    && (a.cell.stopping ==> b.cell.stopping) && (a.cell.killed ==> b.cell.killed)
  }

  ghost predicate Entries(jobs: map<Name, Job>, more: map<Name, Job>) {
    forall n | n in jobs :: n in more && jobs[n] == more[n]
  }

  /** A manager's step that neither starts a job nor changes a schedule. */
  predicate Plain(step: Step) {
    !WorkerStep(step) && (step.ManagerRequest? ==> !step.request.Start? && !step.request.Reschedule?)
  }

  ghost predicate OnlyManager(s: System, s': System) {
    && s'.m.pool.next == s.m.pool.next && s'.extras == s.extras && Workers(s').Keys == Workers(s).Keys
    && (forall w | w in Workers(s) :: Softer(Workers(s)[w], Workers(s')[w]))
    && Entries(s'.m.jobs, s.m.jobs)
    && (s'.alive ==> s.alive)
  }

  lemma PlainFrame(s: System, step: Step)
    requires Enabled(s, step) && Plain(step)
    ensures OnlyManager(s, Apply(s, step))
  {
  }

  lemma DyingFrame(s: System)
    ensures OnlyManager(s, ManagerDies(s)) && !ManagerDies(s).alive
    ensures ManagerDies(s).m == s.m.(pool := ManagerDies(s).m.pool) && ManagerDies(s).events == s.events
    ensures forall w | w in Workers(s) :: Workers(ManagerDies(s))[w].cell.killed
  {
  }

  // ---------- The invariants kept by each kind of step ----------

  ghost predicate Sound(s: System) {
    TableSound(s) && Coherent(s) && AllCounted(s)
  }

  lemma SofterSettles(a: WorkerState, b: WorkerState, tally: Tally)
    requires Softer(a, b)
    ensures Settled(b) == Settled(a) && (Counted(a, tally) ==> Counted(b, tally))
  {
  }

  lemma PlainSound(s: System, s': System)
    requires OnlyManager(s, s') && Sound(s)
    ensures Sound(s')
  {
    forall w | w in Workers(s) && w in s.extras
      ensures Settled(Workers(s')[w]) == Settled(Workers(s)[w])
      ensures Counted(Workers(s)[w], s.extras[w].tally) ==> Counted(Workers(s')[w], s.extras[w].tally)
    {
      SofterSettles(Workers(s)[w], Workers(s')[w], s.extras[w].tally);
    }
  }

  lemma StartSound(s: System, name: Name, schedule: Schedule, upcoming: Upcoming)
    requires Sound(s)
    ensures Sound(HandleRequest(s, Start(name, schedule, upcoming)))
  {
    if name !in s.m.jobs && !upcoming.Past? {
      NewWorkerCounted(schedule, upcoming);
    }
  }

  lemma RescheduleSound(s: System, name: Name, schedule: Schedule)
    requires Sound(s)
    ensures Sound(HandleRequest(s, Reschedule(name, schedule)))
  {
    if name in s.m.jobs {
      var w := s.m.jobs[name].worker;
      var state := Workers(s)[w];
      LastUpdateAppend(state.cell.mailbox, UpdateSchedule(schedule), state.schedule);
      ExecutesAppend(state.cell.mailbox, UpdateSchedule(schedule));
      var s1 := s.(m := SetSchedule(s.m, name, schedule).0);
      assert Sound(s1);
      DyingFrame(s1);
      PlainSound(s1, ManagerDies(s1));
    }
  }

  /** A live worker's step keeps what it will settle on, and its count. */
  lemma WorkerStepKeeps(s: System, step: Step)
    requires Enabled(s, step) && WorkerStep(step) && step.w in s.extras
    ensures var (before, after) := (Workers(s)[step.w], Workers(Apply(s, step))[step.w]);
            after.cell.alive ==>
              && before.cell.alive && Settled(after) == Settled(before)
              && (Counted(before, s.extras[step.w].tally) ==> Counted(after, Apply(s, step).extras[step.w].tally))
  {
    var (state, tally) := (Workers(s)[step.w], s.extras[step.w].tally);
    match step
    case WorkerMessage(w, upcoming, _, _) =>
      MessageKeeps(s, step);
    case TimerFires(w, t) =>
      LastUpdateAppend(state.cell.mailbox, Execute, state.schedule);
      if state.cell.alive && Counted(state, tally) {
        FiredCounted(state, tally, t);
      }
    case _ =>
  }

  lemma MessageKeeps(s: System, step: Step)
    requires Enabled(s, step) && step.WorkerMessage?
    ensures var (before, after) := (Workers(s)[step.w], Workers(Apply(s, step))[step.w]);
            after.cell.alive ==>
              && Settled(after) == Settled(before)
              && (Counted(before, s.extras[step.w].tally) ==> Counted(after, Apply(s, step).extras[step.w].tally))
  {
    var (state, tally) := (Workers(s)[step.w], s.extras[step.w].tally);
    if Counted(state, tally) && !step.upcoming.Past? {
      if state.cell.mailbox[0].Execute? {
        ExecutedCounted(state, tally, step.upcoming);
      } else {
        UpdatedCounted(state, tally, step.upcoming);
      }
    }
  }

  lemma WorkerSound(s: System, step: Step)
    requires Enabled(s, step) && WorkerStep(step) && Sound(s)
    ensures Sound(Apply(s, step))
  {
    var s' := Apply(s, step);
    WorkerStepFrame(s, step);
    WorkerStepKeeps(s, step);
    OneWorkerSound(s, s', step.w);
  }

  lemma OneWorkerSound(s: System, s': System, w: WorkerId)
    requires Sound(s) && OnlyWorker(s, s', w) && w in Workers(s)
    requires var (before, after) := (Workers(s)[w], Workers(s')[w]);
             after.cell.alive ==>
               && before.cell.alive && Settled(after) == Settled(before)
               && (Counted(before, s.extras[w].tally) ==> Counted(after, s'.extras[w].tally))
    ensures Sound(s')
  {
  }

  lemma SoundKept(s: System, step: Step)
    requires Enabled(s, step) && Sound(s)
    ensures Sound(Apply(s, step))
  {
    if WorkerStep(step) {
      WorkerSound(s, step);
    } else if Plain(step) {
      PlainFrame(s, step);
      PlainSound(s, Apply(s, step));
    } else if step.request.Start? {
      StartSound(s, step.request.name, step.request.schedule, step.request.upcoming);
    } else {
      RescheduleSound(s, step.request.name, step.request.schedule);
    }
  }

  lemma {:induction false} AlwaysSound(run: Run)
    requires Valid(run)
    ensures Sound(End(run))
  {
    match run
    case Begin =>
    case Then(prior, step) =>
      AlwaysSound(prior);
      SoundKept(End(prior), step);
  }

  // ---------- Deaths are noticed ----------

  predicate Terminal(e: SupervisionEvent) {
    !e.ActorStarted?
  }

  /** Queued notices are about workers they fit: dead ones, or ones that have started, at most once each. */
  ghost predicate EventsSound(s: System) {
    && (forall e | e in s.events && Terminal(e) :: e.who in Workers(s) && !Workers(s)[e.who].cell.alive)
    && (forall w | ActorStarted(w) in s.events :: w in s.extras && s.extras[w].started)
    && (forall i, j | 0 <= i < j < |s.events| && s.events[i].ActorStarted? :: s.events[i] != s.events[j])
  }

  ghost predicate DeathQueued(events: seq<SupervisionEvent>, w: WorkerId) {
    exists e :: e in events && Terminal(e) && e.who == w
  }

  /** While the manager lives: a listed worker that is dead has its death queued, and a worker that is
      neither dead nor asked to stop is listed. Once it is gone, every live worker has been killed. */
  ghost predicate Attended(s: System) {
    && (s.alive ==>
          && (forall w | w in Workers(s) && !Workers(s)[w].cell.alive && Listed(s.m.jobs, w) ::
                DeathQueued(s.events, w))
          && (forall w | w in Workers(s) && Workers(s)[w].cell.alive && !Workers(s)[w].cell.stopping ::
                Listed(s.m.jobs, w))
          && (forall w | w in Workers(s) :: !Workers(s)[w].cell.killed))
    && (!s.alive ==> forall w | w in Workers(s) && Workers(s)[w].cell.alive :: Workers(s)[w].cell.killed)
  }

  /** The notices a worker's step adds: a first start of a live worker, or the death of one just dead. */
  ghost predicate Notices(s: System, s': System, w: WorkerId, added: seq<SupervisionEvent>)
    requires w in Workers(s) && w in Workers(s') && w in s.extras && w in s'.extras
  {
    var (before, after) := (Workers(s)[w], Workers(s')[w]);
    && s'.events == s.events + added && |added| <= 1
    && (added != [] ==> added[0].who == w)
    && (added != [] && added[0].ActorStarted? ==> !s.extras[w].started && s'.extras[w].started && after.cell.alive)
    && (added != [] && Terminal(added[0]) ==> !after.cell.alive)
    && (after.cell.alive ==> before.cell.alive)
    && (before.cell.alive && !after.cell.alive && !before.cell.killed ==> added != [] && Terminal(added[0]))
    && (before.cell.stopping ==> after.cell.stopping) && after.cell.killed == before.cell.killed
    && (s.extras[w].started ==> s'.extras[w].started)
  }

  function Added(s: System, s': System): seq<SupervisionEvent> {
    if |s.events| <= |s'.events| then s'.events[|s.events|..] else []
  }

  lemma MessageNotices(s: System, w: WorkerId, upcoming: Upcoming, panics: bool, what: Reason)
    requires w in Workers(s) && w in s.extras && Workers(s)[w].cell.Ready()
    ensures var s' := HandleWorkerMessage(s, w, upcoming, panics, what);
            w in Workers(s') && w in s'.extras && Notices(s, s', w, Added(s, s'))
  {
  }

  lemma StepNotices(s: System, step: Step)
    requires Enabled(s, step) && WorkerStep(step) && step.w in s.extras
    ensures step.w in Workers(Apply(s, step)) && step.w in Apply(s, step).extras
    ensures Notices(s, Apply(s, step), step.w, Added(s, Apply(s, step)))
  {
    if step.WorkerMessage? {
      MessageNotices(s, step.w, step.upcoming, step.panics, step.what);
    }
  }

  lemma WorkerEventsSound(s: System, s': System, w: WorkerId)
    requires TableSound(s) && EventsSound(s) && OnlyWorker(s, s', w)
    requires w in Workers(s) && w in Workers(s') && w in s.extras && w in s'.extras
    requires Notices(s, s', w, Added(s, s'))
    ensures EventsSound(s')
  {
    var added := Added(s, s');
    if added != [] {
      assert s'.events == s.events + [added[0]];
    }
  }

  lemma WorkerAttended(s: System, s': System, w: WorkerId)
    requires Attended(s) && OnlyWorker(s, s', w)
    requires w in Workers(s) && w in Workers(s') && w in s.extras && w in s'.extras
    requires Notices(s, s', w, Added(s, s'))
    ensures Attended(s')
  {
    var added := Added(s, s');
    if s.alive {
      forall v | v in Workers(s') && !Workers(s')[v].cell.alive && Listed(s'.m.jobs, v)
        ensures DeathQueued(s'.events, v)
      {
        if !Workers(s)[v].cell.alive {
          var e :| e in s.events && Terminal(e) && e.who == v;
          assert e in s'.events;
        } else {
          assert added[0] in s'.events;
        }
      }
    }
  }

  lemma EventHandled(s: System)
    requires Enabled(s, ManagerEvent) && TableSound(s) && EventsSound(s) && Attended(s)
    ensures EventsSound(Apply(s, ManagerEvent)) && Attended(Apply(s, ManagerEvent))
  {
    var (s', e) := (Apply(s, ManagerEvent), s.events[0]);
    assert s.events == [e] + s.events[1..];
    forall w | w in Workers(s') && !Workers(s')[w].cell.alive && Listed(s'.m.jobs, w)
      ensures DeathQueued(s'.events, w)
    {
      assert Listed(s.m.jobs, w);
      var d :| d in s.events && Terminal(d) && d.who == w;
      assert d in s'.events;
    }
    forall w | w in Workers(s') && Workers(s')[w].cell.alive && !Workers(s')[w].cell.stopping
      ensures Listed(s'.m.jobs, w)
    {
      var n :| n in s.m.jobs && s.m.jobs[n].worker == w;
      assert Terminal(e) ==> e.who != w;
      assert n in s'.m.jobs;
    }
  }

  lemma RequestHandled(s: System, request: Request)
    requires TableSound(s) && EventsSound(s) && Attended(s) && s.alive
    ensures EventsSound(HandleRequest(s, request)) && Attended(HandleRequest(s, request))
  {
    var s' := HandleRequest(s, request);
    match request
    case Start(name, schedule, upcoming) => StartAttended(s, name, schedule, upcoming);
    case Stop(name) => StopAttended(s, name);
    case Reschedule(name, schedule) => RescheduleAttended(s, name, schedule);
    case Subscription(_) => assert s'.m.jobs == s.m.jobs && Workers(s') == Workers(s);
    case Unsubscription(_) => assert s'.m.jobs == s.m.jobs && Workers(s') == Workers(s);
  }

  lemma StartAttended(s: System, name: Name, schedule: Schedule, upcoming: Upcoming)
    requires TableSound(s) && EventsSound(s) && Attended(s) && s.alive
    ensures var s' := HandleRequest(s, Start(name, schedule, upcoming)); EventsSound(s') && Attended(s')
  {
    var s' := HandleRequest(s, Start(name, schedule, upcoming));
    if name !in s.m.jobs && !upcoming.Past? {
      var next := s.m.pool.next;
      assert next !in Workers(s);
      assert name in s'.m.jobs && s'.m.jobs[name].worker == next;
      forall w | Listed(s.m.jobs, w)
        ensures Listed(s'.m.jobs, w)
      {
        var n :| n in s.m.jobs && s.m.jobs[n].worker == w;
        assert n in s'.m.jobs && s'.m.jobs[n].worker == w;
      }
    }
  }

  lemma StopAttended(s: System, name: Name)
    requires TableSound(s) && EventsSound(s) && Attended(s) && s.alive
    ensures var s' := HandleRequest(s, Stop(name)); EventsSound(s') && Attended(s')
  {
    var s' := HandleRequest(s, Stop(name));
    forall w | w in Workers(s') && Workers(s')[w].cell.alive && !Workers(s')[w].cell.stopping
      ensures Listed(s'.m.jobs, w)
    {
      var n :| n in s.m.jobs && s.m.jobs[n].worker == w;
      assert n in s'.m.jobs;
    }
  }

  lemma RescheduleAttended(s: System, name: Name, schedule: Schedule)
    requires TableSound(s) && EventsSound(s) && Attended(s) && s.alive
    ensures var s' := HandleRequest(s, Reschedule(name, schedule)); EventsSound(s') && Attended(s')
  {
    if name in s.m.jobs {
      RescheduleKeepsListed(s.m, name, schedule);
      var s1 := s.(m := SetSchedule(s.m, name, schedule).0);
      assert EventsSound(s1) && Attended(s1);
      DyingFrame(s1);
    }
  }

  lemma RescheduleKeepsListed(m: ManagerState, name: Name, schedule: Schedule)
    requires name in m.jobs
    ensures forall w :: Listed(SetSchedule(m, name, schedule).0.jobs, w) <==> Listed(m.jobs, w)
  {
    var jobs := SetSchedule(m, name, schedule).0.jobs;
    forall w | Listed(m.jobs, w)
      ensures Listed(jobs, w)
    {
      var n :| n in m.jobs && m.jobs[n].worker == w;
      assert n in jobs && jobs[n].worker == w;
    }
  }

  lemma AttendedKept(s: System, step: Step)
    requires Enabled(s, step) && TableSound(s) && EventsSound(s) && Attended(s)
    ensures EventsSound(Apply(s, step)) && Attended(Apply(s, step))
  {
    if WorkerStep(step) {
      WorkerStepFrame(s, step);
      StepNotices(s, step);
      WorkerEventsSound(s, Apply(s, step), step.w);
      WorkerAttended(s, Apply(s, step), step.w);
    } else if step.ManagerEvent? {
      EventHandled(s);
    } else if step.ManagerRequest? {
      RequestHandled(s, step.request);
    }
  }

  lemma {:induction false} AlwaysAttended(run: Run)
    requires Valid(run)
    ensures EventsSound(End(run)) && Attended(End(run))
  {
    match run
    case Begin =>
    case Then(prior, step) =>
      AlwaysAttended(prior);
      AlwaysSound(prior);
      AttendedKept(End(prior), step);
  }

  // ---------- What subscribers are told ----------

  /** The events of a log that are about one worker. */
  function About(log: seq<Event>, w: WorkerId): seq<Event> {
    if log == [] then []
    else
      var last := log[|log| - 1];
      About(log[..|log| - 1], w) + if last.worker == w then [last] else []
  }

  lemma AboutAppend(log: seq<Event>, e: Event, w: WorkerId)
    ensures About(log + [e], w) == About(log, w) + if e.worker == w then [e] else []
  {
    assert (log + [e])[..|log|] == log;
  }

  /** At most one start, then at most one end. */
  predicate WellTold(told: seq<Event>) {
    |told| <= 2 && (|told| == 2 ==> told[0].JobStarted? && !told[1].JobStarted?)
  }

  /** Every log there is: of subscribers in place and of those gone. */
  ghost predicate HasLog(m: ManagerState, log: seq<Event>) {
    log in m.subs.Values || log in m.retired
  }

  ghost predicate MayStart(s: System, w: WorkerId) {
    w in s.extras ==> !s.extras[w].started || ActorStarted(w) in s.events
  }

  /** A worker's end is told only when it leaves the table, its start only once. */
  ghost predicate Fits(log: seq<Event>, w: WorkerId, listed: bool, mayStart: bool) {
    var told := About(log, w);
    && WellTold(told)
    && (listed ==> forall e | e in told :: e.JobStarted?)
    && (mayStart ==> forall e | e in told :: !e.JobStarted?)
  }

  ghost predicate Told(s: System) {
    forall log, w: WorkerId | HasLog(s.m, log) ::
      && Fits(log, w, Listed(s.m.jobs, w), MayStart(s, w))
      && (w !in Workers(s) ==> About(log, w) == [])
  }

  /** Nothing was told in this step, and no worker regained the chance to be told of. */
  ghost predicate Untold(s: System, s': System) {
    && (forall log | HasLog(s'.m, log) :: HasLog(s.m, log) || log == [])
    && (forall w | Listed(s'.m.jobs, w) :: Listed(s.m.jobs, w) || w !in Workers(s))
    && (forall w | MayStart(s', w) :: MayStart(s, w) || w !in Workers(s))
    && (forall w | w in Workers(s) :: w in Workers(s'))
  }

  lemma UntoldKeepsTold(s: System, s': System)
    requires Untold(s, s') && Told(s)
    ensures Told(s')
  {
    forall log, w: WorkerId | HasLog(s'.m, log)
      ensures Fits(log, w, Listed(s'.m.jobs, w), MayStart(s', w))
      ensures w !in Workers(s') ==> About(log, w) == []
    {
      if HasLog(s.m, log) {
        assert Fits(log, w, Listed(s.m.jobs, w), MayStart(s, w));
      } else {
        assert About(log, w) == [];
      }
    }
  }

  /** Telling all subscribers one event about `e.worker`, after which it can be told no such event again. */
  lemma TellKeepsTold(s: System, s': System, e: Event)
    requires Told(s) && s'.m.subs == Publish(s.m.subs, e) && s'.m.retired == s.m.retired
    requires Workers(s').Keys == Workers(s).Keys
    requires forall w | Listed(s'.m.jobs, w) :: Listed(s.m.jobs, w)
    requires forall w | MayStart(s', w) :: MayStart(s, w)
    requires Listed(s.m.jobs, e.worker) && e.worker in Workers(s)
    requires if e.JobStarted? then MayStart(s, e.worker) && !MayStart(s', e.worker) else !Listed(s'.m.jobs, e.worker)
    ensures Told(s')
  {
    forall log', w: WorkerId | HasLog(s'.m, log')
      ensures Fits(log', w, Listed(s'.m.jobs, w), MayStart(s', w))
      ensures w !in Workers(s') ==> About(log', w) == []
    {
      if log' in s.m.retired {
        assert HasLog(s.m, log');
        assert Fits(log', w, Listed(s.m.jobs, w), MayStart(s, w));
      } else {
        var k :| k in s'.m.subs && s'.m.subs[k] == log';
        var log := s.m.subs[k];
        assert HasLog(s.m, log);
        assert Fits(log, w, Listed(s.m.jobs, w), MayStart(s, w));
        AboutAppend(log, e, w);
        if w == e.worker {
          ToldOnce(About(log, w), e);
        }
      }
    }
  }

  lemma ToldOnce(told: seq<Event>, e: Event)
    requires WellTold(told) && (forall x | x in told :: x.JobStarted?)
    requires e.JobStarted? ==> forall x | x in told :: !x.JobStarted?
    ensures WellTold(told + [e])
    ensures e.JobStarted? ==> forall x | x in told + [e] :: x.JobStarted?
  {
    assert told != [] ==> told[0] in told && told[|told| - 1] in told;
  }

  lemma WorkerTold(s: System, s': System, w: WorkerId)
    requires Told(s) && OnlyWorker(s, s', w) && TableSound(s)
    requires w in Workers(s) && w in Workers(s') && w in s.extras && w in s'.extras
    requires Notices(s, s', w, Added(s, s'))
    ensures Told(s')
  {
    forall v | MayStart(s', v)
      ensures MayStart(s, v) || v !in Workers(s)
    {
      var added := Added(s, s');
      if added != [] {
        assert s'.events == s.events + [added[0]];
      }
    }
    UntoldKeepsTold(s, s');
  }

  lemma EventTold(s: System)
    requires Enabled(s, ManagerEvent) && TableSound(s) && EventsSound(s) && Told(s)
    ensures Told(Apply(s, ManagerEvent))
  {
    var (s', evt) := (Apply(s, ManagerEvent), s.events[0]);
    assert s.events == [evt] + s.events[1..];
    forall w | Listed(s'.m.jobs, w)
      ensures Listed(s.m.jobs, w)
    {
    }
    match JobOf(s.m.jobs, evt.who)
    case None =>
      UntoldKeepsTold(s, s');
    case Some(name) =>
      match evt
      case ActorStarted(who) =>
        assert ActorStarted(who) !in s'.events;
        TellKeepsTold(s, s', JobStarted(name, who));
      case ActorTerminated(who, reason) =>
        TellKeepsTold(s, s', JobStopped(name, who, reason));
      case ActorFailed(who, what) =>
        TellKeepsTold(s, s', JobFailed(name, who, what));
  }

  lemma RequestTold(s: System, request: Request)
    requires TableSound(s) && EventsSound(s) && Told(s) && s.alive
    ensures Told(HandleRequest(s, request))
  {
    var s' := HandleRequest(s, request);
    match request
    case Start(name, schedule, upcoming) => StartTold(s, name, schedule, upcoming);
    case Stop(name) => StopTold(s, name);
    case Reschedule(name, schedule) => RescheduleTold(s, name, schedule);
    case Subscription(who) => UntoldKeepsTold(s, s');
    case Unsubscription(who) => UntoldKeepsTold(s, s');
  }

  lemma StartTold(s: System, name: Name, schedule: Schedule, upcoming: Upcoming)
    requires TableSound(s) && EventsSound(s) && Told(s)
    ensures Told(HandleRequest(s, Start(name, schedule, upcoming)))
  {
    var s' := HandleRequest(s, Start(name, schedule, upcoming));
    forall w | MayStart(s', w)
      ensures MayStart(s, w) || w !in Workers(s)
    {
    }
    UntoldKeepsTold(s, s');
  }

  lemma StopTold(s: System, name: Name)
    requires TableSound(s) && Told(s)
    ensures Told(HandleRequest(s, Stop(name)))
  {
    var s' := HandleRequest(s, Stop(name));
    if name in s.m.jobs {
      TellKeepsTold(s, s', JobStopped(name, s.m.jobs[name].worker, None));
    }
  }

  lemma RescheduleTold(s: System, name: Name, schedule: Schedule)
    requires TableSound(s) && Told(s)
    ensures Told(HandleRequest(s, Reschedule(name, schedule)))
  {
    var s' := HandleRequest(s, Reschedule(name, schedule));
    if name in s.m.jobs {
      forall w | Listed(s'.m.jobs, w)
        ensures Listed(s.m.jobs, w)
      {
      }
      UntoldKeepsTold(s, s');
    }
  }

  lemma ToldKept(s: System, step: Step)
    requires Enabled(s, step) && TableSound(s) && EventsSound(s) && Told(s)
    ensures Told(Apply(s, step))
  {
    if WorkerStep(step) {
      WorkerStepFrame(s, step);
      StepNotices(s, step);
      WorkerTold(s, Apply(s, step), step.w);
    } else if step.ManagerEvent? {
      EventTold(s);
    } else if step.ManagerRequest? {
      RequestTold(s, step.request);
    } else {
      UntoldKeepsTold(s, Apply(s, step));
    }
  }

  lemma {:induction false} AlwaysTold(run: Run)
    requires Valid(run)
    ensures Told(End(run))
  {
    match run
    case Begin =>
    case Then(prior, step) =>
      AlwaysTold(prior);
      AlwaysSound(prior);
      AlwaysAttended(prior);
      ToldKept(End(prior), step);
  }

  // ---------- Main results ----------

  /** In every state, the schedule listed for a job whose worker lives is the last one queued for that
      worker, or the worker's own if none is queued. */
  lemma {:induction false} ScheduleCoherence(run: Run, name: Name)
    requires Valid(run) && name in End(run).m.jobs
    ensures var (s, w) := (End(run), End(run).m.jobs[name].worker);
            && w in Workers(s)
            && (Workers(s)[w].cell.alive ==> s.m.jobs[name].schedule == Settled(Workers(s)[w]))
  {
    AlwaysSound(run);
  }

  /** In every state, the executions a live worker has on their way number exactly one, plus the updates
      that found no timer to abort, less the times its schedule had nothing upcoming. So with a schedule
      that always has a next time a job never starves, and has exactly one execution on its way if and
      only if no update overlapped; and the timer an update would abort is always the last one set, which
      is live unless an `Execute` is queued, so only then can an update overlap. */
  lemma {:induction false} ExactExecutions(run: Run, w: WorkerId)
    requires Valid(run) && w in Workers(End(run)) && Workers(End(run))[w].cell.alive
    ensures w in End(run).extras
    ensures var (state, tally) := (Workers(End(run))[w], End(run).extras[w].tally);
            && Pending(state) + tally.stalled == 1 + tally.overlaps
            && (tally.stalled == 0 ==> Pending(state) >= 1 && (Pending(state) == 1 <==> tally.overlaps == 0))
            && (state.handle.Some? ==> state.handle.value + 1 == state.next)
            && (tally.stalled == 0 ==>
                  state.handle.Some? && (state.handle.value in state.live || Executes(state.cell.mailbox) > 0))
  {
    AlwaysSound(run);
  }

  /** A manager with one job and no subscribers. */
  function OneJob(name: Name, cached: Schedule, worker: WorkerState, started: bool, overlaps: nat): System {
    System(ManagerState(map[name := Job(cached, 0)], map[], [], Pool(1, map[0 := worker])), true, false,
           if started then [ActorStarted(0)] else [], map[0 := Extra(started, Tally(0, overlaps))])
  }

  lemma NewJob(name: Name, schedule: Schedule)
    ensures HandleRequest(INIT, Start(name, schedule, In(1)))
            == OneJob(name, schedule, WorkerState(Spawned([]), schedule, Some(0), {0}, 1), false, 0)
  {
    var worker := WorkerState(Spawned([]), schedule, Some(0), {0}, 1);
    assert {} + {0} == {0};
    assert NewWorker(schedule, In(1)) == Some(worker);
    assert EMPTY.pool.Spawn(schedule, In(1)) == Pool(1, map[0 := worker]);
    assert EMPTY.jobs[name := Job(schedule, 0)] == map[name := Job(schedule, 0)];
    assert INIT.extras[0 := Extra(false, Tally(0, 0))] == map[0 := Extra(false, Tally(0, 0))];
  }

  lemma JobRescheduled(name: Name, first: Schedule, second: Schedule) returns (run: Run)
    ensures Valid(run)
    ensures End(run) ==
      OneJob(name, second, WorkerState(Spawned([UpdateSchedule(second)]), first, Some(0), {0}, 1), false, 0)
  {
    NewJob(name, first);
    run := Then(Begin, ManagerRequest(Start(name, first, In(1))));
    var worker := WorkerState(Spawned([]), first, Some(0), {0}, 1);
    assert End(run) == OneJob(name, first, worker, false, 0);
    run := Then(run, ManagerRequest(Reschedule(name, second)));
    assert worker.cell.mailbox + [UpdateSchedule(second)] == [UpdateSchedule(second)];
    assert map[0 := worker][0 := worker.(cell := Spawned([UpdateSchedule(second)]))]
           == map[0 := worker.(cell := Spawned([UpdateSchedule(second)]))];
    assert map[name := Job(first, 0)][name := Job(second, 0)] == map[name := Job(second, 0)];
  }

  lemma TimerFired(name: Name, first: Schedule, second: Schedule) returns (run: Run)
    ensures Valid(run)
    ensures End(run) ==
      OneJob(name, second, WorkerState(Spawned([UpdateSchedule(second), Execute]), first, Some(0), {}, 1), true, 0)
  {
    run := JobRescheduled(name, first, second);
    run := Then(run, WorkerStarts(0));
    var worker := WorkerState(Spawned([UpdateSchedule(second)]), first, Some(0), {0}, 1);
    assert map[0 := Extra(false, Tally(0, 0))][0 := Extra(true, Tally(0, 0))] == map[0 := Extra(true, Tally(0, 0))];
    assert End(run) == OneJob(name, second, worker, true, 0);
    run := Then(run, TimerFires(0, 0));
    var fired := WorkerState(Spawned([UpdateSchedule(second), Execute]), first, Some(0), {}, 1);
    assert [UpdateSchedule(second)] + [Execute] == [UpdateSchedule(second), Execute] && {0} - {0} == {};
    assert map[0 := worker][0 := fired] == map[0 := fired];
  }

  /** An update queued before the timer fires, and handled after, leaves two executions on their way. */
  lemma OverlapDoublesExecutions(name: Name, first: Schedule, second: Schedule, what: Reason) returns (run: Run)
    ensures Valid(run) && 0 in Workers(End(run))
    ensures Workers(End(run))[0].cell.alive && Pending(Workers(End(run))[0]) == 2
  {
    run := TimerFired(name, first, second);
    var worker := WorkerState(Spawned([UpdateSchedule(second), Execute]), first, Some(0), {}, 1);
    run := Then(run, WorkerMessage(0, In(1), false, what));
    assert [UpdateSchedule(second), Execute][1..] == [Execute];
    var updated := Workers(End(run))[0];
    assert updated.live == {1} && |updated.live| == 1;
    assert updated.cell.mailbox == [Execute] && Executes([Execute]) == 1;
  }

  /** Over every run, what any subscriber has been told about any one worker is at most one start,
      followed by at most one stop or failure. */
  lemma {:induction false} EventLanguage(run: Run, log: seq<Event>, w: WorkerId)
    requires Valid(run) && HasLog(End(run).m, log)
    ensures WellTold(About(log, w))
  {
    AlwaysTold(run);
    assert Fits(log, w, Listed(End(run).m.jobs, w), MayStart(End(run), w));
  }

  /** Once a living manager has no event queued, its table lists live workers only, and every worker not
      asked to stop; once it is gone, every worker is dead or killed. */
  lemma {:induction false} TableMatchesWorkers(run: Run)
    requires Valid(run)
    ensures var s := End(run);
            && (s.alive && s.events == [] ==> forall w | w in Workers(s) ::
                  && (Listed(s.m.jobs, w) ==> Workers(s)[w].cell.alive)
                  && (Workers(s)[w].cell.alive && !Workers(s)[w].cell.stopping ==> Listed(s.m.jobs, w)))
            && (!s.alive ==> forall w | w in Workers(s) :: !Workers(s)[w].cell.alive || Workers(s)[w].cell.killed)
  {
    AlwaysAttended(run);
  }

  /** A living manager gets to a request only after every queued death, so passing a new schedule on to
      a listed worker never fails. */
  lemma {:induction false} RescheduleNeverFails(run: Run, name: Name, schedule: Schedule)
    requires Valid(run) && Enabled(End(run), ManagerRequest(Reschedule(name, schedule)))
    ensures SetSchedule(End(run).m, name, schedule).1
    ensures Apply(End(run), ManagerRequest(Reschedule(name, schedule))).alive
  {
    AlwaysSound(run);
    TableMatchesWorkers(run);
    assert name in End(run).m.jobs ==> Listed(End(run).m.jobs, End(run).m.jobs[name].worker);
  }

  ghost predicate Extends(run: Run, longer: Run) {
    longer == run || (longer.Then? && Extends(run, longer.prior))
  }

  lemma OnlyNewWorkersListed(s: System, step: Step)
    requires Enabled(s, step) && TableSound(s)
    ensures forall w | w in Workers(s) && Listed(Apply(s, step).m.jobs, w) :: Listed(s.m.jobs, w)
    ensures forall w | w in Workers(s) :: w in Workers(Apply(s, step))
  {
    if WorkerStep(step) {
      WorkerStepFrame(s, step);
    } else if Plain(step) {
      PlainFrame(s, step);
    }
  }

  lemma {:induction false} UnlistedForGood(run: Run, longer: Run, w: WorkerId)
    requires Valid(longer) && Extends(run, longer)
    requires w in Workers(End(run)) && !Listed(End(run).m.jobs, w)
    ensures w in Workers(End(longer)) && !Listed(End(longer).m.jobs, w)
  {
    if longer != run {
      UnlistedForGood(run, longer.prior, w);
      AlwaysSound(longer.prior);
      OnlyNewWorkersListed(End(longer.prior), longer.step);
    }
  }

  lemma {:induction false} PriorValid(run: Run, longer: Run)
    requires Valid(longer) && Extends(run, longer)
    ensures Valid(run)
  {
    if longer != run {
      PriorValid(run, longer.prior);
    }
  }

  /** After a job is stopped, nothing that is later reported of its worker changes anything the manager
      knows or tells, whoever holds the name by then. */
  lemma {:induction false} StaleEventsAreInert(run: Run, name: Name, longer: Run, evt: SupervisionEvent)
    requires name in End(run).m.jobs && evt.who == End(run).m.jobs[name].worker
    requires Extends(Then(run, ManagerRequest(Stop(name))), longer) && Valid(longer)
    ensures Supervise(End(longer).m, evt) == End(longer).m
    ensures name in End(longer).m.jobs ==> End(longer).m.jobs[name].worker != evt.who
  {
    var stopped := Then(run, ManagerRequest(Stop(name)));
    PriorValid(stopped, longer);
    AlwaysSound(run);
    assert Injective(End(run).m.jobs);
    assert !Listed(End(stopped).m.jobs, evt.who);
    UnlistedForGood(stopped, longer, evt.who);
  }
}
