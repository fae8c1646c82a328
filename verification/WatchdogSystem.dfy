/** The watchdog over time: clients send it messages, subjects exit, timers fire and time passes, in
    any order; and a log of every timer set and registration made that stays true to what is there. */
module WatchdogSystem {
  import opened WatchdogActor

  // ---------- The system ----------

  /** `timer` is the handle of the timer that sent a timeout; the watchdog does not look at it. */
  datatype Msg =
    | RegisterMsg(id: ActorId, timeout: nat, strategy: Strategy)
    | UnregisterMsg(id: ActorId)
    | PingMsg(id: ActorId)
    | StatsMsg(receiverGone: bool)
    | TimeoutMsg(id: ActorId, timer: nat)

  /** A timer that was set: about which actor, under which of its registrations, and when it is due. */
  datatype Entry = Entry(id: ActorId, registration: nat, due: nat)

  /** A ping that was handled, and the timer set for it. */
  datatype PingDone = PingDone(at: nat, timer: nat)

  datatype Ending = Current | Overwritten | Removed | TimedOut

  /** One registration: when it was made, the pings handled under it, whether the first of them or its
      removal aborted its timer in time, how and when it ended, and the timers set earlier about the same
      actor that were still outstanding when it was made. */
  datatype Life = Life(id: ActorId, strategy: Strategy, at: nat, timeout: nat, pings: seq<PingDone>,
                       rescued: bool, revoked: bool, ending: Ending, endedAt: nat, strays: set<nat>)

  /** All timers set and all registrations made, by handle, and the timers whose timeout was handled. */
  datatype Chronicle = Chronicle(timers: map<nat, Entry>, lives: map<nat, Life>, expired: set<nat>)

  datatype Tally = Tally(registered: nat, removed: nat, overwritten: nat)

  datatype System = System(dog: WatchdogState, alive: bool, mailbox: seq<Msg>, log: Chronicle, tally: Tally)

  const INIT := System(EMPTY, true, [], Chronicle(map[], map[], {}), Tally(0, 0, 0))

  /** Only a registration's own timer is ever aborted: by its first ping or by its removal. */
  predicate Aborted(log: Chronicle, t: nat) {
    t in log.lives && (log.lives[t].rescued || log.lives[t].revoked)
  }

  predicate Unsettled(log: Chronicle, t: nat) {
    t in log.timers && !Aborted(log, t) && t !in log.expired
  }

  function Strays(log: Chronicle, id: ActorId): set<nat> {
    set t | t in log.timers && log.timers[t].id == id && Unsettled(log, t)
  }

  datatype Step =
    | ClientSends(msg: Msg)
    | Handle
    | SubjectExits(id: ActorId)
    | Fire(timer: nat)
    | Tick(span: nat)

  /** Nothing reaches a watchdog that has failed; only time goes on. */
  predicate Enabled(s: System, step: Step) {
    match step
    case ClientSends(msg) => s.alive && !msg.TimeoutMsg?
    case Handle => s.alive && s.mailbox != []
    case SubjectExits(_) => s.alive
    case Fire(t) => s.alive && t in s.dog.timers.live && s.dog.timers.live[t].due <= s.dog.timers.now
    case Tick(_) => true
  }

  function Apply(s: System, step: Step): System
    requires Enabled(s, step)
  {
    match step
    case ClientSends(msg) => s.(mailbox := s.mailbox + [msg])
    case Handle => HandleMsg(s.(mailbox := s.mailbox[1..]), s.mailbox[0])
    case SubjectExits(id) => Remove(s, id)
    case Fire(t) => Fired(s, t)
    case Tick(span) => Later(s, span)
  }

  function Fired(s: System, t: nat): System
    requires t in s.dog.timers.live
  {
    s.(dog := s.dog.(timers := s.dog.timers.Abort(t)),
       mailbox := s.mailbox + [TimeoutMsg(s.dog.timers.live[t].id, t)])
  }

  function Later(s: System, span: nat): System {
    s.(dog := s.dog.(timers := s.dog.timers.(now := s.dog.timers.now + span)))
  }

  function HandleMsg(s: System, msg: Msg): System {
    match msg
    case RegisterMsg(id, timeout, strategy) => Enrol(s, id, timeout, strategy)
    case UnregisterMsg(id) => Remove(s, id)
    case PingMsg(id) => Pinged(s, id)
    case StatsMsg(receiverGone) => if receiverGone then s.(alive := false) else s
    case TimeoutMsg(id, t) => Expire(s, id, t)
  }

  /** The log with the current registration of an actor, if it has one, brought to an end. */
  function Close(s: System, id: ActorId, ending: Ending, revoked: bool): Chronicle {
    if id in s.dog.subjects && s.dog.subjects[id].timer in s.log.lives then
      var g := s.dog.subjects[id].timer;
      var life := s.log.lives[g].(ending := ending, endedAt := s.dog.timers.now, revoked := revoked);
      s.log.(lives := s.log.lives[g := life])
    else s.log
  }

  function Enrol(s: System, id: ActorId, timeout: nat, strategy: Strategy): System {
    var (g, now, log) := (s.dog.timers.next, s.dog.timers.now, Close(s, id, Overwritten, false));
    System(Register(s.dog, id, timeout, strategy), s.alive, s.mailbox,
           log.(timers := log.timers[g := Entry(id, g, now + timeout)],
                lives := log.lives[g := Life(id, strategy, now, timeout, [], false, false, Current, now,
                                             Strays(s.log, id))]),
           s.tally.(registered := s.tally.registered + 1,
                    overwritten := s.tally.overwritten + if id in s.dog.subjects then 1 else 0))
  }

  function Remove(s: System, id: ActorId): System {
    if id !in s.dog.subjects then s.(dog := Unregister(s.dog, id))
    else
      s.(dog := Unregister(s.dog, id),
         log := Close(s, id, Removed, s.dog.subjects[id].timer in s.dog.timers.live),
         tally := s.tally.(removed := s.tally.removed + 1))
  }

  function Pinged(s: System, id: ActorId): System {
    if id !in s.dog.subjects || s.dog.subjects[id].timer !in s.log.lives then s.(dog := Ping(s.dog, id))
    else
      var (r, t, now) := (s.dog.subjects[id], s.dog.timers.next, s.dog.timers.now);
      var life := s.log.lives[r.timer];
      s.(dog := Ping(s.dog, id),
         log := s.log.(
           timers := s.log.timers[t := Entry(id, r.timer, now + r.timeout)],
           lives := s.log.lives[r.timer := life.(
             pings := life.pings + [PingDone(now, t)],
             rescued := if life.pings == [] then r.timer in s.dog.timers.live else life.rescued)]))
  }

  function Expire(s: System, id: ActorId, t: nat): System {
    var log := Close(s, id, TimedOut, false);
    s.(dog := Timeout(s.dog, id), log := log.(expired := log.expired + {t}))
  }

  datatype Run = Start | Then(prior: Run, step: Step)

  function End(run: Run): System {
    match run
    case Start => INIT
    case Then(prior, step) =>
      var s := End(prior);
      if Enabled(s, step) then Apply(s, step) else s
  }

  ghost predicate Valid(run: Run) {
    run.Then? ==> Valid(run.prior) && Enabled(End(run.prior), run.step)
  }

  /** As long as the watchdog lives, time passes no live timer by, and does not pass while a timeout
      waits to be handled. */
  ghost predicate Prompt(run: Run) {
    run.Then? ==>
      && Prompt(run.prior)
      && (run.step.Tick? && End(run.prior).alive ==> MayTick(End(run.prior), run.step.span))
  }

  ghost predicate MayTick(s: System, span: nat) {
    && (forall t | t in s.dog.timers.live :: s.dog.timers.now + span <= s.dog.timers.live[t].due)
    && (forall m | m in s.mailbox :: !m.TimeoutMsg?)
  }

  // ---------- The log is about what is there ----------

  ghost predicate TimersLogged(s: System) {
    var (timers, log) := (s.dog.timers, s.log);
    && (forall t: nat :: t in log.timers <==> t < timers.next)
    && (forall t | t in timers.live :: t in log.timers && timers.live[t] == Timer(log.timers[t].id, log.timers[t].due))
    && (forall m | m in s.mailbox && m.TimeoutMsg? :: m.timer in log.timers && log.timers[m.timer].id == m.id)
    && log.expired <= log.timers.Keys
  }

  /** A subject's registration is the current one of its actor. */
  predicate SubjectLogged(s: System, id: ActorId)
    requires id in s.dog.subjects
  {
    var (r, lives) := (s.dog.subjects[id], s.log.lives);
    && r.timer in lives && lives[r.timer].id == id && lives[r.timer].ending.Current?
    && r == Registration(lives[r.timer].timeout, lives[r.timer].strategy, r.timer)
  }

  predicate LifeLogged(s: System, g: nat)
    requires g in s.log.lives
  {
    var life := s.log.lives[g];
    && g in s.log.timers && s.log.timers[g] == Entry(life.id, g, life.at + life.timeout)
    && (life.ending.Current? ==> life.id in s.dog.subjects && s.dog.subjects[life.id].timer == g)
  }

  ghost predicate LivesLogged(s: System) {
    && (forall id | id in s.dog.subjects :: SubjectLogged(s, id))
    && (forall g | g in s.log.lives :: LifeLogged(s, g))
  }

  /** What is logged of the pings under one registration. */
  ghost predicate PingsLogged(s: System, g: nat)
    requires g in s.log.lives
  {
    var (life, log) := (s.log.lives[g], s.log);
    && (forall p | p in life.pings ::
          && p.timer in log.timers && p.timer !in log.lives
          && log.timers[p.timer] == Entry(life.id, g, p.at + life.timeout))
    && (life.pings == [] ==> !life.rescued)
    && (life.revoked ==> life.ending.Removed? && life.pings == [])
    && (life.ending.Current? && life.pings != [] ==> g !in s.dog.timers.live)
  }

  /** A timer was set by a registration, or by a ping under one. */
  ghost predicate Explained(log: Chronicle, t: nat)
    requires t in log.timers
  {
    var e := log.timers[t];
    && e.registration in log.lives && log.lives[e.registration].id == e.id
    && (t == e.registration || exists p :: p in log.lives[e.registration].pings && p.timer == t)
  }

  ghost predicate TimersExplained(log: Chronicle) {
    forall t | t in log.timers :: Explained(log, t)
  }

  /** Pings are only ever added to a registration, and nobody else's timers are touched. */
  lemma StaysExplained(log: Chronicle, log': Chronicle, t: nat)
    requires t in log.timers && Explained(log, t)
    requires t in log'.timers && log'.timers[t] == log.timers[t]
    requires var g := log.timers[t].registration;
             g in log'.lives && log'.lives[g].id == log.lives[g].id && log.lives[g].pings <= log'.lives[g].pings
    ensures Explained(log', t)
  {
    var g := log.timers[t].registration;
    if t != g {
      var p :| p in log.lives[g].pings && p.timer == t;
      assert p in log'.lives[g].pings;
    }
  }

  ghost predicate Logged(s: System) {
    && TimersLogged(s) && LivesLogged(s) && TimersExplained(s.log)
    && (forall g | g in s.log.lives :: PingsLogged(s, g))
  }

  lemma EnrolTimers(s: System, id: ActorId, timeout: nat, strategy: Strategy)
    requires TimersLogged(s)
    ensures TimersLogged(Enrol(s, id, timeout, strategy))
  {
  }

  lemma EnrolLives(s: System, id: ActorId, timeout: nat, strategy: Strategy)
    requires TimersLogged(s) && LivesLogged(s)
    ensures LivesLogged(Enrol(s, id, timeout, strategy))
  {
    var s' := Enrol(s, id, timeout, strategy);
    forall k | k in s'.dog.subjects
      ensures SubjectLogged(s', k)
    {
      if k != id {
        assert SubjectLogged(s, k);
      }
    }
    forall g | g in s'.log.lives
      ensures LifeLogged(s', g)
    {
      assert g in s.log.lives ==> LifeLogged(s, g);
    }
  }

  lemma EnrolPings(s: System, id: ActorId, timeout: nat, strategy: Strategy, g: nat)
    requires TimersLogged(s) && LivesLogged(s) && g in Enrol(s, id, timeout, strategy).log.lives
    requires g in s.log.lives ==> PingsLogged(s, g)
    ensures PingsLogged(Enrol(s, id, timeout, strategy), g)
  {
  }

  lemma EnrolExplained(s: System, id: ActorId, timeout: nat, strategy: Strategy)
    requires TimersLogged(s) && LivesLogged(s) && TimersExplained(s.log)
    ensures TimersExplained(Enrol(s, id, timeout, strategy).log)
  {
    var log' := Enrol(s, id, timeout, strategy).log;
    forall k | k in s.log.timers
      ensures Explained(log', k)
    {
      StaysExplained(s.log, log', k);
    }
  }

  lemma RemoveLives(s: System, id: ActorId)
    requires TimersLogged(s) && LivesLogged(s)
    ensures TimersLogged(Remove(s, id)) && LivesLogged(Remove(s, id))
  {
    if id in s.dog.subjects {
      var g := s.dog.subjects[id].timer;
      assert g in s.log.lives && s.log.lives[g].id == id;
    }
  }

  lemma RemovePings(s: System, id: ActorId, g: nat)
    requires TimersLogged(s) && LivesLogged(s) && g in Remove(s, id).log.lives
    requires g in s.log.lives ==> PingsLogged(s, g)
    ensures PingsLogged(Remove(s, id), g)
  {
  }

  lemma RemoveExplained(s: System, id: ActorId)
    requires TimersLogged(s) && LivesLogged(s) && TimersExplained(s.log)
    ensures TimersExplained(Remove(s, id).log)
  {
    var log' := Remove(s, id).log;
    forall k | k in s.log.timers
      ensures Explained(log', k)
    {
      StaysExplained(s.log, log', k);
    }
  }

  lemma PingedLives(s: System, id: ActorId)
    requires TimersLogged(s) && LivesLogged(s)
    ensures TimersLogged(Pinged(s, id)) && LivesLogged(Pinged(s, id))
  {
  }

  lemma PingedPings(s: System, id: ActorId, g: nat)
    requires TimersLogged(s) && LivesLogged(s) && g in Pinged(s, id).log.lives
    requires g in s.log.lives ==> PingsLogged(s, g)
    ensures PingsLogged(Pinged(s, id), g)
  {
  }

  lemma PingedExplained(s: System, id: ActorId)
    requires TimersLogged(s) && LivesLogged(s) && TimersExplained(s.log)
    ensures TimersExplained(Pinged(s, id).log)
  {
    var log' := Pinged(s, id).log;
    forall k | k in s.log.timers
      ensures Explained(log', k)
    {
      StaysExplained(s.log, log', k);
    }
    if id in s.dog.subjects {
      var (g, t) := (s.dog.subjects[id].timer, s.dog.timers.next);
      assert PingDone(s.dog.timers.now, t) in log'.lives[g].pings;
    }
  }

  lemma ExpireLives(s: System, id: ActorId, t: nat)
    requires TimersLogged(s) && LivesLogged(s) && t in s.log.timers
    ensures TimersLogged(Expire(s, id, t)) && LivesLogged(Expire(s, id, t))
  {
    if id in s.dog.subjects {
      var g := s.dog.subjects[id].timer;
      assert g in s.log.lives && s.log.lives[g].id == id;
    }
  }

  lemma ExpirePings(s: System, id: ActorId, t: nat, g: nat)
    requires TimersLogged(s) && LivesLogged(s) && g in Expire(s, id, t).log.lives
    requires g in s.log.lives ==> PingsLogged(s, g)
    ensures PingsLogged(Expire(s, id, t), g)
  {
  }

  lemma ExpireExplained(s: System, id: ActorId, t: nat)
    requires TimersLogged(s) && LivesLogged(s) && TimersExplained(s.log)
    ensures TimersExplained(Expire(s, id, t).log)
  {
    var log' := Expire(s, id, t).log;
    forall k | k in s.log.timers
      ensures Explained(log', k)
    {
      StaysExplained(s.log, log', k);
    }
  }

  lemma LoggedHandled(s: System, msg: Msg)
    requires Logged(s) && (msg.TimeoutMsg? ==> msg.timer in s.log.timers)
    ensures Logged(HandleMsg(s, msg))
  {
    var s' := HandleMsg(s, msg);
    match msg
    case StatsMsg(_) =>
    case RegisterMsg(id, timeout, strategy) =>
      EnrolTimers(s, id, timeout, strategy);
      EnrolLives(s, id, timeout, strategy);
      EnrolExplained(s, id, timeout, strategy);
      forall g | g in s'.log.lives {
        EnrolPings(s, id, timeout, strategy, g);
      }
    case UnregisterMsg(id) => RemoveLogged(s, id);
    case PingMsg(id) =>
      PingedLives(s, id);
      PingedExplained(s, id);
      forall g | g in s'.log.lives {
        PingedPings(s, id, g);
      }
    case TimeoutMsg(id, t) =>
      ExpireLives(s, id, t);
      ExpireExplained(s, id, t);
      forall g | g in s'.log.lives {
        ExpirePings(s, id, t, g);
      }
  }

  lemma RemoveLogged(s: System, id: ActorId)
    requires Logged(s)
    ensures Logged(Remove(s, id))
  {
    RemoveLives(s, id);
    RemoveExplained(s, id);
    forall g | g in Remove(s, id).log.lives {
      RemovePings(s, id, g);
    }
  }

  lemma DequeueLogged(s: System)
    requires Logged(s) && s.mailbox != []
    ensures Logged(s.(mailbox := s.mailbox[1..]))
    ensures s.mailbox[0].TimeoutMsg? ==> s.mailbox[0].timer in s.log.timers
  {
  }

  /** A step that touches neither the subjects nor the log. */
  lemma QuietLogged(s: System, s': System)
    requires Logged(s) && s'.log == s.log && s'.dog.subjects == s.dog.subjects
    requires TimersLogged(s')
    requires forall t | t in s'.dog.timers.live :: t in s.dog.timers.live
    ensures Logged(s')
  {
  }

  lemma LoggedKept(s: System, step: Step)
    requires Enabled(s, step) && Logged(s)
    ensures Logged(Apply(s, step))
  {
    if step.Handle? {
      DequeueLogged(s);
      LoggedHandled(s.(mailbox := s.mailbox[1..]), s.mailbox[0]);
    } else if step.SubjectExits? {
      RemoveLogged(s, step.id);
    } else {
      QuietLogged(s, Apply(s, step));
    }
  }

  // ---------- The log only grows ----------

  /** The same registration later on; nothing about it changes once it has ended. */
  predicate Continues(a: Life, b: Life) {
    && b.id == a.id && b.strategy == a.strategy && b.at == a.at && b.timeout == a.timeout && b.strays == a.strays
    && a.pings <= b.pings && (a.rescued ==> b.rescued) && (a.revoked ==> b.revoked)
    && (!a.ending.Current? ==> b == a)
  }

  ghost predicate Grows(log: Chronicle, log': Chronicle) {
    && (forall t | t in log.timers :: t in log'.timers && log'.timers[t] == log.timers[t])
    && (forall g | g in log.lives :: g in log'.lives && Continues(log.lives[g], log'.lives[g]))
  }

  lemma CloseGrows(s: System, id: ActorId)
    requires Logged(s) && id in s.dog.subjects
    ensures var g := s.dog.subjects[id].timer;
            g in s.log.lives && s.log.lives[g].ending.Current? && !s.log.lives[g].revoked
  {
    assert SubjectLogged(s, id) && PingsLogged(s, s.dog.subjects[id].timer);
  }

  lemma EnrolGrows(s: System, id: ActorId, timeout: nat, strategy: Strategy)
    requires Logged(s)
    ensures Grows(s.log, Enrol(s, id, timeout, strategy).log)
  {
    if id in s.dog.subjects {
      CloseGrows(s, id);
    }
  }

  lemma RemoveGrows(s: System, id: ActorId)
    requires Logged(s)
    ensures Grows(s.log, Remove(s, id).log)
  {
    if id in s.dog.subjects {
      CloseGrows(s, id);
    }
  }

  lemma PingedGrows(s: System, id: ActorId)
    requires Logged(s)
    ensures Grows(s.log, Pinged(s, id).log)
  {
    if id in s.dog.subjects {
      CloseGrows(s, id);
    }
  }

  lemma ExpireGrows(s: System, id: ActorId, t: nat)
    requires Logged(s)
    ensures Grows(s.log, Expire(s, id, t).log)
  {
    if id in s.dog.subjects {
      CloseGrows(s, id);
    }
  }

  lemma LogGrows(s: System, step: Step)
    requires Enabled(s, step) && Logged(s)
    ensures Grows(s.log, Apply(s, step).log)
  {
    if step.Handle? {
      var (rest, msg) := (s.(mailbox := s.mailbox[1..]), s.mailbox[0]);
      DequeueLogged(s);
      if msg.RegisterMsg? {
        EnrolGrows(rest, msg.id, msg.timeout, msg.strategy);
      } else if msg.UnregisterMsg? {
        RemoveGrows(rest, msg.id);
      } else if msg.PingMsg? {
        PingedGrows(rest, msg.id);
      } else if msg.TimeoutMsg? {
        ExpireGrows(rest, msg.id, msg.timer);
      }
    } else if step.SubjectExits? {
      RemoveGrows(s, step.id);
    }
  }

  // ---------- Where each timer is ----------

  ghost predicate Queued(s: System, t: nat) {
    t in s.log.timers && TimeoutMsg(s.log.timers[t].id, t) in s.mailbox
  }

  ghost predicate NoTimeoutTwice(mailbox: seq<Msg>) {
    forall i, j | 0 <= i < j < |mailbox| && mailbox[i].TimeoutMsg? && mailbox[j].TimeoutMsg? ::
      mailbox[i].timer != mailbox[j].timer
  }

  /** A timeout for it is on its way: the timer is live or its message is queued. */
  ghost predicate Outstanding(s: System, t: nat) {
    t in s.dog.timers.live || Queued(s, t)
  }

  /** A timer is outstanding until it is aborted or its timeout handled, and then no more. */
  ghost predicate PlacedAt(s: System, t: nat)
    requires t in s.log.timers
  {
    && (Unsettled(s.log, t) <==> Outstanding(s, t))
    && !(t in s.dog.timers.live && Queued(s, t))
  }

  ghost predicate Placed(s: System) {
    NoTimeoutTwice(s.mailbox) && forall t | t in s.log.timers :: PlacedAt(s, t)
  }

  lemma EnrolPlaced(s: System, id: ActorId, timeout: nat, strategy: Strategy, t: nat)
    requires Logged(s) && t in Enrol(s, id, timeout, strategy).log.timers && (t in s.log.timers ==> PlacedAt(s, t))
    ensures PlacedAt(Enrol(s, id, timeout, strategy), t)
  {
  }

  lemma RemovePlaced(s: System, id: ActorId, t: nat)
    requires Logged(s) && t in s.log.timers && PlacedAt(s, t)
    ensures PlacedAt(Remove(s, id), t)
  {
  }

  lemma PingedPlaced(s: System, id: ActorId, t: nat)
    requires Logged(s) && t in Pinged(s, id).log.timers && (t in s.log.timers ==> PlacedAt(s, t))
    ensures PlacedAt(Pinged(s, id), t)
  {
  }

  lemma HeadLeaves(s: System, t: nat)
    requires Placed(s) && TimersLogged(s) && s.mailbox != [] && t in s.log.timers
    ensures var rest := s.(mailbox := s.mailbox[1..]);
            Queued(rest, t) <==> Queued(s, t) && !(s.mailbox[0].TimeoutMsg? && s.mailbox[0].timer == t)
  {
    assert s.mailbox == [s.mailbox[0]] + s.mailbox[1..];
  }

  lemma HeadPlaced(s: System)
    requires TimersLogged(s) && Placed(s) && s.mailbox != [] && s.mailbox[0].TimeoutMsg?
    ensures var t := s.mailbox[0].timer;
            && t in s.log.timers && s.log.timers[t].id == s.mailbox[0].id
            && t !in s.dog.timers.live && Unsettled(s.log, t)
  {
    assert s.mailbox[0] in s.mailbox;
    assert Queued(s, s.mailbox[0].timer) && PlacedAt(s, s.mailbox[0].timer);
  }

  lemma ExpirePlaced(s: System, t: nat)
    requires Logged(s) && Placed(s) && s.mailbox != [] && s.mailbox[0].TimeoutMsg? && t in s.log.timers
    ensures PlacedAt(Expire(s.(mailbox := s.mailbox[1..]), s.mailbox[0].id, s.mailbox[0].timer), t)
  {
    HeadLeaves(s, t);
    HeadPlaced(s);
    assert PlacedAt(s, t);
  }

  lemma FiredPlaced(s: System, fired: nat, t: nat)
    requires fired in s.dog.timers.live && Logged(s) && Placed(s) && t in s.log.timers
    ensures PlacedAt(Fired(s, fired), t)
  {
    assert PlacedAt(s, fired);
  }

  lemma PlacedHandled(s: System, t: nat)
    requires s.alive && Logged(s) && Placed(s) && s.mailbox != [] && t in Apply(s, Handle).log.timers
    ensures PlacedAt(Apply(s, Handle), t)
  {
    var (rest, msg) := (s.(mailbox := s.mailbox[1..]), s.mailbox[0]);
    DequeueLogged(s);
    if msg.TimeoutMsg? {
      ExpirePlaced(s, t);
    } else {
      if t in s.log.timers {
        HeadLeaves(s, t);
      }
      if msg.RegisterMsg? {
        EnrolPlaced(rest, msg.id, msg.timeout, msg.strategy, t);
      } else if msg.UnregisterMsg? {
        RemovePlaced(rest, msg.id, t);
      } else if msg.PingMsg? {
        PingedPlaced(rest, msg.id, t);
      }
    }
  }

  lemma NoneTwice(s: System, step: Step)
    requires Enabled(s, step) && TimersLogged(s) && Placed(s)
    ensures NoTimeoutTwice(Apply(s, step).mailbox)
  {
    if step.Fire? {
      assert !Queued(s, step.timer) by {
        assert PlacedAt(s, step.timer);
      }
    }
  }

  lemma PlacedKept(s: System, step: Step)
    requires Enabled(s, step) && Logged(s) && Placed(s)
    ensures Placed(Apply(s, step))
  {
    NoneTwice(s, step);
    forall t | t in Apply(s, step).log.timers
      ensures PlacedAt(Apply(s, step), t)
    {
      PlacedStep(s, step, t);
    }
  }

  lemma PlacedStep(s: System, step: Step, t: nat)
    requires Enabled(s, step) && Logged(s) && Placed(s) && t in Apply(s, step).log.timers
    ensures PlacedAt(Apply(s, step), t)
  {
    if step.Handle? {
      PlacedHandled(s, t);
    } else if step.SubjectExits? {
      RemovePlaced(s, step.id, t);
    } else if step.Fire? {
      FiredPlaced(s, step.timer, t);
    } else {
      assert PlacedAt(s, t);
    }
  }

  // ---------- What threatens a registration ----------

  /** The timeouts that would end registration `g`: of timers left over from before it, of its own timer
      unless its first ping came in time, and of the timer of every ping under it. */
  predicate Threat(log: Chronicle, g: nat, t: nat)
    requires g in log.lives
  {
    && t in log.timers
    && (t in log.lives[g].strays || (log.timers[t].registration == g && !(t == g && log.lives[g].rescued)))
  }

  /** Strays belong to the same actor and cannot be aborted any more. */
  predicate StraysSound(log: Chronicle, g: nat)
    requires g in log.lives
  {
    forall t | t in log.lives[g].strays ::
      && t < g && t in log.timers && log.timers[t].id == log.lives[g].id && !Aborted(log, t)
      && (t in log.lives ==> !log.lives[t].ending.Current?)
  }

  lemma EnrolStrays(s: System, id: ActorId, timeout: nat, strategy: Strategy, g: nat)
    requires Logged(s) && g in Enrol(s, id, timeout, strategy).log.lives && (g in s.log.lives ==> StraysSound(s.log, g))
    ensures StraysSound(Enrol(s, id, timeout, strategy).log, g)
  {
  }

  lemma RemoveStrays(s: System, id: ActorId, g: nat)
    requires Logged(s) && g in Remove(s, id).log.lives && (g in s.log.lives ==> StraysSound(s.log, g))
    ensures StraysSound(Remove(s, id).log, g)
  {
  }

  lemma PingedStrays(s: System, id: ActorId, g: nat)
    requires Logged(s) && g in Pinged(s, id).log.lives && (g in s.log.lives ==> StraysSound(s.log, g))
    ensures StraysSound(Pinged(s, id).log, g)
  {
  }

  lemma ExpireStrays(s: System, id: ActorId, t: nat, g: nat)
    requires Logged(s) && g in Expire(s, id, t).log.lives && (g in s.log.lives ==> StraysSound(s.log, g))
    ensures StraysSound(Expire(s, id, t).log, g)
  {
  }

  lemma StraysKept(s: System, step: Step, g: nat)
    requires Enabled(s, step) && Logged(s) && g in Apply(s, step).log.lives
    requires g in s.log.lives ==> StraysSound(s.log, g)
    ensures StraysSound(Apply(s, step).log, g)
  {
    if step.Handle? {
      var (rest, msg) := (s.(mailbox := s.mailbox[1..]), s.mailbox[0]);
      DequeueLogged(s);
      match msg
      case StatsMsg(_) =>
      case RegisterMsg(id, timeout, strategy) => EnrolStrays(rest, id, timeout, strategy, g);
      case UnregisterMsg(id) => RemoveStrays(rest, id, g);
      case PingMsg(id) => PingedStrays(rest, id, g);
      case TimeoutMsg(id, t) => ExpireStrays(rest, id, t, g);
    } else if step.SubjectExits? {
      RemoveStrays(s, step.id, g);
    }
  }

  /** The timers outstanding about a subject are exactly those that threaten its registration. */
  ghost predicate Exact(s: System, id: ActorId) {
    id in s.dog.subjects ==>
      && s.dog.subjects[id].timer in s.log.lives
      && forall t | t in s.log.timers && s.log.timers[t].id == id :: ExactAt(s, id, t)
  }

  ghost predicate ExactAt(s: System, id: ActorId, t: nat)
    requires id in s.dog.subjects && s.dog.subjects[id].timer in s.log.lives
  {
    Unsettled(s.log, t) <==> Threat(s.log, s.dog.subjects[id].timer, t)
  }

  /** A registration starts out threatened by its own timer and by all that is left over. */
  lemma EnrolNew(s: System, id: ActorId, timeout: nat, strategy: Strategy)
    requires Logged(s)
    ensures Exact(Enrol(s, id, timeout, strategy), id)
  {
    var s' := Enrol(s, id, timeout, strategy);
    forall t | t in s'.log.timers && s'.log.timers[t].id == id
      ensures ExactAt(s', id, t)
    {
      if t in s.log.timers {
        assert Explained(s.log, t);
      }
    }
  }

  lemma EnrolElsewhere(s: System, who: ActorId, timeout: nat, strategy: Strategy, id: ActorId)
    requires Logged(s) && Exact(s, id) && id != who
    ensures Exact(Enrol(s, who, timeout, strategy), id)
  {
    var s' := Enrol(s, who, timeout, strategy);
    if id in s.dog.subjects {
      assert SubjectLogged(s, id);
      forall t | t in s'.log.timers && s'.log.timers[t].id == id
        ensures ExactAt(s', id, t)
      {
        assert ExactAt(s, id, t);
      }
    }
  }

  lemma EnrolExact(s: System, who: ActorId, timeout: nat, strategy: Strategy, id: ActorId)
    requires Logged(s) && Exact(s, id)
    ensures Exact(Enrol(s, who, timeout, strategy), id)
  {
    if id == who {
      EnrolNew(s, id, timeout, strategy);
    } else {
      EnrolElsewhere(s, who, timeout, strategy, id);
    }
  }

  lemma RemoveExact(s: System, who: ActorId, id: ActorId)
    requires Logged(s) && Exact(s, id)
    ensures Exact(Remove(s, who), id)
  {
    var s' := Remove(s, who);
    if id in s'.dog.subjects {
      forall t | t in s'.log.timers && s'.log.timers[t].id == id
        ensures ExactAt(s', id, t)
      {
        assert ExactAt(s, id, t);
      }
    }
  }

  /** A ping takes the place of the registration's own timeout if it comes in time, and adds to them otherwise. */
  lemma PingedOwn(s: System, id: ActorId)
    requires Logged(s) && Exact(s, id) && (forall g | g in s.log.lives :: StraysSound(s.log, g))
    requires id in s.dog.subjects
    ensures Exact(Pinged(s, id), id)
  {
    var (s', g) := (Pinged(s, id), s.dog.subjects[id].timer);
    assert SubjectLogged(s, id) && StraysSound(s.log, g) && PingsLogged(s, g);
    forall t | t in s'.log.timers && s'.log.timers[t].id == id
      ensures ExactAt(s', id, t)
    {
      if t in s.log.timers {
        assert ExactAt(s, id, t);
      }
    }
  }

  lemma PingedElsewhere(s: System, who: ActorId, id: ActorId)
    requires Logged(s) && Exact(s, id) && id != who
    ensures Exact(Pinged(s, who), id)
  {
    var s' := Pinged(s, who);
    if id in s.dog.subjects {
      assert SubjectLogged(s, id);
      forall t | t in s'.log.timers && s'.log.timers[t].id == id
        ensures ExactAt(s', id, t)
      {
        assert ExactAt(s, id, t);
      }
    }
  }

  lemma PingedExact(s: System, who: ActorId, id: ActorId)
    requires Logged(s) && Exact(s, id) && (forall g | g in s.log.lives :: StraysSound(s.log, g))
    ensures Exact(Pinged(s, who), id)
  {
    if id != who {
      PingedElsewhere(s, who, id);
    } else if id in s.dog.subjects {
      PingedOwn(s, id);
    }
  }

  /** A timeout about another actor changes nothing about this one. */
  lemma ExpireElsewhere(s: System, who: ActorId, expired: nat, t: nat)
    requires Logged(s) && expired in s.log.timers && s.log.timers[expired].id == who
    requires t in s.log.timers && s.log.timers[t].id != who
    ensures Unsettled(Expire(s, who, expired).log, t) <==> Unsettled(s.log, t)
    ensures t in s.log.lives ==> Expire(s, who, expired).log.lives[t] == s.log.lives[t]
  {
    if who in s.dog.subjects {
      assert SubjectLogged(s, who);
    }
    if t in s.log.lives {
      assert LifeLogged(s, t);
    }
  }

  lemma ExpireExact(s: System, who: ActorId, expired: nat, id: ActorId)
    requires Logged(s) && Exact(s, id)
    requires expired in s.log.timers && s.log.timers[expired].id == who
    ensures Exact(Expire(s, who, expired), id)
  {
    var s' := Expire(s, who, expired);
    if id in s'.dog.subjects {
      var g := s.dog.subjects[id].timer;
      assert id in s.dog.subjects && s'.dog.subjects[id].timer == g && SubjectLogged(s, id) && LifeLogged(s, g);
      ExpireElsewhere(s, who, expired, g);
      forall t | t in s.log.timers && s.log.timers[t].id == id
        ensures ExactAt(s', id, t)
      {
        assert ExactAt(s, id, t);
        ExpireElsewhere(s, who, expired, t);
      }
    }
  }

  lemma ExactHandled(s: System, msg: Msg, id: ActorId)
    requires Logged(s) && Exact(s, id) && (forall g | g in s.log.lives :: StraysSound(s.log, g))
    requires msg.TimeoutMsg? ==> msg.timer in s.log.timers && s.log.timers[msg.timer].id == msg.id
    ensures Exact(HandleMsg(s, msg), id)
  {
    match msg
    case StatsMsg(_) =>
    case RegisterMsg(who, timeout, strategy) => EnrolExact(s, who, timeout, strategy, id);
    case UnregisterMsg(who) => RemoveExact(s, who, id);
    case PingMsg(who) => PingedExact(s, who, id);
    case TimeoutMsg(who, t) => ExpireExact(s, who, t, id);
  }

  lemma ExactKept(s: System, step: Step, id: ActorId)
    requires Enabled(s, step) && Logged(s) && Placed(s) && Exact(s, id)
    requires forall g | g in s.log.lives :: StraysSound(s.log, g)
    ensures Exact(Apply(s, step), id)
  {
    if step.Handle? {
      DequeueLogged(s);
      if s.mailbox[0].TimeoutMsg? {
        HeadPlaced(s);
      }
      ExactHandled(s.(mailbox := s.mailbox[1..]), s.mailbox[0], id);
    } else if step.SubjectExits? {
      RemoveExact(s, step.id, id);
    } else {
      SameExact(s, Apply(s, step), id);
    }
  }

  lemma SameExact(s: System, s': System, id: ActorId)
    requires s'.log == s.log && s'.dog.subjects == s.dog.subjects && Exact(s, id)
    ensures Exact(s', id)
  {
    if id in s.dog.subjects {
      forall t | t in s.log.timers && s.log.timers[t].id == id
        ensures ExactAt(s', id, t)
      {
        assert ExactAt(s, id, t);
      }
    }
  }

  // ---------- Orders ----------

  /** The orders given to terminate are one for each registration that ended by a timeout. */
  ghost predicate OrdersLogged(s: System) {
    && (forall o | o in s.dog.orders :: OrderLogged(s.log, o))
    && (forall g | g in s.log.lives && s.log.lives[g].ending.TimedOut? :: Ordered(s.dog.orders, g))
  }

  predicate OrderLogged(log: Chronicle, o: Order) {
    && o.registration in log.lives && log.lives[o.registration].ending.TimedOut?
    && log.lives[o.registration].id == o.id && log.lives[o.registration].strategy == o.strategy
  }

  ghost predicate Ordered(orders: seq<Order>, g: nat) {
    exists o :: o in orders && o.registration == g
  }

  /** What is handled does not depend on what is queued behind it. */
  lemma QueueIgnored(s: System)
    requires s.alive && s.mailbox != []
    ensures Apply(s, Handle).log == HandleMsg(s, s.mailbox[0]).log
    ensures Apply(s, Handle).dog == HandleMsg(s, s.mailbox[0]).dog
  {
  }

  lemma ExpireOrders(s: System, id: ActorId, t: nat)
    requires Logged(s) && OrdersLogged(s)
    ensures OrdersLogged(Expire(s, id, t))
  {
    var (s', orders) := (Expire(s, id, t), s.dog.orders);
    if id in s.dog.subjects {
      assert SubjectLogged(s, id);
      var last := s'.dog.orders[|orders|];
      assert last in s'.dog.orders && last.registration == s.dog.subjects[id].timer;
      assert forall o :: o in s'.dog.orders <==> o in orders || o == last;
      forall g | g in s'.log.lives && s'.log.lives[g].ending.TimedOut?
        ensures Ordered(s'.dog.orders, g)
      {
        if g != last.registration {
          var o :| o in orders && o.registration == g;
          assert o in s'.dog.orders;
        }
      }
    }
  }

  /** A step without a timeout gives no order and ends nothing by one. */
  lemma NothingTimesOut(s: System, step: Step)
    requires Enabled(s, step) && (step.Handle? ==> !s.mailbox[0].TimeoutMsg?)
    ensures Apply(s, step).dog.orders == s.dog.orders
    ensures forall g | g in Apply(s, step).log.lives && Apply(s, step).log.lives[g].ending.TimedOut? ::
              g in s.log.lives && s.log.lives[g].ending.TimedOut?
  {
  }

  lemma OthersOrders(s: System, s': System)
    requires OrdersLogged(s) && Grows(s.log, s'.log) && s'.dog.orders == s.dog.orders
    requires forall g | g in s'.log.lives && s'.log.lives[g].ending.TimedOut? ::
               g in s.log.lives && s.log.lives[g].ending.TimedOut?
    ensures OrdersLogged(s')
  {
    forall o | o in s.dog.orders
      ensures OrderLogged(s'.log, o)
    {
      assert OrderLogged(s.log, o) && Continues(s.log.lives[o.registration], s'.log.lives[o.registration]);
    }
  }

  lemma OrdersKept(s: System, step: Step)
    requires Enabled(s, step) && Logged(s) && OrdersLogged(s)
    ensures OrdersLogged(Apply(s, step))
  {
    if step.Handle? && s.mailbox[0].TimeoutMsg? {
      DequeueLogged(s);
      ExpireOrders(s.(mailbox := s.mailbox[1..]), s.mailbox[0].id, s.mailbox[0].timer);
    } else {
      LogGrows(s, step);
      NothingTimesOut(s, step);
      OthersOrders(s, Apply(s, step));
    }
  }

  // ---------- Over whole runs ----------

  ghost predicate Books(s: System) {
    Logged(s) && Placed(s) && OrdersLogged(s) && forall g | g in s.log.lives :: StraysSound(s.log, g)
  }

  lemma BooksKept(s: System, step: Step)
    requires Enabled(s, step) && Books(s)
    ensures Books(Apply(s, step))
  {
    LoggedKept(s, step);
    PlacedKept(s, step);
    OrdersKept(s, step);
    forall g | g in Apply(s, step).log.lives {
      StraysKept(s, step, g);
    }
  }

  lemma {:induction false} AlwaysBooked(run: Run)
    requires Valid(run)
    ensures Books(End(run))
  {
    if run.Then? {
      AlwaysBooked(run.prior);
      BooksKept(End(run.prior), run.step);
    }
  }

  lemma {:induction false} ExactOverRuns(run: Run, id: ActorId)
    requires Valid(run)
    ensures Exact(End(run), id)
  {
    if run.Then? {
      AlwaysBooked(run.prior);
      ExactOverRuns(run.prior, id);
      ExactKept(End(run.prior), run.step, id);
    }
  }
}
