/** What the subjects of the watchdog can rely on, over every run. */
module WatchdogRuns {
  import opened WatchdogActor
  import opened WatchdogSystem

  /** For every subject, whatever was registered, pinged and unregistered before: the timeouts on their
      way about it are exactly those that threaten its current registration. */
  lemma {:induction false} AlwaysExact(run: Run, id: ActorId)
    requires Valid(run) && id in End(run).dog.subjects
    ensures var (s, g) := (End(run), End(run).dog.subjects[id].timer);
            && g in s.log.lives && s.log.lives[g].id == id && s.log.lives[g].ending.Current?
            && forall t ::
                 (t in s.log.timers && s.log.timers[t].id == id && Outstanding(s, t)) <==> Threat(s.log, g, t)
  {
    AlwaysBooked(run);
    ExactOverRuns(run, id);
    var (s, g) := (End(run), End(run).dog.subjects[id].timer);
    assert SubjectLogged(s, id);
    forall t
      ensures (t in s.log.timers && s.log.timers[t].id == id && Outstanding(s, t)) <==> Threat(s.log, g, t)
    {
      if t in s.log.timers {
        assert PlacedAt(s, t) && Explained(s.log, t);
        assert s.log.timers[t].id == id ==> ExactAt(s, id, t);
      }
    }
  }

  // ---------- Bounded response ----------

  /** When the last registration or ping was handled. */
  function Touched(life: Life): nat {
    if life.pings == [] then life.at else life.pings[|life.pings| - 1].at
  }

  /** The timer of the last registration or ping. */
  function LastTimer(log: Chronicle, g: nat): nat
    requires g in log.lives
  {
    var pings := log.lives[g].pings;
    if pings == [] then g else pings[|pings| - 1].timer
  }

  lemma LastTimerThreatens(s: System, g: nat)
    requires Logged(s) && g in s.log.lives
    ensures var t := LastTimer(s.log, g);
            && Threat(s.log, g, t) && s.log.timers[t].id == s.log.lives[g].id
            && s.log.timers[t].due == Touched(s.log.lives[g]) + s.log.lives[g].timeout
  {
    var pings := s.log.lives[g].pings;
    assert LifeLogged(s, g) && PingsLogged(s, g);
    if pings != [] {
      assert pings[|pings| - 1] in pings;
    }
  }

  lemma {:induction false} LastTimerOutstanding(run: Run, g: nat)
    requires Valid(run) && g in End(run).log.lives && End(run).log.lives[g].ending.Current?
    ensures Outstanding(End(run), LastTimer(End(run).log, g))
  {
    AlwaysBooked(run);
    assert LifeLogged(End(run), g);
    AlwaysExact(run, End(run).log.lives[g].id);
    LastTimerThreatens(End(run), g);
  }

  /** Every request for statistics handled so far found somebody to tell. */
  ghost predicate StatsAnswered(run: Run) {
    run.Then? ==>
      && StatsAnswered(run.prior)
      && (run.step.Handle? && End(run.prior).mailbox != [] ==> End(run.prior).mailbox[0] != StatsMsg(true))
  }

  lemma {:induction false} AliveIffAnswered(run: Run)
    requires Valid(run)
    ensures End(run).alive <==> StatsAnswered(run)
  {
    if run.Then? {
      AliveIffAnswered(run.prior);
    }
  }

  /** Nothing is left to fire or to handle. */
  ghost predicate Settled(s: System) {
    !Enabled(s, Handle) && forall t :: !Enabled(s, Fire(t))
  }

  /** Bounded response: once the due timers have fired and the mailbox is empty, every registration
      that was neither removed nor overwritten and has been silent for its timeout has been ordered to
      terminate, by its strategy, unless a reply with statistics failed before. */
  lemma {:induction false} SilentSubjectsAreTerminated(run: Run, g: nat)
    requires Valid(run) && g in End(run).log.lives && Settled(End(run))
    requires var (s, life) := (End(run), End(run).log.lives[g]);
             && !life.ending.Overwritten? && !life.ending.Removed?
             && Touched(life) + life.timeout <= s.dog.timers.now
    ensures var life := End(run).log.lives[g];
            && (StatsAnswered(run) ==> life.ending.TimedOut?)
            && (life.ending.TimedOut? <==>
                  exists o :: o in End(run).dog.orders && o == Order(life.id, life.strategy, g, o.at))
  {
    var (s, life) := (End(run), End(run).log.lives[g]);
    AlwaysBooked(run);
    AliveIffAnswered(run);
    LastTimerThreatens(s, g);
    if life.ending.Current? && s.alive {
      var t := LastTimer(s.log, g);
      assert !Enabled(s, Fire(t)) && !Enabled(s, Handle);
      LastTimerOutstanding(run, g);
    }
    if life.ending.TimedOut? {
      assert Ordered(s.dog.orders, g);
      var o :| o in s.dog.orders && o.registration == g;
      assert OrderLogged(s.log, o);
    } else {
      forall o | o in s.dog.orders
        ensures o.registration != g
      {
        assert OrderLogged(s.log, o);
      }
    }
  }

  ghost predicate Extends(run: Run, longer: Run) {
    longer == run || (longer.Then? && Extends(run, longer.prior))
  }

  /** After a reply with statistics failed, no order is ever given again. */
  lemma {:induction false} UnansweredStatsEndAll(run: Run, longer: Run)
    requires Valid(run) && !StatsAnswered(run) && Extends(run, longer) && Valid(longer)
    ensures End(longer).dog.orders == End(run).dog.orders && End(longer).log == End(run).log
    ensures !StatsAnswered(longer)
  {
    if longer != run {
      UnansweredStatsEndAll(run, longer.prior);
      AliveIffAnswered(longer.prior);
    }
  }

  // ---------- Accounting ----------

  function OrdersBy(orders: seq<Order>, strategy: Strategy): nat {
    if orders == [] then 0
    else OrdersBy(orders[..|orders| - 1], strategy) + if orders[|orders| - 1].strategy == strategy then 1 else 0
  }

  /** Every registration made is accounted for, and the counters count the orders given. */
  ghost predicate Balanced(s: System) {
    var (dog, tally) := (s.dog, s.tally);
    && tally.registered == |dog.subjects| + dog.kills + dog.stops + tally.removed + tally.overwritten
    && dog.kills == OrdersBy(dog.orders, Kill)
    && dog.stops == OrdersBy(dog.orders, Stop)
    && |dog.orders| == dog.kills + dog.stops
  }

  /** No registration is ordered to terminate twice, nor again once ordered. */
  ghost predicate OrderedOnce(w: WatchdogState) {
    var (subjects, orders, next) := (w.subjects, w.orders, w.timers.next);
    && (forall i, j | 0 <= i < j < |orders| :: orders[i].registration != orders[j].registration)
    && (forall o | o in orders :: o.registration < next)
    && (forall id | id in subjects :: subjects[id].timer < next)
    && (forall id, o | id in subjects && o in orders :: subjects[id].timer != o.registration)
    && (forall id, other | id in subjects && other in subjects && id != other ::
          subjects[id].timer != subjects[other].timer)
  }

  lemma MapSize<K, V>(m: map<K, V>, k: K, v: V)
    ensures |m[k := v]| == |m| + if k in m then 0 else 1
    ensures |m - {k}| == |m| - if k in m then 1 else 0
  {
    assert m[k := v].Keys == m.Keys + {k};
    assert (m - {k}).Keys == m.Keys - {k};
  }

  lemma BalancedHandled(s: System, msg: Msg)
    requires Balanced(s)
    ensures Balanced(HandleMsg(s, msg))
  {
    match msg
    case StatsMsg(_) =>
    case RegisterMsg(id, timeout, strategy) =>
      MapSize(s.dog.subjects, id, Registration(timeout, strategy, s.dog.timers.next));
    case UnregisterMsg(id) => RemoveBalanced(s, id);
    case PingMsg(_) =>
    case TimeoutMsg(id, t) => ExpireBalanced(s, id, t);
  }

  lemma RemoveBalanced(s: System, id: ActorId)
    requires Balanced(s)
    ensures Balanced(Remove(s, id))
  {
    MapSize(s.dog.subjects, id, Registration(0, Kill, 0));
  }

  lemma ExpireBalanced(s: System, id: ActorId, t: nat)
    requires Balanced(s)
    ensures Balanced(Expire(s, id, t))
  {
    if id in s.dog.subjects {
      MapSize(s.dog.subjects, id, s.dog.subjects[id]);
      var orders' := Expire(s, id, t).dog.orders;
      assert orders'[..|orders'| - 1] == s.dog.orders;
    }
  }

  lemma BalancedKept(s: System, step: Step)
    requires Enabled(s, step) && Balanced(s)
    ensures Balanced(Apply(s, step))
  {
    match step
    case Handle => BalancedHandled(s.(mailbox := s.mailbox[1..]), s.mailbox[0]);
    case SubjectExits(id) => RemoveBalanced(s, id);
    case _ =>
  }

  lemma TimeoutOrderedOnce(w: WatchdogState, id: ActorId)
    requires OrderedOnce(w)
    ensures OrderedOnce(Timeout(w, id))
  {
    if id in w.subjects {
      var w' := Timeout(w, id);
      forall o | o in w'.orders
        ensures o in w.orders || o.registration == w.subjects[id].timer
      {
      }
    }
  }

  lemma RegisterOrderedOnce(w: WatchdogState, id: ActorId, timeout: nat, strategy: Strategy)
    requires OrderedOnce(w)
    ensures OrderedOnce(Register(w, id, timeout, strategy))
  {
  }

  lemma OrderedOnceKept(s: System, step: Step)
    requires Enabled(s, step) && OrderedOnce(s.dog)
    ensures OrderedOnce(Apply(s, step).dog)
  {
    if step.Handle? && s.mailbox[0].TimeoutMsg? {
      TimeoutOrderedOnce(s.dog, s.mailbox[0].id);
    } else if step.Handle? && s.mailbox[0].RegisterMsg? {
      RegisterOrderedOnce(s.dog, s.mailbox[0].id, s.mailbox[0].timeout, s.mailbox[0].strategy);
    }
  }

  /** Over every run the books balance: registrations are current subjects, kills, stops, removals or
      overwritten; the counters are the numbers of orders of each kind; no registration has two. */
  lemma {:induction false} Accounting(run: Run)
    requires Valid(run)
    ensures Balanced(End(run)) && OrderedOnce(End(run).dog)
  {
    match run
    case Start =>
    case Then(prior, step) =>
      Accounting(prior);
      BalancedKept(End(prior), step);
      OrderedOnceKept(End(prior), step);
  }

  // ---------- Times ----------

  ghost predicate Timely(s: System, g: nat)
    requires g in s.log.lives
  {
    var (life, now) := (s.log.lives[g], s.dog.timers.now);
    && life.at <= now
    && (forall p | p in life.pings :: life.at <= p.at <= now)
    && (forall i, j | 0 <= i < j < |life.pings| :: life.pings[i].at <= life.pings[j].at)
  }

  lemma TimelyHandled(s: System, msg: Msg, g: nat)
    requires Logged(s) && g in HandleMsg(s, msg).log.lives && (g in s.log.lives ==> Timely(s, g))
    ensures Timely(HandleMsg(s, msg), g)
  {
    if msg.PingMsg? {
      PingedTimely(s, msg.id, g);
    } else if g in s.log.lives {
      OthersTimely(s, msg, g);
    }
  }

  lemma OthersTimely(s: System, msg: Msg, g: nat)
    requires Logged(s) && g in s.log.lives && !msg.PingMsg?
    ensures var s' := HandleMsg(s, msg);
            && g in s'.log.lives && s'.log.lives[g].at == s.log.lives[g].at
            && s'.log.lives[g].pings == s.log.lives[g].pings && s'.dog.timers.now == s.dog.timers.now
  {
  }

  lemma PingedTimely(s: System, id: ActorId, g: nat)
    requires g in s.log.lives && Timely(s, g)
    ensures g in Pinged(s, id).log.lives && Timely(Pinged(s, id), g)
  {
    var pings := s.log.lives[g].pings;
    assert forall i | 0 <= i < |pings| :: pings[i] in pings;
  }

  lemma TimelyKept(s: System, step: Step, g: nat)
    requires Enabled(s, step) && Logged(s) && g in Apply(s, step).log.lives && (g in s.log.lives ==> Timely(s, g))
    ensures Timely(Apply(s, step), g)
  {
    if step.Handle? {
      DequeueLogged(s);
      TimelyHandled(s.(mailbox := s.mailbox[1..]), s.mailbox[0], g);
    }
  }

  lemma {:induction false} AlwaysTimely(run: Run, g: nat)
    requires Valid(run) && g in End(run).log.lives
    ensures Timely(End(run), g)
  {
    if run.Then? {
      var s := End(run.prior);
      AlwaysBooked(run.prior);
      if g in s.log.lives {
        AlwaysTimely(run.prior, g);
      }
      TimelyKept(s, run.step, g);
    }
  }

  ghost function Least(s: set<nat>): (m: nat)
    requires s != {}
    ensures m in s && forall x | x in s :: m <= x
  {
    var x :| x in s;
    if s == {x} then x
    else
      var m := Least(s - {x});
      assert forall y | y in s :: y == x || y in s - {x};
      if x <= m then x else m
  }

  /** The deadline a registration sets itself: that of its first ping if it came before its timer fired,
      its own otherwise. Later pings do not move it. */
  function OwnDeadline(life: Life): nat {
    (if life.rescued && life.pings != [] then life.pings[0].at else life.at) + life.timeout
  }

  function StrayDeadlines(log: Chronicle, g: nat): set<nat>
    requires g in log.lives
  {
    set t | t in log.lives[g].strays && t in log.timers :: log.timers[t].due
  }

  /** The deadline that matters: the earliest of its own and of those left over from before it. */
  ghost function Deadline(log: Chronicle, g: nat): nat
    requires g in log.lives
  {
    Least({OwnDeadline(log.lives[g])} + StrayDeadlines(log, g))
  }

  lemma DeadlineIsEarliest(s: System, g: nat)
    requires Logged(s) && g in s.log.lives && Timely(s, g)
    ensures exists t :: Threat(s.log, g, t) && s.log.timers[t].due == Deadline(s.log, g)
    ensures forall t | Threat(s.log, g, t) :: Deadline(s.log, g) <= s.log.timers[t].due
  {
    var (log, life) := (s.log, s.log.lives[g]);
    assert LifeLogged(s, g) && PingsLogged(s, g);
    OwnIsEarliest(s, g);
    var (d, dues) := (Deadline(log, g), {OwnDeadline(life)} + StrayDeadlines(log, g));
    assert OwnDeadline(life) in dues && d in dues;
    if d != OwnDeadline(life) {
      var t :| t in life.strays && t in log.timers && log.timers[t].due == d;
      assert Threat(log, g, t);
    }
    forall t | Threat(log, g, t)
      ensures d <= log.timers[t].due
    {
      if t in life.strays {
        assert log.timers[t].due in dues;
      } else {
        assert Explained(log, t);
      }
    }
  }

  /** The timer of that deadline. */
  function OwnTimer(life: Life, g: nat): nat {
    if life.rescued && life.pings != [] then life.pings[0].timer else g
  }

  /** Of the threats set up by the registration itself. */
  lemma OwnIsEarliest(s: System, g: nat)
    requires Logged(s) && g in s.log.lives && Timely(s, g)
    ensures var (log, own, t) := (s.log, OwnDeadline(s.log.lives[g]), OwnTimer(s.log.lives[g], g));
            && Threat(log, g, t) && log.timers[t].due == own
            && (forall k | k in log.timers && log.timers[k].registration == g && !(k == g && log.lives[g].rescued) ::
                  own <= log.timers[k].due)
  {
    var (log, life) := (s.log, s.log.lives[g]);
    assert LifeLogged(s, g) && PingsLogged(s, g);
    assert life.rescued ==> life.pings[0] in life.pings;
    forall k | k in log.timers && log.timers[k].registration == g && !(k == g && life.rescued)
      ensures OwnDeadline(life) <= log.timers[k].due
    {
      assert Explained(log, k);
      if k != g {
        var p :| p in life.pings && p.timer == k;
        var i :| 0 <= i < |life.pings| && life.pings[i] == p;
        assert life.pings[0].at <= p.at;
      }
    }
  }

  // ---------- When exactly a subject is terminated ----------

  /** In prompt runs, as long as the watchdog lives, no live timer is overdue and every queued timeout is
      due right now; and every timeout handled was due. */
  ghost predicate OnTime(s: System) {
    && (s.alive ==>
          && (forall t | t in s.dog.timers.live :: s.dog.timers.now <= s.dog.timers.live[t].due)
          && (forall m | m in s.mailbox && m.TimeoutMsg? && m.timer in s.log.timers ::
                s.log.timers[m.timer].due == s.dog.timers.now))
    && (forall t | t in s.log.expired && t in s.log.timers :: s.log.timers[t].due <= s.dog.timers.now)
  }

  lemma OnTimeHandled(s: System, msg: Msg)
    requires Logged(s) && s.alive && OnTime(s)
    requires msg.TimeoutMsg? ==> msg.timer in s.log.timers && s.log.timers[msg.timer].due == s.dog.timers.now
    ensures OnTime(HandleMsg(s, msg))
  {
  }

  lemma OnTimeKept(s: System, step: Step)
    requires Enabled(s, step) && Logged(s) && OnTime(s)
    requires step.Tick? && s.alive ==> MayTick(s, step.span)
    ensures OnTime(Apply(s, step))
  {
    if step.Handle? {
      var rest := s.(mailbox := s.mailbox[1..]);
      DequeueLogged(s);
      assert s.mailbox[0] in s.mailbox;
      OnTimeHandled(rest, s.mailbox[0]);
    }
  }

  lemma OutstandingIsAhead(s: System, t: nat)
    requires s.alive && OnTime(s) && Logged(s) && t in s.log.timers && Outstanding(s, t)
    ensures s.dog.timers.now <= s.log.timers[t].due
    ensures t !in s.dog.timers.live ==> s.log.timers[t].due == s.dog.timers.now
  {
  }

  /** A current registration's deadline has not passed. */
  lemma DeadlineIsAhead(s: System, g: nat)
    requires Books(s) && s.alive && OnTime(s) && g in s.log.lives && s.log.lives[g].ending.Current? && Timely(s, g)
    requires Exact(s, s.log.lives[g].id)
    ensures s.dog.timers.now <= Deadline(s.log, g)
  {
    var id := s.log.lives[g].id;
    assert LifeLogged(s, g) && StraysSound(s.log, g);
    DeadlineIsEarliest(s, g);
    var t :| Threat(s.log, g, t) && s.log.timers[t].due == Deadline(s.log, g);
    assert Explained(s.log, t) && PlacedAt(s, t) && ExactAt(s, id, t);
    OutstandingIsAhead(s, t);
  }

  /** A registration's deadline is settled once it has ended. */
  lemma DeadlineStays(log: Chronicle, log': Chronicle, g: nat)
    requires Grows(log, log') && g in log.lives && !log.lives[g].ending.Current? && StraysSound(log, g)
    ensures g in log'.lives && Deadline(log', g) == Deadline(log, g)
  {
    assert Continues(log.lives[g], log'.lives[g]);
    assert StrayDeadlines(log', g) == StrayDeadlines(log, g);
  }

  /** Every order given came at the deadline of the registration it ended. */
  ghost predicate OrdersAtDeadlines(s: System) {
    forall o | o in s.dog.orders && o.registration in s.log.lives :: o.at == Deadline(s.log, o.registration)
  }

  lemma ExpiresAtDeadline(s: System)
    requires Books(s) && s.alive && OnTime(s) && s.mailbox != [] && s.mailbox[0].TimeoutMsg?
    requires var id := s.mailbox[0].id;
             id in s.dog.subjects && Exact(s, id) && s.dog.subjects[id].timer in s.log.lives
             && Timely(s, s.dog.subjects[id].timer)
    ensures Deadline(s.log, s.dog.subjects[s.mailbox[0].id].timer) == s.dog.timers.now
  {
    var (id, t) := (s.mailbox[0].id, s.mailbox[0].timer);
    var g := s.dog.subjects[id].timer;
    assert SubjectLogged(s, id) && s.mailbox[0] in s.mailbox;
    HeadPlaced(s);
    assert ExactAt(s, id, t);
    DeadlineIsEarliest(s, g);
    DeadlineIsAhead(s, g);
  }

  lemma ExpireAtDeadline(s: System)
    requires Books(s) && s.alive && OnTime(s) && OrdersAtDeadlines(s) && s.mailbox != [] && s.mailbox[0].TimeoutMsg?
    requires var id := s.mailbox[0].id;
             id in s.dog.subjects ==>
               && Exact(s, id) && s.dog.subjects[id].timer in s.log.lives && Timely(s, s.dog.subjects[id].timer)
    ensures OrdersAtDeadlines(Apply(s, Handle))
  {
    var s' := Apply(s, Handle);
    LogGrows(s, Handle);
    forall o | o in s'.dog.orders && o.registration in s'.log.lives
      ensures o.at == Deadline(s'.log, o.registration)
    {
      if o in s.dog.orders {
        assert OrderLogged(s.log, o);
        DeadlineStays(s.log, s'.log, o.registration);
      } else {
        LastOrder(s, o);
        ExpiresAtDeadline(s);
      }
    }
  }

  lemma LastOrder(s: System, o: Order)
    requires Logged(s) && s.alive && s.mailbox != [] && s.mailbox[0].TimeoutMsg?
    requires o in Apply(s, Handle).dog.orders && o !in s.dog.orders
    ensures var id := s.mailbox[0].id;
            && id in s.dog.subjects && o.registration == s.dog.subjects[id].timer && o.registration in s.log.lives
            && o.at == s.dog.timers.now && o.registration in Apply(s, Handle).log.lives
            && Deadline(Apply(s, Handle).log, o.registration) == Deadline(s.log, o.registration)
  {
    var (id, log') := (s.mailbox[0].id, Apply(s, Handle).log);
    QueueIgnored(s);
    assert id in s.dog.subjects;
    assert o == Order(id, s.dog.subjects[id].strategy, s.dog.subjects[id].timer, s.dog.timers.now);
    assert SubjectLogged(s, id);
    assert log'.timers == s.log.timers;
    assert StrayDeadlines(log', o.registration) == StrayDeadlines(s.log, o.registration);
  }

  lemma OthersAtDeadlines(s: System, step: Step)
    requires Enabled(s, step) && Books(s) && OrdersAtDeadlines(s)
    requires step.Handle? ==> !s.mailbox[0].TimeoutMsg?
    ensures OrdersAtDeadlines(Apply(s, step))
  {
    NothingTimesOut(s, step);
    LogGrows(s, step);
    SameOrders(s, Apply(s, step));
  }

  lemma SameOrders(s: System, s': System)
    requires Books(s) && OrdersAtDeadlines(s) && Grows(s.log, s'.log) && s'.dog.orders == s.dog.orders
    ensures OrdersAtDeadlines(s')
  {
    forall o | o in s.dog.orders
      ensures o.at == Deadline(s'.log, o.registration)
    {
      assert OrderLogged(s.log, o);
      DeadlineStays(s.log, s'.log, o.registration);
    }
  }

  lemma {:induction false} AlwaysAtDeadline(run: Run)
    requires Valid(run) && Prompt(run)
    ensures OnTime(End(run)) && OrdersAtDeadlines(End(run))
  {
    if run.Then? {
      var s := End(run.prior);
      AlwaysAtDeadline(run.prior);
      AlwaysBooked(run.prior);
      OnTimeKept(s, run.step);
      if run.step.Handle? && s.mailbox[0].TimeoutMsg? {
        var id := s.mailbox[0].id;
        if id in s.dog.subjects {
          assert SubjectLogged(s, id);
          ExactOverRuns(run.prior, id);
          AlwaysTimely(run.prior, s.dog.subjects[id].timer);
        }
        ExpireAtDeadline(s);
      } else {
        OthersAtDeadlines(s, run.step);
      }
    }
  }

  /** Effective deadline: with timeouts handled when they are due, a registration is ordered to
      terminate at exactly its deadline, the earliest of its own and of those left over from before it,
      unless it is removed or overwritten first, or the watchdog has failed; then never. */
  lemma {:induction false} EffectiveDeadline(run: Run, g: nat)
    requires Valid(run) && Prompt(run) && g in End(run).log.lives
    ensures var (s, ending) := (End(run), End(run).log.lives[g].ending);
            && (Ordered(s.dog.orders, g) <==> ending.TimedOut?)
            && (forall o | o in s.dog.orders && o.registration == g :: o.at == Deadline(s.log, g))
            && (ending.Current? && s.alive ==> s.dog.timers.now <= Deadline(s.log, g))
  {
    var s := End(run);
    AlwaysAtDeadline(run);
    AlwaysBooked(run);
    if Ordered(s.dog.orders, g) {
      var o :| o in s.dog.orders && o.registration == g;
      assert OrderLogged(s.log, o);
    }
    if s.log.lives[g].ending.Current? && s.alive {
      ExactOverRuns(run, s.log.lives[g].id);
      AlwaysTimely(run, g);
      DeadlineIsAhead(s, g);
    }
  }

  // ---------- What is left over, by the times ----------

  /** A timer set earlier about the same actor, never aborted, and due later than the registration; or
      due at that very instant and not handled before. */
  ghost predicate LeftOver(log: Chronicle, g: nat, t: nat)
    requires g in log.lives
  {
    && t in log.timers && t < g && log.timers[t].id == log.lives[g].id && !Aborted(log, t)
    && (log.timers[t].due > log.lives[g].at || (log.timers[t].due == log.lives[g].at && t in log.lives[g].strays))
  }

  ghost predicate StraysByTime(log: Chronicle, g: nat)
    requires g in log.lives
  {
    forall t | t in log.timers && t < g && log.timers[t].id == log.lives[g].id && !Aborted(log, t) ::
      t in log.lives[g].strays <==> LeftOver(log, g, t)
  }

  /** A registration's own timer was aborted if and only if its first ping, or without one its removal,
      came before it was due; at the very instant it is due, either may be. */
  predicate AbortedInTime(life: Life) {
    var due := life.at + life.timeout;
    && (life.pings != [] ==> life.pings[0].at <= due && (life.pings[0].at < due ==> life.rescued))
    && (life.pings == [] && life.ending.Removed? ==> life.endedAt <= due && (life.endedAt < due ==> life.revoked))
  }

  lemma EnrolByTime(s: System, id: ActorId, timeout: nat, strategy: Strategy)
    requires Books(s) && s.alive && OnTime(s)
    ensures StraysByTime(Enrol(s, id, timeout, strategy).log, s.dog.timers.next)
  {
    var (s', g) := (Enrol(s, id, timeout, strategy), s.dog.timers.next);
    forall t | t in s'.log.timers && t < g && s'.log.timers[t].id == id && !Aborted(s'.log, t)
      ensures t in s'.log.lives[g].strays <==> LeftOver(s'.log, g, t)
    {
      assert PlacedAt(s, t);
      if Outstanding(s, t) {
        OutstandingIsAhead(s, t);
      }
    }
  }

  lemma GrowsByTime(s: System, log': Chronicle, g: nat)
    requires Logged(s) && Grows(s.log, log') && g in s.log.lives && StraysByTime(s.log, g)
    ensures StraysByTime(log', g)
  {
    assert LifeLogged(s, g) && Continues(s.log.lives[g], log'.lives[g]);
    forall t | t in log'.timers && t < g && log'.timers[t].id == s.log.lives[g].id && !Aborted(log', t)
      ensures t in log'.lives[g].strays <==> LeftOver(log', g, t)
    {
      assert t in s.log.timers && !Aborted(s.log, t) by {
        assert t in s.log.lives ==> Continues(s.log.lives[t], log'.lives[t]);
      }
      assert t in s.log.lives[g].strays <==> LeftOver(s.log, g, t);
    }
  }

  lemma OnlyRegistersAdd(s: System, step: Step, g: nat)
    requires Enabled(s, step) && g in Apply(s, step).log.lives && g !in s.log.lives
    ensures step.Handle? && s.mailbox[0].RegisterMsg? && g == s.dog.timers.next
  {
  }

  lemma ByTimeKept(s: System, step: Step, g: nat)
    requires Enabled(s, step) && Books(s) && OnTime(s) && g in Apply(s, step).log.lives
    requires g in s.log.lives ==> StraysByTime(s.log, g)
    ensures StraysByTime(Apply(s, step).log, g)
  {
    var s' := Apply(s, step);
    if g in s.log.lives {
      LogGrows(s, step);
      GrowsByTime(s, s'.log, g);
    } else {
      OnlyRegistersAdd(s, step, g);
      var msg := s.mailbox[0];
      QueueIgnored(s);
      EnrolByTime(s, msg.id, msg.timeout, msg.strategy);
    }
  }

  lemma PingInTime(s: System, id: ActorId, g: nat)
    requires Logged(s) && s.alive && OnTime(s) && id in s.dog.subjects
    requires s.dog.subjects[id].timer == g && g in s.log.lives
    requires g in s.log.timers && PlacedAt(s, g) && ExactAt(s, id, g) && LifeLogged(s, g) && PingsLogged(s, g)
    requires AbortedInTime(s.log.lives[g])
    ensures g in Pinged(s, id).log.lives && AbortedInTime(Pinged(s, id).log.lives[g])
  {
    if s.log.lives[g].pings == [] {
      assert Outstanding(s, g);
      OutstandingIsAhead(s, g);
    }
  }

  lemma RemovedInTime(s: System, id: ActorId, g: nat)
    requires Logged(s) && s.alive && OnTime(s) && id in s.dog.subjects
    requires s.dog.subjects[id].timer == g && g in s.log.lives
    requires g in s.log.timers && PlacedAt(s, g) && ExactAt(s, id, g) && LifeLogged(s, g) && PingsLogged(s, g)
    requires AbortedInTime(s.log.lives[g])
    ensures g in Remove(s, id).log.lives && AbortedInTime(Remove(s, id).log.lives[g])
  {
    if s.log.lives[g].pings == [] {
      assert Outstanding(s, g);
      OutstandingIsAhead(s, g);
    }
  }

  /** A step that pings or removes a given registration. */
  predicate Touches(s: System, step: Step, g: nat)
    requires Enabled(s, step)
  {
    var who := if step.SubjectExits? then {step.id}
               else if step.Handle? && (s.mailbox[0].PingMsg? || s.mailbox[0].UnregisterMsg?) then {s.mailbox[0].id}
               else {};
    exists id :: id in who && id in s.dog.subjects && s.dog.subjects[id].timer == g
  }

  lemma OthersInTime(s: System, step: Step, g: nat)
    requires Enabled(s, step) && g in Apply(s, step).log.lives && !Touches(s, step, g)
    requires g in s.log.lives ==> AbortedInTime(s.log.lives[g])
    ensures AbortedInTime(Apply(s, step).log.lives[g])
  {
  }

  lemma TouchedInTime(s: System, step: Step, g: nat, id: ActorId)
    requires Enabled(s, step) && Logged(s) && OnTime(s) && id in s.dog.subjects && s.dog.subjects[id].timer == g
    requires g in s.log.lives && g in s.log.timers && PlacedAt(s, g) && ExactAt(s, id, g)
    requires AbortedInTime(s.log.lives[g])
    requires step == SubjectExits(id) || (step.Handle? && s.mailbox[0] in {PingMsg(id), UnregisterMsg(id)})
    ensures g in Apply(s, step).log.lives && AbortedInTime(Apply(s, step).log.lives[g])
  {
    assert LifeLogged(s, g) && PingsLogged(s, g);
    if step.SubjectExits? {
      RemovedInTime(s, id, g);
    } else {
      QueueIgnored(s);
      if s.mailbox[0].PingMsg? {
        PingInTime(s, id, g);
      } else {
        RemovedInTime(s, id, g);
      }
    }
  }

  lemma {:induction false} AlwaysInTime(run: Run, g: nat)
    requires Valid(run) && Prompt(run) && g in End(run).log.lives
    ensures AbortedInTime(End(run).log.lives[g])
  {
    if run.Then? {
      var (s, step) := (End(run.prior), run.step);
      if g in s.log.lives {
        AlwaysInTime(run.prior, g);
      }
      if Touches(s, step, g) {
        var id := if step.SubjectExits? then step.id else s.mailbox[0].id;
        SubjectsTimer(run.prior, id);
        TouchedInTime(s, step, g, id);
      } else {
        OthersInTime(s, step, g);
      }
    }
  }

  /** In prompt runs, what is known of the timer of a subject's registration. */
  lemma {:induction false} SubjectsTimer(run: Run, id: ActorId)
    requires Valid(run) && Prompt(run) && id in End(run).dog.subjects
    ensures var (s, g) := (End(run), End(run).dog.subjects[id].timer);
            && Logged(s) && OnTime(s) && g in s.log.lives && g in s.log.timers && PlacedAt(s, g) && ExactAt(s, id, g)
  {
    AlwaysBooked(run);
    AlwaysAtDeadline(run);
    ExactOverRuns(run, id);
    assert SubjectLogged(End(run), id);
    assert LifeLogged(End(run), End(run).dog.subjects[id].timer);
  }

  lemma {:induction false} AlwaysByTimes(run: Run, g: nat)
    requires Valid(run) && Prompt(run) && g in End(run).log.lives
    ensures StraysByTime(End(run).log, g) && AbortedInTime(End(run).log.lives[g])
  {
    AlwaysInTime(run, g);
    if run.Then? {
      AlwaysBooked(run.prior);
      AlwaysAtDeadline(run.prior);
      if g in End(run.prior).log.lives {
        AlwaysByTimes(run.prior, g);
      }
      ByTimeKept(End(run.prior), run.step, g);
    }
  }

  /** With timeouts handled when they are due, the times of registrations, pings and removals alone say
      what is left over at a registration, up to what happens at the same instant. */
  lemma {:induction false} LeftOverByTime(run: Run, g: nat)
    requires Valid(run) && Prompt(run) && g in End(run).log.lives
    ensures var log := End(run).log;
            && (forall t :: t in log.lives[g].strays <==> LeftOver(log, g, t))
            && AbortedInTime(log.lives[g])
            && (log.lives[g].rescued ==> log.lives[g].pings != [])
            && (log.lives[g].revoked ==> log.lives[g].pings == [] && log.lives[g].ending.Removed?)
  {
    AlwaysBooked(run);
    AlwaysByTimes(run, g);
    assert StraysSound(End(run).log, g) && PingsLogged(End(run), g);
  }

  /** The deadline the documentation promises: a timeout after the last registration or ping. */
  function DocumentedDeadline(life: Life): nat {
    Touched(life) + life.timeout
  }

  /** The documented deadline is the real one if and only if no ping came later than the first (and that
      came in time, or the timeout is zero), and no timeout left over from an earlier registration of the
      actor is due sooner. */
  lemma {:induction false} DocumentedDeadlineHolds(run: Run, g: nat)
    requires Valid(run) && Prompt(run) && g in End(run).log.lives
    ensures var (log, life) := (End(run).log, End(run).log.lives[g]);
            Deadline(log, g) == DocumentedDeadline(life) <==>
              && (life.pings == []
                  || (life.pings[|life.pings| - 1].at == life.pings[0].at && (life.rescued || life.timeout == 0)))
              && forall t | LeftOver(log, g, t) :: DocumentedDeadline(life) <= log.timers[t].due
  {
    AlwaysTimely(run, g);
    AlwaysByTimes(run, g);
    LeftOverByTime(run, g);
    AlwaysBooked(run);
    assert PingsLogged(End(run), g);
    DeadlinesCompared(End(run).log, g);
    OwnCompared(End(run), g);
  }

  lemma DeadlinesCompared(log: Chronicle, g: nat)
    requires g in log.lives
    ensures var (life, d) := (log.lives[g], Deadline(log, g));
            && d <= OwnDeadline(life)
            && (OwnDeadline(life) <= DocumentedDeadline(life) ==>
                  (d == DocumentedDeadline(life) <==>
                     && OwnDeadline(life) == DocumentedDeadline(life)
                     && forall t | t in life.strays && t in log.timers ::
                          DocumentedDeadline(life) <= log.timers[t].due))
  {
    var (life, d) := (log.lives[g], Deadline(log, g));
    var dues := {OwnDeadline(life)} + StrayDeadlines(log, g);
    assert OwnDeadline(life) in dues && d in dues;
    forall t | t in life.strays && t in log.timers
      ensures d <= log.timers[t].due
    {
      assert log.timers[t].due in dues;
    }
  }

  lemma OwnCompared(s: System, g: nat)
    requires g in s.log.lives && Timely(s, g) && AbortedInTime(s.log.lives[g])
    requires s.log.lives[g].pings == [] ==> !s.log.lives[g].rescued
    ensures var life := s.log.lives[g];
            && OwnDeadline(life) <= DocumentedDeadline(life)
            && (OwnDeadline(life) == DocumentedDeadline(life) <==>
                  life.pings == []
                  || (life.pings[|life.pings| - 1].at == life.pings[0].at && (life.rescued || life.timeout == 0)))
  {
    var pings := s.log.lives[g].pings;
    if pings != [] {
      assert pings[|pings| - 1] in pings && pings[0] in pings && pings[0].at <= pings[|pings| - 1].at;
    }
  }
}
