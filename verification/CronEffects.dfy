/** What each request and each event does, on the table, the workers and what subscribers hear, stated
    outright; and what a subscriber has been told over a whole run. */
module CronEffects {
  import opened Runtime
  import opened CronWorker
  import opened CronManager
  import opened CronSystem

  // ---------- What a request does ----------

  /** Nothing but the table, one worker, and no log, has changed. */
  ghost predicate OnlyJob(s: System, s': System, w: WorkerId) {
    && s'.m.subs == s.m.subs && s'.m.retired == s.m.retired
    && s'.alive == s.alive && s'.stopping == s.stopping && s'.events == s.events
    && (forall v | v in Workers(s) && v != w :: v in Workers(s') && Workers(s')[v] == Workers(s)[v])
    && (forall v | v in Workers(s') && v != w :: v in Workers(s))
  }

  /** A new schedule for a listed job is what the manager then answers, and the last thing queued for its
      worker, which will settle on it; nothing else changes. */
  lemma {:induction false} RescheduleTakesEffect(run: Run, name: Name, schedule: Schedule)
    requires Valid(run) && Enabled(End(run), ManagerRequest(Reschedule(name, schedule)))
    requires name in End(run).m.jobs
    ensures var (s, s') := (End(run), Apply(End(run), ManagerRequest(Reschedule(name, schedule))));
            var w := s.m.jobs[name].worker;
            && s'.m.jobs == s.m.jobs[name := Job(schedule, w)] && OnlyJob(s, s', w)
            && w in Workers(s) && w in Workers(s') && Workers(s)[w].cell.alive
            && Settled(Workers(s')[w]) == schedule
            && Workers(s')[w] == Workers(s)[w].(
                 cell := Workers(s)[w].cell.(mailbox := Workers(s)[w].cell.mailbox + [UpdateSchedule(schedule)]))
  {
    var (s, w) := (End(run), End(run).m.jobs[name].worker);
    AlwaysSound(run);
    RescheduleNeverFails(run, name, schedule);
    LastUpdateAppend(Workers(s)[w].cell.mailbox, UpdateSchedule(schedule), Workers(s)[w].schedule);
  }

  /** A worker newly spawned on a schedule: its one timer is stored, if the schedule has a next time. */
  ghost predicate JustSpawned(w: WorkerState, schedule: Schedule, upcoming: Upcoming) {
    && w.cell == Spawned([]) && w.schedule == schedule
    && (upcoming.In? ==> w.handle.Some? && w.live == {w.handle.value})
    && (upcoming.Never? ==> w.handle.None? && w.live == {})
  }

  /** A job starts under a name not taken, with a worker never seen before, unless its first time has
      already passed; nothing else changes. */
  lemma {:induction false} StartTakesEffect(run: Run, name: Name, schedule: Schedule, upcoming: Upcoming)
    requires Valid(run) && Enabled(End(run), ManagerRequest(Start(name, schedule, upcoming)))
    ensures var (s, s') := (End(run), Apply(End(run), ManagerRequest(Start(name, schedule, upcoming))));
            if name in s.m.jobs || upcoming.Past? then s' == s
            else
              && name in s'.m.jobs && s'.m.jobs == s.m.jobs[name := s'.m.jobs[name]]
              && s'.m.jobs[name].schedule == schedule && OnlyJob(s, s', s'.m.jobs[name].worker)
              && s'.m.jobs[name].worker !in Workers(s) && s'.m.jobs[name].worker in Workers(s')
              && JustSpawned(Workers(s')[s'.m.jobs[name].worker], schedule, upcoming)
  {
    AlwaysSound(run);
  }

  /** Stopping a listed job takes it off the table and asks its worker, and no other, to stop. */
  lemma {:induction false} StopTakesEffect(run: Run, name: Name)
    requires Valid(run) && Enabled(End(run), ManagerRequest(Stop(name)))
    ensures var (s, s') := (End(run), Apply(End(run), ManagerRequest(Stop(name))));
            if name !in s.m.jobs then s' == s
            else
              var w := s.m.jobs[name].worker;
              && s'.m.jobs == s.m.jobs - {name} && w in Workers(s) && w in Workers(s')
              && Workers(s')[w] == Workers(s)[w].(cell := Workers(s)[w].cell.(stopping := true))
              && OnlyJob(s, s'.(m := s'.m.(subs := s.m.subs)), w)
  {
    AlwaysSound(run);
  }

  /** The manager leaving asks every listed worker to stop, clears its table, and kills them all. */
  lemma {:induction false} LeavingTakesEffect(run: Run)
    requires Valid(run) && Enabled(End(run), ManagerExits)
    ensures var (s, s') := (End(run), Apply(End(run), ManagerExits));
            && s'.m.jobs == map[] && !s'.alive && s'.m.subs == s.m.subs && Workers(s').Keys == Workers(s).Keys
            && forall w | w in Workers(s) ::
                 Workers(s')[w] == Workers(s)[w].(cell := Workers(s)[w].cell.(
                   killed := true, stopping := Workers(s)[w].cell.stopping || Listed(s.m.jobs, w)))
  {
  }

  /** A report that a listed worker has ended takes its entry off the table; nothing else does, and no
      worker is touched. */
  lemma {:induction false} EventTakesEffect(run: Run)
    requires Valid(run) && Enabled(End(run), ManagerEvent)
    ensures var (s, s', evt) := (End(run), Apply(End(run), ManagerEvent), End(run).events[0]);
            && Workers(s') == Workers(s) && s'.events == s.events[1..] && s'.alive && !s'.stopping
            && (forall n :: n in s'.m.jobs <==>
                  n in s.m.jobs && (evt.ActorStarted? || s.m.jobs[n].worker != evt.who))
            && (forall n | n in s'.m.jobs :: s'.m.jobs[n] == s.m.jobs[n])
  {
    AlwaysSound(run);
    var n := JobOf(End(run).m.jobs, End(run).events[0].who);
  }

  // ---------- What subscribers hear ----------

  /** What a step has every subscriber hear, spelled out. */
  ghost predicate Hears(s: System, step: Step, told: seq<Event>)
    requires Enabled(s, step)
  {
    match step
    case ManagerRequest(Stop(name)) =>
      told == if name in s.m.jobs then [JobStopped(name, s.m.jobs[name].worker, None)] else []
    case ManagerEvent =>
      var evt := s.events[0];
      && (!Listed(s.m.jobs, evt.who) ==> told == [])
      && (forall n | n in s.m.jobs && s.m.jobs[n].worker == evt.who ::
            && |told| == 1
            && (evt.ActorStarted? ==> told[0] == JobStarted(n, evt.who))
            && (evt.ActorTerminated? ==> told[0] == JobStopped(n, evt.who, evt.reason))
            && (evt.ActorFailed? ==> told[0] == JobFailed(n, evt.who, evt.what)))
    case _ => told == []
  }

  predicate Resubscribes(step: Step, k: SubscriberId) {
    step == ManagerRequest(Subscription(k)) || step == ManagerRequest(Unsubscription(k))
  }

  /** What subscriber `k` is told in a step is exactly that. */
  ghost predicate ToldRight(s: System, step: Step, k: SubscriberId, told: seq<Event>)
    requires Enabled(s, step) && k in s.m.subs
  {
    && Hears(s, step, told)
    && k in Apply(s, step).m.subs && Apply(s, step).m.subs[k] == s.m.subs[k] + told
  }

  lemma EventHeard(s: System, k: SubscriberId) returns (told: seq<Event>)
    requires Enabled(s, ManagerEvent) && Injective(s.m.jobs) && k in s.m.subs
    ensures ToldRight(s, ManagerEvent, k, told)
  {
    var evt := s.events[0];
    match JobOf(s.m.jobs, evt.who)
    case None =>
      told := [];
      assert s.m.subs[k] + [] == s.m.subs[k];
    case Some(n) =>
      told := [News(n, evt)];
  }

  /** Each step has each subscriber in place hear exactly what it should, one event at most. */
  lemma EachStepHeard(s: System, step: Step, k: SubscriberId) returns (told: seq<Event>)
    requires Enabled(s, step) && Injective(s.m.jobs) && k in s.m.subs && !Resubscribes(step, k)
    ensures ToldRight(s, step, k, told) && |told| <= 1
  {
    if step.ManagerEvent? {
      told := EventHeard(s, k);
    } else if step.ManagerRequest? && step.request.Stop? && step.request.name in s.m.jobs {
      var name := step.request.name;
      told := [JobStopped(name, s.m.jobs[name].worker, None)];
    } else {
      told := [];
      assert s.m.subs[k] + [] == s.m.subs[k];
      NothingHeard(s, step, k);
    }
  }

  lemma NothingHeard(s: System, step: Step, k: SubscriberId)
    requires Enabled(s, step) && k in s.m.subs && !Resubscribes(step, k) && !step.ManagerEvent?
    requires step.ManagerRequest? && step.request.Stop? ==> step.request.name !in s.m.jobs
    ensures k in Apply(s, step).m.subs && Apply(s, step).m.subs[k] == s.m.subs[k]
  {
  }

  // ---------- Who subscribes ----------

  /** The last request about it was to subscribe. */
  function Subscribed(run: Run, k: SubscriberId): bool {
    run.Then? &&
    (run.step == ManagerRequest(Subscription(k)) ||
     (run.step != ManagerRequest(Unsubscription(k)) && Subscribed(run.prior, k)))
  }

  lemma SubscriptionSteps(s: System, step: Step, k: SubscriberId)
    requires Enabled(s, step)
    ensures step == ManagerRequest(Subscription(k)) ==> k in Apply(s, step).m.subs && Apply(s, step).m.subs[k] == []
    ensures step == ManagerRequest(Unsubscription(k)) ==> k !in Apply(s, step).m.subs
    ensures !Resubscribes(step, k) ==> (k in Apply(s, step).m.subs <==> k in s.m.subs)
  {
  }

  lemma {:induction false} SubscribersInPlace(run: Run, k: SubscriberId)
    requires Valid(run)
    ensures k in End(run).m.subs <==> Subscribed(run, k)
  {
    if run.Then? {
      SubscribersInPlace(run.prior, k);
      SubscriptionSteps(End(run.prior), run.step, k);
    }
  }

  // ---------- Over whole runs ----------

  /** `log` is, step by step since its last subscription, what `k` was to hear. */
  ghost predicate HeardSince(run: Run, k: SubscriberId, log: seq<Event>) {
    run.Then? && Enabled(End(run.prior), run.step) &&
    (if run.step == ManagerRequest(Subscription(k)) then log == []
     else
       exists told, before ::
         HeardSince(run.prior, k, before) && Hears(End(run.prior), run.step, told) && log == before + told)
  }

  /** A subscriber in place has been told exactly what it was to hear since it subscribed: nothing left
      out, nothing added, in order. */
  lemma {:induction false} LogsAreComplete(run: Run, k: SubscriberId)
    requires Valid(run) && Subscribed(run, k)
    ensures k in End(run).m.subs && HeardSince(run, k, End(run).m.subs[k])
  {
    SubscribersInPlace(run, k);
    var (s, step) := (End(run.prior), run.step);
    if step == ManagerRequest(Subscription(k)) {
      SubscriptionSteps(s, step, k);
    } else {
      LogsAreComplete(run.prior, k);
      AlwaysSound(run.prior);
      var told := EachStepHeard(s, step, k);
      assert HeardSince(run.prior, k, s.m.subs[k]) && Hears(s, step, told);
    }
  }

  /** `longer` goes on from `run` without `k` subscribing or unsubscribing. */
  ghost predicate Throughout(run: Run, longer: Run, k: SubscriberId) {
    longer == run || (longer.Then? && Throughout(run, longer.prior, k) && !Resubscribes(longer.step, k))
  }

  ghost predicate ToldEnd(log: seq<Event>, w: WorkerId) {
    exists e :: e in log && e.worker == w && !e.JobStarted?
  }

  /** A worker that leaves the table in a step of a living manager is reported to have ended. */
  lemma LeavingHeard(s: System, step: Step, w: WorkerId, told: seq<Event>)
    requires Enabled(s, step) && TableSound(s) && Hears(s, step, told)
    requires Listed(s.m.jobs, w) && !Listed(Apply(s, step).m.jobs, w) && Apply(s, step).alive
    ensures ToldEnd(told, w)
  {
    var n :| n in s.m.jobs && s.m.jobs[n].worker == w;
    StaysListed(s, step, n);
    assert told[0] in told;
  }

  /** An entry leaves the table only when its job is stopped or its worker is reported to have ended. */
  lemma StaysListed(s: System, step: Step, n: Name)
    requires Enabled(s, step) && TableSound(s) && n in s.m.jobs && Apply(s, step).alive
    ensures || (n in Apply(s, step).m.jobs && Apply(s, step).m.jobs[n].worker == s.m.jobs[n].worker)
            || step == ManagerRequest(Stop(n))
            || (step.ManagerEvent? && s.events[0].who == s.m.jobs[n].worker && !s.events[0].ActorStarted?)
  {
    if step.ManagerEvent? {
      var who := JobOf(s.m.jobs, s.events[0].who);
    }
  }

  /** A subscriber present throughout has been told the end of every worker that left the table while
      the manager lived. */
  lemma {:induction false} EveryEndIsTold(run: Run, longer: Run, k: SubscriberId, w: WorkerId)
    requires Valid(longer) && Throughout(run, longer, k) && Subscribed(run, k)
    requires Listed(End(run).m.jobs, w) && !Listed(End(longer).m.jobs, w) && End(longer).alive
    ensures k in End(longer).m.subs && ToldEnd(End(longer).m.subs[k], w)
  {
    var (s, step) := (End(longer.prior), longer.step);
    StillSubscribed(run, longer.prior, k);
    SubscribersInPlace(longer.prior, k);
    AlwaysSound(longer.prior);
    var told := EachStepHeard(s, step, k);
    if Listed(s.m.jobs, w) {
      LeavingHeard(s, step, w, told);
      var e :| e in told && e.worker == w && !e.JobStarted?;
      assert e in End(longer).m.subs[k];
    } else {
      EveryEndIsTold(run, longer.prior, k, w);
      var e :| e in s.m.subs[k] && e.worker == w && !e.JobStarted?;
      assert e in End(longer).m.subs[k];
    }
  }

  lemma {:induction false} StillSubscribed(run: Run, longer: Run, k: SubscriberId)
    requires Throughout(run, longer, k) && Subscribed(run, k)
    ensures Subscribed(longer, k)
  {
    if longer != run {
      StillSubscribed(run, longer.prior, k);
    }
  }
}
