/** The cron manager, handler by handler: it supervises one worker per named job and tells its
    subscribers what becomes of them. */
module CronManager {
  import opened Runtime
  import opened CronWorker

  type Name(==, !new)

  type SubscriberId(==, !new)

  type Reason(==, !new)

  /** Actor ids of workers, never reused. */
  type WorkerId = nat

  datatype Job = Job(schedule: Schedule, worker: WorkerId)

  /** A subscriber's callback. `worker` says which worker it is about; the callback is given the name only. */
  datatype Event =
    | JobStarted(name: Name, worker: WorkerId)
    | JobStopped(name: Name, worker: WorkerId, reason: Option<Reason>)
    | JobFailed(name: Name, worker: WorkerId, what: Reason)

  datatype SupervisionEvent =
    | ActorStarted(who: WorkerId)
    | ActorTerminated(who: WorkerId, reason: Option<Reason>)
    | ActorFailed(who: WorkerId, what: Reason)

  /** All workers ever spawned. Ids from `next` on are unused. */
  datatype Pool = Pool(next: WorkerId, workers: map<WorkerId, WorkerState>) {

    function StopWorker(w: WorkerId): Pool {
      if w in workers then this.(workers := workers[w := workers[w].(cell := workers[w].cell.Stop())]) else this
    }

    predicate Reaches(w: WorkerId) {
      w in workers && workers[w].cell.alive
    }

    function CastTo(w: WorkerId, m: CronMsg): Pool {
      if w in workers then this.(workers := workers[w := workers[w].(cell := workers[w].cell.Cast(m))]) else this
    }

    function Spawn(schedule: Schedule, upcoming: Upcoming): Pool {
      match NewWorker(schedule, upcoming)
      case Some(state) => Pool(next + 1, workers[next := state])
      case None => this
    }
  }

  /** Subscribers in place with what each was told, and the logs of those that have been replaced or removed. */
  datatype ManagerState = ManagerState(jobs: map<Name, Job>, subs: map<SubscriberId, seq<Event>>,
                                       retired: seq<seq<Event>>, pool: Pool)

  const EMPTY := ManagerState(map[], map[], [], Pool(0, map[]))

  // ---------- Handlers as functions ----------

  function Publish(subs: map<SubscriberId, seq<Event>>, e: Event): map<SubscriberId, seq<Event>> {
    map k | k in subs :: subs[k] + [e]
  }

  function Announce(m: ManagerState, e: Event): ManagerState {
    m.(subs := Publish(m.subs, e))
  }

  function Retire(m: ManagerState, who: SubscriberId): seq<seq<Event>> {
    if who in m.subs then m.retired + [m.subs[who]] else m.retired
  }

  /** Starts a job under a name not yet taken, if its worker can be spawned. */
  function StartJob(m: ManagerState, name: Name, schedule: Schedule, upcoming: Upcoming): ManagerState {
    if name in m.jobs || upcoming.Past? then m
    else m.(jobs := m.jobs[name := Job(schedule, m.pool.next)], pool := m.pool.Spawn(schedule, upcoming))
  }

  function StopJob(m: ManagerState, name: Name): ManagerState {
    if name !in m.jobs then m
    else
      var w := m.jobs[name].worker;
      Announce(m.(jobs := m.jobs - {name}, pool := m.pool.StopWorker(w)), JobStopped(name, w, None))
  }

  /** The new schedule is cached before it is sent on; the flag is whether sending succeeded. */
  function SetSchedule(m: ManagerState, name: Name, schedule: Schedule): (ManagerState, bool) {
    if name !in m.jobs then (m, true)
    else
      var w := m.jobs[name].worker;
      (m.(jobs := m.jobs[name := Job(schedule, w)], pool := m.pool.CastTo(w, UpdateSchedule(schedule))),
       m.pool.Reaches(w))
  }

  function Subscribe(m: ManagerState, who: SubscriberId): ManagerState {
    m.(subs := m.subs[who := []], retired := Retire(m, who))
  }

  function Unsubscribe(m: ManagerState, who: SubscriberId): ManagerState {
    m.(subs := m.subs - {who}, retired := Retire(m, who))
  }

  /** No two names share a worker. */
  ghost predicate Injective(jobs: map<Name, Job>) {
    forall a, b | a in jobs && b in jobs && a != b :: jobs[a].worker != jobs[b].worker
  }

  /** The name some entry gives to a worker; the only one if the table is injective. */
  ghost function JobOf(jobs: map<Name, Job>, w: WorkerId): (r: Option<Name>)
    ensures r.Some? ==> r.value in jobs && jobs[r.value].worker == w
    ensures r.None? ==> forall n | n in jobs :: jobs[n].worker != w
  {
    if exists n :: n in jobs && jobs[n].worker == w then
      var n :| n in jobs && jobs[n].worker == w;
      Some(n)
    else None
  }

  /** What subscribers are to be told of a supervision event about the worker of a job. */
  function News(name: Name, evt: SupervisionEvent): Event {
    match evt
    case ActorStarted(who) => JobStarted(name, who)
    case ActorTerminated(who, reason) => JobStopped(name, who, reason)
    case ActorFailed(who, what) => JobFailed(name, who, what)
  }

  ghost function Supervise(m: ManagerState, evt: SupervisionEvent): ManagerState {
    match JobOf(m.jobs, evt.who)
    case None => m
    case Some(name) =>
      match evt
      case ActorStarted(who) => Announce(m, JobStarted(name, who))
      case ActorTerminated(who, reason) => Announce(m, JobStopped(name, who, reason)).(jobs := m.jobs - {name})
      case ActorFailed(who, what) => Announce(m, JobFailed(name, who, what)).(jobs := m.jobs - {name})
  }

  /** Leaving: every listed worker is asked to stop and the table is cleared. */
  function StopAll(m: ManagerState): ManagerState {
    m.(jobs := map[],
       pool := m.pool.(workers := map w | w in m.pool.workers ::
         var s := m.pool.workers[w];
         if w in ListedWorkers(m.jobs) then s.(cell := s.cell.Stop()) else s))
  }

  function ListedWorkers(jobs: map<Name, Job>): set<WorkerId> {
    set n | n in jobs :: jobs[n].worker
  }

  // ---------- The actor ----------

  /** The workers, as the manager reaches them through their references. */
  class WorkerRefs {
    var pool: Pool

    constructor ()
      ensures pool == Pool(0, map[])
    {
      pool := Pool(0, map[]);
    }

    method Stop(w: WorkerId)
      modifies this
      ensures pool == old(pool).StopWorker(w)
    {
      if w in pool.workers {
        pool := pool.(workers := pool.workers[w := pool.workers[w].(cell := pool.workers[w].cell.Stop())]);
      }
    }

    method Cast(w: WorkerId, m: CronMsg) returns (ok: bool)
      modifies this
      ensures pool == old(pool).CastTo(w, m)
      ensures ok <==> old(pool).Reaches(w)
    {
      ok := w in pool.workers && pool.workers[w].cell.alive;
      if ok {
        pool := pool.(workers := pool.workers[w := pool.workers[w].(cell := pool.workers[w].cell.Cast(m))]);
      } else if w in pool.workers {
        assert pool.workers[w := pool.workers[w]] == pool.workers;
      }
    }

    method SpawnLinked(schedule: Schedule, upcoming: Upcoming) returns (w: Option<WorkerId>)
      modifies this
      ensures pool == old(pool).Spawn(schedule, upcoming)
      ensures w == if upcoming.Past? then None else Some(old(pool).next)
    {
      var state := NewWorker(schedule, upcoming);
      match state
      case None => w := None;
      case Some(s) =>
        w := Some(pool.next);
        pool := Pool(pool.next + 1, pool.workers[pool.next := s]);
    }
  }

  class CronManager {
    const workers: WorkerRefs
    var jobs: map<Name, Job>
    var subs: map<SubscriberId, seq<Event>>
    ghost var retired: seq<seq<Event>>

    ghost function Model(): ManagerState
      reads this, workers
    {
      ManagerState(jobs, subs, retired, workers.pool)
    }

    constructor (workers: WorkerRefs)
      requires workers.pool == Pool(0, map[])
      ensures this.workers == workers && Model() == EMPTY
    {
      this.workers := workers;
      jobs := map[];
      subs := map[];
      retired := [];
    }

    method StartHandler(name: Name, schedule: Schedule, upcoming: Upcoming) returns (started: bool)
      modifies this, workers
      ensures Model() == StartJob(old(Model()), name, schedule, upcoming)
      ensures started <==> name !in old(jobs) && !upcoming.Past?
      ensures jobs == if started then old(jobs)[name := Job(schedule, old(workers.pool).next)] else old(jobs)
      ensures subs == old(subs)
    {
      started := false;
      if name !in jobs {
        var actor := workers.SpawnLinked(schedule, upcoming);
        if actor.Some? {
          jobs := jobs[name := Job(schedule, actor.value)];
          started := true;
        }
      }
    }

    /** Tells every subscriber, in whatever order the map yields them. */
    method Notify(e: Event)
      modifies this`subs
      ensures subs == Publish(old(subs), e)
      ensures subs.Keys == old(subs).Keys && forall k | k in subs :: subs[k] == old(subs)[k] + [e]
    {
      var todo := subs.Keys;
      while todo != {}
        invariant todo <= old(subs).Keys && subs.Keys == old(subs).Keys
        invariant forall k | k in subs :: subs[k] == if k in todo then old(subs)[k] else old(subs)[k] + [e]
        decreases |todo|
      {
        var k :| k in todo;
        subs := subs[k := subs[k] + [e]];
        todo := todo - {k};
      }
    }

    method StopHandler(who: Name)
      modifies this, workers
      ensures Model() == StopJob(old(Model()), who)
      ensures jobs == old(jobs) - {who} && subs.Keys == old(subs).Keys
      ensures forall k | k in subs ::
                subs[k] == old(subs)[k]
                           + if who in old(jobs) then [JobStopped(who, old(jobs)[who].worker, None)] else []
    {
      if who in jobs {
        var actor := jobs[who].worker;
        jobs := jobs - {who};
        workers.Stop(actor);
        Notify(JobStopped(who, actor, None));
      }
    }

    method SetScheduleHandler(who: Name, schedule: Schedule) returns (ok: bool)
      modifies this, workers
      ensures (Model(), ok) == SetSchedule(old(Model()), who, schedule)
      ensures jobs == if who in old(jobs) then old(jobs)[who := Job(schedule, old(jobs)[who].worker)] else old(jobs)
      ensures who in old(jobs) ==>
                var w := old(jobs)[who].worker;
                && (ok <==> w in old(workers.pool).workers && old(workers.pool).workers[w].cell.alive)
                && (ok ==> w in workers.pool.workers && workers.pool.workers[w].cell.mailbox
                             == old(workers.pool).workers[w].cell.mailbox + [UpdateSchedule(schedule)])
      ensures subs == old(subs)
    {
      ok := true;
      if who in jobs {
        var actor := jobs[who].worker;
        jobs := jobs[who := Job(schedule, actor)];
        ok := workers.Cast(actor, UpdateSchedule(schedule));
      }
    }

    method ListJobsHandler() returns (r: map<Name, Schedule>)
      ensures r.Keys == jobs.Keys && forall n | n in jobs :: r[n] == jobs[n].schedule
    {
      r := map n | n in jobs :: jobs[n].schedule;
    }

    method GetScheduleHandler(who: Name) returns (r: Option<Schedule>)
      ensures r == if who in jobs then Some(jobs[who].schedule) else None
    {
      r := if who in jobs then Some(jobs[who].schedule) else None;
    }

    method SubscribeHandler(who: SubscriberId)
      modifies this
      ensures Model() == Subscribe(old(Model()), who)
      ensures subs == old(subs)[who := []] && jobs == old(jobs)
    {
      retired := if who in subs then retired + [subs[who]] else retired;
      subs := subs[who := []];
    }

    method UnsubscribeHandler(who: SubscriberId)
      modifies this
      ensures Model() == Unsubscribe(old(Model()), who)
      ensures subs == old(subs) - {who} && jobs == old(jobs)
    {
      retired := if who in subs then retired + [subs[who]] else retired;
      subs := subs - {who};
    }

    /** Searches the table in whatever order the map yields its entries. */
    method FindJob(w: WorkerId) returns (r: Option<Name>)
      ensures r.Some? ==> r.value in jobs && jobs[r.value].worker == w
      ensures r.None? ==> forall n | n in jobs :: jobs[n].worker != w
    {
      var todo := jobs.Keys;
      while todo != {}
        invariant todo <= jobs.Keys
        invariant forall n | n in jobs && n !in todo :: jobs[n].worker != w
        decreases |todo|
      {
        var n :| n in todo;
        if jobs[n].worker == w {
          return Some(n);
        }
        todo := todo - {n};
      }
      r := None;
    }

    /** With an injective table the order of the search does not matter. */
    method HandleSupervisorEvt(evt: SupervisionEvent)
      requires Injective(jobs)
      modifies this
      ensures Model() == Supervise(old(Model()), evt)
      ensures subs.Keys == old(subs).Keys
      ensures forall n, k | n in old(jobs) && old(jobs)[n].worker == evt.who && k in subs ::
                subs[k] == old(subs)[k] + [News(n, evt)]
      ensures forall n | n in old(jobs) ::
                n in jobs <==> old(jobs)[n].worker != evt.who || evt.ActorStarted?
    {
      var job := FindJob(evt.who);
      if job.Some? {
        var name := job.value;
        match evt
        case ActorFailed(who, what) =>
          Notify(JobFailed(name, who, what));
          jobs := jobs - {name};
        case ActorTerminated(who, reason) =>
          Notify(JobStopped(name, who, reason));
          jobs := jobs - {name};
        case ActorStarted(who) =>
          Notify(JobStarted(name, who));
      }
    }

    method PostStop()
      modifies this, workers
      ensures Model() == StopAll(old(Model()))
      ensures jobs == map[] && workers.pool.workers.Keys == old(workers.pool).workers.Keys
      ensures forall n | n in old(jobs) && old(jobs)[n].worker in workers.pool.workers ::
                workers.pool.workers[old(jobs)[n].worker].cell.stopping
    {
      var todo := jobs.Keys;
      ghost var before := workers.pool;
      while todo != {}
        invariant todo <= jobs.Keys && unchanged(this) && workers.pool.next == before.next
        invariant workers.pool.workers.Keys == before.workers.Keys
        invariant forall w | w in before.workers ::
                    workers.pool.workers[w] ==
                      if exists n :: n in jobs && n !in todo && jobs[n].worker == w
                      then before.workers[w].(cell := before.workers[w].cell.Stop())
                      else before.workers[w]
        decreases |todo|
      {
        var n :| n in todo;
        workers.Stop(jobs[n].worker);
        todo := todo - {n};
      }
      jobs := map[];
    }
  }
}
