/** One scheduled job: an actor that wakes itself with a timer, runs its job and sets the next timer. */
module CronWorker {
  import opened Runtime

  /** A cron schedule, of which only identity matters here. */
  type Schedule(==, !new)

  /** What a schedule says when asked for its next time: after some delay, never again, or a time that
      has already passed, which fails. */
  datatype Upcoming = In(delay: nat) | Never | Past

  datatype CronMsg = Execute | UpdateSchedule(schedule: Schedule)

  /** `live` holds this worker's timers that have neither fired nor been aborted; handles up to `next` are used. */
  datatype WorkerState = WorkerState(cell: Cell<CronMsg>, schedule: Schedule, handle: Option<nat>,
                                     live: set<nat>, next: nat)

  // ---------- Handlers as functions ----------

  /** Sets the next timer, forgetting whichever handle was stored. On failure nothing changes. */
  function ScheduleNext(w: WorkerState, upcoming: Upcoming): WorkerState {
    match upcoming
    case In(_) => w.(handle := Some(w.next), live := w.live + {w.next}, next := w.next + 1)
    case Never => w.(handle := None)
    case Past => w
  }

  function AbortStored(w: WorkerState): WorkerState {
    match w.handle
    case Some(h) => w.(handle := None, live := w.live - {h})
    case None => w
  }

  function Executed(w: WorkerState, upcoming: Upcoming): WorkerState {
    ScheduleNext(w, upcoming)
  }

  function Updated(w: WorkerState, schedule: Schedule, upcoming: Upcoming): WorkerState {
    ScheduleNext(AbortStored(w).(schedule := schedule), upcoming)
  }

  /** A worker just spawned on a schedule; spawning fails when the first time has already passed. */
  function NewWorker(schedule: Schedule, upcoming: Upcoming): Option<WorkerState> {
    if upcoming.Past? then None
    else Some(ScheduleNext(WorkerState(Spawned([]), schedule, None, {}, 0), upcoming))
  }

  // ---------- The actor ----------

  /** The timers of one worker. */
  class Timers {
    var live: set<nat>
    var next: nat

    constructor ()
      ensures live == {} && next == 0
    {
      live, next := {}, 0;
    }

    method SendAfter(delay: nat) returns (handle: nat)
      modifies this
      ensures handle == old(next) && next == old(next) + 1 && live == old(live) + {handle}
    {
      handle := next;
      next := next + 1;
      live := live + {handle};
    }

    method Abort(handle: nat)
      modifies this
      ensures live == old(live) - {handle} && next == old(next)
    {
      live := live - {handle};
    }
  }

  class Cron {
    const myself: ActorRef<CronMsg>
    const timers: Timers
    var schedule: Schedule
    var nextScheduleHandle: Option<nat>
    var runs: nat

    ghost function Model(): WorkerState
      reads this, myself, timers
    {
      WorkerState(myself.cell, schedule, nextScheduleHandle, timers.live, timers.next)
    }

    constructor (myself: ActorRef<CronMsg>, timers: Timers, schedule: Schedule, handle: Option<nat>)
      ensures this.myself == myself && this.timers == timers && runs == 0
      ensures this.schedule == schedule && nextScheduleHandle == handle
    {
      this.myself := myself;
      this.timers := timers;
      this.schedule := schedule;
      nextScheduleHandle := handle;
      runs := 0;
    }

    /** The start of an actor; `upcoming` is what the schedule says. A time already past fails it. */
    static method PreStart(myself: ActorRef<CronMsg>, timers: Timers, schedule: Schedule, upcoming: Upcoming)
      returns (started: Option<Cron>)
      requires myself.cell == Spawned([]) && timers.live == {} && timers.next == 0
      modifies timers
      ensures NewWorker(schedule, upcoming) == if started.Some? then Some(started.value.Model()) else None
      ensures started.None? ==> unchanged(timers)
      ensures started.Some? ==> fresh(started.value) && started.value.myself == myself && started.value.timers == timers
    {
      if upcoming.Past? {
        return None;
      }
      var handle := None;
      if upcoming.In? {
        var h := timers.SendAfter(upcoming.delay);
        handle := Some(h);
      }
      var cron := new Cron(myself, timers, schedule, handle);
      started := Some(cron);
    }

    method ScheduleNextTimer(upcoming: Upcoming) returns (ok: bool)
      modifies this`nextScheduleHandle, timers
      ensures ok <==> !upcoming.Past?
      ensures Model() == ScheduleNext(old(Model()), upcoming)
      ensures upcoming.In? ==>
                nextScheduleHandle == Some(old(timers.next)) && timers.live == old(timers.live) + {old(timers.next)}
      ensures upcoming.Never? ==> nextScheduleHandle == None && timers.live == old(timers.live)
    {
      ok := !upcoming.Past?;
      match upcoming
      case In(delay) =>
        var h := timers.SendAfter(delay);
        nextScheduleHandle := Some(h);
      case Never =>
        nextScheduleHandle := None;
      case Past =>
    }

    /** Runs the job, whose own failure is only logged, and sets the next timer. */
    method ExecuteHandler(upcoming: Upcoming) returns (ok: bool)
      modifies this`nextScheduleHandle, this`runs, timers
      ensures ok <==> !upcoming.Past?
      ensures runs == old(runs) + 1
      ensures Model() == Executed(old(Model()), upcoming)
      ensures upcoming.In? ==> nextScheduleHandle == Some(old(timers.next)) && old(timers.next) in timers.live
      ensures upcoming.Never? ==> nextScheduleHandle == None
      ensures schedule == old(schedule) && myself.cell == old(myself.cell)
    {
      runs := runs + 1;
      ok := ScheduleNextTimer(upcoming);
    }

    method UpdateScheduleHandler(newSchedule: Schedule, upcoming: Upcoming) returns (ok: bool)
      modifies this`nextScheduleHandle, this`schedule, timers
      ensures ok <==> !upcoming.Past?
      ensures Model() == Updated(old(Model()), newSchedule, upcoming)
      ensures schedule == newSchedule && myself.cell == old(myself.cell)
      ensures upcoming.In? ==> nextScheduleHandle == Some(old(timers.next)) && old(timers.next) in timers.live
      ensures upcoming.Never? ==> nextScheduleHandle == None
      ensures old(nextScheduleHandle).Some? && old(nextScheduleHandle).value < old(timers.next) ==>
                old(nextScheduleHandle).value !in timers.live
    {
      PostStop();
      schedule := newSchedule;
      ok := ScheduleNextTimer(upcoming);
    }

    /** Aborts the stored timer, and no other. */
    method PostStop()
      modifies this`nextScheduleHandle, timers
      ensures Model() == AbortStored(old(Model()))
      ensures nextScheduleHandle == None && timers.next == old(timers.next)
      ensures timers.live == old(timers.live)
                             - if old(nextScheduleHandle).Some? then {old(nextScheduleHandle).value} else {}
    {
      if nextScheduleHandle.Some? {
        timers.Abort(nextScheduleHandle.value);
        nextScheduleHandle := None;
      }
    }
  }

  // ---------- Exact execution count ----------

  function Executes(mailbox: seq<CronMsg>): nat {
    if mailbox == [] then 0 else (if mailbox[0].Execute? then 1 else 0) + Executes(mailbox[1..])
  }

  lemma {:induction false} ExecutesAppend(mailbox: seq<CronMsg>, m: CronMsg)
    ensures Executes(mailbox + [m]) == Executes(mailbox) + if m.Execute? then 1 else 0
  {
    if mailbox == [] {
      assert mailbox + [m] == [m];
    } else {
      ExecutesAppend(mailbox[1..], m);
      assert (mailbox + [m])[1..] == mailbox[1..] + [m];
    }
  }

  /** Executions on their way: timers that will send one, and ones already queued. */
  function Pending(w: WorkerState): nat {
    |w.live| + Executes(w.cell.mailbox)
  }

  /** Times the schedule had no next time when asked, and updates that found no timer to abort. */
  datatype Tally = Tally(stalled: nat, overlaps: nat)

  function Stalled(upcoming: Upcoming): nat {
    if upcoming.Never? then 1 else 0
  }

  /** Nothing to abort: the stored timer has fired, or there is none. */
  predicate Overlaps(w: WorkerState) {
    w.handle.None? || w.handle.value !in w.live
  }

  predicate HandlesUsed(w: WorkerState) {
    (forall t | t in w.live :: t < w.next) && (w.handle.Some? ==> w.handle.value < w.next)
  }

  /** The handle stored, if any, is that of the last timer set; and as long as the schedule always had a
      next time there is one, of a timer that is live or whose `Execute`, or a later one, is queued. */
  predicate Anchored(w: WorkerState, tally: Tally) {
    && (w.handle.Some? ==> w.handle.value + 1 == w.next)
    && (tally.stalled == 0 ==> w.handle.Some? && (w.handle.value in w.live || Executes(w.cell.mailbox) > 0))
  }

  /** The exact number of executions on their way. */
  predicate Counted(w: WorkerState, tally: Tally) {
    HandlesUsed(w) && Anchored(w, tally) && Pending(w) + tally.stalled == 1 + tally.overlaps
  }

  lemma NewWorkerCounted(schedule: Schedule, upcoming: Upcoming)
    requires !upcoming.Past?
    ensures Counted(NewWorker(schedule, upcoming).value, Tally(Stalled(upcoming), 0))
  {
  }

  lemma ScheduleNextCounts(w: WorkerState, upcoming: Upcoming)
    requires HandlesUsed(w) && !upcoming.Past?
    ensures HandlesUsed(ScheduleNext(w, upcoming))
    ensures Pending(ScheduleNext(w, upcoming)) + Stalled(upcoming) == Pending(w) + 1
  {
    if upcoming.In? {
      assert w.next !in w.live;
    }
  }

  /** Handling an `Execute` trades it for a timer. */
  lemma ExecutedCounted(w: WorkerState, tally: Tally, upcoming: Upcoming)
    requires Counted(w, tally) && w.cell.mailbox != [] && w.cell.mailbox[0].Execute? && !upcoming.Past?
    ensures Counted(Executed(w.(cell := w.cell.Dequeue()), upcoming),
                    tally.(stalled := tally.stalled + Stalled(upcoming)))
  {
    ScheduleNextCounts(w.(cell := w.cell.Dequeue()), upcoming);
  }

  /** Handling an update trades the stored timer for a new one, or adds a new one when that has fired. */
  lemma UpdatedCounted(w: WorkerState, tally: Tally, upcoming: Upcoming)
    requires Counted(w, tally) && w.cell.mailbox != [] && w.cell.mailbox[0].UpdateSchedule? && !upcoming.Past?
    ensures Counted(Updated(w.(cell := w.cell.Dequeue()), w.cell.mailbox[0].schedule, upcoming),
                    Tally(tally.stalled + Stalled(upcoming), tally.overlaps + if Overlaps(w) then 1 else 0))
  {
    var w1 := AbortStored(w.(cell := w.cell.Dequeue())).(schedule := w.cell.mailbox[0].schedule);
    if !Overlaps(w) {
      assert |w.live - {w.handle.value}| == |w.live| - 1;
    } else if w.handle.Some? {
      assert w.live - {w.handle.value} == w.live;
    }
    ScheduleNextCounts(w1, upcoming);
  }

  /** A timer firing trades itself for an `Execute`. */
  lemma FiredCounted(w: WorkerState, tally: Tally, t: nat)
    requires Counted(w, tally) && t in w.live && w.cell.alive
    ensures Counted(w.(live := w.live - {t}, cell := w.cell.Cast(Execute)), tally)
  {
    ExecutesAppend(w.cell.mailbox, Execute);
    assert |w.live - {t}| == |w.live| - 1;
  }

  // ---------- Schedule changes on their way ----------

  /** The schedule the worker will have once it has handled its mailbox. */
  function Settled(w: WorkerState): Schedule {
    LastUpdate(w.cell.mailbox, w.schedule)
  }

  function LastUpdate(mailbox: seq<CronMsg>, current: Schedule): Schedule {
    if mailbox == [] then current
    else LastUpdate(mailbox[1..], if mailbox[0].UpdateSchedule? then mailbox[0].schedule else current)
  }

  lemma {:induction false} LastUpdateAppend(mailbox: seq<CronMsg>, m: CronMsg, current: Schedule)
    ensures LastUpdate(mailbox + [m], current)
            == if m.UpdateSchedule? then m.schedule else LastUpdate(mailbox, current)
  {
    if mailbox == [] {
      assert mailbox + [m] == [m];
    } else {
      LastUpdateAppend(mailbox[1..], m, if mailbox[0].UpdateSchedule? then mailbox[0].schedule else current);
      assert (mailbox + [m])[1..] == mailbox[1..] + [m];
    }
  }
}
