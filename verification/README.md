# A model of the ractor_actors concurrency core

This project models five small actor systems of the `ractor_actors` crate and proves what they keep and deliver over
every run and every interleaving: the framed TCP session, the stream pump and multiplexer, the cron manager with its
workers, the watchdog, and the broadcaster.

Each system appears twice, and the two are tied together. The handlers are imperative: a class per actor whose methods
update its fields as the crate's handlers do. Each method is proved equal, as a whole new state, to a function on
values. A state machine then interleaves exactly those functions with mailboxes, supervision queues, timers and
failures; its theorems quantify over every `Valid` run of it.

| system | handlers | runs and results |
|---|---|---|
| TCP session | `TcpActors.dfy`, on `Framing.dfy` | `TcpNetwork.dfy`, `TcpInvariants.dfy`, `TcpTheorems.dfy`, `TcpRest.dfy`, `TcpMisaligned.dfy` |
| streams | `StreamActors.dfy` | `StreamSpec.dfy`, `StreamPipeline.dfy` |
| cron | `CronWorker.dfy`, `CronManager.dfy` | `CronSystem.dfy`, `CronEffects.dfy` |
| watchdog | `WatchdogActor.dfy` | `WatchdogSystem.dfy`, `WatchdogRuns.dfy`, `WatchdogExamples.dfy` |
| broadcaster | `Broadcaster.dfy` | `Broadcaster.dfy` |

`dafny verify dfyconfig.toml` checks everything.

## What is assumed of the runtime

The `ractor` runtime is not part of this model. `Runtime.dfy` and the state machines assume this of it:

- A mailbox is first-in first-out and handlers are atomic. The TCP handlers, which wait for input and output in the
  middle, are cut into one step per chunk instead; `ReaderMatchesHandler` and `WriterMatchesHandler` prove that the
  steps add up to what the handlers do.
- An actor honours a stop request first, then supervision events, then messages. A kill takes effect at any point.
- Casting to a dead actor fails and changes nothing. Actor ids and timer handles are never reused.
- A death and the notice of it to the supervisor are one step; a worker's start is announced before its death and once.
- Aborting a timer that has fired does nothing. Dropping its handle leaves it running.
- The death of a session, a multiplexer or a cron manager kills the children linked to it.

## Where the code and its documentation part

- `ractor_actors/src/watchdog/mod.rs:125-126` says that a ping within the timeout prevents termination. The code keeps
  only the handle of the timer made at registration (`watchdog/impl.rs:55-66`), so the timer of a ping
  (`impl.rs:84-85`) can never be aborted, and neither can that of a registration once it is overwritten. The model
  follows the code. `EffectiveDeadline` gives the real deadline of every registration of every actor: the earliest of
  its own, which only the first ping moves, and of the timeouts left over from before it. `DocumentedDeadlineHolds`
  says exactly when that is the documented one, and `LeftOverByTime` what is left over, by the times of registrations,
  pings and removals. Three runs show it failing: `PingedInTimeYetTerminated` (a second ping),
  `RegisteredAgainYetTerminated` (a registration overwritten) and `UnregisteredYetTerminated` (unregistered, then
  registered again).
- A cron worker can have two executions on their way at once, when it handles a schedule change after its timer has
  fired (`time/cron/worker.rs:106-112`, then `95-96`). `ExactExecutions` gives the exact number in every state,
  and `OverlapDoublesExecutions` is a run with two.
- The TCP reader carries on after a read error and the writer after a failed length write (`net/tcp/session.rs:443-450`,
  `477-485`, `359-360`), so delivery has a condition, and `DeliversAll` and `EverythingArrives` give it exactly: at rest
  every frame accepted has been received if and only if no read failed with part of a frame taken and no length failed
  to be written. A length write that fails before its first byte only loses its frame; then every other frame is
  received, if and only if no read failed part-way. `ReadErrorForgesFrame` is a run in which the receiver holds a frame
  that nobody sent, `LengthErrorLosesFrame` one in which it misses one. The results on prefixes and conservation
  assume no failure part-way (`AlignedReads`, `AlignedLengths`) and speak of the frames not dropped (`Sendable`).
- The watchdog fails, and with it ends, when it cannot reply to a request for statistics (`watchdog/impl.rs:125-134`).
  `SilentSubjectsAreTerminated` says so exactly, and `UnansweredStatsSpareSubject` is a run in which it matters.
- A target's failure costs no other target an item only if target ids are unique (`streams/mux/mod.rs:57-60` leaves
  that to the user). `IsolationNeedsUniqueIds` proves it both ways.

## Model

| member | source | states |
|---|---|---|
| `Framing.HeaderBytes` | ractor_actors/src/net/tcp/session.rs:238-245 | the i-th byte of the length header is the digit of weight 256^(7-i): big-endian |
| `Framing.HeaderRoundTrip` | ractor_actors/src/net/tcp/session.rs:238-280 | the u64 write and read undo each other, both ways, on exactly the range of a u64 |
| `Framing.FrameLayout` | ractor_actors/src/net/tcp/session.rs:464-467 | on the wire a frame is its big-endian length in eight bytes, then its payload unaltered |
| `Framing.DecodeEncodeAll` | ractor_actors/src/net/tcp/session.rs:465-467 | decoding any list of encoded frames followed by any bytes gives the frames back and goes on with those bytes |
| `Framing.EncodeDecodeAll` | ractor_actors/src/net/tcp/session.rs:465-467 | every byte string is the encoding of its complete frames followed by less than a frame |
| `Framing.UniquelyDecodable` | ractor_actors/src/net/tcp/session.rs:359-364 | a byte string splits into frames and a part of a frame in one way only |
| `Framing.PrefixFree` | ractor_actors/src/net/tcp/session.rs:359-364 | no frame's encoding is a proper prefix of another's |
| `Framing.Truncation` | ractor_actors/src/net/tcp/session.rs:284-304 | of an encoded list cut at any byte, the complete frames are exactly those that end before the cut |
| `TcpActors.ReadHalf.Read` | ractor_actors/src/net/tcp/session.rs:292-296 | one read fills part of the buffer with any positive number of the next bytes, none at the end |
| `TcpActors.ReadNBytes` | ractor_actors/src/net/tcp/session.rs:284-304 | however the stream is chunked, the loop ends and returns exactly the next `len` bytes leaving the rest, or meets the end having too few |
| `TcpActors.SessionReader.constructor` | ractor_actors/src/net/tcp/session.rs:402-412 | a new reader holds its stream and owes itself one `WaitForFrame` |
| `TcpActors.SessionReader.PostStop` | ractor_actors/src/net/tcp/session.rs:414-422 | leaving drops the stream and nothing else |
| `TcpActors.SessionReader.WaitForFrameHandler` | ractor_actors/src/net/tcp/session.rs:424-452 | the whole new state for each outcome of reading eight bytes: the next `ReadFrame`, a closed and stopping reader, or another wait |
| `TcpActors.SessionReader.ReadFrameHandler` | ractor_actors/src/net/tcp/session.rs:454-487 | likewise for a payload; a full one reaches the session, and the handler fails only if the session is gone |
| `TcpActors.SessionWriter.Write` | ractor_actors/src/net/tcp/session.rs:347-374 | exactly which bytes go out for each outcome; a failed length write carries on, a failed body write stops the actor, a failed wait or flush fails it |
| `TcpActors.TcpSession.SendHandler` | ractor_actors/src/net/tcp/session.rs:165-173 | a sent frame goes to the writer's mailbox, or nowhere if the writer is gone, and never fails the session |
| `TcpActors.TcpSession.FrameReadyHandler` | ractor_actors/src/net/tcp/session.rs:175-188 | a frame is handed to the receiver unaltered; the handler fails if the receiver rejects it |
| `TcpActors.TcpSession.HandleSupervisorEvt` | ractor_actors/src/net/tcp/session.rs:190-226 | any exit of a child asks all three actors to stop; a start changes nothing |
| `TcpInvariants.ReaderShapeKept` | ractor_actors/src/net/tcp/session.rs:424-487 | every step keeps the two-message reader machine well formed, and a reader without stream is stopping |
| `TcpInvariants.ReaderExactKept` | ractor_actors/src/net/tcp/session.rs:424-487 | every step but a read error part-way keeps: bytes taken are frames handed on, the part of the current one, and what a cut-off end dropped |
| `TcpInvariants.WriterTotalKept` | ractor_actors/src/net/tcp/session.rs:347-374 | every step, whatever failed, keeps: bytes written and still to write are, frame by frame, what the write of each frame taken up puts out |
| `TcpInvariants.Invariants` | ractor_actors/src/net/tcp/session.rs:165-226 | the invariants of each end and of each wire hold in every reachable state |
| `TcpTheorems.ReceivesPrefix` | ractor_actors/src/net/tcp/session.rs:165-188 | whatever is cut, killed, stopped or fails short of part-way through a frame, the receiver holds an unaltered in-order prefix of the frames accepted for sending, without those dropped; of all of them if none was |
| `TcpTheorems.Conservation` | ractor_actors/src/net/tcp/session.rs:347-374 | while nothing is lost on the way, received, queued, in flight, queued at the writer and unsent make up exactly the frames accepted and not dropped |
| `TcpTheorems.DeliversAll` | ractor_actors/src/net/tcp/session.rs:165-188 | two live ends at rest, the wire uncut: every frame accepted has been received if and only if no read failed part-way through a frame and no length failed to be written; with failed lengths untouched, every frame not dropped, if and only if no read failed part-way |
| `TcpTheorems.ReaderForwardsComplete` | ractor_actors/src/net/tcp/session.rs:437-442 | a reader that met the end had forwarded exactly the complete frames of what arrived, and asked to be stopped |
| `TcpTheorems.TruncationIsExact` | ractor_actors/src/net/tcp/session.rs:471-475 | with the stream cut at any byte and read in any chunks, the frames forwarded are exactly those wholly before the cut |
| `TcpTheorems.DeathIsNoticed` | ractor_actors/src/net/tcp/session.rs:190-226 | a dead child's notice is queued, or all three were asked to stop, or the session is gone |
| `TcpTheorems.TeardownIsComplete` | ractor_actors/src/net/tcp/session.rs:190-226 | an end at rest has all its three actors alive or none |
| `TcpTheorems.WriterMatchesHandler` | ractor_actors/src/net/tcp/session.rs:359-371 | at every point of every interleaving, whatever failed, the bytes written are frame by frame those the `Write` handler specifies for the outcome of each, and for the outcome so far of the current one |
| `TcpTheorems.ReaderMatchesHandler` | ractor_actors/src/net/tcp/session.rs:424-487 | in every reachable state, however chunked and interleaved, a read that ends has taken what the loop of `read_n_bytes` may take for that result, and the reader goes on as its handlers specify |
| `TcpInvariants.ReaderAlignment` | ractor_actors/src/net/tcp/session.rs:443-450 | over all runs, the reader's books are exact if and only if no read failed with part of a frame taken; otherwise bytes are missing for good |
| `TcpInvariants.WriterAlignment` | ractor_actors/src/net/tcp/session.rs:359-360 | over all runs, the bytes written are whole frames so far if and only if no length write failed part-way |
| `TcpTheorems.LengthErrorAlignment` | ractor_actors/src/net/tcp/session.rs:359-360 | in any aligned run, after a failed length write the bytes written are whole frames, the last one left out, if and only if no byte of that length went out |
| `TcpMisaligned.ReadErrorForgesFrame` | ractor_actors/src/net/tcp/session.rs:477-485 | a run with one read error in which the receiver is handed a frame nobody sent |
| `TcpMisaligned.LengthErrorLosesFrame` | ractor_actors/src/net/tcp/session.rs:359-360 | a run, aligned throughout, in which two frames are accepted and only the second is received |
| `TcpRest.BoundedProgress` | ractor_actors/src/net/tcp/session.rs:284-304 | left to itself, the system takes no more steps than a measure of its state, however interleaved |
| `TcpRest.ComesToRest` | ractor_actors/src/net/tcp/session.rs:424-487 | from every reachable state the system can be left to itself until both ends are at rest |
| `TcpRest.EverythingArrives` | ractor_actors/src/net/tcp/session.rs:165-188 | if all actors are well, wherever the system left to itself comes to rest, every frame accepted has been received if and only if no read had failed part-way and no length had failed to be written |
| `StreamActors.MuxActor.ItemReceivedHandler` | ractor_actors/src/streams/mux/mod.rs:183-212 | the loop offers the item to each target in turn, reports failures, prunes by id, and stops when none is left |
| `StreamActors.MuxActor.RetainOnly` | ractor_actors/src/streams/mux/mod.rs:201-204 | pruning keeps the other targets in order |
| `StreamActors.MuxActor.EndOfStreamHandler` | ractor_actors/src/streams/mux/mod.rs:214-219 | the end marker stops the multiplexer and is announced |
| `StreamActors.Streamer.Work` | ractor_actors/src/streams/pump/mod.rs:74-89 | one item pulled and forwarded; ends at the marker; fails if the receiver is gone |
| `StreamActors.Loop.constructor` | ractor_actors/src/streams/looping/mod.rs:91-99 | a new loop owes itself one message |
| `StreamActors.Loop.Handle` | ractor_actors/src/streams/looping/mod.rs:101-115 | one turn: the next item forwarded, then one message to itself, or a stop after the marker; if the receiver is gone it fails and owes itself nothing |
| `StreamSpec.OfferLogs` | ractor_actors/src/streams/mux/mod.rs:190-199 | each target is offered the item exactly once, and nobody else's log changes |
| `StreamSpec.OfferNotes` | ractor_actors/src/streams/mux/mod.rs:192-197 | one notification per failing target, in target order |
| `StreamSpec.OfferFailures` | ractor_actors/src/streams/mux/mod.rs:190-197 | the ids collected for removal are exactly those of the targets that failed |
| `StreamSpec.RetainKeeps` | ractor_actors/src/streams/mux/mod.rs:201-204 | pruning loses no target whose id is not to be removed and keeps the order |
| `StreamSpec.SpecIsClosed` | ractor_actors/src/streams/mux/mod.rs:183-219 | handling the messages in order leaves exactly the logs, targets and notifications of a closed form per target |
| `StreamPipeline.Invariants` | ractor_actors/src/streams/looping/mod.rs:101-115 | in every interleaving the multiplexer is where the sequential specification is after as many messages |
| `StreamPipeline.StreamConserved` | ractor_actors/src/streams/pump/mod.rs:74-89 | while the multiplexer lives, handled, queued and unsent messages are the items and one end marker; the loop owes itself exactly one message |
| `StreamPipeline.EndAnnouncedOnceAndLast` | ractor_actors/src/streams/mux/mod.rs:39-46 | every run announces the end at most once, and after every failed target |
| `StreamPipeline.EndAnnouncedExactlyOnce` | ractor_actors/src/streams/mux/mod.rs:201-219 | every completed undisturbed run over a finite stream announces it exactly once, whichever handler did |
| `StreamPipeline.Confluence` | ractor_actors/src/streams/mux/mod.rs:183-219 | every such run ends with the same logs and notifications, a function of the stream, the ids and the failures only, and with both actors gone |
| `StreamPipeline.DroppedMeans` | ractor_actors/src/streams/mux/mod.rs:34-36 | an id is dropped if and only if a target of that id has failed an item |
| `StreamPipeline.ReachMeans` | ractor_actors/src/streams/mux/mod.rs:80-83 | with the flag a target gets the items up to and including the first that a target of its id fails, without it every item |
| `StreamPipeline.IsolationNeedsUniqueIds` | ractor_actors/src/streams/mux/mod.rs:57-60 | what a target is offered depends on its own failures only, for all failures of the others, if and only if target ids are unique |
| `StreamPipeline.EveryStepCounts` | ractor_actors/src/streams/looping/mod.rs:101-115 | over a finite stream every step uses up some of a bounded measure |
| `StreamPipeline.Completes` | ractor_actors/src/streams/looping/mod.rs:101-115 | every undisturbed run over a finite stream goes on to completion |
| `CronWorker.Cron.PreStart` | ractor_actors/src/time/cron/worker.rs:50-68 | a new worker has one timer if its schedule has a next time, and stores its handle; a first time already past fails the start and sets none |
| `CronWorker.Cron.ScheduleNextTimer` | ractor_actors/src/time/cron/worker.rs:25-36 | sets a timer and stores its handle, or stores none; fails and changes nothing if the time has passed |
| `CronWorker.Cron.ExecuteHandler` | ractor_actors/src/time/cron/worker.rs:83-97 | one run of the job, whether it fails or not, then the next timer, whose handle is the one stored |
| `CronWorker.Cron.UpdateScheduleHandler` | ractor_actors/src/time/cron/worker.rs:99-113 | the stored timer is aborted, the schedule replaced, the next timer set |
| `CronWorker.Cron.PostStop` | ractor_actors/src/time/cron/worker.rs:70-81 | leaving aborts the stored timer and no other |
| `CronWorker.ExecutedCounted` | ractor_actors/src/time/cron/worker.rs:83-97 | handling an `Execute` keeps the exact count of executions on their way |
| `CronWorker.UpdatedCounted` | ractor_actors/src/time/cron/worker.rs:99-113 | handling an update keeps it, adding one exactly when no live timer was stored |
| `CronWorker.FiredCounted` | ractor_actors/src/time/cron/worker.rs:29 | a timer firing keeps it |
| `CronManager.CronManager.StartHandler` | ractor_actors/src/time/cron/mod.rs:165-191 | a job starts under a free name if its worker can be spawned, otherwise nothing changes |
| `CronManager.CronManager.Notify` | ractor_actors/src/time/cron/mod.rs:197-199 | in whatever map order, every subscriber is told once and nobody else |
| `CronManager.CronManager.StopHandler` | ractor_actors/src/time/cron/mod.rs:193-201 | the entry goes, its worker is asked to stop, and all subscribers are told |
| `CronManager.CronManager.SetScheduleHandler` | ractor_actors/src/time/cron/mod.rs:203-215 | the schedule is cached and queued last for the worker; fails if the worker is gone; nobody is told |
| `CronManager.CronManager.ListJobsHandler` | ractor_actors/src/time/cron/mod.rs:217-225 | lists exactly the names in the table with their cached schedules |
| `CronManager.CronManager.SubscribeHandler` | ractor_actors/src/time/cron/mod.rs:238-246 | a subscriber replaces the one with its id |
| `CronManager.CronManager.UnsubscribeHandler` | ractor_actors/src/time/cron/mod.rs:248-251 | only the named subscriber goes |
| `CronManager.CronManager.FindJob` | ractor_actors/src/time/cron/mod.rs:261-265 | the search by worker id finds an entry if and only if there is one, in whatever map order |
| `CronManager.CronManager.HandleSupervisorEvt` | ractor_actors/src/time/cron/mod.rs:253-305 | every subscriber is told the start, stop or failure of a listed worker as such, and an end removes the entry; other workers' events change nothing |
| `CronManager.CronManager.PostStop` | ractor_actors/src/time/cron/mod.rs:153-163 | leaving asks every listed worker, and no other, to stop and clears the table |
| `CronSystem.SoundKept` | ractor_actors/src/time/cron/mod.rs:165-215 | every step keeps the table injective, the cached schedules coherent and the counts exact |
| `CronSystem.AttendedKept` | ractor_actors/src/time/cron/mod.rs:253-305 | every step keeps: a listed dead worker's end is queued, and a live one not asked to stop is listed |
| `CronSystem.ToldKept` | ractor_actors/src/time/cron/mod.rs:253-305 | every step keeps: an end is told only when the worker leaves the table, a start only once |
| `CronSystem.ScheduleCoherence` | ractor_actors/src/time/cron/mod.rs:203-236 | in every state the cached schedule of a live worker, which is what the manager answers, is the last one queued for it, or its own if none is |
| `CronSystem.ExactExecutions` | ractor_actors/src/time/cron/worker.rs:83-113 | in every state the executions on their way are one, plus overlapping updates, less times with nothing upcoming, so a job never starves; the stored handle is the last timer's, live unless an `Execute` is queued, so only then can an update overlap |
| `CronSystem.OverlapDoublesExecutions` | ractor_actors/src/time/cron/worker.rs:106-112 | a run in which a live worker has two executions on their way |
| `CronSystem.EventLanguage` | ractor_actors/src/time/cron/mod.rs:92-101 | over every run a subscriber is told of each worker at most one start, followed by at most one stop or failure |
| `CronSystem.TableMatchesWorkers` | ractor_actors/src/time/cron/mod.rs:153-201 | with no event queued the table lists only live workers and every one not asked to stop; once the manager is gone all are dead or killed |
| `CronSystem.RescheduleNeverFails` | ractor_actors/src/time/cron/mod.rs:210-213 | given that a death and its notice to the manager are one step, the error branch of the cast is never taken: when the manager gets to a request, every listed worker lives |
| `CronSystem.StaleEventsAreInert` | ractor_actors/src/time/cron/mod.rs:260-298 | once a job was stopped, no event about its old worker changes or tells anything, even with the name in use again |
| `CronEffects.StartTakesEffect` | ractor_actors/src/time/cron/mod.rs:165-191 | after a start under a free name the job is listed with its schedule and a fresh worker on it; taken names and failed starts change nothing |
| `CronEffects.StopTakesEffect` | ractor_actors/src/time/cron/mod.rs:193-201 | after a stop the job is not listed and its worker, and no other, has been asked to stop |
| `CronEffects.RescheduleTakesEffect` | ractor_actors/src/time/cron/mod.rs:210-213 | after a new schedule for a listed job it is the cached one, the last one queued, and the one the worker will settle on; no other job, worker or subscriber changes |
| `CronEffects.LeavingTakesEffect` | ractor_actors/src/time/cron/mod.rs:153-163 | the manager leaving asks exactly the listed workers to stop and clears the table |
| `CronEffects.EventTakesEffect` | ractor_actors/src/time/cron/mod.rs:260-298 | a report that a listed worker ended removes exactly its entry; any other report removes none |
| `CronEffects.EachStepHeard` | ractor_actors/src/time/cron/mod.rs:197-199 | in each step each subscriber hears exactly: the stop of a job stopped, the start, stop or failure reported of a listed worker with its reason, and otherwise nothing |
| `CronEffects.SubscribersInPlace` | ractor_actors/src/time/cron/mod.rs:238-251 | a subscriber is in place if and only if the last request about it was to subscribe |
| `CronEffects.LogsAreComplete` | ractor_actors/src/time/cron/mod.rs:253-305 | over every run a subscriber in place has been told, in order, exactly what each step since it subscribed was to have it hear |
| `CronEffects.EveryEndIsTold` | ractor_actors/src/time/cron/mod.rs:260-285 | a subscriber present throughout has been told the end of every worker that left the table while the manager lived |
| `WatchdogActor.Watchdog.constructor` | ractor_actors/src/watchdog/impl.rs:34-44 | a new watchdog has no subjects and zero counters |
| `WatchdogActor.Watchdog.RegisterHandler` | ractor_actors/src/watchdog/impl.rs:46-67 | a timer is set and its handle stored; an earlier registration is overwritten, its timer left running |
| `WatchdogActor.Watchdog.UnregisterHandler` | ractor_actors/src/watchdog/impl.rs:158-168 | a registered subject goes and its stored timer is aborted |
| `WatchdogActor.Watchdog.PingHandler` | ractor_actors/src/watchdog/impl.rs:74-92 | the stored timer is aborted and a new one set without storing its handle; only registered subjects are answered |
| `WatchdogActor.Watchdog.TimeoutHandler` | ractor_actors/src/watchdog/impl.rs:94-123 | a registered subject goes, is ordered to terminate by its strategy, and is counted |
| `WatchdogActor.Watchdog.HandleSupervisorEvt` | ractor_actors/src/watchdog/impl.rs:136-155 | an exit unregisters, anything else does nothing |
| `WatchdogRuns.SilentSubjectsAreTerminated` | ractor_actors/src/watchdog/impl.rs:46-123 | in every run with nothing left to fire or handle, every registration neither removed nor overwritten and silent for its timeout has been ordered to terminate, by its strategy, unless a reply with statistics failed before |
| `WatchdogRuns.UnansweredStatsEndAll` | ractor_actors/src/watchdog/impl.rs:125-134 | after a reply with statistics failed, no order is ever given again |
| `WatchdogRuns.Accounting` | ractor_actors/src/watchdog/impl.rs:94-167 | registrations are subjects, kills, stops, removals and overwritten ones; the kills reported and the stops count the orders of their kind; no registration gets two |
| `WatchdogRuns.AlwaysExact` | ractor_actors/src/watchdog/impl.rs:82-91 | for every subject, whatever its history, the timers outstanding are exactly its registration's unless the first ping came in time, one per ping, and those left over from before |
| `WatchdogRuns.EffectiveDeadline` | ractor_actors/src/watchdog/impl.rs:46-123 | with timeouts handled when due, every registration is ordered to terminate at exactly the earliest of its own deadline, its first ping's if in time, and those left over; or never, if removed or overwritten first or the watchdog has failed |
| `WatchdogRuns.LeftOverByTime` | ractor_actors/src/watchdog/impl.rs:55-91 | which timers are left over at a registration follows from the times of registrations, pings and removals alone, up to ties |
| `WatchdogRuns.DocumentedDeadlineHolds` | ractor_actors/src/watchdog/mod.rs:125-126 | for every registration, the documented deadline is the real one if and only if no ping came later than the first, which came in time or the timeout is zero, and nothing left over is due sooner |
| `WatchdogExamples.PingedInTimeYetTerminated` | ractor_actors/src/watchdog/impl.rs:84-85 | a run in which a subject never silent for its timeout is terminated |
| `WatchdogExamples.RegisteredAgainYetTerminated` | ractor_actors/src/watchdog/impl.rs:55-66 | a run in which a registration is terminated at the deadline of the one it overwrote |
| `WatchdogExamples.UnregisteredYetTerminated` | ractor_actors/src/watchdog/impl.rs:158-168 | a run in which a registration is terminated by the ping timer of one unregistered before it |
| `WatchdogExamples.UnansweredStatsSpareSubject` | ractor_actors/src/watchdog/impl.rs:125-134 | a run in which a subject silent for its timeout is never ordered to terminate, because a reply with statistics failed |
| `Broadcaster.BroadcasterActor.constructor` | ractor_actors/src/sync/broadcast/mod.rs:157-172 | of several initial targets with one id the last stays |
| `Broadcaster.BroadcasterActor.BroadcastHandler` | ractor_actors/src/sync/broadcast/mod.rs:174-188 | in whatever map order, distinct members are attempted until all are or one fails fatally |
| `Broadcaster.BroadcasterActor.AddTargetHandler` | ractor_actors/src/sync/broadcast/mod.rs:190-193 | a new target takes its id's place |
| `Broadcaster.BroadcasterActor.RemoveTargetHandler` | ractor_actors/src/sync/broadcast/mod.rs:195-198 | the target goes and no other |
| `Broadcaster.OneBroadcast` | ractor_actors/src/sync/broadcast/mod.rs:174-188 | one broadcast attempts every member once, or at most once if it ends in a fatal failure, and nobody else |
| `Broadcaster.MembersByRun` | ractor_actors/src/sync/broadcast/mod.rs:190-198 | the member for an id is exactly the target last added under it, or last given at the start, unless removed since |
| `Broadcaster.LogsAreExact` | ractor_actors/src/sync/broadcast/mod.rs:174-198 | the sends attempted on each target object are exactly the messages broadcast while it was a member by the additions and removals of the run, in order, whatever the map orders |
| `Broadcaster.CarriesOn` | ractor_actors/src/sync/broadcast/mod.rs:113-117 | with the flag the broadcaster never fails |
| `Broadcaster.FailsFast` | ractor_actors/src/sync/broadcast/mod.rs:179-182 | without it, all broadcasts before the fatal one reached every member and the fatal one was attempted at most once each |
| `Broadcaster.FailsExactly` | ractor_actors/src/sync/broadcast/mod.rs:176-186 | the broadcaster fails if and only if it does not carry on past failures and some send has failed |

## Left out

- Sockets, TLS and the listener: a wire is a byte queue with arbitrary chunks, an end and failures. The `readable` and `writable` waits may fail but otherwise end at once; the real one before an empty payload can hold that frame back until the socket is ready.
- `TcpActors.ReadNBytes`: a length is unbounded, so the cast of a u64 to a 32-bit `usize` does not wrap, and allocating the buffer does not fail.
- `TcpActors.ReadHalf.Read`: hands over bytes that the peer sends before the end; waiting for bytes still to come is the machine's interleaving, not the method's.
- The `cron` and `chrono` crates: a schedule is an abstract value, and what it says next (a delay, nothing, a time already past) is an arbitrary input of each step.
- `CronSystem.RescheduleNeverFails`: requests reach the manager at any moment and in any order, which covers every mailbox order without modelling that mailbox. `ListJobs` and `GetSchedule` are read-only handlers and no steps of the machine.
- `CronWorker.Cron.ExecuteHandler`: the job's own effect is left out; in the machine it may also panic, which ends the worker.
- Target, receiver and subscriber bodies: user code, as oracles that succeed or fail. A panic inside a target is not modelled.
- `WatchdogRuns.EffectiveDeadline`: time stands still while a due timeout waits (`Prompt`); without that only `SilentSubjectsAreTerminated` holds.
- The watchdog's global cell: clients failing to reach the watchdog.
- `WatchdogRuns.LeftOverByTime`: a timeout due at the very instant of a registration counts as left over if it had not been handled yet, which times alone do not say.
- `StreamPipeline.Completes`: for finite streams; an endless one keeps its pump going for ever.
- Stop reasons, logging, addresses and the tests' polling helpers.
- `filewatcher`: a subscription map simpler than the broadcaster's. `xtask`: release plumbing around external tools.
