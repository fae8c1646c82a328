/** The watchdog, handler by handler: it keeps one registration per subject, and timers that send it
    a timeout message. */
module WatchdogActor {

  type ActorId(==, !new)

  datatype Strategy = Kill | Stop

  /** A pending `send_after`: which subject's timeout it will send, and when. */
  datatype Timer = Timer(id: ActorId, due: nat)

  /** The timers that have neither fired nor been aborted, by handle. Handles are never reused. */
  datatype Timers = Timers(now: nat, next: nat, live: map<nat, Timer>) {

    function SendAfter(delay: nat, id: ActorId): Timers {
      this.(next := next + 1, live := live[next := Timer(id, now + delay)])
    }

    /** Aborting a timer that has fired does nothing; dropping its handle leaves it running. */
    function Abort(handle: nat): Timers {
      this.(live := live - {handle})
    }
  }

  /** `timer` is the handle made at registration; it also tells registrations apart. */
  datatype Registration = Registration(timeout: nat, strategy: Strategy, timer: nat)

  /** An order given to a subject to terminate. */
  datatype Order = Order(id: ActorId, strategy: Strategy, registration: nat, at: nat)

  datatype WatchdogState = WatchdogState(subjects: map<ActorId, Registration>, kills: nat, stops: nat,
                                         timers: Timers, orders: seq<Order>)

  const EMPTY := WatchdogState(map[], 0, 0, Timers(0, 0, map[]), [])

  // ---------- Handlers as functions ----------

  function Register(w: WatchdogState, id: ActorId, timeout: nat, strategy: Strategy): WatchdogState {
    w.(timers := w.timers.SendAfter(timeout, id),
       subjects := w.subjects[id := Registration(timeout, strategy, w.timers.next)])
  }

  function Unregister(w: WatchdogState, id: ActorId): WatchdogState {
    if id in w.subjects then
      w.(timers := w.timers.Abort(w.subjects[id].timer), subjects := w.subjects - {id})
    else w
  }

  /** The registration keeps the handle it was made with: the new timer's handle is not stored. */
  function Ping(w: WatchdogState, id: ActorId): WatchdogState {
    if id in w.subjects then
      var r := w.subjects[id];
      w.(timers := w.timers.Abort(r.timer).SendAfter(r.timeout, id))
    else w
  }

  function Timeout(w: WatchdogState, id: ActorId): WatchdogState {
    if id in w.subjects then
      var r := w.subjects[id];
      w.(subjects := w.subjects - {id},
         kills := if r.strategy.Kill? then w.kills + 1 else w.kills,
         stops := if r.strategy.Stop? then w.stops + 1 else w.stops,
         orders := w.orders + [Order(id, r.strategy, r.timer, w.timers.now)])
    else w
  }

  // ---------- The actor ----------

  /** The timers and the subjects, as the watchdog reaches them. */
  class Host {
    var timers: Timers
    var orders: seq<Order>

    constructor ()
      ensures timers == Timers(0, 0, map[]) && orders == []
    {
      timers := Timers(0, 0, map[]);
      orders := [];
    }

    method SendAfter(delay: nat, id: ActorId) returns (handle: nat)
      modifies this`timers
      ensures timers == old(timers).SendAfter(delay, id) && handle == old(timers).next
    {
      handle := timers.next;
      timers := timers.(next := handle + 1, live := timers.live[handle := Timer(id, timers.now + delay)]);
    }

    method Abort(handle: nat)
      modifies this`timers
      ensures timers == old(timers).Abort(handle)
    {
      timers := timers.(live := timers.live - {handle});
    }

    method Terminate(id: ActorId, strategy: Strategy, registration: nat)
      modifies this`orders
      ensures orders == old(orders) + [Order(id, strategy, registration, timers.now)]
    {
      orders := orders + [Order(id, strategy, registration, timers.now)];
    }
  }

  class Watchdog {
    const host: Host
    var subjects: map<ActorId, Registration>
    var kills: nat
    var stops: nat

    ghost function Model(): WatchdogState
      reads this, host
    {
      WatchdogState(subjects, kills, stops, host.timers, host.orders)
    }

    constructor (host: Host)
      requires host.timers == Timers(0, 0, map[]) && host.orders == []
      ensures this.host == host && Model() == EMPTY
    {
      this.host := host;
      subjects := map[];
      kills, stops := 0, 0;
    }

    method RegisterHandler(id: ActorId, timeout: nat, strategy: Strategy)
      modifies this, host
      ensures Model() == Register(old(Model()), id, timeout, strategy)
    {
      var timer := host.SendAfter(timeout, id);
      subjects := subjects[id := Registration(timeout, strategy, timer)];
    }

    method UnregisterHandler(id: ActorId)
      modifies this, host
      ensures Model() == Unregister(old(Model()), id)
    {
      if id in subjects {
        host.Abort(subjects[id].timer);
        subjects := subjects - {id};
      }
    }

    /** Only a registered subject's ping is answered. */
    method PingHandler(id: ActorId) returns (answered: bool)
      modifies this, host
      ensures Model() == Ping(old(Model()), id)
      ensures answered <==> id in old(subjects)
    {
      answered := id in subjects;
      if answered {
        host.Abort(subjects[id].timer);
        var _ := host.SendAfter(subjects[id].timeout, id);
      } else {
        subjects := subjects - {id};
      }
    }

    method TimeoutHandler(id: ActorId)
      modifies this, host
      ensures Model() == Timeout(old(Model()), id)
    {
      if id in subjects {
        var r := subjects[id];
        subjects := subjects - {id};
        host.Terminate(id, r.strategy, r.timer);
        match r.strategy
        case Kill => kills := kills + 1;
        case Stop => stops := stops + 1;
      }
    }

    /** Reports kills only, and fails if nobody is left to be told. */
    method StatsHandler(receiverGone: bool) returns (ok: bool, killsSoFar: nat)
      ensures ok <==> !receiverGone
      ensures killsSoFar == kills
    {
      ok, killsSoFar := !receiverGone, kills;
    }

    /** A subject's exit, for whatever reason, unregisters it; its start does nothing. */
    method HandleSupervisorEvt(id: ActorId, exited: bool)
      modifies this, host
      ensures Model() == if exited then Unregister(old(Model()), id) else old(Model())
    {
      if exited {
        UnregisterHandler(id);
      }
    }
  }
}
