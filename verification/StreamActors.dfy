/** The stream actors, handler by handler: the loop that drives a stream pump, and the multiplexer
    that fans each item out to its targets. */
module StreamActors {
  import opened Runtime

  type Item(==, !new)

  /** What a target reports as its id: a string, of which only equality matters here. */
  type TargetId(==, !new)

  /** A stream: what the n-th call to `next` returns. The first `None` ends it. */
  type Source = nat -> Option<Item>

  /** A downstream target: which object it is, and the id it reports. */
  datatype Target = Target(key: nat, id: TargetId)

  datatype Note = TargetFailed(id: TargetId) | EndOfStream

  /** Whether target `key` fails on the n-th item it is offered. */
  type Oracle = (nat, nat) -> bool

  datatype Config = Config(stopOnFailure: bool, fails: Oracle)

  /** What the outside sees: the items each target was offered, and the notifications sent. */
  datatype World = World(logs: seq<seq<Item>>, notes: seq<Note>)

  datatype MuxState = MuxState(cell: Cell<Option<Item>>, targets: seq<Target>, world: World)

  datatype LoopState = LoopState(cell: Cell<()>, calls: nat)

  /** The pump's supervision events, as the multiplexer receives them. */
  datatype PumpEvent = PumpStarted | PumpTerminated | PumpFailed

  datatype IterationResult = Continue | End

  predicate Known(ts: seq<Target>, w: World) {
    forall t | t in ts :: t.key < |w.logs|
  }

  // ---------- Handlers as functions ----------

  function OfferOne(c: Config, t: Target, item: Item, w: World): (World, bool)
    requires t.key < |w.logs|
  {
    var failed := c.fails(t.key, |w.logs[t.key]|);
    (World(w.logs[t.key := w.logs[t.key] + [item]], if failed then w.notes + [TargetFailed(t.id)] else w.notes), failed)
  }

  /** Offering an item to targets in turn, collecting the ids of those that fail. */
  function Offer(c: Config, ts: seq<Target>, item: Item, w: World): (r: (World, set<TargetId>))
    requires Known(ts, w)
    ensures |r.0.logs| == |w.logs|
  {
    if ts == [] then (w, {})
    else
      var (w1, ids) := Offer(c, ts[..|ts| - 1], item, w);
      var (w2, failed) := OfferOne(c, ts[|ts| - 1], item, w1);
      (w2, if failed then ids + {ts[|ts| - 1].id} else ids)
  }

  function Retain(ts: seq<Target>, removed: set<TargetId>): (kept: seq<Target>)
    ensures forall t | t in kept :: t in ts && t.id !in removed
  {
    if ts == [] then []
    else
      var (front, last) := (Retain(ts[..|ts| - 1], removed), ts[|ts| - 1]);
      if last.id in removed then front else front + [last]
  }

  /** The multiplexer asking to be stopped and announcing the end. */
  function Finish(m: MuxState): MuxState {
    m.(cell := m.cell.Stop(), world := m.world.(notes := m.world.notes + [EndOfStream]))
  }

  function ItemReceived(c: Config, m: MuxState, item: Item): MuxState
    requires Known(m.targets, m.world)
  {
    var (world, failed) := Offer(c, m.targets, item, m.world);
    var m' := MuxState(m.cell, if c.stopOnFailure then Retain(m.targets, failed) else m.targets, world);
    if c.stopOnFailure && m'.targets == [] then Finish(m') else m'
  }

  function MuxHandle(c: Config, m: MuxState, msg: Option<Item>): (r: MuxState)
    requires Known(m.targets, m.world)
    ensures Known(r.targets, r.world) && |r.world.logs| == |m.world.logs|
  {
    match msg
    case Some(item) => ItemReceived(c, m, item)
    case None => Finish(m)
  }

  /** One turn of the loop around the pump: pull an item, forward it, then go round again or stop.
      The flag is whether the handler succeeded; forwarding to an actor that is gone fails. */
  function LoopHandle(l: LoopState, mux: Cell<Option<Item>>, src: Source): (LoopState, Cell<Option<Item>>, bool) {
    var item := src(l.calls);
    var l' := l.(calls := l.calls + 1);
    if !mux.alive then (l', mux, false)
    else if item.None? then (l'.(cell := l'.cell.Stop()), mux.Cast(item), true)
    else (l'.(cell := l'.cell.Cast(())), mux.Cast(item), l'.cell.alive)
  }

  // ---------- The actors ----------

  /** The targets and the callback, which are the user's. */
  class Downstream {
    var world: World
    const fails: Oracle

    constructor (targets: nat, fails: Oracle)
      ensures world == World(seq(targets, _ => []), []) && this.fails == fails
    {
      world := World(seq(targets, _ => []), []);
      this.fails := fails;
    }

    method MessageReceived(t: Target, item: Item) returns (ok: bool)
      requires t.key < |world.logs|
      modifies this
      ensures ok <==> !fails(t.key, |old(world.logs)[t.key]|)
      ensures world == old(world).(logs := old(world.logs)[t.key := old(world.logs)[t.key] + [item]])
    {
      var log := world.logs[t.key];
      ok := !fails(t.key, |log|);
      world := world.(logs := world.logs[t.key := log + [item]]);
    }

    method Notify(n: Note)
      modifies this
      ensures world == old(world).(notes := old(world.notes) + [n])
    {
      world := world.(notes := world.notes + [n]);
    }
  }

  class MuxActor {
    const myself: ActorRef<Option<Item>>
    const downstream: Downstream
    const stopOnFailure: bool
    var targets: seq<Target>

    ghost function Model(): MuxState
      reads this, myself, downstream
    {
      MuxState(myself.cell, targets, downstream.world)
    }

    ghost function Settings(): Config {
      Config(stopOnFailure, downstream.fails)
    }

    constructor (myself: ActorRef<Option<Item>>, downstream: Downstream, targets: seq<Target>, stopOnFailure: bool)
      ensures this.myself == myself && this.downstream == downstream
      ensures this.targets == targets && this.stopOnFailure == stopOnFailure
    {
      this.myself := myself;
      this.downstream := downstream;
      this.targets := targets;
      this.stopOnFailure := stopOnFailure;
    }

    method ItemReceivedHandler(item: Item)
      requires Known(targets, downstream.world)
      modifies this, myself, downstream
      ensures Model() == ItemReceived(Settings(), old(Model()), item)
    {
      var toBeRemoved: set<TargetId> := {};
      var i := 0;
      while i < |targets|
        invariant i <= |targets| && targets == old(targets) && myself.cell == old(myself.cell)
        invariant Offer(Settings(), targets[..i], item, old(downstream.world)) == (downstream.world, toBeRemoved)
      {
        var target := targets[i];
        assert targets[..i + 1][..i] == targets[..i];
        var ok := downstream.MessageReceived(target, item);
        if !ok {
          downstream.Notify(TargetFailed(target.id));
          toBeRemoved := toBeRemoved + {target.id};
        }
        i := i + 1;
      }
      assert targets[..i] == targets;
      if stopOnFailure {
        targets := RetainOnly(targets, toBeRemoved);
        if targets == [] {
          myself.Stop();
          downstream.Notify(EndOfStream);
        }
      }
    }

    /** Keeps the targets whose id is not to be removed, in their order. */
    static method RetainOnly(ts: seq<Target>, removed: set<TargetId>) returns (kept: seq<Target>)
      ensures kept == Retain(ts, removed)
    {
      kept := [];
      for i := 0 to |ts|
        invariant kept == Retain(ts[..i], removed)
      {
        assert ts[..i + 1][..i] == ts[..i];
        if ts[i].id !in removed {
          kept := kept + [ts[i]];
        }
      }
      assert ts[..|ts|] == ts;
    }

    method EndOfStreamHandler()
      modifies myself, downstream
      ensures Model() == Finish(old(Model()))
    {
      myself.Stop();
      downstream.Notify(EndOfStream);
    }

    /** Fails, and so bubbles up, exactly when the pump failed. */
    method HandleSupervisorEvt(evt: PumpEvent) returns (ok: bool)
      ensures ok <==> !evt.PumpFailed?
      ensures Model() == old(Model())
    {
      ok := !evt.PumpFailed?;
    }
  }

  class Streamer {
    const stream: Source
    const who: ActorRef<Option<Item>>
    var calls: nat

    constructor (stream: Source, who: ActorRef<Option<Item>>)
      ensures this.stream == stream && this.who == who && calls == 0
    {
      this.stream := stream;
      this.who := who;
      calls := 0;
    }

    method Work() returns (ok: bool, r: IterationResult)
      modifies this, who
      ensures calls == old(calls) + 1
      ensures who.cell == old(who.cell).Cast(stream(old(calls)))
      ensures ok == old(who.cell).alive
      ensures r.End? <==> stream(old(calls)).None?
    {
      var item := stream(calls);
      calls := calls + 1;
      var last := item.None?;
      ok := who.Cast(item);
      r := if last then IterationResult.End else Continue;
    }
  }

  class Loop {
    const myself: ActorRef<()>
    const op: Streamer

    ghost predicate Valid()
    {
      (myself as object) != (op.who as object)
    }

    ghost function Model(): LoopState
      reads myself, op
    {
      LoopState(myself.cell, op.calls)
    }

    constructor (myself: ActorRef<()>, op: Streamer)
      requires (myself as object) != (op.who as object) && myself.cell == Spawned([])
      modifies myself
      ensures Valid() && this.myself == myself && this.op == op
      ensures myself.cell == Spawned([()])
    {
      this.myself := myself;
      this.op := op;
      new;
      var _ := myself.Cast(());
    }

    method Handle() returns (ok: bool)
      requires Valid()
      modifies myself, op, op.who
      ensures (Model(), op.who.cell, ok) == LoopHandle(old(Model()), old(op.who.cell), op.stream)
      ensures !old(op.who.cell).alive ==>
                !ok && op.who.cell == old(op.who.cell) && myself.cell == old(myself.cell)
      ensures old(op.who.cell).alive ==>
                var item := op.stream(old(op.calls));
                && op.who.cell.mailbox == old(op.who.cell.mailbox) + [item]
                && myself.cell == if item.None? then old(myself.cell).Stop() else old(myself.cell).Cast(())
    {
      var result: IterationResult;
      ok, result := op.Work();
      if !ok {
        return;
      }
      if result.Continue? {
        ok := myself.Cast(());
      } else {
        myself.Stop();
      }
    }
  }
}
