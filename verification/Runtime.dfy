/** The parts of the actor runtime that every model here relies on: a first-in first-out mailbox,
    stop requests that are honoured between messages and before the next one, kills that end an
    actor at any point, and casts that fail once the receiver is gone. */
module Runtime {

  datatype Option<+T> = None | Some(value: T)

  /** What the runtime knows of one actor. */
  datatype Cell<M> = Cell(alive: bool, stopping: bool, killed: bool, mailbox: seq<M>) {

    /** May the actor start on its next message? */
    predicate Ready() {
      alive && !stopping && !killed && mailbox != []
    }

    function Cast(m: M): Cell<M> {
      if alive then this.(mailbox := mailbox + [m]) else this
    }

    function Stop(): Cell<M> {
      this.(stopping := true)
    }

    function Kill(): Cell<M> {
      this.(killed := true)
    }

    function Die(): Cell<M> {
      this.(alive := false)
    }

    function Dequeue(): Cell<M>
      requires mailbox != []
    {
      this.(mailbox := mailbox[1..])
    }
  }

  function Spawned<M>(mailbox: seq<M>): Cell<M> {
    Cell(true, false, false, mailbox)
  }

  /** A shared handle on an actor. */
  class ActorRef<M> {
    var cell: Cell<M>

    constructor ()
      ensures cell == Spawned([])
    {
      cell := Spawned([]);
    }

    method Cast(m: M) returns (ok: bool)
      modifies this
      ensures cell == old(cell).Cast(m)
      ensures ok == old(cell).alive
    {
      ok := cell.alive;
      if ok {
        cell := cell.(mailbox := cell.mailbox + [m]);
      }
    }

    method Stop()
      modifies this
      ensures cell == old(cell).Stop()
    {
      cell := cell.(stopping := true);
    }
  }
}
