/** The broadcaster: a changing set of targets, each sent every message, in whatever order the map
    yields them. */
module Broadcaster {
  import opened Runtime

  type ActorId(==, !new)

  type Message(==, !new)

  /** Whether target object `t` fails the n-th send attempted on it. */
  type Oracle = (nat, nat) -> bool

  datatype Config = Config(continueWithDeadTargets: bool, fails: Oracle)

  /** The member target object for each id, and the sends attempted on every object there has been. */
  datatype State = State(targets: map<ActorId, nat>, attempts: seq<seq<Message>>, alive: bool)

  const EMPTY := State(map[], [], true)

  // ---------- Handlers as functions ----------

  /** A new target object takes the place of whichever had its id. */
  function AddTarget(b: State, id: ActorId): State {
    State(b.targets[id := |b.attempts|], b.attempts + [[]], b.alive)
  }

  function RemoveTarget(b: State, id: ActorId): State {
    b.(targets := b.targets - {id})
  }

  /** The targets given at the start; of several with one id, the last stays. */
  function Initial(ids: seq<ActorId>): State {
    if ids == [] then EMPTY else AddTarget(Initial(ids[..|ids| - 1]), ids[|ids| - 1])
  }

  predicate Known(b: State) {
    forall id | id in b.targets :: b.targets[id] < |b.attempts|
  }

  predicate Fails(c: Config, b: State, id: ActorId)
    requires Known(b) && id in b.targets
  {
    c.fails(b.targets[id], |b.attempts[b.targets[id]]|)
  }

  /** Sending to some members in turn. */
  function SendTo(b: State, msg: Message, order: seq<ActorId>): (attempts: seq<seq<Message>>)
    requires Known(b) && forall id | id in order :: id in b.targets
    ensures |attempts| == |b.attempts|
  {
    if order == [] then b.attempts
    else
      var attempts, t := SendTo(b, msg, order[..|order| - 1]), b.targets[order[|order| - 1]];
      attempts[t := attempts[t] + [msg]]
  }

  ghost predicate Distinct(order: seq<ActorId>) {
    forall i, j | 0 <= i < j < |order| :: order[i] != order[j]
  }

  /** The members one broadcast may attempt, in order: all of them, unless one that failed ended it. */
  ghost predicate Possible(c: Config, b: State, order: seq<ActorId>)
    requires Known(b)
  {
    && Distinct(order)
    && (forall id | id in order :: id in b.targets)
    && (!c.continueWithDeadTargets ==> forall i | 0 <= i < |order| - 1 :: !Fails(c, b, order[i]))
    && ((forall id | id in b.targets :: id in order) || Fatal(c, b, order))
  }

  ghost predicate Fatal(c: Config, b: State, order: seq<ActorId>)
    requires Known(b) && forall id | id in order :: id in b.targets
  {
    !c.continueWithDeadTargets && order != [] && Fails(c, b, order[|order| - 1])
  }

  ghost function Broadcast(c: Config, b: State, msg: Message, order: seq<ActorId>): State
    requires Known(b) && Possible(c, b, order)
  {
    State(b.targets, SendTo(b, msg, order), b.alive && !Fatal(c, b, order))
  }

  // ---------- The actor ----------

  class Sinks {
    var attempts: seq<seq<Message>>
    const fails: Oracle

    constructor (fails: Oracle)
      ensures attempts == [] && this.fails == fails
    {
      attempts := [];
      this.fails := fails;
    }

    method Add() returns (t: nat)
      modifies this
      ensures t == |old(attempts)| && attempts == old(attempts) + [[]]
    {
      t := |attempts|;
      attempts := attempts + [[]];
    }

    method Send(t: nat, msg: Message) returns (ok: bool)
      requires t < |attempts|
      modifies this
      ensures attempts == old(attempts)[t := old(attempts)[t] + [msg]]
      ensures ok <==> !fails(t, |old(attempts)[t]|)
    {
      ok := !fails(t, |attempts[t]|);
      attempts := attempts[t := attempts[t] + [msg]];
    }
  }

  class BroadcasterActor {
    const sinks: Sinks
    const continueWithDeadTargets: bool
    var targets: map<ActorId, nat>

    ghost function Model(): State
      reads this, sinks
    {
      State(targets, sinks.attempts, true)
    }

    ghost function Settings(): Config {
      Config(continueWithDeadTargets, sinks.fails)
    }

    /** Collects the initial targets into the map. */
    constructor (sinks: Sinks, ids: seq<ActorId>, continueWithDeadTargets: bool)
      requires sinks.attempts == []
      modifies sinks
      ensures this.sinks == sinks && this.continueWithDeadTargets == continueWithDeadTargets
      ensures Model() == Initial(ids)
    {
      this.sinks := sinks;
      this.continueWithDeadTargets := continueWithDeadTargets;
      targets := map[];
      new;
      for i := 0 to |ids|
        invariant Model() == Initial(ids[..i])
      {
        assert ids[..i + 1][..i] == ids[..i];
        AddTargetHandler(ids[i]);
      }
      assert ids[..|ids|] == ids;
    }

    /** Whichever order the map yields is reported in `order`. */
    method BroadcastHandler(msg: Message) returns (ok: bool, ghost order: seq<ActorId>)
      requires Known(Model()) && Members(Model())
      modifies sinks
      ensures Possible(Settings(), old(Model()), order)
      ensures Model() == Broadcast(Settings(), old(Model()), msg, order).(alive := true)
      ensures ok <==> !Fatal(Settings(), old(Model()), order)
      ensures ok <==> continueWithDeadTargets ||
                      forall id | id in order :: !sinks.fails(targets[id], |old(sinks.attempts)[targets[id]]|)
    {
      ok := true;
      order := [];
      var todo := targets.Keys;
      ghost var before := Model();
      while todo != {}
        invariant todo <= targets.Keys
        invariant forall id :: id in targets <==> id in order || id in todo
        invariant forall id | id in order :: id !in todo
        invariant Distinct(order)
        invariant sinks.attempts == SendTo(before, msg, order)
        invariant !continueWithDeadTargets ==> forall i | 0 <= i < |order| :: !Fails(Settings(), before, order[i])
        decreases |todo|
      {
        var who :| who in todo;
        todo := todo - {who};
        OthersUntouched(before, msg, order, targets[who]);
        ok := sinks.Send(targets[who], msg);
        assert (order + [who])[..|order|] == order;
        order := order + [who];
        if !ok && !continueWithDeadTargets {
          return;
        }
        ok := true;
      }
    }

    method AddTargetHandler(id: ActorId)
      modifies this, sinks
      ensures Model() == AddTarget(old(Model()), id)
      ensures targets == old(targets)[id := |old(sinks.attempts)|] && sinks.attempts == old(sinks.attempts) + [[]]
    {
      var target := sinks.Add();
      targets := targets[id := target];
    }

    method RemoveTargetHandler(id: ActorId)
      modifies this
      ensures Model() == RemoveTarget(old(Model()), id)
      ensures targets.Keys == old(targets).Keys - {id}
      ensures forall other | other in targets :: targets[other] == old(targets)[other]
    {
      targets := targets - {id};
    }

    method ListTargetsHandler() returns (ids: set<ActorId>)
      ensures ids == targets.Keys
    {
      ids := targets.Keys;
    }
  }

  /** Every id has its own target object. */
  ghost predicate Members(b: State) {
    forall id, other | id in b.targets && other in b.targets && id != other :: b.targets[id] != b.targets[other]
  }

  /** A target that is not among those sent to keeps its log. */
  lemma {:induction false} OthersUntouched(b: State, msg: Message, order: seq<ActorId>, t: nat)
    requires Known(b) && (forall id | id in order :: id in b.targets && b.targets[id] != t) && t < |b.attempts|
    ensures SendTo(b, msg, order)[t] == b.attempts[t]
  {
    if order != [] {
      assert order[|order| - 1] in order;
      OthersUntouched(b, msg, order[..|order| - 1], t);
    }
  }

  lemma {:induction false} EachSentOnce(b: State, msg: Message, order: seq<ActorId>, id: ActorId)
    requires Known(b) && Members(b) && Distinct(order) && (forall x | x in order :: x in b.targets) && id in order
    ensures SendTo(b, msg, order)[b.targets[id]] == b.attempts[b.targets[id]] + [msg]
  {
    var front, last := order[..|order| - 1], order[|order| - 1];
    assert order == front + [last];
    if id == last {
      OthersUntouched(b, msg, front, b.targets[id]);
    } else {
      EachSentOnce(b, msg, front, id);
    }
  }

  // ---------- Runs ----------

  datatype Step =
    | Broadcasts(msg: Message, order: seq<ActorId>)
    | Adds(id: ActorId)
    | Removes(id: ActorId)

  ghost predicate Enabled(c: Config, b: State, step: Step) {
    && b.alive
    && (step.Broadcasts? ==> Known(b) && Possible(c, b, step.order))
  }

  ghost function Apply(c: Config, b: State, step: Step): State
    requires Enabled(c, b, step)
  {
    match step
    case Broadcasts(msg, order) => Broadcast(c, b, msg, order)
    case Adds(id) => AddTarget(b, id)
    case Removes(id) => RemoveTarget(b, id)
  }

  datatype Run = Start(ids: seq<ActorId>) | Then(prior: Run, step: Step)

  ghost function End(c: Config, run: Run): State {
    match run
    case Start(ids) => Initial(ids)
    case Then(prior, step) =>
      var b := End(c, prior);
      if Enabled(c, b, step) then Apply(c, b, step) else b
  }

  ghost predicate Valid(c: Config, run: Run) {
    run.Then? ==> Valid(c, run.prior) && Enabled(c, End(c, run.prior), run.step)
  }

  // ---------- Membership, by the steps of the run alone ----------

  /** How many target objects have been made: one for each target given at the start or added since. */
  function Made(run: Run): nat {
    match run
    case Start(ids) => |ids|
    case Then(prior, step) => if step.Adds? then Made(prior) + 1 else Made(prior)
  }

  /** The place of the last of the targets given at the start that has this id. */
  function LastWith(ids: seq<ActorId>, id: ActorId): Option<nat> {
    if ids == [] then None
    else if ids[|ids| - 1] == id then Some(|ids| - 1)
    else LastWith(ids[..|ids| - 1], id)
  }

  /** The object made by the last addition under an id, unless that id was removed after it. */
  function Holder(run: Run, id: ActorId): Option<nat> {
    match run
    case Start(ids) => LastWith(ids, id)
    case Then(prior, step) =>
      if step == Adds(id) then Some(Made(prior))
      else if step == Removes(id) then None
      else Holder(prior, id)
  }

  ghost predicate IsMember(run: Run, t: nat) {
    exists id :: Holder(run, id) == Some(t)
  }

  /** The messages broadcast while `t` was a member, in order. */
  ghost function Owed(run: Run, t: nat): seq<Message> {
    match run
    case Start(_) => []
    case Then(prior, step) =>
      Owed(prior, t) + if step.Broadcasts? && IsMember(prior, t) then [step.msg] else []
  }

  ghost predicate HasTarget(b: State, t: nat) {
    exists id :: id in b.targets && b.targets[id] == t
  }

  lemma {:induction false} InitialByRun(ids: seq<ActorId>)
    ensures |Initial(ids).attempts| == |ids|
    ensures forall id :: id in Initial(ids).targets <==> LastWith(ids, id).Some?
    ensures forall id | id in Initial(ids).targets :: LastWith(ids, id) == Some(Initial(ids).targets[id])
  {
    if ids != [] {
      InitialByRun(ids[..|ids| - 1]);
    }
  }

  /** At every point the broadcaster's members are exactly those that the additions and removals say. */
  lemma {:induction false} MembersByRun(c: Config, run: Run)
    requires Valid(c, run)
    ensures |End(c, run).attempts| == Made(run)
    ensures forall id :: id in End(c, run).targets <==> Holder(run, id).Some?
    ensures forall id | id in End(c, run).targets :: Holder(run, id) == Some(End(c, run).targets[id])
    ensures forall t: nat :: HasTarget(End(c, run), t) <==> IsMember(run, t)
  {
    if run.Start? {
      InitialByRun(run.ids);
    } else {
      MembersByRun(c, run.prior);
    }
    forall t: nat
      ensures HasTarget(End(c, run), t) <==> IsMember(run, t)
    {
      if HasTarget(End(c, run), t) {
        var id :| id in End(c, run).targets && End(c, run).targets[id] == t;
        assert Holder(run, id) == Some(t);
      }
      if IsMember(run, t) {
        var id :| Holder(run, id) == Some(t);
        assert End(c, run).targets[id] == t;
      }
    }
  }

  lemma {:induction false} InitialMembers(ids: seq<ActorId>)
    ensures Known(Initial(ids)) && Members(Initial(ids)) && Initial(ids).alive
    ensures forall t: nat | t < |Initial(ids).attempts| :: Initial(ids).attempts[t] == []
  {
    if ids != [] {
      InitialMembers(ids[..|ids| - 1]);
    }
  }

  lemma {:induction false} AlwaysMembers(c: Config, run: Run)
    requires Valid(c, run)
    ensures Known(End(c, run)) && Members(End(c, run))
  {
    match run
    case Start(ids) => InitialMembers(ids);
    case Then(prior, step) => AlwaysMembers(c, prior);
  }

  /** As long as the broadcaster lives, and always if it carries on past failures, the sends attempted
      on each target object are exactly the messages broadcast while it was a member, in order,
      whatever orders the map yielded. */
  lemma {:induction false} LogsAreExact(c: Config, run: Run, t: nat)
    requires Valid(c, run) && End(c, run).alive && t < |End(c, run).attempts|
    ensures End(c, run).attempts[t] == Owed(run, t)
  {
    match run
    case Start(ids) => InitialMembers(ids);
    case Then(prior, step) =>
      AlwaysMembers(c, prior);
      MembersByRun(c, prior);
      var b := End(c, prior);
      if t < |b.attempts| {
        LogsAreExact(c, prior, t);
      } else {
        OwedNothing(c, prior, t);
      }
      if step.Broadcasts? {
        OneBroadcast(c, b, step.msg, step.order, t);
      }
  }

  lemma {:induction false} OwedNothing(c: Config, run: Run, t: nat)
    requires Valid(c, run) && t >= |End(c, run).attempts|
    ensures Owed(run, t) == []
  {
    match run
    case Start(_) =>
    case Then(prior, step) =>
      AlwaysMembers(c, prior);
      MembersByRun(c, prior);
      OwedNothing(c, prior, t);
  }

  /** One broadcast attempts every member once, or, when one failure is fatal, some members once. */
  lemma OneBroadcast(c: Config, b: State, msg: Message, order: seq<ActorId>, t: nat)
    requires Known(b) && Members(b) && Possible(c, b, order) && t < |b.attempts|
    ensures var log := SendTo(b, msg, order)[t];
            && (log == b.attempts[t] || log == b.attempts[t] + [msg])
            && (!HasTarget(b, t) ==> log == b.attempts[t])
            && (!Fatal(c, b, order) && HasTarget(b, t) ==> log == b.attempts[t] + [msg])
  {
    if id :| id in order && b.targets[id] == t {
      EachSentOnce(b, msg, order, id);
    } else {
      OthersUntouched(b, msg, order, t);
    }
  }

  /** Carrying on past failures, the broadcaster never fails. */
  lemma {:induction false} CarriesOn(c: Config, run: Run)
    requires Valid(c, run) && c.continueWithDeadTargets
    ensures End(c, run).alive
  {
    match run
    case Start(ids) => InitialMembers(ids);
    case Then(prior, step) => CarriesOn(c, prior);
  }

  /** A broadcaster that failed did so on its last broadcast: all before it reached every member, and it
      was attempted at most once on each, ending with one that failed. */
  lemma {:induction false} FailsFast(c: Config, run: Run)
    requires Valid(c, run) && !End(c, run).alive
    ensures run.Then? && run.step.Broadcasts? && !c.continueWithDeadTargets
    ensures End(c, run.prior).alive && Known(End(c, run.prior)) && Fatal(c, End(c, run.prior), run.step.order)
    ensures forall t: nat | t < |End(c, run.prior).attempts| ::
              var (before, after) := (Owed(run.prior, t), End(c, run).attempts[t]);
              after == before || (after == before + [run.step.msg] && IsMember(run.prior, t))
  {
    match run
    case Start(ids) => InitialMembers(ids);
    case Then(prior, step) =>
      AlwaysMembers(c, prior);
      MembersByRun(c, prior);
      forall t: nat | t < |End(c, prior).attempts|
        ensures End(c, run).attempts[t] == Owed(prior, t)
                || (End(c, run).attempts[t] == Owed(prior, t) + [step.msg] && IsMember(prior, t))
      {
        LogsAreExact(c, prior, t);
        OneBroadcast(c, End(c, prior), step.msg, step.order, t);
      }
  }

  /** No send attempted so far failed, counting for each object the messages it was owed before. */
  ghost predicate NoneFailed(c: Config, run: Run) {
    run.Then? ==>
      && NoneFailed(c, run.prior)
      && (run.step.Broadcasts? ==> forall id | id in run.step.order :: Delivers(c, run.prior, id))
  }

  ghost predicate Delivers(c: Config, run: Run, id: ActorId) {
    Holder(run, id).Some? ==> !c.fails(Holder(run, id).value, |Owed(run, Holder(run, id).value)|)
  }

  /** The broadcaster fails if and only if it does not carry on past failures and some send has failed. */
  lemma {:induction false} FailsExactly(c: Config, run: Run)
    requires Valid(c, run)
    ensures End(c, run).alive <==> c.continueWithDeadTargets || NoneFailed(c, run)
  {
    match run
    case Start(ids) => InitialMembers(ids);
    case Then(prior, step) =>
      FailsExactly(c, prior);
      AlwaysMembers(c, prior);
      MembersByRun(c, prior);
      if step.Broadcasts? {
        var b := End(c, prior);
        forall id | id in step.order
          ensures Delivers(c, prior, id) <==> !Fails(c, b, id)
        {
          LogsAreExact(c, prior, b.targets[id]);
        }
        if !c.continueWithDeadTargets {
          OnlyLastFails(c, b, step.order);
        }
      }
  }

  lemma OnlyLastFails(c: Config, b: State, order: seq<ActorId>)
    requires Known(b) && Possible(c, b, order) && !c.continueWithDeadTargets
    ensures Fatal(c, b, order) <==> exists id :: id in order && Fails(c, b, id)
  {
    if Fatal(c, b, order) {
      assert order[|order| - 1] in order;
    }
  }
}
