/** What the multiplexer delivers when it handles a stream's messages in order and nothing interferes:
    first as a fold of its handler, then in closed form. */
module StreamSpec {
  import opened Runtime
  import opened StreamActors

  datatype Setup = Setup(src: Source, ids: seq<TargetId>, config: Config)

  function Targets(ids: seq<TargetId>): seq<Target> {
    seq(|ids|, k requires 0 <= k < |ids| => Target(k, ids[k]))
  }

  function Fresh(u: Setup): MuxState {
    MuxState(Spawned([]), Targets(u.ids), World(seq(|u.ids|, _ => []), []))
  }

  /** The multiplexer after handling the first `h` messages of its stream. */
  function Spec(u: Setup, h: nat): (m: MuxState)
    ensures Known(m.targets, m.world) && |m.world.logs| == |u.ids|
  {
    if h == 0 then Fresh(u) else MuxHandle(u.config, Spec(u, h - 1), u.src(h - 1))
  }

  /** The first `n` messages of a stream are all items. */
  ghost predicate Flows(src: Source, n: nat) {
    forall i: nat | i < n :: src(i).Some?
  }

  /** The stream has exactly `n` items. */
  ghost predicate Ends(src: Source, n: nat) {
    Flows(src, n) && src(n).None?
  }

  ghost function Items(src: Source, n: nat): (r: seq<Item>)
    requires Flows(src, n)
    ensures |r| == n
  {
    if n == 0 then [] else Items(src, n - 1) + [src(n - 1).value]
  }

  // ---------- The closed form ----------

  /** The ids no longer served after `h` items. */
  function Dropped(ids: seq<TargetId>, c: Config, h: nat): set<TargetId> {
    if h == 0 || !c.stopOnFailure then {}
    else Dropped(ids, c, h - 1) + set k | 0 <= k < |ids| && c.fails(k, h - 1) :: ids[k]
  }

  /** How many of the first `h` items are offered to target `k`. */
  function Reach(ids: seq<TargetId>, c: Config, k: nat, h: nat): (r: nat)
    requires k < |ids|
    ensures r <= h
  {
    if h == 0 then 0
    else if ids[k] in Dropped(ids, c, h - 1) then Reach(ids, c, k, h - 1)
    else h
  }

  /** The notifications for those of `ts` that fail on item `p`, in order. */
  function Failures(ts: seq<Target>, c: Config, p: nat): seq<Note> {
    if ts == [] then []
    else
      var last := ts[|ts| - 1];
      Failures(ts[..|ts| - 1], c, p) + if c.fails(last.key, p) then [TargetFailed(last.id)] else []
  }

  function FailureNotes(ids: seq<TargetId>, c: Config, h: nat): seq<Note> {
    if h == 0 then []
    else FailureNotes(ids, c, h - 1) + Failures(Retain(Targets(ids), Dropped(ids, c, h - 1)), c, h - 1)
  }

  /** The closed form of what `h` items leave behind. */
  ghost function Delivered(u: Setup, h: nat): (w: World)
    requires Flows(u.src, h)
  {
    World(seq(|u.ids|, k requires 0 <= k < |u.ids| => Items(u.src, Reach(u.ids, u.config, k, h))),
          FailureNotes(u.ids, u.config, h))
  }

  // ---------- Lists of targets ----------

  ghost predicate Sorted(ts: seq<Target>) {
    forall i, j | 0 <= i < j < |ts| :: ts[i].key < ts[j].key
  }

  lemma {:induction false} RetainKeeps(ts: seq<Target>, removed: set<TargetId>)
    requires Sorted(ts)
    ensures Sorted(Retain(ts, removed))
    ensures forall t | t in ts && t.id !in removed :: t in Retain(ts, removed)
  {
    if ts != [] {
      var (front, last) := (ts[..|ts| - 1], ts[|ts| - 1]);
      RetainKeeps(front, removed);
      assert ts == front + [last];
      forall t | t in Retain(front, removed)
        ensures t.key < last.key
      {
        assert t in front;
      }
    }
  }

  lemma {:induction false} RetainTwice(ts: seq<Target>, a: set<TargetId>, b: set<TargetId>)
    ensures Retain(Retain(ts, a), b) == Retain(ts, a + b)
  {
    if ts != [] {
      var (front, last) := (ts[..|ts| - 1], ts[|ts| - 1]);
      RetainTwice(front, a, b);
      if last.id !in a {
        assert (Retain(front, a) + [last])[..|Retain(front, a)|] == Retain(front, a);
      }
    }
  }

  /** Retaining only looks at ids that are there. */
  lemma {:induction false} RetainAgrees(ts: seq<Target>, a: set<TargetId>, b: set<TargetId>)
    requires forall t | t in ts :: t.id in a <==> t.id in b
    ensures Retain(ts, a) == Retain(ts, b)
  {
    if ts != [] {
      var (front, last) := (ts[..|ts| - 1], ts[|ts| - 1]);
      assert last in ts;
      RetainAgrees(front, a, b);
    }
  }

  // ---------- One item ----------

  /** Each of some distinct targets is offered the item once, and nobody else is. */
  lemma {:induction false} OfferLogs(c: Config, ts: seq<Target>, item: Item, w: World)
    requires Sorted(ts) && Known(ts, w)
    ensures var logs := Offer(c, ts, item, w).0.logs;
            && (forall t | t in ts :: logs[t.key] == w.logs[t.key] + [item])
            && (forall k: nat | k < |w.logs| && (forall t | t in ts :: t.key != k) :: logs[k] == w.logs[k])
  {
    if ts != [] {
      var (front, last) := (ts[..|ts| - 1], ts[|ts| - 1]);
      OfferLogs(c, front, item, w);
      assert ts == front + [last];
      assert forall t | t in front :: t.key != last.key;
    }
  }

  /** Each of some distinct targets has been offered `p` items before. */
  ghost predicate OfferedBefore(ts: seq<Target>, w: World, p: nat) {
    Sorted(ts) && Known(ts, w) && forall t | t in ts :: |w.logs[t.key]| == p
  }

  /** What the last of them adds to what the others did. */
  lemma OfferLast(c: Config, ts: seq<Target>, item: Item, w: World, p: nat)
    requires ts != [] && OfferedBefore(ts, w, p)
    ensures OfferedBefore(ts[..|ts| - 1], w, p)
    ensures var (front, last) := (ts[..|ts| - 1], ts[|ts| - 1]);
            var ((w1, failed1), (w2, failed2)) := (Offer(c, front, item, w), Offer(c, ts, item, w));
            && w2.notes == w1.notes + (if c.fails(last.key, p) then [TargetFailed(last.id)] else [])
            && failed2 == failed1 + if c.fails(last.key, p) then {last.id} else {}
  {
    var (front, last) := (ts[..|ts| - 1], ts[|ts| - 1]);
    OfferLogs(c, front, item, w);
    assert forall t | t in front :: t in ts && t.key != last.key;
    assert Offer(c, front, item, w).0.logs[last.key] == w.logs[last.key];
  }

  lemma {:induction false} OfferNotes(c: Config, ts: seq<Target>, item: Item, w: World, p: nat)
    requires OfferedBefore(ts, w, p)
    ensures Offer(c, ts, item, w).0.notes == w.notes + Failures(ts, c, p)
  {
    if ts != [] {
      OfferLast(c, ts, item, w, p);
      OfferNotes(c, ts[..|ts| - 1], item, w, p);
    }
  }

  lemma {:induction false} OfferFailures(c: Config, ts: seq<Target>, item: Item, w: World, p: nat)
    requires OfferedBefore(ts, w, p)
    ensures forall id :: id in Offer(c, ts, item, w).1 <==> exists t :: t in ts && t.id == id && c.fails(t.key, p)
  {
    if ts != [] {
      var (front, last) := (ts[..|ts| - 1], ts[|ts| - 1]);
      OfferLast(c, ts, item, w, p);
      OfferFailures(c, front, item, w, p);
      assert ts == front + [last];
    }
  }

  // ---------- Any number of items ----------

  ghost predicate Serving(ids: seq<TargetId>, ts: seq<Target>) {
    Sorted(ts) && forall t | t in ts :: t.key < |ids| && t.id == ids[t.key]
  }

  ghost predicate IsClosed(u: Setup, h: nat)
    requires Flows(u.src, h)
  {
    var m := Spec(u, h);
    && m.targets == Retain(Targets(u.ids), Dropped(u.ids, u.config, h))
    && m.world.logs == Delivered(u, h).logs
    && m.cell.stopping == (h > 0 && u.config.stopOnFailure && m.targets == [])
    && m.world.notes == Delivered(u, h).notes + (if m.cell.stopping then [EndOfStream] else [])
  }

  lemma RemainingTargets(u: Setup, removed: set<TargetId>)
    ensures Serving(u.ids, Retain(Targets(u.ids), removed))
    ensures forall k: nat | k < |u.ids| ::
              u.ids[k] in removed || Target(k, u.ids[k]) in Retain(Targets(u.ids), removed)
  {
    var all := Targets(u.ids);
    RetainKeeps(all, removed);
    forall k: nat | k < |u.ids|
      ensures Target(k, u.ids[k]) in all
    {
      assert all[k] == Target(k, u.ids[k]);
    }
  }

  /** The fold of the handler has the closed form, up to and including the item that stops it. */
  lemma {:induction false} SpecIsClosed(u: Setup, h: nat)
    requires Flows(u.src, h)
    requires h > 0 ==> !Spec(u, h - 1).cell.stopping
    ensures IsClosed(u, h)
  {
    if h == 0 {
      ClosedStart(u);
    } else {
      if h > 1 {
        StopIsFinal(u, h - 2);
      }
      SpecIsClosed(u, h - 1);
      ClosedStep(u, h);
    }
  }

  lemma ClosedStart(u: Setup)
    ensures IsClosed(u, 0)
  {
    RetainAll(Targets(u.ids));
  }

  lemma {:induction false} RetainAll(ts: seq<Target>)
    ensures Retain(ts, {}) == ts
  {
    if ts != [] {
      RetainAll(ts[..|ts| - 1]);
    }
  }

  lemma StopIsFinal(u: Setup, h: nat)
    ensures Spec(u, h).cell.stopping ==> Spec(u, h + 1).cell.stopping
  {
  }

  /** All the targets still served have been offered every item so far. */
  lemma ServedFully(u: Setup, h: nat)
    requires Flows(u.src, h) && IsClosed(u, h)
    ensures Serving(u.ids, Spec(u, h).targets)
    ensures forall t | t in Spec(u, h).targets :: |Spec(u, h).world.logs[t.key]| == h
  {
    var m := Spec(u, h);
    RemainingTargets(u, Dropped(u.ids, u.config, h));
    forall t | t in m.targets
      ensures |m.world.logs[t.key]| == h
    {
      FullReach(u.ids, u.config, t.key, h);
    }
  }

  lemma LogStep(u: Setup, h: nat, k: nat)
    requires h > 0 && Flows(u.src, h) && Flows(u.src, h - 1) && IsClosed(u, h - 1) && k < |u.ids|
    ensures var m := Spec(u, h - 1);
            Offer(u.config, m.targets, u.src(h - 1).value, m.world).0.logs[k]
            == Items(u.src, Reach(u.ids, u.config, k, h))
  {
    var (ids, c, item, m) := (u.ids, u.config, u.src(h - 1).value, Spec(u, h - 1));
    assert m.world.logs[k] == Items(u.src, Reach(ids, c, k, h - 1));
    ServedFully(u, h - 1);
    OfferLogs(c, m.targets, item, m.world);
    RemainingTargets(u, Dropped(ids, c, h - 1));
    if ids[k] in Dropped(ids, c, h - 1) {
      assert forall t | t in m.targets :: t.key != k;
    } else {
      assert Target(k, ids[k]) in m.targets;
      FullReach(ids, c, k, h - 1);
    }
  }

  lemma LogsStep(u: Setup, h: nat)
    requires h > 0 && Flows(u.src, h) && Flows(u.src, h - 1) && IsClosed(u, h - 1)
    ensures var m := Spec(u, h - 1);
            Offer(u.config, m.targets, u.src(h - 1).value, m.world).0.logs == Delivered(u, h).logs
  {
    forall k: nat | k < |u.ids| {
      LogStep(u, h, k);
    }
  }

  lemma TargetsStep(u: Setup, h: nat)
    requires h > 0 && Flows(u.src, h) && Flows(u.src, h - 1) && IsClosed(u, h - 1) && u.config.stopOnFailure
    ensures var m := Spec(u, h - 1);
            Retain(m.targets, Offer(u.config, m.targets, u.src(h - 1).value, m.world).1)
            == Retain(Targets(u.ids), Dropped(u.ids, u.config, h))
  {
    var (ids, c, item, m) := (u.ids, u.config, u.src(h - 1).value, Spec(u, h - 1));
    var gone := Dropped(ids, c, h - 1);
    ServedFully(u, h - 1);
    OfferFailures(c, m.targets, item, m.world, h - 1);
    var failed := Offer(c, m.targets, item, m.world).1;
    RetainTwice(Targets(ids), gone, failed);
    forall t | t in Targets(ids)
      ensures t.id in gone + failed <==> t.id in Dropped(ids, c, h)
    {
      SameDropped(u, h, failed, t.id);
    }
    RetainAgrees(Targets(ids), gone + failed, Dropped(ids, c, h));
  }

  lemma NotesStep(u: Setup, h: nat)
    requires h > 0 && Flows(u.src, h) && Flows(u.src, h - 1) && IsClosed(u, h - 1) && !Spec(u, h - 1).cell.stopping
    ensures var m := Spec(u, h - 1);
            Offer(u.config, m.targets, u.src(h - 1).value, m.world).0.notes == FailureNotes(u.ids, u.config, h)
  {
    var (m, k) := (Spec(u, h - 1), h - 1);
    var gone := Dropped(u.ids, u.config, k);
    assert OfferedBefore(m.targets, m.world, k) by {
      ServedFully(u, k);
    }
    assert m.world.notes == FailureNotes(u.ids, u.config, k) by {
      assert IsClosed(u, k) && Delivered(u, k).notes == FailureNotes(u.ids, u.config, k);
    }
    OfferNotes(u.config, m.targets, u.src(k).value, m.world, k);
    assert FailureNotes(u.ids, u.config, h)
           == FailureNotes(u.ids, u.config, k) + Failures(Retain(Targets(u.ids), gone), u.config, k);
  }

  lemma ClosedStep(u: Setup, h: nat)
    requires h > 0 && Flows(u.src, h) && Flows(u.src, h - 1)
    requires IsClosed(u, h - 1) && !Spec(u, h - 1).cell.stopping
    ensures IsClosed(u, h)
  {
    LogsStep(u, h);
    NotesStep(u, h);
    if u.config.stopOnFailure {
      TargetsStep(u, h);
    }
  }

  lemma FullReach(ids: seq<TargetId>, c: Config, k: nat, h: nat)
    requires k < |ids| && ids[k] !in Dropped(ids, c, h)
    ensures Reach(ids, c, k, h) == h
  {
  }

  lemma SameDropped(u: Setup, h: nat, failed: set<TargetId>, id: TargetId)
    requires h > 0 && u.config.stopOnFailure
    requires var ts := Retain(Targets(u.ids), Dropped(u.ids, u.config, h - 1));
             forall x :: x in failed <==> exists t :: t in ts && t.id == x && u.config.fails(t.key, h - 1)
    ensures id in Dropped(u.ids, u.config, h - 1) + failed <==> id in Dropped(u.ids, u.config, h)
  {
    var (ids, c) := (u.ids, u.config);
    var gone := Dropped(ids, c, h - 1);
    RemainingTargets(u, gone);
    if id !in gone && id in Dropped(ids, c, h) {
      var k :| 0 <= k < |ids| && c.fails(k, h - 1) && ids[k] == id;
      assert Target(k, ids[k]) in Retain(Targets(ids), gone);
    }
  }
}
