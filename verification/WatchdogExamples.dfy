/** Runs, with every timeout handled when due, in which an actor is ordered to terminate although it was
    registered or pinged less than its timeout ago, or spared although it was silent for longer. */
module WatchdogExamples {
  import opened WatchdogActor
  import opened WatchdogSystem
  import opened WatchdogRuns

  ghost predicate Reaches(run: Run, s: System) {
    Valid(run) && Prompt(run) && End(run) == s && s.mailbox == [] && s.alive
  }

  /** A client's message, sent and handled. */
  lemma Told(run: Run, s: System, msg: Msg) returns (longer: Run)
    requires Reaches(run, s) && !msg.TimeoutMsg? && msg != StatsMsg(true)
    ensures Reaches(longer, HandleMsg(s, msg))
  {
    var sent := Then(run, ClientSends(msg));
    assert End(sent) == s.(mailbox := [msg]) && [msg][1..] == [];
    longer := Then(sent, Handle);
    assert s.(mailbox := [msg]).(mailbox := [msg][1..]) == s;
  }

  lemma Waited(run: Run, s: System, span: nat) returns (longer: Run)
    requires Reaches(run, s) && MayTick(s, span)
    ensures Reaches(longer, Later(s, span))
  {
    longer := Then(run, Tick(span));
  }

  /** A due timer, fired and its timeout handled. */
  lemma RanOut(run: Run, s: System, t: nat) returns (longer: Run)
    requires Reaches(run, s) && t in s.dog.timers.live && s.dog.timers.live[t].due <= s.dog.timers.now
    ensures Reaches(longer, Expire(Fired(s, t).(mailbox := []), s.dog.timers.live[t].id, t))
  {
    var fired := Then(run, Fire(t));
    var msg := TimeoutMsg(s.dog.timers.live[t].id, t);
    assert End(fired).mailbox == [msg] && [msg][1..] == [];
    longer := Then(fired, Handle);
  }

  /** Registered at 0 with a timeout of 10. */
  lemma Registered(id: ActorId) returns (run: Run, s: System)
    ensures Reaches(run, s) && s.dog.timers == Timers(0, 1, map[0 := Timer(id, 10)])
    ensures s.dog.subjects == map[id := Registration(10, Kill, 0)] && s.dog.orders == []
    ensures 0 in s.log.lives && s.log.lives[0] == Life(id, Kill, 0, 10, [], false, false, Current, 0, {})
  {
    run := Told(Start, INIT, RegisterMsg(id, 10, Kill));
    s := HandleMsg(INIT, RegisterMsg(id, 10, Kill));
    assert Strays(INIT.log, id) == {};
  }

  /** And pinged at 5. */
  lemma PingedOnce(id: ActorId) returns (run: Run, s: System)
    ensures Reaches(run, s) && s.dog.timers == Timers(5, 2, map[1 := Timer(id, 15)])
    ensures s.dog.subjects == map[id := Registration(10, Kill, 0)] && s.dog.orders == []
    ensures 0 in s.log.lives && s.log.lives[0] == Life(id, Kill, 0, 10, [PingDone(5, 1)], true, false, Current, 0, {})
  {
    run, s := Registered(id);
    run := Waited(run, s, 5);
    var before := Later(s, 5);
    run := Told(run, before, PingMsg(id));
    s := HandleMsg(before, PingMsg(id));
    assert [] + [PingDone(5, 1)] == [PingDone(5, 1)];
    assert s.dog.timers.live == map[1 := Timer(id, 15)];
  }

  lemma PingedTwice(id: ActorId) returns (run: Run, s: System)
    ensures Reaches(run, s) && s.dog.timers == Timers(12, 3, map[1 := Timer(id, 15), 2 := Timer(id, 22)])
    ensures s.dog.subjects == map[id := Registration(10, Kill, 0)] && s.dog.orders == [] && 0 in s.log.lives
    ensures s.log.lives[0] == Life(id, Kill, 0, 10, [PingDone(5, 1), PingDone(12, 2)], true, false, Current, 0, {})
  {
    run, s := PingedOnce(id);
    run := Waited(run, s, 7);
    var before := Later(s, 7);
    run := Told(run, before, PingMsg(id));
    s := HandleMsg(before, PingMsg(id));
    assert [PingDone(5, 1)] + [PingDone(12, 2)] == [PingDone(5, 1), PingDone(12, 2)];
    assert s.dog.timers.live == map[1 := Timer(id, 15), 2 := Timer(id, 22)];
  }

  /** Pinged at 5 and 12 with a timeout of 10, so never silent for 10, and ordered to terminate at 15:
      the second ping could not abort the timer of the first. */
  lemma PingedInTimeYetTerminated(id: ActorId) returns (run: Run)
    ensures Valid(run) && Prompt(run) && 0 in End(run).log.lives
    ensures var life := End(run).log.lives[0];
            && life == Life(id, Kill, 0, 10, [PingDone(5, 1), PingDone(12, 2)], true, false, TimedOut, 15, {})
            && DocumentedDeadline(life) == 22
    ensures End(run).dog.orders == [Order(id, Kill, 0, 15)]
  {
    var s;
    run, s := PingedTwice(id);
    run := Waited(run, s, 3);
    run := RanOut(run, Later(s, 3), 1);
  }

  lemma RegisteredTwice(id: ActorId) returns (run: Run, s: System)
    ensures Reaches(run, s) && s.dog.timers == Timers(5, 2, map[0 := Timer(id, 10), 1 := Timer(id, 105)])
    ensures s.dog.subjects == map[id := Registration(100, Kill, 1)] && s.dog.orders == []
    ensures 1 in s.log.lives
    ensures var life := s.log.lives[1]; life.id == id && life.at == 5 && life.timeout == 100 && life.pings == []
  {
    run, s := Registered(id);
    run := Waited(run, s, 5);
    run := Told(run, Later(s, 5), RegisterMsg(id, 100, Kill));
    s := HandleMsg(Later(s, 5), RegisterMsg(id, 100, Kill));
    assert s.dog.timers.live == map[0 := Timer(id, 10), 1 := Timer(id, 105)];
  }

  /** Registered at 0 with a timeout of 10 and again at 5 with a timeout of 100, and ordered to terminate
      at 10: overwriting a registration leaves its timer running. */
  lemma RegisteredAgainYetTerminated(id: ActorId) returns (run: Run)
    ensures Valid(run) && Prompt(run) && 1 in End(run).log.lives
    ensures var life := End(run).log.lives[1];
            life.id == id && life.at == 5 && life.timeout == 100 && life.pings == [] && DocumentedDeadline(life) == 105
    ensures End(run).dog.orders == [Order(id, Kill, 1, 10)]
  {
    var s;
    run, s := RegisteredTwice(id);
    run := Waited(run, s, 5);
    run := RanOut(run, Later(s, 5), 0);
  }

  lemma Unregistered(id: ActorId) returns (run: Run, s: System)
    ensures Reaches(run, s) && s.dog.timers == Timers(7, 2, map[1 := Timer(id, 15)])
    ensures s.dog.subjects == map[] && s.dog.orders == []
  {
    run, s := PingedOnce(id);
    run := Told(run, s, UnregisterMsg(id));
    s := HandleMsg(s, UnregisterMsg(id));
    assert s.dog.timers.live == map[1 := Timer(id, 15)];
    run := Waited(run, s, 2);
    s := Later(s, 2);
  }

  /** Registered at 0 with a timeout of 10, pinged at 5, unregistered, registered again at 7, and ordered
      to terminate at 15: unregistering cannot abort the timer of a ping. */
  lemma UnregisteredYetTerminated(id: ActorId) returns (run: Run)
    ensures Valid(run) && Prompt(run) && 2 in End(run).log.lives
    ensures var life := End(run).log.lives[2];
            life.id == id && life.at == 7 && life.timeout == 10 && life.pings == [] && DocumentedDeadline(life) == 17
    ensures End(run).dog.orders == [Order(id, Kill, 2, 15)]
  {
    var s;
    run, s := Unregistered(id);
    run := Told(run, s, RegisterMsg(id, 10, Kill));
    s := HandleMsg(s, RegisterMsg(id, 10, Kill));
    assert s.dog.timers.live == map[1 := Timer(id, 15), 2 := Timer(id, 17)];
    run := Waited(run, s, 8);
    run := RanOut(run, Later(s, 8), 1);
  }

  /** Registered at 0 with a timeout of 10, and still there at 10 with nothing left to happen, because the
      asker for statistics was gone when the reply was sent. */
  lemma UnansweredStatsSpareSubject(id: ActorId) returns (run: Run)
    ensures Valid(run) && Prompt(run) && Settled(End(run)) && 0 in End(run).log.lives
    ensures var life := End(run).log.lives[0];
            life.id == id && life.ending.Current? && Touched(life) + life.timeout == End(run).dog.timers.now
    ensures End(run).dog.orders == []
  {
    var s;
    run, s := Registered(id);
    run := Then(run, ClientSends(StatsMsg(true)));
    assert End(run) == s.(mailbox := [StatsMsg(true)]);
    run := Then(run, Handle);
    run := Then(run, Tick(10));
  }
}
