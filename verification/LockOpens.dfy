/**
 When the network lock opens, not only when it may be open: what the deciding step of a
 connect makes of the answers it collected, and how a connect that nothing disturbs ends.
 */
module LockOpens {
  import opened Options
  import opened TorLock

  /** The sessions that have answered, in the check under way, that they are on Tor's route, and were. */
  ghost function Good(run: seq<Label>): set<SessionId> {
    if run == [] then {}
    else
      var w, l := Exec(run[..|run| - 1]), run[|run| - 1];
      if l.ConnectResumes? && w.connect.Started? then {}
      else if l.Check? && w.connect.Checking? && l.s in w.connect.todo && l.answer && l.s in w.onTor
      then Good(run[..|run| - 1]) + {l.s}
      else Good(run[..|run| - 1])
  }

  /** The connect has noted what it was answered; its generation is current exactly when no engage came since. */
  ghost predicate Noted(w: World, good: set<SessionId>) {
    var c := w.connect;
    && w.lastEngage <= w.clock
    && (c.Checking? ==>
          c.todo <= c.snapshot && good <= c.snapshot - c.todo && (c.wrong <==> good != c.snapshot - c.todo))
    && (c.Waiting? || c.Started? || c.Checking? ==>
          c.since <= w.clock && c.gen <= w.netLock.generation
          && (c.gen == w.netLock.generation <==> w.lastEngage <= c.since))
  }

  ghost function NextGood(w: World, l: Label, good: set<SessionId>): set<SessionId> {
    if l.ConnectResumes? && w.connect.Started? then {}
    else if l.Check? && w.connect.Checking? && l.s in w.connect.todo && l.answer && l.s in w.onTor then good + {l.s}
    else good
  }

  lemma CheckIsNoted(w: World, l: Label, good: set<SessionId>)
    requires Noted(w, good) && l.Check?
    ensures Noted(Apply(w, l), NextGood(w, l, good))
  {
    if w.connect.Checking? && l.s in w.connect.todo {
      var c, d := w.connect, Apply(w, l).connect;
      assert d.snapshot - d.todo == (c.snapshot - c.todo) + {l.s};
      assert l.s !in good;
    }
  }

  /** Nothing but the connect's own steps touches what it noted; an engage makes it stale. */
  lemma NotedFrame(w: World, v: World, good: set<SessionId>)
    requires Noted(w, good) && v.clock == w.clock + 1
    requires v.connect == w.connect || v.connect.Idle? || v.connect.Finishing?
      || (w.connect.Waiting? && v.connect.Started? && v.connect.gen == w.connect.gen
          && v.connect.since == w.connect.since)
    requires (v.lastEngage == w.lastEngage && v.netLock.generation == w.netLock.generation)
      || (v.lastEngage == v.clock && v.netLock.generation == w.netLock.generation + 1)
    ensures Noted(v, good)
  {
  }

  lemma StepIsNoted(w: World, l: Label, good: set<SessionId>)
    requires Noted(w, good)
    ensures Noted(Apply(w, l), NextGood(w, l, good))
  {
    if l.Check? {
      CheckIsNoted(w, l, good);
    } else if !l.ConnectResumes? && !l.PressConnect? {
      StepFrame(w, l);
      hide Apply, Noted;
      NotedFrame(w, Apply(w, l), good);
    }
  }

  lemma StepFrame(w: World, l: Label)
    requires !l.Check? && !l.ConnectResumes? && !l.PressConnect?
    ensures var v := Apply(w, l);
      && v.clock == w.clock + 1
      && (v.connect == w.connect || v.connect.Idle? || v.connect.Finishing?
          || (w.connect.Waiting? && v.connect.Started? && v.connect.gen == w.connect.gen
              && v.connect.since == w.connect.since))
      && ((v.lastEngage == w.lastEngage && v.netLock.generation == w.netLock.generation)
          || (v.lastEngage == v.clock && v.netLock.generation == w.netLock.generation + 1))
  {
  }

  lemma {:induction false} RunsAreNoted(run: seq<Label>)
    ensures Noted(Exec(run), Good(run))
  {
    if run != [] {
      RunsAreNoted(run[..|run| - 1]);
      hide Apply, Noted;
      StepIsNoted(Exec(run[..|run| - 1]), run[|run| - 1], Good(run[..|run| - 1]));
    }
  }

  /**
   At the deciding step of every run: the lock is open afterwards exactly when every
   session of the snapshot answered that it is on Tor's route, and was, and either the
   lock was open already or Tor is ready and no engage came since the connect began.
   */
  lemma DecisionOpensIff(run: seq<Label>)
    requires Exec(run).connect.Checking? && Exec(run).connect.todo == {}
    ensures var w, v := Exec(run), Exec(run + [Decide]);
      && v.connect.Finishing?
      && (!v.netLock.engaged <==>
            w.connect.snapshot <= Good(run)
            && (!w.netLock.engaged || (w.tor.state.Ready? && w.lastEngage <= w.connect.since)))
  {
    RunsAreNoted(run);
    ExecNext(run, Decide);
    hide Exec, Good;
    assert Exec(run).connect.snapshot - {} == Exec(run).connect.snapshot;
  }

  // ------------------------------------------------ a connect nothing disturbs

  /** The run goes on by labels. */
  ghost function After(w: World, ls: seq<Label>): World
    decreases |ls|
  {
    if |ls| == 0 then w else After(Apply(w, ls[0]), ls[1..])
  }

  lemma {:induction false} AfterIsExec(run: seq<Label>, ls: seq<Label>)
    ensures Exec(run + ls) == After(Exec(run), ls)
    decreases |ls|
  {
    hide Exec, Apply;
    if |ls| == 0 {
      assert run + ls == run;
    } else {
      ExecNext(run, ls[0]);
      AfterIsExec(run + [ls[0]], ls[1..]);
      assert run + [ls[0]] + ls[1..] == run + ls;
    }
  }

  lemma {:induction false} AfterJoin(w: World, a: seq<Label>, b: seq<Label>)
    ensures After(w, a + b) == After(After(w, a), b)
    decreases |a|
  {
    hide Apply;
    if |a| == 0 {
      assert a + b == b;
    } else {
      assert (a + b)[1..] == a[1..] + b;
      AfterJoin(Apply(w, a[0]), a[1..], b);
    }
  }

  /** Nobody is connecting, and no Tor is up. */
  predicate AtEase(w: World) { w.connect.Idle? && w.start.NoStart? && !IsRunning(w.tor) }

  /** Connect pressed, a Tor spawned, up, and the connect going on. */
  function Starting(pid: Pid): seq<Label> { [PressConnect, Spawn, Line100(pid), ConnectResumes] }

  /** Up to the spawn. */
  lemma TorIsSpawned(w: World)
    requires AtEase(w)
    ensures var v := Apply(Apply(w, PressConnect), Spawn);
      && v.start == Bootstrapping(w.nextPid) && v.connect == Waiting(w.netLock.generation, w.clock + 1)
      && v.tor == Tor(TorLock.Starting, Some(w.nextPid), w.tor.stopping) && w.nextPid in v.live
      && v.netLock == w.netLock && v.onTor == w.onTor
  {
    var w1 := Apply(w, PressConnect);
    assert w1.connect == Waiting(w.netLock.generation, w.clock + 1) && w1.start.WaitPort?;
  }

  lemma TorStarts(w: World)
    requires AtEase(w)
    ensures var v := After(w, Starting(w.nextPid));
      && v.tor == Tor(Ready, Some(w.nextPid), w.tor.stopping) && v.netLock == w.netLock && v.onTor == w.onTor
      && v.connect == Checking(w.netLock.generation, w.clock + 1, w.netLock.sessions, w.netLock.sessions, false)
  {
    AfterFour(w, PressConnect, Spawn, Line100(w.nextPid), ConnectResumes);
    TorIsSpawned(w);
    ComesUp(Apply(Apply(w, PressConnect), Spawn), w.nextPid);
    hide Apply, After;
  }

  lemma ComesUp(w: World, pid: Pid)
    requires w.start == Bootstrapping(pid) && w.connect.Waiting? && pid in w.live
    ensures var v := Apply(Apply(w, Line100(pid)), ConnectResumes);
      && v.tor == w.tor.(state := Ready) && v.netLock == w.netLock && v.onTor == w.onTor
      && v.connect == Checking(w.connect.gen, w.connect.since, w.netLock.sessions, w.netLock.sessions, false)
  {
  }

  lemma AfterFour(w: World, a: Label, b: Label, c: Label, d: Label)
    ensures After(w, [a, b, c, d]) == Apply(Apply(Apply(Apply(w, a), b), c), d)
  {
    hide Apply;
    assert [a, b, c, d][1..] == [b, c, d] && [b, c, d][1..] == [c, d] && [c, d][1..] == [d] && [d][1..] == [];
    var w3 := Apply(Apply(Apply(w, a), b), c);
    assert After(w3, [d]) == Apply(w3, d);
    assert After(Apply(Apply(w, a), b), [c, d]) == After(w3, [d]);
  }

  /** Every session still asked about answers that it is on Tor's route. */
  lemma {:induction false} AllAnswer(w: World) returns (ls: seq<Label>)
    requires w.connect.Checking? && !w.connect.wrong && w.connect.todo <= w.onTor
    ensures var v := After(w, ls);
      && v.connect == w.connect.(todo := {}) && v.tor == w.tor && v.netLock == w.netLock && v.onTor == w.onTor
    decreases w.connect.todo
  {
    if w.connect.todo == {} {
      ls := [];
    } else {
      var s: SessionId :| s in w.connect.todo;
      var v := Apply(w, Check(s, true));
      assert v.connect == w.connect.(todo := w.connect.todo - {s});
      var more := AllAnswer(v);
      ls := [Check(s, true)] + more;
      assert ls[1..] == more;
    }
  }

  /**
   From every state in which nobody is connecting, no Tor is up and every session, however
   many there are, is on Tor's route: a connect that nothing disturbs opens the lock.
   */
  lemma ConnectAloneOpens(run: seq<Label>) returns (more: seq<Label>)
    requires AtEase(Exec(run)) && Exec(run).netLock.sessions <= Exec(run).onTor
    ensures var w, v := Exec(run), Exec(run + more);
      && !v.netLock.engaged && v.tor.state.Ready? && v.netLock.sessions == w.netLock.sessions
      && v.opening.Some? && v.opening.value.snapshot == w.netLock.sessions
  {
    var w := Exec(run);
    TorStarts(w);
    var w1 := After(w, Starting(w.nextPid));
    var checks := AllAnswer(w1);
    var w2 := After(w1, checks);
    more := Starting(w.nextPid) + checks + [Decide];
    AfterIsExec(run, more);
    hide Exec;
    AfterJoin(w, Starting(w.nextPid), checks);
    AfterJoin(w, Starting(w.nextPid) + checks, [Decide]);
    assert After(w2, [Decide]) == Apply(w2, Decide);
  }

  /** With one session on Tor's route, for instance. */
  lemma OneSessionOpens()
    ensures exists run :: !Exec(run).netLock.engaged && Exec(run).netLock.sessions == {0}
  {
    var run := [NewSession(0), Routed(0)];
    AfterIsExec([], run);
    assert [] + run == run && run[1..] == [Routed(0)] && [Routed(0)][1..] == [];
    assert Exec([]) == INIT;
    var w := Exec(run);
    assert w == Apply(Apply(INIT, NewSession(0)), Routed(0));
    assert AtEase(w) && w.netLock.sessions == {0} && w.onTor == {0};
    var more := ConnectAloneOpens(run);
    assert !Exec(run + more).netLock.engaged;
  }

  // ---------------------------------------------------------- one that fails

  /** What can go wrong once a Tor was spawned. */
  predicate Breaks(l: Label, pid: Pid) { l == BootTimeout || l == Errors(pid) || l == Closes(pid) }

  /** A start that fails before a spawn, or by one that throws: the lock is closed anew and the way is free. */
  lemma FailedStartCloses(w: World, l: Label)
    requires AtEase(w) && (l.StartFails? || l.SpawnThrows?)
    ensures var v := After(w, [PressConnect, l, ConnectResumes, ConnectEnds]);
      && v.connect.Idle? && v.start.NoStart? && v.tor.state.Failed?
      && v.netLock.engaged && v.netLock.generation == w.netLock.generation + 1
  {
    AfterFour(w, PressConnect, l, ConnectResumes, ConnectEnds);
    var w1 := Apply(w, PressConnect);
    assert w1.connect.Waiting? && w1.start.WaitPort? && w1.netLock == w.netLock;
    var w2 := Apply(w1, l);
    assert w2.connect.Started? && !w2.connect.ok && w2.start.NoStart? && w2.tor.state.Failed?;
    assert w2.netLock == w.netLock;
    var w3 := Apply(w2, ConnectResumes);
    assert w3.connect.Finishing? && w3.netLock == Engaged(w.netLock, "Tor did not start");
  }

  /** So does a Tor that does not come up, fails or exits on the way. */
  lemma BrokenStartCloses(w: World, l: Label)
    requires AtEase(w) && Breaks(l, w.nextPid)
    ensures var v := Apply(After(w, [PressConnect, Spawn, l, ConnectResumes]), ConnectEnds);
      && v.connect.Idle? && v.start.NoStart? && !v.tor.state.Ready?
      && v.netLock.engaged && v.netLock.generation == w.netLock.generation + 1
  {
    AfterFour(w, PressConnect, Spawn, l, ConnectResumes);
    TorIsSpawned(w);
    var w2 := Apply(Apply(w, PressConnect), Spawn);
    BreaksOff(w2, l, w.nextPid);
    hide After, Apply;
    GivesUp(Apply(w2, l));
  }

  lemma BreaksOff(w: World, l: Label, pid: Pid)
    requires w.start == Bootstrapping(pid) && w.connect.Waiting? && pid in w.live && w.tor.state.Starting?
    requires Breaks(l, pid)
    ensures var v := Apply(w, l);
      && v.connect.Started? && !v.connect.ok && v.start.NoStart? && !v.tor.state.Ready? && v.netLock == w.netLock
  {
  }

  lemma GivesUp(w: World)
    requires w.connect.Started? && !w.connect.ok && w.start.NoStart?
    ensures var v := Apply(Apply(w, ConnectResumes), ConnectEnds);
      v.connect.Idle? && v.start.NoStart? && v.tor == w.tor && v.netLock == Engaged(w.netLock, "Tor did not start")
  {
  }
}
