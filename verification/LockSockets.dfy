/**
 The connections of the browser's sessions under the network lock. Closing the lock
 only asks each session to close what it has open; that ends later, or fails, and
 nobody hears of it. The filter sees requests; some sockets open without one.
 */
module LockSockets {
  import opened TorLock

  /**
   A connection to the outside: whether it came through the filter, whether its session
   has been protected ever since, whether it is open, and whether it ended by itself.
   */
  datatype Socket = Socket(session: SessionId, filtered: bool, kept: bool, isOpen: bool, itself: bool)

  /** What became of one closing of the lock: it concerns the sockets before `upTo`. */
  datatype Closing = Closing(upTo: nat, completed: set<SessionId>, failed: set<SessionId>)

  datatype Net = Net(world: World, sockets: seq<Socket>, closings: seq<Closing>)

  datatype Event =
    | Moves(l: Label)                         // a step of the lock, Tor or the connect
    | Request(s: SessionId)                   // to the outside, in a protected session, refused by nobody
    | Unseen(s: SessionId)                    // a socket opened without a request
    | Ends(k: nat)                            // a connection ends by itself
    | CloseCompletes(i: nat, s: SessionId)    // what closing i asked of s is done
    | CloseFails(i: nat, s: SessionId)        // it threw or was rejected

  const START := Net(INIT, [], [])

  /** The sockets of a session that is no longer protected. */
  function Unkept(sockets: seq<Socket>, s: SessionId): seq<Socket> {
    seq(|sockets|, k requires 0 <= k < |sockets| =>
      if sockets[k].session == s then sockets[k].(kept := false) else sockets[k])
  }

  /** The sockets of a session closed, as far as they were there when that was asked. */
  function Shut(sockets: seq<Socket>, s: SessionId, upTo: nat): seq<Socket> {
    seq(|sockets|, k requires 0 <= k < |sockets| =>
      if k < upTo && sockets[k].session == s then sockets[k].(isOpen := false) else sockets[k])
  }

  /** The close that closing i asked of s has not ended. */
  predicate Pending(n: Net, i: nat, s: SessionId) {
    && i < |n.closings| && i < |n.world.netLock.asked| && s in n.world.netLock.asked[i]
    && s !in n.closings[i].completed && s !in n.closings[i].failed
  }

  function LockStep(n: Net, l: Label): Net {
    var w := Apply(n.world, l);
    Net(w,
      if l.ForgetSession? then Unkept(n.sockets, l.s) else n.sockets,
      if |w.netLock.asked| > |n.world.netLock.asked| then n.closings + [Closing(|n.sockets|, {}, {})] else n.closings)
  }

  function Step(n: Net, ev: Event): Net {
    var lock := n.world.netLock;
    match ev
    case Moves(l) => LockStep(n, l)
    case Request(s) =>
      if s !in lock.sessions then n
      else if lock.engaged then n.(world := n.world.(netLock := lock.(blocked := lock.blocked + 1)))
      else n.(sockets := n.sockets + [Socket(s, true, true, true, false)])
    case Unseen(s) => n.(sockets := n.sockets + [Socket(s, false, s in lock.sessions, true, false)])
    case Ends(k) =>
      if k < |n.sockets| && n.sockets[k].isOpen
      then n.(sockets := n.sockets[k := n.sockets[k].(isOpen := false, itself := true)]) else n
    case CloseCompletes(i, s) =>
      if !Pending(n, i, s) then n
      else
        var c := n.closings[i];
        n.(sockets := Shut(n.sockets, s, c.upTo), closings := n.closings[i := c.(completed := c.completed + {s})])
    case CloseFails(i, s) =>
      if !Pending(n, i, s) then n
      else n.(closings := n.closings[i := n.closings[i].(failed := n.closings[i].failed + {s})])
  }

  function Run(events: seq<Event>): Net {
    if events == [] then START else Step(Run(events[..|events| - 1]), events[|events| - 1])
  }

  // ---------------------------------------------------------------- invariants

  /** Closing i of the lock asked the session of socket k, after k was opened. */
  predicate AskedBy(n: Net, i: nat, k: nat) {
    && i < |n.closings| && i < |n.world.netLock.asked| && k < |n.sockets|
    && k < n.closings[i].upTo && n.sockets[k].session in n.world.netLock.asked[i]
  }

  predicate CompletedBy(n: Net, i: nat, k: nat) {
    AskedBy(n, i, k) && n.sockets[k].session in n.closings[i].completed
  }

  /** Some close asked for since it was opened has completed. */
  ghost predicate WasClosed(n: Net, k: nat) { exists i :: CompletedBy(n, i, k) }

  ghost predicate WasAsked(n: Net, k: nat) { exists i :: AskedBy(n, i, k) }

  ghost predicate Matched(n: Net) {
    && |n.closings| == |n.world.netLock.asked|
    && (forall i :: 0 <= i < |n.closings| ==>
          && n.closings[i].upTo <= |n.sockets| && n.closings[i].completed <= n.world.netLock.asked[i]
          && n.closings[i].completed !! n.closings[i].failed)
  }

  /** A connection is open as long as it did not end by itself and no close asked for since has completed. */
  ghost predicate OpenExact(n: Net) {
    forall k :: 0 <= k < |n.sockets| ==> (n.sockets[k].isOpen <==> !n.sockets[k].itself && !WasClosed(n, k))
  }

  ghost predicate KeptIsProtected(n: Net) {
    forall k :: 0 <= k < |n.sockets| && n.sockets[k].kept ==> n.sockets[k].session in n.world.netLock.sessions
  }

  /** The connection came through the filter, and its session has been protected since. */
  predicate Governed(n: Net, k: nat) { k < |n.sockets| && n.sockets[k].filtered && n.sockets[k].kept }

  ghost predicate ClosedAsked(n: Net) {
    n.world.netLock.engaged ==> forall k :: Governed(n, k) ==> WasAsked(n, k)
  }

  ghost predicate Valid(n: Net) { Matched(n) && OpenExact(n) && KeptIsProtected(n) && ClosedAsked(n) }

  /** A step of the lock either asks nothing, or closes the lock and asks every protected session. */
  lemma EngageAsksAll(w: World, l: Label)
    ensures var a, b := w.netLock, Apply(w, l).netLock;
      || (b.asked == a.asked && (b.engaged ==> a.engaged)
          && (if l.NewSession? then b.sessions == a.sessions + {l.s}
              else if l.ForgetSession? then b.sessions == a.sessions - {l.s} else b.sessions == a.sessions))
      || (b.asked == a.asked + [a.sessions] && b.engaged && b.sessions == a.sessions && !l.ForgetSession?)
  {
  }

  // -------------------------------------------------------------------- steps

  /** What was asked, and what is done, of a socket depends on the closings and its session alone. */
  lemma SameAnswers(n: Net, m: Net, k: nat)
    requires k < |n.sockets| && k < |m.sockets| && n.sockets[k].session == m.sockets[k].session
    requires |n.closings| == |m.closings| && n.world.netLock.asked == m.world.netLock.asked
    requires forall i :: 0 <= i < |n.closings| ==>
      n.closings[i].upTo == m.closings[i].upTo && n.closings[i].completed == m.closings[i].completed
    ensures WasClosed(n, k) == WasClosed(m, k) && WasAsked(n, k) == WasAsked(m, k)
  {
    forall i: nat ensures AskedBy(n, i, k) == AskedBy(m, i, k) && CompletedBy(n, i, k) == CompletedBy(m, i, k) {}
  }

  /** A socket just opened has not been asked to close. */
  lemma NewIsUnasked(n: Net, k: nat)
    requires Matched(n) && k < |n.sockets| && forall i :: 0 <= i < |n.closings| ==> n.closings[i].upTo <= k
    ensures !WasClosed(n, k)
  {
  }

  lemma QuietMoveIsValid(n: Net, l: Label)
    requires Valid(n) && Apply(n.world, l).netLock.asked == n.world.netLock.asked
    ensures Valid(LockStep(n, l))
  {
    EngageAsksAll(n.world, l);
    hide Apply;
    var m := LockStep(n, l);
    forall k | 0 <= k < |n.sockets| ensures WasClosed(n, k) == WasClosed(m, k) && WasAsked(n, k) == WasAsked(m, k) {
      SameAnswers(n, m, k);
    }
    hide WasClosed, WasAsked;
    assert forall k :: Governed(m, k) ==> Governed(n, k);
  }

  lemma EngageIsValid(n: Net, l: Label)
    requires Valid(n) && Apply(n.world, l).netLock.asked == n.world.netLock.asked + [n.world.netLock.sessions]
    requires !l.ForgetSession? && Apply(n.world, l).netLock.sessions == n.world.netLock.sessions
    ensures Valid(LockStep(n, l))
  {
    hide Apply;
    var m := LockStep(n, l);
    var last := |n.closings|;
    forall k | 0 <= k < |n.sockets| ensures WasClosed(n, k) == WasClosed(m, k) {
      forall i: nat ensures CompletedBy(n, i, k) == CompletedBy(m, i, k) {}
    }
    forall k | Governed(m, k) ensures WasAsked(m, k) {
      assert AskedBy(m, last, k);
    }
    hide WasClosed, WasAsked;
  }

  lemma MoveIsValid(n: Net, l: Label)
    requires Valid(n)
    ensures Valid(LockStep(n, l))
  {
    EngageAsksAll(n.world, l);
    hide Apply, Valid;
    if Apply(n.world, l).netLock.asked == n.world.netLock.asked {
      QuietMoveIsValid(n, l);
    } else {
      EngageIsValid(n, l);
    }
  }

  lemma OpeningIsValid(n: Net, x: Socket)
    requires Valid(n) && x.isOpen && !x.itself && (x.kept ==> x.session in n.world.netLock.sessions)
    requires x.filtered && x.kept ==> !n.world.netLock.engaged
    ensures Valid(n.(sockets := n.sockets + [x]))
  {
    var m := n.(sockets := n.sockets + [x]);
    forall k | 0 <= k < |n.sockets| ensures WasClosed(n, k) == WasClosed(m, k) && WasAsked(n, k) == WasAsked(m, k) {
      SameAnswers(n, m, k);
    }
    NewIsUnasked(m, |n.sockets|);
    hide WasClosed, WasAsked;
  }

  lemma EndIsValid(n: Net, k: nat)
    requires Valid(n) && k < |n.sockets| && n.sockets[k].isOpen
    ensures Valid(Step(n, Ends(k)))
  {
    var m := Step(n, Ends(k));
    forall j | 0 <= j < |n.sockets| ensures WasClosed(n, j) == WasClosed(m, j) && WasAsked(n, j) == WasAsked(m, j) {
      SameAnswers(n, m, j);
    }
    hide WasClosed, WasAsked;
  }

  lemma CompletionIsValid(n: Net, i: nat, s: SessionId)
    requires Valid(n) && Pending(n, i, s)
    ensures Valid(Step(n, CloseCompletes(i, s)))
  {
    var m := Step(n, CloseCompletes(i, s));
    forall k | 0 <= k < |n.sockets|
      ensures WasAsked(n, k) == WasAsked(m, k)
      ensures WasClosed(m, k) <==> WasClosed(n, k) || (k < n.closings[i].upTo && n.sockets[k].session == s)
    {
      forall j: nat ensures AskedBy(n, j, k) == AskedBy(m, j, k) {}
      forall j: nat ensures CompletedBy(m, j, k) <==>
        CompletedBy(n, j, k) || (j == i && k < n.closings[i].upTo && n.sockets[k].session == s) {}
      if k < n.closings[i].upTo && n.sockets[k].session == s { assert CompletedBy(m, i, k); }
    }
    hide WasClosed, WasAsked;
  }

  lemma FailureIsValid(n: Net, i: nat, s: SessionId)
    requires Valid(n) && Pending(n, i, s)
    ensures Valid(Step(n, CloseFails(i, s)))
  {
    var m := Step(n, CloseFails(i, s));
    forall k | 0 <= k < |n.sockets| ensures WasClosed(n, k) == WasClosed(m, k) && WasAsked(n, k) == WasAsked(m, k) {
      SameAnswers(n, m, k);
    }
    hide WasClosed, WasAsked;
  }

  lemma BlockedIsValid(n: Net, s: SessionId)
    requires Valid(n) && n.world.netLock.engaged
    ensures Valid(Step(n, Request(s)))
  {
    var m := Step(n, Request(s));
    forall k | 0 <= k < |n.sockets| ensures WasClosed(n, k) == WasClosed(m, k) && WasAsked(n, k) == WasAsked(m, k) {
      SameAnswers(n, m, k);
    }
    hide WasClosed, WasAsked;
  }

  lemma StepIsValid(n: Net, ev: Event)
    requires Valid(n)
    ensures Valid(Step(n, ev))
  {
    hide Valid, LockStep;
    match ev
    case Moves(l) => MoveIsValid(n, l);
    case Request(s) =>
      if n.world.netLock.engaged { BlockedIsValid(n, s); }
      else if s in n.world.netLock.sessions { OpeningIsValid(n, Socket(s, true, true, true, false)); }
    case Unseen(s) => OpeningIsValid(n, Socket(s, false, s in n.world.netLock.sessions, true, false));
    case Ends(k) => if k < |n.sockets| && n.sockets[k].isOpen { EndIsValid(n, k); }
    case CloseCompletes(i, s) => if Pending(n, i, s) { CompletionIsValid(n, i, s); }
    case CloseFails(i, s) => if Pending(n, i, s) { FailureIsValid(n, i, s); }
  }

  lemma {:induction false} RunsAreValid(events: seq<Event>)
    ensures Valid(Run(events))
  {
    if events != [] {
      RunsAreValid(events[..|events| - 1]);
      hide Step, Valid;
      StepIsValid(Run(events[..|events| - 1]), events[|events| - 1]);
    }
  }

  // ----------------------------------------------------------------- theorems

  /** While the lock is closed, none opens through the filter. */
  lemma NoneOpensWhileClosed(events: seq<Event>, ev: Event, k: nat)
    requires Run(events).world.netLock.engaged
    requires |Run(events).sockets| <= k < |Step(Run(events), ev).sockets|
    ensures !Step(Run(events), ev).sockets[k].filtered
  {
    hide Run, Apply;
  }

  /** Closing i asked the session of socket k to close, and that is under way or failed. */
  predicate Unanswered(n: Net, i: nat, k: nat) {
    AskedBy(n, i, k) && (Pending(n, i, n.sockets[k].session) || n.sockets[k].session in n.closings[i].failed)
  }

  /** Asked to close since it was opened, and no such close has done so. */
  ghost predicate Unclosed(n: Net, k: nat) {
    (exists i: nat :: AskedBy(n, i, k)) && (forall i: nat :: AskedBy(n, i, k) ==> Unanswered(n, i, k))
  }

  /**
   In every interleaving, a connection that came through the filter and belongs to a
   session protected since is open under a closed lock exactly when it did not end by
   itself, was asked to close after it was opened, and every such close is under way or
   failed.
   */
  lemma OpenUnderClosedLockIff(events: seq<Event>, k: nat)
    requires Run(events).world.netLock.engaged && Governed(Run(events), k)
    ensures var n := Run(events); n.sockets[k].isOpen <==> !n.sockets[k].itself && Unclosed(n, k)
  {
    RunsAreValid(events);
    hide Run;
    var n := Run(events);
    assert WasAsked(n, k);
    assert n.sockets[k].isOpen <==> !n.sockets[k].itself && !WasClosed(n, k);
    forall i: nat | AskedBy(n, i, k) ensures Unanswered(n, i, k) <==> !CompletedBy(n, i, k) {}
    if Unclosed(n, k) {
      forall i: nat ensures !CompletedBy(n, i, k) {}
    }
  }

  /** A closed lock is over such a connection exactly when one was neither ended by itself nor closed as asked. */
  lemma ClosedCarriesNothingIff(events: seq<Event>)
    requires Run(events).world.netLock.engaged
    ensures var n := Run(events);
      (exists k: nat :: Governed(n, k) && n.sockets[k].isOpen) <==>
      (exists k: nat :: Governed(n, k) && !n.sockets[k].itself && Unclosed(n, k))
  {
    hide Run, Unclosed;
    forall k: nat | Governed(Run(events), k)
      ensures var n := Run(events); n.sockets[k].isOpen <==> !n.sockets[k].itself && Unclosed(n, k)
    {
      OpenUnderClosedLockIff(events, k);
    }
  }

  /** When every close asked for has completed, a closed lock is over none. */
  lemma AllCompletedCarriesNothing(events: seq<Event>, k: nat)
    requires var n := Run(events);
      && n.world.netLock.engaged && Governed(n, k)
      && forall i: nat, s :: i < |n.closings| && i < |n.world.netLock.asked| && s in n.world.netLock.asked[i] ==>
           s in n.closings[i].completed
    ensures !Run(events).sockets[k].isOpen
  {
    RunsAreValid(events);
    hide Run;
    var n := Run(events);
    assert WasAsked(n, k);
    var i: nat :| AskedBy(n, i, k);
    assert CompletedBy(n, i, k);
    assert WasClosed(n, k);
  }

  // ------------------------------------------------------- a schedule that fails

  /** A schedule of the lock alone. */
  function Lifted(run: seq<Label>): seq<Event> {
    seq(|run|, i requires 0 <= i < |run| => Moves(run[i]))
  }

  lemma {:induction false} LiftedRuns(run: seq<Label>)
    ensures Run(Lifted(run)).world == Exec(run) && Run(Lifted(run)).sockets == []
  {
    if run != [] {
      var front := run[..|run| - 1];
      LiftedRuns(front);
      hide Apply;
      assert Lifted(run)[..|run| - 1] == Lifted(front);
    }
  }

  lemma RunNext(events: seq<Event>, ev: Event)
    ensures Run(events + [ev]) == Step(Run(events), ev)
  {
    hide Step;
    assert (events + [ev])[..|events|] == events;
  }

  lemma TwoMoves(w: World)
    ensures Apply(w, NewSession(0)).netLock == w.netLock.(sessions := w.netLock.sessions + {0})
    ensures Apply(w, PressDisconnect).netLock == Engaged(w.netLock, "disconnected by the user")
  {
  }

  /** The lock opens, a session appears, and a connection of it goes through the filter. */
  lemma OneConnection() returns (events: seq<Event>)
    ensures var n := Run(events);
      && !n.world.netLock.engaged && n.world.netLock.sessions == {0} && n.world.netLock.asked == []
      && n.sockets == [Socket(0, true, true, true, false)] && n.closings == []
  {
    var run := ConnectOpens({});
    events := Lifted(run);
    LiftedRuns(run);
    RunsAreValid(events);
    assert Matched(Run(events));
    hide Run, Exec, Valid, Apply;
    TwoMoves(Run(events).world);
    RunNext(events, Moves(NewSession(0)));
    events := events + [Moves(NewSession(0))];
    RunNext(events, Request(0));
    events := events + [Request(0)];
  }

  /**
   A connection opened while the lock was open, and a close that fails: the lock is
   closed, everything asked of that session has ended, and the connection is still open.
   */
  lemma FailedCloseStaysOpen() returns (events: seq<Event>)
    ensures var n := Run(events);
      && n.world.netLock.engaged && Governed(n, 0) && n.sockets[0].isOpen
      && (forall i: nat :: !Pending(n, i, n.sockets[0].session))
  {
    hide Run, Apply;
    events := OneConnection();
    TwoMoves(Run(events).world);
    RunNext(events, Moves(PressDisconnect));
    events := events + [Moves(PressDisconnect)];
    assert Run(events).closings == [Closing(1, {}, {})] && Run(events).world.netLock.asked == [{0}];
    RunNext(events, CloseFails(0, 0));
    events := events + [CloseFails(0, 0)];
  }

  // ------------------------------------------------------ what each event does

  /** Through an open lock, a request of a protected session opens a connection. */
  lemma RequestOpens(n: Net, s: SessionId)
    requires s in n.world.netLock.sessions && !n.world.netLock.engaged
    ensures var m := Step(n, Request(s));
      && |m.sockets| == |n.sockets| + 1 && m.sockets[..|n.sockets|] == n.sockets
      && Governed(m, |n.sockets|) && m.sockets[|n.sockets|].isOpen && m.sockets[|n.sockets|].session == s
  {
    hide Apply;
  }

  /** A close that completes closes exactly what it was asked for, one that fails nothing; neither is awaited again. */
  lemma CloseEnds(n: Net, i: nat, s: SessionId, k: nat)
    requires Pending(n, i, s) && k < |n.sockets|
    ensures var m := Step(n, CloseCompletes(i, s));
      && !Pending(m, i, s) && |m.sockets| == |n.sockets|
      && (m.sockets[k].isOpen <==>
            n.sockets[k].isOpen && !(n.sockets[k].session == s && k < n.closings[i].upTo))
    ensures var m := Step(n, CloseFails(i, s)); !Pending(m, i, s) && m.sockets == n.sockets
  {
    hide Apply;
  }

  /** A connection that ends by itself is open no more, and no other is touched. */
  lemma EndingEnds(n: Net, k: nat, j: nat)
    requires k < |n.sockets| && j < |n.sockets| && n.sockets[k].isOpen
    ensures var m := Step(n, Ends(k));
      |m.sockets| == |n.sockets| && !m.sockets[k].isOpen && (j != k ==> m.sockets[j] == n.sockets[j])
  {
    hide Apply;
  }
}
