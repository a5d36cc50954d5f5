/**
 The browser's network lock and the Tor process behind it. Connect, Disconnect,
 Tor's log lines, its exit and the making of sessions interleave at every await;
 one step below is the code between two of them.
 */
module TorLock {
  import opened Options

  type Pid = nat
  type SessionId = nat

  // ------------------------------------------------------- the lock's state

  /** `asked` holds, for each time the lock was closed, the sessions asked then to close their connections. */
  datatype Lock = Lock(
    engaged: bool, reason: Option<string>, generation: nat, blocked: nat,
    sessions: set<SessionId>, asked: seq<set<SessionId>>)

  const NOT_READY := "the Tor connection is not ready yet"

  const NEW_LOCK := Lock(true, Some(NOT_READY), 0, 0, {}, [])

  function Engaged(l: Lock, reason: string): Lock {
    l.(engaged := true, reason := Some(if reason == "" then NOT_READY else reason), generation := l.generation + 1,
       blocked := if l.engaged then l.blocked else 0, asked := l.asked + [l.sessions])
  }

  function Released(l: Lock, generation: nat): Lock {
    if generation == l.generation then l.(engaged := false, reason := None) else l
  }

  /** The NetworkLock object. */
  class NetworkLock {
    var engaged: bool
    var reason: Option<string>
    var generation: nat
    var blockedCount: nat
    var sessions: set<SessionId>
    var asked: seq<set<SessionId>>

    function View(): Lock
      reads this
    {
      Lock(engaged, reason, generation, blockedCount, sessions, asked)
    }

    constructor ()
      ensures View() == NEW_LOCK
    {
      engaged := true;
      reason := Some(NOT_READY);
      generation := 0;
      blockedCount := 0;
      sessions, asked := {}, [];
    }

    /** Closes the lock and asks every session to close its connections; that ends later, well or not, unheard. */
    method Engage(why: string)
      modifies this
      ensures View() == Engaged(old(View()), why)
    {
      if !engaged {
        blockedCount := 0;
      }
      engaged := true;
      reason := Some(if why == "" then NOT_READY else why);
      generation := generation + 1;
      var called := AskAll(sessions);
      asked := asked + [called];
    }

    /** The loop that asks session after session. */
    method AskAll(all: set<SessionId>) returns (called: set<SessionId>)
      ensures called == all
    {
      called := {};
      var left := all;
      while left != {}
        invariant left <= all && called == all - left
        decreases |left|
      {
        var s :| s in left;
        called := called + {s};
        left := left - {s};
      }
    }

    /** Opens the lock only for the connect whose generation is still the current one. */
    method Release(gen: nat) returns (ok: bool)
      modifies this
      ensures View() == Released(old(View()), gen)
      ensures ok <==> gen == old(generation)
      ensures !engaged ==> !old(engaged) || gen == generation
    {
      if gen != generation {
        return false;
      }
      engaged := false;
      reason := None;
      return true;
    }

    /** The filter on every session: through only if refused by nobody and open or local. */
    method OnBeforeRequest(refused: bool, isLocal: bool) returns (cancel: bool)
      modifies this
      ensures cancel <==> refused || (engaged && !isLocal)
      ensures View() == old(View()).(blocked := old(blockedCount) + if cancel && !refused then 1 else 0)
    {
      if refused {
        return true;
      }
      if !engaged || isLocal {
        return false;
      }
      blockedCount := blockedCount + 1;
      return true;
    }

    method Protect(s: SessionId)
      modifies this
      ensures View() == old(View()).(sessions := old(sessions) + {s})
    {
      sessions := sessions + {s};
    }

    method Forget(s: SessionId)
      modifies this
      ensures View() == old(View()).(sessions := old(sessions) - {s})
    {
      sessions := sessions - {s};
    }
  }

  // ----------------------------------------------------------- Tor's state

  datatype Status = Stopped | Starting | Ready | Failed

  datatype Tor = Tor(state: Status, process: Option<Pid>, stopping: bool)

  predicate IsRunning(t: Tor) { t.process.Some? && t.state.Ready? }

  /** A line saying 100%, from the output of any Tor this manager started. */
  function BootstrappedLine(t: Tor): Tor { t.(state := Ready) }

  function ProcessError(t: Tor): Tor { t.(state := Failed, process := None) }

  function ProcessClose(t: Tor): Tor {
    if t.stopping then Tor(Stopped, None, false) else t.(state := Failed, process := None)
  }

  /** Whether the close handler calls onUnexpectedExit. */
  predicate IsUnexpectedExit(t: Tor) { !t.stopping && t.state.Ready? }

  function Stop(t: Tor): Tor {
    if t.process.None? then t.(state := Stopped) else t.(state := Stopped, stopping := true)
  }

  /** The start in progress. */
  datatype Start = NoStart | WaitPort | Bootstrapping(pid: Pid)

  /** A start, and what the last one that ended gave whoever awaited it. */
  datatype Pending = Pending(start: Start, result: Option<bool>)

  /**
   A handler of process `pid` ends the start that spawned it, if that is still open; the first
   one to do so decides.
   */
  function Finished(p: Pending, pid: Pid, ok: bool): Pending {
    if p.start == Bootstrapping(pid) then Pending(NoStart, Some(ok)) else p
  }

  /** The TorManager object, its event handlers as methods. */
  class TorManager {
    var state: Status
    var process: Option<Pid>
    var stopping: bool
    var start: Start
    var result: Option<bool>

    function View(): Tor
      reads this
    {
      Tor(state, process, stopping)
    }

    function Starting(): Pending
      reads this
    {
      Pending(start, result)
    }

    constructor ()
      ensures View() == Tor(Stopped, None, false) && Starting() == Pending(NoStart, None)
    {
      state, process, stopping, start, result := Stopped, None, false, NoStart, None;
    }

    method Finish(pid: Pid, ok: bool)
      modifies this`start, this`result
      ensures Starting() == Finished(old(Starting()), pid, ok)
    {
      if start != Bootstrapping(pid) {
        return;
      }
      start := NoStart;
      result := Some(ok);
    }

    method OnBootstrapped(pid: Pid)
      modifies this
      ensures View() == BootstrappedLine(old(View()))
      ensures Starting() == Finished(old(Starting()), pid, true)
    {
      state := Ready;
      Finish(pid, true);
    }

    method OnError(pid: Pid)
      modifies this
      ensures View() == ProcessError(old(View()))
      ensures Starting() == Finished(old(Starting()), pid, false)
    {
      state := Failed;
      process := None;
      Finish(pid, false);
    }

    /** The close handler; a Tor that died by itself after having worked closes the lock. */
    method OnClose(pid: Pid, netLock: NetworkLock)
      modifies this, netLock
      ensures View() == ProcessClose(old(View()))
      ensures Starting() ==
        if IsUnexpectedExit(old(View())) then old(Starting()) else Finished(old(Starting()), pid, false)
      ensures netLock.View() ==
        if IsUnexpectedExit(old(View())) then Engaged(old(netLock.View()), "Tor exited unexpectedly")
        else old(netLock.View())
    {
      process := None;
      if stopping {
        stopping := false;
        state := Stopped;
        Finish(pid, false);
        return;
      }
      if state.Ready? {
        state := Failed;
        netLock.Engage("Tor exited unexpectedly");
        return;
      }
      state := Failed;
      Finish(pid, false);
    }

    /** stop(), up to its first await. */
    method BeginStop()
      modifies this
      ensures View() == Stop(old(View())) && Starting() == old(Starting())
    {
      if process.None? {
        state := Stopped;
        return;
      }
      stopping := true;
      state := Stopped;
    }

    /** The proxy:disconnect handler up to its first await: the lock is closed before Tor is told to stop. */
    method Disconnect(netLock: NetworkLock)
      modifies this, netLock
      ensures netLock.View() == Engaged(old(netLock.View()), "disconnected by the user")
      ensures View() == Stop(old(View()))
    {
      netLock.Engage("disconnected by the user");
      BeginStop();
    }
  }

  // --------------------------------------------------------- the whole run

  /** A Tor process until its close event: whether it said 100%, and whether it was told to stop. */
  datatype Proc = Proc(ready: bool, mute: bool)

  /** The connect in progress. `since` is the step in which it took its generation. */
  datatype Connect =
    | Idle
    | Waiting(gen: nat, since: nat)
    | Started(gen: nat, since: nat, ok: bool)
    | Checking(gen: nat, since: nat, snapshot: set<SessionId>, todo: set<SessionId>, wrong: bool)
    | Finishing

  /** What the connect that opened the lock knew when it did. */
  datatype Opening = Opening(gen: nat, since: nat, at: nat, sawReady: bool, snapshot: set<SessionId>)

  datatype World = World(
    netLock: Lock, tor: Tor, live: map<Pid, Proc>, nextPid: Pid, onTor: set<SessionId>,
    start: Start, connect: Connect, clock: nat, lastEngage: nat, opening: Option<Opening>)

  datatype Label =
    | PressConnect
    | PressDisconnect
    | StartFails                          // no binary, the port held or no data directory
    | SpawnThrows
    | Spawn                               // the port was free and Tor was started
    | BootTimeout
    | Line100(pid: Pid)
    | Errors(pid: Pid)
    | Closes(pid: Pid)
    | ConnectResumes                      // after awaiting start()
    | WrongPort                           // after awaiting start(), with Tor on a port that is not the lock's
    | Check(s: SessionId, answer: bool)   // one session of unrouted()
    | Decide                              // after awaiting unrouted()
    | ConnectEnds
    | NewSession(s: SessionId)
    | ForgetSession(s: SessionId)
    | Routed(s: SessionId)                // a session's setProxy took effect

  const INIT := World(NEW_LOCK, Tor(Stopped, None, false), map[], 0, {}, NoStart, Idle, 0, 0, None)

  function DoEngage(w: World, why: string): World {
    w.(netLock := Engaged(w.netLock, why), lastEngage := w.clock)
  }

  function DoStop(w: World): World {
    var live := if w.tor.process.Some? && w.tor.process.value in w.live
                then w.live[w.tor.process.value := w.live[w.tor.process.value].(mute := true)] else w.live;
    w.(tor := Stop(w.tor), live := live)
  }

  /** The start ends with `ok`, and so the connect waiting for it can go on. */
  function EndStart(w: World, ok: bool): World {
    w.(start := NoStart, connect := if w.connect.Waiting? then Started(w.connect.gen, w.connect.since,
      ok) else w.connect)
  }

  /** A handler of process `pid` settles the start that spawned it, if that is still open. */
  function Settle(w: World, pid: Pid, ok: bool): World {
    if w.start == Bootstrapping(pid) then EndStart(w, ok) else w
  }

  function Apply(w0: World, l: Label): World {
    var w := w0.(clock := w0.clock + 1);
    match l
    case PressConnect =>
      if !w.connect.Idle? then w
      else
        var waiting := Waiting(w.netLock.generation, w.clock);
        if IsRunning(w.tor) then w.(connect := Started(w.netLock.generation, w.clock, true))
        else w.(connect := waiting, start := if w.start.NoStart? then WaitPort else w.start)
    case PressDisconnect => DoStop(DoEngage(w, "disconnected by the user"))
    case StartFails =>
      if w.start.WaitPort? then EndStart(w.(tor := w.tor.(state := Failed)), false) else w
    case SpawnThrows =>
      if w.start.WaitPort? then EndStart(w.(tor := ProcessError(w.tor)), false) else w
    case Spawn =>
      if w.start.WaitPort? then
        w.(tor := w.tor.(state := Starting, process := Some(w.nextPid)),
           live := w.live[w.nextPid := Proc(false, false)], nextPid := w.nextPid + 1,
           start := Bootstrapping(w.nextPid))
      else w
    case BootTimeout =>
      if w.start.Bootstrapping? then EndStart(w.(tor := w.tor.(state := Failed)), false) else w
    case Line100(pid) =>
      if pid in w.live then
        Settle(w.(tor := BootstrappedLine(w.tor), live := w.live[pid := w.live[pid].(ready := true)]), pid, true)
      else w
    case Errors(pid) =>
      if pid in w.live then
        Settle(w.(tor := ProcessError(w.tor)), pid, false)
      else w
    case Closes(pid) =>
      if pid in w.live then
        var w1 := if IsUnexpectedExit(w.tor) then DoEngage(w, "Tor exited unexpectedly") else w;
        var w2 := w1.(tor := ProcessClose(w.tor), live := w.live - {pid});
        if IsUnexpectedExit(w.tor) then w2 else Settle(w2, pid, false)
      else w
    case ConnectResumes =>
      if !w.connect.Started? then w
      else if !w.connect.ok then DoEngage(w, "Tor did not start").(connect := Finishing)
      else w.(connect := Checking(w.connect.gen, w.connect.since, w.netLock.sessions, w.netLock.sessions, false))
    case WrongPort =>
      if !(w.connect.Started? && w.connect.ok) then w
      else DoStop(DoEngage(w, "a session is not routed through Tor")).(connect := Finishing)
    case Check(s, answer) =>
      if w.connect.Checking? && s in w.connect.todo then
        w.(connect := w.connect.(todo := w.connect.todo - {s},
                                 wrong := w.connect.wrong || !(answer && s in w.onTor)))
      else w
    case Decide =>
      if !(w.connect.Checking? && w.connect.todo == {}) then w
      else if w.connect.wrong then DoStop(DoEngage(w, "a session is not routed through Tor")).(connect := Finishing)
      else if !w.tor.state.Ready? || w.connect.gen != w.netLock.generation then w.(connect := Finishing)
      else w.(netLock := Released(w.netLock, w.connect.gen), connect := Finishing,
              opening := Some(Opening(w.connect.gen, w.connect.since, w.clock, w.tor.state.Ready?, w.connect.snapshot)))
    case ConnectEnds => if w.connect.Finishing? then w.(connect := Idle) else w
    case NewSession(s) => w.(netLock := w.netLock.(sessions := w.netLock.sessions + {s}))
    case ForgetSession(s) => w.(netLock := w.netLock.(sessions := w.netLock.sessions - {s}))
    case Routed(s) => w.(onTor := w.onTor + {s})
  }

  function Exec(run: seq<Label>): World {
    if run == [] then INIT else Apply(Exec(run[..|run| - 1]), run[|run| - 1])
  }

  // ---------------------------------------------- what holds in every run

  /** A connect whose generation is still current has seen no engage since it took it. */
  ghost predicate ConnectFresh(w: World) {
    var c := w.connect;
    c.Waiting? || c.Started? || c.Checking? ==>
      && c.gen <= w.netLock.generation && c.since <= w.clock
      && (c.gen == w.netLock.generation ==> w.lastEngage <= c.since)
      && (c.Checking? ==> c.todo <= c.snapshot && (!c.wrong ==> c.snapshot - c.todo <= w.onTor))
  }

  /** The lock is open only through a connect that is still the current one. */
  ghost predicate OpenJustified(w: World) {
    !w.netLock.engaged ==>
      && w.opening.Some?
      && var o := w.opening.value;
      && o.gen == w.netLock.generation && w.lastEngage <= o.since <= o.at <= w.clock
      && o.sawReady && o.snapshot <= w.onTor
  }

  predicate IsConnectStep(l: Label) {
    l.ConnectResumes? || l.WrongPort? || l.Check? || l.Decide? || l.ConnectEnds? || l.PressConnect? ||
      l.PressDisconnect?
  }

  ghost predicate Justified(w: World) { ConnectFresh(w) && OpenJustified(w) && w.lastEngage <= w.clock }

  /** An engage moves the generation past every connect, and a stop touches neither lock nor connect. */
  lemma EngageKeepsJustified(w: World, why: string)
    requires Justified(w)
    ensures Justified(DoEngage(w, why)) && Justified(DoStop(DoEngage(w, why)))
  {
  }

  lemma JustifiedTicks(w: World)
    requires Justified(w)
    ensures Justified(w.(clock := w.clock + 1))
  {
  }

  /** With no check under way there is nothing to keep about the connect. */
  lemma JustifiedFinishing(w: World)
    requires Justified(w)
    ensures Justified(w.(connect := Finishing)) && Justified(w.(connect := Idle))
  {
  }

  lemma DecideKeepsJustified(w: World)
    requires Justified(w)
    ensures Justified(Apply(w, Decide))
  {
    JustifiedTicks(w);
    var v := w.(clock := w.clock + 1);
    EngageKeepsJustified(v, "a session is not routed through Tor");
    JustifiedFinishing(DoStop(DoEngage(v, "a session is not routed through Tor")));
    JustifiedFinishing(v);
    if v.connect.Checking? && v.connect.todo == {} && !v.connect.wrong {
      hide DoStop, DoEngage;
    } else {
      hide Justified, DoStop, DoEngage;
    }
  }

  lemma EngagingStepKeepsJustified(w: World, l: Label)
    requires Justified(w) && (l.PressDisconnect? || l.WrongPort? || l.ConnectEnds?)
    ensures Justified(Apply(w, l))
  {
    JustifiedTicks(w);
    var v := w.(clock := w.clock + 1);
    hide Justified, DoEngage, DoStop;
    EngageKeepsJustified(v, "disconnected by the user");
    EngageKeepsJustified(v, "a session is not routed through Tor");
    JustifiedFinishing(DoStop(DoEngage(v, "a session is not routed through Tor")));
    JustifiedFinishing(v);
  }

  lemma ResumeKeepsJustified(w: World, l: Label)
    requires Justified(w) && (l.ConnectResumes? || l.PressConnect? || l.Check?)
    ensures Justified(Apply(w, l))
  {
    JustifiedTicks(w);
    var v := w.(clock := w.clock + 1);
    EngageKeepsJustified(v, "Tor did not start");
    JustifiedFinishing(DoEngage(v, "Tor did not start"));
    hide DoEngage, DoStop;
  }

  lemma ConnectStepKeepsJustified(w: World, l: Label)
    requires Justified(w) && IsConnectStep(l)
    ensures Justified(Apply(w, l))
  {
    hide Justified, Apply;
    match l
    case Decide => DecideKeepsJustified(w);
    case PressDisconnect => EngagingStepKeepsJustified(w, l);
    case WrongPort => EngagingStepKeepsJustified(w, l);
    case ConnectEnds => EngagingStepKeepsJustified(w, l);
    case _ => ResumeKeepsJustified(w, l);
  }

  /** Tor, its processes, the starts and the set of sessions play no part; routes are only gained. */
  lemma JustifiedFrame(w: World, v: World)
    requires Justified(w) && v.clock == w.clock && v.lastEngage == w.lastEngage && v.opening == w.opening
    requires v.netLock.engaged == w.netLock.engaged && v.netLock.generation == w.netLock.generation
    requires v.connect == w.connect && w.onTor <= v.onTor
    ensures Justified(v)
  {
  }

  lemma EndStartKeepsJustified(w: World, pid: Pid, ok: bool)
    requires Justified(w)
    ensures Justified(EndStart(w, ok)) && Justified(Settle(w, pid, ok))
  {
  }

  lemma CloseKeepsJustified(w: World, pid: Pid)
    requires Justified(w)
    ensures Justified(Apply(w, Closes(pid)))
  {
    JustifiedTicks(w);
    var v := w.(clock := w.clock + 1);
    EngageKeepsJustified(v, "Tor exited unexpectedly");
    hide Justified, Settle, DoEngage, DoStop;
    if pid in v.live {
      var w1 := if IsUnexpectedExit(v.tor) then DoEngage(v, "Tor exited unexpectedly") else v;
      var w2 := w1.(tor := ProcessClose(v.tor), live := v.live - {pid});
      JustifiedFrame(w1, w2);
      EndStartKeepsJustified(w2, pid, false);
    }
  }

  lemma StartEndKeepsJustified(w: World, l: Label)
    requires Justified(w) && (l.StartFails? || l.SpawnThrows? || l.BootTimeout?)
    ensures Justified(Apply(w, l))
  {
    JustifiedTicks(w);
    hide Justified, EndStart;
    var v := w.(clock := w.clock + 1);
    var u := v.(tor := if l.SpawnThrows? then ProcessError(v.tor) else v.tor.(state := Failed));
    JustifiedFrame(v, u);
    EndStartKeepsJustified(u, 0, false);
  }

  lemma LineKeepsJustified(w: World, pid: Pid)
    requires Justified(w)
    ensures Justified(Apply(w, Line100(pid))) && Justified(Apply(w, Errors(pid)))
  {
    JustifiedTicks(w);
    hide Justified, Settle;
    var v := w.(clock := w.clock + 1);
    if pid in v.live {
      var u := v.(tor := BootstrappedLine(v.tor), live := v.live[pid := v.live[pid].(ready := true)]);
      JustifiedFrame(v, u);
      EndStartKeepsJustified(u, pid, true);
      var x := v.(tor := ProcessError(v.tor));
      JustifiedFrame(v, x);
      EndStartKeepsJustified(x, pid, false);
    }
  }

  lemma OtherStepKeepsJustified(w: World, l: Label)
    requires Justified(w) && !IsConnectStep(l)
    ensures Justified(Apply(w, l))
  {
    if l.Spawn? || l.NewSession? || l.ForgetSession? || l.Routed? {
      JustifiedTicks(w);
      hide Justified;
      JustifiedFrame(w.(clock := w.clock + 1), Apply(w, l));
    } else {
      hide Justified, Apply;
      match l
      case Line100(pid) => LineKeepsJustified(w, pid);
      case Errors(pid) => LineKeepsJustified(w, pid);
      case Closes(pid) => CloseKeepsJustified(w, pid);
      case _ => StartEndKeepsJustified(w, l);
    }
  }

  /**
   In every interleaving: while the lock is open, no engage has happened since
   the step in which the connect that opened it took its generation, that connect
   saw Tor ready in the opening step, and every session of its snapshot is on
   Tor's route.
   */
  lemma {:induction false} OpenIsJustified(run: seq<Label>)
    ensures Justified(Exec(run)) && OpenJustified(Exec(run))
  {
    if run != [] {
      var w, l := Exec(run[..|run| - 1]), run[|run| - 1];
      OpenIsJustified(run[..|run| - 1]);
      hide Apply, ConnectFresh, OpenJustified;
      if IsConnectStep(l) { ConnectStepKeepsJustified(w, l); } else { OtherStepKeepsJustified(w, l); }
    }
  }

  // --------------------------------- what holds of a well-behaved Tor process

  /** What is assumed of the Tor processes. */
  datatype Assumption =
    | OneAtATime         // Tor is spawned only when no other is alive
    | QuietAfterStop     // a Tor told to stop says 100% no more
    | ErrorsOnlyEarly    // an error comes only before ready or during a stop

  ghost predicate Holds(a: Assumption, w: World, l: Label) {
    match a
    case OneAtATime => l.Spawn? && w.start.WaitPort? ==> w.live == map[]
    case QuietAfterStop => l.Line100? && l.pid in w.live ==> !w.live[l.pid].mute
    case ErrorsOnlyEarly => l.Errors? && l.pid in w.live ==> !w.live[l.pid].ready || w.tor.stopping
  }

  /** The assumption holds at every step of the run. */
  ghost predicate Always(a: Assumption, run: seq<Label>) {
    run == [] || (Always(a, run[..|run| - 1]) && Holds(a, Exec(run[..|run| - 1]), run[|run| - 1]))
  }

  ghost predicate Assumed(w: World, l: Label) {
    Holds(OneAtATime, w, l) && Holds(QuietAfterStop, w, l) && Holds(ErrorsOnlyEarly, w, l)
  }

  ghost predicate WellBehaved(run: seq<Label>) {
    Always(OneAtATime, run) && Always(QuietAfterStop, run) && Always(ErrorsOnlyEarly, run)
  }

  /** One process at most, and Tor's state agrees with it. */
  ghost predicate TorSound(w: World) {
    && (forall p, q :: p in w.live && q in w.live ==> p == q)
    && (forall p :: p in w.live ==> p < w.nextPid)
    && (w.tor.process.Some? ==> w.tor.process.value in w.live)
    && (w.tor.state.Ready? && w.tor.process.Some? ==>
          !w.tor.stopping && w.live[w.tor.process.value].ready && !w.live[w.tor.process.value].mute)
    && (w.tor.stopping ==> w.live != map[] && forall p :: p in w.live ==> w.live[p].mute)
    && (w.start.Bootstrapping? ==> w.tor.process == Some(w.start.pid) && !w.tor.state.Ready?)
  }

  /** Tor is up and there is a process behind it. */
  predicate Up(t: Tor) { t.state.Ready? && t.process.Some? }

  /**
   A start runs only under a connect that waits for it, and behind a closed lock. The lock
   is open only over a Tor that is up, and a connect that nothing has overtaken and that
   was told its start went well still has one.
   */
  ghost predicate StartSound(w: World) {
    var c := w.connect;
    && (!w.start.NoStart? <==> c.Waiting?)
    && (c.Waiting? ==> w.netLock.engaged)
    && (!w.netLock.engaged ==> Up(w.tor))
    && (c.Waiting? || c.Started? || c.Checking? ==> c.gen <= w.netLock.generation)
    && ((c.Started? && c.ok) || c.Checking? ==> c.gen == w.netLock.generation ==> Up(w.tor))
  }

  predicate IsProcessEvent(l: Label) { l.Spawn? || l.SpawnThrows? || l.Line100? || l.Errors? || l.Closes? }

  lemma SpawnKeepsTorSound(w: World)
    requires TorSound(w) && w.live == map[]
    ensures TorSound(w.(tor := w.tor.(state := Starting, process := Some(w.nextPid)),
                        live := w.live[w.nextPid := Proc(false, false)], nextPid := w.nextPid + 1,
                        start := Bootstrapping(w.nextPid)))
  {
  }

  /** A spawn that throws forgets the process of before, which may still linger. */
  lemma SpawnThrowsKeepsTorSound(w: World)
    requires TorSound(w)
    ensures TorSound(EndStart(w.(tor := ProcessError(w.tor)), false))
  {
  }

  lemma LineKeepsTorSound(w: World, pid: Pid)
    requires TorSound(w) && pid in w.live && !w.live[pid].mute
    ensures var u := w.(tor := BootstrappedLine(w.tor), live := w.live[pid := w.live[pid].(ready := true)]);
      TorSound(Settle(u, pid, true))
  {
  }

  lemma ErrorKeepsTorSound(w: World, pid: Pid)
    requires TorSound(w) && pid in w.live
    ensures TorSound(Settle(w.(tor := ProcessError(w.tor)), pid, false))
  {
  }

  lemma CloseKeepsTorSound(w: World, pid: Pid)
    requires TorSound(w) && pid in w.live
    ensures var u := w.(tor := ProcessClose(w.tor), live := w.live - {pid});
      if IsUnexpectedExit(w.tor) then TorSound(u) else TorSound(Settle(u, pid, false))
  {
  }

  lemma ProcessEventKeepsTorSound(w: World, l: Label)
    requires TorSound(w) && Assumed(w, l) && IsProcessEvent(l)
    ensures TorSound(Apply(w, l))
  {
    hide TorSound;
    var v := w.(clock := w.clock + 1);
    TorSoundFrame(w, v);
    match l
    case Spawn => if v.start.WaitPort? { SpawnKeepsTorSound(v); }
    case SpawnThrows => SpawnThrowsKeepsTorSound(v);
    case Line100(pid) => if pid in v.live { LineKeepsTorSound(v, pid); }
    case Errors(pid) => if pid in v.live { ErrorKeepsTorSound(v, pid); }
    case Closes(pid) =>
      if pid in v.live {
        CloseKeepsTorSound(v, pid);
        var u := v.(tor := ProcessClose(v.tor), live := v.live - {pid});
        if IsUnexpectedExit(v.tor) { TorSoundFrame(u, Apply(w, l)); }
      }
  }

  lemma StopKeepsTorSound(w: World)
    requires TorSound(w)
    ensures TorSound(DoStop(w))
  {
  }

  /** TorSound does not look at the lock, the sessions, the connect or the clock. */
  lemma TorSoundFrame(w: World, w': World)
    requires TorSound(w) && w'.tor == w.tor && w'.live == w.live && w'.nextPid == w.nextPid
    requires w'.start == w.start || !w'.start.Bootstrapping?
    ensures TorSound(w')
  {
  }

  lemma EngageStopKeepsTorSound(w: World, why: string)
    requires TorSound(w)
    ensures TorSound(DoStop(DoEngage(w, why))) && TorSound(DoStop(DoEngage(w, why)).(connect := Finishing))
  {
    hide TorSound, DoStop;
    var e := DoEngage(w, why);
    TorSoundFrame(w, e);
    StopKeepsTorSound(e);
    TorSoundFrame(DoStop(e), DoStop(e).(connect := Finishing));
  }

  lemma FailedKeepsTorSound(w: World)
    requires TorSound(w)
    ensures TorSound(w.(tor := w.tor.(state := Failed)))
  {
  }

  lemma OtherStepKeepsTorSound(w: World, l: Label)
    requires TorSound(w) && !IsProcessEvent(l)
    ensures TorSound(Apply(w, l))
  {
    hide TorSound, DoStop;
    var v := w.(clock := w.clock + 1);
    TorSoundFrame(w, v);
    match l
    case PressDisconnect => EngageStopKeepsTorSound(v, "disconnected by the user");
    case WrongPort => EngageStopKeepsTorSound(v, "a session is not routed through Tor");
    case StartFails =>
      FailedKeepsTorSound(v);
      TorSoundFrame(v.(tor := v.tor.(state := Failed)), EndStart(v.(tor := v.tor.(state := Failed)), false));
    case BootTimeout =>
      FailedKeepsTorSound(v);
      TorSoundFrame(v.(tor := v.tor.(state := Failed)), EndStart(v.(tor := v.tor.(state := Failed)), false));
    case Decide =>
      EngageStopKeepsTorSound(v, "a session is not routed through Tor");
      if !(v.connect.Checking? && v.connect.todo == {} && v.connect.wrong) { TorSoundFrame(v, Apply(w, l)); }
    case _ => TorSoundFrame(v, Apply(w, l));
  }

  lemma ApplyKeepsTorSound(w: World, l: Label)
    requires TorSound(w) && Assumed(w, l)
    ensures TorSound(Apply(w, l))
  {
    hide *;
    if IsProcessEvent(l) { ProcessEventKeepsTorSound(w, l); } else { OtherStepKeepsTorSound(w, l); }
  }

  lemma ProcessEventKeepsStartSound(w: World, l: Label)
    requires TorSound(w) && StartSound(w) && Assumed(w, l) && IsProcessEvent(l)
    ensures StartSound(Apply(w, l))
  {
  }

  lemma ConnectStepKeepsStartSound(w: World, l: Label)
    requires StartSound(w) && IsConnectStep(l)
    ensures StartSound(Apply(w, l))
  {
  }

  lemma RestKeepsStartSound(w: World, l: Label)
    requires StartSound(w) && !IsProcessEvent(l) && !IsConnectStep(l)
    ensures StartSound(Apply(w, l))
  {
  }

  lemma ApplyKeepsStartSound(w: World, l: Label)
    requires TorSound(w) && StartSound(w) && Assumed(w, l)
    ensures StartSound(Apply(w, l))
  {
    hide Apply, TorSound, StartSound, Assumed;
    if IsProcessEvent(l) {
      ProcessEventKeepsStartSound(w, l);
    } else if IsConnectStep(l) {
      ConnectStepKeepsStartSound(w, l);
    } else {
      RestKeepsStartSound(w, l);
    }
  }

  /** With a Tor that behaves as assumed, an open lock means a Tor that is ready, running and not stopping. */
  lemma {:induction false} OpenMeansTorIsReady(run: seq<Label>)
    requires WellBehaved(run)
    ensures TorSound(Exec(run)) && StartSound(Exec(run))
    ensures var w := Exec(run);
      !w.netLock.engaged ==>
        w.tor.state.Ready? && w.tor.process.Some? && w.tor.process.value in w.live && !w.tor.stopping
  {
    if run != [] {
      OpenMeansTorIsReady(run[..|run| - 1]);
      ApplyKeepsTorSound(Exec(run[..|run| - 1]), run[|run| - 1]);
      ApplyKeepsStartSound(Exec(run[..|run| - 1]), run[|run| - 1]);
    }
  }

  // --------------------------------------- why the assumptions are needed

  lemma ExecNext(run: seq<Label>, l: Label)
    ensures Exec(run + [l]) == Apply(Exec(run), l)
  {
    assert (run + [l])[..|run|] == run;
  }

  lemma AlwaysNext(a: Assumption, run: seq<Label>, l: Label)
    ensures Always(a, run + [l]) <==> Always(a, run) && Holds(a, Exec(run), l)
  {
    hide Holds, Exec;
    assert (run + [l])[..|run|] == run;
  }

  /** A run and the assumptions among `kept` that it satisfies, one step on. */
  ghost predicate Keeps(kept: set<Assumption>, run: seq<Label>) { forall a :: a in kept ==> Always(a, run) }

  lemma KeepsNext(kept: set<Assumption>, run: seq<Label>, l: Label)
    requires Keeps(kept, run) && forall a :: a in kept ==> Holds(a, Exec(run), l)
    ensures Keeps(kept, run + [l]) && Exec(run + [l]) == Apply(Exec(run), l)
  {
    hide Holds, Always, Apply;
    forall a | a in kept ensures Always(a, run + [l]) { AlwaysNext(a, run, l); }
    ExecNext(run, l);
  }

  /** A connect that starts a Tor, which comes up. */
  lemma ConnectStarts(kept: set<Assumption>) returns (run: seq<Label>)
    ensures Keeps(kept, run)
    ensures var w := Exec(run);
      && w.netLock == NEW_LOCK && w.tor == Tor(Ready, Some(0), false) && w.live == map[0 := Proc(true, false)]
      && w.connect == Started(0, 1, true) && w.start.NoStart? && w.nextPid == 1
  {
    run := [];
    assert Exec(run) == INIT && Keeps(kept, run);
    hide Exec, Keeps, Always;
    KeepsNext(kept, run, PressConnect);
    run := run + [PressConnect];
    KeepsNext(kept, run, Spawn);
    run := run + [Spawn];
    KeepsNext(kept, run, Line100(0));
    run := run + [Line100(0)];
  }

  /** With a good Tor and no session to check, the connect opens the lock. */
  lemma ConnectOpens(kept: set<Assumption>) returns (run: seq<Label>)
    ensures Keeps(kept, run)
    ensures var w := Exec(run);
      && !w.netLock.engaged && w.tor == Tor(Ready, Some(0), false) && w.live == map[0 := Proc(true, false)]
      && w.connect.Finishing? && w.netLock.sessions == {} && w.start.NoStart? && w.nextPid == 1
      && w.netLock.asked == []
  {
    run := ConnectStarts(kept);
    hide Exec, Keeps, Always;
    KeepsNext(kept, run, ConnectResumes);
    run := run + [ConnectResumes];
    KeepsNext(kept, run, Decide);
    run := run + [Decide];
  }

  /** Connected, and then told to disconnect: the lock is closed, the Tor lingers. */
  lemma ThenDisconnects(kept: set<Assumption>) returns (run: seq<Label>)
    ensures Keeps(kept, run)
    ensures var w := Exec(run);
      && w.netLock.engaged && w.tor == Tor(Stopped, Some(0), true) && w.live == map[0 := Proc(true, true)]
      && w.connect.Idle? && w.netLock.sessions == {} && w.start.NoStart? && w.nextPid == 1
  {
    run := ConnectOpens(kept);
    hide Exec, Keeps;
    KeepsNext(kept, run, ConnectEnds);
    run := run + [ConnectEnds];
    KeepsNext(kept, run, PressDisconnect);
    run := run + [PressDisconnect];
  }

  /**
   With the other two assumptions kept and not the third: an error from a ready Tor marks it
   failed and leaves the lock open.
   */
  lemma ErrorWhenReadyLeavesOpen() returns (run: seq<Label>)
    ensures Always(OneAtATime, run) && Always(QuietAfterStop, run)
    ensures !Exec(run).netLock.engaged && Exec(run).tor.state.Failed?
  {
    var kept := {OneAtATime, QuietAfterStop};
    run := ConnectOpens(kept);
    hide Exec, Always;
    KeepsNext(kept, run, Errors(0));
    run := run + [Errors(0)];
    assert OneAtATime in kept && QuietAfterStop in kept;
  }

  /**
   With the other two kept and not the second: a Tor told to stop that still says 100%
   is taken for a running one, the lock opens over it, and its exit, being asked for,
   closes nothing.
   */
  lemma LateLineLeavesOpen() returns (run: seq<Label>)
    ensures Always(OneAtATime, run) && Always(ErrorsOnlyEarly, run)
    ensures !Exec(run).netLock.engaged && Exec(run).tor == Tor(Stopped, None, false) && Exec(run).live == map[]
  {
    var kept := {OneAtATime, ErrorsOnlyEarly};
    run := ThenDisconnects(kept);
    hide Exec, Always, Keeps;
    KeepsNext(kept, run, Line100(0));
    run := run + [Line100(0)];
    assert Exec(run).tor == Tor(Ready, Some(0), true) && Exec(run).connect.Idle?;
    KeepsNext(kept, run, PressConnect);
    run := run + [PressConnect];
    KeepsNext(kept, run, ConnectResumes);
    run := run + [ConnectResumes];
    KeepsNext(kept, run, Decide);
    run := run + [Decide];
    assert !Exec(run).netLock.engaged && Exec(run).tor == Tor(Ready, Some(0), true);
    KeepsNext(kept, run, Closes(0));
    run := run + [Closes(0)];
    KeptOnes(kept, run);
  }

  /** A second Tor started and connected over before the first was seen to exit. */
  lemma SecondTorOpens(kept: set<Assumption>) returns (run: seq<Label>)
    requires OneAtATime !in kept
    ensures Keeps(kept, run)
    ensures var w := Exec(run);
      && !w.netLock.engaged && w.tor == Tor(Ready, Some(1), true) && w.live.Keys == {0, 1} && w.start.NoStart?
  {
    run := ThenDisconnects(kept);
    hide Exec, Always, Keeps;
    KeepsNext(kept, run, PressConnect);
    run := run + [PressConnect];
    KeepsNext(kept, run, Spawn);
    run := run + [Spawn];
    assert Exec(run).tor == Tor(Starting, Some(1), true) && Exec(run).start == Bootstrapping(1);
    KeepsNext(kept, run, Line100(1));
    run := run + [Line100(1)];
    KeepsNext(kept, run, ConnectResumes);
    run := run + [ConnectResumes];
    KeepsNext(kept, run, Decide);
    run := run + [Decide];
  }

  /**
   With the other two kept and not the first: Connect right after Disconnect starts a
   second Tor before the first is seen to exit. The lock opens over the second; the exit
   of the first takes its place in the bookkeeping, and its own exit closes nothing.
   */
  lemma EarlySpawnLeavesOpen() returns (run: seq<Label>)
    ensures Always(QuietAfterStop, run) && Always(ErrorsOnlyEarly, run)
    ensures !Exec(run).netLock.engaged && Exec(run).tor == Tor(Failed, None, false) && Exec(run).live == map[]
  {
    var kept := {QuietAfterStop, ErrorsOnlyEarly};
    run := SecondTorOpens(kept);
    hide Exec, Always, Keeps;
    KeepsNext(kept, run, Closes(0));
    run := run + [Closes(0)];
    assert Exec(run).tor == Tor(Stopped, None, false) && Exec(run).live.Keys == {1};
    KeepsNext(kept, run, Closes(1));
    run := run + [Closes(1)];
    KeptOnes(kept, run);
  }

  lemma KeptOnes(kept: set<Assumption>, run: seq<Label>)
    requires Keeps(kept, run)
    ensures OneAtATime in kept ==> Always(OneAtATime, run)
    ensures QuietAfterStop in kept ==> Always(QuietAfterStop, run)
    ensures ErrorsOnlyEarly in kept ==> Always(ErrorsOnlyEarly, run)
  {
  }
}
