/**
 What the chat server does for a session, not only what it never does: who gets in, that
 a visitor nobody stands in the way of joins, speaks and leaves, and that what a room
 keeps is what its members said.
 */
module ChatConduct {
  import opened Options
  import opened ChatRooms

  ghost function Turned(s: State, c: ConnId, ev: Event): State { Apply(s, Turn(c, ev)) }

  // ---------------------------------------------------------------- who gets in

  /**
   In every run, a session that holds its room's user table gets in exactly when fewer
   than 512 are there and none under its name; otherwise it is on the way of refusal and
   the table is as it was.
   */
  lemma JoinIsAnsweredIff(run: seq<Label>, c: ConnId, ev: Event)
    requires c in Exec(run).sessions && Exec(run).sessions[c].phase.JoinHasUsers?
    ensures var s, t := Exec(run), Exec(run + [Turn(c, ev)]);
      var me := s.sessions[c];
      var r := me.phase.r;
      r in s.heap && r in t.heap && c in t.sessions
      && (c in t.heap[r].users <==>
            |s.heap[r].users| < 512 && forall d :: d in s.heap[r].users ==> s.heap[r].users[d].key != me.nick.key)
      && (c in t.heap[r].users ==> t.heap[r].users == s.heap[r].users[c := me.nick] && IsMember(t.sessions[c].phase))
      && (c !in t.heap[r].users ==> t.heap == s.heap && t.sessions[c].phase == RefuseWantUsers(r))
  {
    Reachable(run);
    var s := Exec(run);
    assert (run + [Turn(c, ev)])[..|run|] == run;
    hide Exec, RoomsOk, Mapped, EmptyStays, EmptyOwed, RoomsLockOwned, UsersLockOwned, HistoryLockOwned, Apply;
    NotYetListed(s, c);
    DecidingStep(s, c, ev);
  }

  lemma NotYetListed(s: State, c: ConnId)
    requires Refs(s) && Membership(s) && c in s.sessions && s.sessions[c].phase.JoinHasUsers?
    ensures s.sessions[c].phase.r in s.heap && c !in s.heap[s.sessions[c].phase.r].users
  {
  }

  lemma DecidingStep(s: State, c: ConnId, ev: Event)
    requires c in s.sessions && s.sessions[c].phase.JoinHasUsers?
    requires s.sessions[c].phase.r in s.heap && c !in s.heap[s.sessions[c].phase.r].users
    ensures var t := Apply(s, Turn(c, ev));
      var me := s.sessions[c];
      var r := me.phase.r;
      r in t.heap && c in t.sessions
      && (c in t.heap[r].users <==>
            |s.heap[r].users| < 512 && forall d :: d in s.heap[r].users ==> s.heap[r].users[d].key != me.nick.key)
      && (c in t.heap[r].users ==> t.heap[r].users == s.heap[r].users[c := me.nick] && IsMember(t.sessions[c].phase))
      && (c !in t.heap[r].users ==> t.heap == s.heap && t.sessions[c].phase == RefuseWantUsers(r))
  {
    hide Relock;
    var p := NextPhase(s, c, ev);
    assert NextHeap(s, c, p).Keys == s.heap.Keys;
  }

  // ------------------------------------------------------- what a room has kept

  /** The messages recorded in room r, by the turns that record them. */
  ghost function Recorded(run: seq<Label>, r: Ref): seq<string> {
    if run == [] then []
    else
      var s, l := Exec(run[..|run| - 1]), run[|run| - 1];
      Recorded(run[..|run| - 1], r) +
        if l.Turn? && Ready(s, l.c) && s.sessions[l.c].phase.LogHasHistory? && s.sessions[l.c].phase.r == r
        then [s.sessions[l.c].phase.msg] else []
  }

  /** The messages session c said, one at a time, while it was talking. */
  ghost function SaidBy(run: seq<Label>, c: ConnId): seq<string> {
    if run == [] then []
    else
      var s, l := Exec(run[..|run| - 1]), run[|run| - 1];
      SaidBy(run[..|run| - 1], c) +
        if l.Turn? && l.c == c && Ready(s, c) && s.sessions[c].phase.Main? && l.ev.Say? then [l.ev.msg] else []
  }

  ghost function RecordedBy(run: seq<Label>, c: ConnId): seq<string> {
    if run == [] then []
    else
      var s, l := Exec(run[..|run| - 1]), run[|run| - 1];
      RecordedBy(run[..|run| - 1], c) +
        if l.Turn? && l.c == c && Ready(s, c) && s.sessions[c].phase.LogHasHistory?
        then [s.sessions[c].phase.msg] else []
  }

  function Pending(p: Phase): seq<string> {
    if p.LogWantHistory? || p.LogHasHistory? then [p.msg] else []
  }

  lemma StepRecords(s: State, c: ConnId, ev: Event, r: Ref)
    requires Refs(s) && Ready(s, c) && r in Step(s, c, ev).heap
    ensures var p := s.sessions[c].phase;
      Step(s, c, ev).heap[r].said ==
        (if r in s.heap then s.heap[r].said else []) + (if p.LogHasHistory? && p.r == r then [p.msg] else [])
  {
    hide LastOf;
  }

  lemma NothingRecordedYet(s: State, c: ConnId, r: Ref)
    requires Refs(s) && Ready(s, c) && r !in s.heap
    ensures !(s.sessions[c].phase.LogHasHistory? && s.sessions[c].phase.r == r)
  {
  }

  /**
   In every run a room has kept the last 200 of the messages recorded in it, in the order
   of their recording.
   */
  lemma {:induction false} RoomKeepsWhatWasRecorded(run: seq<Label>, r: Ref)
    ensures r in Exec(run).heap ==>
      Exec(run).heap[r].said == Recorded(run, r) && Exec(run).heap[r].history == LastOf(Recorded(run, r), 200)
    ensures r !in Exec(run).heap ==> Recorded(run, r) == []
  {
    Reachable(run);
    if run != [] {
      var s, l := Exec(run[..|run| - 1]), run[|run| - 1];
      RoomKeepsWhatWasRecorded(run[..|run| - 1], r);
      Reachable(run[..|run| - 1]);
      hide LastOf, RoomsTracked, RoomsLockOwned, UsersLockOwned, HistoryLockOwned, Step;
      if l.Turn? && Ready(s, l.c) {
        HeapGrows(s, l.c, l.ev);
        if r in Exec(run).heap { StepRecords(s, l.c, l.ev, r); } else { NothingRecordedYet(s, l.c, r); }
      }
    }
  }

  lemma HeapGrows(s: State, c: ConnId, ev: Event)
    requires Ready(s, c)
    ensures s.heap.Keys <= Step(s, c, ev).heap.Keys
  {
    hide LastOf, NextPhase;
  }

  lemma StepPends(s: State, c: ConnId, ev: Event, d: ConnId)
    requires Ready(s, c) && d in s.sessions
    ensures d in Step(s, c, ev).sessions
    ensures var p, q := s.sessions[d].phase, Step(s, c, ev).sessions[d].phase;
      Pending(p) + (if d == c && p.Main? && ev.Say? then [ev.msg] else []) ==
      (if d == c && p.LogHasHistory? then [p.msg] else []) + Pending(q)
  {
    hide NextHeap, NextRooms, Relock, NickTaken;
  }

  /** What the last label adds to what was said and to what was recorded. */
  lemma LastWord(run: seq<Label>, c: ConnId)
    requires run != []
    ensures var front, l := run[..|run| - 1], run[|run| - 1];
      var s := Exec(front);
      if l.Turn? && l.c == c && Ready(s, c) then
        SaidBy(run, c) == SaidBy(front, c) + (if s.sessions[c].phase.Main? && l.ev.Say? then [l.ev.msg] else [])
        && RecordedBy(run, c) == RecordedBy(front, c)
             + (if s.sessions[c].phase.LogHasHistory? then [s.sessions[c].phase.msg] else [])
      else SaidBy(run, c) == SaidBy(front, c) && RecordedBy(run, c) == RecordedBy(front, c)
  {
    hide Ready, Exec;
  }

  /** What is said, recorded and on its way balances. */
  predicate Balanced(said: seq<string>, recorded: seq<string>, s: State, c: ConnId) {
    if c in s.sessions then said == recorded + Pending(s.sessions[c].phase) else said == [] && recorded == []
  }

  lemma BalanceMoves(said: seq<string>, recorded: seq<string>, s: State, d: ConnId, ev: Event, c: ConnId)
    requires Ready(s, d) && Balanced(said, recorded, s, c)
    ensures var p := if c in s.sessions then s.sessions[c].phase else Done;
      Balanced(said + (if d == c && p.Main? && ev.Say? then [ev.msg] else []),
        recorded + (if d == c && p.LogHasHistory? then [p.msg] else []), Step(s, d, ev), c)
  {
    SessionsStay(s, d, ev);
    hide Step, Ready;
    if c in s.sessions {
      StepPends(s, d, ev, c);
      var p, q := s.sessions[c].phase, Step(s, d, ev).sessions[c].phase;
      var a := if d == c && p.Main? && ev.Say? then [ev.msg] else [];
      var b := if d == c && p.LogHasHistory? then [p.msg] else [];
      assert recorded + Pending(p) + a == recorded + (Pending(p) + a);
      assert recorded + b + Pending(q) == recorded + (b + Pending(q));
    }
  }

  /** In every run, what a session said is what was recorded of it, in order, and at most one message on its way. */
  lemma {:induction false} WhatIsSaidIsRecorded(run: seq<Label>, c: ConnId)
    ensures Balanced(SaidBy(run, c), RecordedBy(run, c), Exec(run), c)
  {
    if run != [] {
      var front, l := run[..|run| - 1], run[|run| - 1];
      WhatIsSaidIsRecorded(front, c);
      LastWord(run, c);
      Reachable(front);
      hide SaidBy, RecordedBy, Step, Ready, RoomsTracked, RoomsLockOwned, UsersLockOwned, HistoryLockOwned, RoomsOk;
      if l.Turn? && Ready(Exec(front), l.c) {
        BalanceMoves(SaidBy(front, c), RecordedBy(front, c), Exec(front), l.c, l.ev, c);
        ReadyIsKnown(Exec(front), l.c);
      }
    }
  }

  lemma ReadyIsKnown(s: State, c: ConnId)
    requires Ready(s, c)
    ensures c in s.sessions
  {
  }

  lemma SessionsStay(s: State, c: ConnId, ev: Event)
    requires Ready(s, c)
    ensures Step(s, c, ev).sessions.Keys == s.sessions.Keys
  {
    hide NextHeap, NextRooms, Relock, NextPhase;
  }

  // --------------------------------------------------- a visitor nobody disturbs

  function Only(held: Option<Ref>, c: ConnId): map<Ref, ConnId> {
    if held.None? then map[] else map[held.value := c]
  }

  /** No lock is held but those session c holds at p. */
  predicate Owns(s: State, c: ConnId, p: Phase) {
    && s.roomsLock == (if HoldsRooms(p) then Some(c) else None)
    && s.usersLock == Only(UsersHeld(p), c) && s.historyLock == Only(HistoryHeld(p), c)
  }

  /** No lock is held. */
  predicate Calm(s: State) { s.roomsLock.None? && s.usersLock == map[] && s.historyLock == map[] }

  /** Session c stands at p, alone; its room state, if it has one, exists. */
  predicate Stands(s: State, c: ConnId, id: RoomId, nick: Nick, p: Phase) {
    c in s.sessions && s.sessions[c] == Session(id, nick, p) && (HasRef(p) ==> p.r in s.heap) && Owns(s, c, p)
  }

  /** The session's turns, one after another. */
  ghost function Goes(s: State, c: ConnId, evs: seq<Event>): State
    decreases |evs|
  {
    if |evs| == 0 then s else Goes(Turned(s, c, evs[0]), c, evs[1..])
  }

  lemma GoesThree(s: State, c: ConnId, a: Event, b: Event, d: Event)
    ensures Goes(s, c, [a, b, d]) == Turned(Turned(Turned(s, c, a), c, b), c, d)
  {
    hide Turned;
    assert [a, b, d][1..] == [b, d] && [b, d][1..] == [d] && [d][1..] == [];
    assert Goes(Turned(Turned(s, c, a), c, b), c, [d]) == Turned(Turned(Turned(s, c, a), c, b), c, d);
  }

  lemma {:induction false} GoesJoin(s: State, c: ConnId, a: seq<Event>, b: seq<Event>)
    ensures Goes(s, c, a + b) == Goes(Goes(s, c, a), c, b)
    decreases |a|
  {
    hide Turned;
    if |a| == 0 {
      assert a + b == b;
    } else {
      assert (a + b)[1..] == a[1..] + b;
      GoesJoin(Turned(s, c, a[0]), c, a[1..], b);
    }
  }

  /** A turn of a session that is alone. */
  lemma TurnFrom(s: State, c: ConnId, id: RoomId, nick: Nick, p: Phase, ev: Event)
    requires Stands(s, c, id, nick, p) && !p.Handshake?
    requires p.JoinWantRooms? && id in s.rooms ==> s.rooms[id] in s.heap
    ensures Ready(s, c)
    ensures var t := Turned(s, c, ev);
      var q := NextPhase(s, c, ev);
      Stands(t, c, id, nick, q) && t.heap == NextHeap(s, c, q) && t.rooms == NextRooms(s, c)
  {
    AloneIsReady(s, c, p);
    PhaseTable(s, c, ev);
    RoomStays(s, c, ev);
    LocksFollow(s, c, p, NextPhase(s, c, ev));
    hide NextHeap, NextRooms, NextPhase, Relock, Only;
  }

  lemma AloneIsReady(s: State, c: ConnId, p: Phase)
    requires c in s.sessions && s.sessions[c].phase == p && Owns(s, c, p) && (HasRef(p) ==> p.r in s.heap)
    ensures Ready(s, c)
  {
  }

  lemma RoomStays(s: State, c: ConnId, ev: Event)
    requires Ready(s, c) && !s.sessions[c].phase.Handshake?
    requires s.sessions[c].phase.JoinWantRooms? && s.sessions[c].id in s.rooms ==> s.rooms[s.sessions[c].id] in s.heap
    ensures var q := NextPhase(s, c, ev); HasRef(q) ==> q.r in NextHeap(s, c, q)
  {
    hide LastOf, NickTaken;
  }

  lemma LocksFollow(s: State, c: ConnId, p: Phase, q: Phase)
    requires Owns(s, c, p) && (HasRef(p) && HasRef(q) ==> q.r == p.r)
    requires HoldsUsers(p) ==> HasRef(p)
    ensures Relock(s.usersLock, c, UsersHeld(p), UsersHeld(q)) == Only(UsersHeld(q), c)
    ensures Relock(s.historyLock, c, HistoryHeld(p), HistoryHeld(q)) == Only(HistoryHeld(q), c)
  {
  }

  /** One message said while nobody else moves: it is the last the room has recorded. */
  lemma SpeaksAlone(s: State, c: ConnId, id: RoomId, nick: Nick, r: Ref, m: string)
    requires Stands(s, c, id, nick, Main(r))
    ensures var t := Goes(s, c, [Say(m), Sent, Sent]);
      && Stands(t, c, id, nick, Main(r)) && t.rooms == s.rooms
      && t.heap[r].said == s.heap[r].said + [m] && t.heap[r].users == s.heap[r].users
  {
    GoesThree(s, c, Say(m), Sent, Sent);
    hide Turned, Goes, LastOf, Owns;
    TurnFrom(s, c, id, nick, Main(r), Say(m));
    var s1 := Turned(s, c, Say(m));
    TurnFrom(s1, c, id, nick, LogWantHistory(r, m), Sent);
    var s2 := Turned(s1, c, Sent);
    TurnFrom(s2, c, id, nick, LogHasHistory(r, m), Sent);
  }

  /** The welcome: both locks taken and let go. */
  lemma IsWelcomedAlone(s: State, c: ConnId, id: RoomId, nick: Nick, r: Ref)
    requires Stands(s, c, id, nick, WelcomeWantUsers(r))
    ensures var t := Turned(Goes(s, c, [Sent, Sent, Sent]), c, Sent);
      Stands(t, c, id, nick, WelcomeSending(r)) && t.rooms == s.rooms && t.heap == s.heap
  {
    LocksForWelcome(s, c, id, nick, r);
    GoesThree(s, c, Sent, Sent, Sent);
    hide Turned, Goes, Stands;
    LetsGoAfterWelcome(Turned(Turned(s, c, Sent), c, Sent), c, id, nick, r);
  }

  lemma LetsGoAfterWelcome(s: State, c: ConnId, id: RoomId, nick: Nick, r: Ref)
    requires Stands(s, c, id, nick, WelcomeHasHistory(r))
    ensures var t := Turned(Turned(s, c, Sent), c, Sent);
      Stands(t, c, id, nick, WelcomeSending(r)) && t.rooms == s.rooms && t.heap == s.heap
  {
    hide Turned, Owns;
    TurnFrom(s, c, id, nick, WelcomeHasHistory(r), Sent);
    TurnFrom(Turned(s, c, Sent), c, id, nick, WelcomeDropUsers(r), Sent);
  }

  lemma LocksForWelcome(s: State, c: ConnId, id: RoomId, nick: Nick, r: Ref)
    requires Stands(s, c, id, nick, WelcomeWantUsers(r))
    ensures var t := Turned(Turned(s, c, Sent), c, Sent);
      Stands(t, c, id, nick, WelcomeHasHistory(r)) && t.rooms == s.rooms && t.heap == s.heap
  {
    hide Turned, Owns;
    TurnFrom(s, c, id, nick, WelcomeWantUsers(r), Sent);
    TurnFrom(Turned(s, c, Sent), c, id, nick, WelcomeWantHistory(r), Sent);
  }

  lemma IsAnnouncedAlone(s: State, c: ConnId, id: RoomId, nick: Nick, r: Ref)
    requires Stands(s, c, id, nick, WelcomeSending(r))
    ensures var t := Goes(s, c, [Sent, Sent, Sent]);
      Stands(t, c, id, nick, Main(r)) && t.rooms == s.rooms && t.heap == s.heap
  {
    GoesThree(s, c, Sent, Sent, Sent);
    hide Turned, Goes, Owns;
    TurnFrom(s, c, id, nick, WelcomeSending(r), Sent);
    var s1 := Turned(s, c, Sent);
    TurnFrom(s1, c, id, nick, AnnounceWantUsers(r), Sent);
    var s2 := Turned(s1, c, Sent);
    TurnFrom(s2, c, id, nick, AnnounceHasUsers(r), Sent);
  }

  /** The room a join works on: the mapped one, or a new and empty one. */
  ghost predicate RoomOfJoin(s: State, t: State, id: RoomId, r: Ref) {
    && t.rooms == s.rooms[id := r] && r in t.heap && (id in s.rooms ==> r == s.rooms[id] && t.heap == s.heap)
    && (id !in s.rooms ==> r !in s.heap && t.heap == s.heap[r := Room(map[], [], [])])
  }

  /** Up to the deciding step. */
  lemma ReachesTable(s: State, c: ConnId, id: RoomId, nick: Nick) returns (r: Ref)
    requires Refs(s) && Stands(s, c, id, nick, JoinWantRooms)
    ensures var t := Turned(Turned(s, c, Sent), c, Sent);
      RoomOfJoin(s, t, id, r) && Stands(t, c, id, nick, JoinHasUsers(r))
  {
    hide Turned, Owns;
    TurnFrom(s, c, id, nick, JoinWantRooms, Sent);
    var s1 := Turned(s, c, Sent);
    r := s1.sessions[c].phase.r;
    TurnFrom(s1, c, id, nick, JoinWantUsers(r), Sent);
  }

  /** The room is below its cap and nobody in it has the name. */
  ghost predicate HasPlace(s: State, id: RoomId, nick: Nick) {
    id in s.rooms && s.rooms[id] in s.heap ==>
      var users := s.heap[s.rooms[id]].users;
      |users| < 512 && forall d :: d in users ==> users[d].key != nick.key
  }

  lemma Decides(s: State, c: ConnId, id: RoomId, nick: Nick, r: Ref)
    requires Stands(s, c, id, nick, JoinHasUsers(r)) && c !in s.heap[r].users
    ensures var t := Turned(s, c, Sent);
      var users := s.heap[r].users;
      && t.rooms == s.rooms
      && if |users| < 512 && forall d :: d in users ==> users[d].key != nick.key
         then Stands(t, c, id, nick, JoinRelease(r)) && t.heap == s.heap[r := s.heap[r].(users := users[c := nick])]
         else Stands(t, c, id, nick, RefuseWantUsers(r)) && t.heap == s.heap
  {
    DecidingStep(s, c, Sent);
    hide Turned, NickTaken, Owns;
    TurnFrom(s, c, id, nick, JoinHasUsers(r), Sent);
  }

  lemma NewcomerIsUnlisted(s: State, c: ConnId, id: RoomId, nick: Nick, t: State, r: Ref)
    requires Refs(s) && Membership(s) && Stands(s, c, id, nick, JoinWantRooms) && RoomOfJoin(s, t, id, r)
    ensures c !in t.heap[r].users
  {
  }

  /** The users of the room a join is for. */
  ghost function UsersOf(s: State, id: RoomId): map<ConnId, Nick> {
    if id in s.rooms && s.rooms[id] in s.heap then s.heap[s.rooms[id]].users else map[]
  }

  lemma RoomOfJoinUsers(s: State, t: State, id: RoomId, r: Ref)
    requires RoomOfJoin(s, t, id, r) && (id in s.rooms ==> s.rooms[id] in s.heap)
    ensures t.heap[r].users == UsersOf(s, id) && t.rooms == s.rooms[id := r]
    ensures id in s.rooms ==> t.rooms == s.rooms && t.heap == s.heap && r == s.rooms[id]
  {
  }

  /** Three turns from the asking: the answer. */
  lemma IsAnswered(s: State, c: ConnId, id: RoomId, nick: Nick) returns (r: Ref)
    requires Refs(s) && Membership(s) && Stands(s, c, id, nick, JoinWantRooms)
    ensures var t := Goes(s, c, [Sent, Sent, Sent]);
      && r in t.heap && t.rooms == s.rooms[id := r] && (id in s.rooms ==> r == s.rooms[id])
      && if HasPlace(s, id, nick)
         then Stands(t, c, id, nick, JoinRelease(r)) && t.heap[r].users == UsersOf(s, id)[c := nick]
         else Stands(t, c, id, nick, RefuseWantUsers(r)) && id in s.rooms && t.heap == s.heap
  {
    r := ReachesTable(s, c, id, nick);
    var s2 := Turned(Turned(s, c, Sent), c, Sent);
    NewcomerIsUnlisted(s, c, id, nick, s2, r);
    RoomsExist(s, id);
    RoomOfJoinUsers(s, s2, id, r);
    GoesThree(s, c, Sent, Sent, Sent);
    hide Turned, Goes, Membership, Refs, Stands, RoomOfJoin;
    Decides(s2, c, id, nick, r);
  }

  /** With a place in the room: into its table, and the rooms lock let go. */
  lemma EntersAlone(s: State, c: ConnId, id: RoomId, nick: Nick) returns (r: Ref)
    requires Refs(s) && Membership(s) && Stands(s, c, id, nick, JoinWantRooms) && HasPlace(s, id, nick)
    ensures var t := Turned(Goes(s, c, [Sent, Sent, Sent]), c, Sent);
      && Stands(t, c, id, nick, WelcomeWantUsers(r)) && r in t.heap && t.rooms == s.rooms[id := r]
      && t.heap[r].users == UsersOf(s, id)[c := nick]
  {
    r := IsAnswered(s, c, id, nick);
    hide Turned, Goes, Membership, Refs, Stands, HasPlace;
    LetsRoomsGo(Goes(s, c, [Sent, Sent, Sent]), c, id, nick, r);
  }

  lemma LetsRoomsGo(s: State, c: ConnId, id: RoomId, nick: Nick, r: Ref)
    requires Stands(s, c, id, nick, JoinRelease(r))
    ensures var t := Turned(s, c, Sent);
      Stands(t, c, id, nick, WelcomeWantUsers(r)) && t.rooms == s.rooms && t.heap == s.heap
  {
    hide Turned, Owns;
    TurnFrom(s, c, id, nick, JoinRelease(r), Sent);
  }

  lemma RoomsExist(s: State, id: RoomId)
    requires Refs(s)
    ensures id in s.rooms ==> s.rooms[id] in s.heap
  {
  }

  lemma RefusalEnds(s: State, c: ConnId, id: RoomId, nick: Nick, r: Ref)
    requires Stands(s, c, id, nick, RefuseWantUsers(r)) && s.heap[r].users != map[]
    ensures var t := Goes(s, c, [Sent, Sent, Sent]);
      Stands(t, c, id, nick, Done) && t.rooms == s.rooms && t.heap == s.heap
  {
    GoesThree(s, c, Sent, Sent, Sent);
    hide Turned, Goes, Owns;
    TurnFrom(s, c, id, nick, RefuseWantUsers(r), Sent);
    var s4 := Turned(s, c, Sent);
    TurnFrom(s4, c, id, nick, RefuseHasUsers(r), Sent);
    TurnFrom(Turned(s4, c, Sent), c, id, nick, RefuseDecided(r, false), Sent);
  }

  /** Without one: refused, the room and its table as they were. */
  lemma IsRefusedAlone(s: State, c: ConnId, id: RoomId, nick: Nick)
    requires Refs(s) && Membership(s) && Stands(s, c, id, nick, JoinWantRooms) && !HasPlace(s, id, nick)
    ensures var t := Goes(Goes(s, c, [Sent, Sent, Sent]), c, [Sent, Sent, Sent]);
      Stands(t, c, id, nick, Done) && t.rooms == s.rooms && t.heap == s.heap
  {
    var r := IsAnswered(s, c, id, nick);
    var t := Goes(s, c, [Sent, Sent, Sent]);
    assert t.rooms == s.rooms && s.heap[r].users != map[];
    hide Goes, Membership, Refs, Stands, HasPlace;
    RefusalEnds(t, c, id, nick, r);
  }

  lemma AsksToJoin(s: State, c: ConnId, id: RoomId, nick: Nick)
    requires Calm(s) && c in s.sessions && s.sessions[c].phase.Handshake?
    ensures var t := Turned(s, c, Join(id, nick));
      && Stands(t, c, id, nick, JoinWantRooms) && t.rooms == s.rooms && t.heap == s.heap
      && t.sessions == s.sessions[c := Session(id, nick, JoinWantRooms)]
  {
  }

  lemma AskingKeeps(s: State, c: ConnId, id: RoomId, nick: Nick)
    requires Refs(s) && Membership(s) && c in s.sessions && s.sessions[c].phase.Handshake?
    requires Turned(s, c, Join(id, nick)).sessions == s.sessions[c := Session(id, nick, JoinWantRooms)]
    requires Turned(s, c, Join(id, nick)).heap == s.heap && Turned(s, c, Join(id, nick)).rooms == s.rooms
    ensures var t := Turned(s, c, Join(id, nick)); Refs(t) && Membership(t)
  {
    AskingKeepsCount(s, c, id, nick);
    hide Turned;
  }

  lemma AskingKeepsCount(s: State, c: ConnId, id: RoomId, nick: Nick)
    ensures Turned(s, c, Join(id, nick)).nextId == s.nextId
  {
    hide NextRooms, NextHeap, NextPhase;
  }

  const JOINING: seq<Event> := [Sent, Sent, Sent] + [Sent]

  lemma GoesFour(s: State, c: ConnId)
    ensures Goes(s, c, JOINING) == Turned(Goes(s, c, [Sent, Sent, Sent]), c, Sent)
  {
    GoesJoin(s, c, [Sent, Sent, Sent], [Sent]);
    hide Turned;
  }

  /** The whole way in, from the asking. */
  lemma ComesIn(s: State, c: ConnId, id: RoomId, nick: Nick) returns (r: Ref)
    requires Refs(s) && Membership(s) && Stands(s, c, id, nick, JoinWantRooms) && HasPlace(s, id, nick)
    ensures var t := Goes(s, c, JOINING + JOINING + [Sent, Sent, Sent]);
      && Stands(t, c, id, nick, Main(r)) && r in t.heap && t.rooms == s.rooms[id := r]
      && t.heap[r].users == UsersOf(s, id)[c := nick]
  {
    hide Turned, Goes, Refs, Membership, Stands, HasPlace;
    r := EntersAlone(s, c, id, nick);
    GoesFour(s, c);
    var s2 := Goes(s, c, JOINING);
    IsWelcomedAlone(s2, c, id, nick, r);
    GoesFour(s2, c);
    GoesJoin(s, c, JOINING, JOINING);
    IsAnnouncedAlone(Goes(s2, c, JOINING), c, id, nick, r);
    GoesJoin(s, c, JOINING + JOINING, [Sent, Sent, Sent]);
  }

  lemma StandsMeans(s: State, c: ConnId, id: RoomId, nick: Nick, p: Phase)
    requires Stands(s, c, id, nick, p)
    ensures c in s.sessions && s.sessions[c] == Session(id, nick, p)
    ensures p.Main? || p.Done? ==> Calm(s)
  {
  }

  lemma InvMeans(s: State)
    requires Inv(s)
    ensures Refs(s) && Membership(s) && Mapped(s)
  {
  }

  /**
   From every reachable state in which no lock is held: a visitor that asks to join a room
   with a place for it, and is left alone, is talking in it after twelve turns, added to
   whoever was there.
   */
  lemma VisitorJoins(run: seq<Label>, c: ConnId, id: RoomId, nick: Nick)
    requires var s := Exec(run); Calm(s) && c in s.sessions && s.sessions[c].phase.Handshake? && HasPlace(s, id, nick)
    ensures var s := Exec(run);
      var t := Goes(Turned(s, c, Join(id, nick)), c, JOINING + JOINING + [Sent, Sent, Sent]);
      && Calm(t) && id in t.rooms && t.rooms[id] in t.heap
      && c in t.sessions && t.sessions[c] == Session(id, nick, Main(t.rooms[id]))
      && t.heap[t.rooms[id]].users == UsersOf(s, id)[c := nick]
  {
    Reachable(run);
    var s := Exec(run);
    InvMeans(s);
    hide Exec, Inv;
    AsksToJoin(s, c, id, nick);
    AskingKeeps(s, c, id, nick);
    hide Turned, Goes, Refs, Membership, Stands, Calm;
    var s1 := Turned(s, c, Join(id, nick));
    var r := ComesIn(s1, c, id, nick);
    StandsMeans(Goes(s1, c, JOINING + JOINING + [Sent, Sent, Sent]), c, id, nick, Main(r));
  }

  /** And one for which there is none is refused, and nothing changes for anybody. */
  lemma VisitorIsRefused(run: seq<Label>, c: ConnId, id: RoomId, nick: Nick)
    requires var s := Exec(run); Calm(s) && c in s.sessions && s.sessions[c].phase.Handshake? && !HasPlace(s, id, nick)
    ensures var s := Exec(run);
      var t := Goes(Goes(Turned(s, c, Join(id, nick)), c, [Sent, Sent, Sent]), c, [Sent, Sent, Sent]);
      && Calm(t) && c in t.sessions && t.sessions[c] == Session(id, nick, Done)
      && t.rooms == s.rooms && t.heap == s.heap
  {
    Reachable(run);
    var s := Exec(run);
    InvMeans(s);
    hide Exec, Inv;
    AsksToJoin(s, c, id, nick);
    AskingKeeps(s, c, id, nick);
    hide Turned, Goes, Refs, Membership, Stands, Calm;
    var s1 := Turned(s, c, Join(id, nick));
    IsRefusedAlone(s1, c, id, nick);
    StandsMeans(Goes(Goes(s1, c, [Sent, Sent, Sent]), c, [Sent, Sent, Sent]), c, id, nick, Done);
  }

  // ------------------------------------------------------------------- leaving

  /** A member that goes: out of the table first. */
  lemma GoesOutAlone(s: State, c: ConnId, id: RoomId, nick: Nick, r: Ref)
    requires Stands(s, c, id, nick, Main(r))
    ensures var t := Goes(s, c, [Gone, Sent, Sent]);
      && Stands(t, c, id, nick, ReapWantRooms(r)) && t.rooms == s.rooms
      && t.heap == s.heap[r := s.heap[r].(users := s.heap[r].users - {c})]
  {
    GoesThree(s, c, Gone, Sent, Sent);
    hide Turned, Goes, Owns;
    TurnFrom(s, c, id, nick, Main(r), Gone);
    var s1 := Turned(s, c, Gone);
    TurnFrom(s1, c, id, nick, LeaveWantUsers(r), Sent);
    TurnFrom(Turned(s1, c, Sent), c, id, nick, LeaveHasUsers(r), Sent);
  }

  lemma LooksInAlone(s: State, c: ConnId, id: RoomId, nick: Nick, r: Ref)
    requires Stands(s, c, id, nick, ReapWantRooms(r))
    ensures var t := Turned(Turned(s, c, Sent), c, Sent);
      Stands(t, c, id, nick, ReapHasUsers(r)) && t.heap == s.heap && t.rooms == s.rooms
  {
    hide Turned, Owns;
    TurnFrom(s, c, id, nick, ReapWantRooms(r), Sent);
    TurnFrom(Turned(s, c, Sent), c, id, nick, ReapWantUsers(r), Sent);
  }

  lemma LooksAlone(s: State, c: ConnId, id: RoomId, nick: Nick, r: Ref)
    requires Stands(s, c, id, nick, ReapWantRooms(r)) && r in s.heap && id in s.rooms && s.rooms[id] == r
    ensures var t := Turned(Goes(s, c, [Sent, Sent, Sent]), c, Sent);
      && Stands(t, c, id, nick, Done) && t.heap == s.heap
      && t.rooms == if s.heap[r].users == map[] then s.rooms - {id} else s.rooms
  {
    LooksInAlone(s, c, id, nick, r);
    GoesThree(s, c, Sent, Sent, Sent);
    hide Turned, Goes, Stands;
    var s2 := Turned(Turned(s, c, Sent), c, Sent);
    FindsEmptyOrNot(s2, c, id, nick, r);
    ForgetsIfEmpty(Turned(s2, c, Sent), c, id, nick, r, s.heap[r].users == map[]);
  }

  lemma FindsEmptyOrNot(s: State, c: ConnId, id: RoomId, nick: Nick, r: Ref)
    requires Stands(s, c, id, nick, ReapHasUsers(r)) && r in s.heap
    ensures var t := Turned(s, c, Sent);
      Stands(t, c, id, nick, ReapDecided(r, s.heap[r].users == map[])) && t.heap == s.heap && t.rooms == s.rooms
  {
    hide Turned, Owns;
    TurnFrom(s, c, id, nick, ReapHasUsers(r), Sent);
  }

  lemma ForgetsIfEmpty(s: State, c: ConnId, id: RoomId, nick: Nick, r: Ref, empty: bool)
    requires Stands(s, c, id, nick, ReapDecided(r, empty)) && id in s.rooms && s.rooms[id] == r
    ensures var t := Turned(s, c, Sent);
      Stands(t, c, id, nick, Done) && t.heap == s.heap && t.rooms == if empty then s.rooms - {id} else s.rooms
  {
    hide Turned, Owns;
    TurnFrom(s, c, id, nick, ReapDecided(r, empty), Sent);
  }

  lemma GoesAway(s: State, c: ConnId, id: RoomId, nick: Nick, r: Ref)
    requires Stands(s, c, id, nick, Main(r)) && r in s.heap && id in s.rooms && s.rooms[id] == r && c in s.heap[r].users
    ensures var t := Goes(Goes(s, c, [Gone, Sent, Sent]), c, JOINING);
      && Stands(t, c, id, nick, Done) && r in t.heap && t.heap[r].users == s.heap[r].users - {c}
      && t.rooms == if s.heap[r].users.Keys == {c} then s.rooms - {id} else s.rooms
  {
    hide Turned, Goes, Stands;
    GoesOutAlone(s, c, id, nick, r);
    var s1 := Goes(s, c, [Gone, Sent, Sent]);
    LooksAlone(s1, c, id, nick, r);
    GoesFour(s1, c);
    LastOne(s.heap[r].users, c);
  }

  lemma MemberStands(s: State, c: ConnId)
    requires Refs(s) && Membership(s) && Mapped(s) && Calm(s) && c in s.sessions && s.sessions[c].phase.Main?
    ensures var me := s.sessions[c];
      var r := me.phase.r;
      Stands(s, c, me.id, me.nick, Main(r)) && r in s.heap && me.id in s.rooms && s.rooms[me.id] == r
      && c in s.heap[r].users
  {
    assert MappedAt(s, c);
  }

  /**
   From every reachable state in which no lock is held: a member that goes, left alone, is
   out of the table after seven turns, and the room is forgotten exactly when it was the last.
   */
  lemma VisitorLeaves(run: seq<Label>, c: ConnId)
    requires var s := Exec(run); Calm(s) && c in s.sessions && s.sessions[c].phase.Main?
    ensures var s := Exec(run);
      var me := s.sessions[c];
      var r := me.phase.r;
      var t := Goes(Goes(s, c, [Gone, Sent, Sent]), c, JOINING);
      && r in s.heap && r in t.heap && Calm(t) && c in t.sessions && t.sessions[c].phase.Done?
      && t.heap[r].users == s.heap[r].users - {c}
      && t.rooms == if s.heap[r].users.Keys == {c} then s.rooms - {me.id} else s.rooms
  {
    Reachable(run);
    var s := Exec(run);
    InvMeans(s);
    hide Exec, Inv, Turned, Goes, Stands, Refs, Membership, Mapped;
    MemberStands(s, c);
    var me := s.sessions[c];
    GoesAway(s, c, me.id, me.nick, me.phase.r);
    StandsMeans(Goes(Goes(s, c, [Gone, Sent, Sent]), c, JOINING), c, me.id, me.nick, Done);
  }

  lemma LastOne(users: map<ConnId, Nick>, c: ConnId)
    requires c in users
    ensures users - {c} == map[] <==> users.Keys == {c}
  {
    var rest := users - {c};
    assert rest.Keys == users.Keys - {c};
    if users.Keys == {c} {
      assert rest.Keys == {};
      assert rest == map[];
    }
    if rest == map[] {
      assert users.Keys - {c} == {};
      assert users.Keys == {c};
    }
  }
}
