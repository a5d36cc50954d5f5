/**
 The rooms of the HidraChat server, as an interleaving of any number of
 sessions. Every lock acquisition and every await is a step boundary: a step
 takes one lock, or runs the code between two such points. Rooms are shared
 by reference, so a `Ref` stands for the identity of one room state and the
 map of rooms is separate from the heap of room states.
 */
module ChatRooms {
  import opened Options

  const MAX_CLIENTS: nat := 512
  const HISTORY_LIMIT: nat := 200

  type ConnId = nat
  type Ref = nat
  type RoomId = string

  /** A nickname and the form two nicknames are compared in. */
  datatype Nick = Nick(text: string, key: string)

  /** `said` is every message the room ever recorded; the server keeps only `history`. */
  datatype Room = Room(users: map<ConnId, Nick>, history: seq<string>, said: seq<string>)

  /** Where a session is. The comment gives the locks it holds there. */
  datatype Phase =
    | Handshake
    | JoinWantRooms
    | JoinWantUsers(r: Ref)                     // rooms
    | JoinHasUsers(r: Ref)                      // rooms, users
    | JoinRelease(r: Ref)                       // rooms
    | RefuseWantUsers(r: Ref)                   // rooms
    | RefuseHasUsers(r: Ref)                    // rooms, users
    | RefuseDecided(r: Ref, empty: bool)        // rooms
    | WelcomeWantUsers(r: Ref)
    | WelcomeWantHistory(r: Ref)                // users
    | WelcomeHasHistory(r: Ref)                 // users, history
    | WelcomeDropUsers(r: Ref)                  // users
    | WelcomeSending(r: Ref)
    | AnnounceWantUsers(r: Ref)
    | AnnounceHasUsers(r: Ref)                  // users
    | Main(r: Ref)
    | LogWantHistory(r: Ref, msg: string)
    | LogHasHistory(r: Ref, msg: string)        // history
    | LeaveWantUsers(r: Ref)
    | LeaveHasUsers(r: Ref)                     // users
    | ReapWantRooms(r: Ref)
    | ReapWantUsers(r: Ref)                     // rooms
    | ReapHasUsers(r: Ref)                      // rooms, users
    | ReapDecided(r: Ref, empty: bool)          // rooms
    | Done

  datatype Session = Session(id: RoomId, nick: Nick, phase: Phase)

  datatype State = State(
    nextId: nat,
    rooms: map<RoomId, Ref>,
    heap: map<Ref, Room>,
    sessions: map<ConnId, Session>,
    roomsLock: Option<ConnId>,
    usersLock: map<Ref, ConnId>,
    historyLock: map<Ref, ConnId>)

  /** What the outside decides where a session waits for it. */
  datatype Event =
    | Join(id: RoomId, nick: Nick)   // an accepted join request
    | Say(msg: string)               // a chat message to record
    | Sent                           // a write the peer took
    | Gone                           // the peer left, or a write failed

  /** One choice of the scheduler. */
  datatype Label = Connect | Turn(c: ConnId, ev: Event)

  const INIT := State(1, map[], map[], map[], None, map[], map[])

  // ---------------------------------------------------------------- phases

  predicate HasRef(p: Phase) { !p.Handshake? && !p.JoinWantRooms? && !p.Done? }

  predicate HoldsRooms(p: Phase) {
    p.JoinWantUsers? || p.JoinHasUsers? || p.JoinRelease? || p.RefuseWantUsers? || p.RefuseHasUsers?
    || p.RefuseDecided? || p.ReapWantUsers? || p.ReapHasUsers? || p.ReapDecided?
  }

  predicate HoldsUsers(p: Phase) {
    p.JoinHasUsers? || p.RefuseHasUsers? || p.WelcomeWantHistory? || p.WelcomeHasHistory?
    || p.WelcomeDropUsers? || p.AnnounceHasUsers? || p.LeaveHasUsers? || p.ReapHasUsers?
  }

  predicate HoldsHistory(p: Phase) { p.WelcomeHasHistory? || p.LogHasHistory? }

  predicate WantsRooms(p: Phase) { p.JoinWantRooms? || p.ReapWantRooms? }

  predicate WantsUsers(p: Phase) {
    p.JoinWantUsers? || p.RefuseWantUsers? || p.WelcomeWantUsers? || p.AnnounceWantUsers?
    || p.LeaveWantUsers? || p.ReapWantUsers?
  }

  predicate WantsHistory(p: Phase) { p.WelcomeWantHistory? || p.LogWantHistory? }

  /** The session is in its room's user table. */
  predicate IsMember(p: Phase) {
    p.JoinRelease? || p.WelcomeWantUsers? || p.WelcomeWantHistory? || p.WelcomeHasHistory?
    || p.WelcomeDropUsers? || p.WelcomeSending? || p.AnnounceWantUsers? || p.AnnounceHasUsers?
    || p.Main? || p.LogWantHistory? || p.LogHasHistory? || p.LeaveWantUsers? || p.LeaveHasUsers?
  }

  /** The session is inside its join, the rooms lock held, and not yet in the table. */
  predicate IsJoining(p: Phase) {
    p.JoinWantUsers? || p.JoinHasUsers? || p.RefuseWantUsers? || p.RefuseHasUsers? || p.RefuseDecided?
  }

  /** The session will look at whether its room is empty, or has found that it is. */
  predicate OwesLook(p: Phase) {
    p.JoinWantUsers? || p.JoinHasUsers? || p.RefuseWantUsers? || p.RefuseHasUsers?
    || (p.RefuseDecided? && p.empty) || p.ReapWantRooms? || p.ReapWantUsers? || p.ReapHasUsers?
    || (p.ReapDecided? && p.empty)
  }

  // ----------------------------------------------------------------- steps

  /** Not waiting for a lock somebody holds. */
  predicate Enabled(s: State, c: ConnId)
    requires c in s.sessions
  {
    var p := s.sessions[c].phase;
    && (WantsRooms(p) ==> s.roomsLock.None?)
    && (WantsUsers(p) ==> p.r !in s.usersLock)
    && (WantsHistory(p) ==> p.r !in s.historyLock)
  }

  function LastOf(log: seq<string>, n: nat): seq<string> {
    if |log| <= n then log else log[|log| - n..]
  }

  /** hidrachat.rs keeps a room's last messages by popping the front of a deque. */
  method RememberMessage(history: seq<string>, msg: string) returns (kept: seq<string>)
    ensures kept == LastOf(history + [msg], HISTORY_LIMIT)
  {
    kept := history + [msg];
    while |kept| > HISTORY_LIMIT
      invariant |kept| <= |history| + 1
      invariant kept == (history + [msg])[|history| + 1 - |kept|..]
      invariant |kept| >= HISTORY_LIMIT || kept == history + [msg]
    {
      kept := kept[1..];
    }
  }

  predicate NickTaken(room: Room, nick: Nick) {
    exists c :: c in room.users && room.users[c].key == nick.key
  }

  /** A session that may move: it is not blocked, and the room it holds exists. */
  ghost predicate Ready(s: State, c: ConnId) {
    && c in s.sessions
    && Enabled(s, c)
    && (HasRef(s.sessions[c].phase) ==> s.sessions[c].phase.r in s.heap)
  }

  /** The room state the rooms map hands out for an id: the one it holds, or a new one. */
  ghost function RoomFor(s: State, id: RoomId): Ref {
    if id in s.rooms then s.rooms[id] else Fresh(s)
  }

  /** Where the step takes the session. `ev` is read only where the session awaits the outside. */
  ghost function NextPhase(s: State, c: ConnId, ev: Event): Phase
    requires Ready(s, c)
  {
    var me := s.sessions[c];
    match me.phase
    case Handshake => if ev.Join? then JoinWantRooms else Done
    case JoinWantRooms => JoinWantUsers(RoomFor(s, me.id))
    case JoinWantUsers(r) => JoinHasUsers(r)
    case JoinHasUsers(r) =>
      if |s.heap[r].users| >= MAX_CLIENTS || NickTaken(s.heap[r], me.nick) then RefuseWantUsers(r)
      else JoinRelease(r)
    case JoinRelease(r) => WelcomeWantUsers(r)
    case RefuseWantUsers(r) => RefuseHasUsers(r)
    case RefuseHasUsers(r) => RefuseDecided(r, s.heap[r].users == map[])
    case RefuseDecided(r, empty) => Done
    case WelcomeWantUsers(r) => WelcomeWantHistory(r)
    case WelcomeWantHistory(r) => WelcomeHasHistory(r)
    case WelcomeHasHistory(r) => WelcomeDropUsers(r)
    case WelcomeDropUsers(r) => WelcomeSending(r)
    case WelcomeSending(r) => if ev.Sent? then AnnounceWantUsers(r) else LeaveWantUsers(r)
    case AnnounceWantUsers(r) => AnnounceHasUsers(r)
    case AnnounceHasUsers(r) => Main(r)
    case Main(r) =>
      if ev.Say? then LogWantHistory(r, ev.msg) else if ev.Gone? then LeaveWantUsers(r) else Main(r)
    case LogWantHistory(r, m) => LogHasHistory(r, m)
    case LogHasHistory(r, m) => Main(r)
    case LeaveWantUsers(r) => LeaveHasUsers(r)
    case LeaveHasUsers(r) => ReapWantRooms(r)
    case ReapWantRooms(r) => ReapWantUsers(r)
    case ReapWantUsers(r) => ReapHasUsers(r)
    case ReapHasUsers(r) => ReapDecided(r, s.heap[r].users == map[])
    case ReapDecided(r, empty) => Done
    case Done => Done
  }

  /** The rooms map changes where the join makes a room, where a refusal drops one and where a reap does. */
  ghost function NextRooms(s: State, c: ConnId): map<RoomId, Ref>
    requires Ready(s, c)
  {
    var me := s.sessions[c];
    match me.phase
    case JoinWantRooms => s.rooms[me.id := RoomFor(s, me.id)]
    case RefuseDecided(_, empty) => if empty then s.rooms - {me.id} else s.rooms
    case ReapDecided(r, empty) =>
      if empty && me.id in s.rooms && s.rooms[me.id] == r then s.rooms - {me.id} else s.rooms
    case _ => s.rooms
  }

  /** What the step does to the room states; `p'` is where it takes the session. */
  ghost function NextHeap(s: State, c: ConnId, p': Phase): map<Ref, Room>
    requires Ready(s, c)
  {
    var me := s.sessions[c];
    match me.phase
    case JoinWantRooms => if me.id in s.rooms then s.heap else s.heap[Fresh(s) := Room(map[], [], [])]
    case JoinHasUsers(r) =>
      if p'.JoinRelease? then s.heap[r := s.heap[r].(users := s.heap[r].users[c := me.nick])] else s.heap
    case LeaveHasUsers(r) => s.heap[r := s.heap[r].(users := s.heap[r].users - {c})]
    case LogHasHistory(r, m) =>
      s.heap[r := s.heap[r].(history := LastOf(s.heap[r].history + [m], HISTORY_LIMIT), said := s.heap[r].said + [m])]
    case _ => s.heap
  }

  /** A per-room lock after a step: taken where the new phase holds it, dropped where it no longer does. */
  function Relock(locks: map<Ref, ConnId>, c: ConnId, held: Option<Ref>, held': Option<Ref>): map<Ref, ConnId> {
    if held == held' then locks
    else if held'.Some? then locks[held'.value := c]
    else locks - {held.value}
  }

  function UsersHeld(p: Phase): Option<Ref> { if HoldsUsers(p) then Some(p.r) else None }
  function HistoryHeld(p: Phase): Option<Ref> { if HoldsHistory(p) then Some(p.r) else None }

  /** One step of a session. */
  ghost function Step(s: State, c: ConnId, ev: Event): State
    requires Ready(s, c)
  {
    var me := s.sessions[c];
    var p' := NextPhase(s, c, ev);
    State(
      s.nextId,
      NextRooms(s, c),
      NextHeap(s, c, p'),
      s.sessions[c := if me.phase.Handshake? && ev.Join? then Session(ev.id, ev.nick, p') else me.(phase := p')],
      if HoldsRooms(p') then Some(c) else if HoldsRooms(me.phase) then None else s.roomsLock,
      Relock(s.usersLock, c, UsersHeld(me.phase), UsersHeld(p')),
      Relock(s.historyLock, c, HistoryHeld(me.phase), HistoryHeld(p')))
  }

  /** A reference no room state has had: room states are never forgotten here, so the next number is one. */
  ghost function Fresh(s: State): (r: Ref)
    ensures r !in s.heap
  {
    FreshExists(s.heap.Keys);
    var r: Ref :| r !in s.heap;
    r
  }

  lemma FreshExists(refs: set<Ref>)
    ensures exists r: Ref :: r !in refs
  {
    var bound := BoundOf(refs);
    assert bound !in refs;
  }

  ghost function BoundOf(refs: set<Ref>): (b: nat)
    ensures forall r :: r in refs ==> r < b
  {
    if refs == {} then 0
    else
      var r :| r in refs;
      var b := BoundOf(refs - {r});
      assert forall q :: q in refs ==> q == r || q in refs - {r};
      if r < b then b else r + 1
  }

  ghost function Apply(s: State, l: Label): State {
    match l
    case Connect =>
      s.(nextId := s.nextId + 1,
         sessions := s.sessions[s.nextId := Session("", Nick("", ""), Handshake)])
    case Turn(c, ev) =>
      if Ready(s, c) then Step(s, c, ev) else s
  }

  /** The state after a schedule; a label that cannot fire changes nothing. */
  ghost function Exec(run: seq<Label>): State {
    if run == [] then INIT else Apply(Exec(run[..|run| - 1]), run[|run| - 1])
  }

  // ------------------------------------------------------------ invariants

  ghost predicate Refs(s: State) {
    && (forall c :: c in s.sessions ==> c < s.nextId)
    && (forall c :: c in s.sessions && HasRef(s.sessions[c].phase) ==> s.sessions[c].phase.r in s.heap)
    && (forall id :: id in s.rooms ==> s.rooms[id] in s.heap)
    && (forall id, id' :: id in s.rooms && id' in s.rooms && s.rooms[id] == s.rooms[id'] ==> id == id')
  }

  ghost predicate RoomsLockOwned(s: State) {
    && (forall c :: c in s.sessions && HoldsRooms(s.sessions[c].phase) ==> s.roomsLock == Some(c))
    && (s.roomsLock.Some? ==>
          s.roomsLock.value in s.sessions && HoldsRooms(s.sessions[s.roomsLock.value].phase))
  }

  /** A per-room lock is held by exactly the session whose phase says it holds it. */
  ghost predicate Owned(locks: map<Ref, ConnId>, held: map<ConnId, Option<Ref>>) {
    && (forall c :: c in held && held[c].Some? ==> held[c].value in locks && locks[held[c].value] == c)
    && (forall r :: r in locks ==> locks[r] in held && held[locks[r]] == Some(r))
  }

  ghost function UsersHolders(s: State): map<ConnId, Option<Ref>> {
    map c | c in s.sessions :: UsersHeld(s.sessions[c].phase)
  }

  ghost function HistoryHolders(s: State): map<ConnId, Option<Ref>> {
    map c | c in s.sessions :: HistoryHeld(s.sessions[c].phase)
  }

  ghost predicate UsersLockOwned(s: State) { Owned(s.usersLock, UsersHolders(s)) }

  ghost predicate HistoryLockOwned(s: State) { Owned(s.historyLock, HistoryHolders(s)) }

  /** The user tables hold exactly the sessions that are members, each in its own room. */
  ghost predicate Membership(s: State) {
    && (forall c :: c in s.sessions && IsMember(s.sessions[c].phase) ==>
          var r := s.sessions[c].phase.r;
          r in s.heap && c in s.heap[r].users && s.heap[r].users[c] == s.sessions[c].nick)
    && (forall r, c :: r in s.heap && c in s.heap[r].users ==>
          c in s.sessions && IsMember(s.sessions[c].phase) && s.sessions[c].phase.r == r)
  }

  /** A member's room, and the room a session is joining, is the one the map holds under its id. */
  ghost predicate Mapped(s: State) {
    forall c :: MappedAt(s, c)
  }

  ghost predicate MappedAt(s: State, c: ConnId) {
    c in s.sessions && (IsMember(s.sessions[c].phase) || IsJoining(s.sessions[c].phase)) ==>
      s.sessions[c].id in s.rooms && s.rooms[s.sessions[c].id] == s.sessions[c].phase.r
  }

  ghost predicate RoomOk(room: Room) {
    && |room.users| <= MAX_CLIENTS
    && (forall c, d :: c in room.users && d in room.users && c != d ==> room.users[c].key != room.users[d].key)
    && room.history == LastOf(room.said, HISTORY_LIMIT)
  }

  ghost predicate RoomsOk(s: State) {
    forall r :: r in s.heap ==> RoomOk(s.heap[r])
  }

  /** Having found a room empty under the rooms lock stays true until the lock is let go. */
  ghost predicate EmptyStays(s: State) {
    forall c :: c in s.sessions ==>
      var p := s.sessions[c].phase;
      (p.RefuseDecided? || p.ReapDecided?) && p.empty && p.r in s.heap ==> s.heap[p.r].users == map[]
  }

  ghost predicate Owes(s: State, c: ConnId, id: RoomId, r: Ref) {
    c in s.sessions && s.sessions[c].id == id && OwesLook(s.sessions[c].phase) && s.sessions[c].phase.r == r
  }

  /** An empty room in the map has a session that has yet to look at it. */
  ghost predicate EmptyOwed(s: State) {
    forall id :: id in s.rooms && s.rooms[id] in s.heap && s.heap[s.rooms[id]].users == map[] ==>
      exists c :: Owes(s, c, id, s.rooms[id])
  }

  ghost predicate LocksOwned(s: State) {
    Refs(s) && RoomsLockOwned(s) && UsersLockOwned(s) && HistoryLockOwned(s) && RoomsOk(s)
  }

  ghost predicate RoomsTracked(s: State) {
    Membership(s) && Mapped(s) && EmptyStays(s) && EmptyOwed(s)
  }

  ghost predicate Inv(s: State) { LocksOwned(s) && RoomsTracked(s) }

  // ------------------------------------------------- what one step can do

  /** The table of phases: how locks, room and membership follow from one phase to the next. */
  lemma PhaseTable(s: State, c: ConnId, ev: Event)
    requires Ready(s, c)
    ensures var p, p' := s.sessions[c].phase, NextPhase(s, c, ev);
      && (HasRef(p) && HasRef(p') ==> p'.r == p.r)
      && (HasRef(p') && !HasRef(p) ==> p.JoinWantRooms?)
      && (HoldsRooms(p') && !HoldsRooms(p) ==> s.roomsLock.None?)
      && (HoldsUsers(p') && !HoldsUsers(p) ==> p'.r !in s.usersLock)
      && (HoldsHistory(p') && !HoldsHistory(p) ==> p'.r !in s.historyLock)
      && (IsMember(p') && !IsMember(p) <==> p.JoinHasUsers? && p'.JoinRelease?)
      && (IsMember(p) && !IsMember(p') <==> p.LeaveHasUsers?)
  {
  }

  lemma StepKeepsRefs(s: State, c: ConnId, ev: Event)
    requires Refs(s) && Ready(s, c)
    ensures Refs(Step(s, c, ev))
  {
    PhaseTable(s, c, ev);
  }

  lemma StepKeepsRoomsLock(s: State, c: ConnId, ev: Event)
    requires Ready(s, c) && RoomsLockOwned(s)
    ensures RoomsLockOwned(Step(s, c, ev))
  {
    PhaseTable(s, c, ev);
  }

  lemma RelockKeepsOwned(locks: map<Ref, ConnId>, held: map<ConnId, Option<Ref>>, c: ConnId, h: Option<Ref>)
    requires Owned(locks, held) && c in held
    requires h.Some? ==> held[c] == h || (held[c].None? && h.value !in locks)
    ensures Owned(Relock(locks, c, held[c], h), held[c := h])
  {
  }

  lemma UsersHoldersMove(s: State, c: ConnId, s': State)
    requires c in s'.sessions && s'.sessions == s.sessions[c := s'.sessions[c]]
    ensures UsersHolders(s') == UsersHolders(s)[c := UsersHeld(s'.sessions[c].phase)]
  {
  }

  lemma HistoryHoldersMove(s: State, c: ConnId, s': State)
    requires c in s'.sessions && s'.sessions == s.sessions[c := s'.sessions[c]]
    ensures HistoryHolders(s') == HistoryHolders(s)[c := HistoryHeld(s'.sessions[c].phase)]
  {
  }

  lemma StepKeepsUsersLock(s: State, c: ConnId, ev: Event)
    requires Ready(s, c) && UsersLockOwned(s)
    ensures UsersLockOwned(Step(s, c, ev))
  {
    PhaseTable(s, c, ev);
    UsersHoldersMove(s, c, Step(s, c, ev));
    RelockKeepsOwned(s.usersLock, UsersHolders(s), c, UsersHeld(NextPhase(s, c, ev)));
  }

  lemma StepKeepsHistoryLock(s: State, c: ConnId, ev: Event)
    requires Ready(s, c) && HistoryLockOwned(s)
    ensures HistoryLockOwned(Step(s, c, ev))
  {
    PhaseTable(s, c, ev);
    HistoryHoldersMove(s, c, Step(s, c, ev));
    RelockKeepsOwned(s.historyLock, HistoryHolders(s), c, HistoryHeld(NextPhase(s, c, ev)));
  }

  /** Only session `c` moves, and once it has a name and a room id it keeps them. */
  ghost predicate OnlyMoves(s: State, c: ConnId, s': State) {
    && c in s.sessions && c in s'.sessions
    && s'.sessions == s.sessions[c := s'.sessions[c]]
    && var p, p' := s.sessions[c].phase, s'.sessions[c].phase;
    && (HasRef(p) ==> p.r in s.heap)
    && (HasRef(p) && HasRef(p') ==> p'.r == p.r)
    && (HasRef(p') && !HasRef(p) ==> p.JoinWantRooms? && p'.JoinWantUsers?)
    && (IsMember(p') && !IsMember(p) ==> p.JoinHasUsers?)
    && (IsMember(p) && !IsMember(p') ==> p.LeaveHasUsers? && p'.ReapWantRooms?)
    && (IsJoining(p') && !IsJoining(p) ==> p.JoinWantRooms?)
    && (p'.RefuseDecided? || p'.ReapDecided? ==> HasRef(p) && p'.empty == (s.heap[p.r].users == map[]))
    && (p.RefuseDecided? || p.ReapDecided? ==> p'.Done?)
    && (OwesLook(p) && !OwesLook(p') ==>
          IsMember(p') || ((p'.RefuseDecided? || p'.ReapDecided?) && !p'.empty) || p.RefuseDecided? || p.ReapDecided?)
    && (!p.Handshake? ==> s'.sessions[c].id == s.sessions[c].id && s'.sessions[c].nick == s.sessions[c].nick)
  }

  /** Of the user tables, only the session's own entry in its own room moves. */
  ghost predicate TableMoves(s: State, c: ConnId, s': State)
    requires OnlyMoves(s, c, s')
  {
    var p, p' := s.sessions[c].phase, s'.sessions[c].phase;
    && s.heap.Keys <= s'.heap.Keys
    && (forall r :: r in s'.heap && r !in s.heap ==> s'.heap[r].users == map[])
    && (forall r :: r in s.heap && !(HasRef(p) && r == p.r) ==> s'.heap[r] == s.heap[r])
    && (HasRef(p) ==>
          s'.heap[p.r].users ==
            if IsMember(p') && !IsMember(p) then s.heap[p.r].users[c := s.sessions[c].nick]
            else if IsMember(p) && !IsMember(p') then s.heap[p.r].users - {c}
            else s.heap[p.r].users)
  }

  /** The rooms map gains the room of a session that starts its join, or loses one just found empty. */
  ghost predicate RoomsMove(s: State, c: ConnId, s': State)
    requires OnlyMoves(s, c, s')
  {
    var me, p' := s.sessions[c], s'.sessions[c].phase;
    var p := me.phase;
    if p.JoinWantRooms? then
      p'.JoinWantUsers? && s'.rooms == s.rooms[me.id := p'.r] && (me.id in s.rooms ==> s.rooms[me.id] == p'.r)
    else if (p.RefuseDecided? || p.ReapDecided?) && p.empty && me.id in s.rooms && s.rooms[me.id] == p.r then
      s'.rooms == s.rooms - {me.id}
    else s'.rooms == s.rooms
  }

  lemma StepMoves(s: State, c: ConnId, ev: Event)
    requires Refs(s) && Ready(s, c)
    ensures OnlyMoves(s, c, Step(s, c, ev))
  {
    hide NextHeap, NextRooms, Relock, UsersHeld, HistoryHeld, LastOf, NickTaken;
    PhaseTable(s, c, ev);
  }

  lemma StepMovesTable(s: State, c: ConnId, ev: Event)
    requires Refs(s) && Ready(s, c) && OnlyMoves(s, c, Step(s, c, ev))
    ensures TableMoves(s, c, Step(s, c, ev))
  {
    PhaseTable(s, c, ev);
  }

  lemma StepMovesRooms(s: State, c: ConnId, ev: Event)
    requires Refs(s) && Ready(s, c) && Mapped(s)
    ensures OnlyMoves(s, c, Step(s, c, ev)) && RoomsMove(s, c, Step(s, c, ev))
  {
    StepMoves(s, c, ev);
    assert MappedAt(s, c);
  }

  lemma MemberIsListed(s: State, c: ConnId, s': State, d: ConnId)
    requires OnlyMoves(s, c, s') && TableMoves(s, c, s') && Membership(s)
    requires d in s'.sessions && IsMember(s'.sessions[d].phase)
    ensures var r := s'.sessions[d].phase.r;
      r in s'.heap && d in s'.heap[r].users && s'.heap[r].users[d] == s'.sessions[d].nick
  {
  }

  lemma ListedIsMember(s: State, c: ConnId, s': State, r: Ref, d: ConnId)
    requires OnlyMoves(s, c, s') && TableMoves(s, c, s') && Membership(s)
    requires r in s'.heap && d in s'.heap[r].users
    ensures d in s'.sessions && IsMember(s'.sessions[d].phase) && s'.sessions[d].phase.r == r
  {
    assert r in s.heap;
    if d != c {
      assert d in s.heap[r].users;
    }
  }

  lemma MovesKeepMembership(s: State, c: ConnId, s': State)
    requires OnlyMoves(s, c, s') && TableMoves(s, c, s') && Membership(s)
    ensures Membership(s')
  {
    forall d | d in s'.sessions && IsMember(s'.sessions[d].phase)
      ensures var r := s'.sessions[d].phase.r;
        r in s'.heap && d in s'.heap[r].users && s'.heap[r].users[d] == s'.sessions[d].nick
    {
      MemberIsListed(s, c, s', d);
    }
    forall r, d | r in s'.heap && d in s'.heap[r].users
      ensures d in s'.sessions && IsMember(s'.sessions[d].phase) && s'.sessions[d].phase.r == r
    {
      ListedIsMember(s, c, s', r, d);
    }
    hide OnlyMoves, TableMoves, IsMember;
  }

  lemma MoverKeepsMapped(s: State, c: ConnId, s': State)
    requires MappedAt(s, c) && OnlyMoves(s, c, s') && RoomsMove(s, c, s')
    ensures MappedAt(s', c)
  {
  }

  /** Another session's room survives: a room is dropped only when empty, and under a lock no joiner then holds. */
  lemma OthersKeepMapped(s: State, c: ConnId, s': State, d: ConnId)
    requires Refs(s) && Membership(s) && MappedAt(s, d) && EmptyStays(s) && RoomsLockOwned(s)
    requires OnlyMoves(s, c, s') && RoomsMove(s, c, s') && d != c
    ensures MappedAt(s', d)
  {
    if d in s.sessions && s'.rooms != s.rooms {
      var p, q := s.sessions[c].phase, s.sessions[d].phase;
      if p.RefuseDecided? || p.ReapDecided? {
        assert s.heap[p.r].users == map[];
        assert IsMember(q) ==> q.r != p.r;
        assert HoldsRooms(p);
        assert IsJoining(q) ==> HoldsRooms(q);
      }
    }
  }

  lemma MovesKeepMapped(s: State, c: ConnId, s': State)
    requires Refs(s) && Membership(s) && Mapped(s) && EmptyStays(s) && RoomsLockOwned(s)
    requires OnlyMoves(s, c, s') && RoomsMove(s, c, s')
    ensures Mapped(s')
  {
    forall d ensures MappedAt(s', d) {
      assert MappedAt(s, d);
      if d == c { MoverKeepsMapped(s, c, s'); } else { OthersKeepMapped(s, c, s', d); }
    }
    assert forall d :: MappedAt(s', d);
  }

  lemma MovesKeepEmptyStays(s: State, c: ConnId, s': State)
    requires Refs(s) && EmptyStays(s) && RoomsLockOwned(s)
    requires OnlyMoves(s, c, s') && TableMoves(s, c, s')
    ensures EmptyStays(s')
  {
    forall d | d in s'.sessions && (s'.sessions[d].phase.RefuseDecided? || s'.sessions[d].phase.ReapDecided?)
      && s'.sessions[d].phase.empty && s'.sessions[d].phase.r in s'.heap
      ensures s'.heap[s'.sessions[d].phase.r].users == map[]
    {
      if d != c {
        assert HoldsRooms(s.sessions[d].phase) && !HoldsRooms(s.sessions[c].phase);
      }
    }
  }

  /** A session enters the table only when there is room and its name is free. */
  lemma JoinIsFree(s: State, c: ConnId, ev: Event)
    requires Ready(s, c) && s.sessions[c].phase.JoinHasUsers? && NextPhase(s, c, ev).JoinRelease?
    ensures var room := s.heap[s.sessions[c].phase.r];
      |room.users| < MAX_CLIENTS && !NickTaken(room, s.sessions[c].nick)
  {
    hide NickTaken;
  }

  lemma StepKeepsRoomOk(s: State, c: ConnId, ev: Event, r: Ref)
    requires Ready(s, c) && RoomsOk(s) && r in Step(s, c, ev).heap
    ensures RoomOk(Step(s, c, ev).heap[r])
  {
    var me, p' := s.sessions[c], NextPhase(s, c, ev);
    assert Step(s, c, ev).heap == NextHeap(s, c, p');
    if me.phase.JoinHasUsers? && p'.JoinRelease? { JoinIsFree(s, c, ev); }
    hide Step, NextPhase, Enabled, RoomOk, NickTaken, LastOf;
    EmptyRoomOk();
    if HasRef(me.phase) && r == me.phase.r {
      match me.phase
      case JoinHasUsers(_) => if p'.JoinRelease? { JoinKeepsRoomOk(s.heap[r], c, me.nick); }
      case LeaveHasUsers(_) => LeaveKeepsRoomOk(s.heap[r], c);
      case LogHasHistory(_, m) => LogKeepsRoomOk(s.heap[r], m);
      case _ =>
    }
  }

  lemma EmptyRoomOk()
    ensures RoomOk(Room(map[], [], []))
  {
  }

  lemma JoinKeepsRoomOk(room: Room, c: ConnId, nick: Nick)
    requires RoomOk(room) && |room.users| < MAX_CLIENTS && !NickTaken(room, nick)
    ensures RoomOk(room.(users := room.users[c := nick]))
  {
    hide LastOf;
  }

  lemma LeaveKeepsRoomOk(room: Room, c: ConnId)
    requires RoomOk(room)
    ensures RoomOk(room.(users := room.users - {c}))
  {
    hide LastOf;
    SubmapSmaller(room.users, c);
  }

  lemma LogKeepsRoomOk(room: Room, m: string)
    requires RoomOk(room)
    ensures RoomOk(room.(history := LastOf(room.history + [m], HISTORY_LIMIT), said := room.said + [m]))
  {
  }

  lemma SubmapSmaller(users: map<ConnId, Nick>, c: ConnId)
    ensures |users - {c}| <= |users|
  {
    assert (users - {c}).Keys == users.Keys - {c};
    assert |users| == |users.Keys| && |users - {c}| == |(users - {c}).Keys|;
  }

  lemma StepKeepsRoomsOk(s: State, c: ConnId, ev: Event)
    requires Ready(s, c) && RoomsOk(s)
    ensures RoomsOk(Step(s, c, ev))
  {
    forall r | r in Step(s, c, ev).heap ensures RoomOk(Step(s, c, ev).heap[r]) {
      StepKeepsRoomOk(s, c, ev, r);
    }
  }

  /** A room found empty after a step either was empty before, or is the one the session just made or left. */
  lemma EmptyAfterMove(s: State, c: ConnId, s': State, id: RoomId)
    requires Refs(s) && OnlyMoves(s, c, s') && TableMoves(s, c, s') && RoomsMove(s, c, s')
    requires id in s'.rooms && s'.rooms[id] in s'.heap && s'.heap[s'.rooms[id]].users == map[]
    ensures (s.sessions[c].phase.JoinWantRooms? && s.sessions[c].id == id)
      || (id in s.rooms && s.rooms[id] == s'.rooms[id] && s.heap[s.rooms[id]].users == map[])
      || (id in s.rooms && s.rooms[id] == s'.rooms[id] && s.sessions[c].phase.LeaveHasUsers?
          && s.sessions[c].phase.r == s.rooms[id])
  {
  }

  lemma MoverStillOwes(s: State, c: ConnId, s': State, id: RoomId, r: Ref)
    requires OnlyMoves(s, c, s') && RoomsMove(s, c, s') && Membership(s')
    requires Owes(s, c, id, r) && id in s'.rooms && id in s.rooms && s.rooms[id] == r
    requires r in s.heap && r in s'.heap && s.heap[r].users == map[] && s'.heap[r].users == map[]
    ensures Owes(s', c, id, r)
  {
    if HasRef(s'.sessions[c].phase) { EmptyHasNoMember(s', r, c); }
    hide Membership;
  }

  lemma EmptyHasNoMember(s: State, r: Ref, c: ConnId)
    requires Membership(s) && r in s.heap && s.heap[r].users == map[]
    requires c in s.sessions && HasRef(s.sessions[c].phase) && s.sessions[c].phase.r == r
    ensures !IsMember(s.sessions[c].phase)
  {
  }

  lemma OwedAfterMove(s: State, c: ConnId, s': State, id: RoomId)
    requires Refs(s) && Membership(s') && MappedAt(s, c) && EmptyOwed(s)
    requires OnlyMoves(s, c, s') && TableMoves(s, c, s') && RoomsMove(s, c, s')
    requires id in s'.rooms && s'.rooms[id] in s'.heap && s'.heap[s'.rooms[id]].users == map[]
    ensures exists d :: Owes(s', d, id, s'.rooms[id])
  {
    var me, r := s.sessions[c], s'.rooms[id];
    EmptyAfterMove(s, c, s', id);
    if me.phase.JoinWantRooms? && me.id == id {
      assert Owes(s', c, id, r);
    } else if s.heap[r].users == map[] {
      var d :| Owes(s, d, id, r);
      if d == c { MoverStillOwes(s, c, s', id, r); }
      assert Owes(s', d, id, r);
    } else {
      assert Owes(s', c, id, r);
    }
  }

  lemma MovesKeepEmptyOwed(s: State, c: ConnId, s': State)
    requires Refs(s) && Membership(s') && MappedAt(s, c) && EmptyOwed(s)
    requires OnlyMoves(s, c, s') && TableMoves(s, c, s') && RoomsMove(s, c, s')
    ensures EmptyOwed(s')
  {
    forall id | id in s'.rooms && s'.rooms[id] in s'.heap && s'.heap[s'.rooms[id]].users == map[]
      ensures exists d :: Owes(s', d, id, s'.rooms[id])
    {
      OwedAfterMove(s, c, s', id);
    }
  }

  ghost predicate Arrives(s: State, c: ConnId, s': State) {
    && c !in s.sessions
    && s'.sessions == s.sessions[c := Session("", Nick("", ""), Handshake)]
    && s'.rooms == s.rooms && s'.heap == s.heap
  }

  lemma ArrivalKeepsTracked(s: State, c: ConnId, s': State)
    requires RoomsTracked(s) && Arrives(s, c, s')
    ensures RoomsTracked(s')
  {
    assert Membership(s');
    assert EmptyStays(s');
    forall d ensures MappedAt(s', d) { assert MappedAt(s, d); }
    forall id | id in s'.rooms && s'.rooms[id] in s'.heap && s'.heap[s'.rooms[id]].users == map[]
      ensures exists d :: Owes(s', d, id, s'.rooms[id])
    {
      var d :| Owes(s, d, id, s.rooms[id]);
      assert Owes(s', d, id, s'.rooms[id]);
    }
  }

  lemma ArrivalKeepsOwned(s: State, c: ConnId, s': State)
    requires LocksOwned(s) && Arrives(s, c, s') && c == s.nextId && s'.nextId == c + 1
    requires s'.roomsLock == s.roomsLock && s'.usersLock == s.usersLock && s'.historyLock == s.historyLock
    ensures LocksOwned(s')
  {
    UsersHoldersMove(s, c, s');
    HistoryHoldersMove(s, c, s');
    RelockKeepsArrival(s.usersLock, UsersHolders(s), c);
    RelockKeepsArrival(s.historyLock, HistoryHolders(s), c);
    ArrivalKeepsRefs(s, c, s');
  }

  lemma ArrivalKeepsRefs(s: State, c: ConnId, s': State)
    requires Refs(s) && RoomsLockOwned(s) && Arrives(s, c, s') && c == s.nextId && s'.nextId == c + 1
    requires s'.roomsLock == s.roomsLock
    ensures Refs(s') && RoomsLockOwned(s')
  {
  }

  lemma RelockKeepsArrival(locks: map<Ref, ConnId>, held: map<ConnId, Option<Ref>>, c: ConnId)
    requires Owned(locks, held) && c !in held
    ensures Owned(locks, held[c := None])
  {
  }

  lemma ConnectKeepsInv(s: State)
    requires Inv(s)
    ensures Inv(Apply(s, Connect))
  {
    ArrivalKeepsOwned(s, s.nextId, Apply(s, Connect));
    ArrivalKeepsTracked(s, s.nextId, Apply(s, Connect));
  }

  lemma StepKeepsOwned(s: State, c: ConnId, ev: Event)
    requires LocksOwned(s) && Ready(s, c)
    ensures LocksOwned(Step(s, c, ev))
  {
    StepKeepsRefs(s, c, ev);
    StepKeepsRoomsLock(s, c, ev);
    StepKeepsUsersLock(s, c, ev);
    StepKeepsHistoryLock(s, c, ev);
    StepKeepsRoomsOk(s, c, ev);
  }

  lemma MovesKeepTracked(s: State, c: ConnId, s': State)
    requires Refs(s) && RoomsLockOwned(s) && RoomsTracked(s)
    requires OnlyMoves(s, c, s') && TableMoves(s, c, s') && RoomsMove(s, c, s')
    ensures RoomsTracked(s')
  {
    MovesKeepMembership(s, c, s');
    MovesKeepMapped(s, c, s');
    MovesKeepEmptyStays(s, c, s');
    assert MappedAt(s, c);
    MovesKeepEmptyOwed(s, c, s');
  }

  lemma StepKeepsInv(s: State, c: ConnId, ev: Event)
    requires Inv(s) && Ready(s, c)
    ensures Inv(Step(s, c, ev))
  {
    StepKeepsOwned(s, c, ev);
    StepMovesRooms(s, c, ev);
    StepMovesTable(s, c, ev);
    MovesKeepTracked(s, c, Step(s, c, ev));
  }

  /** The invariants hold after every schedule. */
  lemma {:induction false} Reachable(run: seq<Label>)
    ensures Inv(Exec(run))
  {
    if run != [] {
      Reachable(run[..|run| - 1]);
      var s, l := Exec(run[..|run| - 1]), run[|run| - 1];
      if l.Connect? { ConnectKeepsInv(s); } else if Ready(s, l.c) { StepKeepsInv(s, l.c, l.ev); }
    }
  }

  // -------------------------------------------------------------- theorems

  /**
   Whatever the sessions do and in whatever order: a room state with a member
   in it is the one the map holds under that member's room id, it has at most
   512 members, no two of them under one name, and its history is the last
   200 messages said in it.
   */
  lemma NoOrphans(run: seq<Label>, r: Ref, c: ConnId)
    requires var s := Exec(run); r in s.heap && c in s.heap[r].users
    ensures var s := Exec(run);
      && c in s.sessions
      && s.heap[r].users[c] == s.sessions[c].nick
      && s.sessions[c].id in s.rooms && s.rooms[s.sessions[c].id] == r
      && |s.heap[r].users| <= MAX_CLIENTS
      && (forall d :: d in s.heap[r].users && d != c ==> s.heap[r].users[d].key != s.heap[r].users[c].key)
      && s.heap[r].history == LastOf(s.heap[r].said, HISTORY_LIMIT)
  {
    Reachable(run);
    assert MappedAt(Exec(run), c);
  }

  /** Nobody is deciding a join or has yet to look at whether a room is empty. */
  ghost predicate AtRest(s: State) {
    forall c :: c in s.sessions ==> !OwesLook(s.sessions[c].phase)
  }

  lemma RestingRoom(s: State, r: Ref)
    requires RoomsTracked(s) && AtRest(s) && r in s.heap
    ensures r in s.rooms.Values <==> s.heap[r].users != map[]
  {
    if s.heap[r].users != map[] {
      var c :| c in s.heap[r].users;
      assert MappedAt(s, c);
    }
  }

  /** At rest, whoever is being welcomed, talking or leaving, the map holds exactly the rooms somebody is in. */
  lemma AtRestMapIsNonEmptyRooms(run: seq<Label>, r: Ref)
    requires AtRest(Exec(run)) && r in Exec(run).heap
    ensures r in Exec(run).rooms.Values <==> Exec(run).heap[r].users != map[]
  {
    Reachable(run);
    RestingRoom(Exec(run), r);
  }

  /** Even in mid-flight, an empty room in the map has a session that has yet to look at it. */
  lemma EmptyRoomIsOwed(run: seq<Label>, id: RoomId)
    requires id in Exec(run).rooms && Exec(run).rooms[id] in Exec(run).heap
    requires Exec(run).heap[Exec(run).rooms[id]].users == map[]
    ensures exists c :: Owes(Exec(run), c, id, Exec(run).rooms[id])
  {
    Reachable(run);
  }

  /** The session holding the lock another waits for, following the order rooms, users, history. */
  ghost function Holder(s: State, c: ConnId): ConnId
    requires c in s.sessions && !Enabled(s, c)
  {
    var p := s.sessions[c].phase;
    if WantsRooms(p) then s.roomsLock.value
    else if WantsUsers(p) then s.usersLock[p.r]
    else s.historyLock[p.r]
  }

  /** How many locks a phase may still have to wait for in its chain. */
  function Rank(p: Phase): nat {
    if WantsRooms(p) then 3 else if WantsUsers(p) then 2 else if WantsHistory(p) then 1 else 0
  }

  lemma LockOrder(p: Phase)
    ensures HoldsRooms(p) ==> Rank(p) < 3
    ensures HoldsUsers(p) ==> Rank(p) < 2
    ensures HoldsHistory(p) ==> Rank(p) < 1
  {
  }

  /** A blocked session's holder waits, if at all, further down the lock order. */
  lemma HolderIsFurther(s: State, c: ConnId)
    requires RoomsLockOwned(s) && UsersLockOwned(s) && HistoryLockOwned(s)
    requires c in s.sessions && !Enabled(s, c)
    ensures Holder(s, c) in s.sessions
    ensures Rank(s.sessions[Holder(s, c)].phase) < Rank(s.sessions[c].phase)
    ensures HoldsSome(s.sessions[Holder(s, c)].phase)
  {
    var p := s.sessions[c].phase;
    LockOrder(s.sessions[Holder(s, c)].phase);
    if WantsUsers(p) {
      assert UsersHolders(s)[s.usersLock[p.r]] == Some(p.r);
    } else if WantsHistory(p) {
      assert HistoryHolders(s)[s.historyLock[p.r]] == Some(p.r);
    }
  }

  predicate HoldsSome(p: Phase) { HoldsRooms(p) || HoldsUsers(p) || HoldsHistory(p) }

  lemma {:induction false} Unblocker(s: State, c: ConnId) returns (d: ConnId)
    requires RoomsLockOwned(s) && UsersLockOwned(s) && HistoryLockOwned(s) && c in s.sessions
    ensures d in s.sessions && Enabled(s, d)
    ensures d == c || HoldsSome(s.sessions[d].phase)
    decreases Rank(s.sessions[c].phase)
  {
    if Enabled(s, c) {
      d := c;
    } else {
      HolderIsFurther(s, c);
      d := Unblocker(s, Holder(s, c));
    }
  }

  /** The live sessions are never all blocked: if one waits for a lock, a holder of some lock can move. */
  lemma NoDeadlock(run: seq<Label>, c: ConnId)
    requires c in Exec(run).sessions && !Enabled(Exec(run), c)
    ensures exists d :: d in Exec(run).sessions && Enabled(Exec(run), d) && HoldsSome(Exec(run).sessions[d].phase)
  {
    Reachable(run);
    var d := Unblocker(Exec(run), c);
  }
}
