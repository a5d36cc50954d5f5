/**
 A hidden service's event loop: one sealed client session, one connection to the
 local server at a time. A session is numbered by its answered hello; a message is
 sealed for one session at one count and opens for no other.
 */
module HiddenSessions {
  import opened ByteStrings
  import opened Options

  const BUFFER: nat := 16384
  const MAX_DATA: nat := 2034
  const SEAL_OVERHEAD: nat := 16
  const PIECE: nat := MAX_DATA - SEAL_OVERHEAD

  datatype Raw = Hello | Sealed(session: nat, count: nat, data: Bytes) | Noise

  /**
   What the loop is woken by, with how each call it then makes turns out: whether the
   hello could be answered and the answer sent, whether the connect succeeded, after
   how many bytes a write failed, and how many pieces could be sealed and sent.
   */
  datatype Event =
    | FromClient(raw: Raw, answered: bool, answerSent: bool, connects: bool, cutAt: Option<nat>)
    | ClientGone
    | FromServer(bytes: Bytes, sendable: nat)
    | ServerDone(endSent: bool)
    | Stop

  /** The channel of an answered hello, and how many messages it has opened. */
  datatype Session = Session(id: nat, count: nat)

  /**
   One connection to the local server: whose it is, from which message on, what was written
   whole, what of a last one.
   */
  datatype Connection = Connection(session: nat, first: nat, whole: seq<Bytes>, cut: Option<Bytes>)

  /**
   The loop's variables, and what the outside has seen, by session: the messages
   opened, the bytes of them that were dropped, the bytes read from the local server
   and the pieces sent back.
   */
  datatype State = State(
    session: Option<Session>,
    local: Option<nat>,
    running: bool,
    conns: seq<Connection>,
    messages: seq<seq<Bytes>>,
    dropped: seq<nat>,
    fromServer: seq<Bytes>,
    pieces: seq<seq<Bytes>>)

  const START: State := State(None, None, true, [], [], [], [], [])

  // ---------------------------------------------------------------------- steps

  function Chunks(b: Bytes, size: nat): seq<Bytes>
    requires size > 0
  {
    if |b| == 0 then [] else if |b| <= size then [b] else [b[..size]] + Chunks(b[size..], size)
  }

  function Min(a: nat, b: nat): nat { if a < b then a else b }

  function AnswerHello(s: State): State {
    s.(session := Some(Session(|s.messages|, 0)), local := None,
       messages := s.messages + [[]], dropped := s.dropped + [0],
       fromServer := s.fromServer + [[]], pieces := s.pieces + [[]])
  }

  predicate Opens(ch: Session, raw: Raw) {
    raw.Sealed? && raw.session == ch.id && raw.count == ch.count
  }

  /** The message counts as opened; nothing is written yet. */
  function Opened(s: State, data: Bytes): State
    requires s.session.Some? && s.session.value.id < |s.messages|
  {
    var k := s.session.value.id;
    s.(session := Some(Session(k, s.session.value.count + 1)), messages := s.messages[k := s.messages[k] + [data]])
  }

  function Dropped(s: State, k: nat, n: nat): State
    requires k < |s.dropped|
  {
    s.(dropped := s.dropped[k := s.dropped[k] + n])
  }

  function Connected(s: State): State
    requires s.session.Some? && s.session.value.count > 0
  {
    if s.local.Some? then s
    else s.(local := Some(|s.conns|),
            conns := s.conns + [Connection(s.session.value.id, s.session.value.count - 1, [], None)])
  }

  /** The message written whole, or cut where the write failed. */
  function Written(s: State, data: Bytes, cutAt: Option<nat>): State
    requires s.local.Some? && s.local.value < |s.conns|
    requires s.conns[s.local.value].session < |s.dropped|
  {
    var c := s.conns[s.local.value];
    if cutAt.None? then s.(conns := s.conns[s.local.value := c.(whole := c.whole + [data])])
    else
      var n := Min(cutAt.value, |data|);
      Dropped(s.(conns := s.conns[s.local.value := c.(cut := Some(data[..n]))], local := None), c.session, |data| - n)
  }

  function OnMessage(s: State, data: Bytes, connects: bool, cutAt: Option<nat>): State
    requires Valid(s) && s.session.Some?
  {
    var o := Opened(s, data);
    if s.local.None? && !connects then Dropped(o, s.session.value.id, |data|)
    else Written(Connected(o), data, cutAt)
  }

  function OnServerBytes(s: State, bytes: Bytes, sendable: nat): State
    requires Valid(s) && s.session.Some?
  {
    var k := s.session.value.id;
    var all := Chunks(bytes, PIECE);
    var n := Min(sendable, |all|);
    s.(fromServer := s.fromServer[k := s.fromServer[k] + bytes],
       pieces := s.pieces[k := s.pieces[k] + all[..n]], running := n == |all|)
  }

  /** One turn of the loop; a read from the local server waits for ever while there is none. */
  function Step(s: State, ev: Event): State
    requires Valid(s)
  {
    if !s.running then s
    else match ev
      case FromClient(raw, answered, answerSent, connects, cutAt) =>
        if raw.Hello? then
          if !answered then s.(local := None)
          else if !answerSent then s.(local := None, running := false)
          else AnswerHello(s)
        else if s.session.None? then s
        else if !Opens(s.session.value, raw) then s.(session := None, local := None)
        else OnMessage(s, raw.data, connects, cutAt)
      case ClientGone => s.(running := false)
      case FromServer(bytes, sendable) =>
        if s.local.None? || s.session.None? || |bytes| == 0 || |bytes| > BUFFER then s
        else OnServerBytes(s, bytes, sendable)
      case ServerDone(endSent) =>
        if s.local.None? then s
        else s.(local := None, running := !(s.session.Some? && !endSent))
      case Stop => s.(running := false)
  }

  // ------------------------------------------------------------------ invariants

  function Until(c: Connection): nat { c.first + |c.whole| + if c.cut.Some? then 1 else 0 }

  /** The connection carries a contiguous run of the messages of its one session, the last possibly cut. */
  predicate CarriesRun(c: Connection, messages: seq<seq<Bytes>>) {
    && c.session < |messages| && Until(c) <= |messages[c.session]|
    && c.whole == messages[c.session][c.first..c.first + |c.whole|]
    && (c.cut.Some? ==> c.cut.value <= messages[c.session][c.first + |c.whole|])
  }

  predicate Earlier(c: Connection, d: Connection) {
    c.session < d.session || (c.session == d.session && Until(c) <= d.first)
  }

  /** Every local connection belongs to one session, in order, and no two share a message. */
  predicate ConnectionsHold(conns: seq<Connection>, messages: seq<seq<Bytes>>) {
    && (forall i :: 0 <= i < |conns| ==> CarriesRun(conns[i], messages))
    && (forall i, j :: 0 <= i < j < |conns| ==> Earlier(conns[i], conns[j]))
  }

  /** The open connection is the last one, of the session in force, and has everything up to now. */
  predicate LocalHolds(s: State) {
    s.local.Some? ==>
      && s.session.Some? && s.local.value == |s.conns| - 1
      && s.conns[s.local.value].session == s.session.value.id
      && s.conns[s.local.value].cut.None?
      && Until(s.conns[s.local.value]) == s.session.value.count
  }

  predicate SessionHolds(s: State) {
    && |s.dropped| == |s.messages| && |s.fromServer| == |s.messages| && |s.pieces| == |s.messages|
    && (s.session.Some? ==>
          s.session.value.id == |s.messages| - 1 && s.session.value.count == |s.messages[s.session.value.id]|)
  }

  predicate Valid(s: State) {
    SessionHolds(s) && ConnectionsHold(s.conns, s.messages) && LocalHolds(s)
  }

  lemma MoreMessages(c: Connection, messages: seq<seq<Bytes>>, k: nat, data: Bytes)
    requires CarriesRun(c, messages) && k < |messages|
    ensures CarriesRun(c, messages[k := messages[k] + [data]])
  {
    if c.session == k {
      var more := messages[k] + [data];
      assert more[c.first..c.first + |c.whole|] == messages[k][c.first..c.first + |c.whole|];
    }
  }

  lemma MoreMessagesHold(s: State, data: Bytes)
    requires Valid(s) && s.session.Some?
    ensures ConnectionsHold(s.conns, Opened(s, data).messages)
  {
    hide CarriesRun, Earlier;
    var k := s.session.value.id;
    forall i | 0 <= i < |s.conns| ensures CarriesRun(s.conns[i], s.messages[k := s.messages[k] + [data]]) {
      MoreMessages(s.conns[i], s.messages, k, data);
    }
  }

  lemma NewSessionHolds(s: State)
    requires Valid(s)
    ensures Valid(AnswerHello(s))
  {
    forall i | 0 <= i < |s.conns| ensures CarriesRun(s.conns[i], s.messages + [[]]) {
    }
  }

  /** The last connection replaced by one that reaches further. */
  lemma LastReplaced(conns: seq<Connection>, messages: seq<seq<Bytes>>, c: Connection)
    requires ConnectionsHold(conns, messages) && |conns| > 0 && CarriesRun(c, messages)
    requires c.session == conns[|conns| - 1].session && c.first == conns[|conns| - 1].first
    ensures ConnectionsHold(conns[|conns| - 1 := c], messages)
  {
    hide CarriesRun;
    var last := |conns| - 1;
    var more := conns[last := c];
    forall i, j | 0 <= i < j < |more| ensures Earlier(more[i], more[j]) {
      assert Earlier(conns[i], conns[j]);
    }
  }

  lemma ConnectionAdded(conns: seq<Connection>, messages: seq<seq<Bytes>>, c: Connection)
    requires ConnectionsHold(conns, messages) && CarriesRun(c, messages)
    requires forall i :: 0 <= i < |conns| ==> Earlier(conns[i], c)
    ensures ConnectionsHold(conns + [c], messages)
  {
    hide CarriesRun, Earlier;
  }

  /** After the connect, the connection is one message behind. */
  predicate Ready(s: State) {
    && SessionHolds(s) && ConnectionsHold(s.conns, s.messages) && s.session.Some? && s.session.value.count > 0
    && s.local.Some? && s.local.value == |s.conns| - 1
    && s.conns[s.local.value].session == s.session.value.id && s.conns[s.local.value].cut.None?
    && Until(s.conns[s.local.value]) == s.session.value.count - 1
  }

  lemma ConnectedIsReady(s: State, data: Bytes)
    requires Valid(s) && s.session.Some?
    ensures Ready(Connected(Opened(s, data)))
  {
    MoreMessagesHold(s, data);
    var o := Opened(s, data);
    if s.local.None? {
      var c := Connection(s.session.value.id, s.session.value.count, [], None);
      forall i | 0 <= i < |s.conns| ensures Earlier(s.conns[i], c) {
        assert CarriesRun(s.conns[i], s.messages);
      }
      ConnectionAdded(s.conns, o.messages, c);
    }
  }

  lemma WrittenIsValid(s: State, data: Bytes, cutAt: Option<nat>)
    requires Ready(s) && data == s.messages[s.session.value.id][s.session.value.count - 1]
    ensures Valid(Written(s, data, cutAt))
  {
    var c := s.conns[s.local.value];
    var after := if cutAt.None? then c.(whole := c.whole + [data]) else c.(cut := Some(data[..Min(cutAt.value,
      |data|)]));
    var run := s.messages[c.session];
    assert CarriesRun(c, s.messages);
    assert run[c.first..c.first + |c.whole| + 1] == run[c.first..c.first + |c.whole|] + [data];
    assert CarriesRun(after, s.messages);
    hide CarriesRun;
    LastReplaced(s.conns, s.messages, after);
  }

  /** Every turn of the loop keeps the connections in order and in one session each. */
  lemma StepIsValid(s: State, ev: Event)
    requires Valid(s)
    ensures Valid(Step(s, ev))
  {
    hide ConnectionsHold, Opened, Written, Connected, Chunks;
    if s.running && ev.FromClient? {
      if ev.raw.Hello? {
        NewSessionHolds(s);
      } else if s.session.Some? && Opens(s.session.value, ev.raw) {
        MessageIsValid(s, ev.raw.data, ev.connects, ev.cutAt);
      }
    }
  }

  lemma MessageIsValid(s: State, data: Bytes, connects: bool, cutAt: Option<nat>)
    requires Valid(s) && s.session.Some?
    ensures Valid(OnMessage(s, data, connects, cutAt))
  {
    if s.local.None? && !connects {
      MoreMessagesHold(s, data);
    } else {
      hide ConnectionsHold;
      ConnectedIsReady(s, data);
      var o := Connected(Opened(s, data));
      assert o.messages == Opened(s, data).messages;
      WrittenIsValid(o, data, cutAt);
    }
  }

  // ------------------------------------------------------------------- whole runs

  function Run(events: seq<Event>): (s: State)
    ensures Valid(s)
  {
    if |events| == 0 then START
    else
      var s := Run(events[..|events| - 1]);
      StepIsValid(s, events[|events| - 1]);
      Step(s, events[|events| - 1])
  }

  /**
   In every run: nothing reaches the local server before a hello is answered, and each
   connection carries a contiguous run of the opened messages of exactly one session.
   */
  lemma ConnectionsCarryRuns(events: seq<Event>)
    ensures var s := Run(events);
      && (forall c :: c in s.conns ==> CarriesRun(c, s.messages))
      && (|s.messages| == 0 ==> s.conns == [])
      && (s.local.Some? ==> s.session.Some?)
      && (forall i, j :: 0 <= i < j < |s.conns| ==> Earlier(s.conns[i], s.conns[j]))
  {
    hide CarriesRun;
    var s := Run(events);
    if |s.conns| > 0 {
      assert CarriesRun(s.conns[0], s.messages);
      RunNeedsSession(s.conns[0], s.messages);
    }
  }

  lemma RunNeedsSession(c: Connection, messages: seq<seq<Bytes>>)
    requires CarriesRun(c, messages)
    ensures |messages| > 0
  {
  }

  /** Sessions only begin with an answered hello, one each. */
  ghost function Hellos(events: seq<Event>): nat {
    if |events| == 0 then 0
    else
      var ev := events[|events| - 1];
      Hellos(events[..|events| - 1]) +
        if Run(events[..|events| - 1]).running && ev.FromClient? && ev.raw.Hello? && ev.answered &&
          ev.answerSent then 1 else 0
  }

  lemma {:induction false} SessionsAreHellos(events: seq<Event>)
    ensures |Run(events).messages| == Hellos(events)
  {
    if |events| > 0 {
      SessionsAreHellos(events[..|events| - 1]);
      StepSessions(Run(events[..|events| - 1]), events[|events| - 1]);
    }
  }

  lemma StepSessions(s: State, ev: Event)
    requires Valid(s)
    ensures |Step(s, ev).messages| == |s.messages| +
      if s.running && ev.FromClient? && ev.raw.Hello? && ev.answered && ev.answerSent then 1 else 0
  {
    hide ConnectionsHold, Chunks;
  }

  // ------------------------------------------------- what arrives, what is dropped

  function BytesOf(c: Connection): Bytes {
    Concat(c.whole) + if c.cut.Some? then c.cut.value else []
  }

  /** What the local server was given of session k, over all its connections. */
  function Delivered(conns: seq<Connection>, k: nat): Bytes {
    if |conns| == 0 then []
    else
      var last := conns[|conns| - 1];
      Delivered(conns[..|conns| - 1], k) + (if last.session == k then BytesOf(last) else [])
  }

  /** Bytes opened are bytes delivered, in order, plus bytes dropped. */
  predicate ConservedAt(conns: seq<Connection>, run: seq<Bytes>, dropped: nat, k: nat) {
    && |Delivered(conns, k)| + dropped == |Concat(run)|
    && (dropped == 0 ==> Delivered(conns, k) == Concat(run))
  }

  predicate Conserved(s: State)
    requires SessionHolds(s)
  {
    forall k :: 0 <= k < |s.messages| ==> ConservedAt(s.conns, s.messages[k], s.dropped[k], k)
  }

  lemma ConcatSnoc(run: seq<Bytes>, b: Bytes)
    ensures Concat(run + [b]) == Concat(run) + b
  {
    assert (run + [b])[..|run|] == run;
  }

  lemma DeliveredLast(conns: seq<Connection>, c: Connection, k: nat)
    requires |conns| > 0 && c.session == conns[|conns| - 1].session
    ensures Delivered(conns[|conns| - 1 := c], k) ==
      Delivered(conns[..|conns| - 1], k) + if c.session == k then BytesOf(c) else []
  {
    assert conns[|conns| - 1 := c][..|conns| - 1] == conns[..|conns| - 1];
  }

  lemma DeliveredNew(conns: seq<Connection>, k: nat, id: nat, first: nat)
    ensures Delivered(conns + [Connection(id, first, [], None)], k) == Delivered(conns, k)
  {
    assert (conns + [Connection(id, first, [], None)])[..|conns|] == conns;
  }

  lemma {:induction false} DeliveredNone(conns: seq<Connection>, messages: seq<seq<Bytes>>, k: nat)
    requires k >= |messages| && forall i :: 0 <= i < |conns| ==> CarriesRun(conns[i], messages)
    ensures Delivered(conns, k) == []
  {
    if |conns| > 0 { DeliveredNone(conns[..|conns| - 1], messages, k); }
  }

  lemma HelloConserves(s: State)
    requires Valid(s) && Conserved(s)
    ensures SessionHolds(AnswerHello(s)) && Conserved(AnswerHello(s))
  {
    hide CarriesRun;
    DeliveredNone(s.conns, s.messages, |s.messages|);
    forall k | 0 <= k < |s.messages| ensures ConservedAt(s.conns, s.messages[k], s.dropped[k], k) {
    }
  }

  lemma DropConserves(s: State, data: Bytes)
    requires Valid(s) && Conserved(s) && s.session.Some?
    ensures var t := Dropped(Opened(s, data), s.session.value.id, |data|); SessionHolds(t) && Conserved(t)
  {
    hide ConnectionsHold, Delivered, Concat;
    var k := s.session.value.id;
    ConcatSnoc(s.messages[k], data);
    assert ConservedAt(s.conns, s.messages[k], s.dropped[k], k);
  }

  /** One message more, and its bytes split between the connection and the floor. */
  lemma GrowConserves(s: State, conns: seq<Connection>, data: Bytes, kept: Bytes, n: nat, t: State)
    requires SessionHolds(s) && Conserved(s) && s.session.Some? && SessionHolds(t)
    requires forall k :: Delivered(conns, k) == Delivered(s.conns, k) + if k == s.session.value.id then kept else []
    requires |kept| + n == |data| && (n == 0 ==> kept == data)
    requires t.messages == s.messages[s.session.value.id := s.messages[s.session.value.id] + [data]]
    requires t.dropped == s.dropped[s.session.value.id := s.dropped[s.session.value.id] + n] && t.conns == conns
    ensures Conserved(t)
  {
    hide Delivered, Concat;
    var id := s.session.value.id;
    ConcatSnoc(s.messages[id], data);
    forall k | 0 <= k < |t.messages| ensures ConservedAt(t.conns, t.messages[k], t.dropped[k], k) {
      assert ConservedAt(s.conns, s.messages[k], s.dropped[k], k);
    }
  }

  lemma WriteDelivers(s: State, data: Bytes, cutAt: Option<nat>, k: nat)
    requires Ready(s)
    ensures Delivered(Written(s, data, cutAt).conns, k) == Delivered(s.conns, k) +
      if k == s.session.value.id then (if cutAt.None? then data else data[..Min(cutAt.value, |data|)]) else []
  {
    hide ConnectionsHold, BytesOf, Delivered, Until, Concat;
    var c := s.conns[s.local.value];
    var after := Written(s, data, cutAt).conns[s.local.value];
    var kept := if cutAt.None? then data else data[..Min(cutAt.value, |data|)];
    BytesGrow(c, data, kept);
    DeliveredLast(s.conns, c, k);
    DeliveredLast(s.conns, after, k);
    assert s.conns[s.local.value := c] == s.conns;
    ThreeParts(Delivered(s.conns[..|s.conns| - 1], k), BytesOf(c), kept);
  }

  lemma BytesGrow(c: Connection, data: Bytes, kept: Bytes)
    requires c.cut.None?
    ensures BytesOf(c.(whole := c.whole + [data])) == BytesOf(c) + data
    ensures BytesOf(c.(cut := Some(kept))) == BytesOf(c) + kept
  {
    ConcatSnoc(c.whole, data);
    hide Concat;
  }

  lemma WriteConserves(s: State, data: Bytes, connects: bool, cutAt: Option<nat>)
    requires Valid(s) && Conserved(s) && s.session.Some? && (s.local.Some? || connects)
    ensures Valid(OnMessage(s, data, connects, cutAt)) && Conserved(OnMessage(s, data, connects, cutAt))
  {
    hide ConnectionsHold, Delivered, Concat, Conserved;
    var o := Connected(Opened(s, data));
    var t := OnMessage(s, data, connects, cutAt);
    ConnectedIsReady(s, data);
    MessageIsValid(s, data, connects, cutAt);
    var kept := if cutAt.None? then data else data[..Min(cutAt.value, |data|)];
    forall k: nat ensures Delivered(t.conns, k) == Delivered(s.conns,
      k) + if k == s.session.value.id then kept else [] {
      WriteDelivers(o, data, cutAt, k);
      DeliveredNew(s.conns, k, s.session.value.id, s.session.value.count);
    }
    SameDrops(s, data, connects, cutAt);
    GrowConserves(s, t.conns, data, kept, |data| - |kept|, t);
  }

  lemma SameDrops(s: State, data: Bytes, connects: bool, cutAt: Option<nat>)
    requires Valid(s) && s.session.Some? && (s.local.Some? || connects)
    ensures var id, t := s.session.value.id, OnMessage(s, data, connects, cutAt);
      && t.messages == s.messages[id := s.messages[id] + [data]]
      && t.dropped == s.dropped[id := s.dropped[id] + if cutAt.None? then 0 else |data| - Min(cutAt.value, |data|)]
  {
    hide ConnectionsHold;
    assert s.dropped[s.session.value.id := s.dropped[s.session.value.id] + 0] == s.dropped;
  }

  lemma StepConserves(s: State, ev: Event)
    requires Valid(s) && Conserved(s)
    ensures Valid(Step(s, ev)) && Conserved(Step(s, ev))
  {
    StepIsValid(s, ev);
    if s.running && ev.FromClient? && ev.raw.Hello? {
      HelloConserves(s);
    } else if s.running && ev.FromClient? && s.session.Some? && Opens(s.session.value, ev.raw) {
      if s.local.None? && !ev.connects {
        DropConserves(s, ev.raw.data);
      } else {
        WriteConserves(s, ev.raw.data, ev.connects, ev.cutAt);
      }
    } else {
      hide ConnectionsHold, Delivered, Concat, ConservedAt, Chunks, OnMessage;
    }
  }

  lemma {:induction false} RunsConserve(events: seq<Event>)
    ensures Conserved(Run(events))
  {
    hide Step, Conserved;
    if |events| > 0 {
      RunsConserve(events[..|events| - 1]);
      StepConserves(Run(events[..|events| - 1]), events[|events| - 1]);
    } else {
      NothingIsConserved();
    }
  }

  lemma NothingIsConserved()
    ensures Conserved(START)
  {
  }

  /**
   The event brings a message of session k that opens, and the call that should take its
   bytes fails: no connection and the connect refused, or the write cut before its end.
   */
  predicate Loses(s: State, ev: Event, k: nat) {
    && s.running && ev.FromClient? && s.session.Some? && s.session.value.id == k && Opens(s.session.value, ev.raw)
    && if s.local.None? && !ev.connects then |ev.raw.data| > 0
       else ev.cutAt.Some? && ev.cutAt.value < |ev.raw.data|
  }

  ghost predicate LosesNothing(events: seq<Event>, k: nat) {
    forall i :: 0 <= i < |events| ==> !Loses(Run(events[..i]), events[i], k)
  }

  lemma StepDrops(s: State, ev: Event, k: nat)
    requires Valid(s) && k < |Step(s, ev).messages|
    ensures |Step(s, ev).dropped| == |Step(s, ev).messages|
    ensures Step(s, ev).dropped[k] == 0 <==> (k < |s.messages| ==> s.dropped[k] == 0) && !Loses(s, ev, k)
  {
    hide ConnectionsHold, Chunks;
    StepIsValid(s, ev);
  }

  lemma LosesNothingNext(events: seq<Event>, k: nat)
    requires |events| > 0
    ensures var front := events[..|events| - 1];
      LosesNothing(events, k) <==> LosesNothing(front, k) && !Loses(Run(front), events[|events| - 1], k)
  {
    hide Run, Loses;
    var front := events[..|events| - 1];
    assert forall i :: 0 <= i < |front| ==> front[..i] == events[..i];
    if LosesNothing(events, k) {
      forall i | 0 <= i < |front| ensures !Loses(Run(front[..i]), front[i], k) {
        assert !Loses(Run(events[..i]), events[i], k);
      }
    }
    if LosesNothing(front, k) && !Loses(Run(front), events[|events| - 1], k) {
      forall i | 0 <= i < |events| ensures !Loses(Run(events[..i]), events[i], k) {
        if i < |front| { assert !Loses(Run(front[..i]), front[i], k); }
      }
    }
  }

  lemma RunNext(events: seq<Event>)
    requires |events| > 0
    ensures Run(events) == Step(Run(events[..|events| - 1]), events[|events| - 1])
  {
    hide Step;
  }

  lemma NoSessionNoLoss(s: State, ev: Event, k: nat)
    requires Valid(s) && k >= |s.messages|
    ensures !Loses(s, ev, k)
  {
    hide ConnectionsHold;
  }

  lemma {:induction false} DropsNothingIff(events: seq<Event>, k: nat)
    requires k < |Run(events).messages|
    ensures Run(events).dropped[k] == 0 <==> LosesNothing(events, k)
    decreases |events|
  {
    if |events| > 0 {
      var front := events[..|events| - 1];
      var s, ev := Run(front), events[|events| - 1];
      RunNext(events);
      hide Run, Step, Loses, LosesNothing;
      StepDrops(s, ev, k);
      LosesNothingNext(events, k);
      if k < |s.messages| { DropsNothingIff(front, k); } else { NotYetLost(front, k); }
    }
  }

  lemma {:induction false} NotYetLost(events: seq<Event>, k: nat)
    requires k >= |Run(events).messages|
    ensures LosesNothing(events, k)
    decreases |events|
  {
    if |events| > 0 {
      var front := events[..|events| - 1];
      RunNext(events);
      hide Run, Step, Loses, LosesNothing;
      StepSessions(Run(front), events[|events| - 1]);
      NotYetLost(front, k);
      NoSessionNoLoss(Run(front), events[|events| - 1], k);
      LosesNothingNext(events, k);
    }
  }

  /**
   The local server has every byte of a session, in order, exactly when no message of it
   met a refused connect or a write that was cut short.
   */
  lemma EverythingArrivesIff(events: seq<Event>, k: nat)
    requires k < |Run(events).messages|
    ensures var s := Run(events);
      Delivered(s.conns, k) == Concat(s.messages[k]) <==> LosesNothing(events, k)
  {
    hide Run, Delivered, Concat, LosesNothing;
    RunsConserve(events);
    DropsNothingIff(events, k);
    var s := Run(events);
    assert ConservedAt(s.conns, s.messages[k], s.dropped[k], k);
  }

  /**
   A connect that fails loses its message for good, although the session goes on: the
   next message opens a connection that starts after it.
   */
  lemma FailedConnectLeavesGap(s: State, first: Bytes, second: Bytes)
    requires Valid(s) && s.running && s.session.Some? && s.local.None?
    ensures var Session(k, n) := s.session.value;
      var t := Step(s, FromClient(Sealed(k, n, first), true, true, false, None));
      Valid(t) && t.running && t.dropped[k] == s.dropped[k] + |first| && t.conns == s.conns &&
      var u := Step(t, FromClient(Sealed(k, n + 1, second), true, true, true, None));
      u.running && u.conns == s.conns + [Connection(k, n + 1, [second], None)]
  {
    hide ConnectionsHold;
    var Session(k, n) := s.session.value;
    var ev := FromClient(Sealed(k, n, first), true, true, false, None);
    StepIsValid(s, ev);
    var t := Step(s, ev);
    assert t.session == Some(Session(k, n + 1));
    var u := Step(t, FromClient(Sealed(k, n + 1, second), true, true, true, None));
    assert u.conns[|s.conns|] == Connection(k, n + 1, [second], None);
    assert u.conns[..|s.conns|] == s.conns;
  }

  // ------------------------------------------------------------- the way back

  lemma ThreeParts(a: Bytes, b: Bytes, c: Bytes)
    ensures (a + b) + c == a + (b + c)
  {
  }

  lemma {:induction false} ConcatOne(b: Bytes, rest: seq<Bytes>)
    ensures Concat([b] + rest) == b + Concat(rest)
    decreases |rest|
  {
    if |rest| == 0 {
      assert [b] + rest == [b] && [b][..0] == [];
    } else {
      assert ([b] + rest)[..|rest|] == [b] + rest[..|rest| - 1];
      ConcatOne(b, rest[..|rest| - 1]);
      ThreeParts(b, Concat(rest[..|rest| - 1]), rest[|rest| - 1]);
    }
  }

  lemma {:induction false} ConcatJoin(a: seq<Bytes>, b: seq<Bytes>)
    ensures Concat(a + b) == Concat(a) + Concat(b)
    decreases |b|
  {
    if |b| == 0 {
      assert a + b == a;
    } else {
      assert (a + b)[..|a + b| - 1] == a + b[..|b| - 1];
      ConcatJoin(a, b[..|b| - 1]);
      ThreeParts(Concat(a), Concat(b[..|b| - 1]), b[|b| - 1]);
    }
  }

  /** The pieces of what was read: none empty, none too large, together exactly the bytes. */
  lemma {:induction false} ChunksJoin(b: Bytes, size: nat)
    requires size > 0
    ensures Concat(Chunks(b, size)) == b
    ensures forall i :: 0 <= i < |Chunks(b, size)| ==> 0 < |Chunks(b, size)[i]| <= size
    decreases |b|
  {
    if |b| > size {
      ChunksJoin(b[size..], size);
      ConcatOne(b[..size], Chunks(b[size..], size));
    } else if |b| > 0 {
      assert [b][..0] == [];
    }
  }

  predicate Fit(pieces: seq<Bytes>) {
    forall i :: 0 <= i < |pieces| ==> 0 < |pieces[i]| && |pieces[i]| + SEAL_OVERHEAD <= MAX_DATA
  }

  /** The pieces of session k fit their cells and join to what the server sent; all of it, while the loop runs. */
  predicate Returned(s: State, k: nat)
    requires SessionHolds(s) && k < |s.messages|
  {
    && Fit(s.pieces[k]) && Concat(s.pieces[k]) <= s.fromServer[k]
    && (s.running || k < |s.messages| - 1 ==> Concat(s.pieces[k]) == s.fromServer[k])
  }

  predicate AllReturned(s: State)
    requires SessionHolds(s)
  {
    forall k :: 0 <= k < |s.messages| ==> Returned(s, k)
  }

  lemma PiecesFit(pieces: seq<Bytes>, bytes: Bytes, n: nat)
    requires Fit(pieces) && n <= |Chunks(bytes, PIECE)|
    ensures Fit(pieces + Chunks(bytes, PIECE)[..n])
  {
    ChunksJoin(bytes, PIECE);
    hide Concat, Chunks;
  }

  lemma PiecesJoin(pieces: seq<Bytes>, bytes: Bytes, n: nat)
    requires n <= |Chunks(bytes, PIECE)|
    ensures var all := Chunks(bytes, PIECE);
      && Concat(pieces + all[..n]) + Concat(all[n..]) == Concat(pieces) + bytes
      && (n == |all| ==> Concat(all[n..]) == [])
  {
    var all := Chunks(bytes, PIECE);
    ChunksJoin(bytes, PIECE);
    EmptyFits();
    hide Concat, Chunks;
    SplitAt(all, n);
    ConcatJoin(all[..n], all[n..]);
    ConcatJoin(pieces, all[..n]);
    ThreeParts(Concat(pieces), Concat(all[..n]), Concat(all[n..]));
  }

  lemma SplitAt(all: seq<Bytes>, n: nat)
    requires n <= |all|
    ensures all == all[..n] + all[n..] && (n == |all| ==> all[n..] == [])
  {
  }

  lemma MorePieces(pieces: seq<Bytes>, before: Bytes, bytes: Bytes, n: nat)
    requires Fit(pieces) && Concat(pieces) == before && n <= |Chunks(bytes, PIECE)|
    ensures var more := pieces + Chunks(bytes, PIECE)[..n];
      Fit(more) && Concat(more) <= before + bytes && (n == |Chunks(bytes, PIECE)| ==> Concat(more) == before + bytes)
  {
    hide Concat, Chunks, Fit;
    PiecesFit(pieces, bytes, n);
    PiecesJoin(pieces, bytes, n);
  }

  lemma PiecesReturn(s: State, bytes: Bytes, sendable: nat)
    requires Valid(s) && s.session.Some? && s.running && AllReturned(s)
    ensures SessionHolds(OnServerBytes(s, bytes, sendable)) && AllReturned(OnServerBytes(s, bytes, sendable))
  {
    hide Concat, Chunks, ConnectionsHold, Fit;
    var k := s.session.value.id;
    var t := OnServerBytes(s, bytes, sendable);
    assert Returned(s, k);
    MorePieces(s.pieces[k], s.fromServer[k], bytes, Min(sendable, |Chunks(bytes, PIECE)|));
    forall j | 0 <= j < |s.messages| ensures Returned(t, j) {
      assert Returned(s, j);
    }
  }

  lemma StepReturns(s: State, ev: Event)
    requires Valid(s) && AllReturned(s)
    ensures Valid(Step(s, ev)) && AllReturned(Step(s, ev))
  {
    StepIsValid(s, ev);
    var t := Step(s, ev);
    if s.running && ev.FromServer? && s.local.Some? && s.session.Some? && 0 < |ev.bytes| <= BUFFER {
      PiecesReturn(s, ev.bytes, ev.sendable);
    } else {
      hide Concat, Chunks, ConnectionsHold, Fit;
      assert forall k :: 0 <= k < |s.messages| ==> t.pieces[k] == s.pieces[k] && t.fromServer[k] == s.fromServer[k];
      forall k | 0 <= k < |t.messages| ensures Returned(t, k) {
        if k < |s.messages| {
          assert Returned(s, k);
        } else {
          EmptyFits();
        }
      }
    }
  }

  lemma EmptyFits()
    ensures Fit([]) && Concat([]) == []
  {
  }

  /**
   In every run, the sealed pieces of each session fit their cells and join to what its
   own connections read from the server, complete while the loop runs.
   */
  lemma {:induction false} RunsReturn(events: seq<Event>)
    ensures AllReturned(Run(events))
  {
    hide Step;
    if |events| > 0 {
      RunsReturn(events[..|events| - 1]);
      StepReturns(Run(events[..|events| - 1]), events[|events| - 1]);
    }
  }

  // ---------------------------------------------- what the events amount to

  /** What the connections of session k read: each read that finds the loop running and such a connection open. */
  ghost function ReadFor(events: seq<Event>, k: nat): Bytes {
    if |events| == 0 then []
    else
      var s, ev := Run(events[..|events| - 1]), events[|events| - 1];
      ReadFor(events[..|events| - 1], k) +
        if ev.FromServer? && s.running && s.local.Some? && s.conns[s.local.value].session == k
           && 0 < |ev.bytes| <= BUFFER
        then ev.bytes else []
  }

  /** The messages of session k, from the events: what came sealed for it, at its own count, while it was in force. */
  ghost function HeardOf(events: seq<Event>, k: nat): seq<Bytes> {
    if |events| == 0 then []
    else
      var s, ev := Run(events[..|events| - 1]), events[|events| - 1];
      HeardOf(events[..|events| - 1], k) +
        if ev.FromClient? && s.running && s.session.Some? && s.session.value.id == k
           && ev.raw.Sealed? && ev.raw.session == k && ev.raw.count == |HeardOf(events[..|events| - 1], k)|
        then [ev.raw.data] else []
  }

  lemma StepReads(s: State, ev: Event, k: nat)
    requires Valid(s) && k < |Step(s, ev).messages|
    ensures Valid(Step(s, ev)) && |s.fromServer| == |s.messages| && |s.messages| <= |Step(s, ev).messages|
    ensures Step(s, ev).fromServer[k] == (if k < |s.messages| then s.fromServer[k] else []) +
      if ev.FromServer? && s.running && s.local.Some? && s.conns[s.local.value].session == k && 0 < |ev.bytes| <= BUFFER
      then ev.bytes else []
  {
    StepIsValid(s, ev);
    hide ConnectionsHold, Chunks;
  }

  /** In every run, what is on record as read for a session is exactly what its connections read. */
  lemma {:induction false} ReadIsRead(events: seq<Event>, k: nat)
    ensures k < |Run(events).messages| ==> Run(events).fromServer[k] == ReadFor(events, k)
    ensures k >= |Run(events).messages| ==> ReadFor(events, k) == []
    decreases |events|
  {
    if |events| > 0 {
      var front, ev := events[..|events| - 1], events[|events| - 1];
      ReadIsRead(front, k);
      RunNext(events);
      StepSessions(Run(front), ev);
      LocalIsKnown(Run(front));
      hide Run, Step, ConnectionsHold;
      if k < |Run(events).messages| { StepReads(Run(front), ev, k); }
    }
  }

  lemma LocalIsKnown(s: State)
    requires Valid(s)
    ensures s.local.Some? ==> s.local.value < |s.conns| && s.conns[s.local.value].session < |s.messages|
  {
    hide ConnectionsHold;
  }

  /** Every read finds a way back: enough pieces can be sealed and sent. */
  ghost predicate AllSendable(events: seq<Event>) {
    forall i :: 0 <= i < |events| && events[i].FromServer? ==> events[i].sendable >= |Chunks(events[i].bytes, PIECE)|
  }

  /** The pieces of a read are all sent as long as they can be. */
  lemma StepSendsAll(s: State, ev: Event, k: nat)
    requires Valid(s) && AllSendable([ev]) && k < |Step(s, ev).messages|
    requires k < |s.messages| ==> Concat(s.pieces[k]) == s.fromServer[k]
    ensures Valid(Step(s, ev)) && Concat(Step(s, ev).pieces[k]) == Step(s, ev).fromServer[k]
  {
    StepIsValid(s, ev);
    hide ConnectionsHold, Chunks, Concat;
    if s.running && ev.FromServer? && s.local.Some? && s.session.Some? && 0 < |ev.bytes| <= BUFFER {
      assert [ev][0] == ev;
      AllPieces(s.pieces[s.session.value.id], ev.bytes, ev.sendable);
    } else {
      EmptyFits();
    }
  }

  lemma AllPieces(pieces: seq<Bytes>, bytes: Bytes, sendable: nat)
    requires sendable >= |Chunks(bytes, PIECE)|
    ensures var all := Chunks(bytes, PIECE); Concat(pieces + all[..Min(sendable, |all|)]) == Concat(pieces) + bytes
  {
    var all := Chunks(bytes, PIECE);
    ChunksJoin(bytes, PIECE);
    hide Concat, Chunks;
    assert all[..|all|] == all;
    ConcatJoin(pieces, all);
  }

  /**
   In every run in which pieces can be sent, the client of a session gets back, in pieces
   that fit their cells, exactly what the session's connections read from the server.
   */
  lemma {:induction false} EverythingReturns(events: seq<Event>, k: nat)
    requires AllSendable(events) && k < |Run(events).messages|
    ensures Concat(Run(events).pieces[k]) == ReadFor(events, k) && Fit(Run(events).pieces[k])
    decreases |events|
  {
    ReadIsRead(events, k);
    RunsReturn(events);
    assert Returned(Run(events), k);
    SendsAll(events, k);
  }

  lemma {:induction false} SendsAll(events: seq<Event>, k: nat)
    requires AllSendable(events) && k < |Run(events).messages|
    ensures Concat(Run(events).pieces[k]) == Run(events).fromServer[k]
    decreases |events|
  {
    if |events| > 0 {
      var front, ev := events[..|events| - 1], events[|events| - 1];
      AllSendableParts(events);
      RunNext(events);
      hide Run, Step, Concat, AllSendable, ConnectionsHold;
      if k < |Run(front).messages| { SendsAll(front, k); }
      StepSendsAll(Run(front), ev, k);
    }
  }

  lemma AllSendableParts(events: seq<Event>)
    requires |events| > 0 && AllSendable(events)
    ensures AllSendable(events[..|events| - 1]) && AllSendable([events[|events| - 1]])
  {
    hide Chunks;
    var front := events[..|events| - 1];
    forall i | 0 <= i < |front| && front[i].FromServer?
      ensures front[i].sendable >= |Chunks(front[i].bytes, PIECE)|
    {
      assert events[i].FromServer?;
    }
  }

  lemma StepHears(s: State, ev: Event, k: nat)
    requires Valid(s) && k < |Step(s, ev).messages|
    ensures Step(s, ev).messages[k] == (if k < |s.messages| then s.messages[k] else []) +
      if ev.FromClient? && s.running && s.session.Some? && s.session.value.id == k
         && ev.raw.Sealed? && ev.raw.session == k && ev.raw.count == |s.messages[k]|
      then [ev.raw.data] else []
  {
    hide ConnectionsHold, Chunks;
  }

  /** In every run, what a session opened is exactly what was sealed for it, each at its count, until one was not. */
  lemma {:induction false} HeardIsOpened(events: seq<Event>, k: nat)
    ensures k < |Run(events).messages| ==> Run(events).messages[k] == HeardOf(events, k)
    ensures k >= |Run(events).messages| ==> HeardOf(events, k) == []
    decreases |events|
  {
    if |events| > 0 {
      var front, ev := events[..|events| - 1], events[|events| - 1];
      HeardIsOpened(front, k);
      RunNext(events);
      StepSessions(Run(front), ev);
      SessionIsKnown(Run(front));
      hide Run, Step, ConnectionsHold;
      if k < |Run(events).messages| { StepHears(Run(front), ev, k); }
    }
  }

  lemma SessionIsKnown(s: State)
    requires Valid(s)
    ensures s.session.Some? ==> s.session.value.id < |s.messages|
  {
  }

  /** The local server is done, or failed: the connection goes, and the client is told, or the loop ends. */
  lemma ServerDoneEnds(s: State, told: bool)
    requires Valid(s) && s.running && s.local.Some?
    ensures var t := Step(s, ServerDone(told));
      t.local.None? && t.session == s.session && t.conns == s.conns && (t.running <==> told)
  {
    hide ConnectionsHold;
  }

  /** A message sealed for another session, or out of its turn, ends the session and its connection, not the loop. */
  lemma StrangerEnds(s: State, ev: Event)
    requires Valid(s) && s.running && s.session.Some? && ev.FromClient? && !ev.raw.Hello?
    requires !(ev.raw.Sealed? && ev.raw.session == s.session.value.id && ev.raw.count == s.session.value.count)
    ensures var t := Step(s, ev);
      t.session.None? && t.local.None? && t.running && t.conns == s.conns && t.messages == s.messages
  {
    hide ConnectionsHold;
  }

  /** A hello ends the connection at once; the session of before stays exactly when it could not be answered. */
  lemma HelloEnds(s: State, ev: Event)
    requires Valid(s) && s.running && ev.FromClient? && ev.raw.Hello?
    ensures var t := Step(s, ev);
      && t.local.None? && (t.running <==> !ev.answered || ev.answerSent)
      && (ev.answered && ev.answerSent ==> t.session == Some(Session(|s.messages|, 0)))
      && (!ev.answered ==> t.session == s.session)
  {
    hide ConnectionsHold;
  }

  /** Without a session nothing a client sends has any effect; and the loop ends with the circuit, or when told to. */
  lemma NothingWithoutHello(s: State, ev: Event)
    requires Valid(s) && s.running
    ensures ev.FromClient? && !ev.raw.Hello? && s.session.None? ==> Step(s, ev) == s
    ensures ev.ClientGone? || ev.Stop? ==> Step(s, ev) == s.(running := false)
  {
    hide ConnectionsHold;
  }

  // ------------------------------------------------------------------- the loop

  /** Seals and sends piece by piece until one fails. */
  method SendPieces(bytes: Bytes, sendable: nat) returns (sent: seq<Bytes>, ok: bool)
    ensures var all := Chunks(bytes, PIECE); sent == all[..Min(sendable, |all|)] && ok == (sendable >= |all|)
  {
    sent := [];
    var rest := bytes;
    ghost var all := Chunks(bytes, PIECE);
    assert [] + all == all;
    while |rest| > 0
      invariant sent + Chunks(rest, PIECE) == all && |sent| <= sendable
      decreases |rest|
    {
      var n := if |rest| <= PIECE then |rest| else PIECE;
      ghost var left := Chunks(rest, PIECE);
      if n == |rest| { assert rest[..n] == rest && rest[n..] == []; }
      assert left == [rest[..n]] + Chunks(rest[n..], PIECE);
      if |sent| == sendable { return sent, false; }
      sent := sent + [rest[..n]];
      rest := rest[n..];
    }
    return sent, true;
  }

  /** The service loop over everything that happens to it. */
  method Serve(events: seq<Event>) returns (s: State)
    ensures s == Run(events)
  {
    hide Chunks, ConnectionsHold;
    var session: Option<Session> := None;
    var local: Option<nat> := None;
    var running := true;
    var conns: seq<Connection> := [];
    var messages: seq<seq<Bytes>> := [];
    var dropped: seq<nat> := [];
    var fromServer: seq<Bytes> := [];
    var pieces: seq<seq<Bytes>> := [];
    var i := 0;
    while i < |events| && running
      invariant 0 <= i <= |events|
      invariant State(session, local, running, conns, messages, dropped, fromServer, pieces) == Run(events[..i])
    {
      assert events[..i + 1][..i] == events[..i];
      match events[i] {
        case FromClient(raw, answered, answerSent, connects, cutAt) =>
          if raw.Hello? {
            local := None;
            if answered {
              if !answerSent { running := false; } else {
                session := Some(Session(|messages|, 0));
                messages, dropped := messages + [[]], dropped + [0];
                fromServer, pieces := fromServer + [[]], pieces + [[]];
              }
            }
          } else if session.Some? {
            if !Opens(session.value, raw) {
              session, local := None, None;
            } else {
              var before := State(session, local, running, conns, messages, dropped, fromServer, pieces);
              var after := Deliver(before, raw.data, connects, cutAt);
              session, local, conns, messages, dropped := after.session, after.local, after.conns,
                after.messages, after.dropped;
            }
          }
        case ClientGone => running := false;
        case FromServer(bytes, sendable) =>
          if local.Some? && session.Some? && 0 < |bytes| <= BUFFER {
            var k := session.value.id;
            var sent, ok := SendPieces(bytes, sendable);
            fromServer := fromServer[k := fromServer[k] + bytes];
            pieces := pieces[k := pieces[k] + sent];
            if !ok { running := false; }
          }
        case ServerDone(endSent) =>
          if local.Some? {
            local := None;
            if session.Some? && !endSent { running := false; }
          }
        case Stop => running := false;
      }
      i := i + 1;
    }
    s := State(session, local, running, conns, messages, dropped, fromServer, pieces);
    StoppedStays(events, i);
  }

  /** An opened message on its way: connect when there is no connection, then write. */
  method Deliver(s: State, data: Bytes, connects: bool, cutAt: Option<nat>) returns (t: State)
    requires Valid(s) && s.session.Some?
    ensures t == OnMessage(s, data, connects, cutAt)
    ensures t.running == s.running && t.fromServer == s.fromServer && t.pieces == s.pieces
  {
    hide ConnectionsHold;
    var k, n := s.session.value.id, s.session.value.count;
    t := s.(session := Some(Session(k, n + 1)), messages := s.messages[k := s.messages[k] + [data]]);
    if t.local.None? {
      if !connects {
        t := t.(dropped := t.dropped[k := t.dropped[k] + |data|]);
        return;
      }
      t := t.(local := Some(|t.conns|), conns := t.conns + [Connection(k, n, [], None)]);
    }
    var at := t.local.value;
    var c := t.conns[at];
    if cutAt.None? {
      t := t.(conns := t.conns[at := c.(whole := c.whole + [data])]);
    } else {
      var w := Min(cutAt.value, |data|);
      t := t.(conns := t.conns[at := c.(cut := Some(data[..w]))], local := None,
              dropped := t.dropped[k := t.dropped[k] + (|data| - w)]);
    }
  }

  /** Nothing moves once the loop has stopped. */
  lemma {:induction false} StoppedStays(events: seq<Event>, i: nat)
    requires i <= |events| && (i < |events| ==> !Run(events[..i]).running)
    ensures Run(events) == Run(events[..i])
    decreases |events| - i
  {
    if i < |events| {
      assert events[..i + 1][..i] == events[..i];
      StoppedStays(events, i + 1);
    } else {
      assert events[..i] == events;
    }
  }
}
