/**
 What a chat page believes: one key per session id, no message outside the time
 window and none of the last 512 nonces of its session again. Decryption, hashing
 and signature checks are the platform's.
 */
module ReplayGuard {
  const SEEN_PER_SESSION: nat := 512
  const REPLAY_WINDOW: real := 600000.0

  datatype Message = Message(kind: string, cid: string, pk: string, nonce: string, time: real, sig: string,
    rest: string)

  /** What the relay delivers: not this room's, decrypted but not a message, or a message. */
  datatype Wire = Foreign | NoMessage | Plain(msg: Message)

  datatype Platform = Platform(cidFor: string -> string, canonical: string -> bool, verifies: Message -> bool)

  datatype Reason = IsForeign | IsMalformed | BadIdentity | BadSignature | IsReplay
  datatype Outcome = Accepted(msg: Message) | Rejected(reason: Reason)

  /** The two stores a page keeps. */
  datatype Stores = Stores(keys: map<string, string>, seen: map<string, seq<string>>)

  // ------------------------------------------------------------------- the stores

  function Binds(keys: map<string, string>, cid: string, pub: string): bool {
    |cid| > 0 && |pub| > 0 && (cid in keys ==> keys[cid] == pub)
  }

  function Bound(keys: map<string, string>, cid: string, pub: string): map<string, string> {
    if Binds(keys, cid, pub) then keys[cid := pub] else keys
  }

  function SeenOf(seen: map<string, seq<string>>, cid: string): seq<string> {
    if cid in seen then seen[cid] else []
  }

  /** The last 512. */
  function Tail(s: seq<string>): seq<string> {
    if |s| <= SEEN_PER_SESSION then s else s[|s| - SEEN_PER_SESSION..]
  }

  function Apart(a: real, b: real): real { if a < b then b - a else a - b }

  predicate Fresh(seen: map<string, seq<string>>, cid: string, nonce: string, time: real, now: real, window: real) {
    |cid| > 0 && |nonce| > 0 && Apart(now, time) <= window && nonce !in SeenOf(seen, cid)
  }

  class TrustStore {
    var keys: map<string, string>

    constructor ()
      ensures keys == map[]
    {
      keys := map[];
    }

    method Bind(cid: string, pub: string) returns (ok: bool)
      modifies this
      ensures ok == Binds(old(keys), cid, pub) && keys == Bound(old(keys), cid, pub)
    {
      if |cid| == 0 || |pub| == 0 { return false; }
      if cid !in keys {
        keys := keys[cid := pub];
        return true;
      }
      ok := keys[cid] == pub;
      assert ok ==> keys == keys[cid := pub];
    }

    method Forget(cid: string)
      modifies this
      ensures keys == old(keys) - {cid}
    {
      keys := keys - {cid};
    }
  }

  class ReplayGuard {
    const window: real
    var seen: map<string, seq<string>>

    constructor (windowMs: real)
      ensures seen == map[] && window == if windowMs == 0.0 then REPLAY_WINDOW else windowMs
    {
      window := if windowMs == 0.0 then REPLAY_WINDOW else windowMs;
      seen := map[];
    }

    method Accept(cid: string, nonce: string, time: real, now: real) returns (ok: bool)
      modifies this
      ensures ok == Fresh(old(seen), cid, nonce, time, now, window)
      ensures seen == if ok then old(seen)[cid := Tail(SeenOf(old(seen), cid) + [nonce])] else old(seen)
    {
      if |cid| == 0 || |nonce| == 0 { return false; }
      if Apart(now, time) > window { return false; }
      var list := if cid in seen then seen[cid] else [];
      if nonce in list { return false; }
      list := list + [nonce];
      if |list| > SEEN_PER_SESSION { list := list[|list| - SEEN_PER_SESSION..]; }
      seen := seen[cid := list];
      return true;
    }
  }

  // ------------------------------------------------------------------ one envelope

  predicate Authentic(pf: Platform, m: Message) {
    pf.canonical(m.pk) && m.cid == pf.cidFor(m.pk) && pf.verifies(m)
  }

  function OpenOutcome(pf: Platform, s: Stores, window: real, wire: Wire, now: real): Outcome {
    match wire
    case Foreign => Rejected(IsForeign)
    case NoMessage => Rejected(IsMalformed)
    case Plain(m) =>
      if !pf.canonical(m.pk) || m.cid != pf.cidFor(m.pk) then Rejected(BadIdentity)
      else if !pf.verifies(m) then Rejected(BadSignature)
      else if !Binds(s.keys, m.cid, m.pk) then Rejected(BadIdentity)
      else if !Fresh(s.seen, m.cid, m.nonce, m.time, now, window) then Rejected(IsReplay)
      else Accepted(m)
  }

  function OpenStores(pf: Platform, s: Stores, window: real, wire: Wire, now: real): Stores {
    var r := OpenOutcome(pf, s, window, wire, now);
    if r.Accepted? then
      Stores(Bound(s.keys, r.msg.cid, r.msg.pk), s.seen[r.msg.cid := Tail(SeenOf(s.seen, r.msg.cid) + [r.msg.nonce])])
    else if r == Rejected(IsReplay) && wire.Plain? then s.(keys := Bound(s.keys, wire.msg.cid, wire.msg.pk))
    else s
  }

  /** Every check in turn; state is touched only after the identity and the signature hold. */
  method Open(pf: Platform, trust: TrustStore, guard: ReplayGuard, wire: Wire, now: real) returns (r: Outcome)
    modifies trust, guard
    ensures r == OpenOutcome(pf, old(Stores(trust.keys, guard.seen)), guard.window, wire, now)
    ensures Stores(trust.keys, guard.seen) == OpenStores(pf, old(Stores(trust.keys, guard.seen)), guard.window,
      wire, now)
  {
    if wire.Foreign? { return Rejected(IsForeign); }
    if wire.NoMessage? { return Rejected(IsMalformed); }
    var m := wire.msg;
    if !pf.canonical(m.pk) || m.cid != pf.cidFor(m.pk) { return Rejected(BadIdentity); }
    if !pf.verifies(m) { return Rejected(BadSignature); }
    var bound := trust.Bind(m.cid, m.pk);
    if !bound { return Rejected(BadIdentity); }
    var isNew := guard.Accept(m.cid, m.nonce, m.time, now);
    if !isNew { return Rejected(IsReplay); }
    return Accepted(m);
  }

  /**
   A message refused for any reason but replay leaves nothing behind; a replay leaves at most
   the key of its own id.
   */
  lemma RejectionLeavesNothing(pf: Platform, s: Stores, window: real, wire: Wire, now: real)
    requires OpenOutcome(pf, s, window, wire, now).Rejected?
    ensures var r, t := OpenOutcome(pf, s, window, wire, now), OpenStores(pf, s, window, wire, now);
      && t.seen == s.seen
      && (r.reason != IsReplay ==> t == s)
      && (r.reason == IsReplay ==> Authentic(pf, wire.msg) && t.keys == s.keys[wire.msg.cid := wire.msg.pk])
  {
  }

  // -------------------------------------------------------------------- whole runs

  datatype Event = Delivers(wire: Wire, now: real) | Forgets(cid: string)

  /** A page, and its log of acceptances with the time of each. */
  datatype Entry = Entry(msg: Message, at: real)
  datatype Page = Page(stores: Stores, log: seq<Entry>)

  function Step(pf: Platform, window: real, p: Page, ev: Event): Page {
    match ev
    case Delivers(wire, now) =>
      var r := OpenOutcome(pf, p.stores, window, wire, now);
      Page(OpenStores(pf, p.stores, window, wire, now), if r.Accepted? then p.log + [Entry(r.msg, now)] else p.log)
    case Forgets(cid) => p.(stores := p.stores.(keys := p.stores.keys - {cid}))
  }

  function Exec(pf: Platform, window: real, run: seq<Event>): Page {
    if |run| == 0 then Page(Stores(map[], map[]), []) else Step(pf, window, Exec(pf, window, run[..|run| - 1]),
      run[|run| - 1])
  }

  /** The nonces accepted from one session, in order. */
  function NoncesOf(log: seq<Entry>, cid: string): seq<string> {
    if |log| == 0 then []
    else
      var last := log[|log| - 1].msg;
      NoncesOf(log[..|log| - 1], cid) + if last.cid == cid then [last.nonce] else []
  }

  lemma NoncesSnoc(log: seq<Entry>, e: Entry, cid: string)
    ensures NoncesOf(log + [e], cid) == NoncesOf(log, cid) + if e.msg.cid == cid then [e.msg.nonce] else []
  {
    assert (log + [e])[..|log|] == log;
  }

  /** Equal nonces have at least 512 others between them. */
  ghost predicate FarApart(nonces: seq<string>) {
    forall i, j :: 0 <= i < j < |nonces| && nonces[i] == nonces[j] ==> j - i - 1 >= SEEN_PER_SESSION
  }

  ghost predicate Valid(pf: Platform, window: real, p: Page) {
    && (forall cid :: SeenOf(p.stores.seen, cid) == Tail(NoncesOf(p.log, cid)))
    && (forall cid :: FarApart(NoncesOf(p.log, cid)))
    && (forall e :: e in p.log ==> Authentic(pf, e.msg) && Apart(e.at, e.msg.time) <= window)
  }

  lemma TailOfTail(s: seq<string>, x: string)
    ensures Tail(Tail(s) + [x]) == Tail(s + [x])
  {
  }

  /** A nonce that is not in the tail is far from its last use. */
  lemma UnseenIsFar(nonces: seq<string>, x: string)
    requires FarApart(nonces) && x !in Tail(nonces)
    ensures FarApart(nonces + [x])
  {
    forall i | 0 <= i < |nonces| && i >= |nonces| - SEEN_PER_SESSION ensures nonces[i] in Tail(nonces) {
      assert Tail(nonces)[i - (|nonces| - |Tail(nonces)|)] == nonces[i];
    }
  }

  lemma AcceptanceIsValid(pf: Platform, window: real, p: Page, wire: Wire, now: real)
    requires Valid(pf, window, p) && OpenOutcome(pf, p.stores, window, wire, now).Accepted?
    ensures Valid(pf, window, Step(pf, window, p, Delivers(wire, now)))
  {
    hide NoncesOf, Tail, FarApart;
    var m := wire.msg;
    var q := Step(pf, window, p, Delivers(wire, now));
    assert m.nonce !in SeenOf(p.stores.seen, m.cid);
    forall cid ensures SeenOf(q.stores.seen, cid) == Tail(NoncesOf(q.log, cid)) && FarApart(NoncesOf(q.log, cid)) {
      NoncesSnoc(p.log, Entry(m, now), cid);
      assert SeenOf(p.stores.seen, cid) == Tail(NoncesOf(p.log, cid)) && FarApart(NoncesOf(p.log, cid));
      if cid == m.cid {
        TailOfTail(NoncesOf(p.log, cid), m.nonce);
        UnseenIsFar(NoncesOf(p.log, cid), m.nonce);
      } else {
        assert NoncesOf(p.log, cid) + [] == NoncesOf(p.log, cid);
      }
    }
  }

  lemma StepIsValid(pf: Platform, window: real, p: Page, ev: Event)
    requires Valid(pf, window, p)
    ensures Valid(pf, window, Step(pf, window, p, ev))
  {
    if ev.Delivers? && OpenOutcome(pf, p.stores, window, ev.wire, ev.now).Accepted? {
      AcceptanceIsValid(pf, window, p, ev.wire, ev.now);
    } else {
      hide NoncesOf, Tail, FarApart;
      if ev.Delivers? { RejectionLeavesNothing(pf, p.stores, window, ev.wire, ev.now); }
    }
  }

  lemma {:induction false} RunsAreValid(pf: Platform, window: real, run: seq<Event>)
    ensures Valid(pf, window, Exec(pf, window, run))
  {
    if |run| > 0 {
      hide Step, Valid;
      RunsAreValid(pf, window, run[..|run| - 1]);
      StepIsValid(pf, window, Exec(pf, window, run[..|run| - 1]), run[|run| - 1]);
    }
  }

  /**
   In every run, between two acceptances of one nonce from one session lie at least
   512 others from it, and every accepted message was authentic and within the window.
   */
  lemma ReplaysAreFarApart(pf: Platform, window: real, run: seq<Event>, cid: string)
    ensures FarApart(NoncesOf(Exec(pf, window, run).log, cid))
    ensures forall e :: e in Exec(pf, window, run).log ==> Authentic(pf, e.msg) && Apart(e.at, e.msg.time) <= window
  {
    hide Exec, NoncesOf, FarApart;
    RunsAreValid(pf, window, run);
  }

  /**
   Exactly which messages a page takes after any run: authentic, under the key its id
   is bound to, in the window, and not one of the last 512 of its session. An older
   nonce is taken again, even inside the window.
   */
  lemma AcceptedIff(pf: Platform, window: real, run: seq<Event>, m: Message, now: real)
    ensures var p := Exec(pf, window, run);
      OpenOutcome(pf, p.stores, window, Plain(m), now).Accepted? <==>
        && Authentic(pf, m) && |m.cid| > 0 && |m.pk| > 0 && |m.nonce| > 0
        && (m.cid in p.stores.keys ==> p.stores.keys[m.cid] == m.pk)
        && Apart(now, m.time) <= window && m.nonce !in Tail(NoncesOf(p.log, m.cid))
  {
    hide Exec, NoncesOf, FarApart, Tail;
    RunsAreValid(pf, window, run);
    assert SeenOf(Exec(pf, window, run).stores.seen, m.cid) == Tail(NoncesOf(Exec(pf, window, run).log, m.cid));
  }

  // ---------------------------------------------------------- a nonce taken twice

  /** Messages of one session and key, authentic and in time, under different nonces. */
  ghost predicate Flood(pf: Platform, window: real, msgs: seq<Message>, now: real) {
    && (forall i :: 0 <= i < |msgs| ==>
          && Authentic(pf, msgs[i]) && Apart(now, msgs[i].time) <= window && |msgs[i].nonce| > 0
          && msgs[i].cid == msgs[0].cid && msgs[i].pk == msgs[0].pk && |msgs[i].cid| > 0 && |msgs[i].pk| > 0)
    && (forall i, j :: 0 <= i < j < |msgs| ==> msgs[i].nonce != msgs[j].nonce)
  }

  function Deliveries(msgs: seq<Message>, now: real): seq<Event> {
    seq(|msgs|, i requires 0 <= i < |msgs| => Delivers(Plain(msgs[i]), now))
  }

  function NonceList(msgs: seq<Message>): seq<string> {
    seq(|msgs|, i requires 0 <= i < |msgs| => msgs[i].nonce)
  }

  ghost predicate OnlyKey(keys: map<string, string>, cid: string, pk: string) {
    cid in keys ==> keys[cid] == pk
  }

  lemma FloodNonces(pf: Platform, window: real, msgs: seq<Message>, now: real, n: nat)
    requires Flood(pf, window, msgs, now) && n < |msgs|
    ensures msgs[n].nonce !in NonceList(msgs[..n]) && NonceList(msgs[..n + 1]) == NonceList(msgs[..n]) + [msgs[n].nonce]
  {
    hide Authentic;
  }

  /** One more message of the flood. */
  lemma FloodStep(pf: Platform, window: real, msgs: seq<Message>, now: real, n: nat, p: Page)
    requires Flood(pf, window, msgs, now) && n < |msgs| && Valid(pf, window, p)
    requires NoncesOf(p.log, msgs[0].cid) == NonceList(msgs[..n]) && OnlyKey(p.stores.keys, msgs[0].cid, msgs[0].pk)
    ensures var q := Step(pf, window, p, Delivers(Plain(msgs[n]), now));
      && NoncesOf(q.log, msgs[0].cid) == NonceList(msgs[..n + 1])
      && OnlyKey(q.stores.keys, msgs[0].cid, msgs[0].pk)
  {
    var m := msgs[n];
    FloodNonces(pf, window, msgs, now, n);
    TailIsPart(NonceList(msgs[..n]), m.nonce);
    NoncesSnoc(p.log, Entry(m, now), m.cid);
    hide NoncesOf, NonceList, Tail, FarApart;
    assert SeenOf(p.stores.seen, m.cid) == Tail(NoncesOf(p.log, m.cid));
    assert m.cid == msgs[0].cid && m.pk == msgs[0].pk;
    hide Flood;
  }

  lemma DeliveriesNext(pf: Platform, window: real, msgs: seq<Message>, now: real, n: nat)
    requires n < |msgs|
    ensures Exec(pf, window, Deliveries(msgs[..n + 1], now))
      == Step(pf, window, Exec(pf, window, Deliveries(msgs[..n], now)), Delivers(Plain(msgs[n]), now))
  {
    hide Step;
    var run := Deliveries(msgs[..n + 1], now);
    assert run[..n] == Deliveries(msgs[..n], now);
  }

  lemma NothingDelivered(pf: Platform, window: real, msgs: seq<Message>, now: real)
    requires |msgs| > 0
    ensures var p := Exec(pf, window, Deliveries(msgs[..0], now));
      && NoncesOf(p.log, msgs[0].cid) == NonceList(msgs[..0])
      && OnlyKey(p.stores.keys, msgs[0].cid, msgs[0].pk)
  {
  }

  /** A page takes every message of a flood. */
  lemma {:induction false} FloodIsTaken(pf: Platform, window: real, msgs: seq<Message>, now: real, n: nat)
    requires Flood(pf, window, msgs, now) && n <= |msgs| && |msgs| > 0
    ensures var p := Exec(pf, window, Deliveries(msgs[..n], now));
      && NoncesOf(p.log, msgs[0].cid) == NonceList(msgs[..n])
      && OnlyKey(p.stores.keys, msgs[0].cid, msgs[0].pk)
  {
    hide Exec, Step, NoncesOf, NonceList, Deliveries, Flood, Valid, OnlyKey;
    if n == 0 {
      NothingDelivered(pf, window, msgs, now);
    } else {
      FloodIsTaken(pf, window, msgs, now, n - 1);
      DeliveriesNext(pf, window, msgs, now, n - 1);
      RunsAreValid(pf, window, Deliveries(msgs[..n - 1], now));
      FloodStep(pf, window, msgs, now, n - 1, Exec(pf, window, Deliveries(msgs[..n - 1], now)));
    }
  }

  lemma TailIsPart(s: seq<string>, x: string)
    requires x !in s
    ensures x !in Tail(s)
  {
  }

  /**
   After any flood of more than 512 messages within the window, a page takes its first
   message again, although it has it in its log.
   */
  lemma FloodReplays(pf: Platform, window: real, msgs: seq<Message>, now: real)
    requires Flood(pf, window, msgs, now) && |msgs| > SEEN_PER_SESSION
    ensures var p := Exec(pf, window, Deliveries(msgs, now));
      && msgs[0].nonce in NoncesOf(p.log, msgs[0].cid)
      && OpenOutcome(pf, p.stores, window, Plain(msgs[0]), now).Accepted?
  {
    hide Exec, NoncesOf, Deliveries;
    FloodIsTaken(pf, window, msgs, now, |msgs|);
    assert msgs[..|msgs|] == msgs;
    AcceptedIff(pf, window, Deliveries(msgs, now), msgs[0], now);
    FirstLeavesTail(pf, window, msgs, now);
    assert NonceList(msgs)[0] == msgs[0].nonce;
    hide Tail, NonceList;
  }

  lemma FirstLeavesTail(pf: Platform, window: real, msgs: seq<Message>, now: real)
    requires Flood(pf, window, msgs, now) && |msgs| > SEEN_PER_SESSION
    ensures msgs[0].nonce !in Tail(NonceList(msgs))
  {
    hide Authentic;
    var tail := Tail(NonceList(msgs));
    forall i | 0 <= i < |tail| ensures tail[i] != msgs[0].nonce {
      assert tail[i] == msgs[|msgs| - SEEN_PER_SESSION + i].nonce;
    }
  }

  /** One such flood: 513 messages of one session at one time. */
  lemma OldNonceIsTakenAgain() returns (pf: Platform, msgs: seq<Message>)
    ensures |msgs| == 513
    ensures var p := Exec(pf, REPLAY_WINDOW, Deliveries(msgs, 0.0));
      && msgs[0].nonce in NoncesOf(p.log, msgs[0].cid)
      && OpenOutcome(pf, p.stores, REPLAY_WINDOW, Plain(msgs[0]), 0.0).Accepted?
  {
    pf := Platform(_ => "id", _ => true, _ => true);
    msgs := seq(513, i requires 0 <= i < 513 => Message("msg", "id", "key", Tally(i + 1), 0.0, "sig", ""));
    hide Exec;
    forall i, j | 0 <= i < j < 513 ensures msgs[i].nonce != msgs[j].nonce {
      assert |Tally(i + 1)| != |Tally(j + 1)|;
    }
    FloodReplays(pf, REPLAY_WINDOW, msgs, 0.0);
  }

  function Tally(n: nat): (s: string)
    ensures |s| == n
  {
    seq(n, _ => 'a')
  }

  ghost predicate OneKey(p: Page) {
    forall e :: e in p.log ==> e.msg.cid in p.stores.keys && p.stores.keys[e.msg.cid] == e.msg.pk
  }

  /** While no id is forgotten, all messages accepted under one id carry one key, the first. */
  lemma {:induction false} OneKeyPerSession(pf: Platform, window: real, run: seq<Event>)
    requires forall i :: 0 <= i < |run| ==> run[i].Delivers?
    ensures OneKey(Exec(pf, window, run))
  {
    if |run| > 0 {
      var before := Exec(pf, window, run[..|run| - 1]);
      var ev := run[|run| - 1];
      OneKeyPerSession(pf, window, run[..|run| - 1]);
      hide Exec;
      KeysOnlyGrow(pf, window, before.stores, ev.wire, ev.now);
    }
  }

  lemma KeysOnlyGrow(pf: Platform, window: real, s: Stores, wire: Wire, now: real)
    ensures var t := OpenStores(pf, s, window, wire, now);
      && (forall cid :: cid in s.keys ==> cid in t.keys && t.keys[cid] == s.keys[cid])
      && (OpenOutcome(pf, s, window, wire, now).Accepted? ==>
            wire.msg.cid in t.keys && t.keys[wire.msg.cid] == wire.msg.pk)
  {
  }
}
