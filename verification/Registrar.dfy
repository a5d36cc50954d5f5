/**
 The forum's name registrar: first claim wins, the whole list is signed and
 published, and the state is written to disk before a list leaves. One process
 works at a time and its handlers run one after another; it may crash anywhere.
 */
module Registrar {
  import opened Options
  import opened RegistryList

  const MAX_NAMES: nat := 3000
  const RATE_WINDOW: int := 600000
  const RATE_MAX_NEW: nat := 200
  const MAX_HIDES: nat := 5000
  const REPUBLISH_COOLDOWN: int := 60000

  // ------------------------------------------------------------------- state

  datatype Record = Record(name: string, pk: string, ts: Number, seen: int)

  /** What is kept on disk. */
  datatype State = State(seqNo: nat, names: map<string, Record>, admin: Option<string>, hides: map<string, Number>)

  /** What a running registrar holds. */
  datatype Memory = Memory(state: State, recent: seq<int>, dirty: bool, bootstrapping: bool, lastForeign: int)

  datatype Config = Config(pf: Platform, pub: string, adoptExisting: bool)

  const EMPTY: State := State(0, map[], None, map[])

  function Start(st: State): Memory {
    Memory(st, [], false, st.seqNo == 0 && |st.names| == 0, 0)
  }

  /** A claim's payload; Unreadable is anything empty, too long, not JSON or without the fields. */
  datatype ClaimPayload = UnreadableClaim | Claimed(name: string, pk: string, ts: Number, sig: Signature)
  datatype HidePayload = UnreadableHide | Hidden(pk: string, ts: Number, sig: Signature)
  /** What the list's topic holds: nothing, something without the shape of a version 1 list, or a list. */
  datatype ListPayload = Wiped | NotAList | Parsed(reg: List)

  function Cut(s: string, n: nat): string { if |s| <= n then s else s[..n] }

  function EntryOf(norm: string, r: Record): Entry { Entry(norm, r.name, r.pk, r.ts) }

  // ---------------------------------------------------------------- handlers

  predicate ClaimHolds(cfg: Config, norm: string, msg: ClaimPayload) {
    && ValidName(cfg.pf, norm) && norm == cfg.pf.normalize(norm)
    && msg.Claimed? && IsSafeInteger(msg.ts) && msg.ts.value >= 0
    && cfg.pf.normalize(Cut(msg.name, 24)) == norm && Canonical(cfg.pf, Cut(msg.pk, 200))
    && SignatureHolds(cfg.pf, Cut(msg.pk, 200), ClaimFields(norm, Cut(msg.name, 24), Cut(msg.pk, 200), msg.ts), msg.sig)
  }

  /** The times still inside the window at time t. */
  function Pruned(recent: seq<int>, t: int): seq<int> {
    if |recent| == 0 then []
    else
      var last := recent[|recent| - 1];
      Pruned(recent[..|recent| - 1], t) + if t - last < RATE_WINDOW then [last] else []
  }

  /** A claim at three successive readings of the clock. */
  function ClaimStep(cfg: Config, m: Memory, norm: string, msg: ClaimPayload, t0: int, t1: int, t2: int): Memory {
    if !ClaimHolds(cfg, norm, msg) || norm in m.state.names then m
    else if m.bootstrapping && !cfg.adoptExisting then m
    else if |m.state.names| >= MAX_NAMES then m
    else
      var recent := Pruned(m.recent, t0);
      if |recent| >= RATE_MAX_NEW then m.(recent := recent)
      else
        var r := Record(Cut(msg.name, 24), Cut(msg.pk, 200), msg.ts, t2);
        m.(recent := recent + [t1], state := m.state.(names := m.state.names[norm := r]), dirty := true)
  }

  /** A name or a hide kept with the time zero reads as absent. */
  predicate Holds(hides: map<string, Number>, id: string) { id in hides && hides[id] != Whole(0) }

  function HideStep(cfg: Config, m: Memory, id: string, msg: HidePayload): Memory {
    if !PostId(id) || m.state.admin.None? || msg.UnreadableHide? then m
    else
      var pk := Cut(msg.pk, 200);
      if pk != m.state.admin.value || msg.ts.NotFinite? then m
      else if !SignatureHolds(cfg.pf, pk, HideFields(id, msg.ts), msg.sig) then m
      else if Holds(m.state.hides, id) || |m.state.hides| >= MAX_HIDES then m
      else m.(state := m.state.(hides := m.state.hides[id := msg.ts]), dirty := true)
  }

  function ForeignStep(m: Memory, now: int): Memory {
    if m.lastForeign != 0 && now - m.lastForeign < REPUBLISH_COOLDOWN then m
    else m.(lastForeign := now, dirty := true)
  }

  function AdoptNames(names: map<string, Record>, entries: seq<Entry>, seen: nat -> int): map<string, Record> {
    if |entries| == 0 then names
    else
      var e := entries[|entries| - 1];
      var before := AdoptNames(names, entries[..|entries| - 1], seen);
      if e.norm !in before && IsSafeInteger(e.ts) && e.ts.value >= 0
      then before[e.norm := Record(e.name, e.pk, e.ts, seen(|entries| - 1))] else before
  }

  function AdoptHides(hides: map<string, Number>, ids: seq<string>, ts: Number): map<string, Number> {
    if |ids| == 0 then hides
    else
      var h := ids[|ids| - 1];
      var before := AdoptHides(hides, ids[..|ids| - 1], ts);
      if Holds(before, h) then before else before[h := ts]
  }

  function Adopt(st: State, reg: List, seen: nat -> int): State
    requires reg.seqNo.Whole? && reg.seqNo.value >= 0
  {
    State(reg.seqNo.value, AdoptNames(st.names, reg.names, seen),
      if reg.admin.Some? && st.admin.None? then reg.admin else st.admin,
      AdoptHides(st.hides, HidesOf(reg), reg.ts))
  }

  function ListStep(cfg: Config, m: Memory, payload: ListPayload, now: int, seen: nat -> int): Memory {
    if !payload.Parsed? || !Verifies(cfg.pf, cfg.pub, payload.reg) then ForeignStep(m, now)
    else if payload.reg.seqNo.value > m.state.seqNo then
      m.(state := Adopt(m.state, payload.reg, seen), bootstrapping := false, dirty := true)
    else m
  }

  /** One walk over the keys of a map. */
  predicate IsWalk(order: seq<string>, keys: set<string>) {
    (forall k :: k in order ==> k in keys) && (forall k :: k in keys ==> k in order) && Distinct(order, Self)
  }

  function EntriesOf(names: map<string, Record>, order: seq<string>): seq<Entry>
    requires forall k :: k in order ==> k in names
  {
    seq(|order|, i requires 0 <= i < |order| => EntryOf(order[i], names[order[i]]))
  }

  /** The next list, not yet in order and not signed. */
  function Draft(st: State, nameWalk: seq<string>, hideWalk: seq<string>, now: int): List
    requires IsWalk(nameWalk, st.names.Keys)
  {
    List(Whole(st.seqNo), Whole(now), EntriesOf(st.names, nameWalk), st.admin, Some(hideWalk), Noise)
  }

  function Counted(st: State): State { st.(seqNo := st.seqNo + 1) }

  // -------------------------------------------------------------- good states

  /** Everything recorded is fit for a list. */
  predicate Good(pf: Platform, st: State) {
    && (forall n :: n in st.names ==> GoodEntry(pf, EntryOf(n, st.names[n])))
    && (forall h :: h in st.hides ==> PostId(h))
    && (st.admin.Some? ==> Canonical(pf, st.admin.value))
  }

  lemma {:induction false} AdoptNamesGood(pf: Platform, names: map<string, Record>, entries: seq<Entry>,
    seen: nat -> int)
    requires forall n :: n in names ==> GoodEntry(pf, EntryOf(n, names[n]))
    requires forall e :: e in entries ==> GoodEntry(pf, e)
    ensures forall n :: n in AdoptNames(names, entries, seen) ==> GoodEntry(pf, EntryOf(n, AdoptNames(names,
      entries, seen)[n]))
  {
    hide GoodEntry;
    if |entries| > 0 { AdoptNamesGood(pf, names, entries[..|entries| - 1], seen); }
  }

  /** Adoption changes no record it already has. */
  lemma {:induction false} AdoptKeepsRecords(names: map<string, Record>, entries: seq<Entry>, seen: nat -> int,
    n: string)
    requires n in names
    ensures n in AdoptNames(names, entries, seen) && AdoptNames(names, entries, seen)[n] == names[n]
  {
    if |entries| > 0 { AdoptKeepsRecords(names, entries[..|entries| - 1], seen, n); }
  }

  /** Adoption adds no name the list does not carry. */
  lemma {:induction false} AdoptAddsOnlyListed(names: map<string, Record>, entries: seq<Entry>,
    seen: nat -> int, n: string)
    requires n in AdoptNames(names, entries, seen) && n !in names
    ensures exists e :: e in entries && e.norm == n
  {
    if |entries| > 0 {
      var k := |entries| - 1;
      if n in AdoptNames(names, entries[..k], seen) {
        AdoptAddsOnlyListed(names, entries[..k], seen, n);
      } else {
        assert entries[k] in entries;
      }
    }
  }

  /** Adoption takes over every entry whose name was missing. */
  lemma {:induction false} AdoptAddsMissing(names: map<string, Record>, entries: seq<Entry>, seen: nat -> int, i: nat)
    requires Strict(entries, Norm) && i < |entries|
    requires forall e :: e in entries ==> IsSafeInteger(e.ts) && e.ts.value >= 0
    ensures entries[i].norm in AdoptNames(names, entries, seen)
    ensures entries[i].norm !in names ==>
      EntryOf(entries[i].norm, AdoptNames(names, entries, seen)[entries[i].norm]) == entries[i]
  {
    hide Less;
    var k := |entries| - 1;
    var e := entries[i];
    if i < k {
      assert entries[..k][i] == e;
      AdoptAddsMissing(names, entries[..k], seen, i);
      LessTotal(Norm(e), Norm(entries[k]));
    } else if e.norm !in names && e.norm in AdoptNames(names, entries[..k], seen) {
      AdoptAddsOnlyListed(names, entries[..k], seen, e.norm);
      var d :| d in entries[..k] && d.norm == e.norm;
      var j :| 0 <= j < k && entries[j] == d;
      LessTotal(Norm(entries[j]), Norm(e));
      assert false;
    }
  }

  lemma {:induction false} AdoptHidesExact(hides: map<string, Number>, ids: seq<string>, ts: Number)
    ensures forall h :: h in AdoptHides(hides, ids, ts) <==> h in hides || h in ids
  {
    if |ids| > 0 {
      AdoptHidesExact(hides, ids[..|ids| - 1], ts);
      assert ids == ids[..|ids| - 1] + [ids[|ids| - 1]];
    }
  }

  lemma ClaimKeepsGood(cfg: Config, m: Memory, norm: string, msg: ClaimPayload, t0: int, t1: int, t2: int)
    requires Good(cfg.pf, m.state)
    ensures Good(cfg.pf, ClaimStep(cfg, m, norm, msg, t0, t1, t2).state)
  {
  }

  lemma HideKeepsGood(cfg: Config, m: Memory, id: string, msg: HidePayload)
    requires Good(cfg.pf, m.state)
    ensures Good(cfg.pf, HideStep(cfg, m, id, msg).state)
  {
    hide GoodEntry;
  }

  lemma ListKeepsGood(cfg: Config, m: Memory, payload: ListPayload, now: int, seen: nat -> int)
    requires Good(cfg.pf, m.state)
    ensures Good(cfg.pf, ListStep(cfg, m, payload, now, seen).state)
  {
    hide GoodEntry, PostId, Strict, SignatureHolds;
    if payload.Parsed? && Verifies(cfg.pf, cfg.pub, payload.reg) {
      AdoptNamesGood(cfg.pf, m.state.names, payload.reg.names, seen);
      AdoptHidesExact(m.state.hides, HidesOf(payload.reg), payload.reg.ts);
    }
  }

  // ----------------------------------------------------- the list and the state

  /** The list says exactly what the state records. */
  ghost predicate Lists(reg: List, st: State) {
    && reg.seqNo == Whole(st.seqNo) && reg.admin == st.admin
    && (forall e :: e in reg.names <==> e.norm in st.names && e == EntryOf(e.norm, st.names[e.norm]))
    && (forall h :: h in HidesOf(reg) <==> h in st.hides)
  }

  lemma EntriesExact(names: map<string, Record>, order: seq<string>)
    requires IsWalk(order, names.Keys)
    ensures forall e :: e in EntriesOf(names, order) <==> e.norm in names && e == EntryOf(e.norm, names[e.norm])
    ensures Distinct(EntriesOf(names, order), Norm)
  {
    var es := EntriesOf(names, order);
    forall e: Entry | e.norm in names && e == EntryOf(e.norm, names[e.norm]) ensures e in es {
      var i :| 0 <= i < |order| && order[i] == e.norm;
      assert es[i] == e;
    }
    forall i, j | 0 <= i < j < |es| ensures Norm(es[i]) != Norm(es[j]) {
      assert Self(order[i]) != Self(order[j]);
    }
  }

  /**
   The list built from a good state is one every page accepts, reads back as exactly that
   state and is dated by the clock.
   */
  lemma BuiltListVerifies(cfg: Config, st: State, nameWalk: seq<string>, hideWalk: seq<string>, now: int)
    requires Canonical(cfg.pf, cfg.pub) && Good(cfg.pf, st)
    requires IsWalk(nameWalk, st.names.Keys) && IsWalk(hideWalk, st.hides.Keys)
    ensures Verifies(cfg.pf, cfg.pub, Sign(cfg.pub, Draft(st, nameWalk, hideWalk, now)))
    ensures Lists(Sign(cfg.pub, Draft(st, nameWalk, hideWalk, now)), st)
    ensures Sign(cfg.pub, Draft(st, nameWalk, hideWalk, now)).ts == Whole(now)
  {
    var draft := Draft(st, nameWalk, hideWalk, now);
    EntriesExact(st.names, nameWalk);
    hide GoodEntry, PostId, Verifies, EntriesOf, Distinct, Sign;
    SignVerifies(cfg.pf, cfg.pub, draft);
  }

  /** However the maps are walked, the signed list is the same. */
  lemma WalkDoesNotMatter(cfg: Config, st: State, n1: seq<string>, h1: seq<string>, n2: seq<string>,
    h2: seq<string>, now: int)
    requires IsWalk(n1, st.names.Keys) && IsWalk(n2, st.names.Keys)
    requires IsWalk(h1, st.hides.Keys) && IsWalk(h2, st.hides.Keys)
    ensures Sign(cfg.pub, Draft(st, n1, h1, now)) == Sign(cfg.pub, Draft(st, n2, h2, now))
  {
    assert Sort(EntriesOf(st.names, n1), Norm) == Sort(EntriesOf(st.names, n2), Norm) by {
      EntriesExact(st.names, n1);
      EntriesExact(st.names, n2);
      SortedSame(EntriesOf(st.names, n1), EntriesOf(st.names, n2), Norm);
    }
    SortedSame(h1, h2, Self);
  }

  lemma SortedSame<T(!new)>(s: seq<T>, t: seq<T>, key: T -> string)
    requires Distinct(s, key) && Distinct(t, key)
    requires forall x :: x in s <==> x in t
    ensures Sort(s, key) == Sort(t, key)
  {
    hide Strict;
    SortStrict(s, key);
    SortStrict(t, key);
    SortKeepsAll(s, key);
    SortKeepsAll(t, key);
    forall x ensures x in Sort(s, key) <==> x in Sort(t, key) {
      SameMembers(Sort(s, key), s, x);
      SameMembers(Sort(t, key), t, x);
    }
    StrictIsUnique(Sort(s, key), Sort(t, key), key);
  }

  // ----------------------------------------------------- the running registrar

  /** A walk over the keys of a map, in some order. */
  method Walk<T>(m: map<string, T>) returns (order: seq<string>)
    ensures IsWalk(order, m.Keys)
  {
    order := [];
    var left := m.Keys;
    while left != {}
      invariant left <= m.Keys
      invariant forall k :: k in order ==> k in m && k !in left
      invariant forall k :: k in m && k !in left ==> k in order
      invariant Distinct(order, Self)
      decreases |left|
    {
      var k :| k in left;
      order := order + [k];
      left := left - {k};
    }
  }

  class Registrar {
    const cfg: Config
    var seqNo: nat
    var names: map<string, Record>
    var admin: Option<string>
    var hides: map<string, Number>
    var recent: seq<int>
    var dirty: bool
    var bootstrapping: bool
    var lastForeign: int

    ghost function Value(): Memory
      reads this
    {
      Memory(State(seqNo, names, admin, hides), recent, dirty, bootstrapping, lastForeign)
    }

    constructor (cfg: Config, state: State)
      ensures this.cfg == cfg && Value() == Start(state)
    {
      this.cfg := cfg;
      seqNo, names, admin, hides := state.seqNo, state.names, state.admin, state.hides;
      recent, dirty, lastForeign := [], false, 0;
      bootstrapping := state.seqNo == 0 && |state.names| == 0;
    }

    method RateLimited(t: int) returns (limited: bool)
      modifies this`recent
      ensures recent == Pruned(old(recent), t)
      ensures limited == (|recent| >= RATE_MAX_NEW)
    {
      var kept: seq<int> := [];
      var i := 0;
      while i < |recent|
        invariant 0 <= i <= |recent|
        invariant recent == old(recent)
        invariant kept == Pruned(recent[..i], t)
      {
        assert recent[..i + 1][..i] == recent[..i];
        if t - recent[i] < RATE_WINDOW { kept := kept + [recent[i]]; }
        i := i + 1;
      }
      assert recent[..i] == recent;
      recent := kept;
      limited := |recent| >= RATE_MAX_NEW;
    }

    method OnClaim(norm: string, msg: ClaimPayload, t0: int, t1: int, t2: int)
      modifies this
      ensures Value() == ClaimStep(cfg, old(Value()), norm, msg, t0, t1, t2)
    {
      hide ClaimHolds, Pruned;
      if !ClaimHolds(cfg, norm, msg) { return; }
      if norm in names { return; }
      if bootstrapping && !cfg.adoptExisting { return; }
      if |names| >= MAX_NAMES { return; }
      var limited := RateLimited(t0);
      if limited { return; }
      HoldsMeansClaimed(cfg, norm, msg);
      recent := recent + [t1];
      names := names[norm := Record(Cut(msg.name, 24), Cut(msg.pk, 200), msg.ts, t2)];
      dirty := true;
    }

    method SetAdmin(pk: string) returns (ok: bool)
      modifies this
      ensures ok == Canonical(cfg.pf, pk)
      ensures ok ==> Value().state == old(Value()).state.(admin := Some(pk)) && dirty
      ensures !ok ==> Value() == old(Value())
    {
      ok := Canonical(cfg.pf, pk);
      if ok { admin := Some(pk); dirty := true; }
    }

    method OnHide(id: string, msg: HidePayload)
      modifies this
      ensures Value() == HideStep(cfg, old(Value()), id, msg)
    {
      hide PostId, SignatureHolds;
      if !PostId(id) || admin.None? || msg.UnreadableHide? { return; }
      var pk := Cut(msg.pk, 200);
      if pk != admin.value || msg.ts.NotFinite? { return; }
      if !SignatureHolds(cfg.pf, pk, HideFields(id, msg.ts), msg.sig) { return; }
      if Holds(hides, id) { return; }
      if |hides| >= MAX_HIDES { return; }
      hides := hides[id := msg.ts];
      dirty := true;
    }

    method Foreign(now: int)
      modifies this
      ensures Value() == ForeignStep(old(Value()), now)
    {
      if lastForeign != 0 && now - lastForeign < REPUBLISH_COOLDOWN { return; }
      lastForeign := now;
      dirty := true;
    }

    method AdoptFrom(reg: List, seen: nat -> int)
      modifies this`names, this`hides
      ensures names == AdoptNames(old(names), reg.names, seen)
      ensures hides == AdoptHides(old(hides), HidesOf(reg), reg.ts)
    {
      var i := 0;
      while i < |reg.names|
        invariant 0 <= i <= |reg.names|
        invariant hides == old(hides) && names == AdoptNames(old(names), reg.names[..i], seen)
      {
        var e := reg.names[i];
        assert reg.names[..i + 1][..i] == reg.names[..i];
        if e.norm !in names && IsSafeInteger(e.ts) && e.ts.value >= 0 {
          names := names[e.norm := Record(e.name, e.pk, e.ts, seen(i))];
        }
        i := i + 1;
      }
      assert reg.names[..i] == reg.names;
      var ids := HidesOf(reg);
      var j := 0;
      while j < |ids|
        invariant 0 <= j <= |ids|
        invariant names == AdoptNames(old(names), reg.names, seen)
        invariant hides == AdoptHides(old(hides), ids[..j], reg.ts)
      {
        assert ids[..j + 1][..j] == ids[..j];
        if !Holds(hides, ids[j]) { hides := hides[ids[j] := reg.ts]; }
        j := j + 1;
      }
      assert ids[..j] == ids;
    }

    method OnRegistry(payload: ListPayload, now: int, seen: nat -> int)
      modifies this
      ensures Value() == ListStep(cfg, old(Value()), payload, now, seen)
    {
      hide AdoptNames, AdoptHides, GoodEntry, PostId, Strict, SignatureHolds;
      if !payload.Parsed? { Foreign(now); return; }
      var reg := payload.reg;
      var ok := VerifyRegistry(cfg.pf, cfg.pub, reg);
      if !ok { Foreign(now); return; }
      if reg.seqNo.value > seqNo {
        AdoptFrom(reg, seen);
        if reg.admin.Some? && admin.None? { admin := reg.admin; }
        seqNo := reg.seqNo.value;
        bootstrapping := false;
        dirty := true;
      }
    }

    /** The next list, the same however the maps are walked. */
    method Build(now: int) returns (reg: List)
      modifies this`seqNo, this`dirty
      ensures Value() == old(Value()).(state := Counted(old(Value()).state), dirty := false)
      ensures reg.ts == Whole(now) && reg.seqNo == Whole(old(seqNo) + 1)
      ensures forall nw, hw :: IsWalk(nw, names.Keys) && IsWalk(hw, hides.Keys) ==>
        reg == Sign(cfg.pub, Draft(Value().state, nw, hw, now))
    {
      seqNo := seqNo + 1;
      var nameWalk := Walk(names);
      var hideWalk := Walk(hides);
      var st := State(seqNo, names, admin, hides);
      reg := Sign(cfg.pub, Draft(st, nameWalk, hideWalk, now));
      dirty := false;
      hide Sign, Draft;
      forall nw, hw | IsWalk(nw, names.Keys) && IsWalk(hw, hides.Keys)
        ensures reg == Sign(cfg.pub, Draft(st, nw, hw, now))
      {
        WalkDoesNotMatter(cfg, st, nameWalk, hideWalk, nw, hw, now);
      }
    }
  }

  lemma HoldsMeansClaimed(cfg: Config, norm: string, msg: ClaimPayload)
    requires ClaimHolds(cfg, norm, msg)
    ensures msg.Claimed?
  {
  }
}
