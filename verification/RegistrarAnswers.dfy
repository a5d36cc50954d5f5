/**
 What the registrar owes those who write to it: which claims and hides it records and
 which lists it takes over, exactly, and that what it recorded is in the lists it builds.
 */
module RegistrarAnswers {
  import opened Options
  import opened RegistryList
  import opened Registrar
  import opened RegistrarRuns
  import opened RegistrarRecovery

  // ------------------------------------------------------------------ claims

  /** Pruning keeps one time for each that lies inside the window. */
  lemma {:induction false} PrunedCounts(recent: seq<int>, t: int)
    ensures |Pruned(recent, t)| == |set i | 0 <= i < |recent| && t - recent[i] < 600000|
  {
    var all := set i | 0 <= i < |recent| && t - recent[i] < 600000;
    if |recent| == 0 {
      assert all == {};
    } else {
      var k := |recent| - 1;
      var front := recent[..k];
      var before := set i | 0 <= i < |front| && t - front[i] < 600000;
      PrunedCounts(front, t);
      assert all == before + if t - recent[k] < 600000 then {k} else {};
    }
  }

  /**
   A claim for a name not yet recorded is recorded exactly when it holds, the settle window
   is over or existing claims are adopted, fewer than 3000 names are recorded, and fewer than
   200 of the remembered times lie within the last 600000 milliseconds. Then it is recorded
   as claimed and flagged; otherwise, and for a name already recorded, nothing is recorded.
   */
  lemma ClaimIsRecordedIff(cfg: Config, m: Memory, norm: string, msg: ClaimPayload, t0: int, t1: int, t2: int)
    ensures var after, st := ClaimStep(cfg, m, norm, msg, t0, t1, t2), m.state;
      if norm !in st.names && ClaimHolds(cfg, norm, msg) && (!m.bootstrapping || cfg.adoptExisting) &&
        |st.names| < 3000 && |set i | 0 <= i < |m.recent| && t0 - m.recent[i] < 600000| < 200
      then
        && msg.Claimed? && after.dirty
        && after.state == st.(names := st.names[norm := Record(Cut(msg.name, 24), Cut(msg.pk, 200), msg.ts, t2)])
      else after.state == st && after.dirty == m.dirty
  {
    PrunedCounts(m.recent, t0);
    hide Pruned;
  }

  /** What its owner signs and sends for a name. */
  function OwnClaim(cfg: Config, name: string, pk: string, ts: int): ClaimPayload {
    Claimed(name, pk, Whole(ts), SignedBy(pk, ClaimFields(cfg.pf.normalize(name), name, pk, Whole(ts))))
  }

  /** As compared, 3 to 24 letters, digits, dots, dashes and underscores, the first a letter or digit. */
  predicate Takeable(cfg: Config, name: string) {
    var norm := cfg.pf.normalize(name);
    && |name| <= 24 && cfg.pf.normalize(norm) == norm && 3 <= |norm| <= 24
    && norm[0] != '.' && norm[0] != '-' && norm[0] != '_'
    && forall c :: c in norm ==> 'a' <= c <= 'z' || '0' <= c <= '9' || c == '.' || c == '-' || c == '_'
  }

  /**
   A claim its owner signed holds exactly when the name may be taken: any such name, any key
   in the one form pages use, and any whole time JavaScript holds exactly.
   */
  lemma OwnClaimHoldsIff(cfg: Config, name: string, pk: string, ts: int)
    requires |name| <= 24 && |pk| == 88 && cfg.pf.encodesPoint(pk)
    ensures ClaimHolds(cfg, cfg.pf.normalize(name), OwnClaim(cfg, name, pk, ts)) <==>
      Takeable(cfg, name) && 0 <= ts < 0x20_0000_0000_0000
  {
    var norm := cfg.pf.normalize(name);
    if NameShape(norm) {
      forall c | c in norm ensures NameChar(c) {
        var i :| 0 <= i < |norm| && norm[i] == c;
        assert NameChar(norm[i]);
      }
    }
    if Takeable(cfg, name) {
      forall i | 0 <= i < |norm| ensures NameChar(norm[i]) { assert norm[i] in norm; }
      assert NameShape(norm);
    }
  }

  /** A start waits for the settle window exactly when it finds no number and no name, and begins with no burst. */
  lemma StartWaitsIff(st: State)
    ensures Start(st).state == st && Start(st).recent == [] && !Start(st).dirty
    ensures Start(st).bootstrapping <==> st.seqNo == 0 && st.names == map[]
  {
    assert |st.names| == 0 <==> st.names == map[];
  }

  /** So a claim that holds is recorded at once by a process that began with any number or name, if there is room. */
  lemma RestartedRecords(cfg: Config, st: State, norm: string, msg: ClaimPayload, t0: int, t1: int, t2: int)
    requires ClaimHolds(cfg, norm, msg) && norm !in st.names && |st.names| < 3000
    ensures norm in ClaimStep(cfg, Start(st), norm, msg, t0, t1, t2).state.names <==>
      cfg.adoptExisting || st.seqNo > 0 || st.names != map[]
  {
    StartWaitsIff(st);
    ClaimIsRecordedIff(cfg, Start(st), norm, msg, t0, t1, t2);
    PrunedCounts(Start(st).recent, t0);
    hide ClaimHolds, ClaimStep, Start;
  }

  /** The end of the settle window opens the registrar to claims and changes nothing else. */
  lemma SettleOpens(cfg: Config, run: seq<Label>)
    requires Exec(cfg, run).stage.Idle?
    ensures var w := Exec(cfg, run); Exec(cfg, run + [Settle]) == w.(mem := w.mem.(bootstrapping := false))
  {
    ExecNext(cfg, run, Settle);
    hide Exec;
  }

  // ------------------------------------------------------------------- lists

  /** While the process lives, memory only records more. */
  lemma LivingExtends(cfg: Config, w: World, l: Label)
    requires !IsStart(l)
    ensures Extends(Step(cfg, w, l).mem.state, w.mem.state)
  {
    hide Extends, ClaimStep, HideStep, ListStep, Draft, Sign, IsWalk, Unforged;
    ExtendsSelf(w.mem.state);
    if Enabled(cfg, w, l) && IsMemoryStep(l) { MemoryExtends(cfg, w, l); }
  }

  lemma {:induction false} LivingRunExtends(cfg: Config, run: seq<Label>, more: seq<Label>)
    requires forall l :: l in more ==> !IsStart(l)
    ensures Extends(Exec(cfg, run + more).mem.state, Exec(cfg, run).mem.state)
  {
    hide Exec, Extends, IsStart;
    if |more| == 0 {
      assert run + more == run;
      ExtendsSelf(Exec(cfg, run).mem.state);
    } else {
      var front, l := more[..|more| - 1], more[|more| - 1];
      LivingRunExtends(cfg, run, front);
      assert run + more == (run + front) + [l];
      ExecNext(cfg, run + front, l);
      LivingExtends(cfg, Exec(cfg, run + front), l);
      ExtendsTransitive(Exec(cfg, run + more).mem.state, Exec(cfg, run + front).mem.state, Exec(cfg, run).mem.state);
    }
  }

  /** A list built says exactly what is then recorded, is dated by the clock read for it, and verifies. */
  lemma BuiltSays(cfg: Config, run: seq<Label>, build: Label) returns (reg: List)
    requires Canonical(cfg.pf, cfg.pub) && build.Build? && Enabled(cfg, Exec(cfg, run), build)
    ensures Exec(cfg, run + [build]).stage == Built(reg)
    ensures Lists(reg, Exec(cfg, run + [build]).mem.state) && Verifies(cfg.pf, cfg.pub, reg)
    ensures reg.ts == Whole(build.at)
    ensures reg.seqNo == Whole(Exec(cfg, run).mem.state.seqNo + 1)
  {
    var w := Exec(cfg, run);
    EveryListIsExact(cfg, run);
    ExecNext(cfg, run, build);
    hide Exec, Verifies, Lists, Draft, Sign, Good, IsWalk, Precedes;
    var st := Counted(w.mem.state);
    BuiltListVerifies(cfg, st, build.nameWalk, build.hideWalk, build.at);
    reg := Sign(cfg.pub, Draft(st, build.nameWalk, build.hideWalk, build.at));
    SeqOfListing(reg, st);
  }

  /**
   Whatever else comes in, a name once recorded is in every list the process goes on to build,
   with the name, key and time it was recorded with.
   */
  lemma RecordedIsListed(cfg: Config, run: seq<Label>, more: seq<Label>, build: Label, n: string)
    returns (reg: List)
    requires Canonical(cfg.pf, cfg.pub) && n in Exec(cfg, run).mem.state.names
    requires forall l :: l in more ==> !IsStart(l)
    requires build.Build? && Enabled(cfg, Exec(cfg, run + more), build)
    ensures Exec(cfg, run + more + [build]).stage == Built(reg) && Verifies(cfg.pf, cfg.pub, reg)
    ensures EntryOf(n, Exec(cfg, run).mem.state.names[n]) in reg.names
  {
    LivingRunExtends(cfg, run, more);
    reg := BuiltSays(cfg, run + more, build);
    ExecNext(cfg, run + more, build);
    LivingExtends(cfg, Exec(cfg, run + more), build);
    hide Exec, Step, Verifies, Enabled, IsStart;
  }

  /** A claim comes to a free name: no list is on its way out, and there is room, no burst and no settle window. */
  ghost predicate Welcome(cfg: Config, w: World, norm: string, t0: int) {
    && w.stage.Idle? && norm !in w.mem.state.names
    && (!w.mem.bootstrapping || cfg.adoptExisting) && |w.mem.state.names| < 3000
    && |set i | 0 <= i < |w.mem.recent| && t0 - w.mem.recent[i] < 600000| < 200
  }

  /**
   In any run: a claim that holds and is welcome is in every list the process goes on to
   build, under exactly the name, key and time it claims.
   */
  lemma ClaimIsListed(cfg: Config, run: seq<Label>, l: Label, more: seq<Label>, build: Label)
    returns (reg: List)
    requires Canonical(cfg.pf, cfg.pub) && l.Claim? && ClaimHolds(cfg, l.norm, l.claim)
    requires Welcome(cfg, Exec(cfg, run), l.norm, l.t0)
    requires forall k :: k in more ==> !IsStart(k)
    requires build.Build? && Enabled(cfg, Exec(cfg, run + [l] + more), build)
    ensures Exec(cfg, run + [l] + more + [build]).stage == Built(reg)
    ensures Verifies(cfg.pf, cfg.pub, reg)
    ensures l.claim.Claimed? && Entry(l.norm, Cut(l.claim.name, 24), Cut(l.claim.pk, 200), l.claim.ts) in reg.names
  {
    ClaimIsRecordedIff(cfg, Exec(cfg, run).mem, l.norm, l.claim, l.t0, l.t1, l.t2);
    ExecNext(cfg, run, l);
    hide Exec, ClaimHolds, ClaimStep, Verifies, IsWalk, Canonical, IsStart;
    reg := RecordedIsListed(cfg, run + [l], more, build, l.norm);
  }

  /** So is every claim an owner signs for a name that may be taken. */
  lemma OwnClaimIsListed(cfg: Config, run: seq<Label>, name: string, pk: string, ts: int, t0: int, t1: int, t2: int,
    more: seq<Label>, build: Label)
    returns (reg: List)
    requires Canonical(cfg.pf, cfg.pub) && |pk| == 88 && cfg.pf.encodesPoint(pk)
    requires Takeable(cfg, name) && 0 <= ts < 0x20_0000_0000_0000
    requires Welcome(cfg, Exec(cfg, run), cfg.pf.normalize(name), t0)
    requires forall l :: l in more ==> !IsStart(l)
    requires var l := Claim(cfg.pf.normalize(name), OwnClaim(cfg, name, pk, ts), t0, t1, t2);
      build.Build? && Enabled(cfg, Exec(cfg, run + [l] + more), build)
    ensures var l := Claim(cfg.pf.normalize(name), OwnClaim(cfg, name, pk, ts), t0, t1, t2);
      Exec(cfg, run + [l] + more + [build]).stage == Built(reg)
    ensures Verifies(cfg.pf, cfg.pub, reg)
    ensures Entry(cfg.pf.normalize(name), name, pk, Whole(ts)) in reg.names
  {
    var l := Claim(cfg.pf.normalize(name), OwnClaim(cfg, name, pk, ts), t0, t1, t2);
    OwnClaimHoldsIff(cfg, name, pk, ts);
    hide Exec, ClaimHolds, Welcome, Takeable, Verifies, Enabled, Canonical, IsStart;
    reg := ClaimIsListed(cfg, run, l, more, build);
  }

  // ------------------------------------------------------------------- hides

  /**
   A post is put among the hides exactly when its id is one, the moderator named by the
   operator signed the hide with a finite time, no hide of it with a time other than zero is
   kept, and fewer than 5000 are. Otherwise nothing changes.
   */
  lemma HideIsRecordedIff(cfg: Config, m: Memory, id: string, msg: HidePayload)
    requires m.state.admin.Some? ==> Canonical(cfg.pf, m.state.admin.value)
    ensures var after, st := HideStep(cfg, m, id, msg), m.state;
      if
        && PostId(id) && msg.Hidden? && st.admin == Some(Cut(msg.pk, 200)) && !msg.ts.NotFinite?
        && msg.sig == SignedBy(Cut(msg.pk, 200), HideFields(id, msg.ts))
        && (id in st.hides ==> st.hides[id] == Whole(0)) && |st.hides| < 5000
      then after == m.(state := st.(hides := st.hides[id := msg.ts]), dirty := true)
      else after == m
  {
    hide PostId, Canonical;
  }

  /** A hide its moderator signed is in every list the process goes on to build. */
  lemma OwnHideIsListed(cfg: Config, run: seq<Label>, id: string, ts: int, more: seq<Label>, build: Label)
    returns (reg: List)
    requires Canonical(cfg.pf, cfg.pub) && PostId(id)
    requires var w := Exec(cfg, run);
      w.stage.Idle? && w.mem.state.admin.Some? && id !in w.mem.state.hides && |w.mem.state.hides| < 5000
    requires forall l :: l in more ==> !IsStart(l)
    requires var pk := Exec(cfg, run).mem.state.admin.value;
      var l := Hide(id, Hidden(pk, Whole(ts), SignedBy(pk, HideFields(id, Whole(ts)))));
      build.Build? && Enabled(cfg, Exec(cfg, run + [l] + more), build)
    ensures var pk := Exec(cfg, run).mem.state.admin.value;
      var l := Hide(id, Hidden(pk, Whole(ts), SignedBy(pk, HideFields(id, Whole(ts)))));
      Exec(cfg, run + [l] + more + [build]).stage == Built(reg)
    ensures Verifies(cfg.pf, cfg.pub, reg) && id in HidesOf(reg)
  {
    var w := Exec(cfg, run);
    var pk := w.mem.state.admin.value;
    var msg := Hidden(pk, Whole(ts), SignedBy(pk, HideFields(id, Whole(ts))));
    var l := Hide(id, msg);
    EveryListIsExact(cfg, run);
    AdminIsCanonical(cfg, w);
    HideIsRecordedIff(cfg, w.mem, id, msg);
    assert Cut(pk, 200) == pk by { CanonicalIsShort(cfg.pf, pk); }
    ExecNext(cfg, run, l);
    hide *;
    reg := HiddenIsListed(cfg, run + [l], more, build, id);
  }

  /** Whatever else comes in, a post once hidden is hidden in every list the process goes on to build. */
  lemma HiddenIsListed(cfg: Config, run: seq<Label>, more: seq<Label>, build: Label, id: string)
    returns (reg: List)
    requires Canonical(cfg.pf, cfg.pub) && id in Exec(cfg, run).mem.state.hides
    requires forall l :: l in more ==> !IsStart(l)
    requires build.Build? && Enabled(cfg, Exec(cfg, run + more), build)
    ensures Exec(cfg, run + more + [build]).stage == Built(reg)
    ensures Verifies(cfg.pf, cfg.pub, reg) && id in HidesOf(reg)
  {
    LivingRunExtends(cfg, run, more);
    reg := BuiltSays(cfg, run + more, build);
    ExecNext(cfg, run + more, build);
    LivingExtends(cfg, Exec(cfg, run + more), build);
    hide Exec, Step, Verifies, Enabled, IsStart;
  }

  lemma CanonicalIsShort(pf: Platform, pk: string)
    requires Canonical(pf, pk)
    ensures |pk| == 88
  {
  }

  lemma AdminIsCanonical(cfg: Config, w: World)
    requires Fair(cfg, w)
    ensures w.mem.state.admin.Some? ==> Canonical(cfg.pf, w.mem.state.admin.value)
  {
  }

  // --------------------------------------------------------------- the moderator

  lemma LivingKeepsAdmin(cfg: Config, w: World, l: Label)
    requires !IsStart(l) && w.mem.state.admin.Some?
    ensures Step(cfg, w, l).mem.state.admin == w.mem.state.admin
  {
    hide ClaimHolds, Pruned, PostId, SignatureHolds, Verifies, AdoptNames, AdoptHides, Draft, Sign, IsWalk, Unforged;
  }

  lemma {:induction false} LivingRunKeepsAdmin(cfg: Config, run: seq<Label>, more: seq<Label>)
    requires (forall l :: l in more ==> !IsStart(l)) && Exec(cfg, run).mem.state.admin.Some?
    ensures Exec(cfg, run + more).mem.state.admin == Exec(cfg, run).mem.state.admin
  {
    hide Exec, IsStart;
    if |more| == 0 {
      assert run + more == run;
    } else {
      var front, l := more[..|more| - 1], more[|more| - 1];
      LivingRunKeepsAdmin(cfg, run, front);
      assert run + more == (run + front) + [l];
      ExecNext(cfg, run + front, l);
      LivingKeepsAdmin(cfg, Exec(cfg, run + front), l);
    }
  }

  /** The moderator the operator names is in every list the process goes on to build. */
  lemma NamedIsListed(cfg: Config, run: seq<Label>, pk: string, more: seq<Label>, build: Label)
    returns (reg: List)
    requires Canonical(cfg.pf, cfg.pub) && Canonical(cfg.pf, pk)
    requires forall l :: l in more ==> !IsStart(l)
    requires build.Build? && Enabled(cfg, Exec(cfg, run + [SetAdmin(pk)] + more), build)
    ensures Exec(cfg, run + [SetAdmin(pk)] + more + [build]).stage == Built(reg)
    ensures Verifies(cfg.pf, cfg.pub, reg) && reg.admin == Some(pk)
  {
    var named := run + [SetAdmin(pk)];
    ExecNext(cfg, run, SetAdmin(pk));
    assert Exec(cfg, named).mem.state.admin == Some(pk) by { hide Exec, Canonical; }
    hide Exec, IsStart, Enabled, Canonical, Verifies, IsWalk;
    LivingRunKeepsAdmin(cfg, named, more);
    reg := BuiltSays(cfg, named + more, build);
    ExecNext(cfg, named + more, build);
    LivingKeepsAdmin(cfg, Exec(cfg, named + more), build);
    hide Step;
  }

  // --------------------------------------------------------- lists handed over

  /**
   A list handed over is taken over exactly when it verifies and has a higher number than
   the state: its number, the lines for names not recorded, its hides, and its moderator
   where none was named. One of ours that is not newer changes nothing.
   Anything else leaves the state alone and is answered unless the last answer was given
   less than 60000 milliseconds ago.
   */
  lemma ListIsAnswered(cfg: Config, m: Memory, payload: ListPayload, now: int, seen: nat -> int)
    ensures var after, st := ListStep(cfg, m, payload, now, seen), m.state;
      if !(payload.Parsed? && Verifies(cfg.pf, cfg.pub, payload.reg)) then
        && after.state == st && after.bootstrapping == m.bootstrapping
        && (if m.lastForeign == 0 || now - m.lastForeign >= 60000
            then after.dirty && after.lastForeign == now else after == m)
      else if payload.reg.seqNo.value <= st.seqNo then after == m
      else after.dirty && !after.bootstrapping && TakenOver(st, payload.reg, after.state)
  {
    hide GoodEntry, PostId, Strict, SignatureHolds, Adopt, TakenOver;
    if payload.Parsed? && Verifies(cfg.pf, cfg.pub, payload.reg) && payload.reg.seqNo.value > m.state.seqNo {
      AdoptTakesOver(cfg, m.state, payload.reg, seen);
    }
  }

  ghost predicate TakenOver(st: State, reg: List, after: State) {
    && reg.seqNo == Whole(after.seqNo)
    && (forall n :: n in after.names <==> n in st.names || exists e :: e in reg.names && e.norm == n)
    && (forall n :: n in st.names ==> after.names[n] == st.names[n])
    && (forall e :: e in reg.names && e.norm !in st.names ==> EntryOf(e.norm, after.names[e.norm]) == e)
    && (forall h :: h in after.hides <==> h in st.hides || h in HidesOf(reg))
    && after.admin == if st.admin.Some? then st.admin else reg.admin
  }

  lemma AdoptTakesOver(cfg: Config, st: State, reg: List, seen: nat -> int)
    requires Verifies(cfg.pf, cfg.pub, reg)
    ensures TakenOver(st, reg, Adopt(st, reg, seen))
  {
    EntriesAreTimed(cfg, reg);
    hide GoodEntry, PostId, Strict, SignatureHolds, AdoptNames, AdoptHides, IsSafeInteger;
    AdoptHidesExact(st.hides, HidesOf(reg), reg.ts);
    var after := AdoptNames(st.names, reg.names, seen);
    forall e | e in reg.names
      ensures e.norm in after && (e.norm !in st.names ==> EntryOf(e.norm, after[e.norm]) == e)
    {
      var i :| 0 <= i < |reg.names| && reg.names[i] == e;
      AdoptAddsMissing(st.names, reg.names, seen, i);
    }
    forall n | n in st.names ensures n in after && after[n] == st.names[n] {
      AdoptKeepsRecords(st.names, reg.names, seen, n);
    }
    forall n | n in after && n !in st.names ensures exists e :: e in reg.names && e.norm == n {
      AdoptAddsOnlyListed(st.names, reg.names, seen, n);
    }
  }

  lemma EntriesAreTimed(cfg: Config, reg: List)
    requires Verifies(cfg.pf, cfg.pub, reg)
    ensures forall e :: e in reg.names ==> IsSafeInteger(e.ts) && e.ts.value >= 0
  {
  }
}
