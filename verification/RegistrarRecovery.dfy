/**
 Registrars that lost their disk, could not read it, or were given back an old one. A copy
 is behind when it started without its state file, or from a backup that does not cover the
 newest list sent, until the relay has handed that list over and no name on it was bound
 otherwise; what was adopted counts for a restart only once it is saved.
 */
module RegistrarRecovery {
  import opened Options
  import opened RegistryList
  import opened Registrar
  import opened RegistrarRuns

  ghost function Newest(w: World): (p: List)
    requires |w.published| > 0
    ensures p in w.published
  {
    w.published[|w.published| - 1]
  }

  /** The state has a lower number than the list. */
  predicate Below(st: State, p: List) { p.seqNo.Whole? && st.seqNo < p.seqNo.value }

  /** No name on the list is bound otherwise. */
  ghost predicate Agrees(st: State, p: List) {
    forall e :: e in p.names && e.norm in st.names ==> EntryOf(e.norm, st.names[e.norm]) == e
  }

  /** In order, the newest list carries all the others. */
  lemma CoversAll(w: World, st: State)
    requires Ordered(w.published) && |w.published| > 0
    ensures Covers(st, Newest(w)) <==> CaughtUp(st, w.published)
  {
    hide Covers, Precedes;
    if Covers(st, Newest(w)) {
      forall p | p in w.published ensures Covers(st, p) {
        var i :| 0 <= i < |w.published| && w.published[i] == p;
        if i < |w.published| - 1 {
          assert Precedes(w.published[i], w.published[|w.published| - 1]);
          CoversEarlier(st, p, Newest(w));
        }
      }
    }
  }

  /** A lost copy that adopts the newest list is caught up exactly when it had bound none of its names otherwise. */
  lemma AdoptionCatchesUpIff(cfg: Config, w: World, st: State, seen: nat -> int)
    requires AllVerify(cfg, w.published) && Ordered(w.published) && |w.published| > 0
    requires Newest(w).seqNo.value > st.seqNo
    ensures Verifies(cfg.pf, cfg.pub, Newest(w))
    ensures CaughtUp(Adopt(st, Newest(w), seen), w.published) <==> Agrees(st, Newest(w))
  {
    var newest := Newest(w);
    var after := Adopt(st, newest, seen);
    if Agrees(st, newest) {
      AdoptedCovers(cfg, st, newest, seen);
      CoversAll(w, after);
    }
    if CaughtUp(after, w.published) {
      assert Covers(after, newest);
      forall e | e in newest.names && e.norm in st.names ensures EntryOf(e.norm, st.names[e.norm]) == e {
        AdoptKeepsRecords(st.names, newest.names, seen, e.norm);
      }
    }
  }

  lemma CoversEarlier(st: State, p: List, q: List)
    requires Covers(st, q) && Precedes(p, q)
    ensures Covers(st, p)
  {
  }

  lemma AdoptedCovers(cfg: Config, st: State, reg: List, seen: nat -> int)
    requires Verifies(cfg.pf, cfg.pub, reg)
    requires Agrees(st, reg)
    ensures Covers(Adopt(st, reg, seen), reg)
  {
    hide Strict, PostId;
    var names := AdoptNames(st.names, reg.names, seen);
    AdoptHidesExact(st.hides, HidesOf(reg), reg.ts);
    forall e | e in reg.names ensures e.norm in names && EntryOf(e.norm, names[e.norm]) == e {
      var i :| 0 <= i < |reg.names| && reg.names[i] == e;
      if e.norm in st.names {
        AdoptKeepsRecords(st.names, reg.names, seen, e.norm);
      } else {
        AdoptAddsMissing(st.names, reg.names, seen, i);
      }
    }
  }

  predicate IsMessage(l: Label) { l.Claim? || l.Hide? }

  ghost function ExecFrom(cfg: Config, w: World, run: seq<Label>): World {
    if |run| == 0 then w else Step(cfg, ExecFrom(cfg, w, run[..|run| - 1]), run[|run| - 1])
  }

  /** Until it has settled, a copy that starts from nothing records nothing. */
  lemma {:induction false} BootstrapRecordsNothing(cfg: Config, w: World, run: seq<Label>)
    requires !cfg.adoptExisting && forall k :: 0 <= k < |run| ==> IsMessage(run[k])
    requires w.mem == Start(EMPTY) && w.stage.Idle?
    ensures ExecFrom(cfg, w, run).mem == Start(EMPTY)
    ensures ExecFrom(cfg, w, run).published == w.published && ExecFrom(cfg, w, run).stage.Idle?
  {
    hide ClaimHolds, PostId, Pruned;
    if |run| > 0 { BootstrapRecordsNothing(cfg, w, run[..|run| - 1]); }
  }

  /**
   A registrar that lost its whole disk and was not told to adopt existing claims is
   caught up again as soon as the relay hands back the newest list, whatever claims
   arrived before it.
   */
  lemma LostDiskRecovers(cfg: Config, w: World, run: seq<Label>, now: int, seen: nat -> int)
    requires Sound(cfg, w) && |w.published| > 0 && !cfg.adoptExisting
    requires forall k :: 0 <= k < |run| ==> IsMessage(run[k])
    ensures var late := ExecFrom(cfg, Rebooted(w, EMPTY), run);
      var back := Step(cfg, late, Relay(Parsed(Newest(w)), now, seen));
      CaughtUp(back.mem.state, back.published) && back.published == w.published
  {
    var newest := Newest(w);
    var late := ExecFrom(cfg, Rebooted(w, EMPTY), run);
    BootstrapRecordsNothing(cfg, Rebooted(w, EMPTY), run);
    assert newest in w.published;
    assert Unforged(cfg, late, Parsed(newest));
    AdoptionCatchesUpIff(cfg, w, EMPTY, seen);
  }

  // ------------------------------------------------------------------ being behind

  /** Whether the running copy is behind, and whether its disk is. */
  datatype Lag = Lag(mem: bool, disk: bool)

  /** The relay hands over the newest list to a copy below its number that has bound none of its names otherwise. */
  ghost predicate HandsBack(cfg: Config, w: World, l: Label) {
    && l.Relay? && Enabled(cfg, w, l) && |w.published| > 0
    && l.payload == Parsed(Newest(w))
    && Below(w.mem.state, Newest(w)) && Agrees(w.mem.state, Newest(w))
  }

  /** The backup is at least as far as the newest list and has every line of it. */
  ghost predicate Current(w: World, backup: State) {
    |w.published| == 0 || Covers(backup, Newest(w))
  }

  ghost function LagStep(cfg: Config, w: World, g: Lag, l: Label): Lag {
    if !Enabled(cfg, w, l) then g
    else match l
      case Restore(backup) => Lag(!Current(w, backup), !Current(w, backup))
      case Unread => Lag(!Current(w, EMPTY), g.disk)
      case Relay(_, _, _) => if HandsBack(cfg, w, l) then Lag(false, g.disk) else g
      case Save => Lag(g.mem, g.mem)
      case Crash => Lag(g.disk, g.disk)
      case SetAdmin(_) => Lag(g.disk, g.disk)
      case _ => g
  }

  ghost function LagOf(cfg: Config, run: seq<Label>): Lag {
    if |run| == 0 then Lag(false, false)
    else LagStep(cfg, Exec(cfg, run[..|run| - 1]), LagOf(cfg, run[..|run| - 1]), run[|run| - 1])
  }

  /** No list is built by a copy that is behind. */
  ghost predicate BuildsWait(cfg: Config, run: seq<Label>) {
    |run| == 0 || (BuildsWait(cfg, run[..|run| - 1]) && !BuildsEarly(cfg, run[..|run| - 1], run[|run| - 1]))
  }

  ghost predicate BuildsEarly(cfg: Config, run: seq<Label>, l: Label) {
    l.Build? && Enabled(cfg, Exec(cfg, run), l) && LagOf(cfg, run).mem
  }

  /** A copy that is not behind is caught up. */
  ghost predicate LagHolds(w: World, g: Lag) {
    && (!g.mem ==> CaughtUp(w.mem.state, w.published))
    && (!g.disk ==> CaughtUp(w.disk, w.published))
    && (!w.stage.Idle? ==> !g.mem) && (w.stage.Saved? ==> !g.disk)
  }

  lemma ListExtends(cfg: Config, m: Memory, payload: ListPayload, now: int, seen: nat -> int)
    ensures Extends(ListStep(cfg, m, payload, now, seen).state, m.state)
  {
    hide GoodEntry, PostId, Strict, SignatureHolds;
    if payload.Parsed? && Verifies(cfg.pf, cfg.pub, payload.reg) {
      var reg := payload.reg;
      AdoptHidesExact(m.state.hides, HidesOf(reg), reg.ts);
      forall n | n in m.state.names
        ensures n in AdoptNames(m.state.names, reg.names, seen) &&
          AdoptNames(m.state.names, reg.names, seen)[n] == m.state.names[n]
      {
        AdoptKeepsRecords(m.state.names, reg.names, seen, n);
      }
    }
  }

  predicate IsMemoryStep(l: Label) { l.Claim? || l.Hide? || l.Relay? || l.Settle? || l.Build? }

  /** Between two starts, memory only records more. */
  lemma MemoryExtends(cfg: Config, w: World, l: Label)
    requires Enabled(cfg, w, l) && IsMemoryStep(l)
    ensures var v := Act(cfg, w, l);
      Extends(v.mem.state, w.mem.state) && v.disk == w.disk && v.published == w.published
  {
    hide Extends, ClaimStep, HideStep, ListStep, Draft, Sign, IsWalk, Unforged;
    match l
    case Claim(norm, msg, t0, t1, t2) => ClaimExtends(cfg, w.mem, norm, msg, t0, t1, t2);
    case Hide(id, msg) => HideExtends(cfg, w.mem, id, msg);
    case Relay(payload, now, seen) => ListExtends(cfg, w.mem, payload, now, seen);
    case _ => ExtendsSelf(w.mem.state);
  }

  lemma HandBackCatchesUp(cfg: Config, w: World, l: Label)
    requires AllVerify(cfg, w.published) && Ordered(w.published) && HandsBack(cfg, w, l)
    ensures CaughtUp(Act(cfg, w, l).mem.state, w.published)
  {
    hide Covers, Verifies, Adopt;
    AdoptionCatchesUpIff(cfg, w, w.mem.state, l.seen);
  }

  lemma CurrentIsCaughtUp(w: World, backup: State)
    requires Ordered(w.published)
    ensures Current(w, backup) <==> CaughtUp(backup, w.published)
  {
    if |w.published| > 0 { CoversAll(w, backup); }
  }

  lemma StepKeepsLag(cfg: Config, w: World, g: Lag, l: Label)
    requires Sound(cfg, w) && LagHolds(w, g) && !(l.Build? && Enabled(cfg, w, l) && g.mem)
    ensures LagHolds(Step(cfg, w, l), LagStep(cfg, w, g, l))
  {
    hide Fair, Covers, Precedes, CaughtUp, Extends, ClaimStep, HideStep, ListStep, Draft, Sign, Good, IsWalk,
      Unforged, Canonical;
    if Enabled(cfg, w, l) {
      if IsMemoryStep(l) {
        MemoryExtends(cfg, w, l);
        if !g.mem { ExtendsCaughtUp(Act(cfg, w, l).mem.state, w.mem.state, w.published); }
        if HandsBack(cfg, w, l) {
          FairVerifies(cfg, w);
          HandBackCatchesUp(cfg, w, l);
        }
      } else {
        match l
        case Restore(backup) => CurrentIsCaughtUp(w, backup);
        case Unread => CurrentIsCaughtUp(w, EMPTY);
        case SetAdmin(pk) => if !g.disk { AdminIsApart(w.disk, pk, w.published); }
        case Send => SentIsCaughtUp(cfg, w);
        case _ =>
      }
    }
  }

  lemma FairVerifies(cfg: Config, w: World)
    requires Fair(cfg, w)
    ensures AllVerify(cfg, w.published) && StageHolds(cfg, w)
  {
  }

  lemma SentIsCaughtUp(cfg: Config, w: World)
    requires Fair(cfg, w) && w.stage.Saved? && CaughtUp(w.mem.state, w.published)
    ensures CaughtUp(w.mem.state, w.published + [w.stage.reg]) && w.disk == w.mem.state
  {
    hide Verifies, Good;
  }

  lemma {:induction false} WaitingRunsAreSound(cfg: Config, run: seq<Label>)
    requires Canonical(cfg.pf, cfg.pub) && BuildsWait(cfg, run)
    ensures Sound(cfg, Exec(cfg, run)) && LagHolds(Exec(cfg, run), LagOf(cfg, run))
  {
    if |run| > 0 {
      var w, g, l := Exec(cfg, run[..|run| - 1]), LagOf(cfg, run[..|run| - 1]), run[|run| - 1];
      WaitingRunsAreSound(cfg, run[..|run| - 1]);
      hide Step, LagStep, Sound, CaughtUp, Enabled, Canonical;
      StepIsSound(cfg, w, l);
      StepKeepsLag(cfg, w, g, l);
    }
  }

  /**
   In every run, whatever disks are lost and whatever backups restored: if no list is
   built by a copy that is behind, the lists sent stay in order.
   */
  lemma RecoveredRunsStayOrdered(cfg: Config, run: seq<Label>)
    requires Canonical(cfg.pf, cfg.pub) && BuildsWait(cfg, run)
    ensures Ordered(Exec(cfg, run).published)
  {
    WaitingRunsAreSound(cfg, run);
  }

  // ------------------------------------------------------------------ the converse

  /** Below the newest list, or with a name on it bound otherwise: nothing but that list, in time, makes up for it. */
  ghost predicate Lost(w: World, st: State) {
    |w.published| > 0 && (Below(st, Newest(w)) || !Agrees(st, Newest(w)))
  }

  lemma LostIsNotCaughtUp(w: World, st: State)
    requires Lost(w, st)
    ensures !CaughtUp(st, w.published)
  {
    assert Newest(w) in w.published;
  }

  /** A backup with the number of the newest list, or above, has its lines or binds one of its names otherwise. */
  ghost predicate Trails(w: World, backup: State) {
    Current(w, backup) || Lost(w, backup)
  }

  ghost predicate BackupsTrail(cfg: Config, run: seq<Label>) {
    |run| == 0 ||
    (BackupsTrail(cfg, run[..|run| - 1]) &&
     (run[|run| - 1].Restore? ==> Trails(Exec(cfg, run[..|run| - 1]), run[|run| - 1].backup)))
  }

  ghost predicate LagIsLoss(w: World, g: Lag) {
    (g.mem ==> Lost(w, w.mem.state)) && (g.disk ==> Lost(w, w.disk))
  }

  /** Bindings never change, so a disagreement stays. */
  lemma DisagreementStays(a: State, b: State, p: List)
    requires Extends(a, b) && !Agrees(b, p)
    ensures !Agrees(a, p)
  {
    var e :| e in p.names && e.norm in b.names && EntryOf(e.norm, b.names[e.norm]) != e;
    assert e.norm in a.names && a.names[e.norm] == b.names[e.norm];
  }

  /** Of the lists the relay can show, only the newest has its number. */
  lemma OlderIsBelow(cfg: Config, w: World, reg: List)
    requires AllVerify(cfg, w.published) && Ordered(w.published) && |w.published| > 0
    requires Verifies(cfg.pf, cfg.pub, reg) && Unforged(cfg, w, Parsed(reg)) && reg != Newest(w)
    ensures reg.seqNo.value < Newest(w).seqNo.value
  {
    hide Strict, GoodEntry, PostId;
    var p :| p in w.published && p.sig == reg.sig;
    SignatureFixesList(cfg.pf, cfg.pub, p, reg);
    var i :| 0 <= i < |w.published| && w.published[i] == p;
    assert Precedes(w.published[i], w.published[|w.published| - 1]);
  }

  lemma RelayLeavesLost(cfg: Config, w: World, l: Label)
    requires AllVerify(cfg, w.published) && Ordered(w.published)
    requires l.Relay? && Enabled(cfg, w, l) && Lost(w, w.mem.state) && !HandsBack(cfg, w, l)
    ensures Lost(w, Act(cfg, w, l).mem.state)
  {
    var after := Act(cfg, w, l).mem.state;
    MemoryExtends(cfg, w, l);
    if !Agrees(w.mem.state, Newest(w)) {
      DisagreementStays(after, w.mem.state, Newest(w));
    } else if l.payload.Parsed? && Verifies(cfg.pf, cfg.pub, l.payload.reg) {
      assert l.payload.reg != Newest(w);
      OlderIsBelow(cfg, w, l.payload.reg);
      hide Verifies, Agrees, Extends;
    } else {
      hide Verifies, Agrees, Extends;
    }
  }

  lemma ClaimOrHideLeavesLost(cfg: Config, w: World, l: Label)
    requires Enabled(cfg, w, l) && (l.Claim? || l.Hide? || l.Settle?) && Lost(w, w.mem.state)
    ensures Lost(w, Act(cfg, w, l).mem.state)
  {
    MemoryExtends(cfg, w, l);
    if !Agrees(w.mem.state, Newest(w)) {
      DisagreementStays(Act(cfg, w, l).mem.state, w.mem.state, Newest(w));
    }
    hide Agrees, Extends, ClaimHolds, SignatureHolds, PostId, Pruned;
  }

  /** A change to the world that does not touch what was sent. */
  lemma LostFrame(w: World, v: World, st: State)
    requires v.published == w.published
    ensures Lost(v, st) == Lost(w, st)
  {
    hide Agrees, Below;
  }

  lemma MemoryStepKeepsLoss(cfg: Config, w: World, g: Lag, l: Label)
    requires Sound(cfg, w) && LagIsLoss(w, g) && Enabled(cfg, w, l) && IsMemoryStep(l) && !(l.Build? && g.mem)
    ensures LagIsLoss(Act(cfg, w, l), LagStep(cfg, w, g, l))
  {
    FairVerifies(cfg, w);
    MemoryExtends(cfg, w, l);
    hide Lost, Act, Sound, Verifies, AllVerify, StageHolds, Extends, Agrees, Below, Unforged, Ordered;
    var v := Act(cfg, w, l);
    LostFrame(w, v, v.mem.state);
    LostFrame(w, v, w.disk);
    if g.mem && !HandsBack(cfg, w, l) {
      if l.Relay? { RelayLeavesLost(cfg, w, l); } else { ClaimOrHideLeavesLost(cfg, w, l); }
    }
  }

  lemma OtherStepKeepsLoss(cfg: Config, w: World, g: Lag, l: Label)
    requires LagHolds(w, g) && LagIsLoss(w, g) && Enabled(cfg, w, l) && !IsMemoryStep(l)
    requires (l.Restore? ==> Trails(w, l.backup)) && (l.Unread? ==> Trails(w, EMPTY))
    ensures LagIsLoss(Act(cfg, w, l), LagStep(cfg, w, g, l))
  {
    hide Covers, CaughtUp, Agrees, Below, Good, Canonical;
    if l.SetAdmin? { AgreesApart(w, w.disk, l.pk); }
  }

  /** Nothing is below every list that was sent. */
  lemma EmptyTrails(cfg: Config, w: World)
    requires Sound(cfg, w)
    ensures Trails(w, EMPTY)
  {
    if |w.published| > 0 { assert Newest(w) in w.published; }
  }

  lemma StepKeepsLoss(cfg: Config, w: World, g: Lag, l: Label)
    requires Sound(cfg, w) && LagHolds(w, g) && LagIsLoss(w, g) && !(l.Build? && Enabled(cfg, w, l) && g.mem)
    requires l.Restore? ==> Trails(w, l.backup)
    ensures LagIsLoss(Step(cfg, w, l), LagStep(cfg, w, g, l))
  {
    EmptyTrails(cfg, w);
    hide Act, Sound, LagHolds, LagIsLoss, Enabled, Trails;
    if Enabled(cfg, w, l) {
      if IsMemoryStep(l) { MemoryStepKeepsLoss(cfg, w, g, l); } else { OtherStepKeepsLoss(cfg, w, g, l); }
    }
  }

  lemma AgreesApart(w: World, st: State, pk: string)
    ensures Lost(w, st) == Lost(w, st.(admin := Some(pk)))
  {
  }

  lemma {:induction false} WaitingRunsKeepLoss(cfg: Config, run: seq<Label>)
    requires Canonical(cfg.pf, cfg.pub) && BuildsWait(cfg, run) && BackupsTrail(cfg, run)
    ensures LagIsLoss(Exec(cfg, run), LagOf(cfg, run))
  {
    if |run| > 0 {
      var w, g, l := Exec(cfg, run[..|run| - 1]), LagOf(cfg, run[..|run| - 1]), run[|run| - 1];
      WaitingRunsKeepLoss(cfg, run[..|run| - 1]);
      WaitingRunsAreSound(cfg, run[..|run| - 1]);
      hide Step, LagStep, Sound, LagHolds, LagIsLoss, Enabled, Trails, Canonical;
      StepKeepsLoss(cfg, w, g, l);
    }
  }

  lemma ExecNext(cfg: Config, run: seq<Label>, l: Label)
    ensures Exec(cfg, run + [l]) == Step(cfg, Exec(cfg, run), l)
  {
    hide Step;
    assert (run + [l])[..|run|] == run;
  }

  /** A build that is saved and sent adds the list of the counted state. */
  lemma PublishAdds(cfg: Config, run: seq<Label>, l: Label) returns (reg: List)
    requires Canonical(cfg.pf, cfg.pub) && Fair(cfg, Exec(cfg, run))
    requires l.Build? && Enabled(cfg, Exec(cfg, run), l)
    ensures Exec(cfg, run + [l, Save, Send]).published == Exec(cfg, run).published + [reg]
    ensures Lists(reg, Counted(Exec(cfg, run).mem.state))
  {
    hide Exec, Step, Enabled, Fair, Lists, Canonical;
    ExecNext(cfg, run, l);
    ExecNext(cfg, run + [l], Save);
    ExecNext(cfg, run + [l] + [Save], Send);
    assert run + [l] + [Save] + [Send] == run + [l, Save, Send];
    reg := ThreeSteps(cfg, Exec(cfg, run), l);
  }

  lemma ThreeSteps(cfg: Config, w: World, l: Label) returns (reg: List)
    requires Canonical(cfg.pf, cfg.pub) && Fair(cfg, w) && l.Build? && Enabled(cfg, w, l)
    ensures Step(cfg, Step(cfg, Step(cfg, w, l), Save), Send).published == w.published + [reg]
    ensures Lists(reg, Counted(w.mem.state))
  {
    hide Lists, Draft, Sign, GoodEntry, Verifies, Canonical, PostId;
    reg := Act(cfg, w, l).stage.reg;
    BuiltListVerifies(cfg, Counted(w.mem.state), l.nameWalk, l.hideWalk, l.at);
  }

  /**
   At every point of a run in which no list was built by a copy that was behind: the
   next list sent keeps the order exactly when the copy is not behind now.
   */
  lemma NextListKeepsOrderIff(cfg: Config, run: seq<Label>, l: Label)
    requires Canonical(cfg.pf, cfg.pub) && BuildsWait(cfg, run) && BackupsTrail(cfg, run)
    requires l.Build? && Enabled(cfg, Exec(cfg, run), l)
    ensures Ordered(Exec(cfg, run + [l, Save, Send]).published) <==> !LagOf(cfg, run).mem
  {
    var w := Exec(cfg, run);
    WaitingRunsAreSound(cfg, run);
    WaitingRunsKeepLoss(cfg, run);
    hide Exec, LagOf, Lists, Precedes, Covers, Lost, Enabled, BuildsWait, BackupsTrail;
    var reg := PublishAdds(cfg, run, l);
    OrderedIffCaughtUp(w.mem.state, w.published, reg);
    if LagOf(cfg, run).mem { LostIsNotCaughtUp(w, w.mem.state); }
  }

  // -------------------------------------------------------------------- whole runs

  /** A list built by a copy that is behind goes out. */
  ghost predicate EarlyBuildsAreSent(cfg: Config, run: seq<Label>) {
    forall k :: 0 <= k < |run| && BuildsEarly(cfg, run[..k], run[k]) ==>
      k + 2 < |run| && run[k + 1] == Save && run[k + 2] == Send
  }

  lemma {:induction false} FirstEarly(cfg: Config, run: seq<Label>) returns (k: nat)
    requires !BuildsWait(cfg, run)
    ensures k < |run| && BuildsWait(cfg, run[..k]) && BuildsEarly(cfg, run[..k], run[k])
  {
    hide BuildsEarly;
    var front := run[..|run| - 1];
    if BuildsWait(cfg, front) {
      k := |run| - 1;
    } else {
      k := FirstEarly(cfg, front);
      assert front[..k] == run[..k];
    }
  }

  lemma {:induction false} TrailsPrefix(cfg: Config, run: seq<Label>, k: nat)
    requires BackupsTrail(cfg, run) && k <= |run|
    ensures BackupsTrail(cfg, run[..k])
  {
    hide Trails, Exec;
    if k < |run| {
      TrailsPrefix(cfg, run[..|run| - 1], k);
      assert run[..|run| - 1][..k] == run[..k];
    } else {
      assert run[..k] == run;
    }
  }

  /** What was sent stays sent. */
  lemma {:induction false} PublishedGrows(cfg: Config, run: seq<Label>, k: nat)
    requires k <= |run|
    ensures Exec(cfg, run[..k]).published <= Exec(cfg, run).published
  {
    if k < |run| {
      var front := run[..|run| - 1];
      PublishedGrows(cfg, front, k);
      assert front[..k] == run[..k];
      StepSends(cfg, Exec(cfg, front), run[|run| - 1]);
    } else {
      assert run[..k] == run;
    }
  }

  lemma StepSends(cfg: Config, w: World, l: Label)
    ensures w.published <= Step(cfg, w, l).published
  {
    hide ClaimStep, HideStep, ListStep, Draft, Sign, IsWalk, Good, Canonical, Unforged;
  }

  lemma PrefixIsOrdered(a: seq<List>, b: seq<List>)
    requires a <= b && Ordered(b)
    ensures Ordered(a)
  {
    hide Precedes;
    forall i, j | 0 <= i < j < |a| ensures Precedes(a[i], a[j]) {
      assert Precedes(b[i], b[j]);
    }
  }

  lemma EarlyBuildBreaksOrder(cfg: Config, run: seq<Label>, k: nat)
    requires Canonical(cfg.pf, cfg.pub) && k + 2 < |run| && run[k + 1] == Save && run[k + 2] == Send
    requires BuildsWait(cfg, run[..k]) && BackupsTrail(cfg, run[..k]) && BuildsEarly(cfg, run[..k], run[k])
    ensures !Ordered(Exec(cfg, run).published)
  {
    hide Exec, BuildsWait, BackupsTrail, Ordered, LagOf, Enabled;
    PublishedGrows(cfg, run, k + 3);
    NextListKeepsOrderIff(cfg, run[..k], run[k]);
    assert run[..k + 3] == run[..k] + [run[k], Save, Send];
    if Ordered(Exec(cfg, run).published) {
      PrefixIsOrdered(Exec(cfg, run[..k + 3]).published, Exec(cfg, run).published);
    }
  }

  /**
   Over whole runs with any losses and restores: the lists sent are in order exactly when
   none was built by a copy that was behind. From right to left no condition on the run is
   needed (RecoveredRunsStayOrdered).
   */
  lemma RestoredRunsOrderedIff(cfg: Config, run: seq<Label>)
    requires Canonical(cfg.pf, cfg.pub) && BackupsTrail(cfg, run) && EarlyBuildsAreSent(cfg, run)
    ensures Ordered(Exec(cfg, run).published) <==> BuildsWait(cfg, run)
  {
    hide Exec, BuildsWait, BackupsTrail, Ordered, BuildsEarly, Canonical;
    if BuildsWait(cfg, run) {
      RecoveredRunsStayOrdered(cfg, run);
    } else {
      var k := FirstEarly(cfg, run);
      TrailsPrefix(cfg, run, k);
      EarlyBuildBreaksOrder(cfg, run, k);
    }
  }

  // ------------------------------------------------------------ a run that fails

  /**
   First start: the empty list goes out. The disk is lost, or cannot be read. Second start: no list comes back
   before the settle timer.
   */
  function UnansweredRestore(l: Label): seq<Label> {
    [Build([], [], 0), Save, Send, l, Settle, Build([], [], 0), Save, Send]
  }

  /**
   A registrar that lost its disk, or cannot read it, and publishes before it is handed its list sends its number
   twice, with no name involved.
   */
  lemma UnansweredRestoreBreaksOrder(cfg: Config, l: Label)
    requires Canonical(cfg.pf, cfg.pub) && (l == Restore(EMPTY) || l == Unread)
    ensures !Ordered(Exec(cfg, UnansweredRestore(l)).published)
  {
    var first := [Build([], [], 0), Save, Send];
    var before := first + [l] + [Settle];
    assert UnansweredRestore(l) == before + [Build([], [], 0), Save, Send];
    EveryListIsExact(cfg, []);
    assert [] + first == first;
    var reg := PublishAdds(cfg, [], Build([], [], 0));
    ExecNext(cfg, first, l);
    ExecNext(cfg, first + [l], Settle);
    var w := Exec(cfg, before);
    assert w.mem.state == EMPTY && w.published == [reg] && w.stage.Idle?;
    EveryListIsExact(cfg, before);
    hide Exec;
    var again := PublishAdds(cfg, before, Build([], [], 0));
    var sent := Exec(cfg, UnansweredRestore(l)).published;
    assert sent == [reg, again];
    assert reg.seqNo == again.seqNo == Whole(1);
    assert !Precedes(sent[0], sent[1]);
  }
}
