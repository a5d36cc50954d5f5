/**
 Whole runs of the registrar: claims, hides, lists handed over by the relay,
 publishes in their three steps (build, save, send), crashes at any point, restarts
 and restored disks. The relay may hand over any list, old or foreign, but cannot
 make the registrar's signature: one it shows was on a list that was sent.
 */
module RegistrarRuns {
  import opened Options
  import opened RegistryList
  import opened Registrar

  /** How far a publish has come. */
  datatype Stage = Idle | Built(reg: List) | Saved(reg: List)

  /**
   published are the lists sent so far, claims the times at which this process recorded
   a claimed name, clock the last reading of a clock that may go either way.
   */
  datatype World = World(mem: Memory, disk: State, stage: Stage, published: seq<List>, claims: seq<int>, clock: int)

  datatype Label =
    | Claim(norm: string, claim: ClaimPayload, t0: int, t1: int, t2: int)
    | Hide(id: string, hidden: HidePayload)
    | Relay(payload: ListPayload, now: int, seen: nat -> int)
    | Settle
    | Build(nameWalk: seq<string>, hideWalk: seq<string>, at: int)
    | TooLarge
    | Save
    | SaveFails
    | Send
    | SendFails
    | Crash
    | SetAdmin(pk: string)
    | Unread                       // a restart that cannot read the state file
    | Restore(backup: State)

  function Init(): World {
    World(Start(EMPTY), EMPTY, Idle, [], [], 0)
  }

  /** A signature of the registrar's key was seen on a list that was sent. */
  predicate Unforged(cfg: Config, w: World, payload: ListPayload) {
    payload.Parsed? && payload.reg.sig.SignedBy? && payload.reg.sig.key == cfg.pub
    ==> exists p :: p in w.published && p.sig == payload.reg.sig
  }

  ghost predicate Enabled(cfg: Config, w: World, l: Label) {
    match l
    case Claim(_, _, _, _, _) => w.stage.Idle?
    case Hide(_, _) => w.stage.Idle?
    case Relay(payload, _, _) => w.stage.Idle? && Unforged(cfg, w, payload)
    case Settle => w.stage.Idle?
    case Build(nw, hw, _) =>
      w.stage.Idle? && IsWalk(nw, w.mem.state.names.Keys) && IsWalk(hw, w.mem.state.hides.Keys)
    case TooLarge => w.stage.Built?
    case Save => w.stage.Built?
    case SaveFails => w.stage.Built?
    case Send => w.stage.Saved?
    case SendFails => w.stage.Saved?
    case Crash => true
    case SetAdmin(pk) => Canonical(cfg.pf, pk)
    case Unread => true
    case Restore(backup) => Good(cfg.pf, backup)
  }

  function Rebooted(w: World, disk: State): World {
    w.(disk := disk, mem := Start(disk), stage := Idle, claims := [])
  }

  ghost function Act(cfg: Config, w: World, l: Label): World
    requires Enabled(cfg, w, l)
  {
    match l
    case Claim(norm, msg, t0, t1, t2) =>
      var m := ClaimStep(cfg, w.mem, norm, msg, t0, t1, t2);
      w.(mem := m, clock := t2, claims := if m.state.names != w.mem.state.names then w.claims + [t1] else w.claims)
    case Hide(id, msg) => w.(mem := HideStep(cfg, w.mem, id, msg))
    case Relay(payload, now, seen) => w.(mem := ListStep(cfg, w.mem, payload, now, seen), clock := now)
    case Settle => w.(mem := w.mem.(bootstrapping := false))
    case Build(nw, hw, at) =>
      var st := Counted(w.mem.state);
      w.(mem := w.mem.(state := st, dirty := false), stage := Built(Sign(cfg.pub, Draft(st, nw, hw, at))), clock := at)
    case TooLarge => w.(stage := Idle)
    case Save => w.(disk := w.mem.state, stage := Saved(w.stage.reg))
    case SaveFails => w.(stage := Idle)
    case Send => w.(published := w.published + [w.stage.reg], stage := Idle)
    case SendFails => w.(stage := Idle)
    case Crash => Rebooted(w, w.disk)
    case SetAdmin(pk) => Rebooted(w, w.disk.(admin := Some(pk)))
    case Unread => Rebooted(w, EMPTY).(disk := w.disk)
    case Restore(backup) => Rebooted(w, backup)
  }

  ghost function Step(cfg: Config, w: World, l: Label): World {
    if Enabled(cfg, w, l) then Act(cfg, w, l) else w
  }

  ghost function Exec(cfg: Config, run: seq<Label>): World {
    if |run| == 0 then Init() else Step(cfg, Exec(cfg, run[..|run| - 1]), run[|run| - 1])
  }

  // -------------------------------------------------------- the order of lists

  /** q has a higher number and carries everything p does, unchanged. */
  ghost predicate Precedes(p: List, q: List) {
    && p.seqNo.Whole? && q.seqNo.Whole? && p.seqNo.value < q.seqNo.value
    && (forall e :: e in p.names ==> e in q.names)
    && (forall h :: h in HidesOf(p) ==> h in HidesOf(q))
  }

  ghost predicate Ordered(published: seq<List>) {
    forall i, j :: 0 <= i < j < |published| ==> Precedes(published[i], published[j])
  }

  /** The state is at least as far as the list p and records every line of it. */
  ghost predicate Covers(st: State, p: List) {
    && p.seqNo.Whole? && p.seqNo.value <= st.seqNo
    && (forall e :: e in p.names ==> e.norm in st.names && EntryOf(e.norm, st.names[e.norm]) == e)
    && (forall h :: h in HidesOf(p) ==> h in st.hides)
  }

  ghost predicate CaughtUp(st: State, published: seq<List>) {
    forall p :: p in published ==> Covers(st, p)
  }

  lemma CoversIsPrecedes(st: State, p: List, reg: List)
    requires Lists(reg, Counted(st))
    ensures Covers(st, p) <==> Precedes(p, reg)
  {
  }

  /** The next list keeps the order exactly when the state it is built from is caught up with all that was sent. */
  lemma OrderedIffCaughtUp(st: State, published: seq<List>, reg: List)
    requires Ordered(published) && Lists(reg, Counted(st))
    ensures Ordered(published + [reg]) <==> CaughtUp(st, published)
  {
    hide Precedes, Covers, Lists;
    var all := published + [reg];
    forall p ensures Covers(st, p) <==> Precedes(p, reg) { CoversIsPrecedes(st, p, reg); }
    if Ordered(all) {
      forall p | p in published ensures Covers(st, p) {
        var i :| 0 <= i < |published| && published[i] == p;
        assert all[i] == p && all[|published|] == reg;
      }
    }
  }

  // -------------------------------------------------------- invariants of a run

  /** A list on its way out is one every page accepts and says exactly what is recorded; once saved, what is on disk. */
  ghost predicate StageHolds(cfg: Config, w: World) {
    match w.stage
    case Idle => true
    case Built(reg) => Exact(cfg, w, reg)
    case Saved(reg) => Exact(cfg, w, reg) && w.disk == w.mem.state
  }

  ghost predicate Exact(cfg: Config, w: World, reg: List) {
    Lists(reg, w.mem.state) && Verifies(cfg.pf, cfg.pub, reg) && reg.seqNo.value >= 1
  }

  ghost predicate AllVerify(cfg: Config, published: seq<List>) {
    forall p :: p in published ==> Verifies(cfg.pf, cfg.pub, p) && p.seqNo.value >= 1
  }

  /** Holds whatever is lost and restored. */
  ghost predicate Fair(cfg: Config, w: World) {
    && Good(cfg.pf, w.mem.state) && Good(cfg.pf, w.disk)
    && AllVerify(cfg, w.published) && StageHolds(cfg, w)
  }

  lemma BuildIsFair(cfg: Config, w: World, l: Label)
    requires Fair(cfg, w) && l.Build? && Enabled(cfg, w, l) && Canonical(cfg.pf, cfg.pub)
    ensures Fair(cfg, Act(cfg, w, l))
  {
    hide GoodEntry, Verifies, PostId, Lists, Canonical, Draft, Sign;
    var st := Counted(w.mem.state);
    BuiltListVerifies(cfg, st, l.nameWalk, l.hideWalk, l.at);
    SeqOfListing(Sign(cfg.pub, Draft(st, l.nameWalk, l.hideWalk, l.at)), st);
  }

  lemma SeqOfListing(reg: List, st: State)
    requires Lists(reg, st)
    ensures reg.seqNo == Whole(st.seqNo)
  {
  }

  lemma StepIsFair(cfg: Config, w: World, l: Label)
    requires Fair(cfg, w) && Canonical(cfg.pf, cfg.pub)
    ensures Fair(cfg, Step(cfg, w, l))
  {
    hide Verifies, Lists, GoodEntry, PostId, ClaimStep, HideStep, ListStep, Draft, Sign;
    if Enabled(cfg, w, l) {
      match l
      case Claim(norm, msg, t0, t1, t2) => ClaimKeepsGood(cfg, w.mem, norm, msg, t0, t1, t2);
      case Hide(id, msg) => HideKeepsGood(cfg, w.mem, id, msg);
      case Relay(payload, now, seen) => ListKeepsGood(cfg, w.mem, payload, now, seen);
      case Build(_, _, _) => BuildIsFair(cfg, w, l);
      case _ =>
    }
  }

  /**
   In every run, lost and restored disks included: the list being published is one every
   page accepts and reads back as exactly the names, moderator and hides recorded, which
   are what is on disk before it is sent; and every page accepts each list sent.
   */
  lemma {:induction false} EveryListIsExact(cfg: Config, run: seq<Label>)
    requires Canonical(cfg.pf, cfg.pub)
    ensures Fair(cfg, Exec(cfg, run))
  {
    hide Step, Verifies, Lists;
    if |run| > 0 {
      EveryListIsExact(cfg, run[..|run| - 1]);
      StepIsFair(cfg, Exec(cfg, run[..|run| - 1]), run[|run| - 1]);
    }
  }

  /** What was sent is in order, and the list on its way out goes on with it. */
  ghost predicate InOrder(w: World) {
    Ordered(w.published) && (!w.stage.Idle? ==> forall p :: p in w.published ==> Precedes(p, w.stage.reg))
  }

  /** Holds however disks are lost, as long as each list is built by a caught-up state. */
  ghost predicate Sound(cfg: Config, w: World) { Fair(cfg, w) && InOrder(w) }

  lemma BuildIsInOrder(cfg: Config, w: World, l: Label)
    requires Sound(cfg, w) && l.Build? && Enabled(cfg, w, l) && Fair(cfg, Act(cfg, w, l))
    requires CaughtUp(w.mem.state, w.published)
    ensures InOrder(Act(cfg, w, l))
  {
    hide Verifies, Precedes, Covers, Good, Lists, Draft, Sign;
    var reg := Act(cfg, w, l).stage.reg;
    forall p | p in w.published ensures Precedes(p, reg) { CoversIsPrecedes(w.mem.state, p, reg); }
  }

  lemma StepIsSound(cfg: Config, w: World, l: Label)
    requires Sound(cfg, w) && Canonical(cfg.pf, cfg.pub)
    requires l.Build? && Enabled(cfg, w, l) ==> CaughtUp(w.mem.state, w.published)
    ensures Sound(cfg, Step(cfg, w, l))
  {
    StepIsFair(cfg, w, l);
    if Enabled(cfg, w, l) {
      hide Fair, Precedes, Covers, ClaimStep, HideStep, ListStep, Draft, Sign;
      if l.Build? { BuildIsInOrder(cfg, w, l); }
    }
  }

  /** Every list of a run was built by a caught-up state. */
  ghost predicate BuildsCaughtUp(cfg: Config, run: seq<Label>) {
    forall k :: 0 <= k < |run| && run[k].Build? && Enabled(cfg, Exec(cfg, run[..k]), run[k]) ==>
      CaughtUp(Exec(cfg, run[..k]).mem.state, Exec(cfg, run[..k]).published)
  }

  lemma BuildsPrefix(cfg: Config, run: seq<Label>)
    requires |run| > 0 && BuildsCaughtUp(cfg, run)
    ensures BuildsCaughtUp(cfg, run[..|run| - 1])
    ensures var w := Exec(cfg, run[..|run| - 1]);
      run[|run| - 1].Build? && Enabled(cfg, w, run[|run| - 1]) ==> CaughtUp(w.mem.state, w.published)
  {
    hide Exec, CaughtUp, Enabled;
    var front := run[..|run| - 1];
    forall k | 0 <= k < |front| && front[k].Build? && Enabled(cfg, Exec(cfg, front[..k]), front[k])
      ensures CaughtUp(Exec(cfg, front[..k]).mem.state, Exec(cfg, front[..k]).published)
    {
      assert front[..k] == run[..k];
    }
  }

  /** Whatever is lost and restored, lists built by caught-up states stay in order and every page accepts them. */
  lemma {:induction false} CaughtUpRunsAreSound(cfg: Config, run: seq<Label>)
    requires Canonical(cfg.pf, cfg.pub) && BuildsCaughtUp(cfg, run)
    ensures Sound(cfg, Exec(cfg, run))
  {
    hide Step, Verifies, CaughtUp, BuildsCaughtUp, Precedes, Lists;
    if |run| > 0 {
      BuildsPrefix(cfg, run);
      CaughtUpRunsAreSound(cfg, run[..|run| - 1]);
      StepIsSound(cfg, Exec(cfg, run[..|run| - 1]), run[|run| - 1]);
    }
  }

  // ---------------------------------------------------------- in order exactly when

  /** The state has a higher number than the list p and records every line of it. */
  ghost predicate Ahead(st: State, p: List) {
    && p.seqNo.Whole? && p.seqNo.value < st.seqNo
    && (forall e :: e in p.names ==> e.norm in st.names && EntryOf(e.norm, st.names[e.norm]) == e)
    && (forall h :: h in HidesOf(p) ==> h in st.hides)
  }

  /** The list about to go out is of a state ahead of everything sent. */
  ghost predicate SendsAhead(cfg: Config, w: World, l: Label) {
    l.Send? && Enabled(cfg, w, l) ==> forall p :: p in w.published ==> Ahead(w.mem.state, p)
  }

  lemma AheadIsPrecedes(st: State, p: List, reg: List)
    requires Lists(reg, st)
    ensures Ahead(st, p) <==> Precedes(p, reg)
  {
  }

  lemma SnocIsOrderedIff(published: seq<List>, reg: List)
    ensures Ordered(published + [reg]) <==> Ordered(published) && forall p :: p in published ==> Precedes(p, reg)
  {
    hide Precedes;
    var all := published + [reg];
    if Ordered(all) {
      forall i, j | 0 <= i < j < |published| ensures Precedes(published[i], published[j]) {
        assert Precedes(all[i], all[j]);
      }
      forall p | p in published ensures Precedes(p, reg) {
        var i :| 0 <= i < |published| && published[i] == p;
        assert Precedes(all[i], all[|published|]);
      }
    }
  }

  lemma SendIsOrderedIff(cfg: Config, w: World, l: Label)
    requires Fair(cfg, w)
    ensures Ordered(Step(cfg, w, l).published) <==> Ordered(w.published) && SendsAhead(cfg, w, l)
  {
    if l.Send? && Enabled(cfg, w, l) {
      SnocIsOrderedIff(w.published, w.stage.reg);
      forall p ensures Ahead(w.mem.state, p) <==> Precedes(p, w.stage.reg) {
        AheadIsPrecedes(w.mem.state, p, w.stage.reg);
      }
      hide Ahead, Precedes, Ordered;
    } else {
      hide Ordered, ClaimStep, HideStep, ListStep, Draft, Sign;
    }
  }

  ghost predicate AllSentAhead(cfg: Config, run: seq<Label>) {
    |run| == 0 ||
    (AllSentAhead(cfg, run[..|run| - 1]) && SendsAhead(cfg, Exec(cfg, run[..|run| - 1]), run[|run| - 1]))
  }

  /**
   In every run, whatever is lost, unreadable, restored or discarded: the lists sent are
   in order exactly when each was of a state that had a higher number than every list sent
   before it and recorded every line of it.
   */
  lemma {:induction false} SentListsOrderedIff(cfg: Config, run: seq<Label>)
    requires Canonical(cfg.pf, cfg.pub)
    ensures Ordered(Exec(cfg, run).published) <==> AllSentAhead(cfg, run)
  {
    if |run| > 0 {
      var front := run[..|run| - 1];
      SentListsOrderedIff(cfg, front);
      EveryListIsExact(cfg, front);
      hide Step, Ordered, SendsAhead, Fair;
      SendIsOrderedIff(cfg, Exec(cfg, front), run[|run| - 1]);
    }
  }

  // ---------------------------------------------------- runs that lose no disk

  /** The disk is not replaced, and a start reads it. */
  predicate KeepsDisk(l: Label) { !l.Restore? && !l.Unread? }

  predicate IsStart(l: Label) { l.Crash? || l.SetAdmin? || l.Unread? || l.Restore? }

  /** a was reached from b by recording more. */
  ghost predicate Extends(a: State, b: State) {
    && b.seqNo <= a.seqNo
    && (forall n :: n in b.names ==> n in a.names && a.names[n] == b.names[n])
    && (forall h :: h in b.hides ==> h in a.hides)
  }

  predicate Bounded(st: State) {
    |st.names| <= MAX_NAMES && |st.hides| <= MAX_HIDES
  }

  ghost predicate Kept(cfg: Config, w: World) {
    && Sound(cfg, w)
    && Extends(w.mem.state, w.disk) && CaughtUp(w.disk, w.published)
    && Bounded(w.mem.state) && Bounded(w.disk)
  }

  lemma ExtendsCaughtUp(a: State, b: State, published: seq<List>)
    requires Extends(a, b) && CaughtUp(b, published)
    ensures CaughtUp(a, published)
  {
    forall p | p in published ensures Covers(a, p) {
      assert Covers(b, p);
    }
  }

  lemma ClaimExtends(cfg: Config, m: Memory, norm: string, msg: ClaimPayload, t0: int, t1: int, t2: int)
    ensures Extends(ClaimStep(cfg, m, norm, msg, t0, t1, t2).state, m.state)
    ensures Bounded(m.state) ==> Bounded(ClaimStep(cfg, m, norm, msg, t0, t1, t2).state)
  {
    hide ClaimHolds, Pruned;
  }

  lemma HideExtends(cfg: Config, m: Memory, id: string, msg: HidePayload)
    ensures Extends(HideStep(cfg, m, id, msg).state, m.state)
    ensures Bounded(m.state) ==> Bounded(HideStep(cfg, m, id, msg).state)
  {
    hide SignatureHolds, PostId;
    var after := HideStep(cfg, m, id, msg).state;
    if after != m.state { GrowsByOne(m.state.hides, id, after.hides[id]); }
  }

  lemma GrowsByOne<T>(m: map<string, T>, k: string, v: T)
    ensures |m[k := v]| <= |m| + 1
  {
    assert m[k := v].Keys == m.Keys + {k};
    assert |m.Keys| == |m| && |m[k := v].Keys| == |m[k := v]|;
  }

  /** While no disk is lost, no list the relay can show is news: adoption never happens. */
  lemma RelayIsNoNews(cfg: Config, w: World, payload: ListPayload, now: int, seen: nat -> int)
    requires Kept(cfg, w) && Unforged(cfg, w, payload)
    ensures ListStep(cfg, w.mem, payload, now, seen).state == w.mem.state
    ensures ListStep(cfg, w.mem, payload, now, seen).bootstrapping == w.mem.bootstrapping
  {
    hide GoodEntry, PostId, Precedes, Good, StageHolds, Strict;
    if payload.Parsed? && Verifies(cfg.pf, cfg.pub, payload.reg) {
      var p :| p in w.published && p.sig == payload.reg.sig;
      SignatureFixesList(cfg.pf, cfg.pub, p, payload.reg);
      assert Covers(w.disk, p);
    }
  }

  lemma ExtendsTransitive(a: State, b: State, c: State)
    requires Extends(a, b) && Extends(b, c)
    ensures Extends(a, c)
  {
  }

  lemma ExtendsSelf(st: State)
    ensures Extends(st, st) && Extends(Counted(st), st)
    ensures Bounded(Counted(st)) == Bounded(st)
  {
  }

  lemma ClaimIsKept(cfg: Config, w: World, l: Label)
    requires Kept(cfg, w) && l.Claim? && Enabled(cfg, w, l)
    ensures Extends(Act(cfg, w, l).mem.state, w.disk) && Bounded(Act(cfg, w, l).mem.state)
  {
    hide Sound, Extends, Bounded, CaughtUp, ClaimStep;
    ClaimExtends(cfg, w.mem, l.norm, l.claim, l.t0, l.t1, l.t2);
    ExtendsTransitive(Act(cfg, w, l).mem.state, w.mem.state, w.disk);
  }

  lemma HideIsKept(cfg: Config, w: World, l: Label)
    requires Kept(cfg, w) && l.Hide? && Enabled(cfg, w, l)
    ensures Extends(Act(cfg, w, l).mem.state, w.disk) && Bounded(Act(cfg, w, l).mem.state)
  {
    hide Sound, Extends, Bounded, CaughtUp, HideStep;
    HideExtends(cfg, w.mem, l.id, l.hidden);
    ExtendsTransitive(Act(cfg, w, l).mem.state, w.mem.state, w.disk);
  }

  lemma StepIsKept(cfg: Config, w: World, l: Label)
    requires Kept(cfg, w) && Canonical(cfg.pf, cfg.pub) && KeepsDisk(l)
    ensures Kept(cfg, Step(cfg, w, l))
  {
    ExtendsCaughtUp(w.mem.state, w.disk, w.published);
    StepIsSound(cfg, w, l);
    if Enabled(cfg, w, l) {
      hide Sound, Extends, Bounded, CaughtUp, ClaimStep, HideStep, ListStep, Draft, Sign, Canonical, Good, IsWalk;
      match l
      case Claim(_, _, _, _, _) => ClaimIsKept(cfg, w, l);
      case Hide(_, _) => HideIsKept(cfg, w, l);
      case Relay(payload, now, seen) => RelayIsNoNews(cfg, w, payload, now, seen);
      case Settle =>
      case Build(_, _, _) =>
        ExtendsSelf(w.mem.state);
        ExtendsTransitive(Counted(w.mem.state), w.mem.state, w.disk);
      case TooLarge =>
      case Save => ExtendsSelf(w.mem.state);
      case SaveFails =>
      case Send => SentIsCovered(cfg, w);
      case SendFails =>
      case Crash => ExtendsSelf(w.disk);
      case SetAdmin(pk) =>
        AdminIsApart(w.disk, pk, w.published);
        ExtendsSelf(w.disk.(admin := Some(pk)));
    }
  }

  lemma AdminIsApart(st: State, pk: string, published: seq<List>)
    requires CaughtUp(st, published)
    ensures CaughtUp(st.(admin := Some(pk)), published)
    ensures Bounded(st.(admin := Some(pk))) == Bounded(st)
  {
    forall p | p in published ensures Covers(st.(admin := Some(pk)), p) {
      assert Covers(st, p);
    }
  }

  lemma SentIsCovered(cfg: Config, w: World)
    requires Kept(cfg, w) && w.stage.Saved?
    ensures CaughtUp(w.disk, w.published + [w.stage.reg])
  {
    hide Verifies, Precedes, Good;
  }

  lemma {:induction false} RunsAreKept(cfg: Config, run: seq<Label>)
    requires Canonical(cfg.pf, cfg.pub)
    requires forall k :: 0 <= k < |run| ==> KeepsDisk(run[k])
    ensures Kept(cfg, Exec(cfg, run))
  {
    hide Step;
    if |run| > 0 {
      RunsAreKept(cfg, run[..|run| - 1]);
      hide Kept;
      StepIsKept(cfg, Exec(cfg, run[..|run| - 1]), run[|run| - 1]);
    }
  }

  /**
   In every run that keeps its disk and can read it, with crashes anywhere, the lists sent
   carry rising numbers, every line of one stands unchanged in all later ones, and every
   page accepts them all.
   */
  lemma PublishedListsOnlyGrow(cfg: Config, run: seq<Label>)
    requires Canonical(cfg.pf, cfg.pub)
    requires forall k :: 0 <= k < |run| ==> KeepsDisk(run[k])
    ensures Ordered(Exec(cfg, run).published)
    ensures AllVerify(cfg, Exec(cfg, run).published)
    ensures Bounded(Exec(cfg, run).mem.state)
  {
    RunsAreKept(cfg, run);
  }

  // ------------------------------------------------- where a record came from

  /** Some claim of the run, signed by the key it names, is what the record says. */
  ghost predicate ClaimedIn(cfg: Config, run: seq<Label>, n: string, r: Record) {
    exists k :: 0 <= k < |run| && IsClaimOf(cfg, run[k], n, r)
  }

  predicate IsClaimOf(cfg: Config, l: Label, n: string, r: Record) {
    && l.Claim? && l.norm == n && ClaimHolds(cfg, n, l.claim)
    && l.claim.sig == SignedBy(r.pk, ClaimFields(n, r.name, r.pk, r.ts))
  }

  /** The operator named this key in the run. */
  ghost predicate Named(run: seq<Label>, pk: string) {
    exists k :: 0 <= k < |run| && run[k] == SetAdmin(pk)
  }

  /** A key the operator named signed this hide. */
  ghost predicate HiddenIn(run: seq<Label>, id: string) {
    exists k :: 0 <= k < |run| && IsHideOf(run, run[k], id)
  }

  ghost predicate IsHideOf(run: seq<Label>, l: Label, id: string) {
    && l.Hide? && l.id == id && l.hidden.Hidden? && Named(run, Cut(l.hidden.pk, 200))
    && l.hidden.sig == SignedBy(Cut(l.hidden.pk, 200), HideFields(id, l.hidden.ts))
  }

  ghost predicate Traced(cfg: Config, run: seq<Label>, st: State) {
    && (forall n :: n in st.names ==> ClaimedIn(cfg, run, n, st.names[n]))
    && (forall h :: h in st.hides ==> HiddenIn(run, h))
    && (st.admin.Some? ==> Named(run, st.admin.value))
  }

  lemma NamedLater(run: seq<Label>, l: Label, pk: string)
    requires Named(run, pk)
    ensures Named(run + [l], pk)
  {
    var k :| 0 <= k < |run| && run[k] == SetAdmin(pk);
    assert (run + [l])[k] == SetAdmin(pk);
  }

  lemma ClaimedLater(cfg: Config, run: seq<Label>, l: Label, n: string, r: Record)
    requires ClaimedIn(cfg, run, n, r)
    ensures ClaimedIn(cfg, run + [l], n, r)
  {
    hide IsClaimOf;
    var k :| 0 <= k < |run| && IsClaimOf(cfg, run[k], n, r);
    assert (run + [l])[k] == run[k];
  }

  lemma HiddenLater(run: seq<Label>, l: Label, h: string)
    requires HiddenIn(run, h)
    ensures HiddenIn(run + [l], h)
  {
    hide Named;
    var k :| 0 <= k < |run| && IsHideOf(run, run[k], h);
    NamedLater(run, l, Cut(run[k].hidden.pk, 200));
    assert (run + [l])[k] == run[k] && IsHideOf(run + [l], (run + [l])[k], h);
  }

  lemma TracedLater(cfg: Config, run: seq<Label>, l: Label, st: State)
    requires Traced(cfg, run, st)
    ensures Traced(cfg, run + [l], st)
  {
    hide ClaimedIn, HiddenIn, Named;
    forall n | n in st.names ensures ClaimedIn(cfg, run + [l], n, st.names[n]) {
      ClaimedLater(cfg, run, l, n, st.names[n]);
    }
    forall h | h in st.hides ensures HiddenIn(run + [l], h) { HiddenLater(run, l, h); }
    if st.admin.Some? { NamedLater(run, l, st.admin.value); }
  }

  lemma TracedSame(cfg: Config, run: seq<Label>, a: State, b: State)
    requires Traced(cfg, run, a) && b.names == a.names && b.hides == a.hides
    requires b.admin == a.admin || (b.admin.Some? && Named(run, b.admin.value))
    ensures Traced(cfg, run, b)
  {
    hide ClaimedIn, HiddenIn, Named;
  }

  lemma ClaimIsTraced(cfg: Config, run: seq<Label>, m: Memory, l: Label)
    requires Traced(cfg, run + [l], m.state) && l.Claim?
    ensures Traced(cfg, run + [l], ClaimStep(cfg, m, l.norm, l.claim, l.t0, l.t1, l.t2).state)
  {
    var more := run + [l];
    var after := ClaimStep(cfg, m, l.norm, l.claim, l.t0, l.t1, l.t2).state;
    if after != m.state {
      assert IsClaimOf(cfg, more[|run|], l.norm, after.names[l.norm]);
      assert after.hides == m.state.hides && after.admin == m.state.admin;
      hide IsClaimOf, HiddenIn, Named, ClaimHolds;
      forall n | n in after.names ensures ClaimedIn(cfg, more, n, after.names[n]) {
        if n != l.norm { assert n in m.state.names && after.names[n] == m.state.names[n]; }
      }
    }
  }

  lemma HideIsTraced(cfg: Config, run: seq<Label>, m: Memory, l: Label)
    requires Traced(cfg, run + [l], m.state) && l.Hide?
    ensures Traced(cfg, run + [l], HideStep(cfg, m, l.id, l.hidden).state)
  {
    var more := run + [l];
    var after := HideStep(cfg, m, l.id, l.hidden).state;
    if after != m.state {
      assert IsHideOf(more, more[|run|], l.id);
      assert HiddenIn(more, l.id);
      assert after.names == m.state.names && after.admin == m.state.admin;
      hide IsHideOf, HiddenIn, ClaimedIn, Named;
    }
  }

  lemma StepIsTraced(cfg: Config, run: seq<Label>, w: World, l: Label)
    requires Kept(cfg, w) && KeepsDisk(l) && Traced(cfg, run, w.mem.state) && Traced(cfg, run, w.disk)
    ensures Traced(cfg, run + [l], Step(cfg, w, l).mem.state) && Traced(cfg, run + [l], Step(cfg, w, l).disk)
  {
    hide Kept, ClaimStep, HideStep, ListStep, Draft, Sign, Good, IsWalk, Traced, Unforged, Canonical;
    TracedLater(cfg, run, l, w.mem.state);
    TracedLater(cfg, run, l, w.disk);
    if Enabled(cfg, w, l) {
      match l
      case Claim(_, _, _, _, _) => ClaimIsTraced(cfg, run, w.mem, l);
      case Hide(_, _) => HideIsTraced(cfg, run, w.mem, l);
      case Relay(payload, now, seen) => RelayIsNoNews(cfg, w, payload, now, seen);
      case Build(_, _, _) => TracedSame(cfg, run + [l], w.mem.state, Counted(w.mem.state));
      case SetAdmin(pk) =>
        assert (run + [l])[|run|] == SetAdmin(pk);
        TracedSame(cfg, run + [l], w.disk, w.disk.(admin := Some(pk)));
      case _ =>
    }
  }

  /**
   In every run that loses no disk: every recorded name was claimed under the signature
   of the very key it is recorded for, and every hide was signed by a key the operator
   had named as moderator.
   */
  lemma {:induction false} RecordsAreSigned(cfg: Config, run: seq<Label>)
    requires Canonical(cfg.pf, cfg.pub)
    requires forall k :: 0 <= k < |run| ==> KeepsDisk(run[k])
    ensures Traced(cfg, run, Exec(cfg, run).mem.state) && Traced(cfg, run, Exec(cfg, run).disk)
  {
    hide Step, Kept;
    if |run| > 0 {
      var front := run[..|run| - 1];
      RecordsAreSigned(cfg, front);
      RunsAreKept(cfg, front);
      hide Traced;
      assert run == front + [run[|run| - 1]];
      StepIsTraced(cfg, front, Exec(cfg, front), run[|run| - 1]);
    }
  }

  // ------------------------------------------------------------ what is flagged

  /** The state at the last build, or as loaded at the last start. */
  ghost function LastOut(cfg: Config, run: seq<Label>): State {
    if |run| == 0 then EMPTY
    else
      var w, l := Exec(cfg, run[..|run| - 1]), run[|run| - 1];
      if Enabled(cfg, w, l) && (l.Build? || IsStart(l)) then Act(cfg, w, l).mem.state
      else LastOut(cfg, run[..|run| - 1])
  }

  predicate SameContent(a: State, b: State) {
    a.names == b.names && a.hides == b.hides && a.admin == b.admin
  }

  lemma QuietOrDirty(cfg: Config, w: World, l: Label)
    requires Enabled(cfg, w, l) && !(l.Build? || IsStart(l))
    ensures var m := Act(cfg, w, l).mem; m.dirty || (!w.mem.dirty && SameContent(m.state, w.mem.state))
  {
    hide ClaimHolds, Pruned, PostId, SignatureHolds, Verifies, Adopt, Good, IsWalk, Unforged, Draft, Sign;
  }

  /**
   A change not yet in a list is always flagged: not dirty means nothing differs from the last
   list built or the state loaded.
   */
  lemma {:induction false} ChangesAreFlagged(cfg: Config, run: seq<Label>)
    ensures !Exec(cfg, run).mem.dirty ==> SameContent(Exec(cfg, run).mem.state, LastOut(cfg, run))
  {
    if |run| > 0 {
      var w, l := Exec(cfg, run[..|run| - 1]), run[|run| - 1];
      ChangesAreFlagged(cfg, run[..|run| - 1]);
      hide Act, Enabled;
      if Enabled(cfg, w, l) && !(l.Build? || IsStart(l)) {
        QuietOrDirty(cfg, w, l);
      }
    }
  }
}
