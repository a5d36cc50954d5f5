/**
 How fast the registrar records claims. The bound needs a clock that does not go back,
 and only this bound does.
 */
module RegistrarRate {
  import opened RegistryList
  import opened Registrar
  import opened RegistrarRuns

  /** The label reads the clock, if it does, no earlier than the last reading. */
  predicate InTime(w: World, l: Label) {
    match l
    case Claim(_, _, t0, t1, t2) => w.clock <= t0 <= t1 <= t2
    case Relay(_, now, _) => w.clock <= now
    case Build(_, _, at) => w.clock <= at
    case _ => true
  }

  /** The clock never goes back in the run. */
  ghost predicate ClockRises(cfg: Config, run: seq<Label>) {
    |run| == 0 || (ClockRises(cfg, run[..|run| - 1]) && InTime(Exec(cfg, run[..|run| - 1]), run[|run| - 1]))
  }

  ghost predicate Sorted(s: seq<int>) {
    forall i, j :: 0 <= i < j < |s| ==> s[i] <= s[j]
  }

  /** recent is the tail of the claims; what fell out of it is a whole window old. */
  ghost predicate RateHolds(recent: seq<int>, claims: seq<int>, clock: int) {
    && Sorted(claims) && (forall i :: 0 <= i < |claims| ==> claims[i] <= clock)
    && |recent| <= |claims| && recent == claims[|claims| - |recent|..]
    && (forall i :: 0 <= i < |claims| - |recent| ==> claims[i] + RATE_WINDOW <= clock)
    && Spaced(claims)
  }

  ghost predicate Spaced(claims: seq<int>) {
    forall i, j :: 0 <= i && i + RATE_MAX_NEW <= j < |claims| ==> claims[i] + RATE_WINDOW <= claims[j]
  }

  lemma {:induction false} AllExpired(recent: seq<int>, t: int)
    requires forall i :: 0 <= i < |recent| ==> recent[i] + RATE_WINDOW <= t
    ensures Pruned(recent, t) == []
  {
    if |recent| > 0 { AllExpired(recent[..|recent| - 1], t); }
  }

  /** Of sorted times, pruning drops a prefix. */
  lemma {:induction false} PruneDropsPrefix(recent: seq<int>, t: int) returns (d: nat)
    requires Sorted(recent)
    ensures d <= |recent| && Pruned(recent, t) == recent[d..]
    ensures forall i :: 0 <= i < d ==> recent[i] + RATE_WINDOW <= t
    decreases |recent|
  {
    hide Pruned, Sorted;
    var k := |recent| - 1;
    PrunedLast(recent, t);
    if k < 0 {
      d := 0;
    } else if t - recent[k] < RATE_WINDOW {
      SortedLast(recent);
      d := PruneDropsPrefix(recent[..k], t);
      assert recent[d..] == recent[..k][d..] + [recent[k]];
    } else {
      SortedLast(recent);
      AllExpired(recent, t);
      d := |recent|;
    }
  }

  lemma PrunedLast(recent: seq<int>, t: int)
    ensures Pruned([], t) == []
    ensures var k := |recent| - 1;
      k >= 0 && t - recent[k] < RATE_WINDOW ==> Pruned(recent, t) == Pruned(recent[..k], t) + [recent[k]]
  {
  }

  lemma SortedLast(s: seq<int>)
    requires Sorted(s) && |s| > 0
    ensures Sorted(s[..|s| - 1]) && forall i :: 0 <= i < |s| ==> s[i] <= s[|s| - 1]
  {
  }

  lemma PruneKeepsRate(recent: seq<int>, claims: seq<int>, clock: int, t: int)
    requires RateHolds(recent, claims, clock) && clock <= t
    ensures RateHolds(Pruned(recent, t), claims, t)
  {
    hide Spaced, Sorted, Pruned;
    var off := |claims| - |recent|;
    SortedTail(claims, off);
    var d := PruneDropsPrefix(recent, t);
    SliceTail(claims, off, d);
    forall i | 0 <= i < off + d ensures claims[i] + RATE_WINDOW <= t {
      if i >= off { assert claims[i] == recent[i - off]; }
    }
  }

  lemma SortedTail(s: seq<int>, k: nat)
    requires Sorted(s) && k <= |s|
    ensures Sorted(s[k..])
  {
  }

  lemma SliceTail(s: seq<int>, k: nat, d: nat)
    requires k + d <= |s|
    ensures s[k..][d..] == s[k + d..]
  {
  }

  lemma RecordKeepsRate(recent: seq<int>, claims: seq<int>, clock: int, t: int)
    requires RateHolds(recent, claims, clock) && clock <= t && |recent| < RATE_MAX_NEW
    ensures RateHolds(recent + [t], claims + [t], t)
  {
    var all := claims + [t];
    var off := |claims| - |recent|;
    assert all[off..] == recent + [t];
    forall i, j | 0 <= i && i + RATE_MAX_NEW <= j < |all| ensures all[i] + RATE_WINDOW <= all[j] {
      if j == |claims| { assert i < off; }
    }
  }

  lemma StepKeepsRate(cfg: Config, w: World, l: Label)
    requires RateHolds(w.mem.recent, w.claims, w.clock) && InTime(w, l)
    ensures var v := Step(cfg, w, l); RateHolds(v.mem.recent, v.claims, v.clock)
  {
    hide RateHolds, Act;
    if Enabled(cfg, w, l) {
      if l.Claim? {
        ClaimKeepsRate(cfg, w, l.norm, l.claim, l.t0, l.t1, l.t2);
      } else {
        OtherStepsKeepRecent(cfg, w, l);
        var v := Act(cfg, w, l);
        LaterKeepsRate(w.mem.recent, w.claims, w.clock, v.clock);
        EmptyRate(v.clock);
      }
    }
  }

  lemma OtherStepsKeepRecent(cfg: Config, w: World, l: Label)
    requires Enabled(cfg, w, l) && InTime(w, l) && !l.Claim?
    ensures var v := Act(cfg, w, l);
      && w.clock <= v.clock
      && ((v.mem.recent == w.mem.recent && v.claims == w.claims) || (v.mem.recent == [] && v.claims == []))
  {
    hide Verifies, Sign, Draft, Unforged, HideStep, IsWalk, Good, Canonical, Adopt;
    if l.Hide? { HideKeepsRecent(cfg, w.mem, l.id, l.hidden); }
  }

  lemma HideKeepsRecent(cfg: Config, m: Memory, id: string, msg: HidePayload)
    ensures HideStep(cfg, m, id, msg).recent == m.recent
  {
    hide SignatureHolds, PostId;
  }

  /** A claim prunes, and then records only when the pruned list has room. */
  lemma ClaimAndRecent(cfg: Config, m: Memory, norm: string, msg: ClaimPayload, t0: int, t1: int, t2: int)
    ensures var after := ClaimStep(cfg, m, norm, msg, t0, t1, t2);
      if after.state.names != m.state.names
      then after.recent == Pruned(m.recent, t0) + [t1] && |Pruned(m.recent, t0)| < RATE_MAX_NEW
      else after.recent == m.recent || after.recent == Pruned(m.recent, t0)
  {
    hide Pruned, ClaimHolds;
    var after := ClaimStep(cfg, m, norm, msg, t0, t1, t2);
    if after.state != m.state {
      assert norm in after.state.names && norm !in m.state.names;
    }
  }

  lemma ClaimKeepsRate(cfg: Config, w: World, norm: string, msg: ClaimPayload, t0: int, t1: int, t2: int)
    requires RateHolds(w.mem.recent, w.claims, w.clock) && Enabled(cfg, w, Claim(norm, msg, t0, t1, t2))
    requires w.clock <= t0 <= t1 <= t2
    ensures var v := Act(cfg, w, Claim(norm, msg, t0, t1, t2)); RateHolds(v.mem.recent, v.claims, v.clock)
  {
    hide Pruned, RateHolds, ClaimStep;
    var recent := Pruned(w.mem.recent, t0);
    ClaimAndRecent(cfg, w.mem, norm, msg, t0, t1, t2);
    PruneKeepsRate(w.mem.recent, w.claims, w.clock, t0);
    LaterKeepsRate(w.mem.recent, w.claims, w.clock, t2);
    LaterKeepsRate(recent, w.claims, t0, t2);
    if |recent| < RATE_MAX_NEW {
      RecordKeepsRate(recent, w.claims, t0, t1);
      LaterKeepsRate(recent + [t1], w.claims + [t1], t1, t2);
    }
  }

  lemma LaterKeepsRate(recent: seq<int>, claims: seq<int>, clock: int, t: int)
    requires RateHolds(recent, claims, clock) && clock <= t
    ensures RateHolds(recent, claims, t)
  {
  }

  lemma {:induction false} RunsKeepRate(cfg: Config, run: seq<Label>)
    requires ClockRises(cfg, run)
    ensures var w := Exec(cfg, run); RateHolds(w.mem.recent, w.claims, w.clock)
  {
    hide Step, RateHolds;
    if |run| > 0 {
      RunsKeepRate(cfg, run[..|run| - 1]);
      StepKeepsRate(cfg, Exec(cfg, run[..|run| - 1]), run[|run| - 1]);
    } else {
      EmptyRate(0);
    }
  }

  lemma EmptyRate(clock: int)
    ensures RateHolds([], [], clock)
  {
  }

  /** The claims recorded in the window that starts at t. */
  ghost function InWindow(claims: seq<int>, t: int): set<int> {
    set i | 0 <= i < |claims| && t <= claims[i] < t + RATE_WINDOW
  }

  /** The n numbers from lo. */
  ghost function Interval(lo: int, n: nat): (r: set<int>)
    ensures |r| == n && forall i :: i in r <==> lo <= i < lo + n
  {
    if n == 0 then {} else Interval(lo, n - 1) + {lo + n - 1}
  }

  lemma SubsetSize(a: set<int>, b: set<int>)
    requires a <= b
    ensures |a| <= |b|
  {
    assert b == a + (b - a);
  }

  /**
   In every run with a clock that does not go back, no window of ten minutes holds more
   than 200 names recorded from claims by one process.
   */
  lemma WindowHoldsAtMost(cfg: Config, run: seq<Label>, t: int)
    requires ClockRises(cfg, run)
    ensures |InWindow(Exec(cfg, run).claims, t)| <= RATE_MAX_NEW
  {
    RunsKeepRate(cfg, run);
    var claims := Exec(cfg, run).claims;
    SpacedWindow(claims, t);
  }

  lemma SpacedWindow(claims: seq<int>, t: int)
    requires Spaced(claims)
    ensures |InWindow(claims, t)| <= RATE_MAX_NEW
  {
    SubsetSize(InWindow(claims, t), Interval(FirstIn(claims, t, 0), RATE_MAX_NEW));
  }

  /** The first claim of the window, looking from i on. */
  ghost function FirstIn(claims: seq<int>, t: int, i: nat): (first: nat)
    ensures forall k :: k in InWindow(claims, t) && i <= k ==> first <= k
    ensures first < |claims| ==> first in InWindow(claims, t)
    decreases |claims| - i
  {
    if i >= |claims| || i in InWindow(claims, t) then i else FirstIn(claims, t, i + 1)
  }
}
