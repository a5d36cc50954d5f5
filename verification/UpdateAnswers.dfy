/**
 What the update notice owes the person: which versions read as what, which records are
 believed, that a believed one is shown and is known to the next session, and when the
 page says that it could not confirm anything.
 */
module UpdateAnswers {
  import opened Options
  import opened UpdateCheck

  // -------------------------------------------------------------------- versions

  function Digit(d: nat): (c: char)
    requires d < 10
    ensures IsDigit(c) && c as int - '0' as int == d
  {
    "0123456789"[d]
  }

  /** The decimal digits of n, no zero in front. */
  function Text(n: nat): (s: string)
    ensures |s| > 0 && forall i :: 0 <= i < |s| ==> IsDigit(s[i])
  {
    (if n < 10 then "" else Text(n / 10)) + [Digit(n % 10)]
  }

  lemma ToNatSnoc(s: string, c: char)
    requires (forall i :: 0 <= i < |s| ==> IsDigit(s[i])) && IsDigit(c)
    ensures ToNat(s + [c]) == 10 * ToNat(s) + (c as int - '0' as int)
  {
    assert (s + [c])[..|s|] == s;
  }

  lemma {:induction false} TextReads(n: nat)
    ensures ToNat(Text(n)) == n
  {
    var front := if n < 10 then "" else Text(n / 10);
    assert Text(n) == front + [Digit(n % 10)];
    ToNatSnoc(front, Digit(n % 10));
    if n >= 10 {
      hide Digit, ToNat, Text;
      TextReads(n / 10);
    }
  }

  lemma TextIsShort(n: nat)
    requires n < 10000
    ensures 1 <= |Text(n)| <= 4
  {
    assert |Text(n / 1000)| == 1;
    if n >= 1000 {
      assert |Text(n / 100)| == 2 && |Text(n / 10)| == 3 by { Tens(n); }
    } else if n >= 100 {
      assert |Text(n / 10)| == 2 && |Text(n / 100)| == 1 by { Tens(n); }
    } else if n >= 10 {
      assert |Text(n / 10)| == 1;
    }
  }

  lemma Tens(n: nat)
    ensures n / 10 / 10 == n / 100 && n / 10 / 10 / 10 == n / 1000
  {
  }

  lemma {:induction false} DigitsStop(s: string, t: string)
    requires forall i :: 0 <= i < |s| ==> IsDigit(s[i])
    requires |t| > 0 ==> !IsDigit(t[0])
    ensures Digits(s + t) == |s|
  {
    if |s| > 0 {
      assert (s + t)[1..] == s[1..] + t;
      DigitsStop(s[1..], t);
    } else {
      assert s + t == t;
    }
  }

  /** A version as the maintainers write it. */
  function Printed(x: nat, y: nat, z: nat): string { Text(x) + ("." + (Text(y) + ("." + Text(z)))) }

  predicate Numeral(s: string) { 1 <= |s| <= 4 && forall i :: 0 <= i < |s| ==> IsDigit(s[i]) }

  /** What stands before a dot is cut off there. */
  lemma DotCuts(a: string, t: string)
    requires Numeral(a)
    ensures var s := a + ("." + t);
      Digits(s) == |a| && |a| < |s| && s[|a|] == '.' && s[..|a|] == a && s[|a| + 1..] == t
  {
    DigitsStop(a, "." + t);
    hide Digits;
  }

  lemma PartsAreRead(a: string, b: string, c: string)
    requires Numeral(a) && Numeral(b) && Numeral(c)
    ensures ParseVersion(a + ("." + (b + ("." + c)))) == Some([Part(a) as int, Part(b), Part(c)])
  {
    DotCuts(a, b + ("." + c));
    DotCuts(b, c);
    DigitsStop(c, "");
    assert c + "" == c;
    hide Digits, Part;
  }

  /** X.Y.Z reads back as its three numbers, in that order. */
  lemma PrintedReadsBack(x: nat, y: nat, z: nat)
    requires x < 10000 && y < 10000 && z < 10000
    ensures ParseVersion(Printed(x, y, z)) == Some([x as int, y, z])
  {
    PartOfText(x);
    PartOfText(y);
    PartOfText(z);
    PartsAreRead(Text(x), Text(y), Text(z));
    hide ParseVersion, Text, Part, Numeral;
  }

  lemma PartOfText(n: nat)
    requires n < 10000
    ensures Numeral(Text(n)) && Part(Text(n)) == n
  {
    TextIsShort(n);
    TextReads(n);
    hide Text, ToNat;
  }

  /** One version is below another exactly when the first number in which they differ is. */
  lemma PrintedOrder(x: nat, y: nat, z: nat, p: nat, q: nat, r: nat)
    requires x < 10000 && y < 10000 && z < 10000 && p < 10000 && q < 10000 && r < 10000
    ensures IsVersion(Printed(x, y, z)) && IsVersion(Printed(p, q, r))
    ensures Rank(Printed(x, y, z)) < Rank(Printed(p, q, r)) <==> x < p || (x == p && (y < q || (y == q && z < r)))
  {
    PrintedReadsBack(x, y, z);
    PrintedReadsBack(p, q, r);
    hide Printed, ParseVersion;
  }

  // --------------------------------------------------------------------- records

  /** A complete and consistent table under a signature of the release key. */
  predicate Usable(cfg: Config, t: Table, genuine: bool) {
    && cfg.hasKey && genuine && t.latest.Some? && t.minimum.Some? && t.validUntil.Some? && t.listed
    && IsVersion(t.latest.value) && IsVersion(t.minimum.value)
    && Rank(t.minimum.value) <= Rank(t.latest.value) && cfg.endOfDay(t.validUntil.value).Some?
  }

  function RecordOf(cfg: Config, t: Table): Record
    requires Usable(cfg, t, true)
  {
    Record(t.latest.value, t.minimum.value, t.validUntil.value, cfg.endOfDay(t.validUntil.value).value)
  }

  /** Below what was verified before, in one version or the other. */
  predicate Below(cfg: Config, saved: Option<Record>, r: Record)
    requires SaneIfAny(cfg, saved) && Sane(cfg, r)
  {
    saved.Some? && (Rank(r.latest) < Rank(saved.value.latest) || Rank(r.minimum) < Rank(saved.value.minimum))
  }

  lemma UsableIsParsed(cfg: Config, t: Table)
    ensures cfg.hasKey && ParseRecord(cfg, t).Some? <==> Usable(cfg, t, true)
    ensures Usable(cfg, t, true) ==> ParseRecord(cfg, t) == Some(RecordOf(cfg, t)) && Sane(cfg, RecordOf(cfg, t))
  {
    if t.latest.Some? && t.minimum.Some? && IsVersion(t.latest.value) && IsVersion(t.minimum.value) {
      CompareIsRank(t.minimum.value, t.latest.value);
    }
    hide ParseVersion, Compare, Rank;
  }

  lemma BelowIsStale(cfg: Config, saved: Option<Record>, r: Record)
    requires SaneIfAny(cfg, saved) && Sane(cfg, r)
    ensures IsStale(cfg, saved, r) <==> Below(cfg, saved, r)
  {
    if saved.Some? {
      CompareIsRank(r.latest, saved.value.latest);
      CompareIsRank(r.minimum, saved.value.minimum);
    }
    hide IsVersion, Compare, Rank;
  }

  /**
   What is made of a fetched table, whatever is kept: a usable one below what is kept is
   stale, one whose last day is over has expired, and every other one is judged by its own
   versions if this build has a version; one that is not usable is invalid.
   */
  lemma TableIsJudgedIff(cfg: Config, saved: Option<Record>, t: Table, genuine: bool, now: int)
    requires SaneIfAny(cfg, saved)
    ensures Usable(cfg, t, genuine) ==> Sane(cfg, RecordOf(cfg, t))
    ensures Evaluate(cfg, saved, Fetched(t, genuine), now) ==
      if !Usable(cfg, t, genuine) then Invalid
      else
        var r := RecordOf(cfg, t);
        if Below(cfg, saved, r) then Stale(r.latest, r.minimum)
        else if r.expires <= now then Expired(r.validUntil)
        else if !IsVersion(cfg.current) then Invalid
        else Judged(Rank(cfg.current) < Rank(r.latest), Rank(cfg.current) < Rank(r.minimum), r)
  {
    UsableIsParsed(cfg, t);
    assert Usable(cfg, t, genuine) <==> genuine && Usable(cfg, t, true) by { hide Rank, IsVersion; }
    hide Usable, RecordOf, ParseRecord, Sane, Judge, Below;
    if Usable(cfg, t, genuine) { JudgeIs(cfg, saved, RecordOf(cfg, t), now); }
  }

  lemma JudgeIs(cfg: Config, saved: Option<Record>, r: Record, now: int)
    requires SaneIfAny(cfg, saved) && Sane(cfg, r)
    ensures Judge(cfg, saved, r, now) ==
      if Below(cfg, saved, r) then Stale(r.latest, r.minimum)
      else if r.expires <= now then Expired(r.validUntil)
      else if !IsVersion(cfg.current) then Invalid
      else Judged(Rank(cfg.current) < Rank(r.latest), Rank(cfg.current) < Rank(r.minimum), r)
  {
    BelowIsStale(cfg, saved, r);
    if IsVersion(cfg.current) { UpdateIsRank(cfg, r); }
    hide Below, IsStale, IsVersion, Rank, Update, Unsafe;
  }

  /** A table without a signature is told from a site that does not answer; neither touches what is kept or stored. */
  lemma FailedFetchKeeps(cfg: Config, s: State, f: Fetch, now: int, written: bool)
    requires Valid(cfg, s) && s.running && !f.Fetched?
    ensures Finish(cfg, s, f, now, written) ==
      s.(result := Some(if f.SignatureMissing? then NoSignature else Unreachable), running := false)
  {
    hide Rank, IsVersion, Sane, JudgesKept;
  }

  /** Asking starts a check exactly when none is under way and none has ended but in a silent site. */
  lemma CheckStartsIff(s: State)
    ensures !s.running && Ask(s).running <==>
      !s.running && (s.result.None? || s.result.value == Unreachable)
    ensures Ask(s).(running := s.running) == s
  {
  }

  // ------------------------------------------------------------------ whole runs

  /** The table is usable, not below what is kept and not past its last day, and this build has a version. */
  predicate Believed(cfg: Config, s: State, t: Table, now: int)
    requires Valid(cfg, s)
  {
    && Usable(cfg, t, true) && cfg.endOfDay(t.validUntil.value).value > now && IsVersion(cfg.current)
    && (s.saved.Some? ==>
          Rank(s.saved.value.latest) <= Rank(t.latest.value) && Rank(s.saved.value.minimum) <= Rank(t.minimum.value))
  }

  lemma BelievedIsJudged(cfg: Config, s: State, t: Table, now: int)
    requires Valid(cfg, s) && Believed(cfg, s, t, now)
    ensures Sane(cfg, RecordOf(cfg, t))
    ensures Evaluate(cfg, s.saved, Fetched(t, true), now) ==
      Judged(Rank(cfg.current) < Rank(t.latest.value), Rank(cfg.current) < Rank(t.minimum.value), RecordOf(cfg, t))
  {
    TableIsJudgedIff(cfg, s.saved, t, true, now);
    hide Usable, IsVersion, Rank, Evaluate, JudgesKept;
  }

  /**
   In any run: when a check under way brings a table to believe, the page shows from then on
   until the next start, whatever the time, exactly its two versions, that this build is
   below its latest and whether it is below its minimum; and nothing if it is not.
   */
  lemma BelievedIsShown(cfg: Config, file: Option<Stored>, run: seq<Event>, t: Table, now: int, written: bool,
    later: int)
    requires Exec(cfg, file, run).running && Believed(cfg, Exec(cfg, file, run), t, now)
    ensures var s := Exec(cfg, file, run + [Finishes(Fetched(t, true), now, written)]);
      NoticeAt(cfg, s, later) ==
        if Rank(cfg.current) < Rank(t.latest.value)
        then Newer(t.latest.value, t.minimum.value, Rank(cfg.current) < Rank(t.minimum.value)) else Nothing
  {
    var ev := Finishes(Fetched(t, true), now, written);
    var s := Exec(cfg, file, run);
    BelievedIsJudged(cfg, s, t, now);
    ExecNext(cfg, file, run, ev);
    hide Exec, Usable, IsVersion, Rank, Evaluate, JudgesKept, Merge, Believed, Sane;
  }

  /**
   And if it raised what was kept and was written, a session that can then read the file
   starts with exactly what this one keeps.
   */
  lemma BelievedIsRemembered(cfg: Config, file: Option<Stored>, run: seq<Event>, t: Table, now: int)
    requires cfg.hasFile && Exec(cfg, file, run).running && Believed(cfg, Exec(cfg, file, run), t, now)
    ensures var s, ev := Exec(cfg, file, run), Finishes(Fetched(t, true), now, true);
      var kept := Exec(cfg, file, run + [ev]).saved;
      && Sane(cfg, RecordOf(cfg, t)) && kept == Some(Merge(cfg, s.saved, RecordOf(cfg, t)))
      && (!(s.saved.Some? && Same(kept.value, s.saved.value)) ==>
            Exec(cfg, file, run + [ev] + [Restarts(true)]).saved == kept)
  {
    var ev := Finishes(Fetched(t, true), now, true);
    var s := Exec(cfg, file, run);
    BelievedIsJudged(cfg, s, t, now);
    ExecNext(cfg, file, run, ev);
    ExecNext(cfg, file, run + [ev], Restarts(true));
    hide *;
    BelievedIsStored(cfg, s, t, now);
  }

  lemma BelievedIsStored(cfg: Config, s: State, t: Table, now: int)
    requires cfg.hasFile && Valid(cfg, s) && s.running && Believed(cfg, s, t, now)
    ensures var a := Step(cfg, s, Finishes(Fetched(t, true), now, true));
      && Sane(cfg, RecordOf(cfg, t)) && SaneIfAny(cfg, s.saved)
      && a.saved == Some(Merge(cfg, s.saved, RecordOf(cfg, t)))
      && (!(s.saved.Some? && Same(a.saved.value, s.saved.value)) ==> Step(cfg, a, Restarts(true)).saved == a.saved)
  {
    BelievedIsJudged(cfg, s, t, now);
    var r := RecordOf(cfg, t);
    var v := Evaluate(cfg, s.saved, Fetched(t, true), now);
    SavedIsSane(cfg, s);
    FreshMerges(cfg, s.saved, r);
    hide *;
    StepKeeps(cfg, s, Fetched(t, true), now);
    StepReads(cfg, Step(cfg, s, Finishes(Fetched(t, true), now, true)));
    StoredReadsBackIff(cfg, Merge(cfg, s.saved, r));
  }

  lemma StepKeeps(cfg: Config, s: State, f: Fetch, now: int)
    requires cfg.hasFile && Valid(cfg, s) && s.running && SaneIfAny(cfg, s.saved)
    requires Evaluate(cfg, s.saved, f, now).Judged?
    ensures var a := Step(cfg, s, Finishes(f, now, true));
      var v := Evaluate(cfg, s.saved, f, now);
      && Sane(cfg, v.record) && a.saved == Some(Merge(cfg, s.saved, v.record))
      && (!(s.saved.Some? && Same(a.saved.value, s.saved.value)) ==> a.file == Some(ToStore(a.saved.value)))
  {
    hide Evaluate, Sane, Judge, Merge, JudgesKept;
  }

  lemma StepReads(cfg: Config, s: State)
    requires cfg.hasFile && Valid(cfg, s)
    ensures Step(cfg, s, Restarts(true)).saved == ReadSaved(cfg, s.file)
  {
    hide ReadSaved, Valid;
  }

  /**
   In every run, what the page offers is what is kept: versions of the same rank as the kept
   ones, the kept ones themselves unless this session has its own verdict.
   */
  lemma OffersAreKept(cfg: Config, file: Option<Stored>, run: seq<Event>, now: int)
    ensures var s := Exec(cfg, file, run);
      var n := NoticeAt(cfg, s, now);
      n.Newer? ==>
        && s.saved.Some? && IsVersion(n.latest) && IsVersion(n.minimum)
        && Rank(n.latest) == Rank(s.saved.value.latest) && Rank(n.minimum) == Rank(s.saved.value.minimum)
        && (if s.result.Some? && s.result.value.Judged?
            then n.latest == s.result.value.record.latest && n.minimum == s.result.value.record.minimum
            else n.latest == s.saved.value.latest && n.minimum == s.saved.value.minimum)
  {
    var s := Exec(cfg, file, run);
    hide Exec, Rank, IsVersion, Update, Unsafe;
  }

  /**
   In every run, the page says that it could not confirm this build exactly when a check has
   ended, there is no word to go by, and either it was more than a missing signature or a
   silent site, or this build knows the table is signed, or something is kept.
   */
  lemma UnconfirmedIff(cfg: Config, file: Option<Stored>, run: seq<Event>, now: int)
    ensures var s := Exec(cfg, file, run);
      NoticeAt(cfg, s, now).Unconfirmed? <==>
        && s.result.Some? && !(HasWord(s, now) && IsVersion(cfg.current))
        && (s.saved.Some? || cfg.signedBuild || !(s.result.value.NoSignature? || s.result.value.Unreachable?))
  {
    var s := Exec(cfg, file, run);
    hide Exec, Rank, IsVersion, Update, Unsafe, Sane;
  }
}
