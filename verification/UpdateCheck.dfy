/**
 The browser's update notice: a signed record fetched from the site, the most this
 browser has ever verified kept in a file, and what the new tab page is told.
 */
module UpdateCheck {
  import opened Options

  // ------------------------------------------------------------------- versions

  predicate IsDigit(c: char) { '0' <= c <= '9' }

  function Digits(s: string): (n: nat)
    ensures n <= |s| && (forall i :: 0 <= i < n ==> IsDigit(s[i])) && (n < |s| ==> !IsDigit(s[n]))
  {
    if |s| == 0 || !IsDigit(s[0]) then 0 else 1 + Digits(s[1..])
  }

  function Pow10(n: nat): nat { if n == 0 then 1 else 10 * Pow10(n - 1) }

  function ToNat(s: string): (v: nat)
    requires forall i :: 0 <= i < |s| ==> IsDigit(s[i])
    ensures v < Pow10(|s|)
  {
    if |s| == 0 then 0
    else
      assert IsDigit(s[|s| - 1]);
      10 * ToNat(s[..|s| - 1]) + (s[|s| - 1] as int - '0' as int)
  }

  /** A number of one to four digits. */
  function Part(s: string): (v: nat)
    requires 1 <= |s| <= 4 && forall i :: 0 <= i < |s| ==> IsDigit(s[i])
    ensures v < 10000
  {
    assert Pow10(4) == 10000 && Pow10(3) == 1000 && Pow10(2) == 100 && Pow10(1) == 10;
    ToNat(s)
  }

  predicate Short(n: nat) { 1 <= n <= 4 }

  /** The three numbers of X.Y.Z. */
  function ParseVersion(s: string): (v: Option<seq<int>>)
    ensures v.Some? ==> |v.value| == 3 && 0 <= v.value[0] < 10000 && 0 <= v.value[1] < 10000 && 0 <= v.value[2] < 10000
  {
    var a := Digits(s);
    if !Short(a) || a == |s| || s[a] != '.' then None
    else
      var t := s[a + 1..];
      var b := Digits(t);
      if !Short(b) || b == |t| || t[b] != '.' then None
      else
        var u := t[b + 1..];
        if !Short(Digits(u)) || Digits(u) != |u| then None else Some([Part(s[..a]) as int, Part(t[..b]), Part(u)])
  }

  predicate IsVersion(s: string) { ParseVersion(s).Some? }

  /** The place of a version in the order: X.Y.Z read as one number. */
  function Rank(s: string): nat
    requires IsVersion(s)
  {
    var v := ParseVersion(s).value;
    v[0] * 100000000 + v[1] * 10000 + v[2]
  }

  /** Negative, zero or positive, as the first differing number decides. */
  function Compare(a: string, b: string): int
    requires IsVersion(a) && IsVersion(b)
  {
    var x, y := ParseVersion(a).value, ParseVersion(b).value;
    if x[0] != y[0] then x[0] - y[0] else if x[1] != y[1] then x[1] - y[1] else x[2] - y[2]
  }

  /** Comparing number by number is comparing the ranks. */
  lemma CompareIsRank(a: string, b: string)
    requires IsVersion(a) && IsVersion(b)
    ensures Compare(a, b) < 0 <==> Rank(a) < Rank(b)
    ensures Compare(a, b) > 0 <==> Rank(a) > Rank(b)
  {
    var x, y := ParseVersion(a).value, ParseVersion(b).value;
    hide ParseVersion;
  }

  /** The comparison of the scripts; None where it throws. */
  method CompareVersions(a: string, b: string) returns (r: Option<int>)
    ensures r.Some? <==> IsVersion(a) && IsVersion(b)
    ensures r.Some? ==> (r.value < 0 <==> Rank(a) < Rank(b)) && (r.value == 0 <==> Rank(a) == Rank(b))
    ensures r.Some? ==> r.value == Compare(a, b)
  {
    var x, y := ParseVersion(a), ParseVersion(b);
    if x.None? || y.None? { return None; }
    CompareIsRank(a, b);
    hide ParseVersion, Rank;
    var i := 0;
    while i < 3
      invariant 0 <= i <= 3 && forall k :: 0 <= k < i ==> x.value[k] == y.value[k]
    {
      if x.value[i] != y.value[i] { return Some(x.value[i] - y.value[i]); }
      i := i + 1;
    }
    return Some(0);
  }

  // -------------------------------------------------------------------- records

  /** The last moment of a day given as YYYY-MM-DD, where it is one. */
  datatype Config = Config(endOfDay: string -> Option<int>, current: string, hasFile: bool, hasKey: bool,
    signedBuild: bool)

  datatype Record = Record(latest: string, minimum: string, validUntil: string, expires: int)

  /**
   The record's lines in a table (absent unless there is exactly one) and whether it lists a
   package of that version.
   */
  datatype Table = Table(latest: Option<string>, minimum: Option<string>, validUntil: Option<string>, listed: bool)

  function ParseRecord(cfg: Config, t: Table): Option<Record> {
    if t.latest.None? || t.minimum.None? || t.validUntil.None? then None
    else Checked(cfg, t.latest.value, t.minimum.value, t.validUntil.value, t.listed)
  }

  function Checked(cfg: Config, latest: string, minimum: string, validUntil: string, listed: bool): Option<Record> {
    if !IsVersion(latest) || !IsVersion(minimum) then None
    else if Compare(minimum, latest) > 0 then None
    else if cfg.endOfDay(validUntil).None? || !listed then None
    else Some(Record(latest, minimum, validUntil, cfg.endOfDay(validUntil).value))
  }

  /** Two versions in order and a real day. */
  predicate Sane(cfg: Config, r: Record) {
    && IsVersion(r.latest) && IsVersion(r.minimum) && Rank(r.minimum) <= Rank(r.latest)
    && cfg.endOfDay(r.validUntil) == Some(r.expires)
  }

  predicate SaneIfAny(cfg: Config, saved: Option<Record>) { saved.Some? ==> Sane(cfg, saved.value) }

  lemma CheckedIsSane(cfg: Config, latest: string, minimum: string, validUntil: string, listed: bool)
    ensures var r := Checked(cfg, latest, minimum, validUntil, listed);
      && (r.Some? ==> Sane(cfg, r.value) && ToStore(r.value) == Stored(latest, minimum, validUntil))
      && (listed && (exists e :: Sane(cfg, Record(latest, minimum, validUntil, e))) ==> r.Some?)
  {
    if IsVersion(latest) && IsVersion(minimum) { CompareIsRank(minimum, latest); }
    hide ParseVersion, Rank, Compare;
  }

  /** What the state file holds. */
  datatype Stored = Stored(latest: string, minimum: string, validUntil: string)

  function ReadSaved(cfg: Config, file: Option<Stored>): Option<Record> {
    if file.None? then None else Checked(cfg, file.value.latest, file.value.minimum, file.value.validUntil, true)
  }

  function ToStore(r: Record): Stored { Stored(r.latest, r.minimum, r.validUntil) }

  /** A record comes back from the file exactly when it is sane. */
  lemma StoredReadsBackIff(cfg: Config, r: Record)
    ensures ReadSaved(cfg, Some(ToStore(r))) == Some(r) <==> Sane(cfg, r)
  {
    CheckedIsSane(cfg, r.latest, r.minimum, r.validUntil, true);
    if Sane(cfg, r) { assert Sane(cfg, Record(r.latest, r.minimum, r.validUntil, r.expires)); }
    hide Rank, Compare, IsVersion;
  }

  function Higher(a: string, b: string): string
    requires IsVersion(a) && IsVersion(b)
  {
    if Compare(a, b) >= 0 then a else b
  }

  function Merge(cfg: Config, saved: Option<Record>, r: Record): Record
    requires Sane(cfg, r) && SaneIfAny(cfg, saved)
  {
    if saved.None? then r
    else
      var later := if r.expires > saved.value.expires then r else saved.value;
      Record(Higher(r.latest, saved.value.latest), Higher(r.minimum, saved.value.minimum), later.validUntil,
        later.expires)
  }

  /** b is no lower than a in anything. */
  predicate NoLower(cfg: Config, a: Record, b: Record)
    requires Sane(cfg, a) && Sane(cfg, b)
  {
    Rank(a.latest) <= Rank(b.latest) && Rank(a.minimum) <= Rank(b.minimum) && a.expires <= b.expires
  }

  lemma HigherIsMax(a: string, b: string)
    requires IsVersion(a) && IsVersion(b)
    ensures IsVersion(Higher(a, b)) && Rank(Higher(a, b)) == if Rank(a) >= Rank(b) then Rank(a) else Rank(b)
  {
    CompareIsRank(a, b);
    hide Rank, Compare, ParseVersion;
  }

  /** The merge never lowers either record, and stays sane. */
  lemma MergeIsUpper(cfg: Config, saved: Record, r: Record)
    requires Sane(cfg, saved) && Sane(cfg, r)
    ensures var m := Merge(cfg, Some(saved), r); Sane(cfg, m) && NoLower(cfg, saved, m) && NoLower(cfg, r, m)
  {
    hide Rank, Higher, IsVersion;
    HigherIsMax(r.latest, saved.latest);
    HigherIsMax(r.minimum, saved.minimum);
  }

  /** The merge is the least record that is no lower than either. */
  lemma MergeIsLeast(cfg: Config, saved: Record, r: Record, u: Record)
    requires Sane(cfg, saved) && Sane(cfg, r) && Sane(cfg, u) && NoLower(cfg, saved, u) && NoLower(cfg, r, u)
    ensures var m := Merge(cfg, Some(saved), r); Sane(cfg, m) && NoLower(cfg, m, u)
  {
    hide Rank, Higher, IsVersion;
    HigherIsMax(r.latest, saved.latest);
    HigherIsMax(r.minimum, saved.minimum);
  }

  // ------------------------------------------------------------------- the check

  datatype Verdict =
    | NoSignature
    | Unreachable
    | Invalid
    | Stale(latest: string, minimum: string)
    | Expired(validUntil: string)
    | Judged(update: bool, unsafe: bool, record: Record)

  /** How the two fetches went; a fetched table has a signature that checks out or not. */
  datatype Fetch = SignatureMissing | SignatureFails | TableFails | Fetched(table: Table, genuine: bool)

  function Unsafe(r: Record, current: string): bool
    requires IsVersion(r.minimum) && IsVersion(current)
  {
    Compare(current, r.minimum) < 0
  }

  function Update(r: Record, current: string): bool
    requires IsVersion(r.minimum) && IsVersion(r.latest) && IsVersion(current)
  {
    Unsafe(r, current) || Compare(r.latest, current) > 0
  }

  predicate IsStale(cfg: Config, saved: Option<Record>, r: Record)
    requires Sane(cfg, r) && SaneIfAny(cfg, saved)
  {
    saved.Some? && (Compare(r.latest, saved.value.latest) < 0 || Compare(r.minimum, saved.value.minimum) < 0)
  }

  function Judge(cfg: Config, saved: Option<Record>, r: Record, now: int): Verdict
    requires Sane(cfg, r) && SaneIfAny(cfg, saved)
  {
    if IsStale(cfg, saved, r) then Stale(r.latest, r.minimum)
    else if now >= r.expires then Expired(r.validUntil)
    else if !IsVersion(cfg.current) then Invalid
    else Judged(Update(r, cfg.current), Unsafe(r, cfg.current), r)
  }

  function Evaluate(cfg: Config, saved: Option<Record>, f: Fetch, now: int): (v: Verdict)
    requires SaneIfAny(cfg, saved)
    ensures v.Judged? ==> Sane(cfg, v.record) && v == Judge(cfg, saved, v.record, now)
  {
    match f
    case SignatureMissing => NoSignature
    case SignatureFails => Unreachable
    case TableFails => Unreachable
    case Fetched(table, genuine) =>
      if !cfg.hasKey || !genuine then Invalid
      else
        var r := ParseRecord(cfg, table);
        if r.None? then Invalid
        else
          ParsedIsSane(cfg, table);
          Judge(cfg, saved, r.value, now)
  }

  lemma ParsedIsSane(cfg: Config, t: Table)
    ensures ParseRecord(cfg, t).Some? ==> Sane(cfg, ParseRecord(cfg, t).value)
  {
    if t.latest.Some? && t.minimum.Some? && t.validUntil.Some? {
      CheckedIsSane(cfg, t.latest.value, t.minimum.value, t.validUntil.value, t.listed);
    }
  }

  /** One running browser and its state file. */
  datatype State = State(saved: Option<Record>, result: Option<Verdict>, file: Option<Stored>, running: bool)

  /** A start, at which the file may turn out unreadable: then it is as if there were none. */
  function Start(cfg: Config, file: Option<Stored>, readable: bool): State {
    State(if cfg.hasFile && readable then ReadSaved(cfg, file) else None, None, file, false)
  }

  predicate Same(a: Record, b: Record) {
    a.latest == b.latest && a.minimum == b.minimum && a.validUntil == b.validUntil
  }

  function Keep(cfg: Config, s: State, v: Verdict, written: bool): State
    requires SaneIfAny(cfg, s.saved) && (v.Judged? ==> Sane(cfg, v.record))
  {
    if !v.Judged? then s
    else
      var next := Merge(cfg, s.saved, v.record);
      if (s.saved.Some? && Same(next, s.saved.value)) || !cfg.hasFile || !written then s.(saved := Some(next))
      else s.(saved := Some(next), file := Some(ToStore(next)))
  }

  predicate Settled(s: State) { s.result.Some? && !s.result.value.Unreachable? }

  /** Asked to check: nothing once it has settled, and a check under way is shared. */
  function Ask(s: State): State {
    if Settled(s) || s.running then s else s.(running := true)
  }

  /** The check under way ends: a verdict on what was fetched, and perhaps a write. */
  function Finish(cfg: Config, s: State, f: Fetch, now: int, written: bool): State
    requires Valid(cfg, s)
  {
    if !s.running then s
    else
      var v := Evaluate(cfg, s.saved, f, now);
      Keep(cfg, s.(result := Some(v), running := false), v, written)
  }

  datatype Notice = Nothing | Newer(latest: string, minimum: string, unsafe: bool) | Unconfirmed

  /** What the new tab page shows at time now. */
  function NoticeAt(cfg: Config, s: State, now: int): Notice
    requires Valid(cfg, s)
  {
    if s.result.Some? && s.result.value.Judged? then
      var v := s.result.value;
      if v.update then Newer(v.record.latest, v.record.minimum, v.unsafe) else Nothing
    else if s.saved.Some? && now < s.saved.value.expires && IsVersion(cfg.current) then
      var k := s.saved.value;
      if Update(k, cfg.current) then Newer(k.latest, k.minimum, Unsafe(k, cfg.current)) else Nothing
    else if s.result.None? then Nothing
    else if (s.result.value.NoSignature? || s.result.value.Unreachable?) && !cfg.signedBuild &&
      s.saved.None? then Nothing
    else Unconfirmed
  }

  // ------------------------------------------------------------------ invariants

  /** What is kept is sane, and a verdict is about what is kept. */
  predicate Valid(cfg: Config, s: State) {
    && SaneIfAny(cfg, s.saved)
    && (s.result.Some? && s.result.value.Judged? ==> JudgesKept(cfg, s))
    && (s.running ==> !Settled(s))
  }

  /** What is kept is no lower than the file. */
  predicate FileBelow(cfg: Config, s: State)
    requires SaneIfAny(cfg, s.saved)
  {
    var f := ReadSaved(cfg, s.file);
    cfg.hasFile && f.Some? ==> s.saved.Some? && Sane(cfg, f.value) && NoLower(cfg, f.value, s.saved.value)
  }

  predicate JudgesKept(cfg: Config, s: State)
    requires SaneIfAny(cfg, s.saved)
    requires s.result.Some? && s.result.value.Judged?
  {
    var v := s.result.value;
    && s.saved.Some? && IsVersion(cfg.current) && Sane(cfg, v.record)
    && v.update == Update(v.record, cfg.current) && v.unsafe == Unsafe(v.record, cfg.current)
    && Rank(v.record.minimum) == Rank(s.saved.value.minimum) && Rank(v.record.latest) == Rank(s.saved.value.latest)
  }

  lemma StartIsValid(cfg: Config, file: Option<Stored>, readable: bool)
    ensures Valid(cfg, Start(cfg, file, readable))
    ensures readable ==> FileBelow(cfg, Start(cfg, file, readable))
  {
    ReadIsSane(cfg, file);
    hide ReadSaved, Rank, IsVersion;
  }

  lemma ReadIsSane(cfg: Config, file: Option<Stored>)
    ensures ReadSaved(cfg, file).Some? ==> Sane(cfg, ReadSaved(cfg, file).value)
  {
    if file.Some? { CheckedIsSane(cfg, file.value.latest, file.value.minimum, file.value.validUntil, true); }
  }

  /**
   What passes for fresh is exactly what the merge takes over; and whatever it is given, the
   merge does not go down.
   */
  lemma FreshMerges(cfg: Config, saved: Option<Record>, r: Record)
    requires Sane(cfg, r) && SaneIfAny(cfg, saved)
    ensures var m := Merge(cfg, saved, r);
      && Sane(cfg, m) && (saved.Some? ==> NoLower(cfg, saved.value, m))
      && (!IsStale(cfg, saved, r) <==> Rank(m.latest) == Rank(r.latest) && Rank(m.minimum) == Rank(r.minimum))
  {
    if saved.Some? {
      MergeIsUpper(cfg, saved.value, r);
      CompareIsRank(r.latest, saved.value.latest);
      CompareIsRank(r.minimum, saved.value.minimum);
      HigherIsMax(r.latest, saved.value.latest);
      HigherIsMax(r.minimum, saved.value.minimum);
      hide Rank, Higher, Compare, IsVersion;
    }
  }

  lemma JudgedFacts(cfg: Config, saved: Option<Record>, r: Record, now: int)
    requires Sane(cfg, r) && SaneIfAny(cfg, saved) && Judge(cfg, saved, r, now).Judged?
    ensures IsVersion(cfg.current) && !IsStale(cfg, saved, r) && now < r.expires
    ensures Judge(cfg, saved, r, now) == Judged(Update(r, cfg.current), Unsafe(r, cfg.current), r)
  {
  }

  lemma KeepIsValid(cfg: Config, s: State, v: Verdict, now: int, written: bool)
    requires Valid(cfg, s) && !Settled(s)
    requires v.Judged? ==> Sane(cfg, v.record) && v == Judge(cfg, s.saved, v.record, now)
    ensures Valid(cfg, Keep(cfg, s.(result := Some(v), running := false), v, written))
  {
    hide ReadSaved, Merge, Rank, IsVersion, Sane, Judge, IsStale, Update, Unsafe;
    if v.Judged? {
      JudgedFacts(cfg, s.saved, v.record, now);
      FreshMerges(cfg, s.saved, v.record);
    }
  }

  lemma KeepIsAbove(cfg: Config, s: State, v: Verdict, written: bool)
    requires SaneIfAny(cfg, s.saved) && FileBelow(cfg, s) && (v.Judged? ==> Sane(cfg, v.record))
    ensures var t := Keep(cfg, s.(result := Some(v), running := false), v, written);
      SaneIfAny(cfg, t.saved) && FileBelow(cfg, t)
  {
    hide ReadSaved, Merge, Rank, IsVersion, Sane;
    if v.Judged? {
      FreshMerges(cfg, s.saved, v.record);
      var m := Merge(cfg, s.saved, v.record);
      StoredReadsBackIff(cfg, m);
      NoLowerSelf(cfg, m);
      if ReadSaved(cfg, s.file).Some? && cfg.hasFile {
        NoLowerTransitive(cfg, ReadSaved(cfg, s.file).value, s.saved.value, m);
      }
    }
  }

  lemma NoLowerSelf(cfg: Config, a: Record)
    requires Sane(cfg, a)
    ensures NoLower(cfg, a, a)
  {
    hide Rank, IsVersion;
  }

  lemma NoLowerTransitive(cfg: Config, a: Record, b: Record, c: Record)
    requires Sane(cfg, a) && Sane(cfg, b) && Sane(cfg, c) && NoLower(cfg, a, b) && NoLower(cfg, b, c)
    ensures NoLower(cfg, a, c)
  {
    hide Rank, IsVersion;
  }

  lemma FinishIsValid(cfg: Config, s: State, f: Fetch, now: int, written: bool)
    requires Valid(cfg, s)
    ensures Valid(cfg, Finish(cfg, s, f, now, written)) && Valid(cfg, Ask(s))
  {
    AskIsValid(cfg, s);
    SavedIsSane(cfg, s);
    hide Evaluate, Valid, Keep, Sane, Judge;
    if s.running {
      KeepIsValid(cfg, s, Evaluate(cfg, s.saved, f, now), now, written);
    }
  }

  lemma AskIsValid(cfg: Config, s: State)
    requires Valid(cfg, s)
    ensures Valid(cfg, Ask(s))
  {
    hide ReadSaved, Rank, IsVersion, Sane, Update, Unsafe;
  }

  lemma SavedIsSane(cfg: Config, s: State)
    requires Valid(cfg, s)
    ensures SaneIfAny(cfg, s.saved) && (s.running ==> !Settled(s))
  {
  }

  // ------------------------------------------------------------------- whole runs

  datatype Event = Asks | Finishes(fetch: Fetch, now: int, written: bool) | Restarts(readable: bool)

  function Step(cfg: Config, s: State, ev: Event): (t: State)
    requires Valid(cfg, s)
    ensures Valid(cfg, t)
  {
    match ev
    case Asks => AskIsValid(cfg, s); Ask(s)
    case Finishes(f, now, written) => FinishIsValid(cfg, s, f, now, written); Finish(cfg, s, f, now, written)
    case Restarts(readable) => StartIsValid(cfg, s.file, readable); Start(cfg, s.file, readable)
  }

  /** The browser after a run that began with any file at all. */
  function Exec(cfg: Config, file: Option<Stored>, run: seq<Event>): (s: State)
    ensures Valid(cfg, s)
  {
    if |run| == 0 then StartIsValid(cfg, file, true); Start(cfg, file, true)
    else Step(cfg, Exec(cfg, file, run[..|run| - 1]), run[|run| - 1])
  }

  /** A usable file stays usable and goes down in nothing. */
  predicate FileKept(cfg: Config, before: Option<Stored>, after: Option<Stored>) {
    var a, b := ReadSaved(cfg, before), ReadSaved(cfg, after);
    a.Some? ==> b.Some? && Sane(cfg, a.value) && Sane(cfg, b.value) && NoLower(cfg, a.value, b.value)
  }

  lemma FileKeptSelf(cfg: Config, file: Option<Stored>)
    ensures FileKept(cfg, file, file)
  {
    hide ReadSaved, Rank, IsVersion;
    ReadIsSane(cfg, file);
  }

  lemma FileKeptTransitive(cfg: Config, a: Option<Stored>, b: Option<Stored>, c: Option<Stored>)
    requires FileKept(cfg, a, b) && FileKept(cfg, b, c)
    ensures FileKept(cfg, a, c)
  {
    hide ReadSaved, Rank, IsVersion, Sane;
    if ReadSaved(cfg, a).Some? {
      NoLowerTransitive(cfg, ReadSaved(cfg, a).value, ReadSaved(cfg, b).value, ReadSaved(cfg, c).value);
    }
  }

  /**
   Exactly when a finished check brings a usable file down: it has a verdict on a record,
   something changed, the write succeeds, and the merge of the record with what this
   session holds is below the file in something.
   */
  lemma FinishLowersIff(cfg: Config, s: State, f: Fetch, now: int, written: bool)
    requires Valid(cfg, s) && s.running
    ensures var v := Evaluate(cfg, s.saved, f, now);
      var kept := ReadSaved(cfg, s.file);
      !FileKept(cfg, s.file, Finish(cfg, s, f, now, written).file) <==>
        && v.Judged? && cfg.hasFile && written && kept.Some? && Sane(cfg, kept.value)
        && var next := Merge(cfg, s.saved, v.record);
        !(s.saved.Some? && Same(next, s.saved.value)) && Sane(cfg, next) && !NoLower(cfg, kept.value, next)
  {
    hide ReadSaved, Merge, Rank, IsVersion, Sane, Evaluate, Judge, JudgesKept;
    FileKeptSelf(cfg, s.file);
    ReadIsSane(cfg, s.file);
    var v := Evaluate(cfg, s.saved, f, now);
    if v.Judged? {
      FreshMerges(cfg, s.saved, v.record);
      StoredReadsBackIff(cfg, Merge(cfg, s.saved, v.record));
    }
  }

  /** With what is kept no lower than the file, no step brings the file down or leaves it above. */
  lemma StepKeepsFile(cfg: Config, s: State, ev: Event)
    requires Valid(cfg, s) && (ev.Finishes? ==> FileBelow(cfg, s))
    ensures FileKept(cfg, s.file, Step(cfg, s, ev).file)
    ensures FileBelow(cfg, s) && !ev.Restarts? ==> FileBelow(cfg, Step(cfg, s, ev))
  {
    FileKeptSelf(cfg, s.file);
    hide ReadSaved, Merge, Rank, IsVersion, Sane, Evaluate, Judge, JudgesKept;
    if ev.Finishes? && s.running {
      var v := Evaluate(cfg, s.saved, ev.fetch, ev.now);
      KeepIsAbove(cfg, s, v, ev.written);
      if v.Judged? {
        FreshMerges(cfg, s.saved, v.record);
        StoredReadsBackIff(cfg, Merge(cfg, s.saved, v.record));
        if ReadSaved(cfg, s.file).Some? && cfg.hasFile {
          NoLowerTransitive(cfg, ReadSaved(cfg, s.file).value, s.saved.value, Merge(cfg, s.saved, v.record));
        }
      }
    }
  }

  /** The start this session began with could read the file. */
  function ReadAtStart(run: seq<Event>): bool {
    if |run| == 0 then true
    else if run[|run| - 1].Restarts? then run[|run| - 1].readable else ReadAtStart(run[..|run| - 1])
  }

  /** Checks end only in sessions whose start could read the file. */
  ghost predicate ChecksRead(run: seq<Event>) {
    forall k :: 0 <= k < |run| && run[k].Finishes? ==> ReadAtStart(run[..k])
  }

  lemma {:induction false} ReadSessionsAreAbove(cfg: Config, file: Option<Stored>, run: seq<Event>)
    requires ReadAtStart(run)
    ensures FileBelow(cfg, Exec(cfg, file, run))
  {
    if |run| == 0 {
      StartIsValid(cfg, file, true);
    } else {
      var s, ev := Exec(cfg, file, run[..|run| - 1]), run[|run| - 1];
      if ev.Restarts? {
        StartIsValid(cfg, s.file, true);
      } else {
        ReadSessionsAreAbove(cfg, file, run[..|run| - 1]);
        hide FileBelow, Step;
        StepKeepsFile(cfg, s, ev);
      }
    }
  }

  /**
   Over any fetches, failed writes and restarts, readable or not, in which checks end only
   in sessions that could read the file at their start: the versions and the day in the
   file never go down.
   */
  lemma {:induction false} FileNeverGoesDown(cfg: Config, file: Option<Stored>, run: seq<Event>, i: nat)
    requires i <= |run| && ChecksRead(run)
    ensures FileKept(cfg, Exec(cfg, file, run[..i]).file, Exec(cfg, file, run).file)
    decreases |run| - i
  {
    hide FileKept, Step, FileBelow;
    if i == |run| {
      assert run[..i] == run;
      FileKeptSelf(cfg, Exec(cfg, file, run).file);
    } else {
      assert run[..i + 1][..i] == run[..i];
      var a, b, c := Exec(cfg, file, run[..i]), Exec(cfg, file, run[..i + 1]), Exec(cfg, file, run);
      if run[i].Finishes? { ReadSessionsAreAbove(cfg, file, run[..i]); }
      StepKeepsFile(cfg, a, run[i]);
      FileNeverGoesDown(cfg, file, run, i + 1);
      FileKeptTransitive(cfg, a.file, b.file, c.file);
    }
  }

  /** A start that cannot read the file, and an older signed record served again. */
  function UnreadableStart(table: Table, now: int): seq<Event> {
    [Restarts(false), Asks, Finishes(Fetched(table, true), now, true)]
  }

  /** Then the file goes down, for every two records of which the older has not expired. */
  lemma UnreadableStartLowersFile(cfg: Config, high: Record, low: Record, now: int)
    requires Sane(cfg, high) && Sane(cfg, low) && Rank(low.latest) < Rank(high.latest) && now < low.expires
    requires cfg.hasFile && cfg.hasKey && IsVersion(cfg.current)
    ensures var table := Table(Some(low.latest), Some(low.minimum), Some(low.validUntil), true);
      !FileKept(cfg, Some(ToStore(high)), Exec(cfg, Some(ToStore(high)), UnreadableStart(table, now)).file)
  {
    var table := Table(Some(low.latest), Some(low.minimum), Some(low.validUntil), true);
    var file := Some(ToStore(high));
    var s := State(None, None, file, true);
    UnreadableAsks(cfg, file);
    RecordIsJudged(cfg, low, now);
    StoredReadsBackIff(cfg, high);
    StoredReadsBackIff(cfg, low);
    hide Rank, IsVersion, Sane, Checked, ReadSaved, Evaluate, Exec;
    ExecNext(cfg, file, [Restarts(false), Asks], Finishes(Fetched(table, true), now, true));
    assert [Restarts(false), Asks] + [Finishes(Fetched(table, true), now, true)] == UnreadableStart(table, now);
  }

  lemma ExecNext(cfg: Config, file: Option<Stored>, run: seq<Event>, ev: Event)
    ensures Exec(cfg, file, run + [ev]) == Step(cfg, Exec(cfg, file, run), ev)
  {
    hide Step;
    assert (run + [ev])[..|run|] == run;
  }

  lemma UnreadableAsks(cfg: Config, file: Option<Stored>)
    ensures Exec(cfg, file, [Restarts(false), Asks]) == State(None, None, file, true)
  {
    hide ReadSaved, FileBelow;
    assert [Restarts(false), Asks] == [Restarts(false)] + [Asks] && [Restarts(false)] == [] + [Restarts(false)];
    ExecNext(cfg, file, [], Restarts(false));
    StoredFileStays(cfg, file);
    ExecNext(cfg, file, [Restarts(false)], Asks);
  }

  lemma StoredFileStays(cfg: Config, file: Option<Stored>)
    ensures Exec(cfg, file, []).file == file
  {
  }

  /** With nothing kept, a signed record that has not expired is believed. */
  lemma RecordIsJudged(cfg: Config, r: Record, now: int)
    requires Sane(cfg, r) && now < r.expires && cfg.hasKey && IsVersion(cfg.current)
    ensures var table := Table(Some(r.latest), Some(r.minimum), Some(r.validUntil), true);
      var v := Evaluate(cfg, None, Fetched(table, true), now);
      v.Judged? && v.record == r
  {
    StoredReadsBackIff(cfg, r);
    hide Rank, Checked, Update, Unsafe;
  }

  /** What is kept at any time has its minimum at or below its latest. */
  lemma KeptIsSane(cfg: Config, file: Option<Stored>, run: seq<Event>)
    ensures var s := Exec(cfg, file, run);
      s.saved.Some? ==> Sane(cfg, s.saved.value) && Rank(s.saved.value.minimum) <= Rank(s.saved.value.latest)
  {
  }

  /** A verdict of this session, or what is kept and has not expired, is there to go by. */
  predicate HasWord(s: State, now: int) {
    (s.result.Some? && s.result.value.Judged?) || (s.saved.Some? && now < s.saved.value.expires)
  }

  /**
   In every run, whatever the site serves: the page calls this build unsafe exactly
   when it is below the kept minimum and there is a word to go by, and offers an
   update exactly when it is below the kept minimum or the kept latest.
   */
  lemma NoticeFollowsKept(cfg: Config, file: Option<Stored>, run: seq<Event>, now: int)
    ensures var s := Exec(cfg, file, run);
      var n := NoticeAt(cfg, s, now);
      && (n.Newer? && n.unsafe <==>
            s.saved.Some? && IsVersion(cfg.current) && HasWord(s, now) &&
              Rank(cfg.current) < Rank(s.saved.value.minimum))
      && (n.Newer? <==>
            s.saved.Some? && IsVersion(cfg.current) && HasWord(s, now) &&
              Rank(cfg.current) < Rank(s.saved.value.latest))
  {
    var s := Exec(cfg, file, run);
    ValidNotice(cfg, s, now);
  }

  lemma UpdateIsRank(cfg: Config, r: Record)
    requires Sane(cfg, r) && IsVersion(cfg.current)
    ensures Unsafe(r, cfg.current) <==> Rank(cfg.current) < Rank(r.minimum)
    ensures Update(r, cfg.current) <==> Rank(cfg.current) < Rank(r.latest)
  {
    CompareIsRank(cfg.current, r.minimum);
    CompareIsRank(r.latest, cfg.current);
    hide Rank, Compare, ParseVersion;
  }

  lemma ValidNotice(cfg: Config, s: State, now: int)
    requires Valid(cfg, s)
    ensures var n := NoticeAt(cfg, s, now);
      && (n.Newer? && n.unsafe <==>
            s.saved.Some? && IsVersion(cfg.current) && HasWord(s, now) &&
              Rank(cfg.current) < Rank(s.saved.value.minimum))
      && (n.Newer? <==>
            s.saved.Some? && IsVersion(cfg.current) && HasWord(s, now) &&
              Rank(cfg.current) < Rank(s.saved.value.latest))
  {
    hide FileBelow, Rank, IsVersion, Update, Unsafe;
    if s.saved.Some? && IsVersion(cfg.current) { UpdateIsRank(cfg, s.saved.value); }
    if s.result.Some? && s.result.value.Judged? { UpdateIsRank(cfg, s.result.value.record); }
  }

  /**
   With something kept, silence is never how a site takes a record away: the page stays quiet
   only on a word that this build is current.
   */
  lemma SilenceMeansCurrent(cfg: Config, file: Option<Stored>, run: seq<Event>, now: int)
    ensures var s := Exec(cfg, file, run);
      s.saved.Some? && s.result.Some? && NoticeAt(cfg, s, now).Nothing? ==>
        HasWord(s, now) && IsVersion(cfg.current) && Rank(cfg.current) >= Rank(s.saved.value.latest)
  {
    NoticeFollowsKept(cfg, file, run, now);
    var s := Exec(cfg, file, run);
    hide Exec, Rank, IsVersion, Update, Unsafe, FileBelow;
  }

  // ------------------------------------------------------------ where it came from

  function Latest(s: Stored): string { s.latest }
  function Minimum(s: Stored): string { s.minimum }
  function Day(s: Stored): string { s.validUntil }

  /** The event brought a table under a genuine signature that carries v in that field. */
  ghost predicate SignedFor(cfg: Config, ev: Event, field: Stored -> string, v: string) {
    && ev.Finishes? && ev.fetch.Fetched? && ev.fetch.genuine && cfg.hasKey
    && var t := ev.fetch.table;
    t.latest.Some? && t.minimum.Some? && t.validUntil.Some?
    && field(Stored(t.latest.value, t.minimum.value, t.validUntil.value)) == v
  }

  /** v was in the first file, or in a signed table of the run. */
  ghost predicate Vouched(cfg: Config, file: Option<Stored>, run: seq<Event>, field: Stored -> string, v: string) {
    (file.Some? && field(file.value) == v) || exists k :: 0 <= k < |run| && SignedFor(cfg, run[k], field, v)
  }

  ghost predicate AllVouched(cfg: Config, file: Option<Stored>, run: seq<Event>, s: Stored) {
    && Vouched(cfg, file, run, Latest, s.latest) && Vouched(cfg, file, run, Minimum, s.minimum)
    && Vouched(cfg, file, run, Day, s.validUntil)
  }

  lemma VouchedLater(cfg: Config, file: Option<Stored>, run: seq<Event>, field: Stored -> string, v: string)
    requires |run| > 0 && Vouched(cfg, file, run[..|run| - 1], field, v)
    ensures Vouched(cfg, file, run, field, v)
  {
    hide SignedFor;
    var front := run[..|run| - 1];
    if k :| 0 <= k < |front| && SignedFor(cfg, front[k], field, v) {
      assert SignedFor(cfg, run[k], field, v);
    }
  }

  lemma AllVouchedLater(cfg: Config, file: Option<Stored>, run: seq<Event>, s: Stored)
    requires |run| > 0 && AllVouched(cfg, file, run[..|run| - 1], s)
    ensures AllVouched(cfg, file, run, s)
  {
    hide Vouched;
    VouchedLater(cfg, file, run, Latest, s.latest);
    VouchedLater(cfg, file, run, Minimum, s.minimum);
    VouchedLater(cfg, file, run, Day, s.validUntil);
  }

  /** A verdict speaks of a signed table. */
  lemma JudgedIsSigned(cfg: Config, saved: Option<Record>, f: Fetch, now: int)
    requires SaneIfAny(cfg, saved) && Evaluate(cfg, saved, f, now).Judged?
    ensures var r := Evaluate(cfg, saved, f, now).record;
      && f.Fetched? && f.genuine && cfg.hasKey && f.table.latest == Some(r.latest)
      && f.table.minimum == Some(r.minimum) && f.table.validUntil == Some(r.validUntil)
  {
    hide IsVersion, Compare, Rank, IsStale, Sane;
  }

  lemma JudgedIsVouched(cfg: Config, file: Option<Stored>, run: seq<Event>, saved: Option<Record>)
    requires |run| > 0 && run[|run| - 1].Finishes? && SaneIfAny(cfg, saved)
    requires Evaluate(cfg, saved, run[|run| - 1].fetch, run[|run| - 1].now).Judged?
    ensures AllVouched(cfg, file, run, ToStore(Evaluate(cfg, saved, run[|run| - 1].fetch, run[|run| - 1].now).record))
  {
    hide Evaluate;
    var ev := run[|run| - 1];
    var r := Evaluate(cfg, saved, ev.fetch, ev.now).record;
    JudgedIsSigned(cfg, saved, ev.fetch, ev.now);
    assert SignedFor(cfg, run[|run| - 1], Latest, r.latest);
    assert SignedFor(cfg, run[|run| - 1], Minimum, r.minimum);
    assert SignedFor(cfg, run[|run| - 1], Day, r.validUntil);
  }

  lemma MergeIsVouched(cfg: Config, file: Option<Stored>, run: seq<Event>, saved: Option<Record>, r: Record)
    requires Sane(cfg, r) && SaneIfAny(cfg, saved) && AllVouched(cfg, file, run, ToStore(r))
    requires saved.Some? ==> AllVouched(cfg, file, run, ToStore(saved.value))
    ensures AllVouched(cfg, file, run, ToStore(Merge(cfg, saved, r)))
  {
    hide Vouched, Compare, Rank, IsVersion;
  }

  ghost predicate StateVouched(cfg: Config, file: Option<Stored>, run: seq<Event>, s: State) {
    && (s.saved.Some? ==> AllVouched(cfg, file, run, ToStore(s.saved.value)))
    && (s.file.Some? ==> AllVouched(cfg, file, run, s.file.value))
  }

  lemma ReadIsStored(cfg: Config, file: Option<Stored>)
    requires ReadSaved(cfg, file).Some?
    ensures file.Some? && ToStore(ReadSaved(cfg, file).value) == file.value
  {
    CheckedIsSane(cfg, file.value.latest, file.value.minimum, file.value.validUntil, true);
  }

  lemma StepIsVouched(cfg: Config, file: Option<Stored>, run: seq<Event>, s: State)
    requires |run| > 0 && Valid(cfg, s) && StateVouched(cfg, file, run[..|run| - 1], s)
    ensures StateVouched(cfg, file, run, Step(cfg, s, run[|run| - 1]))
  {
    hide AllVouched, Sane, Evaluate, ReadSaved, Merge, FileBelow, JudgesKept;
    var ev := run[|run| - 1];
    if s.saved.Some? { AllVouchedLater(cfg, file, run, ToStore(s.saved.value)); }
    if s.file.Some? { AllVouchedLater(cfg, file, run, s.file.value); }
    if ev.Restarts? {
      if ReadSaved(cfg, s.file).Some? { ReadIsStored(cfg, s.file); }
    } else if ev.Finishes? && s.running {
      var v := Evaluate(cfg, s.saved, ev.fetch, ev.now);
      if v.Judged? {
        JudgedIsVouched(cfg, file, run, s.saved);
        MergeIsVouched(cfg, file, run, s.saved, v.record);
      }
    }
  }

  /**
   In every run, each version and day that is kept or stored was in the first file or in a
   table signed by the release key.
   */
  lemma {:induction false} KeptIsSigned(cfg: Config, file: Option<Stored>, run: seq<Event>)
    ensures StateVouched(cfg, file, run, Exec(cfg, file, run))
  {
    hide Step, AllVouched;
    if |run| > 0 {
      KeptIsSigned(cfg, file, run[..|run| - 1]);
      StepIsVouched(cfg, file, run, Exec(cfg, file, run[..|run| - 1]));
    } else {
      if file.Some? { FileIsVouched(cfg, file, run); }
      if ReadSaved(cfg, file).Some? { ReadIsStored(cfg, file); }
    }
  }

  lemma FileIsVouched(cfg: Config, file: Option<Stored>, run: seq<Event>)
    requires file.Some?
    ensures AllVouched(cfg, file, run, file.value)
  {
  }

  // --------------------------------------------------------------- the check object

  class UpdateCheck {
    const cfg: Config
    var saved: Option<Record>
    var result: Option<Verdict>
    var file: Option<Stored>
    var running: bool

    ghost function Value(): State
      reads this
    {
      State(saved, result, file, running)
    }

    constructor (cfg: Config, file: Option<Stored>, readable: bool)
      ensures this.cfg == cfg && Value() == Start(cfg, file, readable) && Valid(cfg, Value())
    {
      this.cfg := cfg;
      this.file := file;
      saved := if cfg.hasFile && readable then ReadSaved(cfg, file) else None;
      result, running := None, false;
      StartIsValid(cfg, file, readable);
    }

    /** run(), up to its first await; `fetches` when it starts a check of its own. */
    method Run() returns (fetches: bool)
      requires Valid(cfg, Value())
      modifies this
      ensures Valid(cfg, Value()) && Value() == Ask(old(Value()))
      ensures fetches == (!Settled(old(Value())) && !old(running))
    {
      hide Valid;
      AskIsValid(cfg, Value());
      if result.Some? && !result.value.Unreachable? { return false; }
      if running { return false; }
      running := true;
      return true;
    }

    /** The rest of a check, once its fetches are done. */
    method Complete(fetch: Fetch, now: int, written: bool)
      requires Valid(cfg, Value())
      modifies this
      ensures Valid(cfg, Value()) && Value() == Finish(cfg, old(Value()), fetch, now, written)
    {
      hide Evaluate, Valid, Sane, Judge, Merge;
      SavedIsSane(cfg, Value());
      FinishIsValid(cfg, Value(), fetch, now, written);
      if !running { return; }
      var v := Evaluate(cfg, saved, fetch, now);
      result, running := Some(v), false;
      KeepRecord(v, written);
    }

    method KeepRecord(v: Verdict, written: bool)
      requires SaneIfAny(cfg, saved) && (v.Judged? ==> Sane(cfg, v.record))
      modifies this`saved, this`file
      ensures Value() == Keep(cfg, old(Value()), v, written)
    {
      hide Merge, Sane;
      if !v.Judged? { return; }
      var next := Merge(cfg, saved, v.record);
      var same := saved.Some? && Same(next, saved.value);
      saved := Some(next);
      if same || !cfg.hasFile { return; }
      if written { file := Some(ToStore(next)); }
    }
  }
}
