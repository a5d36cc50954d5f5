/**
 The signed name list of the forum: its order, its signature and the check a page
 makes before it believes one. Signatures are symbolic: one verifies for the key
 and the fields it was made with and for nothing else.
 */
module RegistryList {
  import opened Options

  // ------------------------------------------------------------------ values

  /** A JavaScript number, as far as the registry tells them apart. */
  datatype Number = Whole(value: int) | Fraction | NotFinite

  const MAX_SAFE: int := 9007199254740991

  predicate IsSafeInteger(x: Number) {
    x.Whole? && -MAX_SAFE <= x.value <= MAX_SAFE
  }

  /** One line of the list: the compared form of a name, the shown form, the key and the time of the claim. */
  datatype Entry = Entry(norm: string, name: string, pk: string, ts: Number)

  /** What is signed, in the fixed order the caller sets; the first field names the purpose. */
  datatype Fields =
    | ClaimFields(norm: string, name: string, pk: string, ts: Number)
    | HideFields(id: string, ts: Number)
    | RegistryFields(seqNo: Number, ts: Number, names: seq<Entry>, admin: string, hides: Option<seq<string>>)

  datatype Signature = SignedBy(key: string, fields: Fields) | Noise

  /** The list as it travels. */
  datatype List = List(
    seqNo: Number,
    ts: Number,
    names: seq<Entry>,
    admin: Option<string>,
    hides: Option<seq<string>>,
    sig: Signature)

  /** The calls into Unicode lower-casing and base64 that the code makes. */
  datatype Platform = Platform(normalize: string -> string, encodesPoint: string -> bool)

  predicate Canonical(pf: Platform, pk: string) {
    |pk| == 88 && pf.encodesPoint(pk)
  }

  predicate NameStart(c: char) { 'a' <= c <= 'z' || '0' <= c <= '9' }
  predicate NameChar(c: char) { NameStart(c) || c == '.' || c == '_' || c == '-' }

  /** A name of 3 to 24 letters, digits, dots, dashes and underscores. */
  predicate NameShape(s: string) {
    3 <= |s| <= 24 && NameStart(s[0]) && forall i :: 1 <= i < |s| ==> NameChar(s[i])
  }

  predicate ValidName(pf: Platform, s: string) {
    NameShape(pf.normalize(s))
  }

  predicate PostId(s: string) {
    && |s| == 11 && (s[0] == 't' || s[0] == 'r')
    && forall i :: 1 <= i < 11 ==> 'a' <= s[i] <= 'z' || '2' <= s[i] <= '7'
  }

  predicate SignatureHolds(pf: Platform, pk: string, fields: Fields, sig: Signature) {
    Canonical(pf, pk) && sig == SignedBy(pk, fields)
  }

  // ------------------------------------------------------------------- order

  /** Character by character, a proper prefix first. */
  predicate Less(a: string, b: string) {
    if |b| == 0 then false
    else if |a| == 0 then true
    else if a[0] != b[0] then a[0] < b[0]
    else Less(a[1..], b[1..])
  }

  /** a and b agree in their first k characters, and there a ends or has the smaller character. */
  predicate PartsAt(a: string, b: string, k: nat) {
    k <= |a| && k < |b| && a[..k] == b[..k] && (k == |a| || a[k] < b[k])
  }

  /** a comes before b exactly when it ends, or has the smaller character, where the two first part. */
  lemma {:induction false} LessIff(a: string, b: string)
    ensures Less(a, b) <==> exists k: nat :: PartsAt(a, b, k)
    decreases |a|
  {
    if |a| == 0 || |b| == 0 || a[0] != b[0] {
      assert Less(a, b) ==> PartsAt(a, b, 0);
    } else {
      LessIff(a[1..], b[1..]);
      if k: nat :| PartsAt(a[1..], b[1..], k) {
        assert a[..k + 1] == [a[0]] + a[1..][..k];
        assert b[..k + 1] == [b[0]] + b[1..][..k];
        assert PartsAt(a, b, k + 1);
      }
      if k: nat :| PartsAt(a, b, k) {
        assert k > 0 && a[1..][..k - 1] == a[..k][1..] && b[1..][..k - 1] == b[..k][1..];
        assert PartsAt(a[1..], b[1..], k - 1);
      }
    }
  }

  lemma {:induction false} LessTotal(a: string, b: string)
    ensures !(Less(a, b) && Less(b, a))
    ensures a == b || Less(a, b) || Less(b, a)
    ensures !Less(a, a)
    decreases |a|
  {
    LessIrreflexive(a);
    if |a| > 0 && |b| > 0 && a[0] == b[0] {
      LessTotal(a[1..], b[1..]);
      if a[1..] == b[1..] {
        assert a == [a[0]] + a[1..] == b;
      }
    }
  }

  lemma {:induction false} LessIrreflexive(a: string)
    ensures !Less(a, a)
  {
    if |a| > 0 { LessIrreflexive(a[1..]); }
  }

  lemma {:induction false} LessTransitive(a: string, b: string, c: string)
    requires Less(a, b) && Less(b, c)
    ensures Less(a, c)
    decreases |a|
  {
    if |a| > 0 && a[0] == b[0] && b[0] == c[0] {
      LessTransitive(a[1..], b[1..], c[1..]);
    }
  }

  predicate Strict<T(!new)>(s: seq<T>, key: T -> string) {
    forall i, j :: 0 <= i < j < |s| ==> Less(key(s[i]), key(s[j]))
  }

  function Insert<T>(x: T, s: seq<T>, key: T -> string): seq<T> {
    if |s| == 0 || !Less(key(s[0]), key(x)) then [x] + s else [s[0]] + Insert(x, s[1..], key)
  }

  /** The stable sort by key. */
  function Sort<T>(s: seq<T>, key: T -> string): seq<T> {
    if |s| == 0 then [] else Insert(s[0], Sort(s[1..], key), key)
  }

  lemma {:induction false} InsertKeepsAll<T>(x: T, s: seq<T>, key: T -> string)
    ensures multiset(Insert(x, s, key)) == multiset(s) + multiset{x}
  {
    if |s| == 0 || !Less(key(s[0]), key(x)) {
      assert Insert(x, s, key) == [x] + s;
    } else {
      InsertKeepsAll(x, s[1..], key);
      assert s == [s[0]] + s[1..];
    }
  }

  lemma {:induction false} SortKeepsAll<T>(s: seq<T>, key: T -> string)
    ensures multiset(Sort(s, key)) == multiset(s)
  {
    hide Insert;
    if |s| > 0 {
      SortKeepsAll(s[1..], key);
      InsertKeepsAll(s[0], Sort(s[1..], key), key);
      ConsCounts(s);
    }
  }

  lemma ConsCounts<T>(s: seq<T>)
    requires |s| > 0
    ensures multiset(s) == multiset(s[1..]) + multiset{s[0]}
  {
    assert s == [s[0]] + s[1..];
  }

  lemma SameMembers<T>(s: seq<T>, t: seq<T>, x: T)
    requires multiset(s) == multiset(t)
    ensures x in s <==> x in t
  {
    assert x in s <==> x in multiset(s);
    assert x in t <==> x in multiset(t);
  }

  /** x comes before all of s. */
  ghost predicate Before<T(!new)>(x: T, s: seq<T>, key: T -> string) {
    forall y :: y in s ==> Less(key(x), key(y))
  }

  lemma StrictCons<T(!new)>(x: T, s: seq<T>, key: T -> string)
    requires Strict(s, key) && Before(x, s, key)
    ensures Strict([x] + s, key)
  {
    hide Less;
  }

  lemma {:induction false} InsertStrict<T(!new)>(x: T, s: seq<T>, key: T -> string)
    requires Strict(s, key)
    requires forall y :: y in s ==> key(y) != key(x)
    ensures Strict(Insert(x, s, key), key)
    decreases |s|
  {
    hide Less;
    if |s| == 0 {
    } else if !Less(key(s[0]), key(x)) {
      LessTotal(key(x), key(s[0]));
      forall y | y in s ensures Less(key(x), key(y)) {
        var i :| 0 <= i < |s| && s[i] == y;
        if i > 0 { LessTransitive(key(x), key(s[0]), key(y)); }
      }
      StrictCons(x, s, key);
    } else {
      var rest := Insert(x, s[1..], key);
      InsertStrict(x, s[1..], key);
      InsertKeepsAll(x, s[1..], key);
      forall y | y in rest ensures Less(key(s[0]), key(y)) {
        assert y in multiset(rest);
        assert y == x || y in s[1..];
      }
      StrictCons(s[0], rest, key);
    }
  }

  predicate Distinct<T(!new)>(s: seq<T>, key: T -> string) {
    forall i, j :: 0 <= i < j < |s| ==> key(s[i]) != key(s[j])
  }

  lemma {:induction false} SortStrict<T(!new)>(s: seq<T>, key: T -> string)
    requires Distinct(s, key)
    ensures Strict(Sort(s, key), key)
  {
    if |s| > 0 {
      var rest := Sort(s[1..], key);
      SortStrict(s[1..], key);
      SortKeepsAll(s[1..], key);
      forall y | y in rest ensures key(y) != key(s[0]) {
        SameMembers(rest, s[1..], y);
      }
      InsertStrict(s[0], rest, key);
    }
  }

  /** There is one strict order of a set of keys: the signed bytes do not depend on how the map is walked. */
  lemma {:induction false} StrictIsUnique<T(!new)>(s: seq<T>, t: seq<T>, key: T -> string)
    requires Strict(s, key) && Strict(t, key)
    requires forall x :: x in s <==> x in t
    ensures s == t
    decreases |s|
  {
    hide Less;
    assert |t| > 0 ==> t[0] in s;
    if |s| > 0 {
      assert s[0] in t && t[0] in s;
      LessTotal(key(s[0]), key(t[0]));
      assert s[0] == t[0];
      forall x ensures x in s[1..] <==> x in t[1..] {
        RestOf(s, key, x);
        RestOf(t, key, x);
      }
      StrictIsUnique(s[1..], t[1..], key);
      assert s == [s[0]] + s[1..];
      assert t == [t[0]] + t[1..];
    }
  }

  lemma RestOf<T(!new)>(s: seq<T>, key: T -> string, x: T)
    requires |s| > 0 && Strict(s, key)
    ensures x in s[1..] <==> x in s && x != s[0]
  {
    hide Less;
    LessTotal(key(s[0]), key(s[0]));
    if x in s && x != s[0] {
      var i :| 0 <= i < |s| && s[i] == x;
      assert s[1..][i - 1] == x;
    }
  }

  // ------------------------------------------------------- signing, checking

  function Norm(e: Entry): string { e.norm }
  function Self(s: string): string { s }

  function OrZero(x: Number): Number { if x.NotFinite? then Whole(0) else x }

  function FieldsOf(reg: List): Fields {
    RegistryFields(OrZero(reg.seqNo), OrZero(reg.ts), reg.names,
      if reg.admin.Some? then reg.admin.value else "", reg.hides)
  }

  /** The list put in order and signed. */
  function Sign(pub: string, reg: List): List {
    var hides := Some(Sort(if reg.hides.Some? then reg.hides.value else [], Self));
    var sorted := reg.(names := Sort(reg.names, Norm), hides := hides);
    sorted.(sig := SignedBy(pub, FieldsOf(sorted)))
  }

  predicate GoodEntry(pf: Platform, e: Entry) {
    && ValidName(pf, e.norm) && e.norm == pf.normalize(e.norm)
    && pf.normalize(e.name) == e.norm
    && Canonical(pf, e.pk) && IsSafeInteger(e.ts) && e.ts.value >= 0
  }

  function HidesOf(reg: List): seq<string> {
    if reg.hides.Some? then reg.hides.value else []
  }

  /** What a page accepts: good entries and post ids, each in strict order, under the registrar's signature. */
  predicate Verifies(pf: Platform, pub: string, reg: List) {
    && reg.seqNo.Whole? && reg.seqNo.value >= 0 && !reg.ts.NotFinite?
    && (reg.admin.Some? ==> Canonical(pf, reg.admin.value))
    && (forall e :: e in reg.names ==> GoodEntry(pf, e))
    && Strict(reg.names, Norm)
    && (forall h :: h in HidesOf(reg) ==> PostId(h))
    && Strict(HidesOf(reg), Self)
    && SignatureHolds(pf, pub, FieldsOf(reg), reg.sig)
  }

  lemma StrictSnoc<T(!new)>(s: seq<T>, x: T, key: T -> string)
    requires Strict(s, key)
    requires |s| > 0 ==> Less(key(s[|s| - 1]), key(x))
    ensures Strict(s + [x], key)
  {
    hide Less;
    forall i | 0 <= i < |s| ensures Less(key(s[i]), key(x)) {
      if i < |s| - 1 { LessTransitive(key(s[i]), key(s[|s| - 1]), key(x)); }
    }
  }

  /** The walk over the entries that compares each name only with the one before it. */
  method CheckNames(pf: Platform, names: seq<Entry>) returns (ok: bool)
    ensures ok <==> (forall e :: e in names ==> GoodEntry(pf, e)) && Strict(names, Norm)
  {
    hide Less, GoodEntry;
    var last := "";
    var i := 0;
    while i < |names|
      invariant 0 <= i <= |names|
      invariant last == if i == 0 then "" else names[i - 1].norm
      invariant forall e :: e in names[..i] ==> GoodEntry(pf, e)
      invariant Strict(names[..i], Norm)
    {
      var e := names[i];
      if !GoodEntry(pf, e) { return false; }
      if !Less(last, e.norm) {
        FirstIsLess(pf, e);
        assert i > 0 && !Less(Norm(names[i - 1]), Norm(names[i]));
        return false;
      }
      StrictSnoc(names[..i], e, Norm);
      assert names[..i + 1] == names[..i] + [e];
      last := e.norm;
      i := i + 1;
    }
    assert names[..i] == names;
    return true;
  }

  lemma FirstIsLess(pf: Platform, e: Entry)
    requires GoodEntry(pf, e)
    ensures Less("", e.norm)
  {
  }

  method CheckHides(hides: seq<string>) returns (ok: bool)
    ensures ok <==> (forall h :: h in hides ==> PostId(h)) && Strict(hides, Self)
  {
    hide Less;
    var last := "";
    var j := 0;
    while j < |hides|
      invariant 0 <= j <= |hides|
      invariant last == if j == 0 then "" else hides[j - 1]
      invariant forall h :: h in hides[..j] ==> PostId(h)
      invariant Strict(hides[..j], Self)
    {
      var h := hides[j];
      if !PostId(h) { return false; }
      if !Less(last, h) {
        EmptyIsLess(h);
        assert j > 0 && !Less(Self(hides[j - 1]), Self(hides[j]));
        return false;
      }
      StrictSnoc(hides[..j], h, Self);
      assert hides[..j + 1] == hides[..j] + [h];
      last := h;
      j := j + 1;
    }
    assert hides[..j] == hides;
    return true;
  }

  lemma EmptyIsLess(h: string)
    requires |h| > 0
    ensures Less("", h)
  {
  }

  /** The check of a list from the relay: the shape, then the signature. */
  method VerifyRegistry(pf: Platform, pub: string, reg: List) returns (ok: bool)
    ensures ok <==> Verifies(pf, pub, reg)
  {
    hide GoodEntry, Strict, PostId;
    if !reg.seqNo.Whole? || reg.seqNo.value < 0 || reg.ts.NotFinite? { return false; }
    if reg.admin.Some? && !Canonical(pf, reg.admin.value) { return false; }
    ok := CheckNames(pf, reg.names);
    if !ok { return; }
    ok := CheckHides(HidesOf(reg));
    if !ok { return; }
    ok := SignatureHolds(pf, pub, FieldsOf(reg), reg.sig);
  }

  // ---------------------------------------------------------------- theorems

  /** What a good unsigned list needs for a page to accept it once signed. */
  predicate Signable(pf: Platform, reg: List) {
    && reg.seqNo.Whole? && reg.seqNo.value >= 0 && !reg.ts.NotFinite?
    && (reg.admin.Some? ==> Canonical(pf, reg.admin.value))
    && (forall e :: e in reg.names ==> GoodEntry(pf, e)) && Distinct(reg.names, Norm)
    && (forall h :: h in HidesOf(reg) ==> PostId(h)) && Distinct(HidesOf(reg), Self)
  }

  /** Signing accepts exactly the lists with good and distinct entries, and loses none of them. */
  lemma SignVerifies(pf: Platform, pub: string, reg: List)
    requires Canonical(pf, pub)
    ensures Verifies(pf, pub, Sign(pub, reg)) <==> Signable(pf, reg)
    ensures forall e :: e in Sign(pub, reg).names <==> e in reg.names
    ensures forall h :: h in HidesOf(Sign(pub, reg)) <==> h in HidesOf(reg)
    ensures Sign(pub, reg).seqNo == reg.seqNo && Sign(pub, reg).admin == reg.admin && Sign(pub, reg).ts == reg.ts
  {
    hide GoodEntry, PostId, Sort, Strict, Distinct;
    SortKeepsAll(reg.names, Norm);
    SortKeepsAll(HidesOf(reg), Self);
    forall e ensures e in Sort(reg.names, Norm) <==> e in reg.names {
      SameMembers(Sort(reg.names, Norm), reg.names, e);
    }
    forall h ensures h in Sort(HidesOf(reg), Self) <==> h in HidesOf(reg) {
      SameMembers(Sort(HidesOf(reg), Self), HidesOf(reg), h);
    }
    SortStrictIff(reg.names, Norm);
    SortStrictIff(HidesOf(reg), Self);
  }

  lemma SortStrictIff<T(!new)>(s: seq<T>, key: T -> string)
    ensures Strict(Sort(s, key), key) <==> Distinct(s, key)
  {
    if Distinct(s, key) {
      SortStrict(s, key);
    } else if Strict(Sort(s, key), key) {
      SortKeepsAll(s, key);
      StrictHasNoTwins(Sort(s, key), key, s);
      assert false;
    }
  }

  lemma StrictHasNoTwins<T(!new)>(t: seq<T>, key: T -> string, s: seq<T>)
    requires Strict(t, key) && multiset(t) == multiset(s)
    ensures Distinct(s, key)
  {
    hide Less;
    forall i, j | 0 <= i < j < |s| ensures key(s[i]) != key(s[j]) {
      if key(s[i]) == key(s[j]) {
        SameMembers(s, t, s[i]);
        SameMembers(s, t, s[j]);
        var a :| 0 <= a < |t| && t[a] == s[i];
        var b :| 0 <= b < |t| && t[b] == s[j];
        LessTotal(key(t[a]), key(t[b]));
        assert a == b;
        TwiceCounts(s, i, j);
        OnceCounts(t, key, a);
        assert false;
      }
    }
  }

  lemma TwiceCounts<T>(s: seq<T>, i: nat, j: nat)
    requires i < j < |s| && s[i] == s[j]
    ensures multiset(s)[s[i]] >= 2
  {
    assert s == s[..j] + [s[j]] + s[j + 1..];
    assert s[..j] == s[..i] + [s[i]] + s[i + 1..j];
    assert multiset(s) == multiset(s[..i]) + multiset{s[i]} + multiset(s[i + 1..j]) + multiset{s[j]}
      + multiset(s[j + 1..]);
  }

  lemma OnceCounts<T(!new)>(t: seq<T>, key: T -> string, a: nat)
    requires Strict(t, key) && a < |t|
    ensures multiset(t)[t[a]] == 1
  {
    assert t == t[..a] + [t[a]] + t[a + 1..];
    LessTotal(key(t[a]), key(t[a]));
    hide Less;
    assert t[a] !in t[..a];
    assert t[a] !in t[a + 1..];
    assert multiset(t[..a])[t[a]] == 0 && multiset(t[a + 1..])[t[a]] == 0;
    assert multiset(t) == multiset(t[..a]) + multiset{t[a]} + multiset(t[a + 1..]);
  }

  /** Two lists a page accepts under one signature say the same thing. */
  lemma SignatureFixesList(pf: Platform, pub: string, a: List, b: List)
    requires Verifies(pf, pub, a) && Verifies(pf, pub, b) && a.sig == b.sig
    ensures a == b
  {
  }
}
