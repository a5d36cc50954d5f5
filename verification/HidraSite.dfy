/**
 A .hidra site: its address is made of its key, and what it publishes opens only under
 that key's signature. Hashing, signatures, JSON and lower-casing are the platform's.
 */
module HidraSite {
  import opened ByteStrings
  import opened Options
  import opened Base32

  const SIGNED_LABEL: nat := 32
  const LEGACY_LABEL: nat := 26
  const SUFFIX: string := ".hidra"

  datatype JsValue = Html(s: string) | Other
  type Files = map<string, JsValue>
  type Pages = map<string, string>

  /** What a body parses to; Broken where reading it throws. */
  datatype Content = Broken | Content(files: Option<Files>, ts: Option<int>)

  datatype Platform = Platform(
    clean: string -> string,
    addressHash: Bytes -> Bytes,
    isPoint: Bytes -> bool,
    stringify: Content -> string,
    parse: string -> Content)

  /**
   What the proofs take from the platform: plain lower-case text is left alone, a hash has 32
   bytes, JSON reads back.
   */
  ghost predicate Faithful(pf: Platform) {
    && (forall s :: (forall i :: 0 <= i < |s| ==> IsLetter(s[i]) || s[i] == '.') ==> pf.clean(s) == s)
    && (forall b :: |pf.addressHash(b)| == 32)
    && (forall c: Content :: c.Content? ==> pf.parse(pf.stringify(c)) == c)
  }

  datatype Signature = SignedBy(key: Bytes, addr: string, body: string) | Noise

  /** What the relay held: not JSON, not an object, a version 2 envelope, one with a field missing, or an old bundle. */
  datatype Wire = NotJson | NotObject | Envelope(pk: Bytes, body: string,
    sig: Signature) | BrokenEnvelope | Bundle(files: Files)

  // ------------------------------------------------------------------ addresses

  function Strip(s: string): string {
    if |s| >= 6 && s[|s| - 6..] == SUFFIX then s[..|s| - 6] else s
  }

  function LabelOf(pf: Platform, addr: string): string {
    var a := Strip(pf.clean(addr));
    if |a| > 0 && forall i :: 0 <= i < |a| ==> IsLetter(a[i]) then a else ""
  }

  datatype Kind = Signed | Legacy | NoAddress

  function KindOf(pf: Platform, addr: string): Kind {
    var l := LabelOf(pf, addr);
    if |l| == SIGNED_LABEL then Signed else if |l| == LEGACY_LABEL then Legacy else NoAddress
  }

  function AddressOf(pf: Platform, pk: Bytes): string
    requires |pf.addressHash(pk)| >= 20
  {
    Base32.Text(pf.addressHash(pk)[..20]) + SUFFIX
  }

  lemma TextIsLetters(b: Bytes)
    ensures forall i :: 0 <= i < |Base32.Text(b)| ==> IsLetter(Base32.Text(b)[i])
    ensures |Base32.Text(b)| == TextLength(|b|)
  {
    forall i | 0 <= i < |Base32.Text(b)| ensures IsLetter(Base32.Text(b)[i]) {
      LettersDiffer(DigitsOf(b)[i], DigitsOf(b)[i]);
    }
  }

  /** A text and the suffix are an address with that text as its label, however it is spelled on the way in. */
  lemma LabelOfText(pf: Platform, b: Bytes)
    requires Faithful(pf) && |b| > 0
    ensures LabelOf(pf, Base32.Text(b) + SUFFIX) == Base32.Text(b)
    ensures LabelOf(pf, Base32.Text(b)) == Base32.Text(b)
  {
    var t := Base32.Text(b);
    TextIsLetters(b);
    hide Base32.Text;
    var a := t + SUFFIX;
    assert pf.clean(a) == a && pf.clean(t) == t;
    assert a[|a| - 6..] == SUFFIX && a[..|a| - 6] == t;
    assert Strip(t) == t by {
      if |t| >= 6 { assert t[|t| - 6..][0] == t[|t| - 6] && IsLetter(t[|t| - 6]) && SUFFIX[0] == '.'; }
    }
  }

  /** Every address made from a key is of the signed kind, and one of 16 random bytes of the legacy kind. */
  lemma KeyAddressIsSigned(pf: Platform, pk: Bytes, random: Bytes)
    requires Faithful(pf) && |random| == 16
    ensures KindOf(pf, AddressOf(pf, pk)) == Signed
    ensures KindOf(pf, Base32.Text(random) + SUFFIX) == Legacy
  {
    LabelOfText(pf, pf.addressHash(pk)[..20]);
    LabelOfText(pf, random);
    hide Faithful, Base32.Text, LabelOf;
    TextIsLetters(pf.addressHash(pk)[..20]);
    TextIsLetters(random);
  }

  /** Two keys share an address exactly when the first 20 bytes of their hashes agree. */
  lemma AddressesMeetIff(pf: Platform, a: Bytes, b: Bytes)
    requires Faithful(pf)
    ensures AddressOf(pf, a) == AddressOf(pf, b) <==> pf.addressHash(a)[..20] == pf.addressHash(b)[..20]
  {
    var x, y := pf.addressHash(a)[..20], pf.addressHash(b)[..20];
    if AddressOf(pf, a) == AddressOf(pf, b) {
      var s, t := AddressOf(pf, a), AddressOf(pf, b);
      assert s[..|s| - 6] == Base32.Text(x) && t[..|t| - 6] == Base32.Text(y);
      TextIsInjective(x, y);
    }
  }

  // --------------------------------------------------------------------- pages

  predicate NameChar(c: char) {
    'a' <= c <= 'z' || 'A' <= c <= 'Z' || '0' <= c <= '9' || c == '_' || c == '.' || c == '-'
  }

  /** A page name that is kept; the prototype's own name cannot be set. */
  predicate PageName(k: string) {
    1 <= |k| <= 64 && (forall i :: 0 <= i < |k| ==> NameChar(k[i])) && k != "__proto__"
  }

  function Cleaned(f: Files): Pages {
    map k | k in f && PageName(k) && f[k].Html? :: f[k].s
  }

  /** The walk over the keys that keeps page names with text. */
  method CleanFiles(f: Option<Files>) returns (out: Pages)
    ensures out == if f.Some? then Cleaned(f.value) else map[]
  {
    out := map[];
    if f.None? { return; }
    var left := f.value.Keys;
    while left != {}
      invariant left <= f.value.Keys
      invariant out == map k | k in f.value && k !in left && PageName(k) && f.value[k].Html? :: f.value[k].s
      decreases |left|
    {
      var k :| k in left;
      if PageName(k) && f.value[k].Html? { out := out[k := f.value[k].s]; }
      left := left - {k};
    }
  }

  function AsFiles(p: Pages): Files { map k | k in p :: Html(p[k]) }

  /** A site's pages come through untouched exactly when each has a page name. */
  lemma CleanKeepsIff(p: Pages)
    ensures Cleaned(AsFiles(p)) == p <==> forall k :: k in p ==> PageName(k)
  {
    hide PageName;
    if Cleaned(AsFiles(p)) == p {
      forall k | k in p ensures PageName(k) {
        assert k in Cleaned(AsFiles(p));
      }
    }
  }

  // ------------------------------------------------------------ sealing, opening

  datatype Site = Site(addr: string, pk: Bytes)

  function NewSite(pf: Platform, pk: Bytes): Site
    requires |pf.addressHash(pk)| >= 20
  {
    Site(AddressOf(pf, pk), pk)
  }

  function SealFiles(pf: Platform, site: Site, files: Files, ts: int, now: int): Wire {
    var body := pf.stringify(Content(Some(files), Some(if ts == 0 then now else ts)));
    Envelope(site.pk, body, SignedBy(site.pk, site.addr, body))
  }

  datatype Reason = NotAnAddress | InvalidContent | WrongKey | NoMatch | Unsigned
  datatype Opening = Shown(pages: Pages, ts: int, signed: bool) | Refused(reason: Reason)

  method OpenFiles(pf: Platform, addr: string, wire: Wire) returns (r: Opening)
    requires forall b :: |pf.addressHash(b)| == 32
    ensures r == Opened(pf, addr, wire)
  {
    var kind := KindOf(pf, addr);
    if kind.NoAddress? { return Refused(NotAnAddress); }
    if wire.NotJson? || wire.NotObject? { return Refused(InvalidContent); }
    if wire.BrokenEnvelope? { return Refused(NoMatch); }
    if wire.Envelope? {
      var full := LabelOf(pf, addr) + SUFFIX;
      if AddressOf(pf, wire.pk) != full { return Refused(WrongKey); }
      if !pf.isPoint(wire.pk) { return Refused(NoMatch); }
      if wire.sig != SignedBy(wire.pk, full, wire.body) { return Refused(NoMatch); }
      var b := pf.parse(wire.body);
      if b.Broken? { return Refused(NoMatch); }
      var pages := CleanFiles(b.files);
      return Shown(pages, if b.ts.Some? then b.ts.value else 0, true);
    }
    if kind.Signed? { return Refused(Unsigned); }
    var pages := CleanFiles(Some(wire.files));
    return Shown(pages, 0, false);
  }

  function Opened(pf: Platform, addr: string, wire: Wire): Opening
    requires forall b :: |pf.addressHash(b)| == 32
  {
    if KindOf(pf, addr).NoAddress? then Refused(NotAnAddress)
    else match wire
      case NotJson => Refused(InvalidContent)
      case NotObject => Refused(InvalidContent)
      case BrokenEnvelope => Refused(NoMatch)
      case Envelope(pk, body, sig) =>
        var full := LabelOf(pf, addr) + SUFFIX;
        if AddressOf(pf, pk) != full then Refused(WrongKey)
        else if !pf.isPoint(pk) || sig != SignedBy(pk, full, body) || pf.parse(body).Broken? then Refused(NoMatch)
        else
          var b := pf.parse(body);
          Shown(if b.files.Some? then Cleaned(b.files.value) else map[], if b.ts.Some? then b.ts.value else 0, true)
      case Bundle(files) =>
        if KindOf(pf, addr).Signed? then Refused(Unsigned) else Shown(Cleaned(files), 0, false)
  }

  /** What a site seals opens at its address with its pages and its time, signed. */
  lemma SealedOpens(pf: Platform, pk: Bytes, files: Files, ts: int, now: int)
    requires Faithful(pf) && pf.isPoint(pk)
    ensures var site := NewSite(pf, pk);
      Opened(pf, site.addr, SealFiles(pf, site, files, ts, now)) == Shown(Cleaned(files),
        if ts == 0 then now else ts, true)
  {
    hide *;
    FromPlatform(pf, pk, Content(Some(files), Some(if ts == 0 then now else ts)));
    OpensGiven(pf, pk, files, ts, now);
  }

  /** What the platform is asked for, at one key and one content. */
  lemma FromPlatform(pf: Platform, pk: Bytes, c: Content)
    requires Faithful(pf) && c.Content?
    ensures (forall b :: |pf.addressHash(b)| == 32) && pf.parse(pf.stringify(c)) == c
    ensures KindOf(pf, AddressOf(pf, pk)) == Signed
    ensures LabelOf(pf, AddressOf(pf, pk)) + SUFFIX == AddressOf(pf, pk)
  {
    KeyAddressIsSigned(pf, pk, seq(16, _ => 0));
    LabelOfText(pf, pf.addressHash(pk)[..20]);
    hide Base32.Text, KindOf, LabelOf;
  }

  lemma OpensGiven(pf: Platform, pk: Bytes, files: Files, ts: int, now: int)
    requires (forall b :: |pf.addressHash(b)| == 32) && pf.isPoint(pk)
    requires var c := Content(Some(files), Some(if ts == 0 then now else ts)); pf.parse(pf.stringify(c)) == c
    requires KindOf(pf, AddressOf(pf, pk)) == Signed
    requires LabelOf(pf, AddressOf(pf, pk)) + SUFFIX == AddressOf(pf, pk)
    ensures var site := NewSite(pf, pk);
      Opened(pf, site.addr, SealFiles(pf, site, files, ts, now)) == Shown(Cleaned(files),
        if ts == 0 then now else ts, true)
  {
    hide AddressOf, Cleaned, LabelOf, KindOf;
  }

  /**
   What a signed address shows is exactly what its own key signed for it: nothing
   unsigned, nothing of another key, nothing signed for another address.
   */
  lemma SignedShowsIff(pf: Platform, addr: string, wire: Wire)
    requires Faithful(pf) && KindOf(pf, addr) == Signed
    ensures var full := LabelOf(pf, addr) + SUFFIX;
      Opened(pf, addr, wire).Shown? <==>
        && wire.Envelope? && pf.isPoint(wire.pk) && AddressOf(pf, wire.pk) == full
        && wire.sig == SignedBy(wire.pk, full, wire.body) && !pf.parse(wire.body).Broken?
  {
    hide Base32.Text, Cleaned;
  }

  /** Every signature on the wire was made by sealing files for the site of its own key. */
  ghost predicate MadeBySealing(pf: Platform, wire: Wire)
    requires forall b :: |pf.addressHash(b)| == 32
  {
    wire.Envelope? && wire.sig.SignedBy? ==>
      exists files, ts, now :: wire.sig == SealFiles(pf, NewSite(pf, wire.sig.key), files, ts, now).sig
  }

  /**
   Only the owner can change a site. As long as signatures are made by sealing, whatever
   the address of a key shows, however that address is spelled, was sealed by a key whose
   hash agrees with it in the first 20 bytes, and shows the pages and the time it sealed.
   */
  lemma OnlyOwnerChanges(pf: Platform, pk: Bytes, addr: string, wire: Wire)
    returns (key: Bytes, files: Files, ts: int, now: int)
    requires Faithful(pf) && LabelOf(pf, addr) + SUFFIX == AddressOf(pf, pk)
    requires MadeBySealing(pf, wire) && Opened(pf, addr, wire).Shown?
    ensures wire == SealFiles(pf, NewSite(pf, key), files, ts, now) && pf.isPoint(key)
    ensures pf.addressHash(key)[..20] == pf.addressHash(pk)[..20]
    ensures Opened(pf, addr, wire) == Shown(Cleaned(files), if ts == 0 then now else ts, true)
  {
    SameLabelIsSigned(pf, pk, addr);
    SignedShowsIff(pf, addr, wire);
    key := wire.pk;
    files, ts, now :| wire.sig == SealFiles(pf, NewSite(pf, wire.sig.key), files, ts, now).sig;
    AddressesMeetIff(pf, key, pk);
    FromPlatform(pf, key, Content(Some(files), Some(if ts == 0 then now else ts)));
    hide Faithful, AddressOf, LabelOf, KindOf, Cleaned;
  }

  lemma SameLabelIsSigned(pf: Platform, pk: Bytes, addr: string)
    requires Faithful(pf) && LabelOf(pf, addr) + SUFFIX == AddressOf(pf, pk)
    ensures KindOf(pf, addr) == Signed
  {
    TextIsLetters(pf.addressHash(pk)[..20]);
    hide Base32.Text, LabelOf;
    var l := LabelOf(pf, addr);
    assert |l| + 6 == |l + SUFFIX|;
  }

  /** A legacy address never shows an envelope as signed: no key makes a label of 26. */
  lemma LegacyIsNeverSigned(pf: Platform, addr: string, wire: Wire)
    requires Faithful(pf) && KindOf(pf, addr) == Legacy
    ensures Opened(pf, addr, wire).Shown? <==> wire.Bundle?
    ensures Opened(pf, addr, wire).Shown? ==> !Opened(pf, addr, wire).signed
  {
    if wire.Envelope? {
      TextIsLetters(pf.addressHash(wire.pk)[..20]);
      hide Base32.Text, Cleaned;
      assert |AddressOf(pf, wire.pk)| == 38;
      assert |LabelOf(pf, addr) + SUFFIX| == 32;
    }
  }

  /** An envelope opens at one label at most. */
  lemma OneLabelPerEnvelope(pf: Platform, a: string, b: string, wire: Wire)
    requires Faithful(pf) && wire.Envelope?
    requires Opened(pf, a, wire).Shown? && Opened(pf, b, wire).Shown?
    ensures LabelOf(pf, a) == LabelOf(pf, b)
  {
    hide Base32.Text, Cleaned, KindOf, LabelOf;
    var x, y := LabelOf(pf, a), LabelOf(pf, b);
    assert x == (x + SUFFIX)[..|x + SUFFIX| - 6];
    assert y == (y + SUFFIX)[..|y + SUFFIX| - 6];
  }
}
