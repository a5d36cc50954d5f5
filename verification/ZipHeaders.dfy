/**
 The archive as the ZIP format lays it out: every header of every entry read at the
 offsets the format gives, whether or not the scripts' own reader looks there.
 */
module ZipHeaders {
  import opened ByteStrings
  import opened Options
  import opened Zip

  /** A local file header with its name and data. */
  predicate LocalIs(b: Bytes, at: nat, e: Entry, now: Stamp)
    requires Fits(e, now)
  {
    && at + 30 + |e.name| + |e.raw| <= |b|
    && Get32(b, at) == 0x04034b50 && Get16(b, at + 4) == 20 && Get16(b, at + 6) == 0
    && Get16(b, at + 8) == e.compression && Get16(b, at + 10) == Time(e, now) && Get16(b, at + 12) == Date(e, now)
    && Get32(b, at + 14) == e.crc && Get32(b, at + 18) == e.compSz && Get32(b, at + 22) == e.uncompSz
    && Get16(b, at + 26) == |e.name| && Get16(b, at + 28) == 0
    && b[at + 30..at + 30 + |e.name|] == e.name
    && b[at + 30 + |e.name|..at + 30 + |e.name| + |e.raw|] == e.raw
  }

  /** A central directory header with its name; the local one stands at `offset`. */
  predicate CentralIs(b: Bytes, at: nat, e: Entry, now: Stamp, offset: nat)
    requires Fits(e, now)
  {
    && at + 46 + |e.name| <= |b|
    && Get32(b, at) == 0x02014b50 && Get16(b, at + 4) == Version(e) && Get16(b, at + 6) == 20
    && Get16(b, at + 8) == 0
    && Get16(b, at + 10) == e.compression && Get16(b, at + 12) == Time(e, now) && Get16(b, at + 14) == Date(e, now)
    && Get32(b, at + 16) == e.crc && Get32(b, at + 20) == e.compSz && Get32(b, at + 24) == e.uncompSz
    && Get16(b, at + 28) == |e.name| && Get16(b, at + 30) == 0 && Get16(b, at + 32) == 0
    && Get16(b, at + 34) == 0 && Get16(b, at + 36) == 0
    && Get32(b, at + 38) == e.extAttr && Get32(b, at + 42) == offset
    && b[at + 46..at + 46 + |e.name|] == e.name
  }

  /** The end record: one disk, the count twice, the directory's size and place, no comment. */
  predicate EndIs(b: Bytes, at: nat, count: nat, size: nat, offset: nat) {
    && at + 22 == |b|
    && Get32(b, at) == 0x06054b50 && Get16(b, at + 4) == 0 && Get16(b, at + 6) == 0
    && Get16(b, at + 8) == count && Get16(b, at + 10) == count
    && Get32(b, at + 12) == size && Get32(b, at + 16) == offset && Get16(b, at + 20) == 0
  }

  // -------------------------------------------------------------- one at a time

  lemma Twenty()
    ensures Join16(20, 0) == 20 && Join16(0, 0) == 0
  {
  }

  lemma LocalHeadIs(c: nat, t: nat, d: nat)
    requires c < U16 && t < U16 && d < U16
    ensures var h := LocalHead(c, t, d);
      && Get32(h, 0) == LOCAL_SIGNATURE && Get16(h, 4) == 20 && Get16(h, 6) == 0
      && Get16(h, 8) == c && Get16(h, 10) == t && Get16(h, 12) == d
  {
    hide B0, B1, B2, B3, Join16, Join32;
    Signatures();
    Twenty();
    Joined16(c);
    Joined16(t);
    Joined16(d);
  }

  lemma LocalFieldsStand(b: Bytes, at: nat, e: Entry, now: Stamp)
    requires Fits(e, now) && At(b, at, LocalHeader(e, now))
    ensures at + 30 <= |b|
    ensures Get32(b, at) == 0x04034b50 && Get16(b, at + 4) == 20 && Get16(b, at + 6) == 0
    ensures Get16(b, at + 8) == e.compression
    ensures Get16(b, at + 10) == Time(e, now) && Get16(b, at + 12) == Date(e, now)
    ensures Get32(b, at + 14) == e.crc && Get32(b, at + 18) == e.compSz && Get32(b, at + 22) == e.uncompSz
    ensures Get16(b, at + 26) == |e.name| && Get16(b, at + 28) == 0
  {
    hide Get16, Get32, At, Time, Date, LocalHead, Sizes, Keeps;
    LocalFields(e, now);
    At16(b, at, LocalHeader(e, now), 26);
    At16(b, at, LocalHeader(e, now), 28);
    AtInside(b, at, LocalHeader(e, now));
    var head := LocalHead(e.compression, Time(e, now), Date(e, now));
    var tail := [B0(|e.name|), B1(|e.name|), 0, 0];
    AtSplit(b, at, head + Sizes(e), tail);
    AtSplit(b, at, head, Sizes(e));
    LocalHeadIs(e.compression, Time(e, now), Date(e, now));
    SizesFields(e);
    At32(b, at, head, 0);
    At16(b, at, head, 4);
    At16(b, at, head, 6);
    At16(b, at, head, 8);
    At16(b, at, head, 10);
    At16(b, at, head, 12);
    At32(b, at + 14, Sizes(e), 0);
    At32(b, at + 14, Sizes(e), 4);
    At32(b, at + 14, Sizes(e), 8);
  }

  lemma CentralRest(v: nat, c: nat, t: nat, d: nat, n: nat, x: nat, offset: nat)
    ensures Get16(CentralHead(v, c, t, d), 6) == 20 && Get16(CentralHead(v, c, t, d), 8) == 0
    ensures Get16(CentralTail(n, x, offset), 6) == 0 && Get16(CentralTail(n, x, offset), 8) == 0
  {
    hide B0, B1, B2, B3, Join16;
    Twenty();
  }

  lemma CentralFieldsStand(b: Bytes, at: nat, e: Entry, now: Stamp, offset: nat)
    requires Fits(e, now) && offset < U32 && At(b, at, CentralHeader(e, now, offset))
    ensures at + 46 <= |b|
    ensures Get16(b, at + 6) == 20 && Get16(b, at + 8) == 0 && Get16(b, at + 34) == 0 && Get16(b, at + 36) == 0
  {
    hide Get16, At, Time, Date, Version, CentralHead, Sizes, CentralTail, Keeps;
    AtInside(b, at, CentralHeader(e, now, offset));
    var head := CentralHead(Version(e), e.compression, Time(e, now), Date(e, now));
    var tail := CentralTail(|e.name|, e.extAttr, offset);
    AtSplit(b, at, head + Sizes(e), tail);
    AtSplit(b, at, head, Sizes(e));
    CentralRest(Version(e), e.compression, Time(e, now), Date(e, now), |e.name|, e.extAttr, offset);
    At16(b, at, head, 6);
    At16(b, at, head, 8);
    At16(b, at + 28, tail, 6);
    At16(b, at + 28, tail, 8);
  }

  lemma EndStands(b: Bytes, at: nat, count: nat, size: nat, offset: nat)
    requires count < U16 && size < U32 && offset < U32
    requires At(b, at, EndRecord(count, size, offset)) && at + 22 == |b|
    ensures EndIs(b, at, count, size, offset)
  {
    var h := EndRecord(count, size, offset);
    EndFields(count, size, offset);
    EndRest(count, size, offset);
    hide Get16, Get32, At, EndRecord;
    At32(b, at, h, 0);
    At16(b, at, h, 4);
    At16(b, at, h, 6);
    At16(b, at, h, 8);
    At16(b, at, h, 10);
    At32(b, at, h, 12);
    At32(b, at, h, 16);
    At16(b, at, h, 20);
  }

  lemma EndRest(count: nat, size: nat, offset: nat)
    requires count < U16 && size < U32
    ensures var h := EndRecord(count, size, offset);
      Get16(h, 4) == 0 && Get16(h, 6) == 0 && Get16(h, 8) == count && Get32(h, 12) == size && Get16(h, 20) == 0
  {
    hide B0, B1, B2, B3, Join16, Join32;
    Twenty();
    Joined16(count);
    Joined32(size);
  }

  // ----------------------------------------------------------- the whole archive

  lemma Standing(b: Bytes, at: nat, chunk: Bytes)
    requires At(b, at, chunk)
    ensures at + |chunk| <= |b| && b[at..at + |chunk|] == chunk
  {
  }

  /** The entry's own headers stand at `at` and its directory header at `dir`. */
  predicate Stands(b: Bytes, at: nat, dir: nat, e: Entry, now: Stamp) {
    Fits(e, now) && LocalIs(b, at, e, now) && CentralIs(b, dir, e, now, at)
  }

  lemma {:induction false} EntryStands(b: Bytes, pos: nat, es: seq<Entry>, now: Stamp, offset: nat, k: nat)
    requires AllFit(es, now) && k < |es| && offset + LocalsSize(es) < U32
    requires At(b, pos, Centrals(es, now, offset)) && At(b, offset, Locals(es, now))
    ensures Stands(b, offset + LocalsSize(es[..k]), pos + CentralsSize(es[..k]), es[k], now)
    decreases |es|
  {
    hide *;
    FirstFits(es, now);
    PartsAt(b, pos, es, now, offset);
    if k == 0 {
      NoSizes(es);
      FirstStands(b, pos, es[0], now, offset);
    } else {
      SizesOfFront(es, k);
      EntryStands(b, pos + 46 + |es[0].name|, es[1..], now, offset + LocalSize(es[0]), k - 1);
    }
  }

  lemma NoSizes(es: seq<Entry>)
    ensures LocalsSize(es[..0]) == 0 && CentralsSize(es[..0]) == 0
  {
  }

  lemma SizesOfFront(es: seq<Entry>, k: nat)
    requires 0 < k < |es|
    ensures LocalsSize(es) == LocalSize(es[0]) + LocalsSize(es[1..])
    ensures LocalsSize(es[..k]) == LocalSize(es[0]) + LocalsSize(es[1..][..k - 1])
    ensures CentralsSize(es[..k]) == 46 + |es[0].name| + CentralsSize(es[1..][..k - 1])
  {
    assert es[..k][1..] == es[1..][..k - 1];
  }

  lemma FirstStands(b: Bytes, pos: nat, e: Entry, now: Stamp, offset: nat)
    requires Fits(e, now) && offset < U32
    requires At(b, pos, CentralHeader(e, now, offset)) && At(b, pos + 46, e.name)
    requires At(b, offset, LocalHeader(e, now)) && At(b, offset + 30, e.name) && At(b, offset + 30 + |e.name|, e.raw)
    ensures Stands(b, offset, pos, e, now)
  {
    hide Fits, At, Get16, Get32, Time, Date, Version, LocalHeader, CentralHeader;
    LocalFieldsStand(b, offset, e, now);
    CentralAt(b, pos, e, now, offset);
    CentralFieldsStand(b, pos, e, now, offset);
    Standing(b, pos + 46, e.name);
    Standing(b, offset + 30, e.name);
    Standing(b, offset + 30 + |e.name|, e.raw);
  }

  /**
   What is written is an archive of the format: every entry's header, name and data stand one
   after the other, and the directory lists each where it stands.
   */
  lemma EntryIsLaidOut(es: seq<Entry>, now: Stamp, k: nat)
    requires Writable(es, now) && k < |es|
    ensures Stands(Archive(es, now), LocalsSize(es[..k]), LocalsSize(es) + CentralsSize(es[..k]), es[k], now)
  {
    hide *;
    WritableIs(es, now);
    ArchiveParts(es, now);
    EntryStands(Archive(es, now), LocalsSize(es), es, now, 0, k);
  }

  /** And the end record says how many there are and where the directory is. */
  lemma EndIsLaidOut(es: seq<Entry>, now: Stamp)
    requires Writable(es, now)
    ensures var b := Archive(es, now);
      |b| == LocalsSize(es) + CentralsSize(es) + 22 && EndIs(b, |b| - 22, |es|, CentralsSize(es), LocalsSize(es))
  {
    hide *;
    WritableIs(es, now);
    ArchiveParts(es, now);
    var b := Archive(es, now);
    EndStands(b, |b| - 22, |es|, CentralsSize(es), LocalsSize(es));
  }

  lemma WritableIs(es: seq<Entry>, now: Stamp)
    requires Writable(es, now)
    ensures AllFit(es, now) && |es| < U16 && LocalsSize(es) < U32 && CentralsSize(es) < U32
  {
    hide Fits, LocalsSize, CentralsSize;
  }
}
