/**
 The packaging scripts' ZIP reader and writer: what is written, byte for byte, and
 what is read back. A file name is its UTF-8 bytes.
 */
module Zip {
  import opened ByteStrings
  import opened Options

  datatype Entry = Entry(
    name: Bytes,
    compression: int,
    crc: int,
    compSz: int,
    uncompSz: int,
    extAttr: int,
    versionMadeBy: int,
    raw: Bytes,
    dosTime: Option<int>,
    dosDate: Option<int>)

  datatype Stamp = Stamp(time: nat, date: nat)

  const LOCAL_SIGNATURE: nat := 0x04034b50
  const CENTRAL_SIGNATURE: nat := 0x02014b50
  const END_SIGNATURE: nat := 0x06054b50
  const UNIX_VERSION: nat := 0x0314
  const U16: nat := 0x10000
  const U32: nat := 0x1_0000_0000

  // --------------------------------------------------------------- timestamps

  /** A calendar day and time of day as the clock gives them. */
  datatype Moment = Moment(year: int, month: nat, day: nat, hours: nat, minutes: nat, seconds: nat)

  predicate OnCalendar(d: Moment) {
    1 <= d.month <= 12 && 1 <= d.day <= 31 && d.hours < 24 && d.minutes < 60 && d.seconds < 60
  }

  function Year(y: int): nat {
    if y < 1980 then 1980 else if y > 2107 then 2107 else y
  }

  /** The fields of a DOS stamp do not overlap, so their bitwise or is their sum. */
  function DosStamp(d: Moment): Stamp {
    Stamp(d.hours * 2048 + d.minutes * 32 + d.seconds / 2, (Year(d.year) - 1980) * 512 + d.month * 32 + d.day)
  }

  lemma Packed(high: nat, mid: nat, low: nat, width: nat)
    requires low < 32 && 0 < width && mid < width
    ensures var v := (high * width + mid) * 32 + low; v % 32 == low && v / 32 == high * width + mid
  {
  }

  /** Every moment gives a stamp that fits its fields, reads back as that moment and is a date that exists. */
  lemma DosStampReadsBack(d: Moment)
    requires OnCalendar(d)
    ensures var r := DosStamp(d);
      && r.date < U16 && r.time < U16 && ValidDosDate(r.date)
      && r.date / 32 / 16 + 1980 == Year(d.year) && r.date / 32 % 16 == d.month && r.date % 32 == d.day
      && r.time / 32 / 64 == d.hours && r.time / 32 % 64 == d.minutes && r.time % 32 == d.seconds / 2
  {
    Packed(Year(d.year) - 1980, d.month, d.day, 16);
    Packed(d.hours, d.minutes, d.seconds / 2, 64);
  }

  predicate ValidDosDate(date: int) {
    1 <= date / 32 % 16 <= 12 && date % 32 >= 1
  }

  // ------------------------------------------------------ little-endian fields

  function B0(v: nat): byte { v % 256 }
  function B1(v: nat): byte { v / 256 % 256 }
  function B2(v: nat): byte { B0(v / 65536) }
  function B3(v: nat): byte { B1(v / 65536) }

  function Join16(a: byte, b: byte): nat { a as nat + 256 * (b as nat) }
  function Join32(a: byte, b: byte, c: byte, d: byte): nat { Join16(a, b) + 65536 * Join16(c, d) }

  function Get16(b: Bytes, i: nat): nat
    requires i + 2 <= |b|
  {
    Join16(b[i], b[i + 1])
  }

  function Get32(b: Bytes, i: nat): nat
    requires i + 4 <= |b|
  {
    Join32(b[i], b[i + 1], b[i + 2], b[i + 3])
  }

  lemma LowWord(v: nat)
    ensures Join16(B0(v), B1(v)) == v % 65536
  {
    var q := v / 256;
    assert v == 256 * q + v % 256 && q == 256 * (q / 256) + q % 256;
    assert v == 65536 * (q / 256) + (256 * (q % 256) + v % 256);
  }

  lemma Joined16(v: nat)
    requires v < U16
    ensures Join16(B0(v), B1(v)) == v
  {
    LowWord(v);
  }

  lemma Joined32(v: nat)
    requires v < U32
    ensures Join32(B0(v), B1(v), B2(v), B3(v)) == v
  {
    hide B0, B1, Join16;
    LowWord(v);
    Joined16(v / 65536);
  }

  lemma Signatures()
    ensures Join32(0x50, 0x4b, 1, 2) == CENTRAL_SIGNATURE && Join32(0x50, 0x4b, 3, 4) == LOCAL_SIGNATURE
    ensures Join32(0x50, 0x4b, 5, 6) == END_SIGNATURE && Join16(0, 0) == 0
  {
  }

  // ------------------------------------------------------------------- headers

  /** The version, times and offset an entry is written with. */
  predicate Keeps(e: Entry) {
    e.dosDate.Some? && ValidDosDate(e.dosDate.value)
  }

  function Version(e: Entry): int { if e.versionMadeBy == 0 then UNIX_VERSION else e.versionMadeBy }
  /** A time that is kept but missing is written as zero. */
  function Time(e: Entry, now: Stamp): int {
    if !Keeps(e) then now.time else if e.dosTime.Some? then e.dosTime.value else 0
  }

  function Date(e: Entry, now: Stamp): int { if Keeps(e) then e.dosDate.value else now.date }

  /** Every number of the entry fits the field it is written to. */
  predicate Fits(e: Entry, now: Stamp) {
    && 0 <= e.compression < U16 && 0 <= e.crc < U32 && 0 <= e.compSz < U32 && 0 <= e.uncompSz < U32
    && 0 <= e.extAttr < U32 && 0 <= Version(e) < U16 && |e.name| < U16
    && 0 <= Time(e, now) < U16 && 0 <= Date(e, now) < U16
  }

  /** The three numbers both headers share. */
  function Sizes(e: Entry): (h: Bytes)
    requires e.crc >= 0 && e.compSz >= 0 && e.uncompSz >= 0
    ensures |h| == 12
  {
    [B0(e.crc), B1(e.crc), B2(e.crc), B3(e.crc), B0(e.compSz), B1(e.compSz), B2(e.compSz), B3(e.compSz),
     B0(e.uncompSz), B1(e.uncompSz), B2(e.uncompSz), B3(e.uncompSz)]
  }

  function LocalHead(c: nat, t: nat, d: nat): (h: Bytes)
    ensures |h| == 14
  {
    [0x50, 0x4b, 3, 4, 20, 0, 0, 0, B0(c), B1(c), B0(t), B1(t), B0(d), B1(d)]
  }

  function LocalHeader(e: Entry, now: Stamp): (h: Bytes)
    requires Fits(e, now)
    ensures |h| == 30
  {
    LocalHead(e.compression, Time(e, now), Date(e, now)) + Sizes(e) + [B0(|e.name|), B1(|e.name|), 0, 0]
  }

  function CentralHead(v: nat, c: nat, t: nat, d: nat): (h: Bytes)
    ensures |h| == 16
  {
    [0x50, 0x4b, 1, 2, B0(v), B1(v), 20, 0, 0, 0, B0(c), B1(c), B0(t), B1(t), B0(d), B1(d)]
  }

  function CentralTail(n: nat, x: nat, offset: nat): (h: Bytes)
    ensures |h| == 18
  {
    [B0(n), B1(n), 0, 0, 0, 0, 0, 0, 0, 0, B0(x), B1(x), B2(x), B3(x), B0(offset), B1(offset), B2(offset), B3(offset)]
  }

  function CentralHeader(e: Entry, now: Stamp, offset: nat): (h: Bytes)
    requires Fits(e, now)
    ensures |h| == 46
  {
    CentralHead(Version(e), e.compression, Time(e, now), Date(e, now)) + Sizes(e)
      + CentralTail(|e.name|, e.extAttr, offset)
  }

  function EndRecord(count: nat, size: nat, offset: nat): (h: Bytes)
    ensures |h| == 22
  {
    [0x50, 0x4b, 5, 6, 0, 0, 0, 0, B0(count), B1(count), B0(count), B1(count),
     B0(size), B1(size), B2(size), B3(size), B0(offset), B1(offset), B2(offset), B3(offset), 0, 0]
  }

  // ------------------------------------------------------------------- writing

  function LocalSize(e: Entry): nat { 30 + |e.name| + |e.raw| }

  function LocalsSize(es: seq<Entry>): nat {
    if |es| == 0 then 0 else LocalSize(es[0]) + LocalsSize(es[1..])
  }

  function CentralsSize(es: seq<Entry>): nat {
    if |es| == 0 then 0 else 46 + |es[0].name| + CentralsSize(es[1..])
  }

  predicate AllFit(es: seq<Entry>, now: Stamp) {
    forall i :: 0 <= i < |es| ==> Fits(es[i], now)
  }

  /** What the format can hold: every field in range, fewer than 65536 entries, sizes and offsets in 32 bits. */
  predicate Writable(es: seq<Entry>, now: Stamp) {
    AllFit(es, now) && |es| < U16 && LocalsSize(es) < U32 && CentralsSize(es) < U32
  }

  function Locals(es: seq<Entry>, now: Stamp): (b: Bytes)
    requires AllFit(es, now)
    ensures |b| == LocalsSize(es)
  {
    if |es| == 0 then [] else LocalHeader(es[0], now) + es[0].name + es[0].raw + Locals(es[1..], now)
  }

  function Centrals(es: seq<Entry>, now: Stamp, offset: nat): (b: Bytes)
    requires AllFit(es, now)
    ensures |b| == CentralsSize(es)
  {
    if |es| == 0 then []
    else CentralHeader(es[0], now, offset) + es[0].name + Centrals(es[1..], now, offset + LocalSize(es[0]))
  }

  /** The whole file: the entries, the directory, the end record. */
  function Archive(es: seq<Entry>, now: Stamp): Bytes
    requires AllFit(es, now)
  {
    Locals(es, now) + Centrals(es, now, 0) + EndRecord(|es|, CentralsSize(es), LocalsSize(es))
  }

  // ------------------------------------------------------------------- reading

  /** A slice as Buffer.slice takes it, cut at the end of the buffer. */
  function Slice(b: Bytes, from: nat, len: nat): Bytes {
    if from >= |b| then [] else if from + len >= |b| then b[from..] else b[from..from + len]
  }

  /** The entry the directory describes at pos; None where a read leaves the buffer or the signature is wrong. */
  function ReadEntry(b: Bytes, pos: nat): Option<Entry> {
    if pos + 46 > |b| || Get32(b, pos) != CENTRAL_SIGNATURE then None
    else
      var local := Get32(b, pos + 42);
      if local + 30 > |b| then None
      else
        var start := local + 30 + Get16(b, local + 26) + Get16(b, local + 28);
        var compSz := Get32(b, pos + 20);
        Some(Entry(Slice(b, pos + 46, Get16(b, pos + 28)), Get16(b, pos + 10), Get32(b, pos + 16), compSz,
          Get32(b, pos + 24), Get32(b, pos + 38), Get16(b, pos + 4), Slice(b, start, compSz),
          Some(Get16(b, pos + 12)), Some(Get16(b, pos + 14))))
  }

  function NextPos(b: Bytes, pos: nat): nat
    requires pos + 46 <= |b|
  {
    pos + 46 + Get16(b, pos + 28) + Get16(b, pos + 30) + Get16(b, pos + 32)
  }

  function ReadEntries(b: Bytes, pos: nat, count: nat): Option<seq<Entry>>
    decreases count
  {
    if count == 0 then Some([])
    else
      var e := ReadEntry(b, pos);
      if e.None? then None
      else
        var rest := ReadEntries(b, NextPos(b, pos), count - 1);
        if rest.None? then None else Some([e.value] + rest.value)
  }

  /** The last place at or below i, within the reach of a comment, where an end record may start. */
  function FindEnd(b: Bytes, i: int): (r: Option<nat>)
    requires i + 4 <= |b|
    ensures r.Some? ==> r.value <= i && Get32(b, r.value) == END_SIGNATURE
    ensures forall k :: 0 <= k <= i && k >= |b| - 65558 && (r.Some? ==> k > r.value) ==> Get32(b, k) != END_SIGNATURE
    decreases i + 1
  {
    if i < 0 || i < |b| - 65558 then None
    else if Get32(b, i) == END_SIGNATURE then Some(i)
    else FindEnd(b, i - 1)
  }

  function Read(b: Bytes): Option<seq<Entry>> {
    var end := FindEnd(b, |b| - 22);
    if end.None? then None
    else ReadEntries(b, Get32(b, end.value + 16), Get16(b, end.value + 10))
  }

  // --------------------------------------------------------- reading what is at

  /** The chunk stands in b at pos. */
  predicate At(b: Bytes, pos: nat, chunk: Bytes) {
    pos + |chunk| <= |b| && b[pos..pos + |chunk|] == chunk
  }

  lemma AtByte(b: Bytes, pos: nat, chunk: Bytes, k: nat)
    requires At(b, pos, chunk) && k < |chunk|
    ensures b[pos + k] == chunk[k]
  {
    assert b[pos..pos + |chunk|][k] == chunk[k];
  }

  lemma AtInside(b: Bytes, pos: nat, chunk: Bytes)
    requires At(b, pos, chunk)
    ensures pos + |chunk| <= |b|
  {
  }

  lemma AtSplit(b: Bytes, pos: nat, x: Bytes, y: Bytes)
    requires At(b, pos, x + y)
    ensures At(b, pos, x) && At(b, pos + |x|, y)
  {
    var both := b[pos..pos + |x + y|];
    assert both == x + y;
    assert b[pos..pos + |x|] == both[..|x|] == x;
    assert b[pos + |x|..pos + |x| + |y|] == both[|x|..] == y;
  }

  lemma At16(b: Bytes, pos: nat, chunk: Bytes, k: nat)
    requires At(b, pos, chunk) && k + 2 <= |chunk|
    ensures Get16(b, pos + k) == Get16(chunk, k)
  {
    AtByte(b, pos, chunk, k);
    AtByte(b, pos, chunk, k + 1);
  }

  lemma At32(b: Bytes, pos: nat, chunk: Bytes, k: nat)
    requires At(b, pos, chunk) && k + 4 <= |chunk|
    ensures Get32(b, pos + k) == Get32(chunk, k)
  {
    AtByte(b, pos, chunk, k);
    AtByte(b, pos, chunk, k + 1);
    AtByte(b, pos, chunk, k + 2);
    AtByte(b, pos, chunk, k + 3);
  }

  lemma SizesFields(e: Entry)
    requires 0 <= e.crc < U32 && 0 <= e.compSz < U32 && 0 <= e.uncompSz < U32
    ensures Get32(Sizes(e), 0) == e.crc && Get32(Sizes(e), 4) == e.compSz && Get32(Sizes(e), 8) == e.uncompSz
  {
    hide B0, B1, B2, B3, Join16, Join32;
    Joined32(e.crc);
    Joined32(e.compSz);
    Joined32(e.uncompSz);
  }

  lemma CentralHeadFields(v: nat, c: nat, t: nat, d: nat)
    requires v < U16 && c < U16 && t < U16 && d < U16
    ensures var h := CentralHead(v, c, t, d);
      && Get32(h, 0) == CENTRAL_SIGNATURE && Get16(h, 4) == v && Get16(h, 10) == c
      && Get16(h, 12) == t && Get16(h, 14) == d
  {
    hide B0, B1, B2, B3, Join16, Join32;
    Signatures();
    Joined16(v);
    Joined16(c);
    Joined16(t);
    Joined16(d);
  }

  lemma CentralTailFields(n: nat, x: nat, offset: nat)
    requires n < U16 && x < U32 && offset < U32
    ensures var h := CentralTail(n, x, offset);
      && Get16(h, 0) == n && Get16(h, 2) == 0 && Get16(h, 4) == 0
      && Get32(h, 10) == x && Get32(h, 14) == offset
  {
    hide B0, B1, B2, B3, Join16, Join32;
    Signatures();
    Joined16(n);
    Joined32(x);
    Joined32(offset);
  }

  lemma LocalFields(e: Entry, now: Stamp)
    requires Fits(e, now)
    ensures Get16(LocalHeader(e, now), 26) == |e.name| && Get16(LocalHeader(e, now), 28) == 0
  {
    hide B0, B1, B2, B3, Time, Date, Join16, Join32, LocalHead, Sizes;
    Signatures();
    Joined16(|e.name|);
  }

  lemma EndFields(count: nat, size: nat, offset: nat)
    requires count < U16 && offset < U32
    ensures var h := EndRecord(count, size, offset);
      Get32(h, 0) == END_SIGNATURE && Get16(h, 10) == count && Get32(h, 16) == offset
  {
    hide B0, B1, B2, B3, Join16, Join32;
    Signatures();
    Joined16(count);
    Joined32(offset);
  }

  /** An entry with its missing version and its missing or impossible date filled in. */
  function Normal(e: Entry, now: Stamp): Entry
    requires Fits(e, now)
  {
    e.(versionMadeBy := Version(e), dosTime := Some(Time(e, now)), dosDate := Some(Date(e, now)))
  }

  /** What the reader makes of an entry written at offset. */
  function Echo(b: Bytes, e: Entry, now: Stamp, offset: nat): Entry
    requires Fits(e, now)
  {
    Normal(e, now).(raw := Slice(b, offset + 30 + |e.name|, e.compSz))
  }

  lemma CentralAt(b: Bytes, pos: nat, e: Entry, now: Stamp, offset: nat)
    requires Fits(e, now) && offset < U32 && At(b, pos, CentralHeader(e, now, offset))
    ensures pos + 46 <= |b| && Get32(b, pos) == CENTRAL_SIGNATURE
    ensures Get16(b, pos + 4) == Version(e) && Get16(b, pos + 10) == e.compression
    ensures Get16(b, pos + 12) == Time(e, now) && Get16(b, pos + 14) == Date(e, now)
    ensures Get32(b, pos + 16) == e.crc && Get32(b, pos + 20) == e.compSz && Get32(b, pos + 24) == e.uncompSz
    ensures Get16(b, pos + 28) == |e.name| && Get16(b, pos + 30) == 0 && Get16(b, pos + 32) == 0
    ensures Get32(b, pos + 38) == e.extAttr && Get32(b, pos + 42) == offset
  {
    hide Get16, Get32, At, Time, Date, Version, CentralHead, Sizes, CentralTail, Keeps;
    var head := CentralHead(Version(e), e.compression, Time(e, now), Date(e, now));
    var tail := CentralTail(|e.name|, e.extAttr, offset);
    AtSplit(b, pos, head + Sizes(e), tail);
    AtSplit(b, pos, head, Sizes(e));
    CentralHeadFields(Version(e), e.compression, Time(e, now), Date(e, now));
    SizesFields(e);
    CentralTailFields(|e.name|, e.extAttr, offset);
    At32(b, pos, head, 0);
    At16(b, pos, head, 4);
    At16(b, pos, head, 10);
    At16(b, pos, head, 12);
    At16(b, pos, head, 14);
    At32(b, pos + 16, Sizes(e), 0);
    At32(b, pos + 16, Sizes(e), 4);
    At32(b, pos + 16, Sizes(e), 8);
    At16(b, pos + 28, tail, 0);
    At16(b, pos + 28, tail, 2);
    At16(b, pos + 28, tail, 4);
    At32(b, pos + 28, tail, 10);
    At32(b, pos + 28, tail, 14);
    AtInside(b, pos + 28, tail);
  }

  lemma SliceAt(b: Bytes, pos: nat, chunk: Bytes)
    requires At(b, pos, chunk)
    ensures Slice(b, pos, |chunk|) == chunk
  {
  }

  lemma EntryReadsBack(b: Bytes, pos: nat, e: Entry, now: Stamp, offset: nat)
    requires Fits(e, now) && offset < U32
    requires At(b, pos, CentralHeader(e, now, offset)) && At(b, pos + 46, e.name) && At(b, offset, LocalHeader(e, now))
    ensures pos + 46 <= |b| && NextPos(b, pos) == pos + 46 + |e.name|
    ensures ReadEntry(b, pos) == Some(Echo(b, e, now, offset))
  {
    hide CentralHeader, LocalHeader, Get16, Get32, Time, Date, Version, Slice, Fits, At;
    CentralAt(b, pos, e, now, offset);
    LocalFields(e, now);
    At16(b, offset, LocalHeader(e, now), 26);
    At16(b, offset, LocalHeader(e, now), 28);
    SliceAt(b, pos + 46, e.name);
    AtInside(b, offset, LocalHeader(e, now));
  }

  function Echoes(b: Bytes, es: seq<Entry>, now: Stamp, offset: nat): (r: seq<Entry>)
    requires AllFit(es, now)
    ensures |r| == |es|
  {
    if |es| == 0 then [] else [Echo(b, es[0], now, offset)] + Echoes(b, es[1..], now, offset + LocalSize(es[0]))
  }

  lemma {:induction false} EntriesReadBack(b: Bytes, pos: nat, es: seq<Entry>, now: Stamp, offset: nat)
    requires AllFit(es, now) && offset + LocalsSize(es) < U32
    requires At(b, pos, Centrals(es, now, offset)) && At(b, offset, Locals(es, now))
    ensures ReadEntries(b, pos, |es|) == Some(Echoes(b, es, now, offset))
    decreases |es|
  {
    hide CentralHeader, LocalHeader, At, ReadEntry, NextPos, Echo, Fits, Locals, Centrals, LocalSize, AllFit;
    if |es| > 0 {
      FirstFits(es, now);
      PartsAt(b, pos, es, now, offset);
      EntryReadsBack(b, pos, es[0], now, offset);
      EntriesReadBack(b, pos + 46 + |es[0].name|, es[1..], now, offset + LocalSize(es[0]));
    }
  }

  lemma FirstFits(es: seq<Entry>, now: Stamp)
    requires AllFit(es, now) && |es| > 0
    ensures Fits(es[0], now) && AllFit(es[1..], now)
  {
  }

  /** Where the parts of the first entry, and of the others, stand. */
  lemma PartsAt(b: Bytes, pos: nat, es: seq<Entry>, now: Stamp, offset: nat)
    requires AllFit(es, now) && |es| > 0
    requires At(b, pos, Centrals(es, now, offset)) && At(b, offset, Locals(es, now))
    ensures At(b, pos, CentralHeader(es[0], now, offset)) && At(b, pos + 46, es[0].name)
    ensures At(b, pos + 46 + |es[0].name|, Centrals(es[1..], now, offset + LocalSize(es[0])))
    ensures At(b, offset, LocalHeader(es[0], now)) && At(b, offset + LocalSize(es[0]), Locals(es[1..], now))
    ensures At(b, offset + 30, es[0].name) && At(b, offset + 30 + |es[0].name|, es[0].raw)
  {
    hide CentralHeader, LocalHeader, At, Fits;
    var e := es[0];
    AtSplit(b, pos, CentralHeader(e, now, offset) + e.name, Centrals(es[1..], now, offset + LocalSize(e)));
    AtSplit(b, pos, CentralHeader(e, now, offset), e.name);
    AtSplit(b, offset, LocalHeader(e, now) + e.name + e.raw, Locals(es[1..], now));
    AtSplit(b, offset, LocalHeader(e, now) + e.name, e.raw);
    AtSplit(b, offset, LocalHeader(e, now), e.name);
  }

  lemma ArchiveParts(es: seq<Entry>, now: Stamp)
    requires AllFit(es, now)
    ensures var b := Archive(es, now);
      && At(b, 0, Locals(es, now)) && At(b, LocalsSize(es), Centrals(es, now, 0))
      && At(b, |b| - 22, EndRecord(|es|, CentralsSize(es), LocalsSize(es)))
      && |b| == LocalsSize(es) + CentralsSize(es) + 22
  {
    var b := Archive(es, now);
    hide Locals, Centrals, EndRecord, At;
    AtWhole(b);
    AtSplit(b, 0, Locals(es, now) + Centrals(es, now, 0), EndRecord(|es|, CentralsSize(es), LocalsSize(es)));
    AtSplit(b, 0, Locals(es, now), Centrals(es, now, 0));
  }

  lemma AtWhole(b: Bytes)
    ensures At(b, 0, b)
  {
  }

  /** Whatever was written is read back, entry for entry; only the raw bytes depend on the stated size. */
  lemma ArchiveReadsBack(es: seq<Entry>, now: Stamp)
    requires Writable(es, now)
    ensures Read(Archive(es, now)) == Some(Echoes(Archive(es, now), es, now, 0))
  {
    var b := Archive(es, now);
    ArchiveParts(es, now);
    var end := EndRecord(|es|, CentralsSize(es), LocalsSize(es));
    EndFields(|es|, CentralsSize(es), LocalsSize(es));
    At32(b, |b| - 22, end, 0);
    At16(b, |b| - 22, end, 10);
    At32(b, |b| - 22, end, 16);
    hide Archive, EndRecord, Locals, Centrals, At, Get16, Get32, AllFit;
    EntriesReadBack(b, LocalsSize(es), es, now, 0);
  }

  // ----------------------------------------------------------------- round trip

  predicate ValidStamp(now: Stamp) {
    now.time < U16 && now.date < U16 && ValidDosDate(now.date)
  }

  function Normals(es: seq<Entry>, now: Stamp): (r: seq<Entry>)
    requires AllFit(es, now)
    ensures |r| == |es|
  {
    if |es| == 0 then [] else [Normal(es[0], now)] + Normals(es[1..], now)
  }

  /** The stated size of every entry is the length of its bytes. */
  predicate SizesHold(es: seq<Entry>) {
    forall i :: 0 <= i < |es| ==> es[i].compSz == |es[i].raw|
  }

  /** The bytes read for an entry are its own exactly when its stated size is their number. */
  lemma SliceIsRawIff(b: Bytes, start: nat, raw: Bytes, size: nat)
    requires At(b, start, raw) && start + |raw| < |b|
    ensures Slice(b, start, size) == raw <==> size == |raw|
  {
  }

  lemma EchoIsNormalIff(b: Bytes, e: Entry, now: Stamp, offset: nat)
    requires Fits(e, now) && At(b, offset + 30 + |e.name|, e.raw) && offset + LocalSize(e) < |b|
    ensures Echo(b, e, now, offset) == Normal(e, now) <==> e.compSz == |e.raw|
  {
    SliceIsRawIff(b, offset + 30 + |e.name|, e.raw, e.compSz);
  }

  lemma {:induction false} EchoesAreNormalIff(b: Bytes, pos: nat, es: seq<Entry>, now: Stamp, offset: nat)
    requires AllFit(es, now) && offset + LocalsSize(es) < |b|
    requires At(b, pos, Centrals(es, now, offset)) && At(b, offset, Locals(es, now))
    ensures Echoes(b, es, now, offset) == Normals(es, now) <==> SizesHold(es)
    decreases |es|
  {
    hide CentralHeader, LocalHeader, At, Echo, Normal, Fits, Locals, Centrals, LocalSize, AllFit;
    if |es| > 0 {
      var e, rest, more := es[0], es[1..], offset + LocalSize(es[0]);
      FirstFits(es, now);
      PartsAt(b, pos, es, now, offset);
      EchoIsNormalIff(b, e, now, offset);
      EchoesAreNormalIff(b, pos + 46 + |e.name|, rest, now, more);
      ConsEqual(Echo(b, e, now, offset), Echoes(b, rest, now, more), Normal(e, now), Normals(rest, now));
      assert es == [e] + rest;
    }
  }

  lemma ConsEqual<T>(x: T, s: seq<T>, y: T, t: seq<T>)
    ensures [x] + s == [y] + t <==> x == y && s == t
  {
    if [x] + s == [y] + t {
      assert s == ([x] + s)[1..] == ([y] + t)[1..] == t;
    }
  }

  /** Reading what was written gives the same entries, dates and versions filled in, exactly when the sizes hold. */
  lemma RoundTripIff(es: seq<Entry>, now: Stamp)
    requires Writable(es, now)
    ensures Read(Archive(es, now)) == Some(Normals(es, now)) <==> SizesHold(es)
  {
    hide Read, Archive, Echoes, Normals, Locals, Centrals, EndRecord, At, AllFit;
    ArchiveReadsBack(es, now);
    ArchiveParts(es, now);
    EchoesAreNormalIff(Archive(es, now), LocalsSize(es), es, now, 0);
  }

  /** The date of a written entry exists, and only one that did not was replaced. */
  lemma NormalIsDated(e: Entry, now: Stamp)
    requires Fits(e, now) && ValidStamp(now)
    ensures Keeps(Normal(e, now)) && Normal(e, now).versionMadeBy != 0
    ensures Keeps(e) ==> Normal(e, now).dosDate == e.dosDate
    ensures Keeps(e) && e.dosTime.Some? ==> Normal(e, now).dosTime == e.dosTime
    ensures Keeps(e) && e.dosTime.Some? && e.versionMadeBy != 0 <==> Normal(e, now) == e
  {
  }

  /** At any later time, a normal entry is written as it stands. */
  lemma NormalIsStable(e: Entry, now: Stamp, later: Stamp)
    requires Fits(e, now) && ValidStamp(now)
    ensures Fits(Normal(e, now), later) && Normal(Normal(e, now), later) == Normal(e, now)
    ensures LocalHeader(Normal(e, now), later) == LocalHeader(e, now)
    ensures forall offset: nat :: CentralHeader(Normal(e, now), later, offset) == CentralHeader(e, now, offset)
  {
    hide LocalHead, CentralHead, CentralTail, Sizes, ValidDosDate;
    NormalIsDated(e, now);
    SizesOfNormal(e, now);
  }

  lemma SizesOfNormal(e: Entry, now: Stamp)
    requires Fits(e, now)
    ensures Sizes(Normal(e, now)) == Sizes(e)
  {
    hide B0, B1, B2, B3;
  }

  lemma {:induction false} NormalsAreStable(es: seq<Entry>, now: Stamp, later: Stamp, offset: nat)
    requires AllFit(es, now) && ValidStamp(now)
    ensures AllFit(Normals(es, now), later)
    ensures Normals(Normals(es, now), later) == Normals(es, now)
    ensures Locals(Normals(es, now), later) == Locals(es, now)
    ensures Centrals(Normals(es, now), later, offset) == Centrals(es, now, offset)
    decreases |es|
  {
    hide LocalHeader, CentralHeader, Fits, Normal, AllFit;
    if |es| > 0 {
      FirstFits(es, now);
      NormalIsStable(es[0], now, later);
      NormalKeepsBytes(es[0], now);
      var ns := Normals(es, now);
      assert ns[0] == Normal(es[0], now) && ns[1..] == Normals(es[1..], now);
      NormalsAreStable(es[1..], now, later, offset + LocalSize(es[0]));
      ConsFits(ns[0], ns[1..], later);
      assert ns == [ns[0]] + ns[1..];
    } else {
      NoneFit(later);
    }
  }

  lemma NoneFit(now: Stamp)
    ensures AllFit([], now)
  {
  }

  lemma ConsFits(e: Entry, es: seq<Entry>, now: Stamp)
    requires Fits(e, now) && AllFit(es, now)
    ensures AllFit([e] + es, now)
  {
    hide Fits;
  }

  lemma NormalKeepsBytes(e: Entry, now: Stamp)
    requires Fits(e, now)
    ensures Normal(e, now).name == e.name && Normal(e, now).raw == e.raw
    ensures LocalSize(Normal(e, now)) == LocalSize(e)
  {
  }

  /**
   Written, read and written again at any later time, an archive comes out byte for
   byte the same, and reads as the same entries.
   */
  lemma SecondTripChangesNothing(es: seq<Entry>, now: Stamp, later: Stamp)
    requires Writable(es, now) && SizesHold(es) && ValidStamp(now)
    ensures var first := Read(Archive(es, now));
      && first.Some? && AllFit(first.value, later)
      && Archive(first.value, later) == Archive(es, now)
      && Read(Archive(first.value, later)) == first
  {
    hide LocalHeader, CentralHeader, Fits, Normal, AllFit, Read, Echoes, Locals, Centrals;
    RoundTripIff(es, now);
    NormalsAreStable(es, now, later, 0);
  }

  // ----------------------------------------------------- entries of any archive

  lemma Get16Small(b: Bytes, i: nat)
    requires i + 2 <= |b|
    ensures Get16(b, i) < U16
  {
  }

  lemma Get32Small(b: Bytes, i: nat)
    requires i + 4 <= |b|
    ensures Get32(b, i) < U32
  {
  }

  lemma SliceShort(b: Bytes, from: nat, len: nat)
    ensures |Slice(b, from, len)| <= len
  {
  }

  lemma EntryReadFits(b: Bytes, pos: nat, now: Stamp)
    requires ValidStamp(now) && ReadEntry(b, pos).Some?
    ensures pos + 46 <= |b| && Fits(ReadEntry(b, pos).value, now)
  {
    hide Get16, Get32, Slice, ValidDosDate;
    Get16Small(b, pos + 4);
    Get16Small(b, pos + 10);
    Get16Small(b, pos + 12);
    Get16Small(b, pos + 14);
    Get32Small(b, pos + 16);
    Get32Small(b, pos + 20);
    Get32Small(b, pos + 24);
    Get16Small(b, pos + 28);
    Get32Small(b, pos + 38);
    SliceShort(b, pos + 46, Get16(b, pos + 28));
  }

  lemma {:induction false} EntriesReadFit(b: Bytes, pos: nat, count: nat, now: Stamp)
    requires ValidStamp(now) && ReadEntries(b, pos, count).Some?
    ensures AllFit(ReadEntries(b, pos, count).value, now)
    ensures |ReadEntries(b, pos, count).value| == count
    decreases count
  {
    hide ReadEntry, NextPos, Fits, AllFit;
    if count > 0 {
      EntryReadFits(b, pos, now);
      EntriesReadFit(b, NextPos(b, pos), count - 1, now);
      ConsFits(ReadEntry(b, pos).value, ReadEntries(b, NextPos(b, pos), count - 1).value, now);
    } else {
      NoneFit(now);
    }
  }

  lemma ReadFits(b: Bytes, now: Stamp)
    requires ValidStamp(now) && Read(b).Some?
    ensures AllFit(Read(b).value, now) && |Read(b).value| < U16
  {
    hide FindEnd, Get16, Get32, AllFit, ReadEntries, ValidStamp;
    var end := FindEnd(b, |b| - 22).value;
    Get16Small(b, end + 10);
    EntriesReadFit(b, Get32(b, end + 16), Get16(b, end + 10), now);
  }

  /** Entries read from any archive, none cut short by its end, survive being written to another of 32-bit size. */
  lemma ReadEntriesCopyThrough(b: Bytes, now: Stamp)
    requires ValidStamp(now) && Read(b).Some? && SizesHold(Read(b).value)
    requires LocalsSize(Read(b).value) < U32 && CentralsSize(Read(b).value) < U32
    ensures Writable(Read(b).value, now)
    ensures Read(Archive(Read(b).value, now)) == Some(Normals(Read(b).value, now))
  {
    hide Read, AllFit, Archive, Normals;
    ReadFits(b, now);
    RoundTripIff(Read(b).value, now);
  }
}
