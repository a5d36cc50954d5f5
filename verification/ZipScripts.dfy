/**
 The loops of the ZIP scripts: headers written field by field into fresh buffers, a
 running offset, the backward search for the end record, the walk over the directory.
 */
module ZipScripts {
  import opened ByteStrings
  import opened Options
  import opened Zip

  // --------------------------------------------------------- writing a header

  /** Fields are written in ascending order, so each one extends what is settled. */
  method Put16(a: array<byte>, v: nat, off: nat)
    requires off + 2 <= a.Length
    modifies a
    ensures a[..off + 2] == old(a[..off]) + [B0(v), B1(v)]
  {
    hide B0, B1;
    a[off] := B0(v);
    a[off + 1] := B1(v);
  }

  method Put32(a: array<byte>, v: nat, off: nat)
    requires off + 4 <= a.Length
    modifies a
    ensures a[..off + 4] == old(a[..off]) + [B0(v), B1(v), B2(v), B3(v)]
  {
    hide B0, B1, B2, B3;
    a[off] := B0(v);
    a[off + 1] := B1(v);
    a[off + 2] := B2(v);
    a[off + 3] := B3(v);
  }

  method CopyName(a: array<byte>, name: Bytes, off: nat)
    requires off + |name| == a.Length
    modifies a
    ensures a[..] == old(a[..off]) + name
  {
    var i := 0;
    while i < |name|
      invariant 0 <= i <= |name|
      invariant a[..off] == old(a[..off])
      invariant a[off..off + i] == name[..i]
    {
      a[off + i] := name[i];
      assert a[off..off + i + 1] == a[off..off + i] + [name[i]];
      i := i + 1;
    }
    assert a[..] == a[..off] + a[off..off + |name|];
  }

  lemma Bytes4(v: nat)
    ensures v == LOCAL_SIGNATURE ==> [B0(v), B1(v), B2(v), B3(v)] == [0x50, 0x4b, 3, 4]
    ensures v == CENTRAL_SIGNATURE ==> [B0(v), B1(v), B2(v), B3(v)] == [0x50, 0x4b, 1, 2]
    ensures v == END_SIGNATURE ==> [B0(v), B1(v), B2(v), B3(v)] == [0x50, 0x4b, 5, 6]
    ensures v == 20 ==> [B0(v), B1(v)] == [20, 0]
    ensures v == 0 ==> [B0(v), B1(v)] == [0, 0]
  {
  }

  method PutSizes(a: array<byte>, e: Entry, off: nat)
    requires off + 12 <= a.Length && e.crc >= 0 && e.compSz >= 0 && e.uncompSz >= 0
    modifies a
    ensures a[..off + 12] == old(a[..off]) + Sizes(e)
  {
    hide B0, B1, B2, B3;
    Put32(a, e.crc, off);
    Put32(a, e.compSz, off + 4);
    Put32(a, e.uncompSz, off + 8);
  }

  method PutLocalHead(a: array<byte>, c: nat, t: nat, d: nat)
    requires a.Length >= 14
    modifies a
    ensures a[..14] == LocalHead(c, t, d)
  {
    Bytes4(LOCAL_SIGNATURE);
    Bytes4(20);
    Bytes4(0);
    hide B0, B1, B2, B3;
    Put32(a, LOCAL_SIGNATURE, 0);
    Put16(a, 20, 4);
    Put16(a, 0, 6);
    assert a[..8] == [0x50, 0x4b, 3, 4, 20, 0, 0, 0];
    Put16(a, c, 8);
    Put16(a, t, 10);
    Put16(a, d, 12);
  }

  method LocalRecord(e: Entry, now: Stamp) returns (lh: array<byte>)
    requires Fits(e, now)
    ensures fresh(lh) && lh[..] == LocalHeader(e, now) + e.name
  {
    lh := new byte[30 + |e.name|];
    PutLocalHead(lh, e.compression, Time(e, now), Date(e, now));
    hide LocalHead, Sizes, Time, Date;
    PutSizes(lh, e, 14);
    Bytes4(0);
    hide B0, B1;
    Put16(lh, |e.name|, 26);
    Put16(lh, 0, 28);
    CopyName(lh, e.name, 30);
    LocalShape(e, now);
  }

  lemma LocalShape(e: Entry, now: Stamp)
    requires Fits(e, now)
    ensures LocalHeader(e, now) ==
      LocalHead(e.compression, Time(e, now), Date(e, now)) + Sizes(e) + [B0(|e.name|), B1(|e.name|)] + [0, 0]
  {
    hide LocalHead, Sizes, Time, Date, B0, B1;
  }

  method PutCentralHead(a: array<byte>, v: nat, c: nat, t: nat, d: nat)
    requires a.Length >= 16
    modifies a
    ensures a[..16] == CentralHead(v, c, t, d)
  {
    Bytes4(CENTRAL_SIGNATURE);
    Bytes4(20);
    Bytes4(0);
    hide B0, B1, B2, B3;
    Put32(a, CENTRAL_SIGNATURE, 0);
    Put16(a, v, 4);
    Put16(a, 20, 6);
    Put16(a, 0, 8);
    assert a[..10] == [0x50, 0x4b, 1, 2, B0(v), B1(v), 20, 0, 0, 0];
    Put16(a, c, 10);
    Put16(a, t, 12);
    Put16(a, d, 14);
  }

  method PutCentralTail(a: array<byte>, n: nat, x: nat, offset: nat)
    requires a.Length >= 46
    modifies a
    ensures a[..46] == old(a[..28]) + CentralTail(n, x, offset)
  {
    Bytes4(0);
    hide B0, B1, B2, B3;
    Put16(a, n, 28);
    Put16(a, 0, 30);
    Put16(a, 0, 32);
    Put16(a, 0, 34);
    Put16(a, 0, 36);
    assert a[..38] == old(a[..28]) + [B0(n), B1(n), 0, 0, 0, 0, 0, 0, 0, 0];
    Put32(a, x, 38);
    Put32(a, offset, 42);
  }

  method CentralRecord(e: Entry, now: Stamp, offset: nat) returns (cd: array<byte>)
    requires Fits(e, now)
    ensures fresh(cd) && cd[..] == CentralHeader(e, now, offset) + e.name
  {
    hide CentralHead, Sizes, CentralTail, Time, Date, Version;
    cd := new byte[46 + |e.name|];
    PutCentralHead(cd, Version(e), e.compression, Time(e, now), Date(e, now));
    PutSizes(cd, e, 16);
    PutCentralTail(cd, |e.name|, e.extAttr, offset);
    CopyName(cd, e.name, 46);
  }

  method EndOf(count: nat, size: nat, offset: nat) returns (end: array<byte>)
    ensures fresh(end) && end[..] == EndRecord(count, size, offset)
  {
    Bytes4(END_SIGNATURE);
    Bytes4(0);
    hide B0, B1, B2, B3;
    end := new byte[22];
    Put32(end, END_SIGNATURE, 0);
    Put16(end, 0, 4);
    Put16(end, 0, 6);
    assert end[..8] == [0x50, 0x4b, 5, 6, 0, 0, 0, 0];
    Put16(end, count, 8);
    Put16(end, count, 10);
    assert end[..12] == [0x50, 0x4b, 5, 6, 0, 0, 0, 0, B0(count), B1(count), B0(count), B1(count)];
    Put32(end, size, 12);
    Put32(end, offset, 16);
    Put16(end, 0, 20);
    assert end[..22] == end[..];
  }

  // -------------------------------------------------------------- the writer

  lemma {:induction false} LocalsSnoc(es: seq<Entry>, e: Entry, now: Stamp)
    requires AllFit(es, now) && Fits(e, now)
    ensures AllFit(es + [e], now)
    ensures Locals(es + [e], now) == Locals(es, now) + (LocalHeader(e, now) + e.name + e.raw)
    ensures LocalsSize(es + [e]) == LocalsSize(es) + LocalSize(e)
    decreases |es|
  {
    hide LocalHeader, Fits;
    var all := es + [e];
    if |es| == 0 {
      assert all[1..] == [];
    } else {
      assert all[1..] == es[1..] + [e];
      LocalsSnoc(es[1..], e, now);
    }
  }

  lemma {:induction false} CentralsSnoc(es: seq<Entry>, e: Entry, now: Stamp, offset: nat)
    requires AllFit(es, now) && Fits(e, now)
    ensures AllFit(es + [e], now)
    ensures Centrals(es + [e], now, offset)
      == Centrals(es, now, offset) + (CentralHeader(e, now, offset + LocalsSize(es)) + e.name)
    decreases |es|
  {
    hide CentralHeader, Fits;
    var all := es + [e];
    if |es| == 0 {
      assert all[1..] == [];
    } else {
      assert all[1..] == es[1..] + [e];
      CentralsSnoc(es[1..], e, now, offset + LocalSize(es[0]));
    }
  }

  lemma {:induction false} SizesGrow(es: seq<Entry>, i: nat)
    requires i <= |es|
    ensures LocalsSize(es[..i]) <= LocalsSize(es)
    decreases i
  {
    if i > 0 {
      assert es[..i][1..] == es[1..][..i - 1];
      SizesGrow(es[1..], i - 1);
    }
  }

  /** The archive, or None where a number does not fit the field it is written to. */
  method WriteZip(es: seq<Entry>, now: Stamp) returns (r: Option<Bytes>)
    ensures r.Some? <==> Writable(es, now)
    ensures r.Some? ==> r.value == Archive(es, now)
  {
    hide LocalHeader, CentralHeader, EndRecord, Fits, Locals, Centrals, LocalsSize, CentralsSize;
    var locals: Bytes := [];
    var centrals: Bytes := [];
    var offset := 0;
    var i := 0;
    EmptyParts(now);
    assert es[..0] == [];
    while i < |es|
      invariant 0 <= i <= |es|
      invariant AllFit(es[..i], now)
      invariant locals == Locals(es[..i], now) && centrals == Centrals(es[..i], now, 0)
      invariant offset == LocalsSize(es[..i])
    {
      var e := es[i];
      if !Fits(e, now) { return None; }
      if offset >= U32 {
        SizesGrow(es, i);
        return None;
      }
      var lh := LocalRecord(e, now);
      var cd := CentralRecord(e, now, offset);
      LocalsSnoc(es[..i], e, now);
      CentralsSnoc(es[..i], e, now, 0);
      assert es[..i + 1] == es[..i] + [e];
      locals := locals + (lh[..] + e.raw);
      centrals := centrals + cd[..];
      offset := offset + lh.Length + |e.raw|;
      i := i + 1;
    }
    assert es[..i] == es;
    if |es| >= U16 || |centrals| >= U32 || offset >= U32 { return None; }
    var end := EndOf(|es|, |centrals|, offset);
    return Some(locals + centrals + end[..]);
  }

  lemma EmptyParts(now: Stamp)
    ensures AllFit([], now) && Locals([], now) == [] && Centrals([], now, 0) == [] && LocalsSize([]) == 0
  {
  }

  // -------------------------------------------------------------- the reader

  function Prepend(es: seq<Entry>, r: Option<seq<Entry>>): Option<seq<Entry>> {
    if r.None? then None else Some(es + r.value)
  }

  method SearchEnd(b: Bytes) returns (end: int)
    ensures end == (var r := FindEnd(b, |b| - 22); if r.Some? then r.value else -1)
  {
    var low := if |b| - 65558 > 0 then |b| - 65558 else 0;
    var i := |b| - 22;
    end := -1;
    while i >= low
      invariant i <= |b| - 22 && end == -1
      invariant FindEnd(b, |b| - 22) == FindEnd(b, i)
      decreases i
    {
      if Get32(b, i) == END_SIGNATURE { return i; }
      i := i - 1;
    }
  }

  /** The entries of an archive, or None where the script throws. */
  method ReadZip(b: Bytes) returns (r: Option<seq<Entry>>)
    ensures r == Read(b)
  {
    hide FindEnd, Get16, Get32, ReadEntry;
    var end := SearchEnd(b);
    if end < 0 { return None; }
    var count, pos := Get16(b, end + 10), Get32(b, end + 16);
    var es: seq<Entry> := [];
    var i := 0;
    ghost var whole := ReadEntries(b, pos, count);
    assert whole.Some? ==> [] + whole.value == whole.value;
    while i < count
      invariant 0 <= i <= count
      invariant whole == Prepend(es, ReadEntries(b, pos, count - i))
    {
      var e := ReadEntry(b, pos);
      if e.None? { return None; }
      EntryInside(b, pos);
      var next := NextPos(b, pos);
      ReadMore(b, pos, count - i, es);
      es := es + [e.value];
      pos := next;
      i := i + 1;
    }
    assert ReadEntries(b, pos, 0) == Some([]) && es + [] == es;
    return Some(es);
  }

  lemma EntryInside(b: Bytes, pos: nat)
    requires ReadEntry(b, pos).Some?
    ensures pos + 46 <= |b|
  {
  }

  lemma ReadMore(b: Bytes, pos: nat, count: nat, es: seq<Entry>)
    requires count > 0 && pos + 46 <= |b| && ReadEntry(b, pos).Some?
    ensures Prepend(es, ReadEntries(b, pos, count))
      == Prepend(es + [ReadEntry(b, pos).value], ReadEntries(b, NextPos(b, pos), count - 1))
  {
    hide ReadEntry, NextPos;
    var rest := ReadEntries(b, NextPos(b, pos), count - 1);
    if rest.Some? {
      var e := ReadEntry(b, pos).value;
      assert es + ([e] + rest.value) == es + [e] + rest.value;
    }
  }

  /** A package written and read again by the scripts: the same entries whenever the sizes are the true ones. */
  method Repack(es: seq<Entry>, now: Stamp) returns (r: Option<seq<Entry>>)
    requires Writable(es, now)
    ensures r == Some(Normals(es, now)) <==> SizesHold(es)
  {
    hide Read, Archive, Normals;
    var b := WriteZip(es, now);
    r := ReadZip(b.value);
    RoundTripIff(es, now);
  }
}
