/**
 The WebSocket frames of the HidraChat server (section 5.2 of RFC 6455): the
 parser that works on whatever a TCP read brought, the encoder, and the two
 loops that take frames off the receive buffer.
 */
module Frames {
  import opened ByteStrings

  const MAX_FRAME_PAYLOAD: nat := 65536

  // ------------------------------------------------------------------ bytes

  /** Exclusive or of the low `k` bits. */
  function XorLow(a: nat, b: nat, k: nat): (x: nat)
    ensures x < Pow2(k)
  {
    if k == 0 then 0 else (if a % 2 == b % 2 then 0 else 1) + 2 * XorLow(a / 2, b / 2, k - 1)
  }

  function Pow2(k: nat): nat { if k == 0 then 1 else 2 * Pow2(k - 1) }

  function Xor(a: byte, b: byte): byte {
    assert Pow2(8) == 256;
    XorLow(a, b, 8)
  }

  lemma HalveSum(bit: nat, high: nat)
    requires bit < 2
    ensures (bit + 2 * high) % 2 == bit && (bit + 2 * high) / 2 == high
  {
  }

  lemma {:induction false} XorLowTwice(a: nat, b: nat, k: nat)
    requires a < Pow2(k)
    ensures XorLow(XorLow(a, b, k), b, k) == a
  {
    if k > 0 {
      XorLowTwice(a / 2, b / 2, k - 1);
      var high := XorLow(a / 2, b / 2, k - 1);
      HalveSum(if a % 2 == b % 2 then 0 else 1, high);
    }
  }

  /** Bit j of a number, the lowest being bit 0. */
  function Bit(n: nat, j: nat): nat {
    if j == 0 then n % 2 else Bit(n / 2, j - 1)
  }

  lemma {:induction false} XorLowBit(a: nat, b: nat, k: nat, j: nat)
    requires j < k
    ensures Bit(XorLow(a, b, k), j) == 1 <==> Bit(a, j) != Bit(b, j)
  {
    var high := XorLow(a / 2, b / 2, k - 1);
    HalveSum(if a % 2 == b % 2 then 0 else 1, high);
    if j > 0 { XorLowBit(a / 2, b / 2, k - 1, j - 1); }
  }

  /** It is the exclusive or: a bit is set exactly where the two differ. */
  lemma XorBit(a: byte, b: byte, j: nat)
    requires j < 8
    ensures Bit(Xor(a, b), j) == 1 <==> Bit(a, j) != Bit(b, j)
  {
    XorLowBit(a, b, 8, j);
  }

  lemma XorTwice(a: byte, b: byte)
    ensures Xor(Xor(a, b), b) == a
  {
    assert Pow2(8) == 256;
    XorLowTwice(a, b, 8);
  }

  // ------------------------------------------------------- the wire grammar

  /** The three ways the RFC writes a payload length. */
  datatype LengthForm = Short | Medium | Long

  datatype Mask = Unmasked | Masked(key: Bytes)

  predicate MaskOk(m: Mask) { m.Masked? ==> |m.key| == 4 }

  predicate Fits(form: LengthForm, n: nat) {
    match form
    case Short => n < 126
    case Medium => n < Pow256(2)
    case Long => n < Pow256(8)
  }

  /** The first two bytes of a frame and its extended length. */
  function Header(b0: byte, form: LengthForm, masked: bool, n: nat): Bytes
    requires Fits(form, n)
  {
    var bit := if masked then 128 else 0;
    match form
    case Short => [b0, bit + n]
    case Medium => [b0, bit + 126] + ToBigEndian(n, 2)
    case Long => [b0, bit + 127] + ToBigEndian(n, 8)
  }

  function KeyBytes(m: Mask): Bytes { if m.Masked? then m.key else [] }

  /** The payload under a mask; applying a mask twice gives the payload back. */
  function Scramble(p: Bytes, m: Mask): (q: Bytes)
    requires MaskOk(m)
    ensures |q| == |p|
  {
    if m.Masked? then seq(|p|, i requires 0 <= i < |p| => Xor(p[i], m.key[i % 4])) else p
  }

  lemma UnmaskedIsItself(p: Bytes)
    ensures Scramble(p, Unmasked) == p
  {
  }

  lemma ScrambleTwice(p: Bytes, m: Mask)
    requires MaskOk(m)
    ensures Scramble(Scramble(p, m), m) == p
  {
    if m.Masked? {
      forall i | 0 <= i < |p| ensures Scramble(Scramble(p, m), m)[i] == p[i] {
        XorTwice(p[i], m.key[i % 4]);
      }
    }
  }

  /** A whole frame as bytes, in any of the forms a peer may choose. */
  function Wire(b0: byte, form: LengthForm, m: Mask, payload: Bytes): Bytes
    requires Fits(form, |payload|) && MaskOk(m)
  {
    Header(b0, form, m.Masked?, |payload|) + KeyBytes(m) + Scramble(payload, m)
  }

  // -------------------------------------------------------------- the parser

  datatype Frame = Incomplete | TooLarge | Ready(opcode: byte, payload: Bytes, consumed: nat)

  /** How many bytes the length takes up, with the two before it. */
  function LengthEnd(b1: byte): nat {
    if Low7(b1) == 126 then 4 else if Low7(b1) == 127 then 10 else 2
  }

  /** A byte without its top bit. */
  function Low7(b: byte): nat { if b >= 128 then b - 128 else b }

  function AnnouncedLength(buf: Bytes): nat
    requires |buf| >= 2 && |buf| >= LengthEnd(buf[1])
  {
    if LengthEnd(buf[1]) == 2 then Low7(buf[1]) else BigEndian(buf[2..LengthEnd(buf[1])])
  }

  /** What try_parse_frame answers. */
  function ParseFrame(buf: Bytes): (f: Frame)
    ensures f.Ready? ==> 2 <= f.consumed <= |buf| && f.opcode < 16 && |f.payload| <= MAX_FRAME_PAYLOAD
  {
    if |buf| < 2 || |buf| < LengthEnd(buf[1]) then Incomplete
    else
      var n := AnnouncedLength(buf);
      if n > MAX_FRAME_PAYLOAD then TooLarge
      else
        var masked := buf[1] >= 128;
        var start := LengthEnd(buf[1]) + if masked then 4 else 0;
        if |buf| < start + n then Incomplete
        else
          var m := if masked then Masked(buf[start - 4..start]) else Unmasked;
          Ready(buf[0] % 16, Scramble(buf[start..start + n], m), start + n)
  }

  /** try_parse_frame, with the payload copied out and unmasked in place. */
  method TryParseFrame(buf: Bytes) returns (f: Frame)
    ensures f == ParseFrame(buf)
  {
    hide BigEndian, Scramble;
    if |buf| < 2 {
      return Incomplete;
    }
    var opcode: byte := buf[0] % 16;
    var masked := buf[1] >= 128;
    var payloadLen := Low7(buf[1]);
    var offset := 2;
    if payloadLen == 126 {
      if |buf| < 4 {
        return Incomplete;
      }
      payloadLen := BigEndian(buf[2..4]);
      offset := 4;
    } else if payloadLen == 127 {
      if |buf| < 10 {
        return Incomplete;
      }
      payloadLen := BigEndian(buf[2..10]);
      offset := 10;
    }
    if payloadLen > MAX_FRAME_PAYLOAD {
      return TooLarge;
    }
    var maskLen := if masked then 4 else 0;
    var total := offset + maskLen + payloadLen;
    if |buf| < total {
      return Incomplete;
    }
    var payload := buf[offset + maskLen..total];
    UnmaskedIsItself(payload);
    if masked {
      payload := Unmask(payload, buf[offset..offset + 4]);
    }
    f := Ready(opcode, payload, total);
  }

  /** The payload unmasked in place, byte by byte. */
  method Unmask(raw: Bytes, mask: Bytes) returns (payload: Bytes)
    requires |mask| == 4
    ensures payload == Scramble(raw, Masked(mask))
    ensures |payload| == |raw|
    ensures forall i, j :: 0 <= i < |raw| && 0 <= j < 8 ==>
      (Bit(payload[i], j) == 1 <==> Bit(raw[i], j) != Bit(mask[i % 4], j))
  {
    hide Xor;
    var bytes := new byte[|raw|](i requires 0 <= i < |raw| => raw[i]);
    for i := 0 to |raw|
      invariant forall k :: 0 <= k < i ==> bytes[k] == Xor(raw[k], mask[k % 4])
      invariant forall k :: i <= k < |raw| ==> bytes[k] == raw[k]
    {
      bytes[i] := Xor(bytes[i], mask[i % 4]);
    }
    payload := bytes[..];
    forall i, j | 0 <= i < |raw| && 0 <= j < 8
      ensures Bit(payload[i], j) == 1 <==> Bit(raw[i], j) != Bit(mask[i % 4], j)
    {
      XorBit(raw[i], mask[i % 4], j);
    }
  }

  /** encode_frame: the server's own frames are unmasked, in the shortest form. */
  function EncodeFrame(opcode: byte, data: Bytes): Bytes
    requires |data| < Pow256(8)
  {
    var b0: byte := if opcode >= 128 then opcode else opcode + 128;
    if |data| < 126 then [b0, |data|] + data
    else if |data| <= 65535 then [b0, 126] + ToBigEndian(|data|, 2) + data
    else [b0, 127] + ToBigEndian(|data|, 8) + data
  }

  // ------------------------------------------------- parser against grammar

  lemma HeaderReads(b0: byte, form: LengthForm, masked: bool, n: nat, more: Bytes)
    requires Fits(form, n)
    ensures var buf := Header(b0, form, masked, n) + more;
      && |buf| >= 2 && buf[0] == b0 && (buf[1] >= 128 <==> masked)
      && LengthEnd(buf[1]) == |Header(b0, form, masked, n)|
      && AnnouncedLength(buf) == n
  {
    var h := Header(b0, form, masked, n);
    match form
    case Short =>
    case Medium =>
      BigEndianRoundTrip(n, 2);
      assert (h + more)[2..4] == ToBigEndian(n, 2);
    case Long =>
      BigEndianRoundTrip(n, 8);
      assert (h + more)[2..10] == ToBigEndian(n, 8);
  }

  /** Where the payload starts. */
  function PayloadStart(b1: byte): nat { LengthEnd(b1) + if b1 >= 128 then 4 else 0 }

  /** The parser's answer once the header is known and the payload is there. */
  lemma ParseGiven(buf: Bytes, n: nat, m: Mask)
    requires |buf| >= 2 && |buf| >= LengthEnd(buf[1]) && AnnouncedLength(buf) == n <= MAX_FRAME_PAYLOAD
    requires |buf| >= PayloadStart(buf[1]) + n && MaskOk(m) && (m.Masked? <==> buf[1] >= 128)
    requires buf[LengthEnd(buf[1])..PayloadStart(buf[1])] == KeyBytes(m)
    ensures var start := PayloadStart(buf[1]);
      ParseFrame(buf) == Ready(buf[0] % 16, Scramble(buf[start..start + n], m), start + n)
  {
  }

  /** Every frame a peer can write within the limit is read back exactly, whatever follows it. */
  lemma WireIsParsed(b0: byte, form: LengthForm, m: Mask, payload: Bytes, rest: Bytes)
    requires Fits(form, |payload|) && MaskOk(m) && |payload| <= MAX_FRAME_PAYLOAD
    ensures ParseFrame(Wire(b0, form, m, payload) + rest)
         == Ready(b0 % 16, payload, |Wire(b0, form, m, payload)|)
  {
    hide Scramble, Header, BigEndian, ParseFrame, Pow256;
    var h, k, q := Header(b0, form, m.Masked?, |payload|), KeyBytes(m), Scramble(payload, m);
    var buf := h + (k + q + rest);
    assert Wire(b0, form, m, payload) + rest == buf;
    HeaderReads(b0, form, m.Masked?, |payload|, k + q + rest);
    assert buf[|h|..|h| + |k|] == k;
    assert buf[|h| + |k|..|h| + |k| + |q|] == q;
    ParseGiven(buf, |payload|, m);
    ScrambleTwice(payload, m);
  }

  /** Conversely, a frame the parser reports was written that way at the front of the buffer. */
  lemma ReadyIsWire(buf: Bytes) returns (form: LengthForm, m: Mask)
    requires ParseFrame(buf).Ready?
    ensures var f := ParseFrame(buf);
      && Fits(form, |f.payload|) && MaskOk(m)
      && f.opcode == buf[0] % 16
      && buf[..f.consumed] == Wire(buf[0], form, m, f.payload)
  {
    hide Scramble, BigEndian, ToBigEndian, Pow256;
    var f := ParseFrame(buf);
    var e, start := LengthEnd(buf[1]), PayloadStart(buf[1]);
    m := if buf[1] >= 128 then Masked(buf[e..start]) else Unmasked;
    form := HeaderIsWritten(buf);
    ParseGiven(buf, AnnouncedLength(buf), m);
    ScrambleTwice(buf[start..f.consumed], m);
    assert buf[..f.consumed] == buf[..e] + buf[e..start] + buf[start..f.consumed];
  }

  lemma HeaderIsWritten(buf: Bytes) returns (form: LengthForm)
    requires |buf| >= 2 && |buf| >= LengthEnd(buf[1])
    ensures Fits(form, AnnouncedLength(buf))
    ensures buf[..LengthEnd(buf[1])] == Header(buf[0], form, buf[1] >= 128, AnnouncedLength(buf))
  {
    var e := LengthEnd(buf[1]);
    form := if e == 4 then Medium else if e == 10 then Long else Short;
    BigEndianBack(buf[2..e]);
    assert buf[..e] == [buf[0], buf[1]] + buf[2..e];
  }

  /** A frame cut short anywhere, within the limit, is waited for. */
  lemma PrefixIsIncomplete(b0: byte, form: LengthForm, m: Mask, payload: Bytes, k: nat)
    requires Fits(form, |payload|) && MaskOk(m) && |payload| <= MAX_FRAME_PAYLOAD
    requires k < |Wire(b0, form, m, payload)|
    ensures ParseFrame(Wire(b0, form, m, payload)[..k]).Incomplete?
  {
    hide ParseFrame, Wire;
    var w := Wire(b0, form, m, payload);
    var buf := w[..k];
    match ParseFrame(buf)
    case Incomplete =>
    case Ready(_, _, n) =>
      ReadyStays(buf, w[k..]);
      assert buf + w[k..] == w && w + [] == w;
      WireIsParsed(b0, form, m, payload, []);
    case TooLarge =>
      TooLargeStays(buf, w[k..]);
      assert buf + w[k..] == w && w + [] == w;
      WireIsParsed(b0, form, m, payload, []);
  }

  /** A header announcing more than the limit is refused as soon as it is whole, and not before. */
  lemma OverLimitHeader(b0: byte, form: LengthForm, masked: bool, n: nat, more: Bytes, k: nat)
    requires Fits(form, n) && n > MAX_FRAME_PAYLOAD && k < |Header(b0, form, masked, n)|
    ensures ParseFrame(Header(b0, form, masked, n) + more).TooLarge?
    ensures ParseFrame(Header(b0, form, masked, n)[..k]).Incomplete?
  {
    HeaderReads(b0, form, masked, n, more);
  }

  /**
   What the server sends is whole in one frame, says which kind it is, is not masked, and
   has the shortest header.
   */
  lemma EncodeIsFinal(opcode: byte, data: Bytes)
    requires opcode < 16 && |data| <= MAX_FRAME_PAYLOAD
    ensures Pow256(8) > MAX_FRAME_PAYLOAD
    ensures |EncodeFrame(opcode, data)| >= 2 && EncodeFrame(opcode, data)[0] == 128 + opcode
    ensures EncodeFrame(opcode, data)[1] < 128
    ensures |EncodeFrame(opcode, data)| == |data| + if |data| < 126 then 2 else if |data| < 65536 then 4 else 10
  {
    assert Pow256(2) == 65536 && Pow256(8) == 0x1_0000_0000_0000_0000;
    hide ToBigEndian;
  }

  /** What the server sends, any client parser of this grammar reads back. */
  lemma EncodeIsParsed(opcode: byte, data: Bytes, rest: Bytes)
    requires opcode < 16 && |data| <= MAX_FRAME_PAYLOAD
    ensures Pow256(8) > MAX_FRAME_PAYLOAD
    ensures ParseFrame(EncodeFrame(opcode, data) + rest) == Ready(opcode, data, |EncodeFrame(opcode, data)|)
  {
    hide ParseFrame, ToBigEndian;
    assert Pow256(2) == 65536 && Pow256(8) == 0x1_0000_0000_0000_0000;
    var form := if |data| < 126 then Short else if |data| <= 65535 then Medium else Long;
    assert EncodeFrame(opcode, data) == Wire(128 + opcode, form, Unmasked, data);
    WireIsParsed(128 + opcode, form, Unmasked, data, rest);
  }

  // ------------------------------------------------- more bytes never unsay

  lemma SliceOfAppend(buf: Bytes, more: Bytes, i: nat, j: nat)
    requires i <= j <= |buf|
    ensures (buf + more)[i..j] == buf[i..j]
  {
  }

  lemma HeaderStays(buf: Bytes, more: Bytes)
    requires |buf| >= 2 && |buf| >= LengthEnd(buf[1])
    ensures AnnouncedLength(buf + more) == AnnouncedLength(buf)
  {
    SliceOfAppend(buf, more, 2, LengthEnd(buf[1]));
  }

  lemma ReadyStays(buf: Bytes, more: Bytes)
    requires ParseFrame(buf).Ready?
    ensures ParseFrame(buf + more) == ParseFrame(buf)
  {
    hide Scramble, BigEndian;
    HeaderStays(buf, more);
    var e, start, n := LengthEnd(buf[1]), PayloadStart(buf[1]), ParseFrame(buf).consumed;
    SliceOfAppend(buf, more, start, n);
    SliceOfAppend(buf, more, e, start);
  }

  lemma TooLargeStays(buf: Bytes, more: Bytes)
    requires ParseFrame(buf).TooLarge?
    ensures ParseFrame(buf + more).TooLarge?
  {
    HeaderStays(buf, more);
  }

  // ---------------------------------------------------- the batch of frames

  datatype Message = Message(opcode: byte, payload: Bytes)

  /** The frames of a whole stream, what is left, and whether that begins with an over-limit header. */
  datatype Parse = Parse(frames: seq<Message>, rest: Bytes, tooLarge: bool)

  function ParseAll(stream: Bytes): Parse
    decreases |stream|
  {
    match ParseFrame(stream)
    case Incomplete => Parse([], stream, false)
    case TooLarge => Parse([], stream, true)
    case Ready(op, p, n) =>
      After([Message(op, p)], ParseAll(stream[n..]))
  }

  /** A parse with frames already seen put in front of it. */
  function After(seen: seq<Message>, t: Parse): Parse {
    Parse(seen + t.frames, t.rest, t.tooLarge)
  }

  /** Parsing in two goes is parsing at once, up to the first over-limit header. */
  lemma {:induction false} ParseAllSplit(a: Bytes, b: Bytes)
    ensures ParseAll(a + b) == Resumed(ParseAll(a), ParseAll(ParseAll(a).rest + b), b)
    decreases |a|
  {
    hide ParseFrame;
    match ParseFrame(a)
    case Incomplete =>
      assert Resumed(Parse([], a, false), ParseAll(a + b), b) == ParseAll(a + b);
    case TooLarge =>
      TooLargeStays(a, b);
    case Ready(op, p, n) =>
      ReadyStays(a, b);
      ParseAllSplit(a[n..], b);
      assert (a + b)[n..] == a[n..] + b;
      var t := ParseAll(a[n..]);
      ResumedAfter([Message(op, p)], t, ParseAll(t.rest + b), b);
  }

  /** More bytes only ever add frames at the end. */
  lemma ParseGrows(a: Bytes, b: Bytes)
    ensures ParseAll(a).frames <= ParseAll(a + b).frames
  {
    hide ParseAll;
    ParseAllSplit(a, b);
  }

  /** What is left waits for the end of one frame within the limit, so it stays small. */
  lemma {:induction false} RestIsSmall(stream: Bytes)
    requires !ParseAll(stream).tooLarge
    ensures ParseFrame(ParseAll(stream).rest).Incomplete?
    ensures |ParseAll(stream).rest| < MAX_FRAME_PAYLOAD + 14
    decreases |stream|
  {
    match ParseFrame(stream)
    case Incomplete =>
    case Ready(_, _, n) => RestIsSmall(stream[n..]);
  }

  /** The frames of `stream` are those already taken off, then those still in the buffer. */
  ghost predicate Accounts(stream: Bytes, seen: seq<Message>, buf: Bytes) {
    ParseAll(stream) == After(seen, ParseAll(buf))
  }

  lemma AfterAfter(seen: seq<Message>, more: seq<Message>, t: Parse)
    ensures After(seen, After(more, t)) == After(seen + more, t)
  {
    assert seen + (more + t.frames) == seen + more + t.frames;
  }

  lemma AccountsAtFirst(stream: Bytes)
    ensures Accounts(stream, [], stream)
  {
    assert [] + ParseAll(stream).frames == ParseAll(stream).frames;
  }

  lemma AccountsTake(stream: Bytes, seen: seq<Message>, buf: Bytes)
    requires Accounts(stream, seen, buf) && ParseFrame(buf).Ready?
    ensures var f := ParseFrame(buf); Accounts(stream, seen + [Message(f.opcode, f.payload)], buf[f.consumed..])
  {
    var f := ParseFrame(buf);
    AfterAfter(seen, [Message(f.opcode, f.payload)], ParseAll(buf[f.consumed..]));
  }

  lemma AccountsTakeAll(stream: Bytes, seen: seq<Message>, buf: Bytes)
    requires Accounts(stream, seen, buf)
    ensures Accounts(stream, seen + ParseAll(buf).frames, ParseAll(buf).rest)
  {
    ParseRestAgain(buf);
    assert seen + ParseAll(buf).frames + [] == seen + ParseAll(buf).frames;
  }

  /** The parse of `a + b` when `a` parsed to `t` and what it left, with `b`, to `u`. */
  function Resumed(t: Parse, u: Parse, b: Bytes): Parse {
    if t.tooLarge then Parse(t.frames, t.rest + b, true) else Parse(t.frames + u.frames, u.rest, u.tooLarge)
  }

  /** Bookkeeping only: nothing here depends on what a parse is. */
  lemma ResumedAfter(seen: seq<Message>, t: Parse, u: Parse, b: Bytes)
    ensures Resumed(After(seen, t), u, b) == After(seen, Resumed(t, u, b))
  {
    assert seen + t.frames + u.frames == seen + (t.frames + u.frames);
  }

  lemma AccountsFeed(stream: Bytes, seen: seq<Message>, buf: Bytes, chunk: Bytes)
    requires Accounts(stream, seen, buf)
    ensures Accounts(stream + chunk, seen, buf + chunk)
  {
    var t := ParseAll(buf);
    ParseAllSplit(stream, chunk);
    ParseAllSplit(buf, chunk);
    ResumedAfter(seen, t, ParseAll(t.rest + chunk), chunk);
  }

  lemma {:induction false} ParseRestAgain(stream: Bytes)
    ensures var t := ParseAll(stream); ParseAll(t.rest) == Parse([], t.rest, t.tooLarge)
    decreases |stream|
  {
    match ParseFrame(stream)
    case Incomplete =>
    case TooLarge =>
    case Ready(_, _, n) => ParseRestAgain(stream[n..]);
  }

  lemma ConcatNext(chunks: seq<Bytes>, i: nat)
    requires i < |chunks|
    ensures Concat(chunks[..i + 1]) == Concat(chunks[..i]) + chunks[i]
  {
    assert chunks[..i + 1][..i] == chunks[..i];
  }

  // ------------------------------------------------------------ the session

  /** The scan of take_frames: the complete frames at the front and where they end. */
  method ScanFrames(buf: Bytes) returns (frames: seq<Message>, pos: nat, tooLarge: bool)
    ensures pos <= |buf| && Parse(frames, buf[pos..], tooLarge) == ParseAll(buf)
  {
    frames, pos, tooLarge := [], 0, false;
    AccountsAtFirst(buf);
    assert buf[0..] == buf;
    while true
      invariant pos <= |buf| && Accounts(buf, frames, buf[pos..])
      decreases |buf| - pos
    {
      var rest := buf[pos..];
      var f := TryParseFrame(rest);
      match f {
        case Incomplete => break;
        case TooLarge => tooLarge := true; break;
        case Ready(op, p, n) =>
          AccountsTake(buf, frames, rest);
          assert rest[n..] == buf[pos + n..];
          pos := pos + n;
          frames := frames + [Message(op, p)];
      }
    }
    assert ParseAll(buf[pos..]) == Parse([], buf[pos..], tooLarge);
    assert frames + [] == frames;
  }

  lemma TooLargeAtOnce(buf: Bytes)
    requires ParseFrame(buf).TooLarge?
    ensures ParseAll(buf).tooLarge
  {
    hide ParseFrame;
  }

  /** A close frame is among them. */
  predicate HasClose(ms: seq<Message>) { exists i :: 0 <= i < |ms| && ms[i].opcode == 8 }

  lemma ClosePersists(a: seq<Message>, b: seq<Message>, c: seq<Message>)
    requires HasClose(b)
    ensures HasClose(a + b + c)
  {
    var i :| 0 <= i < |b| && b[i].opcode == 8;
    assert (a + b + c)[|a| + i].opcode == 8;
  }

  /** How read_join ended. */
  datatype JoinOutcome = Joined | Ended

  /** The receive side of one connection: the bytes read and not yet taken off as frames. */
  class Connection {
    var wsBuf: Bytes

    constructor (leftover: Bytes)
      ensures wsBuf == leftover
    {
      wsBuf := leftover;
    }

    /** take_frames: every complete frame at the front, taken off the buffer in one move. */
    method TakeFrames() returns (frames: seq<Message>, tooLarge: bool)
      modifies this
      ensures Parse(frames, wsBuf, tooLarge) == ParseAll(old(wsBuf))
    {
      var pos;
      frames, pos, tooLarge := ScanFrames(wsBuf);
      wsBuf := wsBuf[pos..];
    }

    /** One read of the main loop: append what came, take the frames off. */
    method TakeRead(chunk: Bytes, ghost stream: Bytes, ghost seen: seq<Message>)
      returns (frames: seq<Message>, overLimit: bool)
      requires Accounts(stream, seen, wsBuf)
      modifies this
      ensures Accounts(stream + chunk, seen + frames, wsBuf)
      ensures ParseAll(wsBuf) == Parse([], wsBuf, overLimit)
      ensures !overLimit ==> |wsBuf| < MAX_FRAME_PAYLOAD + 14
    {
      AccountsFeed(stream, seen, wsBuf, chunk);
      wsBuf := wsBuf + chunk;
      AccountsTakeAll(stream + chunk, seen, wsBuf);
      ParseRestAgain(wsBuf);
      if !ParseAll(wsBuf).tooLarge {
        RestIsSmall(wsBuf);
      }
      frames, overLimit := TakeFrames();
    }

    /**
     read_join: one frame at a time, so that what came with the join stays in
     the buffer. `chunks` is what the socket will bring; its end is the end of
     the connection. `isJoin` says which text frames are a join request.
     */
    method ReadJoin(chunks: seq<Bytes>, isJoin: Message -> bool)
      returns (outcome: JoinOutcome, seen: seq<Message>, used: nat)
      modifies this
      ensures used <= |chunks|
      ensures Accounts(old(wsBuf) + Concat(chunks[..used]), seen, wsBuf)
      ensures outcome.Joined? ==> seen != [] && seen[|seen| - 1].opcode == 1 && isJoin(seen[|seen| - 1])
      ensures forall i :: 0 <= i < |seen| - 1 ==> !(seen[i].opcode == 1 && isJoin(seen[i])) && seen[i].opcode != 8
      ensures outcome.Ended? ==>
        (seen != [] && seen[|seen| - 1].opcode == 8) || ParseFrame(wsBuf).TooLarge?
        || (used == |chunks| && ParseFrame(wsBuf).Incomplete?)
    {
      hide ParseAll, ParseFrame, Accounts;
      seen, used := [], 0;
      ghost var stream := wsBuf;
      AccountsAtFirst(wsBuf);
      assert wsBuf + Concat(chunks[..0]) == wsBuf;
      while true
        invariant used <= |chunks|
        invariant stream == old(wsBuf) + Concat(chunks[..used])
        invariant Accounts(stream, seen, wsBuf)
        invariant forall i :: 0 <= i < |seen| ==> !(seen[i].opcode == 1 && isJoin(seen[i])) && seen[i].opcode != 8
        decreases |chunks| - used, |wsBuf|
      {
        var f := TryParseFrame(wsBuf);
        match f {
          case TooLarge => return Ended, seen, used;
          case Incomplete =>
            if used == |chunks| {
              return Ended, seen, used;
            }
            AccountsFeed(stream, seen, wsBuf, chunks[used]);
            ConcatNext(chunks, used);
            stream, wsBuf := stream + chunks[used], wsBuf + chunks[used];
            used := used + 1;
          case Ready(op, p, n) =>
            AccountsTake(stream, seen, wsBuf);
            wsBuf := wsBuf[n..];
            seen := seen + [Message(op, p)];
            if op == 8 {
              return Ended, seen, used;
            }
            if op == 1 && isJoin(Message(op, p)) {
              return Joined, seen, used;
            }
        }
      }
    }

    /**
     The main loop's reads, after the join: `taken` are the frames it took off
     the buffer. It stops at a close frame, at an over-limit header, or when the
     socket has no more.
     */
    method MainLoop(chunks: seq<Bytes>, ghost stream: Bytes, ghost seen: seq<Message>)
      returns (taken: seq<Message>, used: nat, overLimit: bool)
      requires Accounts(stream, seen, wsBuf)
      modifies this
      ensures used <= |chunks|
      ensures Accounts(stream + Concat(chunks[..used]), seen + taken, wsBuf)
      ensures used > 0 ==> ParseAll(wsBuf) == Parse([], wsBuf, overLimit)
      ensures used > 0 && !overLimit ==> |wsBuf| < MAX_FRAME_PAYLOAD + 14
      ensures used < |chunks| ==> (used > 0 && overLimit) || HasClose(taken)
    {
      hide ParseAll, ParseFrame, Accounts;
      taken, used, overLimit := [], 0, false;
      ghost var soFar := stream;
      assert stream + Concat(chunks[..0]) == stream && seen + taken == seen;
      while used < |chunks|
        invariant used <= |chunks| && !overLimit
        invariant soFar == stream + Concat(chunks[..used])
        invariant Accounts(soFar, seen + taken, wsBuf)
        invariant used > 0 ==> ParseAll(wsBuf) == Parse([], wsBuf, false) && |wsBuf| < MAX_FRAME_PAYLOAD + 14
      {
        var frames;
        frames, overLimit := TakeRead(chunks[used], soFar, seen + taken);
        ConcatNext(chunks, used);
        assert soFar + chunks[used] == stream + Concat(chunks[..used + 1]);
        soFar := soFar + chunks[used];
        assert seen + taken + frames == seen + (taken + frames);
        taken := taken + frames;
        used := used + 1;
        if overLimit {
          return;
        }
        if HasClose(frames) {
          ClosePersists(taken[..|taken| - |frames|], frames, []);
          assert taken == taken[..|taken| - |frames|] + frames + [];
          return;
        }
      }
    }

    /**
     A whole session on any stream and any cutting of it into reads: the
     frames read_join saw, then the frames the main loop took, then those still
     in the buffer are the frames of the stream so far, in order and complete up
     to the first over-limit header, and so the first frames of the whole stream.
     */
    method Session(chunks: seq<Bytes>, isJoin: Message -> bool)
      returns (seen: seq<Message>, taken: seq<Message>, used: nat)
      modifies this
      ensures used <= |chunks|
      ensures var whole := ParseAll(old(wsBuf) + Concat(chunks[..used]));
        && whole.frames == seen + taken + ParseAll(wsBuf).frames
        && whole.rest == ParseAll(wsBuf).rest
        && whole.tooLarge == ParseAll(wsBuf).tooLarge
      ensures seen + taken <= ParseAll(old(wsBuf) + Concat(chunks)).frames
      ensures used < |chunks| ==> ParseAll(wsBuf).tooLarge || HasClose(seen + taken)
    {
      hide ParseAll, ParseFrame, Concat;
      var outcome, n, overLimit;
      outcome, seen, used := ReadJoin(chunks, isJoin);
      taken := [];
      assert seen + [] == seen;
      if outcome.Joined? {
        taken, n, overLimit := MainLoop(chunks[used..], old(wsBuf) + Concat(chunks[..used]), seen);
        ConcatSplit(chunks, used, n);
        assert old(wsBuf) + Concat(chunks[..used]) + Concat(chunks[used..][..n])
            == old(wsBuf) + Concat(chunks[..used + n]);
        if HasClose(taken) { ClosePersists(seen, taken, []); }
        used := used + n;
      } else {
        if ParseFrame(wsBuf).TooLarge? { TooLargeAtOnce(wsBuf); }
      }
      assert seen + taken + [] == seen + taken;
      ConcatSplit(chunks, used, |chunks| - used);
      assert chunks[..|chunks|] == chunks && chunks[used..][..|chunks| - used] == chunks[used..];
      assert old(wsBuf) + Concat(chunks) == old(wsBuf) + Concat(chunks[..used]) + Concat(chunks[used..]);
      ParseGrows(old(wsBuf) + Concat(chunks[..used]), Concat(chunks[used..]));
    }
  }

  lemma {:induction false} ConcatSplit(chunks: seq<Bytes>, i: nat, n: nat)
    requires i + n <= |chunks|
    ensures Concat(chunks[..i + n]) == Concat(chunks[..i]) + Concat(chunks[i..][..n])
  {
    if n > 0 {
      ConcatSplit(chunks, i, n - 1);
      ConcatNext(chunks, i + n - 1);
      ConcatNext(chunks[i..], n - 1);
    }
  }
}
