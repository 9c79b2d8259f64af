/**
 WebSocket wire framing, server side (src/node/wsframe.js), against the frame grammar of
 RFC 6455 section 5.2.
 */
module WsFrames {
  import opened Bits
  import opened Bytes
  import opened Options
  import opened Streams

  const CONT := 0
  const TEXT := 1
  const BINARY := 2
  const CLOSE := 8
  const PING := 9
  const PONG := 10

  /** What the rest of the server sees of a frame. */
  datatype Frame = Frame(fin: bool, opcode: nat, payload: bytes)

  // ----- masking -----

  /** Mask or unmask: RFC 6455 section 5.3 uses the same operation both ways. */
  function Mask(payload: bytes, key: bytes): (r: bytes)
    requires |key| == 4
    ensures |r| == |payload|
  {
    seq(|payload|, i requires 0 <= i < |payload| => Xor(payload[i], key[i % 4]))
  }

  lemma MaskTwice(payload: bytes, key: bytes)
    requires |key| == 4
    ensures Mask(Mask(payload, key), key) == payload
  {
    forall i | 0 <= i < |payload|
      ensures Mask(Mask(payload, key), key)[i] == payload[i]
    {
      XorTwice(payload[i], key[i % 4]);
    }
  }

  // ----- decoding -----

  function LengthBytes(len7: nat): nat {
    if len7 == 126 then 2 else if len7 == 127 then 8 else 0
  }

  /** The payload length a header announces; the top four bytes of the 64-bit form are not read. */
  function PayloadLength(buf: bytes): nat
    requires |buf| >= 2 && |buf| >= 2 + LengthBytes(buf[1] % 128)
  {
    var len7 := buf[1] % 128;
    if len7 == 126 then U16(buf[2], buf[3])
    else if len7 == 127 then U32(buf[6], buf[7], buf[8], buf[9])
    else len7
  }

  /** The payload at `at`, behind its masking key if there is one, and where it ends. */
  function OpenBody(buf: bytes, at: nat, masked: bool, plen: nat): Option<(bytes, nat)> {
    var start := if masked then at + 4 else at;
    if |buf| < start + plen then None else
    var body := buf[start..start + plen];
    Some((if masked then Mask(body, buf[at..at + 4]) else body, start + plen))
  }

  /** One frame off the front of the buffer, as the flat specification `DecodeFrame` meets. */
  function Decode(buf: bytes): Cut<Frame> {
    if |buf| < 2 || |buf| < 2 + LengthBytes(buf[1] % 128) then Need else
    match OpenBody(buf, 2 + LengthBytes(buf[1] % 128), buf[1] / 128 == 1, PayloadLength(buf))
    case None => Need
    case Some((payload, end)) => Got(Frame(buf[0] / 128 == 1, buf[0] % 16, payload), end)
  }

  /**
   A payload behind a masking key is, byte for byte, the exclusive or of what stands on the wire and the key
   byte whose turn it is (RFC 6455 section 5.3); without a key it is what stands on the wire.
   */
  lemma DecodedBytes(buf: bytes)
    requires Decode(buf).Got?
    ensures var at, p, masked := 2 + LengthBytes(buf[1] % 128), Decode(buf).item.payload, buf[1] / 128 == 1;
            && Decode(buf).consumed == at + (if masked then 4 else 0) + |p| <= |buf|
            && (!masked ==> p == buf[at..at + |p|])
            && (masked ==> Unmasks(buf, at, p))
  {
    hide U16, U32, LengthBytes, PayloadLength, Mask, Unmasks;
    var at, p := 2 + LengthBytes(buf[1] % 128), Decode(buf).item.payload;
    if buf[1] / 128 == 1 {
      var body, key := buf[at + 4..Decode(buf).consumed], buf[at..at + 4];
      assert p == Mask(body, key);
      BodyUnmasks(buf, at, Decode(buf).consumed);
    }
  }

  /** The bytes behind the key at `at`, each exclusive or the key byte whose turn it is. */
  ghost predicate Unmasks(buf: bytes, at: nat, p: bytes) {
    && at + 4 + |p| <= |buf|
    && forall i | 0 <= i < |p| :: p[i] == ((buf[at + 4 + i] as bv8) ^ (buf[at + i % 4] as bv8)) as int
  }

  lemma BodyUnmasks(buf: bytes, at: nat, end: nat)
    requires at + 4 <= end <= |buf|
    ensures Unmasks(buf, at, Mask(buf[at + 4..end], buf[at..at + 4]))
  {
    var body, key := buf[at + 4..end], buf[at..at + 4];
    MaskedBytes(body, key);
    assert forall i | 0 <= i < |body| :: body[i] == buf[at + 4 + i] && key[i % 4] == buf[at + i % 4];
    hide Mask;
  }

  lemma MaskedBytes(body: bytes, key: bytes)
    requires |key| == 4
    ensures forall i | 0 <= i < |body| :: Mask(body, key)[i] == ((body[i] as bv8) ^ (key[i % 4] as bv8)) as int
  {
  }

  /** A byte of the key acts on the bytes whose turn it is and on no others. */
  lemma KeyByteReaches(payload: bytes, key: bytes, j: nat, x: byte)
    requires |key| == 4 && j < 4
    ensures forall i | 0 <= i < |payload| && i % 4 != j :: Mask(payload, key[j := x])[i] == Mask(payload, key)[i]
  {
  }

  lemma HelloUnmasked()
    ensures Mask([0x7f, 0x9f, 0x4d, 0x51, 0x58], [0x37, 0xfa, 0x21, 0x3d]) == [72, 101, 108, 108, 111]
  {
    HelloBytes();
    hide Xor;
    var m := Mask([0x7f, 0x9f, 0x4d, 0x51, 0x58], [0x37, 0xfa, 0x21, 0x3d]);
    assert m[0] == Xor(0x7f, 0x37) && m[1] == Xor(0x9f, 0xfa) && m[2] == Xor(0x4d, 0x21);
    assert m[3] == Xor(0x51, 0x3d) && m[4] == Xor(0x58, 0x37);
  }

  /** The masked "Hello" of RFC 6455 section 5.7. */
  lemma HelloIsRead()
    ensures Decode([0x81, 0x85, 0x37, 0xfa, 0x21, 0x3d, 0x7f, 0x9f, 0x4d, 0x51, 0x58])
         == Got(Frame(true, 1, [72, 101, 108, 108, 111]), 11)
  {
    hide Mask;
    var buf: bytes := [0x81, 0x85, 0x37, 0xfa, 0x21, 0x3d, 0x7f, 0x9f, 0x4d, 0x51, 0x58];
    HelloUnmasked();
    assert buf[2..6] == [0x37, 0xfa, 0x21, 0x3d] && buf[6..11] == [0x7f, 0x9f, 0x4d, 0x51, 0x58];
    assert OpenBody(buf, 2, true, 5) == Some(([72, 101, 108, 108, 111], 11));
    hide OpenBody;
    assert buf[0] == 0x81 && buf[1] == 0x85;
  }

  method DecodeFrame(buffer: bytes) returns (r: Cut<Frame>)
    ensures r == Decode(buffer)
  {
    hide U16, U32, Mask;
    var blen := |buffer|;
    if blen < 2 { return Need; }
    var b1, b2 := buffer[0], buffer[1];
    var fin, opcode, masked := b1 / 128 == 1, b1 % 16, b2 / 128 == 1;
    var payloadLen: nat, headerLen := b2 % 128, 2;
    if payloadLen == 126 {
      if blen < 4 { return Need; }
      payloadLen, headerLen := U16(buffer[2], buffer[3]), 4;
    } else if payloadLen == 127 {
      if blen < 10 { return Need; }
      payloadLen, headerLen := U32(buffer[6], buffer[7], buffer[8], buffer[9]), 10;
    }
    assert headerLen == 2 + LengthBytes(b2 % 128) && payloadLen == PayloadLength(buffer);
    ghost var at := headerLen;
    hide LengthBytes, PayloadLength;
    MaskNothing();
    var mask := [];
    if masked {
      if blen < headerLen + 4 { return Need; }
      mask := buffer[headerLen..headerLen + 4];
      headerLen := headerLen + 4;
    }
    assert headerLen == (if masked then at + 4 else at) && (masked ==> mask == buffer[at..at + 4]);
    if blen < headerLen + payloadLen { return Need; }
    var payload := buffer[headerLen..headerLen + payloadLen];
    assert payloadLen == 0 ==> payload == [];
    if masked && payloadLen > 0 { payload := Unmask(payload, mask); }
    assert OpenBody(buffer, at, masked, payloadLen) == Some((payload, headerLen + payloadLen));
    hide OpenBody;
    return Got(Frame(fin, opcode, payload), headerLen + payloadLen);
  }

  lemma MaskNothing()
    ensures forall key: bytes | |key| == 4 :: Mask([], key) == []
  {
  }

  /** A fresh unmasked copy: the source may still be queued and must not be written to. */
  method Unmask(body: bytes, mask: bytes) returns (payload: bytes)
    requires |mask| == 4
    ensures payload == Mask(body, mask)
  {
    var plain := new byte[|body|];
    var i := 0;
    while i < |body|
      invariant 0 <= i <= |body|
      invariant plain[..i] == Mask(body, mask)[..i]
    {
      plain[i] := Xor(body[i], mask[i % 4]);
      i := i + 1;
    }
    return plain[..];
  }

  // ----- the grammar -----

  const TWO32 := 0x1_0000_0000

  function Low32(n: nat): (low: nat)
    ensures low < TWO32
  {
    n % TWO32
  }

  lemma Low32Keeps(n: nat)
    ensures Low32(n) == n <==> n < TWO32
    ensures Low32(n) <= n
  {
  }

  /** A 64-bit length field. */
  function Be64(n: nat): bytes {
    Be32(n / TWO32) + Be32(n)
  }

  /** The three ways a length can be spelled. */
  datatype LengthForm = Short | Medium | Long

  /**
   One frame exactly as it stands on the wire.  Reserved bits, unknown opcodes and lengths spelled
   longer than they need be are let through, as the decoder checks none of them.
   */
  datatype Wire = Wire(fin: bool, rsv: nat, opcode: nat, form: LengthForm, key: Option<bytes>, payload: bytes) {
    ghost predicate Valid() {
      && rsv < 8 && opcode < 16
      && (key.Some? ==> |key.value| == 4)
      && match form {
        case Short => |payload| <= 125
        case Medium => |payload| < 0x1_0000
        case Long => |payload| < 0x8000_0000_0000_0000
      }
    }

    /** A frame of less than 2^32 bytes of payload. */
    ghost predicate Readable() {
      Valid() && |payload| < TWO32
    }

    function Length(): (byte, bytes)
      requires form.Short? ==> |payload| <= 125
    {
      match form
      case Short => (|payload|, [])
      case Medium => (126, Be16(|payload|))
      case Long => (127, Be64(|payload|))
    }

    function Header(): bytes
      requires rsv < 8 && opcode < 16 && (form.Short? ==> |payload| <= 125)
    {
      [(if fin then 128 else 0) + rsv * 16 + opcode, (if key.Some? then 128 else 0) + Length().0] + Length().1
    }

    function Body(): bytes
      requires key.Some? ==> |key.value| == 4
    {
      if key.Some? then key.value + Mask(payload, key.value) else payload
    }

    ghost function Bytes(): bytes
      requires Valid()
    {
      Header() + Body()
    }

    function Seen(): Frame {
      Frame(fin, opcode, payload)
    }
  }

  lemma FlagByte(flag: bool, low: nat)
    requires low < 128
    ensures var b := (if flag then 128 else 0) + low; (b / 128 == 1) == flag && b % 128 == low && b % 16 == low % 16
  {
  }

  /** The length a header is read as: the announced one, of which only the low 32 bits count. */
  lemma LengthReads(w: Wire, buf: bytes)
    requires w.Valid() && 2 + |w.Length().1| <= |buf|
    requires buf[1] % 128 == w.Length().0 && buf[2..2 + |w.Length().1|] == w.Length().1
    ensures |w.Length().1| == LengthBytes(buf[1] % 128) && PayloadLength(buf) == Low32(|w.payload|)
    ensures w.form.Long? ==> buf[2..6] == Be32(|w.payload| / TWO32)
  {
    hide U16, U32;
    var (len7, field) := w.Length();
    assert forall k :: 0 <= k < |field| ==> buf[2 + k] == field[k];
    match w.form
    case Short =>
    case Medium =>
      ReadBe16(|w.payload|);
    case Long =>
      ReadBe32(|w.payload|);
      assert buf[2..6] == field[..4];
  }

  lemma HeaderReads(w: Wire, buf: bytes)
    requires w.Valid() && w.Header() <= buf
    ensures |w.Header()| == 2 + LengthBytes(buf[1] % 128) && PayloadLength(buf) == Low32(|w.payload|)
    ensures (buf[0] / 128 == 1) == w.fin && buf[0] % 16 == w.opcode
    ensures (buf[1] / 128 == 1) == w.key.Some?
    ensures (buf[1] % 128 == 127) == w.form.Long?
    ensures w.form.Long? ==> buf[2..6] == Be32(|w.payload| / TWO32)
  {
    hide Be16, Be32, Be64, U16, U32, PayloadLength, LengthBytes;
    var h := w.Header();
    var (len7, field) := w.Length();
    assert buf[0] == h[0] && buf[1] == h[1];
    assert buf[2..|h|] == h[2..] == field;
    FlagByte(w.key.Some?, len7);
    FlagByte(w.fin, w.rsv * 16 + w.opcode);
    LengthReads(w, buf);
  }

  lemma BodyReads(head: bytes, key: Option<bytes>, payload: bytes, rest: bytes)
    requires key.Some? ==> |key.value| == 4
    ensures var body := if key.Some? then key.value + Mask(payload, key.value) else payload;
            OpenBody(head + body + rest, |head|, key.Some?, |payload|) == Some((payload, |head| + |body|))
  {
    var body := if key.Some? then key.value + Mask(payload, key.value) else payload;
    var buf, at := head + body + rest, |head|;
    assert buf[at..at + |body|] == body;
    if key.Some? {
      assert buf[at..at + 4] == key.value;
      assert buf[at + 4..at + 4 + |payload|] == Mask(payload, key.value);
      MaskTwice(payload, key.value);
    }
  }

  lemma ReadableIsRead(w: Wire, rest: bytes)
    requires w.Readable()
    ensures Decode(w.Bytes() + rest) == Got(w.Seen(), |w.Bytes()|)
  {
    var buf := w.Bytes() + rest;
    assert w.Header() <= buf;
    hide Low32, PayloadLength, LengthBytes, OpenBody, Mask, Wire.Header;
    HeaderReads(w, buf);
    Low32Keeps(|w.payload|);
    BodyReads(w.Header(), w.key, w.payload, rest);
  }

  lemma GotLength(buf: bytes)
    requires Decode(buf).Got?
    ensures |Decode(buf).item.payload| == PayloadLength(buf)
  {
    hide PayloadLength;
  }

  /** The decoder reads any frame, masked or not, whatever follows it, exactly when its payload is below 2^32 bytes. */
  lemma DecodeReadsWire(w: Wire, rest: bytes)
    requires w.Valid()
    ensures Decode(w.Bytes() + rest) == Got(w.Seen(), |w.Bytes()|) <==> w.Readable()
  {
    var buf := w.Bytes() + rest;
    if w.Readable() {
      ReadableIsRead(w, rest);
    } else if Decode(buf).Got? {
      HeaderReads(w, buf);
      GotLength(buf);
      Low32Keeps(|w.payload|);
      hide Decode, PayloadLength, Wire.Bytes, Wire.Header, Low32;
    }
  }

  /** The length field of the long form says 2^32 or more: bits the decoder does not look at. */
  predicate Oversized(buf: bytes) {
    |buf| >= 10 && buf[1] % 128 == 127 && buf[2..6] != [0, 0, 0, 0]
  }

  /** The wire frame a successful decode was looking at. */
  function Parsed(buf: bytes): Wire
    requires Decode(buf).Got?
  {
    var len7 := buf[1] % 128;
    Wire(buf[0] / 128 == 1, buf[0] / 16 % 8, buf[0] % 16,
         if len7 == 126 then Medium else if len7 == 127 then Long else Short,
         if buf[1] / 128 == 1
         then Some(buf[2 + LengthBytes(len7)..6 + LengthBytes(len7)]) else None,
         Decode(buf).item.payload)
  }

  lemma ParsedHeader(buf: bytes)
    requires Decode(buf).Got?
    ensures Parsed(buf).Readable()
    ensures !Oversized(buf) ==> Parsed(buf).Header() == buf[..2 + LengthBytes(buf[1] % 128)]
  {
    hide U16, U32, Be16, Be32;
    var w := Parsed(buf);
    assert |w.payload| == PayloadLength(buf);
    SplitByte(buf[0]);
    SplitByte(buf[1]);
    match w.form
    case Short =>
    case Medium => WriteU16(buf[2], buf[3]);
    case Long =>
      WriteU32(buf[6], buf[7], buf[8], buf[9]);
      U32Bound(buf[6], buf[7], buf[8], buf[9]);
      Be32Zero(|w.payload| / TWO32);
  }

  lemma Be32Zero(n: nat)
    requires n < TWO32
    ensures Be32(n) == [0, 0, 0, 0] <==> n == 0
  {
    ZerosAreZero();
    hide Be32, U32;
    ReadBe32(n);
    Low32Keeps(n);
  }

  lemma ZerosAreZero()
    ensures Be32(0) == [0, 0, 0, 0] && U32(0, 0, 0, 0) == 0
  {
  }

  lemma SplitByte(b: byte)
    ensures b == (if b / 128 == 1 then 128 else 0) + b / 16 % 8 * 16 + b % 16
    ensures b == (if b / 128 == 1 then 128 else 0) + b % 128
  {
  }

  lemma U32Bound(a: byte, b: byte, c: byte, d: byte)
    ensures U32(a, b, c, d) < TWO32
  {
  }

  lemma ParsedBody(buf: bytes)
    requires Decode(buf).Got?
    ensures Parsed(buf).key.Some? ==> |Parsed(buf).key.value| == 4
    ensures Parsed(buf).Body() == buf[2 + LengthBytes(buf[1] % 128)..Decode(buf).consumed]
    ensures Decode(buf).item == Parsed(buf).Seen() && Decode(buf).consumed <= |buf|
  {
    hide U16, U32, PayloadLength, Mask;
    var w, at, end := Parsed(buf), 2 + LengthBytes(buf[1] % 128), Decode(buf).consumed;
    if w.key.Some? {
      MaskTwice(buf[at + 4..end], w.key.value);
      assert buf[at..end] == buf[at..at + 4] + buf[at + 4..end];
    }
    assert w.Body() == buf[at..end];
  }

  /**
   What is consumed is exactly one frame of the grammar, and the one that was seen, if and only if
   the unread half of a long length is zero.
   */
  lemma DecodedIsWire(buf: bytes)
    requires Decode(buf).Got?
    ensures Decode(buf).consumed <= |buf|
    ensures (exists w: Wire :: w.Valid() && w.Bytes() == buf[..Decode(buf).consumed]) <==> !Oversized(buf)
    ensures !Oversized(buf) ==>
              && Parsed(buf).Readable() && Parsed(buf).Bytes() == buf[..Decode(buf).consumed]
              && Decode(buf).item == Parsed(buf).Seen()
  {
    ParsedHeader(buf);
    ParsedBody(buf);
    if Oversized(buf) {
      forall w: Wire | w.Valid()
        ensures w.Bytes() != buf[..Decode(buf).consumed]
      {
        if w.Bytes() == buf[..Decode(buf).consumed] { TooLongToSee(w, buf); }
      }
    } else {
      hide Parsed, Decode, Wire.Header, Wire.Body;
      var at, end := 2 + LengthBytes(buf[1] % 128), Decode(buf).consumed;
      assert buf[..at] + buf[at..end] == buf[..end];
    }
  }

  /** A frame behind an oversized header is longer than what a decode of it consumes. */
  lemma TooLongToSee(w: Wire, buf: bytes)
    requires Oversized(buf) && w.Valid() && w.Bytes() <= buf
    ensures Decode(buf).Got? && Decode(buf).consumed < |w.Bytes()|
  {
    WireLength(w, buf);
    HeaderReads(w, buf);
    Be32Zero(|w.payload| / TWO32);
    Low32Keeps(|w.payload|);
    hide Be32, PayloadLength, LengthBytes, Low32, Oversized, Mask, Wire.Header, Wire.Length, Wire.Bytes;
  }

  lemma WireLength(w: Wire, buf: bytes)
    requires w.Valid() && w.Bytes() <= buf
    ensures w.Header() <= buf
    ensures |w.Bytes()| == |w.Header()| + (if w.key.Some? then 4 else 0) + |w.payload|
  {
    hide Wire.Header;
    assert w.Bytes()[..|w.Header()|] == w.Header();
  }

  lemma WriteU32(a: byte, b: byte, c: byte, d: byte)
    ensures Be32(U32(a, b, c, d)) == [a, b, c, d]
  {
    var n := U32(a, b, c, d);
    assert n / 256 == a * 65536 + b * 256 + c;
    assert n / 65536 == a * 256 + b;
    assert n / 16777216 == a;
  }

  /** The buffer begins with a whole frame of the grammar. */
  ghost predicate BeginsFrame(buf: bytes) {
    exists w: Wire :: w.Valid() && w.Bytes() <= buf
  }

  /**
   "Need more" is never answered on a whole frame, and is answered on anything less, unless the length is
   oversized.
   */
  lemma NeedMeansIncomplete(buf: bytes)
    ensures Decode(buf).Need? ==> !BeginsFrame(buf)
    ensures !Oversized(buf) ==> (Decode(buf).Need? <==> !BeginsFrame(buf))
  {
    if Decode(buf).Need? {
      forall w: Wire | w.Valid()
        ensures !(w.Bytes() <= buf)
      {
        if w.Bytes() <= buf { WholeIsGot(w, buf); }
      }
    } else if !Oversized(buf) {
      DecodedIsWire(buf);
      assert Parsed(buf).Bytes() <= buf;
    }
  }

  lemma WholeIsGot(w: Wire, buf: bytes)
    requires w.Valid() && w.Bytes() <= buf
    ensures Decode(buf).Got?
  {
    var rest := buf[|w.Bytes()|..];
    assert w.Bytes() + rest == buf;
    if w.Readable() {
      ReadableIsRead(w, rest);
    } else {
      HeaderReads(w, buf);
      Low32Keeps(|w.payload|);
      hide Be32, PayloadLength, LengthBytes, Low32, Mask;
    }
  }

  /** The right answer: a frame of the grammar off the front, or need when there is none. */
  ghost predicate Right(buf: bytes) {
    match Decode(buf)
    case Need => !BeginsFrame(buf)
    case Got(item, n) => n <= |buf| && exists w: Wire :: w.Valid() && w.Bytes() == buf[..n] && w.Seen() == item
  }

  /** Behind a whole header every answer is right, whatever comes next, exactly when the length is not oversized. */
  lemma RightIffSmall(buf: bytes)
    requires |buf| >= 2 && |buf| >= 2 + LengthBytes(buf[1] % 128)
    ensures (forall more :: Right(buf + more)) <==> !Oversized(buf)
  {
    if Oversized(buf) {
      var more := seq(4 + PayloadLength(buf), i => 0 as byte);
      var all := buf + more;
      assert all[2..6] == buf[2..6];
      assert Oversized(all) && Decode(all).Got?;
      NotRight(all);
    } else {
      forall more: bytes
        ensures Right(buf + more)
      {
        var all := buf + more;
        assert |buf| >= 10 ==> all[2..6] == buf[2..6];
        assert !Oversized(all);
        NeedMeansIncomplete(all);
        if Decode(all).Got? { DecodedIsWire(all); }
      }
    }
  }

  /** Ten bytes that announce 2^32 are taken for an empty frame. */
  lemma OversizedIsMisread(buf: bytes)
    requires buf == [130, 127, 0, 0, 0, 1, 0, 0, 0, 0]
    ensures Decode(buf) == Got(Frame(true, BINARY, []), 10) && !BeginsFrame(buf) && !Right(buf)
  {
    assert buf[2..6] == [0, 0, 0, 1];
    assert Oversized(buf) && |buf| == 10 && buf[0] == 130 && buf[1] == 127;
    assert buf[6] == buf[7] == buf[8] == buf[9] == 0;
    hide *;
    NoLength(buf);
    EmptyIsSeen(buf);
    BinaryByte(buf[0]);
    NothingBegins(buf);
    NotRight(buf);
  }

  lemma NoLength(buf: bytes)
    requires |buf| >= 10 && buf[1] == 127 && buf[6] == buf[7] == buf[8] == buf[9] == 0
    ensures PayloadLength(buf) == 0
  {
    hide U16;
  }

  lemma BinaryByte(b: byte)
    requires b == 130
    ensures b / 128 == 1 && b % 16 == BINARY
  {
  }

  lemma EmptyIsSeen(buf: bytes)
    requires |buf| == 10 && buf[1] == 127 && PayloadLength(buf) == 0
    ensures Decode(buf) == Got(Frame(buf[0] / 128 == 1, buf[0] % 16, []), 10)
  {
    hide PayloadLength, Mask;
    assert buf[10..10] == [];
  }

  lemma NotRight(buf: bytes)
    requires Oversized(buf) && Decode(buf).Got?
    ensures !Right(buf)
  {
    DecodedIsWire(buf);
    hide Oversized, Decode, Parsed;
  }

  lemma NothingBegins(buf: bytes)
    requires Oversized(buf) && Decode(buf).Got? && Decode(buf).consumed == |buf|
    ensures !BeginsFrame(buf)
  {
    forall w: Wire | w.Valid()
      ensures !(w.Bytes() <= buf)
    {
      if w.Bytes() <= buf { TooLongToSee(w, buf); }
    }
  }

  lemma SliceKeeps(a: bytes, b: bytes, from: nat, to: nat)
    requires from <= to <= |a|
    ensures (a + b)[from..to] == a[from..to]
  {
  }

  lemma OpenBodyKeeps(a: bytes, b: bytes, at: nat, masked: bool, plen: nat)
    requires OpenBody(a, at, masked, plen).Some?
    ensures OpenBody(a + b, at, masked, plen) == OpenBody(a, at, masked, plen)
  {
    hide Mask;
    var start := if masked then at + 4 else at;
    SliceKeeps(a, b, start, start + plen);
    if masked { SliceKeeps(a, b, at, at + 4); }
  }

  lemma DecodeKeeps(a: bytes, b: bytes)
    requires Decode(a).Got?
    ensures Decode(a + b) == Decode(a)
  {
    OpenBodyKeeps(a, b, 2 + LengthBytes(a[1] % 128), a[1] / 128 == 1, PayloadLength(a));
  }

  /** Later bytes never change a decoded frame. */
  lemma DecodeStable()
    ensures Stable(Decode)
  {
    forall a, b {:trigger Decode(a + b)} | Decode(a).Got?
      ensures Decode(a + b) == Decode(a)
    {
      DecodeKeeps(a, b);
    }
  }

  // ----- encoding -----

  function HeaderLengthFor(plen: nat): nat {
    if plen > 65535 then 10 else if plen > 125 then 4 else 2
  }

  /** The header the server writes: FIN, no mask, the shortest length form. */
  function ServerHeader(opcode: nat, plen: nat): bytes {
    [128 + opcode % 16] +
    (if plen <= 125 then [plen]
     else if plen <= 65535 then [126] + Be16(plen)
     else [127, 0, 0, 0, 0] + Be32(plen))
  }

  function Encode(opcode: nat, payload: bytes): bytes {
    ServerHeader(opcode, |payload|) + payload
  }

  method WriteHeader(out: array<byte>, opcode: nat, plen: nat) returns (offset: nat)
    requires out.Length >= HeaderLengthFor(plen)
    modifies out
    ensures offset == HeaderLengthFor(plen) && out[..offset] == ServerHeader(opcode, plen)
    ensures out[offset..] == old(out[offset..])
  {
    out[0] := 128 + opcode % 16;
    if plen <= 125 {
      out[1] := plen;
      return 2;
    }
    if plen <= 65535 {
      out[1], out[2], out[3] := 126, plen / 256 % 256, plen % 256;
      return 4;
    }
    out[1], out[2], out[3], out[4], out[5] := 127, 0, 0, 0, 0;
    out[6], out[7] := plen / 16777216 % 256, plen / 65536 % 256;
    out[8], out[9] := plen / 256 % 256, plen % 256;
    return 10;
  }

  method EncodeFrame(opcode: nat, payload: bytes) returns (frame: bytes)
    ensures frame == Encode(opcode, payload)
  {
    var plen := |payload|;
    var out := new byte[HeaderLengthFor(plen) + plen];
    var offset := WriteHeader(out, opcode, plen);
    if plen > 0 { Put(out, payload, offset); }
    assert out[..] == out[..offset] + out[offset..];
    return out[..];
  }

  /** The server's frame as a frame of the grammar, for every payload a length field can describe. */
  function ServerWire(opcode: nat, payload: bytes): Wire {
    Wire(true, 0, opcode % 16,
         if |payload| <= 125 then Short else if |payload| <= 65535 then Medium else Long,
         None, payload)
  }

  lemma EncodeIsWire(opcode: nat, payload: bytes)
    requires |payload| < TWO32
    ensures ServerWire(opcode, payload).Readable()
    ensures Encode(opcode, payload) == ServerWire(opcode, payload).Bytes()
  {
    Be32Zero(|payload| / TWO32);
    assert Encode(opcode, payload) == ServerWire(opcode, payload).Header() + payload;
  }

  /** The round trip holds exactly for payloads below 2^32 bytes; a longer one is cut to its length modulo 2^32. */
  lemma EncodeRoundTrip(opcode: nat, payload: bytes, rest: bytes)
    ensures Decode(Encode(opcode, payload) + rest)
         == Got(Frame(true, opcode % 16, payload), |Encode(opcode, payload)|)
        <==> |payload| < TWO32
  {
    if |payload| < TWO32 {
      EncodeIsWire(opcode, payload);
      ReadableIsRead(ServerWire(opcode, payload), rest);
    } else {
      var buf := Encode(opcode, payload) + rest;
      ReadBe32(|payload|);
      assert buf[1] == 127 && PayloadLength(buf) == |payload| % TWO32;
      assert Decode(buf).Need? || Decode(buf).consumed == 10 + |payload| % TWO32;
    }
  }

  /** Walking a concatenation of frames, from any mix of clients and servers, recovers the list. */
  lemma WalkRecoversFrames(frames: seq<Wire>, tail: bytes)
    requires forall w <- frames :: w.Readable()
    requires Decode(tail).Need?
    ensures Walk(Decode, Concat(Map(WireBytes, frames)) + tail) == (Map((w: Wire) => w.Seen(), frames), tail)
  {
    var seen := (w: Wire) => w.Seen();
    forall w: Wire, rest {:trigger WireBytes(w) + rest} | w in frames
      ensures Decode(WireBytes(w) + rest) == Got(seen(w), |WireBytes(w)|) && WireBytes(w) != []
    {
      ReadableIsRead(w, rest);
    }
    WalkInverts(Decode, WireBytes, seen, frames, tail);
  }

  ghost function WireBytes(w: Wire): bytes {
    if w.Valid() then w.Bytes() else []
  }

  function EncodeBinary(payload: bytes): bytes {
    Encode(BINARY, payload)
  }

  function BinaryFrame(payload: bytes): Frame {
    Frame(true, BINARY, payload)
  }

  /** A client that decodes what the server wrote finds one binary frame for each payload. */
  lemma WalkRecoversPayloads(payloads: seq<bytes>)
    requires forall p <- payloads :: |p| < TWO32
    ensures Walk(Decode, Concat(Map(EncodeBinary, payloads))) == (Map(BinaryFrame, payloads), [])
  {
    assert Decode([]).Need?;
    hide Decode, Walk;
    forall p: bytes, rest {:trigger EncodeBinary(p) + rest} | p in payloads
      ensures Decode(EncodeBinary(p) + rest) == Got(BinaryFrame(p), |EncodeBinary(p)|) && EncodeBinary(p) != []
    {
      EncodeRoundTrip(BINARY, p, rest);
    }
    hide EncodeBinary, BinaryFrame;
    WalkInverts(Decode, EncodeBinary, BinaryFrame, payloads, []);
    assert Concat(Map(EncodeBinary, payloads)) + [] == Concat(Map(EncodeBinary, payloads));
  }

  // ----- a mux frame inside a frame -----

  function MuxPayload(meta: bytes, data: Option<bytes>): bytes {
    Be16(|meta|) + meta + if data.Some? then Be16(|data.value|) + data.value else []
  }

  predicate FitsMux(meta: bytes, data: Option<bytes>) {
    |meta| <= 65535 && (data.Some? ==> |data.value| <= 65535)
  }

  /** A 16-bit length and the bytes it counts, at `offset`. */
  method PutCounted(out: array<byte>, payload: bytes, offset: nat)
    requires offset + 2 + |payload| <= out.Length
    modifies out
    ensures out[..offset + 2 + |payload|] == old(out[..offset]) + (Be16(|payload|) + payload)
  {
    Put(out, Be16(|payload|), offset);
    assert out[..offset + 2] == old(out[..offset]) + Be16(|payload|);
    if |payload| > 0 { Put(out, payload, offset + 2); }
  }

  /** Mux frame and enclosing frame in one buffer; None is the RangeError for an overflowing length. */
  method EncodeMuxFrame(opcode: nat, meta: bytes, hasData: bool, payload: bytes) returns (r: Option<bytes>)
    ensures var data := if hasData then Some(payload) else None;
            r == if FitsMux(meta, data) then Some(Encode(opcode, MuxPayload(meta, data))) else None
  {
    hide HeaderLengthFor, ServerHeader, Be16;
    var metaLen := |meta|;
    var dataLen := if hasData then |payload| else 0;
    if metaLen > 65535 || dataLen > 65535 { return None; }
    var plen := 2 + metaLen + if hasData then 2 + dataLen else 0;
    var out := new byte[HeaderLengthFor(plen) + plen];
    var offset := WriteHeader(out, opcode, plen);
    ghost var head := out[..offset];
    PutCounted(out, meta, offset);
    offset := offset + 2 + metaLen;
    ghost var built := out[..offset];
    if hasData {
      PutCounted(out, payload, offset);
      assert out[..offset + 2 + dataLen] == out[..];
    } else {
      assert out[..offset] == out[..];
    }
    ghost var data := if hasData then Some(payload) else None;
    assert out[..] == head + MuxPayload(meta, data);
    return Some(out[..]);
  }
}
