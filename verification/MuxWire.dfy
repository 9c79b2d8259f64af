/**
 The Mux.Cool frame layer of both builds (src/node/mux.js, src/worker/mux.mjs):
 u16 metaLen | meta | (u16 dataLen | data)?, where bit 0 of meta[3] says that data follows.
 */
module MuxWire {
  import opened Bytes
  import opened Options
  import opened Streams
  import opened Names
  import Vless
  import WsFrames

  const NEW := 1
  const KEEP := 2
  const END := 3
  const TCP := 1
  const UDP := 2
  const MAX_CHUNK := 65535

  datatype Frame = Frame(meta: bytes, data: Option<bytes>) {
    ghost predicate Valid() {
      && 4 <= |meta| <= 65535
      && (data.Some? <==> meta[3] % 2 == 1)
      && (data.Some? ==> |data.value| <= 65535)
    }

    function Id(): nat
      requires |meta| >= 4
    {
      U16(meta[0], meta[1])
    }

    function Command(): nat
      requires |meta| >= 4
    {
      meta[2]
    }

    /** The payload, empty when there is no data section. */
    function Payload(): bytes {
      if data.Some? then data.value else []
    }
  }

  /** What the front of the queue holds: too little, a length no frame can have, or a whole frame. */
  datatype Look = Wait | Desync | Whole(frame: Frame, consumed: nat)

  function LookAt(buf: bytes): Look {
    if |buf| < 4 then Wait else
    var metaLen := U16(buf[0], buf[1]);
    if metaLen < 4 then Desync
    else if |buf| < 2 + metaLen then Wait
    else if buf[5] % 2 == 0 then Whole(Frame(buf[2..2 + metaLen], None), 2 + metaLen)
    else if |buf| < 4 + metaLen then Wait else
    var dataLen := U16(buf[2 + metaLen], buf[3 + metaLen]);
    if |buf| < 4 + metaLen + dataLen then Wait
    else Whole(Frame(buf[2..2 + metaLen], Some(buf[4 + metaLen..4 + metaLen + dataLen])), 4 + metaLen + dataLen)
  }

  function Wire(f: Frame): bytes {
    WsFrames.MuxPayload(f.meta, f.data)
  }

  /** A frame on the wire: the length of its meta, high byte first, the meta, and the same of its data if it has any. */
  lemma WireIs(f: Frame)
    requires f.Valid()
    ensures Wire(f) == LengthOf(f.meta) + f.meta + if f.data.Some? then LengthOf(f.data.value) + f.data.value else []
  {
    CountIs(f.meta);
    if f.data.Some? { CountIs(f.data.value); }
    hide LengthOf, Be16;
  }

  /** Two bytes, the high one first. */
  function LengthOf(b: bytes): bytes
    requires |b| < 65536
  {
    assert |b| / 256 < 256;
    [|b| / 256, |b| % 256]
  }

  lemma CountIs(b: bytes)
    requires |b| < 65536
    ensures Be16(|b|) == LengthOf(b)
  {
  }

  /** The parser inverts the encoder in front of anything. */
  lemma LookReadsWire(f: Frame, rest: bytes)
    requires f.Valid()
    ensures LookAt(Wire(f) + rest) == Whole(f, |Wire(f)|)
  {
    hide Be16, U16;
    var buf, n := Wire(f) + rest, |f.meta|;
    ReadBe16(n);
    assert buf[0] == Be16(n)[0] && buf[1] == Be16(n)[1] && U16(buf[0], buf[1]) == n;
    assert buf[2..2 + n] == f.meta && buf[5] == f.meta[3];
    if f.data.Some? {
      var m := |f.data.value|;
      ReadBe16(m);
      assert buf[2 + n] == Be16(m)[0] && buf[3 + n] == Be16(m)[1];
      assert buf[4 + n..4 + n + m] == f.data.value;
    }
  }

  /** A frame that was cut off is a well-formed frame, and its encoding is what was consumed. */
  lemma LookedIsWire(buf: bytes)
    requires LookAt(buf).Whole?
    ensures var look := LookAt(buf);
            look.consumed <= |buf| && look.frame.Valid() && Wire(look.frame) == buf[..look.consumed]
  {
    var f, n := LookAt(buf).frame, U16(buf[0], buf[1]);
    WriteU16(buf[0], buf[1]);
    assert f.meta[3] == buf[5];
    if f.data.Some? {
      WriteU16(buf[2 + n], buf[3 + n]);
    }
  }

  /** Later bytes never change what was seen. */
  lemma LookKeeps(a: bytes, b: bytes)
    requires !LookAt(a).Wait?
    ensures LookAt(a + b) == LookAt(a)
  {
    if LookAt(a).Whole? {
      LookedIsWire(a);
      var f, n := LookAt(a).frame, LookAt(a).consumed;
      assert a + b == Wire(f) + (a[n..] + b);
      LookReadsWire(f, a[n..] + b);
    }
  }

  function CutFrame(buf: bytes): Cut<Frame> {
    match LookAt(buf)
    case Whole(frame, n) => Got(frame, n)
    case _ => Need
  }

  lemma CutFrameStable()
    ensures Stable(CutFrame)
  {
    forall a | CutFrame(a).Got?
      ensures 0 < CutFrame(a).consumed <= |a|
    {
      LookedIsWire(a);
    }
    forall a, b {:trigger CutFrame(a + b)} | CutFrame(a).Got?
      ensures CutFrame(a + b) == CutFrame(a)
    {
      LookKeeps(a, b);
    }
  }

  // ----- addresses in meta -----

  datatype Target = Target(network: nat, port: nat, host: string)

  /** The address block of a meta that carries one, or None when it is truncated or of unknown type. */
  function ParseMuxAddress(text: Text, meta: bytes, off: nat): Option<string> {
    if |meta| < off + 1 then None else
    var pos := off + 1;
    if meta[off] == 1 then
      if |meta| < pos + 4 then None else Some(DottedQuad(meta[pos..pos + 4]))
    else if meta[off] == 2 then
      if |meta| <= pos || meta[pos] == 0 || |meta| < pos + 1 + meta[pos] then None
      else Some(text.decode(meta[pos + 1..pos + 1 + meta[pos]]))
    else if meta[off] == 3 then
      if |meta| < pos + 16 then None else Some(HexGroups(meta[pos..pos + 16]))
    else None
  }

  function ReadTarget(text: Text, meta: bytes): Option<Target> {
    if |meta| < 8 then None else
    match ParseMuxAddress(text, meta, 7)
    case None => None
    case Some(host) => Some(Target(meta[4], U16(meta[5], meta[6]), host))
  }

  // ----- the grammar of a meta that carries an address -----

  datatype Meta = Meta(id: nat, command: nat, option: nat, network: nat, port: nat, address: Vless.Address) {
    ghost predicate Valid() {
      && id < 65536 && command < 256 && option < 256 && network < 256 && port < 65536
      && address.Valid() && !address.NoAddress? && (address.Name? ==> address.name != [])
    }

    function Bytes(): bytes
      requires Valid()
    {
      Front() + address.Bytes()
    }

    function Front(): bytes
      requires Valid()
    {
      assert id / 256 < 256 && port / 256 < 256;
      [id / 256, id % 256, command, option, network, port / 256, port % 256]
    }
  }

  /** Every such meta is read as what it says, whatever follows it. */
  lemma TargetReads(text: Text, m: Meta, rest: bytes, data: Option<bytes>)
    requires m.Valid()
    ensures var f := Frame(m.Bytes() + rest, data);
            && |f.meta| >= 8 && f.Id() == m.id && f.Command() == m.command && (Retargets(f) <==> m.network == 2)
    ensures var t := ReadTarget(text, m.Bytes() + rest);
            && t.Some? && t.value.network == m.network && t.value.port == m.port
            && m.address.Names(text, t.value.host)
  {
    hide ParseMuxAddress, Vless.Address.Names, Vless.Address.Host, Vless.Address.Bytes;
    var meta := m.Bytes() + rest;
    FrontReads(m);
    assert meta[..7] == m.Front() && meta[7..] == m.address.Bytes() + rest;
    assert forall i | 0 <= i < 7 :: meta[i] == m.Front()[i];
    hide Meta.Bytes, Meta.Front, U16;
    AddressReads(text, meta, m.address);
    Vless.HostNames(m.address, text);
  }

  lemma FrontReads(m: Meta)
    requires m.Valid()
    ensures var f := m.Front();
            && |f| == 7 && U16(f[0], f[1]) == m.id && f[2] == m.command && f[4] == m.network
              && U16(f[5], f[6]) == m.port
  {
  }

  lemma AddressReads(text: Text, meta: bytes, address: Vless.Address)
    requires address.Valid() && !address.NoAddress? && (address.Name? ==> address.name != [])
    requires |meta| >= 7 && address.Bytes() <= meta[7..]
    ensures |meta| >= 8 && ParseMuxAddress(text, meta, 7) == Some(address.Host(text))
  {
    hide ParseMuxAddress, DottedQuad, HexGroups;
    match address
    case V4(quad) => MuxQuadReads(text, meta, quad);
    case Name(name) => MuxNameReads(text, meta, name);
    case V6(groups) => MuxGroupsRead(text, meta, groups);
  }

  lemma MuxQuadReads(text: Text, meta: bytes, quad: bytes)
    requires |quad| == 4 && |meta| >= 7 && [1] + quad <= meta[7..]
    ensures |meta| >= 12 && ParseMuxAddress(text, meta, 7) == Some(DottedQuad(quad))
  {
    hide DottedQuad, HexGroups;
    assert meta[7..][..5] == [1] + quad && meta[7] == meta[7..][0] && meta[8..12] == meta[7..][1..5];
  }

  lemma MuxNameReads(text: Text, meta: bytes, name: bytes)
    requires 0 < |name| < 256 && |meta| >= 7 && [2, |name|] + name <= meta[7..]
    ensures |meta| >= 9 + |name| && ParseMuxAddress(text, meta, 7) == Some(text.decode(name))
  {
    hide DottedQuad, HexGroups;
    var b := meta[7..];
    assert b[..2 + |name|] == [2, |name|] + name && meta[7] == b[0] && meta[8] == b[1];
    assert meta[9..9 + |name|] == b[2..2 + |name|];
  }

  lemma MuxGroupsRead(text: Text, meta: bytes, groups: bytes)
    requires |groups| == 16 && |meta| >= 7 && [3] + groups <= meta[7..]
    ensures |meta| >= 24 && ParseMuxAddress(text, meta, 7) == Some(HexGroups(groups))
  {
    hide DottedQuad, HexGroups;
    assert meta[7..][..17] == [3] + groups && meta[7] == meta[7..][0] && meta[8..24] == meta[7..][1..17];
  }

  /** A target is read exactly when such a meta is there: neither short, nor with an empty name or an unknown type. */
  lemma TargetIff(text: Text, meta: bytes)
    ensures ReadTarget(text, meta).Some? <==> exists m: Meta :: m.Valid() && m.Bytes() <= meta
  {
    if ReadTarget(text, meta).Some? {
      var address := AddressOf(meta);
      AddressIsThere(text, meta);
      var m := Meta(U16(meta[0], meta[1]), meta[2], meta[3], meta[4], U16(meta[5], meta[6]), address);
      assert m.Front() == meta[..7];
      hide AddressOf, Vless.Address.Bytes;
      assert m.Bytes() == meta[..7] + meta[7..7 + |address.Bytes()|] == meta[..7 + |address.Bytes()|];
    }
    forall m: Meta | m.Valid() && m.Bytes() <= meta
      ensures ReadTarget(text, meta).Some?
    {
      TargetReads(text, m, meta[|m.Bytes()|..], None);
      assert m.Bytes() + meta[|m.Bytes()|..] == meta;
    }
  }

  /** The address block of a meta that has one. */
  ghost function AddressOf(meta: bytes): Vless.Address
    requires |meta| >= 8
  {
    if meta[7] == 1 && |meta| >= 12 then Vless.V4(meta[8..12])
    else if meta[7] == 2 && |meta| >= 9 && |meta| >= 9 + meta[8] as int then Vless.Name(meta[9..9 + meta[8] as int])
    else if meta[7] == 3 && |meta| >= 24 then Vless.V6(meta[8..24])
    else Vless.NoAddress
  }

  lemma AddressIsThere(text: Text, meta: bytes)
    requires ReadTarget(text, meta).Some?
    ensures |meta| >= 8
    ensures var a := AddressOf(meta);
            && a.Valid() && !a.NoAddress? && (a.Name? ==> a.name != [])
            && 7 + |a.Bytes()| <= |meta| && a.Bytes() == meta[7..7 + |a.Bytes()|]
  {
    hide DottedQuad, HexGroups;
  }

  /** A Keep frame that names a datagram peer. */
  predicate Retargets(f: Frame) {
    |f.meta| > 4 && f.meta[4] == UDP
  }

  // ----- the Node build -----

  /** Whether the Node build goes on parsing after this frame: an unreadable address stops it. */
  predicate Continues(text: Text, f: Frame)
    requires |f.meta| >= 4
  {
    f.Command() == NEW || (f.Command() == KEEP && Retargets(f)) ==> ReadTarget(text, f.meta).Some?
  }

  /** One call of the Node parser: the frames dispatched and what stays queued. */
  ghost function NodeDrain(text: Text, buf: bytes): (seq<Frame>, bytes)
    decreases |buf|
  {
    match LookAt(buf)
    case Wait => ([], buf)
    case Desync => ([], buf[1..])
    case Whole(f, n) =>
      LookedIsWire(buf);
      if Continues(text, f) then
        var (more, rest) := NodeDrain(text, buf[n..]);
        ([f] + more, rest)
      else ([f], buf[n..])
  }

  /** A pass that started on `start` has dispatched `done` and goes on with `now`. */
  ghost predicate DrainProgress(text: Text, start: bytes, done: seq<Frame>, now: bytes) {
    NodeDrain(text, start) == (done + NodeDrain(text, now).0, NodeDrain(text, now).1)
  }

  lemma DrainStart(text: Text, start: bytes)
    ensures DrainProgress(text, start, [], start)
  {
    assert [] + NodeDrain(text, start).0 == NodeDrain(text, start).0;
  }

  /** How one look moves the pass on, or ends it. */
  lemma DrainStep(text: Text, start: bytes, done: seq<Frame>, now: bytes)
    requires DrainProgress(text, start, done, now)
    ensures match LookAt(now)
      case Wait => NodeDrain(text, start) == (done, now)
      case Desync => now != [] && NodeDrain(text, start) == (done, now[1..])
      case Whole(f, n) =>
        && 0 < n <= |now| && |f.meta| >= 4
        && (if Continues(text, f) then DrainProgress(text, start, done + [f], now[n..])
            else NodeDrain(text, start) == (done + [f], now[n..]))
  {
    match LookAt(now)
    case Wait => assert done + [] == done;
    case Desync => assert done + [] == done;
    case Whole(f, n) =>
      LookedIsWire(now);
      if Continues(text, f) {
        var more := NodeDrain(text, now[n..]).0;
        assert done + ([f] + more) == done + [f] + more;
      }
  }

  /** The Node reader over a run of writes. */
  ghost function NodeFeed(text: Text, rest: bytes, chunks: seq<bytes>): (seq<Frame>, bytes)
    decreases |chunks|
  {
    if chunks == [] then ([], rest) else
      var (frames, left) := NodeDrain(text, rest + chunks[0]);
      var (more, last) := NodeFeed(text, left, chunks[1..]);
      (frames + more, last)
  }

  /** Draining once leaves nothing that a second look would act on. */
  ghost predicate Quiet(text: Text, stream: bytes) {
    LookAt(NodeDrain(text, stream).1).Wait?
  }

  lemma WaitPrefix(a: bytes, b: bytes)
    requires LookAt(a + b).Wait?
    ensures LookAt(a).Wait?
  {
    if !LookAt(a).Wait? { LookKeeps(a, b); }
  }

  lemma {:induction false} NodeAppend(text: Text, a: bytes, b: bytes)
    requires Quiet(text, a + b)
    ensures Quiet(text, a) && Joins(text, a, b)
    decreases |a|
  {
    hide LookAt, Continues, NodeDrain;
    if LookAt(a).Whole? && GoesOn(text, LookAt(a).frame) {
      NodeGoesOn(text, a);
      PassGoesOn(text, a, b);
      NodeAppend(text, a[LookAt(a).consumed..], b);
      var (frames, rest) := NodeDrain(text, a[LookAt(a).consumed..]);
      var f := LookAt(a).frame;
      assert [f] + (frames + NodeDrain(text, rest + b).0) == [f] + frames + NodeDrain(text, rest + b).0;
    } else {
      PassEnds(text, a, b);
    }
  }

  /** A pass over both parts at once is a pass over the first, and one over what it left and the second. */
  ghost predicate Joins(text: Text, a: bytes, b: bytes) {
    var (frames, rest) := NodeDrain(text, a);
    var (more, last) := NodeDrain(text, rest + b);
    NodeDrain(text, a + b) == (frames + more, last)
  }

  lemma PassGoesOn(text: Text, a: bytes, b: bytes)
    requires LookAt(a).Whole? && GoesOn(text, LookAt(a).frame)
    ensures var Whole(f, n) := LookAt(a);
            && n <= |a|
            && NodeDrain(text, a + b) == ([f] + NodeDrain(text, a[n..] + b).0, NodeDrain(text, a[n..] + b).1)
  {
    hide LookAt, Continues, NodeDrain;
    LookKeeps(a, b);
    NodeGoesOn(text, a);
    NodeGoesOn(text, a + b);
    assert (a + b)[LookAt(a).consumed..] == a[LookAt(a).consumed..] + b;
  }

  lemma PassEnds(text: Text, a: bytes, b: bytes)
    requires Quiet(text, a + b)
    requires LookAt(a).Whole? ==> !GoesOn(text, LookAt(a).frame)
    ensures Quiet(text, a) && Joins(text, a, b)
  {
    hide LookAt, Continues;
    match LookAt(a)
    case Wait =>
      NodeDrainWaits(text, a);
      hide NodeDrain;
      assert [] + NodeDrain(text, a + b).0 == NodeDrain(text, a + b).0;
    case Desync =>
      LookKeeps(a, b);
      assert a != [] by { EmptyWaits(); }
      assert (a + b)[1..] == a[1..] + b;
      NodeStops(text, a, b, [], a[1..]);
    case Whole(f, n) =>
      LookKeeps(a, b);
      LookedIsWire(a);
      assert (a + b)[n..] == a[n..] + b;
      NodeStops(text, a, b, [f], a[n..]);
  }

  lemma EmptyWaits()
    ensures LookAt([]).Wait?
  {
  }

  /** A pass that stopped early, leaving nothing to act on, is not continued by what arrives later. */
  lemma NodeStops(text: Text, a: bytes, b: bytes, frames: seq<Frame>, rest: bytes)
    requires NodeDrain(text, a) == (frames, rest) && NodeDrain(text, a + b) == (frames, rest + b)
    requires Quiet(text, a + b)
    ensures Quiet(text, a)
    ensures NodeDrain(text, rest + b) == ([], rest + b)
    ensures NodeDrain(text, a + b) == (frames + NodeDrain(text, rest + b).0, NodeDrain(text, rest + b).1)
  {
    WaitPrefix(rest, b);
    NodeDrainWaits(text, rest + b);
    hide NodeDrain;
    assert frames + [] == frames;
  }

  lemma NodeGoesOn(text: Text, buf: bytes)
    requires LookAt(buf).Whole? && GoesOn(text, LookAt(buf).frame)
    ensures var Whole(f, n) := LookAt(buf);
            && 0 < n <= |buf|
            && NodeDrain(text, buf) == ([f] + NodeDrain(text, buf[n..]).0, NodeDrain(text, buf[n..]).1)
  {
    LookedIsWire(buf);
    hide LookAt, Continues;
  }

  lemma NodeDrainWaits(text: Text, buf: bytes)
    requires LookAt(buf).Wait?
    ensures NodeDrain(text, buf) == ([], buf)
  {
  }

  lemma {:induction false} NodeFeedIsDrain(text: Text, rest: bytes, chunks: seq<bytes>)
    requires LookAt(rest).Wait? && Quiet(text, rest + Concat(chunks))
    ensures NodeFeed(text, rest, chunks) == NodeDrain(text, rest + Concat(chunks))
    decreases |chunks|
  {
    if chunks == [] {
      assert rest + Concat(chunks) == rest;
    } else {
      var others := Concat(chunks[1..]);
      assert rest + Concat(chunks) == (rest + chunks[0]) + others;
      NodeAppend(text, rest + chunks[0], others);
      NodeFeedIsDrain(text, NodeDrain(text, rest + chunks[0]).1, chunks[1..]);
    }
  }

  /** A second look at what an unsettled stream left behind moves on. */
  lemma UnsettledMoves(text: Text, stream: bytes)
    requires !Settles(text, stream)
    ensures NodeFeed(text, [], [stream, []]) != NodeDrain(text, stream)
  {
    SettlesIffQuiet(text, stream);
    hide Settles;
    var (frames, rest) := NodeDrain(text, stream);
    var chunks, tail, none: seq<bytes> := [stream, []], [[]], [];
    assert chunks[1..] == tail && tail[1..] == none;
    assert chunks[0] == stream && [] + stream == stream && rest + tail[0] == rest;
    var (more, last) := NodeDrain(text, rest);
    assert NodeFeed(text, last, none) == ([], last);
    assert NodeFeed(text, rest, tail) == (more + [], last);
    assert NodeFeed(text, [], chunks) == (frames + (more + []), last);
    if LookAt(rest).Whole? {
      assert |more| > 0;
    }
  }

  /** The frame can be acted on, so the Node build looks for the next one. */
  predicate GoesOn(text: Text, f: Frame) {
    |f.meta| >= 4 && Continues(text, f)
  }

  /**
   The frames of a stream and what is behind them: at most the last frame has an address that
   cannot be read, and behind it nothing can be acted on; behind frames that all can be acted on, a
   length no frame can have is harmless if nothing can be acted on behind its first byte.
   */
  ghost predicate Settles(text: Text, stream: bytes) {
    var (frames, rest) := Walk(CutFrame, stream);
    && AllGoOn(text, frames)
    && (LookAt(rest).Wait?
        || (LookAt(rest).Desync? && LookAt(rest[1..]).Wait? && (frames != [] ==> GoesOn(text, frames[|frames| - 1]))))
  }

  /** So much can be told from the frames: whether one pass leaves anything to act on. */
  lemma {:induction false} SettlesIffQuiet(text: Text, stream: bytes)
    ensures Settles(text, stream) <==> Quiet(text, stream)
    decreases |stream|
  {
    match LookAt(stream)
    case Wait =>
    case Desync =>
    case Whole(f, n) =>
      LookedIsWire(stream);
      SettlesStep(text, stream);
      if Continues(text, f) {
        SettlesIffQuiet(text, stream[n..]);
      } else if CutFrame(stream[n..]).Got? {
        assert |Walk(CutFrame, stream[n..]).0| > 0;
      }
  }

  /** What the first frame of a stream and the rest of the stream have to do with it. */
  lemma SettlesStep(text: Text, stream: bytes)
    requires LookAt(stream).Whole?
    ensures var f, rest := LookAt(stream).frame, stream[LookAt(stream).consumed..];
            && |f.meta| >= 4
            && (Continues(text, f) ==> (Settles(text, stream) <==> Settles(text, rest)))
            && (!Continues(text, f) ==> (Settles(text, stream) <==> LookAt(rest).Wait?))
  {
    LookedIsWire(stream);
    var f, tail := LookAt(stream).frame, stream[LookAt(stream).consumed..];
    var (more, rest) := Walk(CutFrame, tail);
    var frames := [f] + more;
    assert Walk(CutFrame, stream) == (frames, rest);
    assert forall i | 0 <= i < |more| :: frames[i + 1] == more[i];
    assert more != [] ==> frames[|frames| - 1] == more[|more| - 1];
    assert more == [] <==> !LookAt(tail).Whole? by {
      if LookAt(tail).Whole? { LookedIsWire(tail); }
    }
    hide LookAt, Continues, Walk;
    AllButLast(text, f, more);
  }

  /** Every frame but the last can be acted on. */
  ghost predicate AllGoOn(text: Text, frames: seq<Frame>) {
    forall i | 0 <= i < |frames| - 1 :: GoesOn(text, frames[i])
  }

  lemma AllButLast(text: Text, f: Frame, more: seq<Frame>)
    ensures AllGoOn(text, [f] + more) <==> (more != [] ==> GoesOn(text, f)) && AllGoOn(text, more)
  {
    var frames := [f] + more;
    if AllGoOn(text, frames) {
      forall i | 0 <= i < |more| - 1
        ensures GoesOn(text, more[i])
      {
        assert frames[i + 1] == more[i];
      }
      assert more != [] ==> frames[0] == f;
    }
  }

  /**
   In the Node build the frames dispatched and the bytes left over are the same for every way of
   cutting the stream into writes exactly when the frames of the stream let it settle.
   */
  lemma NodeChunking(text: Text, stream: bytes)
    ensures (forall chunks :: Concat(chunks) == stream ==> NodeFeed(text, [], chunks) == NodeDrain(text, stream))
            <==> Settles(text, stream)
  {
    SettlesIffQuiet(text, stream);
    if Quiet(text, stream) {
      forall chunks | Concat(chunks) == stream
        ensures NodeFeed(text, [], chunks) == NodeDrain(text, stream)
      {
        assert [] + Concat(chunks) == stream;
        NodeFeedIsDrain(text, [], chunks);
      }
    } else {
      var chunks, tail, none: seq<bytes> := [stream, []], [[]], [];
      assert chunks[1..] == tail && tail[1..] == none;
      assert Concat(tail) == [] && Concat(chunks) == stream;
      UnsettledMoves(text, stream);
    }
  }

  /** Six zero bytes: each look loses one of them to a length that no frame can have. */
  lemma ZerosDoNotSettle(text: Text)
    ensures !Settles(text, [0, 0, 0, 0, 0, 0])
  {
    var stream: bytes := [0, 0, 0, 0, 0, 0];
    assert LookAt(stream).Desync? && LookAt(stream[1..]).Desync?;
  }

  /** Every frame the walk meets lets the Node build go on, and no length is out of range. */
  ghost predicate WellFormed(text: Text, stream: bytes) {
    var (frames, rest) := Walk(CutFrame, stream);
    LookAt(rest).Wait? && forall f <- frames :: f.Valid() && Continues(text, f)
  }

  lemma {:induction false} WalkedFramesAreValid(stream: bytes)
    ensures forall f <- Walk(CutFrame, stream).0 :: f.Valid()
    decreases |stream|
  {
    if CutFrame(stream).Got? {
      LookedIsWire(stream);
      WalkedFramesAreValid(stream[CutFrame(stream).consumed..]);
    }
  }

  /** The Node build dispatches a prefix of the frames in the stream, and all of them when it is well formed. */
  lemma {:induction false} NodeFollowsWalk(text: Text, stream: bytes)
    ensures NodeDrain(text, stream).0 <= Walk(CutFrame, stream).0
    ensures WellFormed(text, stream) ==> NodeDrain(text, stream) == Walk(CutFrame, stream)
    decreases |stream|
  {
    match LookAt(stream)
    case Wait =>
    case Desync =>
    case Whole(f, n) =>
      LookedIsWire(stream);
      var (more, rest) := Walk(CutFrame, stream[n..]);
      assert Walk(CutFrame, stream) == ([f] + more, rest);
      NodeFollowsWalk(text, stream[n..]);
      if WellFormed(text, stream) {
        assert f in [f] + more && forall g <- more :: g in [f] + more;
        assert WellFormed(text, stream[n..]);
      }
  }

  /** A well-formed stream settles, so the Node build is chunk-invariant on it. */
  lemma WellFormedSettles(text: Text, stream: bytes)
    requires WellFormed(text, stream)
    ensures Settles(text, stream) && Quiet(text, stream)
  {
    var frames := Walk(CutFrame, stream).0;
    WalkedFramesAreValid(stream);
    assert AllGoOn(text, frames) by {
      assert forall i | 0 <= i < |frames| :: frames[i] in frames;
      hide Walk, Continues;
    }
    SettlesIffQuiet(text, stream);
    hide LookAt, Continues, Walk, AllGoOn;
  }

  /** Frames a client encodes come out as they went in, for any chunking. */
  lemma NodeRecoversFrames(text: Text, frames: seq<Frame>, tail: bytes, chunks: seq<bytes>)
    requires forall f <- frames :: f.Valid() && Continues(text, f)
    requires LookAt(tail).Wait? && Concat(chunks) == Concat(Map(Wire, frames)) + tail
    ensures NodeFeed(text, [], chunks) == (frames, tail)
  {
    var stream := Concat(chunks);
    WalkReadsFrames(frames, tail);
    assert WellFormed(text, stream);
    NodeFollowsWalk(text, stream);
    assert [] + Concat(chunks) == stream;
    NodeFeedIsDrain(text, [], chunks);
  }

  lemma WalkReadsFrames(frames: seq<Frame>, tail: bytes)
    requires forall f <- frames :: f.Valid()
    requires CutFrame(tail).Need?
    ensures Walk(CutFrame, Concat(Map(Wire, frames)) + tail) == (frames, tail)
  {
    forall f: Frame, rest {:trigger Wire(f) + rest} | f in frames
      ensures CutFrame(Wire(f) + rest) == Got((g => g)(f), |Wire(f)|) && Wire(f) != []
    {
      LookReadsWire(f, rest);
    }
    WalkInverts(CutFrame, Wire, (f: Frame) => f, frames, tail);
    assert Map((f: Frame) => f, frames) == frames;
  }
}
