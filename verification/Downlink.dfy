/** Data on its way back to the client: one read of a target becomes Keep frames the client can parse. */
module Downlink {
  import opened Bytes
  import opened Options
  import opened Streams
  import opened MuxWire
  import opened Names
  import Vless
  import WsFrames

  function MetaKeep(id: nat): bytes {
    Be16(id) + [KEEP, 1]
  }

  function MetaEnd(id: nat): bytes {
    Be16(id) + [END, 0]
  }

  /** The meta of a datagram reply: it carries the peer's address when that is a dotted quad. */
  function MetaUdpFrom(id: nat, port: nat, quad: Option<bytes>): bytes {
    if quad.None? then MetaKeep(id) else MetaKeep(id) + [UDP] + Be16(port) + [1] + quad.value
  }

  /** A reply from a dotted quad reads back as a Keep frame of that id that names the peer. */
  lemma UdpFromReads(text: Text, id: nat, port: nat, q: bytes, data: bytes)
    requires |q| == 4
    ensures var f, t := Frame(MetaUdpFrom(id, port, Some(q)), Some(data)),
            ReadTarget(text, MetaUdpFrom(id, port, Some(q)));
            && |f.meta| == 12 && f.Id() == id % 65536 && f.Command() == 2 && Retargets(f) && t.Some?
            && t.value.port == port % 65536 && SpellsAll(t.value.host, '.', 10, [q[0], q[1], q[2], q[3]])
  {
    var m := Meta(id % 65536, 2, 1, 2, port % 65536, Vless.V4(q));
    TargetReads(text, m, [], Some(data));
    hide ReadTarget, SpellsAll;
    MetaOfReply(id, port, q);
    assert m.Bytes() + [] == m.Bytes();
  }

  lemma MetaOfReply(id: nat, port: nat, q: bytes)
    requires |q| == 4
    ensures MetaUdpFrom(id, port, Some(q)) == Meta(id % 65536, 2, 1, 2, port % 65536, Vless.V4(q)).Bytes()
    ensures MetaKeep(id) == [id % 65536 / 256, id % 256, 2, 1] && MetaEnd(id) == [id % 65536 / 256, id % 256, 3, 0]
  {
    HighByte(id);
    HighByte(port);
    assert Be16(id) == [id % 65536 / 256, id % 256] && Be16(port) == [port % 65536 / 256, port % 256];
    hide Be16;
  }

  lemma HighByte(n: nat)
    ensures n / 256 % 256 == n % 65536 / 256 && n % 256 == n % 65536 % 256
  {
    var q, m := n / 65536, n % 65536;
    assert n == q * 65536 + m;
    assert n / 256 == q * 256 + m / 256;
    assert n == (q * 256 + m / 256) * 256 + m % 256;
  }

  /** A read of any size, cut into what a 16-bit length can describe. */
  function Pieces(data: bytes): seq<bytes>
    decreases |data|
  {
    if data == [] then [] else
    var m := Min(MAX_CHUNK, |data|);
    [data[..m]] + Pieces(data[m..])
  }

  lemma {:induction false} PiecesCover(data: bytes)
    ensures Concat(Pieces(data)) == data
    ensures forall p <- Pieces(data) :: 1 <= |p| <= MAX_CHUNK
    decreases |data|
  {
    if data == [] {
    } else {
      var m := Min(MAX_CHUNK, |data|);
      PiecesCover(data[m..]);
      assert Pieces(data)[1..] == Pieces(data[m..]);
    }
  }

  function KeepFrame(id: nat, piece: bytes): Frame {
    Frame(MetaKeep(id), Some(piece))
  }

  function Keeps(id: nat, pieces: seq<bytes>): seq<Frame> {
    Map((p: bytes) => KeepFrame(id, p), pieces)
  }

  function KeepFrames(id: nat, data: bytes): seq<Frame> {
    Keeps(id, Pieces(data))
  }

  lemma KeepFrameIsValid(id: nat, piece: bytes)
    ensures KeepFrame(id, piece).Valid() <==> |piece| <= MAX_CHUNK
    ensures KeepFrame(id, piece).Id() == id % 65536 && KeepFrame(id, piece).Command() == KEEP
  {
    ReadBe16(id);
  }

  /** The WebSocket frames around the Keep frames for these pieces. */
  function Written(id: nat, pieces: seq<bytes>): seq<bytes> {
    Map(WsFrames.EncodeBinary, Map(Wire, Keeps(id, pieces)))
  }

  lemma WrittenNone(id: nat)
    ensures Written(id, []) == []
  {
  }

  lemma WrittenSnoc(id: nat, pieces: seq<bytes>, piece: bytes)
    ensures Written(id, pieces + [piece])
         == Written(id, pieces) + [WsFrames.EncodeBinary(WsFrames.MuxPayload(MetaKeep(id), Some(piece)))]
  {
  }

  lemma PiecesEnds(data: bytes)
    ensures Pieces(data[0..]) == Pieces(data) && Pieces(data[|data|..]) == []
  {
    assert data[0..] == data;
  }

  lemma PiecesStep(data: bytes, off: nat, end: nat)
    requires off < |data| && end == Min(off + MAX_CHUNK, |data|)
    ensures Pieces(data[off..]) == [data[off..end]] + Pieces(data[end..])
    ensures 1 <= |data[off..end]| <= MAX_CHUNK
  {
    var m := Min(MAX_CHUNK, |data[off..]|);
    assert data[off..][..m] == data[off..end] && data[off..][m..] == data[end..];
  }

  /** What the Node build writes to the client socket: one WebSocket frame around each Keep frame. */
  function NodeWrites(id: nat, data: bytes): seq<bytes> {
    Written(id, Pieces(data))
  }

  lemma KeepFramesAreValid(id: nat, data: bytes)
    ensures forall f <- KeepFrames(id, data) ::
              f.Valid() && f.Id() == id % 65536 && f.Command() == KEEP && 1 <= |f.Payload()| <= MAX_CHUNK
    ensures Concat(Map((f: Frame) => f.Payload(), KeepFrames(id, data))) == data
  {
    PiecesCover(data);
    forall f | f in KeepFrames(id, data)
      ensures f.Valid() && f.Id() == id % 65536 && f.Command() == KEEP && 1 <= |f.Payload()| <= MAX_CHUNK
    {
      var i :| 0 <= i < |KeepFrames(id, data)| && KeepFrames(id, data)[i] == f;
      assert f == KeepFrame(id, Pieces(data)[i]);
      KeepFrameIsValid(id, Pieces(data)[i]);
    }
    assert Map((f: Frame) => f.Payload(), KeepFrames(id, data)) == Pieces(data);
  }

  /** The mux frames of a client that reads the payloads end to end. */
  lemma FramesReadBack(id: nat, data: bytes)
    ensures Walk(CutFrame, Concat(Map(Wire, KeepFrames(id, data)))) == (KeepFrames(id, data), [])
  {
    KeepFramesAreValid(id, data);
    WalkReadsFrames(KeepFrames(id, data), []);
    assert Concat(Map(Wire, KeepFrames(id, data))) + [] == Concat(Map(Wire, KeepFrames(id, data)));
  }

  /**
   For any substream and any amount of data, a client that decodes the WebSocket frames and then the
   mux frames inside them finds Keep frames for that substream, none empty and none too long,
   whose payloads are the data.
   */
  lemma NodeDownlink(id: nat, data: bytes)
    ensures Walk(WsFrames.Decode, Concat(NodeWrites(id, data)))
         == (Map(WsFrames.BinaryFrame, Map(Wire, KeepFrames(id, data))), [])
    ensures Walk(CutFrame, Concat(Map(Wire, KeepFrames(id, data)))) == (KeepFrames(id, data), [])
  {
    FramesReadBack(id, data);
    KeepFramesAreValid(id, data);
    var payloads := Map(Wire, KeepFrames(id, data));
    forall p | p in payloads
      ensures |p| < 0x1_0000_0000
    {
      var i :| 0 <= i < |payloads| && payloads[i] == p;
      assert KeepFrames(id, data)[i].Valid();
    }
    hide Walk, Keeps, Pieces, Wire;
    WsFrames.WalkRecoversPayloads(Map(Wire, KeepFrames(id, data)));
  }

  /** Nothing that `sendKeep`, `sendEnd` or a datagram reply encodes can overflow a length field. */
  lemma NeverTooLong(id: nat, port: nat, data: bytes, quad: Option<bytes>)
    requires quad.Some? ==> |quad.value| == 4
    ensures forall p <- Pieces(data) :: WsFrames.FitsMux(MetaKeep(id), Some(p))
    ensures WsFrames.FitsMux(MetaEnd(id), None)
    ensures WsFrames.FitsMux(MetaUdpFrom(id, port, quad), Some(data)) <==> |data| <= 65535
  {
    PiecesCover(data);
  }
}
