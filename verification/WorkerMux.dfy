/** The frame layer of the Worker build (src/worker/mux.mjs). */
module WorkerMux {
  import opened Bytes
  import opened Options
  import opened Queues
  import opened MuxWire
  import Streams
  import Downlink
  import Names

  /** The Worker hands its handlers null for an absent data section and for an empty one. */
  function Seen(f: Frame): Frame {
    if f.data == Some([]) then f.(data := None) else f
  }

  /** The reader as a state: once a length is out of range the session is closed for good. */
  datatype State = State(closed: bool, queue: bytes)

  ghost function Drain(s: State): (seq<Frame>, State) {
    if s.closed then ([], s) else
    var (frames, rest) := Streams.Walk(CutFrame, s.queue);
    (frames, State(LookAt(rest).Desync?, rest))
  }

  ghost function Feed(s: State, chunks: seq<bytes>): (seq<Frame>, State)
    decreases |chunks|
  {
    if chunks == [] then ([], s) else
    var (frames, t) := Drain(s.(queue := s.queue + chunks[0]));
    var (more, u) := Feed(t, chunks[1..]);
    (frames + more, u)
  }

  /**
   The Worker sees the same frames, closes or not, and keeps the same bytes for every way of cutting
   any stream at all, malformed ones included.
   */
  lemma {:induction false} WorkerChunking(queue: bytes, chunks: seq<bytes>)
    requires CutFrame(queue).Need?
    ensures Feed(State(LookAt(queue).Desync?, queue), chunks) == Drain(State(false, queue + Concat(chunks)))
    decreases |chunks|
  {
    if chunks == [] {
      assert queue + Concat(chunks) == queue;
    } else {
      var buf, others := queue + chunks[0], Concat(chunks[1..]);
      assert queue + Concat(chunks) == buf + others;
      CutFrameStable();
      Streams.WalkAppend(CutFrame, buf, others);
      Streams.WalkStops(CutFrame, buf);
      if LookAt(queue).Desync? {
        LookKeeps(queue, chunks[0]);
      }
      WorkerChunking(Streams.Walk(CutFrame, buf).1, chunks[1..]);
    }
  }

  /** On a well-formed stream the two builds dispatch the same frames. */
  lemma BuildsAgree(text: Names.Text, stream: bytes)
    requires WellFormed(text, stream)
    ensures Drain(State(false, stream)) == (NodeDrain(text, stream).0, State(false, NodeDrain(text, stream).1))
  {
    NodeFollowsWalk(text, stream);
  }

  class Reader {
    const queue: ByteQueue
    var closed: bool
    /** Frames handed to the substream handlers, and messages sent to the client. */
    var seen: seq<Frame>
    var out: seq<bytes>
    /** Whether the WebSocket still accepts messages. */
    var open: bool

    ghost predicate Valid()
      reads this, queue
    {
      queue.Valid() && CutFrame(queue.Contents()).Need? && closed == LookAt(queue.Contents()).Desync?
    }

    ghost function View(): State
      reads this, queue
    {
      State(closed, queue.Contents())
    }

    constructor ()
      ensures Valid() && View() == State(false, []) && seen == [] && out == []
    {
      queue := new ByteQueue();
      closed, seen, out, open := false, [], [], true;
    }

    /** A message arrives: push it and dispatch every whole frame. */
    method Receive(chunk: bytes)
      requires Valid()
      modifies this, queue
      ensures Valid() && out == old(out) && open == old(open)
      ensures var (frames, s) := Drain(old(View()).(queue := old(View()).queue + chunk));
              View() == s && seen == old(seen) + Streams.Map(Seen, frames)
    {
      hide LookAt, Frame.Valid;
      queue.Push(chunk);
      if closed {
        LookKeeps(old(queue.Contents()), chunk);
        assert Streams.Map(Seen, []) == [];
        return;
      }
      ghost var start := queue.Contents();
      ghost var done: seq<Frame> := [];
      Streams.ProgressStart(CutFrame, start);
      hide Streams.Walk, Streams.Progress;
      while true
        invariant queue.Valid() && !closed && out == old(out) && open == old(open)
        invariant seen == old(seen) + Streams.Map(Seen, done)
        invariant Streams.Progress(CutFrame, start, done, queue.Contents())
        decreases |queue.Contents()|
      {
        Streams.ProgressStep(CutFrame, start, done, queue.Contents());
        var look := TakeFrame(queue);
        match look
        case Wait => return;
        case Desync =>
          closed := true;
          return;
        case Whole(frame, n) =>
          assert Streams.Map(Seen, done + [frame]) == Streams.Map(Seen, done) + [Seen(frame)];
          done := done + [frame];
          seen := seen + [Seen(frame)];
      }
    }

    /** One message: the meta, and the data behind its length when there is any. */
    method SendFrame(meta: bytes, data: Option<bytes>)
      modifies `out
      ensures out == if closed || !open then old(out) else old(out) + [Wire(Frame(meta, data))]
    {
      if closed || !open { return; }
      var dataLen := if data.Some? then |data.value| else 0;
      var message := new byte[2 + |meta| + if data.Some? then 2 + dataLen else 0];
      message[0], message[1] := |meta| / 256 % 256, |meta| % 256;
      Put(message, meta, 2);
      assert message[..2 + |meta|] == Be16(|meta|) + meta;
      if data.Some? {
        Put(message, Be16(dataLen), 2 + |meta|);
        assert message[..4 + |meta|] == Be16(|meta|) + meta + Be16(dataLen);
        Put(message, data.value, 4 + |meta|);
        assert message[..] == Be16(|meta|) + meta + Be16(dataLen) + data.value;
      }
      assert message[..] == Wire(Frame(meta, data));
      out := out + [message[..]];
    }

    /** The Worker's splitter meets the same specification as the Node build's, one message a frame. */
    method SendKeep(id: nat, data: bytes)
      modifies `out
      ensures out == if closed || !open then old(out) else old(out) + Streams.Map(Wire, Downlink.KeepFrames(id, data))
    {
      hide Downlink.Pieces, Downlink.Keeps, Wire;
      var off := 0;
      ghost var done: seq<bytes> := [];
      Downlink.PiecesEnds(data);
      KeptNone(id);
      while off < |data|
        invariant 0 <= off <= |data| && Downlink.Pieces(data) == done + Downlink.Pieces(data[off..])
        invariant out == if closed || !open then old(out) else old(out) + Kept(id, done)
      {
        var end := Min(off + MAX_CHUNK, |data|);
        ghost var piece := data[off..end];
        Downlink.PiecesStep(data, off, end);
        SendFrame([id / 256 % 256, id % 256, 2, 1], Some(data[off..end]));
        KeptSnoc(id, done, piece);
        assert done + ([piece] + Downlink.Pieces(data[end..])) == done + [piece] + Downlink.Pieces(data[end..]);
        done := done + [piece];
        off := end;
      }
      assert done + [] == done;
    }
  }

  /** The messages for these pieces. */
  ghost function Kept(id: nat, pieces: seq<bytes>): seq<bytes> {
    Streams.Map(Wire, Downlink.Keeps(id, pieces))
  }

  lemma KeptNone(id: nat)
    ensures Kept(id, []) == []
  {
  }

  lemma KeptSnoc(id: nat, pieces: seq<bytes>, piece: bytes)
    ensures Kept(id, pieces + [piece])
         == Kept(id, pieces) + [Wire(Frame([id / 256 % 256, id % 256, 2, 1], Some(piece)))]
  {
    assert Frame([id / 256 % 256, id % 256, 2, 1], Some(piece)) == Downlink.KeepFrame(id, piece);
    hide Wire;
  }

  /** The step both mux parsers repeat: look at the front of the queue and take a whole frame off it. */
  method TakeFrame(queue: ByteQueue) returns (look: Look)
    requires queue.Valid()
    modifies queue
    ensures queue.Valid() && look == LookAt(old(queue.Contents()))
    ensures !look.Whole? ==> queue.Contents() == old(queue.Contents())
    ensures look.Whole? ==>
              && 0 < look.consumed <= |old(queue.Contents())|
              && look.frame.Valid() && queue.Contents() == old(queue.Contents())[look.consumed..]
  {
    hide U16, Concat, Wire, Frame.Valid;
    ghost var buf := queue.Contents();
    if queue.size < 4 { return Wait; }
    var b0 := queue.At(0);
    var b1 := queue.At(1);
    var metaLen := U16(b0.value, b1.value);
    if metaLen < 4 { return Desync; }
    if queue.size < 2 + metaLen { return Wait; }
    var opt := queue.At(5);
    var meta := queue.Slice(2, 2 + metaLen);
    if opt.value % 2 == 0 {
      look := Whole(Frame(meta, None), 2 + metaLen);
    } else {
      if queue.size < 4 + metaLen { return Wait; }
      var d0 := queue.At(2 + metaLen);
      var d1 := queue.At(3 + metaLen);
      var dataLen := U16(d0.value, d1.value);
      if queue.size < 4 + metaLen + dataLen { return Wait; }
      var data := queue.Slice(4 + metaLen, 4 + metaLen + dataLen);
      look := Whole(Frame(meta, Some(data)), 4 + metaLen + dataLen);
    }
    assert look == LookAt(buf);
    LookedIsWire(buf);
    hide LookAt;
    queue.Consume(look.consumed);
    assert queue.Contents() == buf[look.consumed..];
  }
}
