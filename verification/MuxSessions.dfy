/**
 The Node mux session as the object it is (src/node/mux.js): a frame queue, two tables of
 substreams and the callbacks of their sockets.  Every method is specified on `View`, the state
 of `MuxStreams`, whose `out` is what the client socket has been given.
 */
module MuxSessions {
  import opened Bytes
  import opened Options
  import opened Queues
  import opened Names
  import opened MuxWire
  import opened MuxStreams
  import opened MuxBooks
  import opened Sessions
  import WsFrames
  import Downlink
  import WorkerMux

  /** The frames of one pass, in order. */
  ghost function Fold(text: Text, s: State, frames: seq<Frame>): State
    decreases |frames|
  {
    if frames == [] || |frames[|frames| - 1].meta| < 4 then s
    else OnFrame(text, Fold(text, s, frames[..|frames| - 1]), frames[|frames| - 1])
  }

  class MuxSession {
    const text: Text
    const session: Session
    const queue: ByteQueue
    var tcp: map<nat, nat>
    var udp: map<nat, nat>
    var entries: map<nat, Entry>
    var next: nat
    var unended: set<nat>
    var tx: map<nat, nat>
    var closed: bool

    ghost predicate Valid()
      reads this, session, session.inbound, session.message, queue
    {
      && session.Valid() && queue.Valid()
      && queue != session.inbound && queue != session.message
      && Consistent(View())
    }

    ghost function View(): State
      reads this, session
    {
      State(tcp, udp, entries, next, unended, tx, closed, session.phase.Dead?, session.out)
    }

    constructor (session: Session, text: Text)
      requires session.Valid()
      ensures Valid() && fresh(queue) && queue.Contents() == [] && !closed
      ensures this.session == session && this.text == text
      ensures View() == START.(mute := session.phase.Dead?, out := session.out)
    {
      this.session, this.text := session, text;
      tcp, udp, entries, next := map[], map[], map[], 0;
      unended, tx, closed := {}, map[], false;
      queue := new ByteQueue();
    }

    // ----- towards the client -----

    method SendEnd(id: nat)
      requires session.Valid()
      modifies session`out, session`clientOwes
      ensures session.Valid() && View() == MuxStreams.SendEnd(old(View()), id)
    {
      var _ := session.SendMux(Downlink.MetaEnd(id), false, []);
    }

    /** Data of any length as Keep frames; false when the client refused one of them. */
    method SendKeep(id: nat, data: bytes) returns (writable: bool)
      requires session.Valid()
      modifies session`out, session`clientOwes
      ensures session.Valid() && View() == MuxStreams.SendKeep(old(View()), id, data)
      ensures session.clientOwes == (old(session.clientOwes) || !writable) && (!writable ==> !session.phase.Dead?)
    {
      hide Downlink.Written, Downlink.Pieces, WsFrames.EncodeBinary, WsFrames.MuxPayload;
      writable := true;
      var off := 0;
      Downlink.WrittenNone(id);
      Downlink.PiecesEnds(data);
      ghost var done: seq<bytes> := [];
      while off < |data|
        invariant 0 <= off <= |data| && Downlink.Pieces(data) == done + Downlink.Pieces(data[off..])
        invariant session.Valid() && (!writable ==> !session.phase.Dead?)
        invariant session.clientOwes == (old(session.clientOwes) || !writable)
        invariant session.out == if session.phase.Dead? then old(session.out)
                                 else old(session.out) + Downlink.Written(id, done)
      {
        var end := Min(off + MAX_CHUNK, |data|);
        var piece := data[off..end];
        Downlink.PiecesStep(data, off, end);
        var ok := session.SendMux(Downlink.MetaKeep(id), true, piece);
        if !ok { writable := false; }
        Downlink.WrittenSnoc(id, done, piece);
        assert done + ([piece] + Downlink.Pieces(data[end..])) == done + [piece] + Downlink.Pieces(data[end..]);
        done := done + [piece];
        off := end;
      }
      assert done + [] == done;
    }

    // ----- substreams -----

    method OpenTcp(id: nat, initial: bytes)
      modifies this
      ensures View() == MuxStreams.OpenTcp(old(View()), id, initial)
    {
      unended := unended + {next};
      entries := entries[next := TcpEntry(id, false, initial, [], true)];
      tcp := tcp[id := next];
      next := next + 1;
    }

    method OpenUdp(id: nat, host: string, port: nat)
      modifies this
      ensures View() == MuxStreams.OpenUdp(old(View()), id, host, port)
    {
      unended := unended + {next};
      entries := entries[next := UdpEntry(id, host, port, [], true)];
      udp := udp[id := next];
      next := next + 1;
    }

    method AddTx(handle: nat, n: nat)
      modifies `tx
      ensures tx == old(tx)[handle := Get(old(tx), handle, 0) + n]
    {
      tx := tx[handle := Get(tx, handle, 0) + n];
    }

    method SendUdp(handle: nat, data: bytes)
      requires IsUdp(View(), handle)
      modifies `tx, `entries
      ensures View() == MuxStreams.SendUdp(old(View()), handle, data)
    {
      AddTx(handle, |data|);
      var e := entries[handle];
      entries := entries[handle := e.(datagrams := e.datagrams + [Datagram(data, e.host, e.port)])];
    }

    /** Tear down one substream; harmless when there is none. */
    method EndStream(id: nat)
      requires Consistent(Reopened())
      modifies `tcp, `udp, `entries, `unended
      ensures View() == MuxStreams.EndStream(old(View()), id)
      ensures Reopened() == MuxStreams.EndStream(old(Reopened()), id)
    {
      ghost var s := View();
      if id in tcp {
        var h := tcp[id];
        tcp := tcp - {id};
        unended := unended - {h};
        entries := entries[h := Ended(entries[h])];
      }
      EndTcpKeeps(s.(closed := false), id);
      if id in udp {
        var h := udp[id];
        udp := udp - {id};
        unended := unended - {h};
        entries := entries[h := Ended(entries[h])];
      }
    }

    method Close()
      requires Valid()
      modifies this, queue
      ensures Valid() && View() == MuxStreams.Close(old(View())) && closed
      ensures queue.Contents() == if old(closed) then old(queue.Contents()) else []
    {
      if closed { return; }
      CloseKeeps(View());
      hide Consistent, MuxStreams.Close;
      closed := true;
      EndAll(old(View()));
      queue.Clear();
    }

    /** End every substream of both tables, id by id. */
    method EndAll(ghost s0: State)
      requires Consistent(s0) && !s0.closed && Reopened() == s0
      modifies `tcp, `udp, `entries, `unended
      ensures Reopened().(closed := true) == MuxStreams.Close(s0)
    {
      assert Shrunk(s0, s0);
      EndEvery(tcp.Keys, s0);
      EndEvery(udp.Keys, s0);
      ShrunkToNothing(s0, Reopened());
    }

    /** The state with the closed flag, which tearing substreams down never looks at, cleared. */
    ghost function Reopened(): State
      reads this, session
    {
      View().(closed := false)
    }

    method EndEvery(ids: set<nat>, ghost s0: State)
      requires Consistent(Reopened()) && Shrunk(s0, Reopened())
      modifies `tcp, `udp, `entries, `unended
      ensures Consistent(Reopened()) && Shrunk(s0, Reopened())
      ensures tcp == old(tcp) - ids && udp == old(udp) - ids
    {
      hide Consistent, Shrunk, MuxStreams.EndStream;
      var todo := ids;
      while todo != {}
        invariant todo <= ids && Consistent(Reopened()) && Shrunk(s0, Reopened())
        invariant tcp == old(tcp) - (ids - todo) && udp == old(udp) - (ids - todo)
      {
        var id :| id in todo;
        EndStreamShrinks(s0, Reopened(), id);
        EndStream(id);
        todo := todo - {id};
      }
    }

    // ----- frames -----

    /** A New frame; false when its address cannot be read, which stops the parser. */
    method OnNew(f: Frame) returns (go: bool)
      requires Valid() && !closed && f.Valid() && f.Command() == NEW
      modifies this, session`out, session`clientOwes
      ensures Valid() && !closed && View() == MuxStreams.OnNew(text, old(View()), f)
      ensures go == Continues(text, f)
    {
      NewKeeps(text, View(), f);
      hide Consistent, Retargets, ReadTarget, IsBlocked, MuxStreams.OpenTcp, MuxStreams.OpenUdp, MuxStreams.SendUdp,
        MuxStreams.SendEnd;
      var target := ReadTarget(text, f.meta);
      if target.None? { return false; }
      var Target(network, port, host) := target.value;
      if IsBlocked(text, host) {
        SendEnd(f.Id());
      } else if network == TCP {
        OpenTcp(f.Id(), f.Payload());
      } else if network == UDP {
        OpenUdpWith(f.Id(), host, port, f.Payload());
      }
      return true;
    }

    /** A datagram substream whose first datagram may come along. */
    method OpenUdpWith(id: nat, host: string, port: nat, data: bytes)
      modifies this
      ensures var made := MuxStreams.OpenUdp(old(View()), id, host, port);
              View() == if data == [] then made else MuxStreams.SendUdp(made, old(next), data)
    {
      OpenUdp(id, host, port);
      if |data| > 0 { SendUdp(udp[id], data); }
    }

    method OnKeep(f: Frame) returns (go: bool)
      requires Valid() && !closed && f.Valid() && f.Command() == KEEP
      modifies this, session`out, session`clientOwes
      ensures Valid() && !closed && View() == MuxStreams.OnKeep(text, old(View()), f)
      ensures go == Continues(text, f)
    {
      if Retargets(f) {
        go := OnXudpKeep(f);
        return;
      }
      KeepKeeps(text, View(), f);
      hide Consistent, Deliver;
      DeliverData(f.Id(), f.Payload());
      return true;
    }

    /** A Keep frame that names a datagram peer. */
    method OnXudpKeep(f: Frame) returns (go: bool)
      requires Valid() && !closed && f.Valid() && f.Command() == KEEP && Retargets(f)
      modifies this, session`out, session`clientOwes
      ensures Valid() && !closed && View() == MuxStreams.OnKeep(text, old(View()), f)
      ensures go == Continues(text, f)
    {
      KeepKeeps(text, View(), f);
      hide IsBlocked, ReadTarget, Consistent, Retarget, Deliver;
      var target := ReadTarget(text, f.meta);
      if target.None? { return false; }
      var Target(_, port, host) := target.value;
      if IsBlocked(text, host) {
        SendEnd(f.Id());
        return true;
      }
      RetargetKeeps(View(), f.Id(), host, port);
      SetPeer(f.Id(), host, port);
      DeliverData(f.Id(), f.Payload());
      return true;
    }

    /** xUDP: point the datagram substream at a new peer, or open it. */
    method SetPeer(id: nat, host: string, port: nat)
      requires Consistent(View())
      modifies this
      ensures View() == Retarget(old(View()), id, host, port)
    {
      if id in udp {
        entries := entries[udp[id] := entries[udp[id]].(host := host, port := port)];
      } else {
        OpenUdp(id, host, port);
      }
    }

    method DeliverData(id: nat, data: bytes)
      requires Consistent(View())
      modifies `tx, `entries
      ensures View() == Deliver(old(View()), id, data)
    {
      if |data| == 0 { return; }
      if id in tcp {
        var h := tcp[id];
        AddTx(h, |data|);
        var e := entries[h];
        entries := entries[h := if e.connected then e.(sent := e.sent + data) else e.(pending := e.pending + data)];
      } else if id in udp {
        SendUdp(udp[id], data);
      }
    }

    method HandleFrame(f: Frame) returns (go: bool)
      requires Valid() && !closed && f.Valid()
      modifies this, session`out, session`clientOwes
      ensures Valid() && !closed && View() == OnFrame(text, old(View()), f)
      ensures go == Continues(text, f)
    {
      hide MuxStreams.OnNew, MuxStreams.OnKeep, Consistent;
      if f.Command() == NEW {
        go := OnNew(f);
      } else if f.Command() == KEEP {
        go := OnKeep(f);
      } else {
        go := true;
        if f.Command() == END {
          EndStreamKeeps(View(), f.Id());
          assert View().(closed := false) == View();
          EndStream(f.Id());
        }
      }
    }

    /** A payload arrives: it joins the queue, and the queue is drained. */
    method Write(payload: bytes)
      requires Valid() && !closed
      modifies this, queue, session`out, session`clientOwes
      ensures Valid() && !closed
      ensures var (frames, rest) := NodeDrain(text, old(queue.Contents()) + payload);
              View() == Fold(text, old(View()), frames) && queue.Contents() == rest
    {
      hide NodeDrain, Consistent, Fold;
      if |payload| > 0 { queue.Push(payload); }
      assert queue.Contents() == old(queue.Contents()) + payload;
      Drain();
    }

    /** One pass over the queue, dispatching frames until none is whole or one stops it. */
    method Drain()
      requires Valid() && !closed
      modifies this, queue, session`out, session`clientOwes
      ensures Valid() && !closed
      ensures var (frames, rest) := NodeDrain(text, old(queue.Contents()));
              View() == Fold(text, old(View()), frames) && queue.Contents() == rest
    {
      ghost var start := queue.Contents();
      ghost var done: seq<Frame> := [];
      DrainStart(text, start);
      FoldNone(text, View());
      hide NodeDrain, DrainProgress, LookAt, Continues, OnFrame, Consistent, Fold;
      while true
        invariant Valid() && !closed && View() == Fold(text, old(View()), done)
        invariant DrainProgress(text, start, done, queue.Contents())
        decreases |queue.Contents()|
      {
        DrainStep(text, start, done, queue.Contents());
        ghost var look := LookAt(queue.Contents());
        var go := OneFrame();
        if look.Whole? {
          FoldSnoc(text, old(View()), done, look.frame);
          done := done + [look.frame];
        }
        if !go { return; }
      }
    }

    /**
     One look at the queue: a whole frame comes off it and is handled, a bad length loses a byte; false ends the
     pass.
     */
    method OneFrame() returns (go: bool)
      requires Valid() && !closed
      modifies this, queue, session`out, session`clientOwes
      ensures Valid() && !closed
      ensures match LookAt(old(queue.Contents()))
        case Wait => !go && View() == old(View()) && queue.Contents() == old(queue.Contents())
        case Desync => !go && View() == old(View()) && old(queue.Contents()) != []
          && queue.Contents() == old(queue.Contents())[1..]
        case Whole(f, n) =>
          && f.Valid() && View() == OnFrame(text, old(View()), f) && go == Continues(text, f)
          && 0 < n <= |old(queue.Contents())| && queue.Contents() == old(queue.Contents())[n..]
    {
      hide Continues, OnFrame, Consistent;
      var look := WorkerMux.TakeFrame(queue);
      match look
      case Wait => return false;
      case Desync =>
        queue.Consume(1);
        return false;
      case Whole(f, n) =>
        go := HandleFrame(f);
    }

    // ----- socket callbacks -----

    method OnConnect(h: nat)
      requires Valid() && h in entries && entries[h].TcpEntry? && !entries[h].connected
      modifies `entries, `tx
      ensures Valid() && View() == MuxStreams.OnConnect(old(View()), h)
    {
      OnConnectKeeps(View(), h);
      ConnectFlushes(View(), h);
      hide Consistent, MuxStreams.OnConnect;
      var e := entries[h];
      if |e.pending| == 0 {
        assert e.(connected := true) == Flushed(e);
        entries := entries[h := e.(connected := true)];
        return;
      }
      AddTx(h, |e.pending|);
      entries := entries[h := e.(connected := true, pending := [], sent := e.sent + e.pending)];
    }

    /** Bytes from a target; a target whose bytes the client refuses is paused until the client drains. */
    method OnTargetData(h: nat, data: bytes) returns (ghost refused: bool)
      requires Valid() && Listens(View(), h)
      modifies session`out, session`clientOwes, session`paused, session`stalled
      ensures Valid() && View() == MuxStreams.OnTargetData(old(View()), h, data)
      ensures session.clientOwes == (old(session.clientOwes) || refused)
      ensures session.stalled == old(session.stalled) + if refused then {h} else {}
    {
      hide Consistent;
      refused := false;
      SendKeepKeeps(View(), entries[h].id, data);
      if session.phase.Dead? || closed { return; }
      var writable := SendKeep(entries[h].id, data);
      refused := !writable;
      if !writable { session.PauseSource(h); }
    }

    method OnDatagram(h: nat, port: nat, quad: Option<bytes>, data: bytes)
      requires Valid() && Listens(View(), h) && |data| <= 65535 && (quad.Some? ==> |quad.value| == 4)
      modifies session`out, session`clientOwes
      ensures Valid() && View() == MuxStreams.OnDatagram(old(View()), h, port, quad, data)
    {
      if session.phase.Dead? || closed { return; }
      Downlink.NeverTooLong(entries[h].id, port, data, quad);
      var _ := session.SendMux(Downlink.MetaUdpFrom(entries[h].id, port, quad), true, data);
    }

    method OnTargetClose(h: nat)
      requires Valid() && Listens(View(), h)
      modifies this, session`out, session`clientOwes
      ensures Valid() && View() == MuxStreams.OnTargetClose(old(View()), h)
    {
      if session.phase.Dead? || closed { return; }
      var id := entries[h].id;
      SendEndKeeps(View(), id);
      EndStreamKeeps(MuxStreams.SendEnd(View(), id), id);
      hide Consistent;
      SendEnd(id);
      assert View().(closed := false) == View();
      EndStream(id);
    }

    /**
     The End frame goes out from here, because tearing the entry down silences its close event.  An error
     may come late, from a socket that outlived its place in the tables; it changes nothing then.
     */
    method OnTargetError(h: nat)
      requires Valid() && Listens(View(), h)
      modifies this, session`out, session`clientOwes
      ensures Valid() && View() == MuxStreams.OnTargetError(old(View()), h)
    {
      var id := entries[h].id;
      SendEndKeeps(View(), id);
      EndStreamKeeps(MuxStreams.SendEnd(View(), id), id);
      EndStreamKeeps(View(), id);
      ReopenedKeeps(View());
      ReopenedKeeps(MuxStreams.SendEnd(View(), id));
      hide Consistent;
      if !session.phase.Dead? && !closed { SendEnd(id); }
      EndStream(id);
    }
  }

  ghost function Flushed(e: Entry): Entry
    requires e.TcpEntry?
  {
    e.(connected := true, pending := [], sent := e.sent + e.pending)
  }

  lemma ConnectFlushes(s: State, h: nat)
    requires h in s.entries && s.entries[h].TcpEntry? && !s.entries[h].connected
    ensures var e := s.entries[h];
            var t := s.(entries := s.entries[h := Flushed(e)]);
            MuxStreams.OnConnect(s, h)
            == if e.pending == [] then t else t.(tx := s.tx[h := Get(s.tx, h, 0) + |e.pending|])
  {
  }

  lemma ReopenedKeeps(s: State)
    requires Consistent(s)
    ensures Consistent(s.(closed := false))
  {
  }

  lemma SendKeepKeeps(s: State, id: nat, data: bytes)
    requires Consistent(s)
    ensures Consistent(MuxStreams.SendKeep(s, id, data))
  {
  }

  lemma FoldNone(text: Text, s: State)
    ensures Fold(text, s, []) == s
  {
  }

  lemma FoldSnoc(text: Text, s: State, frames: seq<Frame>, f: Frame)
    requires |f.meta| >= 4
    ensures Fold(text, s, frames + [f]) == OnFrame(text, Fold(text, s, frames), f)
  {
    assert (frames + [f])[..|frames|] == frames;
  }
}
