/**
 Whole runs of the mux session as the object it is: whatever happens to it, in whatever order and with
 whatever answers from the client's socket, it is in the state that the run of the events says, and no
 source stays paused without being owed the drain that resumes it.
 */
module MuxDrives {
  import opened Bytes
  import opened Options
  import opened Names
  import opened Streams
  import opened MuxWire
  import opened MuxStreams
  import opened MuxBooks
  import opened MuxSessions
  import MuxLives
  import MuxReplies

  // ----- the frames of a pass are events of a run -----

  ghost function Arrivals(frames: seq<Frame>): seq<Event> {
    Map((f: Frame) => Arrives(f), frames)
  }

  lemma {:induction false} FoldIsRun(text: Text, events: seq<Event>, frames: seq<Frame>)
    requires !Run(text, events).closed && forall f <- frames :: |f.meta| >= 4
    ensures Run(text, events + Arrivals(frames)) == Fold(text, Run(text, events), frames)
    ensures !Run(text, events + Arrivals(frames)).closed
    decreases |frames|
  {
    if frames == [] {
      assert events + Arrivals(frames) == events;
    } else {
      var n := |frames| - 1;
      var before, f := events + Arrivals(frames[..n]), frames[n];
      assert events + Arrivals(frames) == before + [Arrives(f)] && frames[..n] + [f] == frames;
      hide *;
      FoldIsRun(text, events, frames[..n]);
      FoldSnoc(text, Run(text, events), frames[..n], f);
      OneArrives(text, before, f);
    }
  }

  lemma OneArrives(text: Text, before: seq<Event>, f: Frame)
    requires |f.meta| >= 4 && !Run(text, before).closed
    ensures Run(text, before + [Arrives(f)]) == OnFrame(text, Run(text, before), f)
    ensures !Run(text, before + [Arrives(f)]).closed
  {
    hide OnFrame, Run, NeverReuses;
    BooksBalance(text, before);
    FrameArrives(text, before, f);
    MuxLives.FrameFollows(text, Run(text, before), f);
  }

  lemma {:induction false} DrainedAreWhole(text: Text, buf: bytes)
    ensures forall f <- NodeDrain(text, buf).0 :: |f.meta| >= 4
    decreases |buf|
  {
    match LookAt(buf)
    case Whole(f, n) =>
      LookedIsWire(buf);
      DrainedAreWhole(text, buf[n..]);
    case _ =>
  }

  // ----- the object's state and the run's -----

  /** The state of a session whose client socket had been given `base` before, and which may have died. */
  ghost function Shown(s: State, base: seq<bytes>, mute: bool): State {
    s.(out := base + s.out, mute := mute)
  }

  lemma TablesShown(s: State, base: seq<bytes>, m: bool, id: nat, data: bytes, host: string, port: nat)
    ensures OpenTcp(Shown(s, base, m), id, data) == Shown(OpenTcp(s, id, data), base, m)
    ensures OpenUdp(Shown(s, base, m), id, host, port) == Shown(OpenUdp(s, id, host, port), base, m)
    ensures Retarget(Shown(s, base, m), id, host, port) == Shown(Retarget(s, id, host, port), base, m)
  {
  }

  lemma SendUdpShown(s: State, base: seq<bytes>, m: bool, h: nat, data: bytes)
    ensures SendUdp(Shown(s, base, m), h, data) == Shown(SendUdp(s, h, data), base, m)
  {
  }

  lemma DataShown(s: State, base: seq<bytes>, m: bool, id: nat, h: nat, data: bytes)
    ensures SendUdp(Shown(s, base, m), h, data) == Shown(SendUdp(s, h, data), base, m)
    ensures Deliver(Shown(s, base, m), id, data) == Shown(Deliver(s, id, data), base, m)
  {
    SendUdpShown(s, base, m, h, data);
    if id in s.udp { SendUdpShown(s, base, m, s.udp[id], data); }
    hide SendUdp;
    if id in s.tcp && data != [] {
      TcpShown(s, base, m, id, data);
    }
  }

  lemma TcpShown(s: State, base: seq<bytes>, m: bool, id: nat, data: bytes)
    requires id in s.tcp && data != []
    ensures Deliver(Shown(s, base, m), id, data) == Shown(Deliver(s, id, data), base, m)
  {
    hide SendUdp;
    var t := Shown(s, base, m);
    assert t.tcp == s.tcp && t.entries == s.entries && t.tx == s.tx;
    if s.tcp[id] in s.entries && s.entries[s.tcp[id]].TcpEntry? {
      assert CountTx(t, s.tcp[id], |data|) == Shown(CountTx(s, s.tcp[id], |data|), base, m);
    } else if id in s.udp {
      SendUdpShown(s, base, m, s.udp[id], data);
    }
  }

  lemma EndShown(s: State, base: seq<bytes>, m: bool, id: nat)
    ensures EndStream(Shown(s, base, m), id) == Shown(EndStream(s, id), base, m)
  {
    assert EndTcp(Shown(s, base, m), id) == Shown(EndTcp(s, id), base, m);
  }

  lemma ConnectShown(s: State, base: seq<bytes>, m: bool, h: nat)
    ensures OnConnect(Shown(s, base, m), h) == Shown(OnConnect(s, h), base, m)
  {
    var t := Shown(s, base, m);
    assert t.entries == s.entries && t.tx == s.tx;
    if h in s.entries && s.entries[h].TcpEntry? && !s.entries[h].connected {
      var e := s.entries[h];
      var entries := s.entries[h := e.(connected := true, pending := [], sent := e.sent + e.pending)];
      assert t.(entries := entries) == Shown(s.(entries := entries), base, m);
      assert CountTx(t.(entries := entries), h, |e.pending|)
        == Shown(CountTx(s.(entries := entries), h, |e.pending|), base, m);
    }
  }

  lemma CloseShown(s: State, base: seq<bytes>, m: bool)
    ensures Close(Shown(s, base, m)) == Shown(Close(s), base, m)
  {
  }

  lemma SendShown(s: State, base: seq<bytes>, id: nat, data: bytes, port: nat, quad: Option<bytes>)
    requires !s.mute
    ensures SendEnd(Shown(s, base, false), id) == Shown(SendEnd(s, id), base, false)
    ensures SendKeep(Shown(s, base, false), id, data) == Shown(SendKeep(s, id, data), base, false)
    ensures SendUdpFrom(Shown(s, base, false), id, port, quad, data)
            == Shown(SendUdpFrom(s, id, port, quad, data), base, false)
  {
  }

  lemma FrameShown(text: Text, s: State, base: seq<bytes>, f: Frame)
    requires !s.mute && |f.meta| >= 4
    ensures OnFrame(text, Shown(s, base, false), f) == Shown(OnFrame(text, s, f), base, false)
  {
    hide Shown, ReadTarget, IsBlocked, OpenTcp, OpenUdp, SendUdp, SendEnd, EndStream, Deliver, Retarget;
    NextShown(s, base);
    SendShown(s, base, f.Id(), [], 0, None);
    DataShown(s, base, false, f.Id(), 0, f.Payload());
    EndShown(s, base, false, f.Id());
    if ReadTarget(text, f.meta).Some? {
      var t := ReadTarget(text, f.meta).value;
      TablesShown(s, base, false, f.Id(), f.Payload(), t.host, t.port);
      DataShown(OpenUdp(s, f.Id(), t.host, t.port), base, false, 0, s.next, f.Payload());
      DataShown(Retarget(s, f.Id(), t.host, t.port), base, false, f.Id(), 0, f.Payload());
    }
  }

  lemma NextShown(s: State, base: seq<bytes>)
    ensures Shown(s, base, false).next == s.next
  {
  }

  lemma SameShown(s: State, base: seq<bytes>, m: bool)
    ensures var t := Shown(s, base, m); t.closed == s.closed && t.mute == m && t.entries == s.entries
  {
  }

  /** What went before does not matter to a step, nor that the session has died once the mux is closed. */
  lemma StepShown(text: Text, s: State, base: seq<bytes>, m: bool, e: Event)
    requires !s.mute && (m ==> s.closed)
    ensures Step(text, Shown(s, base, m), e) == Shown(Step(text, s, e), base, m)
  {
    SameShown(s, base, m);
    hide Shown, OnFrame, OnConnect, Close, SendEnd, SendKeep, SendUdpFrom, EndStream;
    match e
    case Arrives(f) => if !s.closed && |f.meta| >= 4 { FrameShown(text, s, base, f); }
    case Connects(h) => ConnectShown(s, base, m, h);
    case Data(h, data) => if Listens(s, h) { SendShown(s, base, s.entries[h].id, data, 0, None); }
    case Received(h, port, quad, data) => if Listens(s, h) { SendShown(s, base, s.entries[h].id, data, port, quad); }
    case Closes(h) =>
      if Listens(s, h) {
        SendShown(s, base, s.entries[h].id, [], 0, None);
        EndShown(SendEnd(s, s.entries[h].id), base, m, s.entries[h].id);
      }
    case Fails(h) =>
      if Listens(s, h) {
        SendShown(s, base, s.entries[h].id, [], 0, None);
        EndShown(SendEnd(s, s.entries[h].id), base, m, s.entries[h].id);
        EndShown(s, base, m, s.entries[h].id);
      }
    case Stop => CloseShown(s, base, m);
  }

  lemma {:induction false} FoldShown(text: Text, s: State, base: seq<bytes>, frames: seq<Frame>)
    requires !s.mute && !s.closed && Consistent(s)
    ensures !Fold(text, s, frames).mute && Consistent(Fold(text, s, frames))
    ensures !Fold(text, s, frames).closed
    ensures Fold(text, Shown(s, base, false), frames) == Shown(Fold(text, s, frames), base, false)
    decreases |frames|
  {
    if frames != [] && |frames[|frames| - 1].meta| >= 4 {
      var before, f := frames[..|frames| - 1], frames[|frames| - 1];
      FoldShown(text, s, base, before);
      var t := Fold(text, s, before);
      FrameShown(text, t, base, f);
      MuxLives.FrameFollows(text, t, f);
      StepKeeps(text, t, Arrives(f));
      hide OnFrame, Consistent, Shown;
    }
  }

  // ----- whole runs of the object -----

  datatype Happening =
    | Passes(payload: bytes)
    | Happens(event: Event)
    | ClientDrains
    | SessionEnds

  /** The session passes payloads on, sockets do the rest. */
  predicate Real(h: Happening) {
    h.Happens? ==> !h.event.Arrives? && MuxReplies.Possible(h.event)
  }

  /** What a happening adds to the events of a run, and what it leaves in the queue. */
  ghost function Next(text: Text, events: seq<Event>, rest: bytes, h: Happening): (seq<Event>, bytes) {
    match h
    case Passes(payload) =>
      if Stop in events then (events, rest) else
      var (frames, left) := NodeDrain(text, rest + payload);
      (events + Arrivals(frames), left)
    case Happens(e) => (events + [e], if e.Stop? && Stop !in events then [] else rest)
    case ClientDrains => (events, rest)
    case SessionEnds => (events + [Stop], if Stop !in events then [] else rest)
  }

  /** The events of a run of happenings, and the bytes left in the queue. */
  ghost function Plot(text: Text, happenings: seq<Happening>): (seq<Event>, bytes)
    decreases |happenings|
  {
    if happenings == [] then ([], []) else
    var (events, rest) := Plot(text, happenings[..|happenings| - 1]);
    Next(text, events, rest, happenings[|happenings| - 1])
  }

  lemma PlotSnoc(text: Text, happenings: seq<Happening>, i: nat)
    requires i < |happenings|
    ensures var (events, rest) := Plot(text, happenings[..i]);
            Plot(text, happenings[..i + 1]) == Next(text, events, rest, happenings[i])
  {
    assert happenings[..i + 1][..i] == happenings[..i];
  }

  lemma NoPlot(text: Text)
    ensures Plot(text, []) == ([], [])
  {
  }

  ghost function FramesOf(events: seq<Event>): seq<Frame>
    decreases |events|
  {
    if events == [] then [] else
    var e := events[|events| - 1];
    FramesOf(events[..|events| - 1]) + if e.Arrives? then [e.frame] else []
  }

  ghost function Payloads(happenings: seq<Happening>): seq<bytes>
    decreases |happenings|
  {
    if happenings == [] then [] else
    var h := happenings[|happenings| - 1];
    Payloads(happenings[..|happenings| - 1]) + if h.Passes? then [h.payload] else []
  }

  lemma {:induction false} FramesOfArrivals(events: seq<Event>, frames: seq<Frame>)
    ensures FramesOf(events + Arrivals(frames)) == FramesOf(events) + frames
    decreases |frames|
  {
    if frames == [] {
      assert events + Arrivals(frames) == events;
    } else {
      var n := |frames| - 1;
      FramesOfArrivals(events, frames[..n]);
      assert (events + Arrivals(frames))[..|events| + n] == events + Arrivals(frames[..n]);
      assert frames[..n] + [frames[n]] == frames;
    }
  }

  lemma FramesOfSnoc(events: seq<Event>, e: Event)
    ensures FramesOf(events + [e]) == FramesOf(events) + if e.Arrives? then [e.frame] else []
  {
    assert (events + [e])[..|events|] == events;
  }

  lemma {:induction false} NodeFeedSnoc(text: Text, rest: bytes, chunks: seq<bytes>, last: bytes)
    ensures var (frames, left) := NodeFeed(text, rest, chunks);
            var (more, end) := NodeDrain(text, left + last);
            NodeFeed(text, rest, chunks + [last]) == (frames + more, end)
    decreases |chunks|
  {
    hide NodeDrain;
    if chunks == [] {
      var one, none: seq<bytes> := [last], [];
      assert chunks + [last] == one && one[1..] == none;
      var (more, end) := NodeDrain(text, rest + last);
      assert NodeFeed(text, end, none) == ([], end) && [] + more == more + [] == more;
    } else {
      var (first, behind) := NodeDrain(text, rest + chunks[0]);
      assert (chunks + [last])[1..] == chunks[1..] + [last];
      NodeFeedSnoc(text, behind, chunks[1..], last);
      var (frames, left) := NodeFeed(text, behind, chunks[1..]);
      assert first + (frames + NodeDrain(text, left + last).0) == first + frames + NodeDrain(text, left + last).0;
    }
  }

  /** While nothing has ended, the frames among the events are those the parser finds in the payloads. */
  lemma {:induction false} PlotIsFed(text: Text, happenings: seq<Happening>)
    requires forall h <- happenings :: Real(h)
    requires Stop !in Plot(text, happenings).0
    ensures var (events, rest) := Plot(text, happenings);
            (FramesOf(events), rest) == NodeFeed(text, [], Payloads(happenings))
    decreases |happenings|
  {
    if happenings == [] {
      assert Payloads(happenings) == [] && Plot(text, happenings) == ([], []) && FramesOf([]) == [];
      assert NodeFeed(text, [], Payloads(happenings)) == ([], []);
    } else {
      var n := |happenings| - 1;
      var (events, rest) := Plot(text, happenings[..n]);
      assert Stop !in events by { NextKeeps(text, events, rest, happenings[n]); }
      PlotIsFed(text, happenings[..n]);
      hide NodeFeed, NodeDrain;
      var h := happenings[n];
      assert Real(h) && (h.SessionEnds? ==> Stop in events + [Stop]);
      if h.Passes? {
        NodeFeedSnoc(text, [], Payloads(happenings[..n]), h.payload);
        FramesOfArrivals(events, NodeDrain(text, rest + h.payload).0);
      } else {
        assert Payloads(happenings[..n]) + [] == Payloads(happenings[..n]);
        if h.Happens? {
          assert h.event in events + [h.event];
          assert FramesOf(events) + [] == FramesOf(events);
          FramesOfSnoc(events, h.event);
        }
      }
    }
  }

  lemma NextKeeps(text: Text, events: seq<Event>, rest: bytes, h: Happening)
    ensures events <= Next(text, events, rest, h).0
  {
  }

  /** A callback of one of the sockets, or the end; one that no socket can make any more does nothing. */
  method Happen(mux: MuxSession, e: Event)
    requires mux.Valid() && !e.Arrives? && MuxReplies.Possible(e)
    modifies mux, mux.queue, mux.session`out, mux.session`clientOwes, mux.session`paused, mux.session`stalled
    ensures mux.Valid() && mux.View() == Step(mux.text, old(mux.View()), e)
    ensures mux.queue.Contents() == if e.Stop? && !old(mux.closed) then [] else old(mux.queue.Contents())
  {
    hide Consistent, MuxStreams.OnTargetData, MuxStreams.OnDatagram, MuxStreams.OnTargetClose, MuxStreams.OnTargetError;
    Idle(mux.View(), e);
    match e
    case Connects(h) =>
      if h in mux.entries && mux.entries[h].TcpEntry? && !mux.entries[h].connected { mux.OnConnect(h); }
    case Data(h, data) => if h in mux.entries && mux.entries[h].listening { var _ := mux.OnTargetData(h, data); }
    case Received(h, port, quad, data) =>
      if h in mux.entries && mux.entries[h].listening { mux.OnDatagram(h, port, quad, data); }
    case Closes(h) => if h in mux.entries && mux.entries[h].listening { mux.OnTargetClose(h); }
    case Fails(h) => if h in mux.entries && mux.entries[h].listening { mux.OnTargetError(h); }
    case Stop => mux.Close();
  }

  lemma Idle(s: State, e: Event)
    ensures match e
      case Connects(h) => h !in s.entries || !s.entries[h].TcpEntry? || s.entries[h].connected ==> OnConnect(s, h) == s
      case Data(h, data) => !Listens(s, h) ==> OnTargetData(s, h, data) == s
      case Received(h, port, quad, data) => !Listens(s, h) ==> OnDatagram(s, h, port, quad, data) == s
      case Closes(h) => !Listens(s, h) ==> OnTargetClose(s, h) == s
      case Fails(h) => !Listens(s, h) ==> OnTargetError(s, h) == s
      case _ => true
  {
  }

  /** The object is where the run of these events is. */
  ghost predicate Tracks(mux: MuxSession, base: seq<bytes>, events: seq<Event>, rest: bytes)
    reads mux, mux.queue, mux.session, mux.session.inbound, mux.session.message
  {
    && mux.Valid() && mux.queue.Contents() == rest
    && mux.View() == Shown(Run(mux.text, events), base, mux.session.phase.Dead?)
    && (mux.session.phase.Dead? ==> Stop in events)
  }

  method PassOn(mux: MuxSession, payload: bytes, ghost base: seq<bytes>, ghost events: seq<Event>, ghost rest: bytes)
    requires Tracks(mux, base, events, rest)
    modifies mux, mux.queue, mux.session`out, mux.session`clientOwes
    ensures var (told, left) := Next(mux.text, events, rest, Passes(payload)); Tracks(mux, base, told, left)
  {
    hide NodeDrain, Fold, Shown, Run;
    MuxLives.NeverMute(mux.text, events);
    SameShown(Run(mux.text, events), base, mux.session.phase.Dead?);
    if mux.closed { return; }
    ghost var frames := NodeDrain(mux.text, rest + payload).0;
    DrainedAreWhole(mux.text, rest + payload);
    RunPasses(mux.text, events, base, frames);
    mux.Write(payload);
  }

  method EndSession(mux: MuxSession, ghost base: seq<bytes>, ghost events: seq<Event>, ghost rest: bytes)
    requires Tracks(mux, base, events, rest)
    modifies mux, mux.queue, mux.session, mux.session.inbound, mux.session.message
    ensures mux.session.phase.Dead?
    ensures var (told, left) := Next(mux.text, events, rest, SessionEnds); Tracks(mux, base, told, left)
  {
    MuxLives.NeverMute(mux.text, events);
    RunSnoc(mux.text, events, base, true, Stop);
    hide Run, Consistent, MuxStreams.Close;
    mux.session.Destroy();
    assert mux.View() == Shown(Run(mux.text, events), base, true);
    mux.Close();
  }

  method OneHappening(mux: MuxSession, what: Happening, ghost base: seq<bytes>, ghost events: seq<Event>,
                      ghost rest: bytes)
    requires Tracks(mux, base, events, rest) && Real(what)
    modifies mux, mux.queue, mux.session, mux.session.inbound, mux.session.message
    ensures var (told, left) := Next(mux.text, events, rest, what); Tracks(mux, base, told, left)
  {
    match what
    case Passes(payload) => PassOn(mux, payload, base, events, rest);
    case Happens(e) =>
      MuxLives.NeverMute(mux.text, events);
      SameShown(Run(mux.text, events), base, mux.session.phase.Dead?);
      RunSnoc(mux.text, events, base, mux.session.phase.Dead?, e);
      hide Run, Consistent, Step, Shown;
      Happen(mux, e);
    case ClientDrains =>
      hide Run, Consistent, Shown;
      mux.session.OnDrain();
    case SessionEnds => EndSession(mux, base, events, rest);
  }

  /**
   From its construction on, whatever happens, the mux session is in the state of the run of its events, of
   which every theorem about runs speaks, with the frames that the parser finds among them; and while its
   client owes nothing, none of its sources is paused.
   */
  method Drive(mux: MuxSession, happenings: seq<Happening>)
    requires mux.Valid() && !mux.session.phase.Dead? && mux.queue.Contents() == []
    requires mux.View() == START.(out := mux.session.out)
    requires forall h <- happenings :: Real(h)
    modifies mux, mux.queue, mux.session, mux.session.inbound, mux.session.message
    ensures mux.Valid() && mux.session.NoLostWakeup()
    ensures !mux.session.phase.Dead? && !mux.session.clientOwes ==> mux.session.stalled == {}
    ensures var (events, rest) := Plot(mux.text, happenings);
            && mux.View() == Shown(Run(mux.text, events), old(mux.session.out), mux.session.phase.Dead?)
            && mux.queue.Contents() == rest
  {
    ghost var base := mux.session.out;
    assert base + [] == base && happenings[..0] == [];
    NoPlot(mux.text);
    hide Plot, Next;
    for i := 0 to |happenings|
      invariant Tracks(mux, base, Plot(mux.text, happenings[..i]).0, Plot(mux.text, happenings[..i]).1)
    {
      hide Tracks;
      PlotSnoc(mux.text, happenings, i);
      OneHappening(mux, happenings[i], base, Plot(mux.text, happenings[..i]).0, Plot(mux.text, happenings[..i]).1);
    }
    assert happenings[..|happenings|] == happenings;
  }

  lemma RunSnoc(text: Text, events: seq<Event>, base: seq<bytes>, m: bool, e: Event)
    requires m ==> Run(text, events).closed || e.Stop?
    ensures Step(text, Shown(Run(text, events), base, m), e) == Shown(Run(text, events + [e]), base, m)
  {
    assert (events + [e])[..|events|] == events;
    MuxLives.NeverMute(text, events);
    if e.Stop? { CloseShown(Run(text, events), base, m); }
    else { StepShown(text, Run(text, events), base, m, e); }
  }

  lemma RunPasses(text: Text, events: seq<Event>, base: seq<bytes>, frames: seq<Frame>)
    requires !Run(text, events).closed && forall f <- frames :: |f.meta| >= 4
    ensures Fold(text, Shown(Run(text, events), base, false), frames)
            == Shown(Run(text, events + Arrivals(frames)), base, false)
  {
    MuxLives.NeverMute(text, events);
    BooksBalance(text, events);
    FoldShown(text, Run(text, events), base, frames);
    FoldIsRun(text, events, frames);
  }
}
