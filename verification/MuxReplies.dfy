/** What a client of a mux session is sent over a whole run, and what it makes of it. */
module MuxReplies {
  import opened Bytes
  import opened Options
  import opened Names
  import opened Streams
  import opened MuxWire
  import opened MuxStreams
  import opened MuxBooks
  import MuxLives
  import Downlink
  import WsFrames

  /** A datagram socket delivers what a UDP packet can hold, from a peer whose address is a dotted quad or not. */
  predicate Possible(e: Event) {
    e.Received? ==> |e.data| <= MAX_CHUNK && (e.quad.Some? ==> |e.quad.value| == 4)
  }

  function EndFrame(id: nat): Frame {
    Frame(Downlink.MetaEnd(id), None)
  }

  function Reply(id: nat, port: nat, quad: Option<bytes>, data: bytes): Frame {
    Frame(Downlink.MetaUdpFrom(id, port, quad), Some(data))
  }

  /** The frames an event has the session send. */
  ghost function Replies(text: Text, s: State, e: Event): seq<Frame> {
    match e
    case Arrives(f) => if !s.closed && |f.meta| >= 4 && Refuses(text, f) then [EndFrame(f.Id())] else []
    case Data(h, data) => if Listens(s, h) && !s.closed then Downlink.KeepFrames(s.entries[h].id, data) else []
    case Received(h, port, quad, data) =>
      if Listens(s, h) && !s.closed then [Reply(s.entries[h].id, port, quad, data)] else []
    case Closes(h) => if Listens(s, h) && !s.closed then [EndFrame(s.entries[h].id)] else []
    case Fails(h) => if Listens(s, h) && !s.closed then [EndFrame(s.entries[h].id)] else []
    case _ => []
  }

  /** A frame that asks for a blocked host. */
  ghost predicate Refuses(text: Text, f: Frame)
    requires |f.meta| >= 4
  {
    && (f.Command() == NEW || (f.Command() == KEEP && Retargets(f)))
    && ReadTarget(text, f.meta).Some? && IsBlocked(text, ReadTarget(text, f.meta).value.host)
  }

  /** All frames of a run, in the order they go out. */
  ghost function AllReplies(text: Text, events: seq<Event>): seq<Frame>
    decreases |events|
  {
    if events == [] then [] else
    var before := events[..|events| - 1];
    AllReplies(text, before) + Replies(text, Run(text, before), events[|events| - 1])
  }

  /** What is given to the client's socket for these frames. */
  ghost function Lines(frames: seq<Frame>): seq<bytes> {
    Map(WsFrames.EncodeBinary, Map(Wire, frames))
  }

  lemma LinesAppend(a: seq<Frame>, b: seq<Frame>)
    ensures Lines(a + b) == Lines(a) + Lines(b)
  {
  }

  lemma OneLine(f: Frame)
    ensures Lines([f]) == [WsFrames.EncodeBinary(Wire(f))]
  {
  }

  // ----- one event -----

  lemma SendOut(s: State, id: nat, data: bytes, port: nat, quad: Option<bytes>)
    requires !s.mute
    ensures SendEnd(s, id).out == s.out + Lines([EndFrame(id)])
    ensures SendKeep(s, id, data).out == s.out + Lines(Downlink.KeepFrames(id, data))
    ensures SendUdpFrom(s, id, port, quad, data).out == s.out + Lines([Reply(id, port, quad, data)])
  {
    OneLine(EndFrame(id));
    OneLine(Reply(id, port, quad, data));
    hide Wire, WsFrames.EncodeBinary, Downlink.Pieces;
  }

  /** Everything else leaves the output alone. */
  lemma SameOut(s: State, id: nat, data: bytes, host: string, port: nat, h: nat)
    ensures OpenTcp(s, id, data).out == OpenUdp(s, id, host, port).out == SendUdp(s, h, data).out == s.out
    ensures EndStream(s, id).out == OnConnect(s, h).out == Close(s).out == s.out
  {
  }

  lemma DeliverOut(s: State, id: nat, data: bytes, host: string, port: nat)
    ensures Deliver(s, id, data).out == Retarget(s, id, host, port).out == s.out
  {
    SameOut(s, id, data, host, port, if id in s.udp then s.udp[id] else 0);
    hide SendUdp, OpenUdp;
  }

  lemma FrameOut(text: Text, s: State, f: Frame)
    requires !s.mute && !s.closed && |f.meta| >= 4
    ensures OnFrame(text, s, f).out == s.out + Lines(Replies(text, s, Arrives(f)))
  {
    hide ReadTarget, IsBlocked, OpenTcp, OpenUdp, SendUdp, SendEnd, EndStream, Deliver, Retarget;
    assert s.out + Lines([]) == s.out;
    SendOut(s, f.Id(), [], 0, None);
    SameOut(s, f.Id(), [], "", 0, 0);
    DeliverOut(s, f.Id(), f.Payload(), "", 0);
    hide Lines;
    if ReadTarget(text, f.meta).Some? {
      var t := ReadTarget(text, f.meta).value;
      SameOut(s, f.Id(), f.Payload(), t.host, t.port, 0);
      SameOut(OpenUdp(s, f.Id(), t.host, t.port), 0, f.Payload(), "", 0, s.next);
      DeliverOut(s, f.Id(), f.Payload(), t.host, t.port);
      DeliverOut(Retarget(s, f.Id(), t.host, t.port), f.Id(), f.Payload(), "", 0);
    }
  }

  lemma StepOut(text: Text, s: State, e: Event)
    requires !s.mute
    ensures Step(text, s, e).out == s.out + Lines(Replies(text, s, e))
  {
    assert s.out + Lines([]) == s.out;
    hide Lines, OnFrame, SendEnd, SendKeep, SendUdpFrom, EndStream, OnConnect, Close, Downlink.KeepFrames, Refuses;
    match e
    case Arrives(f) => if !s.closed && |f.meta| >= 4 { FrameOut(text, s, f); }
    case Connects(h) => SameOut(s, 0, [], "", 0, h);
    case Data(h, data) => if Listens(s, h) { SendOut(s, s.entries[h].id, data, 0, None); }
    case Received(h, port, quad, data) => if Listens(s, h) { SendOut(s, s.entries[h].id, data, port, quad); }
    case Closes(h) => if Listens(s, h) { GoneOut(s, s.entries[h].id); }
    case Fails(h) => if Listens(s, h) { GoneOut(s, s.entries[h].id); }
    case Stop => SameOut(s, 0, [], "", 0, 0);
  }

  lemma GoneOut(s: State, id: nat)
    requires !s.mute
    ensures EndStream(SendEnd(s, id), id).out == s.out + Lines([EndFrame(id)])
    ensures EndStream(s, id).out == s.out
  {
    SendOut(s, id, [], 0, None);
    SameOut(s, id, [], "", 0, 0);
    SameOut(SendEnd(s, id), id, [], "", 0, 0);
    hide *;
  }

  lemma {:induction false} RunOut(text: Text, events: seq<Event>)
    ensures Run(text, events).out == Lines(AllReplies(text, events))
    decreases |events|
  {
    if events == [] {
      assert Run(text, events) == START;
    } else {
      var before, e := events[..|events| - 1], events[|events| - 1];
      RunOut(text, before);
      MuxLives.NeverMute(text, before);
      StepOut(text, Run(text, before), e);
      LinesAppend(AllReplies(text, before), Replies(text, Run(text, before), e));
      hide Step, Lines, Replies;
    }
  }

  // ----- reading it back -----

  lemma EndIsValid(id: nat)
    requires id < 65536
    ensures EndFrame(id).Valid() && EndFrame(id).Id() == id && EndFrame(id).Command() == END
  {
    ReadBe16(id);
  }

  lemma ReplyIsValid(id: nat, port: nat, quad: Option<bytes>, data: bytes)
    requires id < 65536 && |data| <= MAX_CHUNK && (quad.Some? ==> |quad.value| == 4)
    ensures var f := Reply(id, port, quad, data);
            f.Valid() && f.Id() == id && f.Command() == KEEP && f.Payload() == data
  {
    ReadBe16(id);
    hide Be16, U16;
    assert Downlink.MetaKeep(id)[..2] == Be16(id);
  }

  lemma RepliesAreValid(text: Text, s: State, e: Event)
    requires Tidy(s) && Possible(e)
    ensures forall f <- Replies(text, s, e) :: f.Valid()
  {
    hide Downlink.KeepFrames, Refuses;
    match e
    case Arrives(f) => if |f.meta| >= 4 { EndIsValid(f.Id()); }
    case Data(h, data) => if Listens(s, h) { Downlink.KeepFramesAreValid(s.entries[h].id, data); }
    case Received(h, port, quad, data) => if Listens(s, h) { ReplyIsValid(s.entries[h].id, port, quad, data); }
    case Closes(h) => if Listens(s, h) { EndIsValid(s.entries[h].id); }
    case Fails(h) => if Listens(s, h) { EndIsValid(s.entries[h].id); }
    case _ =>
  }

  lemma {:induction false} AllAreValid(text: Text, events: seq<Event>)
    requires forall e <- events :: Possible(e)
    ensures forall f <- AllReplies(text, events) :: f.Valid()
    decreases |events|
  {
    if events == [] {
      assert AllReplies(text, events) == [];
    } else {
      var before := events[..|events| - 1];
      AllAreValid(text, before);
      RecordsFollowSockets(text, before);
      RepliesAreValid(text, Run(text, before), events[|events| - 1]);
      hide Replies, Tidy, Run;
    }
  }

  /** The mux frames a client finds: it decodes WebSocket frames and reads their payloads end to end. */
  ghost function ClientFrames(out: seq<bytes>): seq<Frame> {
    Walk(CutFrame, Concat(Map((f: WsFrames.Frame) => f.payload, Walk(WsFrames.Decode, Concat(out)).0))).0
  }

  lemma LinesReadBack(frames: seq<Frame>)
    requires forall f <- frames :: f.Valid()
    ensures Walk(WsFrames.Decode, Concat(Lines(frames))) == (Map(WsFrames.BinaryFrame, Map(Wire, frames)), [])
    ensures Walk(CutFrame, Concat(Map(Wire, frames))) == (frames, [])
  {
    var payloads := Map(Wire, frames);
    forall p | p in payloads
      ensures |p| < 0x1_0000_0000
    {
      var i :| 0 <= i < |payloads| && payloads[i] == p;
      assert frames[i].Valid();
    }
    assert CutFrame([]).Need? && Concat(payloads) + [] == Concat(payloads);
    WalkReadsFrames(frames, []);
    hide Walk, Wire;
    WsFrames.WalkRecoversPayloads(payloads);
  }

  lemma ClientReads(frames: seq<Frame>)
    requires forall f <- frames :: f.Valid()
    ensures ClientFrames(Lines(frames)) == frames
  {
    LinesReadBack(frames);
    hide Walk, Wire, Lines, Concat;
    var seen := Map(WsFrames.BinaryFrame, Map(Wire, frames));
    assert Map((f: WsFrames.Frame) => f.payload, seen) == Map(Wire, frames);
  }

  /** The data a client gets on an id. */
  ghost function DataFor(frames: seq<Frame>, id: nat): bytes
    decreases |frames|
  {
    if frames == [] then [] else
    var f := frames[|frames| - 1];
    DataFor(frames[..|frames| - 1], id) + if |f.meta| >= 4 && f.Command() == KEEP && f.Id() == id then f.Payload()
      else []
  }

  lemma {:induction false} DataForAppend(a: seq<Frame>, b: seq<Frame>, id: nat)
    ensures DataFor(a + b, id) == DataFor(a, id) + DataFor(b, id)
    decreases |b|
  {
    if b == [] {
      assert a + b == a && DataFor(a, id) + [] == DataFor(a, id);
    } else {
      assert (a + b)[..|a + b| - 1] == a + b[..|b| - 1];
      DataForAppend(a, b[..|b| - 1], id);
    }
  }

  lemma DataForOne(f: Frame, id: nat)
    requires |f.meta| >= 4
    ensures DataFor([f], id) == if f.Command() == KEEP && f.Id() == id then f.Payload() else []
  {
    assert [f][..0] == [] && DataFor([], id) == [];
  }

  lemma {:induction false} DataForKeeps(frames: seq<Frame>, own: nat, id: nat)
    requires forall f <- frames :: IsKeep(f, own)
    ensures DataFor(frames, id) == if own == id then Concat(Map((f: Frame) => f.Payload(), frames)) else []
    decreases |frames|
  {
    if frames == [] {
      assert DataFor(frames, id) == [];
    } else {
      var n := |frames| - 1;
      var payloads, last := Map((f: Frame) => f.Payload(), frames[..n]), frames[n].Payload();
      assert IsKeep(frames[n], own) && Map((f: Frame) => f.Payload(), frames) == payloads + [last];
      DataForKeeps(frames[..n], own, id);
      ConcatSnoc(payloads, last);
    }
  }

  ghost predicate IsKeep(f: Frame, id: nat) {
    |f.meta| >= 4 && f.Command() == KEEP && f.Id() == id
  }

  /** What a socket hands over, if it is one of the id's and still listens. */
  ghost function Handed(s: State, e: Event, id: nat): bytes {
    match e
    case Data(h, data) => if !s.closed && Listens(s, h) && s.entries[h].id == id then data else []
    case Received(h, _, _, data) => if !s.closed && Listens(s, h) && s.entries[h].id == id then data else []
    case _ => []
  }

  ghost function AllHanded(text: Text, events: seq<Event>, id: nat): bytes
    decreases |events|
  {
    if events == [] then [] else
    var before := events[..|events| - 1];
    AllHanded(text, before, id) + Handed(Run(text, before), events[|events| - 1], id)
  }

  lemma RepliesHand(text: Text, s: State, e: Event, id: nat)
    requires Tidy(s) && Possible(e)
    ensures DataFor(Replies(text, s, e), id) == Handed(s, e, id)
  {
    hide Downlink.KeepFrames, Refuses;
    assert DataFor([], id) == [];
    match e
    case Arrives(f) =>
      if |f.meta| >= 4 {
        EndIsValid(f.Id());
        DataForOne(EndFrame(f.Id()), id);
      }
    case Data(h, data) =>
      if Listens(s, h) {
        var own := s.entries[h].id;
        Downlink.KeepFramesAreValid(own, data);
        DataForKeeps(Downlink.KeepFrames(own, data), own, id);
      }
    case Received(h, port, quad, data) =>
      if Listens(s, h) {
        ReplyIsValid(s.entries[h].id, port, quad, data);
        DataForOne(Reply(s.entries[h].id, port, quad, data), id);
      }
    case Closes(h) => if Listens(s, h) { EndHands(s.entries[h].id, id); }
    case Fails(h) => if Listens(s, h) { EndHands(s.entries[h].id, id); }
    case _ =>
  }

  lemma EndHands(own: nat, id: nat)
    requires own < 65536
    ensures DataFor([EndFrame(own)], id) == []
  {
    EndIsValid(own);
    DataForOne(EndFrame(own), id);
  }

  /** What the replies carry on an id is what its sockets have handed over. */
  ghost predicate AllCarried(text: Text, events: seq<Event>, id: nat) {
    DataFor(AllReplies(text, events), id) == AllHanded(text, events, id)
  }

  lemma {:induction false} AllAreHanded(text: Text, events: seq<Event>, id: nat)
    requires forall e <- events :: Possible(e)
    ensures AllCarried(text, events, id)
    decreases |events|
  {
    if events == [] {
      assert AllReplies(text, events) == [];
    } else {
      var before, e := events[..|events| - 1], events[|events| - 1];
      AllAreHanded(text, before, id);
      RecordsFollowSockets(text, before);
      RepliesHand(text, Run(text, before), e, id);
      DataForAppend(AllReplies(text, before), Replies(text, Run(text, before), e), id);
      hide Replies, Tidy, Run, DataFor;
    }
  }

  /**
   For every run, a client that decodes all it has been sent finds exactly the frames of the events, in their
   order; and on each id it gets exactly the data that the sockets of this id have delivered while they were
   listened to, in order, however the substreams interleave.
   */
  lemma DownlinkIsFaithful(text: Text, events: seq<Event>, id: nat)
    requires forall e <- events :: Possible(e)
    ensures ClientFrames(Run(text, events).out) == AllReplies(text, events)
    ensures DataFor(ClientFrames(Run(text, events).out), id) == AllHanded(text, events, id)
  {
    RunOut(text, events);
    AllAreValid(text, events);
    ClientReads(AllReplies(text, events));
    AllAreHanded(text, events, id);
    assert DataFor(AllReplies(text, events), id) == AllHanded(text, events, id);
    hide *;
  }
}
