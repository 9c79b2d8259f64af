/**
 The whole uplink, from the bytes on a client's socket to what each kind of relay does with them.
 TCP cuts the stream anywhere, WebSocket cuts it into frames and messages, and neither can be seen.
 */
module EndToEnd {
  import opened Bytes
  import opened Options
  import opened Pump
  import opened Reassembly
  import Streams
  import HttpHead
  import Vless
  import WsFrames
  import MuxWire
  import Datagrams
  import Relays

  /** The frames of a client as the session sees them. */
  ghost function Sent(wires: seq<WsFrames.Wire>): seq<Frame> {
    Streams.Map((w: WsFrames.Wire) => w.Seen(), wires)
  }

  /** A request head that is complete, fits the buffer and upgrades. */
  ghost predicate Upgrades(env: Env, head: bytes) {
    && HttpHead.HeadEnd(head, 0) + 4 == |head| && |head| >= 4
    && |head| - 1 <= env.maxHeaderBytes
    && env.parseHead(head).Some? && AsksForTunnel(env, env.parseHead(head).value)
    && KeyOf(env.parseHead(head).value) != ""
  }

  /** The state an upgraded connection starts from. */
  ghost function Upgraded(env: Env, head: bytes): State
    requires Upgrades(env, head)
  {
    State(Ws, [], [], None, [env.upgradeResponse(KeyOf(env.parseHead(head).value))])
  }

  lemma HeadIsAnswered(env: Env, head: bytes, body: bytes)
    requires Upgrades(env, head)
    ensures Steady(env, head + body)
    ensures HttpStep(env, START.(inbound := head + body)) == Upgraded(env, head).(inbound := body)
  {
    var req := env.parseHead(head).value;
    DispatchIs(env, req);
    assert AsksForTunnel(env, req) ==> !IsAdmin(req) && !AsksForInvite(env, req);
    hide Dispatch, AsksForTunnel, AsksForInvite, IsAdmin, KeyOf;
    HttpHead.HeadEndStable(head, body);
    assert (head + body)[..|head|] == head && (head + body)[|head|..] == body;
  }

  /**
   Any chunking of a head and what is behind it runs exactly the whole frames there are, and keeps the rest
   queued.
   */
  lemma ChunksRunFrames(env: Env, head: bytes, body: bytes, chunks: seq<bytes>)
    requires Upgrades(env, head) && Concat(chunks) == head + body
    ensures var (frames, rest) := Streams.Walk(WsFrames.Decode, body);
            var t := Run(env, Upgraded(env, head), frames);
            FeedAll(env, chunks) == if t.phase.Ws? then t.(inbound := rest) else t
  {
    HeadIsAnswered(env, head, body);
    hide HttpStep, FeedAll, Feed, Run, Steady;
    ChunksJoin(env, chunks);
    FirstFeed(env, head + body);
    var s := Upgraded(env, head);
    assert s.(inbound := body).(inbound := []) == s;
  }

  /**
   The tunnel is transparent at every moment: for every upgrade, every stream behind it, whole or cut off
   inside a frame, and every way TCP may cut its bytes, the session accounts for exactly the payload of the
   frames that are whole, up to the client's close, and what is left of the stream stays queued.  The client
   has only to keep the order, as every client does that fragments legally.
   */
  lemma TunnelIsTransparent(env: Env, head: bytes, body: bytes, chunks: seq<bytes>)
    requires Upgrades(env, head) && Concat(chunks) == head + body
    requires OrderKept(env, Upgraded(env, head), Heard(Streams.Walk(WsFrames.Decode, body).0))
    ensures var (frames, rest) := Streams.Walk(WsFrames.Decode, body);
            var s := Run(env, Upgraded(env, head), Heard(frames));
            && Accounts(env, s, DataOf(Heard(frames)), OpenAfterAll(Heard(frames), false))
            && FeedAll(env, chunks) == (if Closes(frames) then Destroy(s) else if s.phase.Ws? then s.(inbound := rest)
                                        else s)
            && FeedAll(env, chunks).out == Upgraded(env, head).out + Returns(env, [], true, Heard(frames))
  {
    var s, frames := Upgraded(env, head), Streams.Walk(WsFrames.Decode, body).0;
    ChunksRunFrames(env, head, body, chunks);
    UpgradedAccounts(env, s);
    RunAccounts(env, s, [], frames, false);
    HeardFirst(frames);
    ClientIsSent(env, s, [], Heard(frames), false);
    assert [] + DataOf(Heard(frames)) == DataOf(Heard(frames));
    hide Returns, Accounts, Run, Heard, Closes, OrderKept, OpenAfterAll, DataOf, Streams.Walk, FeedAll;
  }

  /**
   In particular of a client that fragments as section 5.4 of RFC 6455 says: for every sequence of frames
   below 2^32 bytes, masked or not, with any length form, any control frames in between and any way of
   ending; and when that is a whole number of messages, the relay is the one its header asks for and it has
   been given exactly the rest.
   */
  lemma LegalFramesArrive(env: Env, head: bytes, wires: seq<WsFrames.Wire>, chunks: seq<bytes>)
    requires Upgrades(env, head)
    requires forall w <- wires :: w.Readable()
    requires Concat(chunks) == head + Concat(Streams.Map(WsFrames.WireBytes, wires))
    requires Fragmented(Heard(Sent(wires)), false)
    ensures var heard := Heard(Sent(wires));
            var s := Run(env, Upgraded(env, head), heard);
            && Accounts(env, s, DataOf(heard), OpenAfterAll(heard, false))
            && FeedAll(env, chunks) == (if Closes(Sent(wires)) then Destroy(s) else s)
            && (!OpenAfterAll(heard, false) ==> Answers(env, FeedAll(env, chunks), DataOf(heard), Closes(Sent(wires))))
  {
    var s, frames, body := Upgraded(env, head), Sent(wires), Concat(Streams.Map(WsFrames.WireBytes, wires));
    var heard := Heard(frames);
    SentIsWalked(wires);
    HeardFirst(frames);
    UpgradedAccounts(env, s);
    LegalKeepsOrder(env, s, [], heard, false);
    TunnelIsTransparent(env, head, body, chunks);
    RunKeepsInbound(env, s, heard);
    hide Accounts, Answers, Run, Heard, Closes, Fragmented, OpenAfterAll, DataOf, Sent, FeedAll, Upgrades, OrderKept;
    RunIsHeard(env, s, frames);
    if !OpenAfterAll(heard, false) { WholeAccounts(env, s, frames); }
  }

  lemma SentIsWalked(wires: seq<WsFrames.Wire>)
    requires forall w <- wires :: w.Readable()
    ensures Streams.Walk(WsFrames.Decode, Concat(Streams.Map(WsFrames.WireBytes, wires))) == (Sent(wires), [])
  {
    var body := Concat(Streams.Map(WsFrames.WireBytes, wires));
    assert body + [] == body && WsFrames.Decode([]).Need?;
    WsFrames.WalkRecoversFrames(wires, []);
  }

  // ----- the three relays -----

  /** The TCP relay: sent and pending bytes are the payload, wherever the connection came in between. */
  lemma TcpCarriesPayload(writes: seq<bytes>, events: seq<Relays.Event>)
    requires writes != []
    requires Relays.Written(events) == Concat(writes[1..])
    ensures var t := Relays.Run(Relays.Tcp(false, writes[0], []), events);
            t.sent + t.pending == Concat(writes) && (Relays.Connect in events ==> t.sent == Concat(writes))
  {
    Relays.RunDelivers(Relays.Tcp(false, writes[0], []), events);
    assert [] + writes[0] == writes[0];
  }

  /** The UDP relay: the datagrams sent on are those in the payload. */
  lemma UdpCarriesDatagrams(writes: seq<bytes>)
    ensures Streams.Feed(Datagrams.Datagram, [], writes) == Streams.Walk(Datagrams.Datagram, Concat(writes))
  {
    Datagrams.DatagramStable();
    Streams.ChunkingIsInvisible(Datagrams.Datagram, [], writes);
    assert [] + Concat(writes) == Concat(writes);
  }

  /** The mux relay: on a well-formed payload the frames dispatched are those in the payload. */
  lemma MuxCarriesFrames(env: Env, writes: seq<bytes>)
    requires MuxWire.WellFormed(env.auth.text, Concat(writes))
    ensures MuxWire.NodeFeed(env.auth.text, [], writes) == Streams.Walk(MuxWire.CutFrame, Concat(writes))
  {
    MuxWire.NodeFollowsWalk(env.auth.text, Concat(writes));
    MuxWire.WellFormedSettles(env.auth.text, Concat(writes));
    assert [] + Concat(writes) == Concat(writes);
    MuxWire.NodeFeedIsDrain(env.auth.text, [], writes);
  }

  /**
   A mux client's frames arrive as they were built: VLESS header, then mux frames, cut into WebSocket
   frames and messages and TCP chunks in any legal way, are dispatched one by one in order.
   */
  lemma MuxFramesArrive(env: Env, head: bytes, wires: seq<WsFrames.Wire>, chunks: seq<bytes>,
                        header: Vless.Header, frames: seq<MuxWire.Frame>)
    requires Upgrades(env, head)
    requires forall w <- wires :: w.Readable()
    requires Concat(chunks) == head + Concat(Streams.Map(WsFrames.WireBytes, wires))
    requires Fragmented(Heard(Sent(wires)), false) && !OpenAfterAll(Heard(Sent(wires)), false)
    requires header.Valid() && header.cmd == 3 && env.auth.lookup(header.uuid).Some?
    requires forall f <- frames :: f.Valid() && MuxWire.Continues(env.auth.text, f)
    requires DataOf(Heard(Sent(wires))) == header.Bytes() + Concat(Streams.Map(MuxWire.Wire, frames))
    ensures var t := FeedAll(env, chunks);
            && t.relay.Some? && t.relay.value.request.cmd == 3 && (t.phase.Ws? <==> !Closes(Sent(wires)))
            && MuxWire.NodeFeed(env.auth.text, [], t.relay.value.writes) == (frames, [])
  {
    var rest := Concat(Streams.Map(MuxWire.Wire, frames));
    LegalFramesArrive(env, head, wires, chunks);
    Vless.ParseReadsHeader(env.auth, header, rest);
    hide FeedAll, Fragmented, OpenAfterAll, DataOf, Heard, Closes, Run, Accounts, Vless.ParseHeader;
    var writes := FeedAll(env, chunks).relay.value.writes;
    assert (header.Bytes() + rest)[|header.Bytes()|..] == rest;
    assert rest + [] == rest && MuxWire.LookAt([]).Wait?;
    MuxWire.NodeRecoversFrames(env.auth.text, frames, [], writes);
  }
}
