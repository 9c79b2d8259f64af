/**
 One client connection as a function of the bytes it sent (src/node/session.js): request head,
 WebSocket frames, message reassembly, VLESS header, and the messages handed to the relay.
 `Sessions.Session` is the machine that computes this chunk by chunk.
 */
module Pump {
  import opened Bytes
  import opened Options
  import opened Streams
  import WsFrames
  import HttpHead
  import Vless

  type Frame = WsFrames.Frame

  datatype HttpRequest = HttpRequest(verb: string, path: string, basePath: string, headers: map<string, string>)

  /** The configuration, and what the model leaves open: text decoding, credentials, fixed responses. */
  datatype Env = Env(
    maxHeaderBytes: nat, wsPath: string, provisioning: bool, invitePath: string, auth: Vless.Auth,
    parseHead: bytes -> Option<HttpRequest>, upgradeResponse: string -> bytes, decoyResponse: nat -> bytes,
    /** Which invite requests wait for the certificate probe before they are answered. */
    waits: HttpRequest -> bool)

  /** `Page` is a connection that an admin or invite route has answered or streams to: it reads nothing more. */
  datatype Phase = Http | Ws | Page | Dead

  /** A relay as the session sees it: where it goes and every payload it was given, in order. */
  datatype Relay = Relay(request: Vless.Request, writes: seq<bytes>, closed: bool)

  datatype State = State(phase: Phase, inbound: bytes, message: bytes, relay: Option<Relay>, out: seq<bytes>)

  const START := State(Http, [], [], None, [])
  const OK_HEADER: bytes := [0, 0]

  // ----- the request head -----

  datatype Route = ToPage | ToWait | ToDecoy(status: nat) | ToUpgrade(key: string)

  predicate OccursAt(s: string, sub: string, i: nat) {
    i + |sub| <= |s| && s[i..i + |sub|] == sub
  }

  predicate Contains(s: string, sub: string) {
    exists i: nat | i <= |s| :: OccursAt(s, sub, i)
  }

  function Header(req: HttpRequest, name: string): string {
    if name in req.headers then req.headers[name] else ""
  }

  function Dispatch(env: Env, req: HttpRequest): Route {
    if req.basePath in {"/admin-stats", "/admin-stats/stream", "/admin-stats/provision"} then ToPage else
    var upgrading := Header(req, "upgrade") != "" && env.auth.text.lower(Header(req, "upgrade")) == "websocket";
    if !upgrading && env.provisioning && env.invitePath <= req.basePath then if env.waits(req) then ToWait else ToPage
    else if req.verb != "GET" || !upgrading then ToDecoy(200)
    else if !Contains(req.path, env.wsPath) then ToDecoy(200)
    else if Header(req, "sec-websocket-key") == "" then ToDecoy(400)
    else ToUpgrade(Header(req, "sec-websocket-key"))
  }

  // ----- which heads open a tunnel -----

  /** A request to open a WebSocket on the tunnel's path, wherever in the request's path that stands. */
  ghost predicate AsksForTunnel(env: Env, req: HttpRequest) {
    && !IsAdmin(req) && req.verb == "GET" && WantsWebSocket(env, req)
    && exists before: string, after: string :: req.path == before + env.wsPath + after
  }

  predicate IsAdmin(req: HttpRequest) {
    req.basePath == "/admin-stats" || req.basePath == "/admin-stats/stream" || req.basePath == "/admin-stats/provision"
  }

  predicate WantsWebSocket(env: Env, req: HttpRequest) {
    "upgrade" in req.headers && req.headers["upgrade"] != ""
      && env.auth.text.lower(req.headers["upgrade"]) == "websocket"
  }

  ghost predicate AsksForInvite(env: Env, req: HttpRequest) {
    !IsAdmin(req) && !WantsWebSocket(env, req) && env.provisioning && env.invitePath <= req.basePath
  }

  function KeyOf(req: HttpRequest): string {
    if "sec-websocket-key" in req.headers then req.headers["sec-websocket-key"] else ""
  }

  lemma ContainsIff(s: string, sub: string)
    ensures Contains(s, sub) <==> exists before: string, after: string :: s == before + sub + after
  {
    if Contains(s, sub) {
      var i: nat :| i <= |s| && OccursAt(s, sub, i);
      assert s == s[..i] + sub + s[i + |sub|..];
    }
    forall before: string, after: string | s == before + sub + after
      ensures Contains(s, sub)
    {
      assert OccursAt(s, sub, |before|);
    }
  }

  /** What becomes of a request, told from its fields. */
  lemma DispatchIs(env: Env, req: HttpRequest)
    ensures Dispatch(env, req) ==
            if IsAdmin(req) then ToPage
            else if AsksForInvite(env, req) then if env.waits(req) then ToWait else ToPage
            else if !AsksForTunnel(env, req) then ToDecoy(200)
            else if KeyOf(req) == "" then ToDecoy(400) else ToUpgrade(KeyOf(req))
  {
    ContainsIff(req.path, env.wsPath);
    hide Contains;
  }

  /**
   A whole request head opens a tunnel exactly when it asks for one and has a key; without the key it gets the
   decoy with status 400, a page or an invite is answered as such, and every other head gets the decoy with
   status 200 and the end of the connection.
   */
  lemma TunnelOpensIff(env: Env, head: bytes)
    requires |head| >= 4 && HttpHead.HeadEnd(head, 0) + 4 == |head| && env.parseHead(head).Some?
    ensures var req := env.parseHead(head).value;
            Feed(env, START, head) ==
            if IsAdmin(req) then START.(phase := Page)
            else if AsksForInvite(env, req) then if env.waits(req) then START else START.(phase := Page)
            else if !AsksForTunnel(env, req) then START.(phase := Dead, out := [env.decoyResponse(200)])
            else if KeyOf(req) == "" then START.(phase := Dead, out := [env.decoyResponse(400)])
            else START.(phase := Ws, out := [env.upgradeResponse(KeyOf(req))])
  {
    hide Dispatch, AsksForTunnel, AsksForInvite, IsAdmin, Feed, KeyOf, HttpHead.HeadEnd;
    HeadAlone(env, head);
    DispatchIs(env, env.parseHead(head).value);
  }

  /** A head and nothing behind it: the answer is all there is. */
  lemma HeadAlone(env: Env, head: bytes)
    requires |head| >= 4 && HttpHead.HeadEnd(head, 0) + 4 == |head|
    ensures Feed(env, START, head) == Answer(env, START, head)
  {
    assert head[..|head|] == head && head[|head|..] == [] && START.(inbound := []) == START;
    hide Answer, WsRun;
    FirstFeed(env, head);
    assert HttpStep(env, START.(inbound := head)) == Answer(env, START, head);
    hide HttpStep, Feed;
    AnswerIsAll(env, head);
  }

  lemma AnswerIsAll(env: Env, head: bytes)
    ensures WsRun(env, Answer(env, START, head)) == Answer(env, START, head)
  {
    var t := Answer(env, START, head);
    assert t.inbound == [] by { hide Dispatch; }
    hide Answer, WsRun;
    if t.phase.Ws? {
      assert WsFrames.Decode([]).Need?;
      WsRunStep(env, t);
    } else {
      WsRunDone(env, t);
    }
  }

  // ----- the request head, continued -----

  function Destroy(s: State): State {
    if s.phase.Dead? then s
    else State(Dead, [], [], if s.relay.Some? then Some(s.relay.value.(closed := true)) else None, s.out)
  }

  function Decoy(env: Env, s: State, status: nat): State {
    Destroy(s.(out := s.out + [env.decoyResponse(status)]))
  }

  /** A waiting invite is answered at last, whatever the connection has become in the meantime. */
  function Settle(s: State, response: bytes): State {
    if s.phase.Dead? then s else Destroy(s.(out := s.out + [response]))
  }

  /** A whole head, and the connection with what came behind it; a request that waits leaves it as it is. */
  function Answer(env: Env, rest: State, head: bytes): State {
    match env.parseHead(head)
    case None => Destroy(rest)
    case Some(req) =>
      match Dispatch(env, req)
      case ToPage => rest.(phase := Page, inbound := [])
      case ToWait => rest
      case ToDecoy(status) => Decoy(env, rest, status)
      case ToUpgrade(key) => rest.(phase := Ws, out := rest.out + [env.upgradeResponse(key)])
  }

  /** One look at the buffered request head. */
  function HttpStep(env: Env, s: State): State {
    var eoh := HttpHead.HeadEnd(s.inbound, 0);
    if eoh == -1 then if |s.inbound| > env.maxHeaderBytes then Destroy(s) else s
    else Answer(env, s.(inbound := s.inbound[eoh + 4..]), s.inbound[..eoh + 4])
  }

  // ----- frames and messages -----

  predicate IsData(f: Frame) {
    f.opcode == WsFrames.CONT || f.opcode == WsFrames.TEXT || f.opcode == WsFrames.BINARY
  }

  /** A complete message: more VLESS header, or payload for the relay. */
  function OnMessage(env: Env, s: State, message: bytes): State {
    match s.relay
    case Some(r) => s.(relay := Some(r.(writes := r.writes + [message])))
    case None =>
      var buf := s.message + message;
      match Vless.ParseHeader(env.auth, buf)
      case Need => s.(message := buf)
      case Fail(_) => Decoy(env, s.(message := []), 200)
      case Ok(request, headerEnd) =>
        s.(message := [], relay := Some(Relay(request, [buf[headerEnd..]], false)),
           out := s.out + [WsFrames.Encode(WsFrames.BINARY, OK_HEADER)])
  }

  function StepFrame(env: Env, s: State, f: Frame): State {
    if !s.phase.Ws? then s
    else if f.opcode == WsFrames.CLOSE then Destroy(s)
    else if f.opcode == WsFrames.PING then s.(out := s.out + [WsFrames.Encode(WsFrames.PONG, f.payload)])
    else if !IsData(f) then s
    else if f.opcode == WsFrames.CONT && f.fin then OnMessage(env, s.(message := []), s.message + f.payload)
    else if f.opcode != WsFrames.CONT && f.fin then OnMessage(env, s, f.payload)
    else s.(message := s.message + f.payload)
  }

  function Run(env: Env, s: State, frames: seq<Frame>): State
    decreases |frames|
  {
    if frames == [] then s else Run(env, StepFrame(env, s, frames[0]), frames[1..])
  }

  /** Every whole frame that is buffered, then the bytes of the next one stay queued. */
  ghost function WsRun(env: Env, s: State): State {
    if !s.phase.Ws? then s else
    var (frames, rest) := Walk(WsFrames.Decode, s.inbound);
    var t := Run(env, s.(inbound := []), frames);
    if t.phase.Ws? then t.(inbound := rest) else t
  }

  /** A chunk arrives from the client socket. */
  ghost function Feed(env: Env, s: State, chunk: bytes): State {
    if s.phase.Dead? || s.phase.Page? then s else
    var got := s.(inbound := s.inbound + chunk);
    WsRun(env, if s.phase.Http? then HttpStep(env, got) else got)
  }

  ghost function FeedAll(env: Env, chunks: seq<bytes>): State
    decreases |chunks|
  {
    if chunks == [] then START
    else Feed(env, FeedAll(env, chunks[..|chunks| - 1]), chunks[|chunks| - 1])
  }

  // ----- the order of chunks does not matter -----

  lemma {:induction false} RunAppend(env: Env, s: State, a: seq<Frame>, b: seq<Frame>)
    ensures Run(env, s, a + b) == Run(env, Run(env, s, a), b)
    decreases |a|
  {
    if a == [] {
      assert a + b == b;
    } else {
      assert (a + b)[1..] == a[1..] + b;
      RunAppend(env, StepFrame(env, s, a[0]), a[1..], b);
    }
  }

  lemma {:induction false} RunStopped(env: Env, s: State, frames: seq<Frame>)
    requires !s.phase.Ws?
    ensures Run(env, s, frames) == s
    decreases |frames|
  {
    if frames == [] {
    } else {
      RunStopped(env, s, frames[1..]);
    }
  }

  /** Nothing is queued while frames are being handled. */
  lemma {:induction false} RunKeepsInbound(env: Env, s: State, frames: seq<Frame>)
    requires s.inbound == []
    ensures Run(env, s, frames).inbound == []
    decreases |frames|
  {
    if frames == [] {
    } else {
      RunKeepsInbound(env, StepFrame(env, s, frames[0]), frames[1..]);
    }
  }

  /** The run of a buffer is one frame, then the run of what is left. */
  lemma WsRunStep(env: Env, s: State)
    requires s.phase.Ws?
    ensures match WsFrames.Decode(s.inbound)
      case Need => WsRun(env, s) == s
      case Got(frame, n) =>
        0 < n <= |s.inbound| && WsRun(env, s) == WsRun(env, StepFrame(env, s.(inbound := s.inbound[n..]), frame))
  {
    match WsFrames.Decode(s.inbound)
    case Need =>
    case Got(frame, n) =>
      WsFrames.DecodeStable();
      hide WsFrames.Decode, OnMessage;
      var rest := s.inbound[n..];
      var t, t0 := StepFrame(env, s.(inbound := rest), frame), StepFrame(env, s.(inbound := []), frame);
      var (more, left) := Walk(WsFrames.Decode, rest);
      assert ([frame] + more)[1..] == more;
      StepKeepsInbound(env, s.(inbound := []), rest, frame);
      if !t.phase.Ws? {
        RunStopped(env, t0, more);
      }
  }

  lemma WsRunDone(env: Env, s: State)
    ensures !s.phase.Ws? ==> WsRun(env, s) == s
  {
  }

  lemma StepKeepsInbound(env: Env, s: State, queued: bytes, f: Frame)
    requires s.phase.Ws? && s.inbound == []
    ensures var t := StepFrame(env, s, f);
            t.inbound == [] && StepFrame(env, s.(inbound := queued), f) == if t.phase.Ws? then t.(inbound := queued)
              else t
  {
  }

  /** Bytes that arrive together with the buffer or after it was run lead to the same state. */
  lemma WsAppend(env: Env, s: State, more: bytes)
    requires s.phase.Ws?
    ensures var t := WsRun(env, s);
            WsRun(env, s.(inbound := s.inbound + more))
            == (if t.phase.Ws? then WsRun(env, t.(inbound := t.inbound + more)) else t)
  {
    var (a, rest) := Walk(WsFrames.Decode, s.inbound);
    var (b, left) := Walk(WsFrames.Decode, rest + more);
    var s0 := s.(inbound := []);
    WsFrames.DecodeStable();
    WalkAppend(WsFrames.Decode, s.inbound, more);
    RunAppend(env, s0, a, b);
    RunKeepsInbound(env, s0, a);
    var t := Run(env, s0, a);
    if !t.phase.Ws? {
      RunStopped(env, t, b);
    }
  }

  /**
   The condition for chunk boundaries to be invisible: the request head, if the stream has one at
   all, is found before the buffer limit can strike, or cannot be parsed (and then kills silently too).
   */
  predicate HeadFits(env: Env, stream: bytes) {
    var e := HttpHead.HeadEnd(stream, 0);
    e == -1 || e + 3 <= env.maxHeaderBytes || env.parseHead(stream[..e + 4]).None?
  }

  /** The stream begins with an invite request that is kept waiting. */
  predicate Waits(env: Env, stream: bytes) {
    var e := HttpHead.HeadEnd(stream, 0);
    e != -1 && AsksToWait(env, stream[..e + 4])
  }

  predicate AsksToWait(env: Env, head: bytes) {
    env.parseHead(head).Some? && Dispatch(env, env.parseHead(head).value).ToWait?
  }

  /** The second condition: behind an invite that waits there is no head, and not too much of one. */
  predicate WaitsQuietly(env: Env, stream: bytes) {
    Waits(env, stream) ==>
      var rest := stream[HttpHead.HeadEnd(stream, 0) + 4..];
      HttpHead.HeadEnd(rest, 0) == -1 && |rest| <= env.maxHeaderBytes
  }

  predicate Steady(env: Env, stream: bytes) {
    HeadFits(env, stream) && WaitsQuietly(env, stream)
  }

  /** The answer to a head does not depend on what is queued behind it. */
  lemma AnswerAppend(env: Env, s: State, head: bytes, more: bytes)
    requires s.phase.Http?
    ensures var t := Answer(env, s, head);
            && (t.phase.Http? <==> AsksToWait(env, head)) && (t.phase.Http? ==> t == s)
            && Answer(env, s.(inbound := s.inbound + more), head)
               == if t.phase.Ws? || t.phase.Http? then t.(inbound := t.inbound + more) else t
  {
    hide Dispatch;
  }

  lemma HeadSplit(a: bytes, b: bytes)
    requires HttpHead.HeadEnd(a, 0) != -1
    ensures var e := HttpHead.HeadEnd(a, 0);
            && e + 4 <= |a| && HttpHead.HeadEnd(a + b, 0) == e
            && (a + b)[..e + 4] == a[..e + 4] && (a + b)[e + 4..] == a[e + 4..] + b
  {
    HttpHead.HeadEndStable(a, b);
  }

  /** Once the head is whole, bytes behind it only wait in the queue. */
  lemma HttpStepAppend(env: Env, a: bytes, b: bytes)
    requires HttpHead.HeadEnd(a, 0) != -1
    ensures var s := HttpStep(env, START.(inbound := a));
            && (Waits(env, a + b) <==> Waits(env, a))
            && (s.phase.Http? <==> Waits(env, a))
            && (s.phase.Http? ==> s == START.(inbound := a[HttpHead.HeadEnd(a, 0) + 4..]))
            && HttpStep(env, START.(inbound := a + b))
               == if s.phase.Ws? || s.phase.Http? then s.(inbound := s.inbound + b) else s
  {
    var e := HttpHead.HeadEnd(a, 0);
    HeadSplit(a, b);
    hide Answer, AsksToWait, HttpHead.HeadEnd;
    assert HttpStep(env, START.(inbound := a + b)) == Answer(env, START.(inbound := a[e + 4..] + b), a[..e + 4]);
    AnswerAppend(env, START.(inbound := a[e + 4..]), a[..e + 4], b);
  }

  /** A connection that was dropped without an answer. */
  const DROPPED := State(Dead, [], [], None, [])

  lemma FirstFeed(env: Env, a: bytes)
    ensures Feed(env, START, a) == WsRun(env, HttpStep(env, START.(inbound := a)))
  {
    assert START.inbound + a == a;
  }

  /** Without a whole head the bytes pile up, until there are too many. */
  lemma HeadPending(env: Env, a: bytes)
    requires HttpHead.HeadEnd(a, 0) == -1
    ensures Feed(env, START, a) == if |a| <= env.maxHeaderBytes then START.(inbound := a) else DROPPED
  {
    FirstFeed(env, a);
  }

  lemma HeadUnreadable(env: Env, a: bytes)
    requires HttpHead.HeadEnd(a, 0) != -1 && env.parseHead(a[..HttpHead.HeadEnd(a, 0) + 4]).None?
    ensures Feed(env, START, a) == DROPPED
  {
    FirstFeed(env, a);
  }

  lemma FeedAppendEarly(env: Env, a: bytes, b: bytes)
    requires HeadFits(env, a + b) && HttpHead.HeadEnd(a, 0) == -1
    ensures Feed(env, Feed(env, START, a), b) == Feed(env, START, a + b)
  {
    HttpHead.HeadEndOfPrefix(a, b);
    HeadPending(env, a);
    FirstFeed(env, a + b);
    if |a| > env.maxHeaderBytes {
      if HttpHead.HeadEnd(a + b, 0) == -1 {
        HeadPending(env, a + b);
      } else {
        HeadUnreadable(env, a + b);
      }
    } else {
      hide HttpStep, WsRun;
    }
  }

  lemma FeedAppendLate(env: Env, a: bytes, b: bytes)
    requires HttpHead.HeadEnd(a, 0) != -1 && WaitsQuietly(env, a + b)
    ensures Feed(env, Feed(env, START, a), b) == Feed(env, START, a + b)
  {
    HttpStepAppend(env, a, b);
    FirstFeed(env, a);
    FirstFeed(env, a + b);
    var s := HttpStep(env, START.(inbound := a));
    if s.phase.Http? {
      SecondLook(env, a, b);
      hide HttpStep;
    } else if s.phase.Ws? {
      hide HttpStep;
      WsAppend(env, s, b);
      WsRunPhase(env, s);
      hide WsRun;
    }
  }

  /** Bytes behind a waiting invite are looked at again, to no effect when they wait quietly. */
  lemma SecondLook(env: Env, a: bytes, b: bytes)
    requires HttpHead.HeadEnd(a, 0) != -1 && Waits(env, a) && WaitsQuietly(env, a + b)
    ensures var s := START.(inbound := a[HttpHead.HeadEnd(a, 0) + 4..] + b); HttpStep(env, s) == s
  {
    HeadSplit(a, b);
    HttpStepAppend(env, a, b);
  }

  lemma {:induction false} RunPhase(env: Env, s: State, frames: seq<Frame>)
    requires s.phase.Ws?
    ensures Run(env, s, frames).phase.Ws? || Run(env, s, frames).phase.Dead?
    decreases |frames|
  {
    if frames == [] {
    } else {
      var t := StepFrame(env, s, frames[0]);
      if t.phase.Ws? { RunPhase(env, t, frames[1..]); } else { RunStopped(env, t, frames[1..]); }
    }
  }

  lemma WsRunPhase(env: Env, s: State)
    requires s.phase.Ws?
    ensures WsRun(env, s).phase.Ws? || WsRun(env, s).phase.Dead?
  {
    RunPhase(env, s.(inbound := []), Walk(WsFrames.Decode, s.inbound).0);
  }

  lemma FeedAppend(env: Env, a: bytes, b: bytes)
    requires Steady(env, a + b)
    ensures Feed(env, Feed(env, START, a), b) == Feed(env, START, a + b)
  {
    hide Feed, HeadFits, WaitsQuietly;
    if HttpHead.HeadEnd(a, 0) == -1 { FeedAppendEarly(env, a, b); } else { FeedAppendLate(env, a, b); }
  }

  lemma SteadyPrefix(env: Env, a: bytes, b: bytes)
    requires Steady(env, a + b)
    ensures Steady(env, a)
  {
    var e := HttpHead.HeadEnd(a, 0);
    if e != -1 {
      HeadSplit(a, b);
      if Waits(env, a) {
        HttpStepAppend(env, a, b);
        HttpHead.HeadEndOfPrefix(a[e + 4..], b);
      }
    }
  }

  lemma {:induction false} ChunksJoin(env: Env, chunks: seq<bytes>)
    requires Steady(env, Concat(chunks))
    ensures FeedAll(env, chunks) == Feed(env, START, Concat(chunks))
    decreases |chunks|
  {
    if chunks == [] {
      assert Concat(chunks) == [];
    } else {
      var before, last := chunks[..|chunks| - 1], chunks[|chunks| - 1];
      assert chunks == before + [last];
      ConcatSnoc(before, last);
      SteadyPrefix(env, Concat(before), last);
      ChunksJoin(env, before);
      FeedAppend(env, Concat(before), last);
    }
  }

  /** A readable head that arrives in one piece is answered, whatever its length. */
  lemma WholeHeadIsServed(env: Env, stream: bytes)
    requires !HeadFits(env, stream)
    ensures Feed(env, START, stream) != DROPPED
  {
    hide Dispatch;
    FirstFeed(env, stream);
    var s := HttpStep(env, START.(inbound := stream));
    if s.phase.Ws? {
      RunKeepsOut(env, s.(inbound := []), Walk(WsFrames.Decode, s.inbound).0);
    }
  }

  /** A head that outgrows the limit is served when it arrives whole and dropped when it is split. */
  lemma SplitHeadIsDropped(env: Env, stream: bytes)
    requires !HeadFits(env, stream)
    ensures var cut := HttpHead.HeadEnd(stream, 0) + 3;
            FeedAll(env, [stream[..cut], stream[cut..]]) == DROPPED != Feed(env, START, stream)
  {
    var e := HttpHead.HeadEnd(stream, 0);
    var a, b := stream[..e + 3], stream[e + 3..];
    assert a + b == stream;
    HttpHead.HeadEndOfPrefix(a, b);
    HeadPending(env, a);
    WholeHeadIsServed(env, stream);
    assert Feed(env, DROPPED, b) == DROPPED;
    hide Feed;
    var chunks, one: seq<bytes> := [a, b], [a];
    assert chunks[..1] == one && one[..0] == [];
    assert FeedAll(env, one) == DROPPED;
    assert FeedAll(env, chunks) == Feed(env, FeedAll(env, one), b);
  }

  /** What was written to the client stays written. */
  lemma {:induction false} RunKeepsOut(env: Env, s: State, frames: seq<Frame>)
    ensures s.out <= Run(env, s, frames).out
    decreases |frames|
  {
    if frames == [] {
    } else {
      RunKeepsOut(env, StepFrame(env, s, frames[0]), frames[1..]);
    }
  }

  /** A second head behind a waiting invite stays queued if it came along, and is acted on if it comes later. */
  lemma SecondHeadIsSeen(env: Env, stream: bytes)
    requires Waits(env, stream) && !WaitsQuietly(env, stream)
    ensures var cut := HttpHead.HeadEnd(stream, 0) + 4;
            && Feed(env, START, stream) == START.(inbound := stream[cut..])
            && FeedAll(env, [stream[..cut], stream[cut..]])
              == Feed(env, START, stream[cut..]) != Feed(env, START, stream)
  {
    var cut := HttpHead.HeadEnd(stream, 0) + 4;
    var a, b := stream[..cut], stream[cut..];
    assert a + b == stream;
    WaitsAlone(env, a, b);
    FirstFeed(env, stream);
    LookMoves(env, b);
    hide Feed, HttpStep, Waits;
    var chunks, one: seq<bytes> := [a, b], [a];
    assert chunks[..1] == one && one[..0] == [];
    assert FeedAll(env, one) == START;
    assert FeedAll(env, chunks) == Feed(env, FeedAll(env, one), b);
  }

  lemma WaitsAlone(env: Env, a: bytes, b: bytes)
    requires Waits(env, a + b) && |a| == HttpHead.HeadEnd(a + b, 0) + 4
    ensures Feed(env, START, a) == START
    ensures WsRun(env, HttpStep(env, START.(inbound := a + b))) == START.(inbound := b)
  {
    HttpHead.HeadEndOfPrefix(a, b);
    var e := HttpHead.HeadEnd(a, 0);
    if e != -1 { HttpHead.HeadEndStable(a, b); }
    HttpStepAppend(env, a, b);
    FirstFeed(env, a);
    assert a[e + 4..] == [] && [] + b == b;
  }

  /** A buffer with a head in it, or too long to have one, does not stay as it is. */
  lemma LookMoves(env: Env, b: bytes)
    requires HttpHead.HeadEnd(b, 0) != -1 || |b| > env.maxHeaderBytes
    ensures Feed(env, START, b) != START.(inbound := b)
  {
    var e := HttpHead.HeadEnd(b, 0);
    if e == -1 {
      HeadPending(env, b);
    } else {
      var rest := START.(inbound := b[e + 4..]);
      assert HttpStep(env, START.(inbound := b)) == Answer(env, rest, b[..e + 4]) by { hide Answer; }
      assert |rest.inbound| < |b|;
      hide *;
      FirstFeed(env, b);
      AnswerAppend(env, rest, b[..e + 4], []);
      RunLeavesHttp(env, Answer(env, rest, b[..e + 4]));
    }
  }

  lemma RunLeavesHttp(env: Env, s: State)
    ensures WsRun(env, s).phase.Http? ==> WsRun(env, s) == s
  {
    if s.phase.Ws? { WsRunPhase(env, s); }
  }

  /**
   Every split of a client stream into chunks reaches the same state: the same phase, the same
   relay target, the same payloads in the same order, the same bytes back to the client and the
   same bytes still queued.  This holds for exactly the streams whose head fits, and, if the head asks
   for an invite that waits for its probe, behind which nothing is there to be looked at again.
   */
  lemma ChunkingIsInvisible(env: Env, stream: bytes)
    ensures (forall chunks :: Concat(chunks) == stream ==> FeedAll(env, chunks) == Feed(env, START, stream))
            <==> HeadFits(env, stream) && WaitsQuietly(env, stream)
  {
    if Steady(env, stream) {
      forall chunks | Concat(chunks) == stream
        ensures FeedAll(env, chunks) == Feed(env, START, stream)
      {
        ChunksJoin(env, chunks);
      }
    } else if !HeadFits(env, stream) {
      var cut := HttpHead.HeadEnd(stream, 0) + 3;
      TwoChunks(stream, cut);
      SplitHeadIsDropped(env, stream);
    } else {
      var cut := HttpHead.HeadEnd(stream, 0) + 4;
      TwoChunks(stream, cut);
      SecondHeadIsSeen(env, stream);
    }
  }

  lemma TwoChunks(stream: bytes, cut: nat)
    requires cut <= |stream|
    ensures Concat([stream[..cut], stream[cut..]]) == stream
  {
    var chunks := [stream[..cut], stream[cut..]];
    assert chunks[1..] == [stream[cut..]];
    ConcatOne(stream[cut..]);
  }
}
