/**
 What a datagram substream sends, and to whom: New names its peer, a Keep frame may name another, and
 every payload goes to the peer named last.
 */
module MuxPeers {
  import opened Bytes
  import opened Options
  import opened Names
  import opened MuxWire
  import opened MuxStreams
  import opened MuxBooks
  import opened MuxUplink

  /** A peer and everything sent so far, each datagram with the peer it went to, and how many bytes were counted. */
  datatype Talk = Talk(host: string, port: nat, datagrams: seq<Datagram>, tx: nat)

  ghost function TalkOf(s: State, h: nat): Option<Talk> {
    if h in s.entries && s.entries[h].UdpEntry?
    then Some(Talk(s.entries[h].host, s.entries[h].port, s.entries[h].datagrams, Get(s.tx, h, 0))) else None
  }

  function Say(t: Talk, data: bytes): Talk {
    if data == [] then t
    else t.(datagrams := t.datagrams + [Datagram(data, t.host, t.port)], tx := t.tx + |data|)
  }

  /** The substream hears a Keep frame: its payload is a datagram unless a TCP substream of the same id takes it. */
  ghost function HearKeep(s: State, f: Frame, t: Talk): Talk
    requires |f.meta| >= 4
  {
    if f.Id() in s.tcp then t else Say(t, f.Payload())
  }

  /** What a frame does to the talk of handle `h`. */
  ghost function FrameTalk(text: Text, s: State, f: Frame, h: nat, talk: Option<Talk>): Option<Talk>
    requires |f.meta| >= 4
  {
    if f.Command() == NEW && h == s.next && Creates(text, f, UDP) then
      var t := ReadTarget(text, f.meta).value;
      Some(Say(Talk(t.host, t.port, [], 0), f.Payload()))
    else if f.Command() == KEEP && Passes(text, f) then
      if f.Id() in s.udp && s.udp[f.Id()] == h && talk.Some? then
        var named := if Retargets(f) then
                       var t := ReadTarget(text, f.meta).value; talk.value.(host := t.host, port := t.port)
                     else talk.value;
        Some(HearKeep(s, f, named))
      else if f.Id() !in s.udp && Retargets(f) && h == s.next then
        var t := ReadTarget(text, f.meta).value;
        Some(HearKeep(s, f, Talk(t.host, t.port, [], 0)))
      else talk
    else talk
  }

  /** The talk of a handle over a run: only frames make it. */
  ghost function Heard(text: Text, events: seq<Event>, h: nat): Option<Talk>
    decreases |events|
  {
    if events == [] then None else
    var before, e := events[..|events| - 1], events[|events| - 1];
    var s := Run(text, before);
    if e.Arrives? && !s.closed && |e.frame.meta| >= 4 then FrameTalk(text, s, e.frame, h, Heard(text, before, h))
    else Heard(text, before, h)
  }

  // ----- one step -----

  lemma OpenTalk(s: State, id: nat, initial: bytes, host: string, port: nat, data: bytes, h: nat)
    requires Consistent(s)
    ensures TalkOf(OpenTcp(s, id, initial), h) == TalkOf(s, h)
    ensures var made := OpenUdp(s, id, host, port);
            && TalkOf(made, h) == (if h == s.next then Some(Talk(host, port, [], 0)) else TalkOf(s, h))
            && TalkOf(if data == [] then made else SendUdp(made, s.next, data), h)
               == if h == s.next then Some(Say(Talk(host, port, [], 0), data)) else TalkOf(s, h)
  {
  }

  lemma EndTalk(s: State, id: nat, h: nat)
    requires Consistent(s)
    ensures TalkOf(EndStream(s, id), h) == TalkOf(s, h)
  {
    assert TalkOf(EndTcp(s, id), h) == TalkOf(s, h);
  }

  lemma DeliverTalk(s: State, id: nat, data: bytes, h: nat)
    requires Consistent(s)
    ensures TalkOf(Deliver(s, id, data), h) ==
            if id in s.udp && s.udp[id] == h && id !in s.tcp then Some(Say(TalkOf(s, h).value, data)) else TalkOf(s, h)
  {
  }

  lemma RetargetTalk(s: State, id: nat, host: string, port: nat, h: nat)
    requires Consistent(s)
    ensures var t := Retarget(s, id, host, port);
            && t.tcp == s.tcp && id in t.udp
            && (t.udp[id] == h <==> if id in s.udp then s.udp[id] == h else h == s.next)
  {
  }

  lemma RenameTalk(s: State, id: nat, host: string, port: nat, h: nat)
    requires Consistent(s)
    ensures var t := Retarget(s, id, host, port);
            TalkOf(t, h) ==
               if id in s.udp && s.udp[id] == h then Some(TalkOf(s, h).value.(host := host, port := port))
               else if id !in s.udp && h == s.next then Some(Talk(host, port, [], 0))
               else TalkOf(s, h)
  {
  }

  lemma SilentTalk(s: State, id: nat, data: bytes, port: nat, quad: Option<bytes>, h: nat)
    ensures TalkOf(SendEnd(s, id), h) == TalkOf(s, h)
    ensures TalkOf(SendKeep(s, id, data), h) == TalkOf(s, h)
    ensures TalkOf(SendUdpFrom(s, id, port, quad, data), h) == TalkOf(s, h)
  {
  }

  lemma NewTalk(text: Text, s: State, f: Frame, h: nat)
    requires Consistent(s) && |f.meta| >= 4 && f.Command() == NEW
    ensures TalkOf(OnNew(text, s, f), h) == FrameTalk(text, s, f, h, TalkOf(s, h))
  {
    hide ReadTarget, IsBlocked, TalkOf, Say, Consistent, OpenTcp, OpenUdp, SendUdp, SendEnd;
    SilentTalk(s, f.Id(), [], 0, None, h);
    if ReadTarget(text, f.meta).Some? {
      var t := ReadTarget(text, f.meta).value;
      OpenTalk(s, f.Id(), f.Payload(), t.host, t.port, f.Payload(), h);
    }
  }

  lemma KeepTalk(text: Text, s: State, f: Frame, h: nat)
    requires Consistent(s) && !s.closed && |f.meta| >= 4 && f.Command() == KEEP
    ensures TalkOf(OnKeep(text, s, f), h) == FrameTalk(text, s, f, h, TalkOf(s, h))
  {
    assert f.Id() in s.udp ==> TalkOf(s, s.udp[f.Id()]).Some?;
    hide ReadTarget, IsBlocked, TalkOf, Say, Consistent, Deliver, Retarget, SendEnd;
    SilentTalk(s, f.Id(), [], 0, None, h);
    if !Retargets(f) {
      DeliverTalk(s, f.Id(), f.Payload(), h);
    } else if ReadTarget(text, f.meta).Some? {
      var t := ReadTarget(text, f.meta).value;
      RetargetKeeps(s, f.Id(), t.host, t.port);
      RetargetTalk(s, f.Id(), t.host, t.port, h);
      RenameTalk(s, f.Id(), t.host, t.port, h);
      DeliverTalk(Retarget(s, f.Id(), t.host, t.port), f.Id(), f.Payload(), h);
    }
  }

  lemma StepTalk(text: Text, s: State, e: Event, h: nat)
    requires Consistent(s)
    ensures TalkOf(Step(text, s, e), h) ==
            if e.Arrives? && !s.closed && |e.frame.meta| >= 4 then FrameTalk(text, s, e.frame, h, TalkOf(s, h))
              else TalkOf(s, h)
  {
    hide OnNew, OnKeep, OnConnect, SendEnd, SendKeep, SendUdpFrom, EndStream, Close;
    hide TalkOf, Consistent, Creates, Passes, ReadTarget;
    match e
    case Arrives(f) =>
      if !s.closed && |f.meta| >= 4 {
        if f.Command() == NEW { NewTalk(text, s, f, h); }
        else if f.Command() == KEEP { KeepTalk(text, s, f, h); }
        else { EndTalk(s, f.Id(), h); }
      }
    case Connects(c) => ConnectTalk(s, c, h);
    case Data(c, data) => if Listens(s, c) { SilentTalk(s, s.entries[c].id, data, 0, None, h); }
    case Received(c, port, quad, data) => if Listens(s, c) { SilentTalk(s, s.entries[c].id, data, port, quad, h); }
    case Closes(c) => if Listens(s, c) { CallbackTalk(s, s.entries[c].id, h); }
    case Fails(c) => if Listens(s, c) { CallbackTalk(s, s.entries[c].id, h); }
    case Stop => StopTalk(s, h);
  }

  lemma StopTalk(s: State, h: nat)
    ensures TalkOf(Close(s), h) == TalkOf(s, h)
  {
  }

  lemma ConnectTalk(s: State, c: nat, h: nat)
    ensures TalkOf(OnConnect(s, c), h) == TalkOf(s, h)
  {
  }

  lemma CallbackTalk(s: State, id: nat, h: nat)
    requires Consistent(s)
    ensures TalkOf(EndStream(s, id), h) == TalkOf(EndStream(SendEnd(s, id), id), h) == TalkOf(s, h)
  {
    hide TalkOf, Consistent, SendEnd, EndStream;
    SilentTalk(s, id, [], 0, None, h);
    SendEndKeeps(s, id);
    EndTalk(s, id, h);
    EndTalk(SendEnd(s, id), id, h);
  }

  /**
   In every reachable state a datagram substream has sent the payload of the frame that opened it and of the
   Keep frames that reached it, in order, each to the peer that New or a Keep frame had named last.
   */
  lemma {:induction false} TalkIsFaithful(text: Text, events: seq<Event>, h: nat)
    ensures TalkOf(Run(text, events), h) == Heard(text, events, h)
    decreases |events|
  {
    if events == [] {
    } else {
      var before, e := events[..|events| - 1], events[|events| - 1];
      TalkIsFaithful(text, before, h);
      BooksBalance(text, before);
      StepTalk(text, Run(text, before), e, h);
      hide Step, TalkOf, FrameTalk, Consistent;
    }
  }
}
