/**
 The life of a datagram substream as a client sees it: from the frame that opens it, New or a Keep that
 names a peer, through the Keep frames of its id, to whatever ends it.  It is told from the events, not
 from the session's tables.
 */
module MuxTalks {
  import opened Bytes
  import opened Names
  import opened Options
  import opened MuxWire
  import opened MuxStreams
  import opened MuxBooks
  import opened MuxUplink
  import opened MuxLives
  import opened MuxPeers

  /** A New frame that opens a substream of this id. */
  ghost predicate News(text: Text, e: Event, id: nat, network: nat) {
    && e.Arrives? && |e.frame.meta| >= 4 && e.frame.Command() == NEW && e.frame.Id() == id
    && Creates(text, e.frame, network)
  }

  /** A Keep frame that names the datagram peer of this id, and opens the substream if there is none. */
  ghost predicate NamesPeer(text: Text, e: Event, id: nat) {
    Brings(text, e, id) && Retargets(e.frame)
  }

  /** The id is in use for a network: something opened it there and nothing has ended it since. */
  ghost predicate Taken(text: Text, events: seq<Event>, id: nat, network: nat)
    decreases |events|
  {
    events != [] &&
    var before, e := events[..|events| - 1], events[|events| - 1];
    && !Finishes(Run(text, before), e, id)
    && (Taken(text, before, id, network)
        || (Stop !in before && (News(text, e, id, network) || (network == UDP && NamesPeer(text, e, id)))))
  }

  /** The `n`th event opens a datagram substream. */
  ghost predicate BeginsTalk(text: Text, events: seq<Event>, n: nat) {
    && n < |events| && events[n].Arrives? && |events[n].frame.meta| >= 4 && Stop !in events[..n]
    && var e, id := events[n], events[n].frame.Id();
       News(text, e, id, UDP) || (NamesPeer(text, e, id) && !Taken(text, events[..n], id, UDP))
  }

  /** Nothing has ended it since. */
  ghost predicate Lasts(text: Text, events: seq<Event>, n: nat)
    requires BeginsTalk(text, events, n)
    decreases |events|
  {
    n + 1 < |events| ==>
      var before := events[..|events| - 1];
      BeganBefore(text, events, n);
      Lasts(text, before, n) && !Finishes(Run(text, before), events[|events| - 1], events[n].frame.Id())
  }

  ghost function Named(text: Text, f: Frame, talk: Talk): Talk {
    if Retargets(f) && ReadTarget(text, f.meta).Some? then
      var t := ReadTarget(text, f.meta).value; talk.(host := t.host, port := t.port)
    else talk
  }

  /** A payload becomes a datagram, unless a TCP substream of the same id takes it. */
  ghost function Spoken(text: Text, before: seq<Event>, f: Frame, talk: Talk): Talk
    requires |f.meta| >= 4
  {
    if f.Command() == KEEP && Taken(text, before, f.Id(), TCP) then talk else Say(talk, f.Payload())
  }

  /** The peer, and the datagrams sent: the payload of the opening frame, then of the Keep frames of the id. */
  ghost function Told(text: Text, events: seq<Event>, n: nat): Talk
    requires BeginsTalk(text, events, n)
    decreases |events|
  {
    var before, e := events[..|events| - 1], events[|events| - 1];
    if n + 1 == |events| then
      var t := ReadTarget(text, e.frame.meta).value;
      Spoken(text, before, e.frame, Talk(t.host, t.port, [], 0))
    else
      BeganBefore(text, events, n);
      var talk := Told(text, before, n);
      if Lasts(text, before, n) && Brings(text, e, events[n].frame.Id())
      then Spoken(text, before, e.frame, Named(text, e.frame, talk)) else talk
  }

  lemma BeganBefore(text: Text, events: seq<Event>, n: nat)
    requires BeginsTalk(text, events, n) && n + 1 < |events|
    ensures var before := events[..|events| - 1];
            BeginsTalk(text, before, n) && before[..n] == events[..n] && before[n] == events[n]
  {
    hide Creates, Taken, Brings;
    assert events[..|events| - 1][..n] == events[..n];
  }

  // ----- the datagram table -----

  lemma OpenTable(s: State, id: nat, initial: bytes, host: string, port: nat)
    ensures OpenTcp(s, id, initial).udp == s.udp && OpenUdp(s, id, host, port).udp == s.udp[id := s.next]
  {
  }

  lemma SendTable(s: State, id: nat, data: bytes, port: nat, quad: Option<bytes>, h: nat)
    ensures SendEnd(s, id).udp == SendKeep(s, id, data).udp == SendUdpFrom(s, id, port, quad, data).udp == s.udp
    ensures SendUdp(s, h, data).udp == OnConnect(s, h).udp == s.udp
  {
  }

  lemma EndTable(s: State, id: nat)
    requires Consistent(s)
    ensures EndStream(s, id).udp == s.udp - {id}
  {
    assert EndTcp(s, id).udp == s.udp;
  }

  lemma DeliverTable(s: State, id: nat, data: bytes)
    ensures Deliver(s, id, data).udp == s.udp
  {
    if id in s.udp { SendTable(s, id, data, 0, None, s.udp[id]); }
    hide SendUdp;
  }

  lemma RetargetTable(s: State, id: nat, host: string, port: nat)
    requires Consistent(s)
    ensures Retarget(s, id, host, port).udp == if id in s.udp then s.udp else s.udp[id := s.next]
  {
    OpenTable(s, id, [], host, port);
    hide OpenUdp;
  }

  lemma NewTable(text: Text, s: State, f: Frame)
    requires |f.meta| >= 4
    ensures OnNew(text, s, f).udp == if Creates(text, f, UDP) then s.udp[f.Id() := s.next] else s.udp
  {
    hide ReadTarget, IsBlocked, OpenTcp, OpenUdp, SendUdp, SendEnd;
    SendTable(s, f.Id(), [], 0, None, 0);
    if ReadTarget(text, f.meta).Some? {
      var t := ReadTarget(text, f.meta).value;
      OpenTable(s, f.Id(), f.Payload(), t.host, t.port);
      SendTable(OpenUdp(s, f.Id(), t.host, t.port), 0, f.Payload(), 0, None, s.next);
    }
  }

  lemma KeepTable(text: Text, s: State, f: Frame)
    requires Consistent(s) && |f.meta| >= 4
    ensures OnKeep(text, s, f).udp ==
            if Retargets(f) && Passes(text, f) && f.Id() !in s.udp then s.udp[f.Id() := s.next] else s.udp
  {
    hide ReadTarget, IsBlocked, Deliver, Retarget, SendEnd, Consistent;
    SendTable(s, f.Id(), [], 0, None, 0);
    DeliverTable(s, f.Id(), f.Payload());
    if ReadTarget(text, f.meta).Some? {
      var t := ReadTarget(text, f.meta).value;
      RetargetTable(s, f.Id(), t.host, t.port);
      DeliverTable(Retarget(s, f.Id(), t.host, t.port), f.Id(), f.Payload());
    }
  }

  lemma CallbackTable(s: State, id: nat)
    requires Consistent(s)
    ensures EndStream(s, id).udp == EndStream(SendEnd(s, id), id).udp == s.udp - {id}
  {
    hide Consistent, SendEnd, EndStream;
    SendTable(s, id, [], 0, None, 0);
    SendEndKeeps(s, id);
    EndTable(s, id);
    EndTable(SendEnd(s, id), id);
  }

  lemma StepTable(text: Text, s: State, e: Event)
    requires Consistent(s) && !s.mute
    ensures Step(text, s, e).udp ==
            match e
            case Arrives(f) =>
              if s.closed || |f.meta| < 4 then s.udp
              else if f.Command() == NEW && Creates(text, f, UDP) then s.udp[f.Id() := s.next]
              else if f.Command() == KEEP && Retargets(f) && Passes(text, f) && f.Id() !in s.udp
              then s.udp[f.Id() := s.next]
              else if f.Command() == END then s.udp - {f.Id()} else s.udp
            case Closes(c) => if Listens(s, c) && !s.closed then s.udp - {s.entries[c].id} else s.udp
            case Fails(c) => if Listens(s, c) then s.udp - {s.entries[c].id} else s.udp
            case Stop => map[]
            case _ => s.udp
  {
    assert s.closed ==> s.udp == map[];
    hide Consistent, OnNew, OnKeep, OnConnect, EndStream, SendEnd, SendKeep, SendUdpFrom, Creates, Passes;
    match e
    case Arrives(f) =>
      if |f.meta| >= 4 {
        NewTable(text, s, f);
        KeepTable(text, s, f);
        EndTable(s, f.Id());
      }
    case Connects(c) => SendTable(s, 0, [], 0, None, c);
    case Data(c, data) => if Listens(s, c) { SendTable(s, s.entries[c].id, data, 0, None, c); }
    case Received(c, port, quad, data) => if Listens(s, c) { SendTable(s, s.entries[c].id, data, port, quad, c); }
    case Closes(c) => if Listens(s, c) { CallbackTable(s, s.entries[c].id); }
    case Fails(c) => if Listens(s, c) { CallbackTable(s, s.entries[c].id); }
    case Stop =>
  }

  /** An event puts an id into a table, takes it out, or leaves it as it is. */
  lemma StepTakes(text: Text, s: State, e: Event, id: nat)
    requires Consistent(s) && !s.mute
    ensures id in Step(text, s, e).tcp
            <==> !Finishes(s, e, id) && (id in s.tcp || (!s.closed && News(text, e, id, TCP)))
    ensures id in Step(text, s, e).udp <==>
            !Finishes(s, e, id) && (id in s.udp || (!s.closed && (News(text, e, id, UDP) || NamesPeer(text, e, id))))
  {
    assert s.closed ==> s.tcp == map[] && s.udp == map[];
    StepFollows(text, s, e);
    StepTable(text, s, e);
    hide Step, Consistent, Follows, Creates, Passes;
  }

  /** What the tables hold can be told from the events. */
  lemma {:induction false} TablesAreTold(text: Text, events: seq<Event>, id: nat)
    ensures id in Run(text, events).tcp <==> Taken(text, events, id, TCP)
    ensures id in Run(text, events).udp <==> Taken(text, events, id, UDP)
    decreases |events|
  {
    if events == [] {
      assert Run(text, events) == START;
    } else {
      var before, e := events[..|events| - 1], events[|events| - 1];
      TablesAreTold(text, before, id);
      BooksBalance(text, before);
      NeverMute(text, before);
      StepTakes(text, Run(text, before), e, id);
      hide Step, Consistent, Finishes, News, NamesPeer;
    }
  }

  // ----- one substream -----

  ghost predicate RoutesUdp(s: State, id: nat, h: nat) {
    id in s.udp && s.udp[id] == h
  }

  lemma RouteLasts(text: Text, s: State, e: Event, id: nat, h: nat)
    requires Consistent(s) && !s.mute && !Reuses(text, s, e) && h in s.entries
    ensures RoutesUdp(Step(text, s, e), id, h) <==> RoutesUdp(s, id, h) && !Finishes(s, e, id)
  {
    assert h < s.next && (s.closed ==> s.udp == map[]);
    StepTable(text, s, e);
    hide Consistent, Step, Follows, ReadTarget, IsBlocked;
  }

  ghost predicate KnowsTalk(text: Text, events: seq<Event>, n: nat)
    requires BeginsTalk(text, events, n)
  {
    var s, h, id := Run(text, events), HandleOf(text, events, n), events[n].frame.Id();
    && TalkOf(s, h) == Some(Told(text, events, n)) && s.entries[h].id == id
    && (RoutesUdp(s, id, h) <==> Lasts(text, events, n))
  }

  lemma TalkAtFirst(text: Text, events: seq<Event>, n: nat)
    requires BeginsTalk(text, events, n) && |events| == n + 1
    ensures KnowsTalk(text, events, n)
  {
    var before, e := events[..n], events[n];
    var s, id := Run(text, before), events[n].frame.Id();
    NeverMute(text, before);
    BooksBalance(text, before);
    BooksBalance(text, events);
    TablesAreTold(text, before, id);
    StepTalk(text, s, e, s.next);
    StepTable(text, s, e);
    FirstTalk(text, before, s, e);
    var t := Run(text, events);
    assert t == Step(text, s, e) && RoutesUdp(t, id, s.next);
    assert t.entries[s.next].id == id;
    hide Step, Consistent, Creates, FrameTalk, Taken, Run, Passes, ReadTarget;
  }

  lemma FirstTalk(text: Text, before: seq<Event>, s: State, e: Event)
    requires e.Arrives? && |e.frame.meta| >= 4
    requires var id := e.frame.Id();
             && (id in s.tcp <==> Taken(text, before, id, TCP))
             && (News(text, e, id, UDP) || (NamesPeer(text, e, id) && id !in s.udp))
    ensures ReadTarget(text, e.frame.meta).Some?
    ensures var t := ReadTarget(text, e.frame.meta).value;
            FrameTalk(text, s, e.frame, s.next, TalkOf(s, s.next))
              == Some(Spoken(text, before, e.frame, Talk(t.host, t.port, [], 0)))
  {
    hide Taken, ReadTarget, IsBlocked, TalkOf, Say;
  }

  lemma TalkOn(text: Text, events: seq<Event>, n: nat)
    requires BeginsTalk(text, events, n) && n + 1 < |events| && NeverReuses(text, events)
    requires BeginsTalk(text, events[..|events| - 1], n) && KnowsTalk(text, events[..|events| - 1], n)
    ensures KnowsTalk(text, events, n)
  {
    var before, e := events[..|events| - 1], events[|events| - 1];
    var s, id := Run(text, before), events[n].frame.Id();
    BeganBefore(text, events, n);
    var h := HandleOf(text, events, n);
    NeverMute(text, before);
    BooksBalance(text, before);
    TablesAreTold(text, before, id);
    RouteLasts(text, s, e, id, h);
    IdStays(text, s, e, h);
    StepTalk(text, s, e, h);
    NextTalk(text, before, s, e, id, h);
    assert Run(text, events) == Step(text, s, e);
    hide Step, Consistent, Finishes, RoutesUdp, Reuses, Run, FrameTalk, Taken, Brings, Spoken, Named;
  }

  lemma NextTalk(text: Text, before: seq<Event>, s: State, e: Event, id: nat, h: nat)
    requires Consistent(s) && TalkOf(s, h).Some? && s.entries[h].id == id
             && (id in s.tcp <==> Taken(text, before, id, TCP))
    requires s.closed ==> s.udp == map[]
    ensures var talk := TalkOf(s, h).value;
            Some(if RoutesUdp(s, id, h) && Brings(text, e, id)
                then Spoken(text, before, e.frame, Named(text, e.frame, talk)) else talk)
            == if e.Arrives? && !s.closed && |e.frame.meta| >= 4 then FrameTalk(text, s, e.frame, h, TalkOf(s, h))
              else TalkOf(s, h)
  {
    assert h < s.next;
    assert forall i <- s.udp :: s.entries[s.udp[i]].id == i;
    hide Consistent, Taken, ReadTarget, IsBlocked, Say, Creates;
  }

  lemma {:induction false} RunTalks(text: Text, events: seq<Event>, n: nat)
    requires BeginsTalk(text, events, n) && NeverReuses(text, events)
    ensures KnowsTalk(text, events, n)
    decreases |events|
  {
    if n + 1 == |events| {
      TalkAtFirst(text, events, n);
    } else {
      BeganBefore(text, events, n);
      hide KnowsTalk, BeginsTalk, Reuses;
      RunTalks(text, events[..|events| - 1], n);
      TalkOn(text, events, n);
    }
  }

  /**
   In every run in which New frames name fresh ids, a datagram substream lives until its id is ended, by
   frame, by socket or with the session, and no longer.  It has sent the payload of the frame that opened it
   and of the Keep frames of its id while it lived, in order, each to the peer that was named last.
   */
  lemma TalkIsTold(text: Text, events: seq<Event>, n: nat)
    requires BeginsTalk(text, events, n) && NeverReuses(text, events)
    ensures var s, h, talk := Run(text, events), HandleOf(text, events, n), Told(text, events, n);
            && h in s.entries && s.entries[h].UdpEntry? && s.entries[h].id == events[n].frame.Id()
            && (s.entries[h].host, s.entries[h].port, s.entries[h].datagrams) == (talk.host, talk.port, talk.datagrams)
            && Get(s.tx, h, 0) == talk.tx
            && (s.entries[h].listening <==> Lasts(text, events, n))
            && (h in s.unended <==> Lasts(text, events, n))
  {
    var s, h, id := Run(text, events), HandleOf(text, events, n), events[n].frame.Id();
    RunTalks(text, events, n);
    RecordsFollowSockets(text, events);
    BooksBalance(text, events);
    LiveIffRoutedUdp(s, id, h);
    hide Run, Lasts, Told, NeverReuses, BeginsTalk, Consistent, Live;
  }

  lemma LiveIffRoutedUdp(s: State, id: nat, h: nat)
    requires Consistent(s) && h in s.entries && s.entries[h].UdpEntry? && s.entries[h].id == id
    ensures h in Live(s) <==> RoutesUdp(s, id, h)
  {
  }
}
