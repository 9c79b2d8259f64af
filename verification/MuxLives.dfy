/**
 The life of a TCP substream as a client sees it: from the New frame that opens it, through the Keep
 frames of its id, to whatever ends it.  It is told from the events, not from the session's tables.
 */
module MuxLives {
  import opened Bytes
  import opened Names
  import opened Options
  import opened MuxWire
  import opened MuxStreams
  import opened MuxBooks
  import opened MuxUplink

  /** The `n`th event is a New frame that opens a TCP substream. */
  ghost predicate Begins(text: Text, events: seq<Event>, n: nat) {
    && n < |events| && events[n].Arrives? && Stop !in events[..n]
    && var f := events[n].frame; |f.meta| >= 4 && f.Command() == NEW && Creates(text, f, TCP)
  }

  /**
   What ends the substreams of an id: its End frame, one of its sockets that closes or fails, the end of the
   session.
   */
  ghost predicate Finishes(s: State, e: Event, id: nat) {
    match e
    case Arrives(f) => |f.meta| >= 4 && f.Command() == END && f.Id() == id
    case Closes(c) => Listens(s, c) && s.entries[c].id == id
    case Fails(c) => Listens(s, c) && s.entries[c].id == id
    case Stop => true
    case _ => false
  }

  /** A Keep frame that brings the substreams of an id data. */
  ghost predicate Brings(text: Text, e: Event, id: nat) {
    e.Arrives? && |e.frame.meta| >= 4 && e.frame.Command() == KEEP && e.frame.Id() == id && Passes(text, e.frame)
  }

  /** Nothing has ended the substream since event `n` opened it. */
  ghost predicate Lives(text: Text, events: seq<Event>, n: nat)
    requires Begins(text, events, n)
    decreases |events|
  {
    n + 1 < |events| ==>
      var before := events[..|events| - 1];
      BeginsBefore(text, events, n);
      Lives(text, before, n) && !Finishes(Run(text, before), events[|events| - 1], events[n].frame.Id())
  }

  /** The data of the New frame, and of the Keep frames of its id while the substream lives. */
  ghost function Sent(text: Text, events: seq<Event>, n: nat): bytes
    requires Begins(text, events, n)
    decreases |events|
  {
    if n + 1 == |events| then events[n].frame.Payload() else
    var before, e := events[..|events| - 1], events[|events| - 1];
    BeginsBefore(text, events, n);
    Sent(text, before, n) + if Lives(text, before, n) && Brings(text, e, events[n].frame.Id()) then e.frame.Payload()
      else []
  }

  lemma BeginsBefore(text: Text, events: seq<Event>, n: nat)
    requires Begins(text, events, n) && n + 1 < |events|
    ensures var before := events[..|events| - 1];
            Begins(text, before, n) && before[..n] == events[..n] && before[n] == events[n]
  {
    hide Creates;
    assert events[..|events| - 1][..n] == events[..n];
  }

  // ----- the session at one of its events -----

  /** From `s` to `t` no handle has changed its id, and the session has neither closed nor fallen silent. */
  ghost predicate Follows(s: State, t: State) {
    && t.mute == s.mute && t.closed == s.closed
    && forall h <- s.entries :: h in t.entries && t.entries[h].id == s.entries[h].id
  }

  lemma FollowsOn(s: State, t: State, u: State)
    requires Follows(s, t) && Follows(t, u)
    ensures Follows(s, u)
  {
  }

  lemma OpenFollows(s: State, id: nat, initial: bytes, host: string, port: nat)
    requires Consistent(s)
    ensures Follows(s, OpenTcp(s, id, initial)) && Follows(s, OpenUdp(s, id, host, port))
  {
  }

  lemma UdpFollows(s: State, h: nat, data: bytes)
    ensures Follows(s, SendUdp(s, h, data)) && SendUdp(s, h, data).tcp == s.tcp
  {
  }

  lemma EndFollows(s: State, id: nat)
    requires Consistent(s)
    ensures Follows(s, EndStream(s, id)) && EndStream(s, id).tcp == s.tcp - {id}
  {
    assert Follows(s, EndTcp(s, id)) && EndTcp(s, id).tcp == s.tcp - {id};
    var t := EndTcp(s, id);
    assert Follows(t, EndUdp(t, id)) && EndUdp(t, id).tcp == t.tcp;
    hide EndTcp, EndUdp;
    FollowsOn(s, t, EndUdp(t, id));
  }

  lemma SendFollows(s: State, id: nat, data: bytes, port: nat, quad: Option<bytes>)
    ensures Follows(s, SendEnd(s, id)) && SendEnd(s, id).tcp == s.tcp
    ensures Follows(s, SendKeep(s, id, data)) && SendKeep(s, id, data).tcp == s.tcp
    ensures Follows(s, SendUdpFrom(s, id, port, quad, data)) && SendUdpFrom(s, id, port, quad, data).tcp == s.tcp
  {
  }

  lemma NewFollows(text: Text, s: State, f: Frame)
    requires Consistent(s) && |f.meta| >= 4 && f.Command() == NEW
    ensures Follows(s, OnNew(text, s, f))
    ensures OnNew(text, s, f).tcp == if Creates(text, f, TCP) then s.tcp[f.Id() := s.next] else s.tcp
  {
    SendFollows(s, f.Id(), [], 0, None);
    if ReadTarget(text, f.meta).Some? {
      var t := ReadTarget(text, f.meta).value;
      OpenFollows(s, f.Id(), f.Payload(), t.host, t.port);
      var made := OpenUdp(s, f.Id(), t.host, t.port);
      assert made.tcp == s.tcp;
      UdpFollows(made, s.next, f.Payload());
      FollowsOn(s, made, SendUdp(made, s.next, f.Payload()));
    }
    hide ReadTarget, IsBlocked, Follows, SendUdp, OpenUdp, SendEnd, Consistent;
  }

  lemma DeliverFollows(s: State, id: nat, data: bytes)
    requires Consistent(s)
    ensures Follows(s, Deliver(s, id, data)) && Deliver(s, id, data).tcp == s.tcp
  {
    if id in s.udp { UdpFollows(s, s.udp[id], data); }
    hide SendUdp;
  }

  lemma RetargetFollows(s: State, id: nat, host: string, port: nat)
    requires Consistent(s)
    ensures Follows(s, Retarget(s, id, host, port)) && Retarget(s, id, host, port).tcp == s.tcp
  {
    OpenFollows(s, id, [], host, port);
  }

  lemma KeepFollows(text: Text, s: State, f: Frame)
    requires Consistent(s) && !s.closed && |f.meta| >= 4
    ensures Follows(s, OnKeep(text, s, f)) && OnKeep(text, s, f).tcp == s.tcp
  {
    hide ReadTarget, IsBlocked, Follows, Deliver, Retarget, SendEnd, Consistent;
    SendFollows(s, f.Id(), [], 0, None);
    DeliverFollows(s, f.Id(), f.Payload());
    FollowsItself(s);
    if ReadTarget(text, f.meta).Some? {
      var t := ReadTarget(text, f.meta).value;
      RetargetKeeps(s, f.Id(), t.host, t.port);
      RetargetFollows(s, f.Id(), t.host, t.port);
      var u := Retarget(s, f.Id(), t.host, t.port);
      DeliverFollows(u, f.Id(), f.Payload());
      FollowsOn(s, u, Deliver(u, f.Id(), f.Payload()));
    }
  }

  lemma FollowsItself(s: State)
    ensures Follows(s, s)
  {
  }

  lemma ConnectFollows(s: State, h: nat)
    ensures Follows(s, OnConnect(s, h)) && OnConnect(s, h).tcp == s.tcp
  {
  }

  lemma FrameFollows(text: Text, s: State, f: Frame)
    requires Consistent(s) && !s.closed && |f.meta| >= 4
    ensures Follows(s, OnFrame(text, s, f))
    ensures OnFrame(text, s, f).tcp ==
            if f.Command() == NEW && Creates(text, f, TCP) then s.tcp[f.Id() := s.next]
            else if f.Command() == END then s.tcp - {f.Id()} else s.tcp
  {
    hide Follows, Consistent, OnNew, OnKeep, EndStream, Creates;
    FollowsItself(s);
    if f.Command() == NEW { NewFollows(text, s, f); }
    else if f.Command() == KEEP { KeepFollows(text, s, f); }
    else { EndFollows(s, f.Id()); }
  }

  lemma CloseFollows(s: State)
    requires Consistent(s)
    ensures Follows(s, Close(s).(closed := s.closed)) && Close(s).closed && Close(s).tcp == map[]
  {
  }

  lemma CallbackFollows(s: State, id: nat)
    requires Consistent(s)
    ensures var t := EndStream(SendEnd(s, id), id); Follows(s, t) && t.tcp == s.tcp - {id}
  {
    hide Follows, Consistent, SendEnd, EndStream;
    SendFollows(s, id, [], 0, None);
    SendEndKeeps(s, id);
    EndFollows(SendEnd(s, id), id);
    FollowsOn(s, SendEnd(s, id), EndStream(SendEnd(s, id), id));
  }

  /** Ids stay with their handles, the session closes only by its own event, and the table of an id changes as told. */
  lemma StepFollows(text: Text, s: State, e: Event)
    requires Consistent(s) && !s.mute
    ensures Follows(s, Step(text, s, e).(closed := s.closed)) && Step(text, s, e).closed == (s.closed || e.Stop?)
    ensures Step(text, s, e).tcp ==
            match e
            case Arrives(f) =>
              if s.closed || |f.meta| < 4 then s.tcp
              else if f.Command() == NEW && Creates(text, f, TCP) then s.tcp[f.Id() := s.next]
              else if f.Command() == END then s.tcp - {f.Id()} else s.tcp
            case Closes(c) => if Listens(s, c) && !s.closed then s.tcp - {s.entries[c].id} else s.tcp
            case Fails(c) => if Listens(s, c) then s.tcp - {s.entries[c].id} else s.tcp
            case Stop => map[]
            case _ => s.tcp
  {
    assert s.closed ==> s.tcp == map[];
    FollowsItself(s);
    CloseFollows(s);
    SameClosed(s, Step(text, s, e));
    hide Follows, Consistent, OnFrame, OnConnect, EndStream, SendEnd, SendKeep, SendUdpFrom, Creates, Close;
    match e
    case Arrives(f) => if !s.closed && |f.meta| >= 4 { FrameFollows(text, s, f); }
    case Connects(c) => ConnectFollows(s, c);
    case Data(c, data) => if Listens(s, c) { SendFollows(s, s.entries[c].id, data, 0, None); }
    case Received(c, port, quad, data) => if Listens(s, c) { SendFollows(s, s.entries[c].id, data, port, quad); }
    case Closes(c) => if Listens(s, c) { CallbackFollows(s, s.entries[c].id); }
    case Fails(c) =>
      if Listens(s, c) {
        CallbackFollows(s, s.entries[c].id);
        EndFollows(s, s.entries[c].id);
      }
    case Stop =>
  }

  lemma SameClosed(s: State, t: State)
    ensures Follows(s, t) ==> t.(closed := s.closed) == t
  {
  }

  lemma {:induction false} NeverMute(text: Text, events: seq<Event>)
    ensures !Run(text, events).mute
    ensures Run(text, events).closed <==> Stop in events
    decreases |events|
  {
    if events == [] {
    } else {
      var n := |events| - 1;
      NeverMute(text, events[..n]);
      BooksBalance(text, events[..n]);
      assert events == events[..n] + [events[n]];
      StepFollows(text, Run(text, events[..n]), events[n]);
      hide Step, Consistent;
    }
  }

  /** A table goes on naming a handle until something ends its id, if no New frame reuses the id. */
  lemma RouteStays(text: Text, s: State, e: Event, id: nat, h: nat)
    requires Consistent(s) && !s.mute && !Reuses(text, s, e) && h in s.entries
    ensures Routes(Step(text, s, e), id, h) <==> Routes(s, id, h) && !Finishes(s, e, id)
  {
    assert h < s.next && (s.closed ==> s.tcp == map[]);
    StepFollows(text, s, e);
    hide Consistent, Step, Follows, ReadTarget, IsBlocked;
  }

  /** The deed an event does to a handle of this id. */
  lemma DeedOfId(text: Text, s: State, e: Event, id: nat, h: nat)
    requires Consistent(s) && !s.mute && h in s.entries && s.entries[h].TcpEntry? && s.entries[h].id == id
    ensures var deed := DeedOf(text, s, e, h);
            && (deed.Ends? <==> Routes(s, id, h) && Finishes(s, e, id))
            && (deed.Gives? <==> Routes(s, id, h) && Brings(text, e, id))
            && (deed.Gives? ==> deed.data == e.frame.Payload())
            && !deed.Opens? && !deed.OpensUdp?
  {
    hide ReadTarget, IsBlocked;
  }

  // ----- whole runs -----

  ghost function HandleOf(text: Text, events: seq<Event>, n: nat): nat
    requires n <= |events|
  {
    Run(text, events[..n]).next
  }

  /** What the session knows of the substream that event `n` opened. */
  ghost predicate Knows(text: Text, events: seq<Event>, n: nat)
    requires Begins(text, events, n)
  {
    var s, h, id := Run(text, events), HandleOf(text, events, n), events[n].frame.Id();
    && h in s.entries && s.entries[h].TcpEntry? && s.entries[h].id == id
    && (Routes(s, id, h) <==> Lives(text, events, n))
    && (s.entries[h].listening <==> Lives(text, events, n))
    && Fed(text, events, h) == Sent(text, events, n)
  }

  lemma KnowsAtFirst(text: Text, events: seq<Event>, n: nat)
    requires Begins(text, events, n) && |events| == n + 1
    ensures Knows(text, events, n)
  {
    var before, f := events[..n], events[n].frame;
    var s := Run(text, before);
    var h := s.next;
    NeverMute(text, before);
    BooksBalance(text, before);
    UplinkIsFaithful(text, before, h);
    assert h !in s.entries && View(s, h).Unopened? && Fed(text, before, h) == [];
    assert DeedOf(text, s, events[n], h) == Opens(f.Payload());
    StepSocket(text, s, events[n], h);
    StepFollows(text, s, events[n]);
    NewOpens(text, s, f);
    assert [] + f.Payload() == f.Payload();
    hide Step, Consistent, Creates, DeedOf, OnNew, View;
  }

  lemma NewOpens(text: Text, s: State, f: Frame)
    requires !s.closed && |f.meta| >= 4 && f.Command() == NEW && Creates(text, f, TCP)
    ensures var t := Step(text, s, Arrives(f));
            s.next in t.entries && t.entries[s.next] == TcpEntry(f.Id(), false, f.Payload(), [], true)
  {
    hide IsBlocked, ReadTarget;
  }

  lemma KnowsOn(text: Text, events: seq<Event>, n: nat)
    requires Begins(text, events, n) && n + 1 < |events| && NeverReuses(text, events)
    requires Begins(text, events[..|events| - 1], n) && Knows(text, events[..|events| - 1], n)
    ensures Knows(text, events, n)
  {
    var before, e := events[..|events| - 1], events[|events| - 1];
    var s, id := Run(text, before), events[n].frame.Id();
    BeginsBefore(text, events, n);
    var h := HandleOf(text, events, n);
    NeverMute(text, before);
    BooksBalance(text, before);
    StepSocket(text, s, e, h);
    RouteStays(text, s, e, id, h);
    DeedOfId(text, s, e, id, h);
    IdStays(text, s, e, h);
    var deed := DeedOf(text, s, e, h);
    assert Fed(text, events, h) == Fed(text, before, h) + Brought(deed);
    ListensOn(s, Step(text, s, e), deed, h);
    assert Run(text, events) == Step(text, s, e);
    hide Step, Consistent, DeedOf, Finishes, Routes, Reuses, Run, View, Do;
  }

  lemma IdStays(text: Text, s: State, e: Event, h: nat)
    requires Consistent(s) && !s.mute && h in s.entries
    ensures h in Step(text, s, e).entries && Step(text, s, e).entries[h].id == s.entries[h].id
  {
    StepFollows(text, s, e);
    hide Step, Consistent;
  }

  /** A socket listens until the deed that ends it. */
  lemma ListensOn(s: State, t: State, deed: Deed, h: nat)
    requires h in s.entries && s.entries[h].TcpEntry? && h in t.entries && View(t, h) == Do(View(s, h), deed)
    requires !deed.Opens? && !deed.OpensUdp?
    ensures t.entries[h].TcpEntry? && (t.entries[h].listening <==> s.entries[h].listening && !deed.Ends?)
  {
  }

  lemma {:induction false} RunKnows(text: Text, events: seq<Event>, n: nat)
    requires Begins(text, events, n) && NeverReuses(text, events)
    ensures Knows(text, events, n)
    decreases |events|
  {
    if n + 1 == |events| {
      KnowsAtFirst(text, events, n);
    } else {
      BeginsBefore(text, events, n);
      hide Knows, Begins, Reuses;
      RunKnows(text, events[..|events| - 1], n);
      KnowsOn(text, events, n);
    }
  }

  /**
   In every run in which New frames name fresh ids, a TCP substream lives until its id is ended, by frame,
   by socket or with the session, and no longer.  While it lives, the bytes written to its socket and then
   those waiting for it to connect are the data of its New frame and of the Keep frames of its id, in order;
   what was written before it ended is the front of that.
   */
  lemma SubstreamIsFaithful(text: Text, events: seq<Event>, n: nat)
    requires Begins(text, events, n) && NeverReuses(text, events)
    ensures var s, h, sent := Run(text, events), HandleOf(text, events, n), Sent(text, events, n);
            && h in s.entries && s.entries[h].TcpEntry? && s.entries[h].id == events[n].frame.Id()
            && (s.entries[h].listening <==> Lives(text, events, n))
            && (h in s.unended <==> Lives(text, events, n))
            && (if Lives(text, events, n) then s.entries[h].sent + s.entries[h].pending == sent
                else s.entries[h].sent <= sent && s.entries[h].pending == [])
            && (s.entries[h].connected ==> s.entries[h].pending == [])
  {
    var s, h, id := Run(text, events), HandleOf(text, events, n), events[n].frame.Id();
    RunKnows(text, events, n);
    UplinkIsFaithful(text, events, h);
    BooksBalance(text, events);
    LiveIffRouted(s, id, h);
    hide Run, Lives, Sent, Fed, Early, NeverReuses, Begins, Consistent, Live;
  }

  lemma LiveIffRouted(s: State, id: nat, h: nat)
    requires Consistent(s) && h in s.entries && s.entries[h].TcpEntry? && s.entries[h].id == id
    ensures h in Live(s) <==> Routes(s, id, h)
  {
  }
}
