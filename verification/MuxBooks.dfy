/** What every run of a mux session keeps: its books on substreams, their payload and their byte counts. */
module MuxBooks {
  import opened Bytes
  import opened Options
  import opened Names
  import opened MuxWire
  import opened MuxStreams

  /** The handles the tables currently name. */
  ghost function Live(s: State): set<nat> {
    s.tcp.Values + s.udp.Values
  }

  ghost predicate Consistent(s: State) {
    && (forall id <- s.tcp :: IsTcp(s, s.tcp[id]) && s.entries[s.tcp[id]].id == id)
    && (forall id <- s.udp :: IsUdp(s, s.udp[id]) && s.entries[s.udp[id]].id == id)
    && (forall h <- s.entries :: h < s.next) && (forall h <- s.tx :: h < s.next)
    && Live(s) <= s.unended <= s.entries.Keys
    && (forall h <- s.entries :: s.entries[h].TcpEntry? && s.entries[h].connected ==> s.entries[h].pending == [])
    && (s.closed ==> s.tcp == map[] && s.udp == map[])
  }

  ghost predicate IsTcp(s: State, h: nat) {
    h in s.entries && s.entries[h].TcpEntry? && s.entries[h].listening
  }

  ghost predicate IsUdp(s: State, h: nat) {
    h in s.entries && s.entries[h].UdpEntry? && s.entries[h].listening
  }

  /** Statistics records that nothing will ever end: not ended, yet no table names them. */
  ghost function Leaked(s: State): set<nat> {
    s.unended - Live(s)
  }

  // ----- each operation -----

  lemma EndTcpKeeps(s: State, id: nat)
    requires Consistent(s)
    ensures Consistent(EndTcp(s, id)) && Leaked(EndTcp(s, id)) == Leaked(s)
  {
    if id in s.tcp {
      var t, h := EndTcp(s, id), s.tcp[id];
      assert t.tcp.Values == s.tcp.Values - {h} by { RemoveValue(s.tcp, id); }
      assert h !in s.udp.Values;
    }
  }

  lemma EndUdpKeeps(s: State, id: nat)
    requires Consistent(s)
    ensures Consistent(EndUdp(s, id)) && Leaked(EndUdp(s, id)) == Leaked(s)
  {
    if id in s.udp {
      var t, h := EndUdp(s, id), s.udp[id];
      assert t.udp.Values == s.udp.Values - {h} by { RemoveValue(s.udp, id); }
      assert h !in s.tcp.Values;
    }
  }

  lemma RemoveValue(m: map<nat, nat>, k: nat)
    requires k in m && forall j <- m :: j != k ==> m[j] != m[k]
    ensures (m - {k}).Values == m.Values - {m[k]}
  {
    forall v | v in m.Values - {m[k]}
      ensures v in (m - {k}).Values
    {
      var j :| j in m && m[j] == v;
      assert j in m - {k};
    }
  }

  lemma PutValue(m: map<nat, nat>, k: nat, v: nat)
    requires forall j <- m :: j != k && k in m ==> m[j] != m[k]
    ensures m[k := v].Values == (if k in m then m.Values - {m[k]} else m.Values) + {v}
  {
    var kept := if k in m then m.Values - {m[k]} else m.Values;
    forall w | w in kept + {v}
      ensures w in m[k := v].Values
    {
      if w == v {
        assert m[k := v][k] == v;
      } else {
        var j :| j in m && m[j] == w;
        assert j in m[k := v] && m[k := v][j] == w;
      }
    }
  }

  lemma OpenTcpKeeps(s: State, id: nat, initial: bytes)
    requires Consistent(s) && !s.closed
    ensures Consistent(OpenTcp(s, id, initial))
    ensures Leaked(OpenTcp(s, id, initial)) == Leaked(s) + if id in s.tcp then {s.tcp[id]} else {}
  {
    OpenTcpLeaks(s, id, initial);
    hide Leaked;
    PutValue(s.tcp, id, s.next);
  }

  lemma OpenTcpLeaks(s: State, id: nat, initial: bytes)
    requires Consistent(s)
    ensures Leaked(OpenTcp(s, id, initial)) == Leaked(s) + if id in s.tcp then {s.tcp[id]} else {}
  {
    PutValue(s.tcp, id, s.next);
    assert id in s.tcp ==> s.tcp[id] in s.tcp.Values && s.tcp[id] !in s.udp.Values;
  }

  lemma OpenUdpKeeps(s: State, id: nat, host: string, port: nat)
    requires Consistent(s) && !s.closed
    ensures Consistent(OpenUdp(s, id, host, port))
    ensures Leaked(OpenUdp(s, id, host, port)) == Leaked(s) + if id in s.udp then {s.udp[id]} else {}
  {
    OpenUdpLeaks(s, id, host, port);
    hide Leaked;
    PutValue(s.udp, id, s.next);
  }

  lemma OpenUdpLeaks(s: State, id: nat, host: string, port: nat)
    requires Consistent(s)
    ensures Leaked(OpenUdp(s, id, host, port)) == Leaked(s) + if id in s.udp then {s.udp[id]} else {}
  {
    PutValue(s.udp, id, s.next);
    assert id in s.udp ==> s.udp[id] in s.udp.Values && s.udp[id] !in s.tcp.Values;
  }

  /** Operations that change neither the tables nor the records. */
  ghost predicate SameTables(s: State, t: State) {
    t.tcp == s.tcp && t.udp == s.udp && t.unended == s.unended
  }

  /** Rewriting an entry without changing what it is, or leaving bytes pending behind a connection. */
  lemma RewriteKeeps(s: State, t: State, h: nat)
    requires Consistent(s) && SameTables(s, t) && t.next == s.next && t.closed == s.closed
    requires h in s.entries && h in t.entries && t.entries == s.entries[h := t.entries[h]]
    requires t.entries[h].id == s.entries[h].id && t.entries[h].listening == s.entries[h].listening
    requires t.entries[h].TcpEntry? == s.entries[h].TcpEntry? && forall k <- t.tx :: k in s.tx || k == h
    requires t.entries[h].TcpEntry? && t.entries[h].connected ==> t.entries[h].pending == []
    ensures Consistent(t)
  {
  }

  lemma SendUdpKeeps(s: State, h: nat, data: bytes)
    requires Consistent(s)
    ensures Consistent(SendUdp(s, h, data)) && SameTables(s, SendUdp(s, h, data))
  {
    if h in s.entries && s.entries[h].UdpEntry? {
      RewriteKeeps(s, SendUdp(s, h, data), h);
    }
    hide Consistent;
  }

  lemma DeliverKeeps(s: State, id: nat, data: bytes)
    requires Consistent(s)
    ensures Consistent(Deliver(s, id, data)) && SameTables(s, Deliver(s, id, data))
  {
    if data == [] {
    } else if id in s.tcp {
      RewriteKeeps(s, Deliver(s, id, data), s.tcp[id]);
    } else if id in s.udp {
      SendUdpKeeps(s, s.udp[id], data);
    }
    hide Consistent, SendUdp;
  }

  lemma RetargetKeeps(s: State, id: nat, host: string, port: nat)
    requires Consistent(s) && !s.closed
    ensures Consistent(Retarget(s, id, host, port)) && Leaked(Retarget(s, id, host, port)) == Leaked(s)
    ensures !Retarget(s, id, host, port).closed
  {
    if id in s.udp {
      RewriteKeeps(s, Retarget(s, id, host, port), s.udp[id]);
    } else {
      OpenUdpKeeps(s, id, host, port);
    }
    hide Consistent, OpenUdp;
  }

  lemma OnConnectKeeps(s: State, h: nat)
    requires Consistent(s)
    ensures Consistent(OnConnect(s, h)) && SameTables(s, OnConnect(s, h))
  {
    if h in s.entries && s.entries[h].TcpEntry? {
      RewriteKeeps(s, OnConnect(s, h), h);
    }
    hide Consistent;
  }

  /** `s` is `s0` with some of its live substreams torn down. */
  ghost predicate Shrunk(s0: State, s: State) {
    && s.entries.Keys == s0.entries.Keys && Live(s) <= Live(s0)
    && (forall h <- s0.entries ::
          s.entries[h] == if h in Live(s0) - Live(s) then Ended(s0.entries[h]) else s0.entries[h])
    && s.unended == s0.unended - (Live(s0) - Live(s))
    && (s.next, s.tx, s.closed, s.mute, s.out) == (s0.next, s0.tx, s0.closed, s0.mute, s0.out)
  }

  lemma EndTcpShrinks(s0: State, s: State, id: nat)
    requires Consistent(s) && Shrunk(s0, s)
    ensures Shrunk(s0, EndTcp(s, id)) && EndTcp(s, id).tcp == s.tcp - {id} && EndTcp(s, id).udp == s.udp
  {
    if id in s.tcp {
      var h := s.tcp[id];
      RemoveValue(s.tcp, id);
      assert h in s.tcp.Values && h !in s.udp.Values;
      assert Live(EndTcp(s, id)) == Live(s) - {h};
    }
  }

  lemma EndUdpShrinks(s0: State, s: State, id: nat)
    requires Consistent(s) && Shrunk(s0, s)
    ensures Shrunk(s0, EndUdp(s, id)) && EndUdp(s, id).udp == s.udp - {id} && EndUdp(s, id).tcp == s.tcp
  {
    if id in s.udp {
      var h := s.udp[id];
      RemoveValue(s.udp, id);
      assert h in s.udp.Values && h !in s.tcp.Values;
      assert Live(EndUdp(s, id)) == Live(s) - {h};
    }
  }

  lemma EndStreamShrinks(s0: State, s: State, id: nat)
    requires Consistent(s) && Shrunk(s0, s)
    ensures Consistent(EndStream(s, id)) && Shrunk(s0, EndStream(s, id))
    ensures EndStream(s, id).tcp == s.tcp - {id} && EndStream(s, id).udp == s.udp - {id}
  {
    EndTcpShrinks(s0, s, id);
    EndTcpKeeps(s, id);
    EndUdpShrinks(s0, EndTcp(s, id), id);
    EndStreamKeeps(s, id);
  }

  /** Tearing down every substream one by one is what `Close` says. */
  lemma ShrunkToNothing(s0: State, s: State)
    requires Consistent(s0) && Shrunk(s0, s) && s.tcp == map[] && s.udp == map[] && !s0.closed
    ensures s.(closed := true) == Close(s0)
  {
    assert Live(s) == {};
  }

  /** Closing leaves no substream, and ends every record but those that had leaked before. */
  lemma CloseLeavesNone(s: State)
    requires Consistent(s)
    ensures Live(Close(s)) == {} && Close(s).unended == Leaked(s)
    ensures forall h <- Close(s).entries :: Close(s).entries[h].listening ==> h !in Live(s)
  {
    assert Live(Close(s)) == {};
    assert s.closed ==> Live(s) == {};
    forall h | h in Close(s).entries && Close(s).entries[h].listening
      ensures h !in Live(s)
    {
    }
  }

  lemma CloseKeeps(s: State)
    requires Consistent(s)
    ensures Consistent(Close(s)) && Leaked(Close(s)) == Leaked(s)
  {
  }

  /** A New frame whose id its table still names: the entry there is overwritten without being ended. */
  ghost predicate Reuses(text: Text, s: State, e: Event) {
    && e.Arrives? && !s.closed && |e.frame.meta| >= 4 && e.frame.Command() == NEW
    && ReadTarget(text, e.frame.meta).Some?
    && var t := ReadTarget(text, e.frame.meta).value;
       && !IsBlocked(text, t.host)
       && ((t.network == TCP && e.frame.Id() in s.tcp) || (t.network == UDP && e.frame.Id() in s.udp))
  }

  ghost predicate NeverReuses(text: Text, events: seq<Event>)
    decreases |events|
  {
    events != [] ==>
      var before := events[..|events| - 1];
      NeverReuses(text, before) && !Reuses(text, Run(text, before), events[|events| - 1])
  }

  lemma NewKeeps(text: Text, s: State, f: Frame)
    requires Consistent(s) && !s.closed && |f.meta| >= 4 && f.Command() == NEW
    ensures Consistent(OnNew(text, s, f)) && Leaked(s) <= Leaked(OnNew(text, s, f))
    ensures Leaked(OnNew(text, s, f)) == Leaked(s) <==> !Reuses(text, s, Arrives(f))
  {
    hide Consistent, Leaked, OpenTcp, OpenUdp, SendUdp, ReadTarget, IsBlocked;
    TableIsNotLeaked(s, f.Id());
    if ReadTarget(text, f.meta).Some? {
      var t := ReadTarget(text, f.meta).value;
      if IsBlocked(text, t.host) {
        SendEndKeeps(s, f.Id());
      } else if t.network == TCP {
        OpenTcpKeeps(s, f.Id(), f.Payload());
      } else {
        var made := OpenUdp(s, f.Id(), t.host, t.port);
        OpenUdpKeeps(s, f.Id(), t.host, t.port);
        SendUdpKeeps(made, s.next, f.Payload());
        SameLeaked(made, SendUdp(made, s.next, f.Payload()));
      }
    }
  }

  lemma TableIsNotLeaked(s: State, id: nat)
    ensures id in s.tcp ==> s.tcp[id] !in Leaked(s)
    ensures id in s.udp ==> s.udp[id] !in Leaked(s)
  {
  }

  lemma SameLeaked(s: State, t: State)
    ensures SameTables(s, t) ==> Leaked(s) == Leaked(t)
  {
  }

  lemma SendEndKeeps(s: State, id: nat)
    requires Consistent(s)
    ensures Consistent(SendEnd(s, id)) && SameTables(s, SendEnd(s, id)) && Leaked(SendEnd(s, id)) == Leaked(s)
  {
  }

  lemma KeepKeeps(text: Text, s: State, f: Frame)
    requires Consistent(s) && !s.closed && |f.meta| >= 4
    ensures Consistent(OnKeep(text, s, f)) && Leaked(OnKeep(text, s, f)) == Leaked(s)
  {
    var id := f.Id();
    if !Retargets(f) {
      DeliverKeeps(s, id, f.Payload());
      SameLeaked(s, Deliver(s, id, f.Payload()));
    } else if ReadTarget(text, f.meta).Some? {
      var t := ReadTarget(text, f.meta).value;
      var r := Retarget(s, id, t.host, t.port);
      RetargetKeeps(s, id, t.host, t.port);
      DeliverKeeps(r, id, f.Payload());
      SameLeaked(r, Deliver(r, id, f.Payload()));
      SendEndKeeps(s, id);
    }
    hide Deliver, Retarget, ReadTarget, IsBlocked, Consistent, Leaked;
  }

  lemma EndStreamKeeps(s: State, id: nat)
    requires Consistent(s)
    ensures Consistent(EndStream(s, id)) && Leaked(EndStream(s, id)) == Leaked(s)
  {
    EndTcpKeeps(s, id);
    EndUdpKeeps(EndTcp(s, id), id);
  }

  lemma StepKeeps(text: Text, s: State, e: Event)
    requires Consistent(s)
    ensures Consistent(Step(text, s, e)) && Leaked(s) <= Leaked(Step(text, s, e))
    ensures Leaked(Step(text, s, e)) == Leaked(s) <==> !Reuses(text, s, e)
  {
    match e
    case Arrives(f) =>
      if !s.closed && |f.meta| >= 4 {
        if f.Command() == NEW { NewKeeps(text, s, f); }
        else if f.Command() == KEEP { KeepKeeps(text, s, f); }
        else { EndStreamKeeps(s, f.Id()); }
        hide OnNew, OnKeep, EndStream;
      }
    case Connects(h) => OnConnectKeeps(s, h);
    case Data(h, data) =>
    case Received(h, port, quad, data) =>
    case Closes(h) => TeardownKeeps(text, s, h);
    case Fails(h) => TeardownKeeps(text, s, h);
    case Stop => CloseKeeps(s);
  }

  lemma TeardownKeeps(text: Text, s: State, h: nat)
    requires Consistent(s)
    ensures forall e | e == Closes(h) || e == Fails(h) ::
              Consistent(Step(text, s, e)) && Leaked(Step(text, s, e)) == Leaked(s)
  {
    if h in s.entries {
      EndStreamKeeps(SendEnd(s, s.entries[h].id), s.entries[h].id);
      EndStreamKeeps(s, s.entries[h].id);
      hide EndStream;
    }
  }

  /**
   In every reachable state the tables name open entries of the right kind, connected entries have
   nothing pending, and a closed session has no substreams.  The records not ended are exactly
   those of the live substreams if and only if no New frame ever named an id that was in use.
   */
  lemma {:induction false} BooksBalance(text: Text, events: seq<Event>)
    ensures Consistent(Run(text, events))
    ensures Run(text, events).unended == Live(Run(text, events)) <==> NeverReuses(text, events)
    decreases |events|
  {
    if events == [] {
      assert Live(START) == {} == START.unended;
    } else {
      var before, e := events[..|events| - 1], events[|events| - 1];
      BooksBalance(text, before);
      StepKeeps(text, Run(text, before), e);
      hide Step, Consistent, Reuses;
      var s, t := Run(text, before), Run(text, events);
      assert t == Step(text, s, e);
      LeakedEmpty(s);
      LeakedEmpty(t);
      hide Leaked, Live, Run;
      assert Leaked(t) == {} <==> Leaked(s) == {} && Leaked(t) == Leaked(s);
    }
  }

  // ----- records and sockets -----

  /** A record is open exactly while its socket listens, and every id fits its field. */
  ghost predicate Tidy(s: State) {
    forall h <- s.entries :: (s.entries[h].listening <==> h in s.unended) && s.entries[h].id < 65536
  }

  lemma OpenIsTidy(s: State, id: nat, initial: bytes, host: string, port: nat)
    requires Tidy(s) && Consistent(s) && id < 65536
    ensures Tidy(OpenTcp(s, id, initial)) && Tidy(OpenUdp(s, id, host, port))
  {
  }

  /** Operations that leave records alone, and with every socket whether it listens and its id. */
  ghost predicate SameSockets(s: State, t: State) {
    && t.unended == s.unended && t.entries.Keys == s.entries.Keys
    && forall h <- s.entries :: t.entries[h].listening == s.entries[h].listening && t.entries[h].id == s.entries[h].id
  }

  lemma SameIsTidy(s: State, t: State)
    requires Tidy(s) && SameSockets(s, t)
    ensures Tidy(t)
  {
  }

  lemma SendUdpSame(s: State, h: nat, data: bytes)
    ensures SameSockets(s, SendUdp(s, h, data))
  {
  }

  lemma DeliverSame(s: State, id: nat, data: bytes)
    ensures SameSockets(s, Deliver(s, id, data))
  {
    if id in s.udp { SendUdpSame(s, s.udp[id], data); }
    hide SendUdp;
  }

  lemma ConnectSame(s: State, h: nat)
    ensures SameSockets(s, OnConnect(s, h))
  {
  }

  lemma SendSame(s: State, id: nat, data: bytes, port: nat, quad: Option<bytes>)
    ensures SameSockets(s, SendEnd(s, id)) && SameSockets(s, SendKeep(s, id, data))
    ensures SameSockets(s, SendUdpFrom(s, id, port, quad, data))
  {
  }

  lemma RetargetIsTidy(s: State, id: nat, host: string, port: nat)
    requires Tidy(s) && Consistent(s) && id < 65536
    ensures Tidy(Retarget(s, id, host, port))
  {
    OpenIsTidy(s, id, [], host, port);
    hide OpenUdp;
  }

  lemma EndIsTidy(s: State, id: nat)
    requires Tidy(s)
    ensures Tidy(EndStream(s, id))
  {
    assert Tidy(EndTcp(s, id));
  }

  lemma CloseIsTidy(s: State)
    requires Tidy(s)
    ensures Tidy(Close(s))
  {
  }

  lemma NewIsTidy(text: Text, s: State, f: Frame)
    requires Tidy(s) && Consistent(s) && |f.meta| >= 4
    ensures Tidy(OnNew(text, s, f))
  {
    hide Tidy, Consistent, SameSockets, OpenTcp, OpenUdp, SendUdp, SendEnd, ReadTarget, IsBlocked;
    SendSame(s, f.Id(), [], 0, None);
    SameIsTidy(s, SendEnd(s, f.Id()));
    if ReadTarget(text, f.meta).Some? {
      var t := ReadTarget(text, f.meta).value;
      OpenIsTidy(s, f.Id(), f.Payload(), t.host, t.port);
      var made := OpenUdp(s, f.Id(), t.host, t.port);
      SendUdpSame(made, s.next, f.Payload());
      SameIsTidy(made, SendUdp(made, s.next, f.Payload()));
    }
  }

  lemma KeepIsTidy(text: Text, s: State, f: Frame)
    requires Tidy(s) && Consistent(s) && |f.meta| >= 4
    ensures Tidy(OnKeep(text, s, f))
  {
    hide Tidy, Consistent, SameSockets, Deliver, Retarget, SendEnd, ReadTarget, IsBlocked;
    SendSame(s, f.Id(), [], 0, None);
    SameIsTidy(s, SendEnd(s, f.Id()));
    DeliverSame(s, f.Id(), f.Payload());
    SameIsTidy(s, Deliver(s, f.Id(), f.Payload()));
    if ReadTarget(text, f.meta).Some? {
      var t := ReadTarget(text, f.meta).value;
      var r := Retarget(s, f.Id(), t.host, t.port);
      RetargetIsTidy(s, f.Id(), t.host, t.port);
      DeliverSame(r, f.Id(), f.Payload());
      SameIsTidy(r, Deliver(r, f.Id(), f.Payload()));
    }
  }

  lemma CallbackIsTidy(s: State, id: nat)
    requires Tidy(s)
    ensures Tidy(EndStream(s, id)) && Tidy(EndStream(SendEnd(s, id), id))
  {
    SendSame(s, id, [], 0, None);
    SameIsTidy(s, SendEnd(s, id));
    EndIsTidy(s, id);
    EndIsTidy(SendEnd(s, id), id);
  }

  lemma StepIsTidy(text: Text, s: State, e: Event)
    requires Tidy(s) && Consistent(s)
    ensures Tidy(Step(text, s, e))
  {
    hide Tidy, Consistent, SameSockets, OnNew, OnKeep, OnConnect, SendEnd, SendKeep, SendUdpFrom, EndStream, Close;
    match e
    case Arrives(f) =>
      if |f.meta| >= 4 {
        NewIsTidy(text, s, f);
        KeepIsTidy(text, s, f);
        EndIsTidy(s, f.Id());
      }
    case Connects(h) =>
      ConnectSame(s, h);
      SameIsTidy(s, OnConnect(s, h));
    case Data(h, data) =>
      if Listens(s, h) {
        SendSame(s, s.entries[h].id, data, 0, None);
        SameIsTidy(s, SendKeep(s, s.entries[h].id, data));
      }
    case Received(h, port, quad, data) =>
      if Listens(s, h) {
        SendSame(s, s.entries[h].id, data, port, quad);
        SameIsTidy(s, SendUdpFrom(s, s.entries[h].id, port, quad, data));
      }
    case Closes(h) => if Listens(s, h) { CallbackIsTidy(s, s.entries[h].id); }
    case Fails(h) => if Listens(s, h) { CallbackIsTidy(s, s.entries[h].id); }
    case Stop => CloseIsTidy(s);
  }

  /** In every reachable state a record is open exactly while its socket listens, leaked or not. */
  lemma {:induction false} RecordsFollowSockets(text: Text, events: seq<Event>)
    ensures Tidy(Run(text, events))
    decreases |events|
  {
    if events == [] {
      assert Run(text, events) == START;
    } else {
      var before, e := events[..|events| - 1], events[|events| - 1];
      RecordsFollowSockets(text, before);
      BooksBalance(text, before);
      StepIsTidy(text, Run(text, before), e);
      hide Step, Tidy, Consistent;
    }
  }

  // ----- an id in use -----

  /** A New frame for a TCP target that is not blocked. */
  ghost predicate Dials(text: Text, m: Meta) {
    && m.Valid() && m.command == 1 && m.network == 1
    && !IsBlocked(text, ReadTarget(text, m.Bytes()).value.host)
  }

  lemma DialOpens(text: Text, m: Meta, data: bytes, s: State)
    requires Dials(text, m)
    ensures var f := Frame(m.Bytes(), Some(data)); |f.meta| >= 4 && OnFrame(text, s, f) == OpenTcp(s, m.id, data)
  {
    TargetReads(text, m, [], Some(data));
    hide ReadTarget, OpenTcp;
    assert m.Bytes() + [] == m.Bytes();
  }

  lemma FrameArrives(text: Text, before: seq<Event>, f: Frame)
    requires |f.meta| >= 4 && !Run(text, before).closed
    ensures Run(text, before + [Arrives(f)]) == OnFrame(text, Run(text, before), f)
  {
    assert (before + [Arrives(f)])[..|before|] == before;
    hide OnFrame;
  }

  lemma DialRuns(text: Text, m: Meta, data: bytes)
    requires Dials(text, m)
    ensures Run(text, [Arrives(Frame(m.Bytes(), Some(data)))]) == OpenTcp(START, m.id, data)
    ensures !OpenTcp(START, m.id, data).closed
  {
    var none: seq<Event> := [];
    var f := Frame(m.Bytes(), Some(data));
    assert none + [Arrives(f)] == [Arrives(f)] && Run(text, none) == START;
    DialOpens(text, m, data, START);
    FrameArrives(text, none, f);
    hide *;
  }

  /** The same New frame twice, and a record stays that no substream has. */
  lemma TwoNewsLeak(text: Text, m: Meta, data: bytes)
    requires Dials(text, m)
    ensures var f := Frame(m.Bytes(), Some(data));
            var s := Run(text, [Arrives(f), Arrives(f)]);
            s.unended == {0, 1} && Live(s) == {1}
  {
    var f := Frame(m.Bytes(), Some(data));
    var one := [Arrives(f)];
    var s := OpenTcp(START, m.id, data);
    assert one + [Arrives(f)] == [Arrives(f), Arrives(f)];
    DialRuns(text, m, data);
    DialOpens(text, m, data, s);
    FrameArrives(text, one, f);
    hide OnFrame, Run, Dials;
    var t := OpenTcp(s, m.id, data);
    assert t.tcp == map[m.id := 1] && t.tcp[m.id] in t.tcp.Values;
  }

  lemma LeakedEmpty(s: State)
    requires Consistent(s)
    ensures s.unended == Live(s) <==> Leaked(s) == {}
  {
    assert s.unended == Live(s) + Leaked(s);
  }
}
