/**
 Where the bytes of a mux substream go: to its TCP socket, in order, and into the statistics.
 The session is projected onto one handle at a time; `StepSocket` says which single deed each
 event does to it.
 */
module MuxUplink {
  import opened Bytes
  import opened Options
  import opened Names
  import opened MuxWire
  import opened MuxStreams
  import opened MuxBooks

  /** One handle: not opened yet, a datagram socket, or a TCP socket with its statistics count. */
  datatype Socket =
    | Unopened(tx: nat)
    | Datagrams
    | Stream(connected: bool, pending: bytes, sent: bytes, listening: bool, tx: nat)

  ghost function View(s: State, h: nat): Socket {
    if h !in s.entries then Unopened(Get(s.tx, h, 0))
    else match s.entries[h]
      case UdpEntry(_, _, _, _, _) => Datagrams
      case TcpEntry(_, connected, pending, sent, listening) =>
        Stream(connected, pending, sent, listening, Get(s.tx, h, 0))
  }

  datatype Deed = Nothing | Opens(initial: bytes) | OpensUdp | Gives(data: bytes) | Flushes | Ends

  ghost function Do(k: Socket, deed: Deed): Socket {
    match deed
    case Nothing => k
    case Opens(initial) => Stream(false, initial, [], true, if k.Unopened? then k.tx else 0)
    case OpensUdp => Datagrams
    case Gives(data) =>
      if !k.Stream? then k
      else if k.connected then k.(sent := k.sent + data, tx := k.tx + |data|)
      else k.(pending := k.pending + data, tx := k.tx + |data|)
    case Flushes =>
      if !k.Stream? || k.connected then k
      else Stream(true, [], k.sent + k.pending, k.listening, k.tx + |k.pending|)
    case Ends => if k.Stream? then k.(pending := [], listening := false) else k
  }

  // ----- what an event does to a handle -----

  /** A Keep frame whose data is passed on: one that names a peer must name one that is allowed. */
  ghost predicate Passes(text: Text, f: Frame) {
    Retargets(f) ==>
      ReadTarget(text, f.meta).Some? && !IsBlocked(text, ReadTarget(text, f.meta).value.host)
  }

  /** A New frame that opens a substream on the given network. */
  ghost predicate Creates(text: Text, f: Frame, network: nat) {
    && ReadTarget(text, f.meta).Some?
    && ReadTarget(text, f.meta).value.network == network && !IsBlocked(text, ReadTarget(text, f.meta).value.host)
  }

  ghost predicate Routes(s: State, id: nat, h: nat) {
    id in s.tcp && s.tcp[id] == h
  }

  ghost function FrameDeed(text: Text, s: State, f: Frame, h: nat): Deed
    requires |f.meta| >= 4
  {
    if f.Command() == NEW then
      if h == s.next && Creates(text, f, TCP) then Opens(f.Payload())
      else if h == s.next && Creates(text, f, UDP) then OpensUdp
      else Nothing
    else if f.Command() == KEEP && Passes(text, f) then
      if Routes(s, f.Id(), h) then Gives(f.Payload())
      else if h == s.next && Retargets(f) && f.Id() !in s.udp then OpensUdp
      else Nothing
    else if f.Command() == END && Routes(s, f.Id(), h) then Ends
    else Nothing
  }

  ghost function DeedOf(text: Text, s: State, e: Event, h: nat): Deed {
    match e
    case Arrives(f) => if s.closed || |f.meta| < 4 then Nothing else FrameDeed(text, s, f, h)
    case Connects(c) => if c == h then Flushes else Nothing
    case Data(_, _) => Nothing
    case Received(_, _, _, _) => Nothing
    case Closes(c) => if Listens(s, c) && !s.mute && !s.closed && Routes(s, s.entries[c].id, h) then Ends else Nothing
    case Fails(c) => if Listens(s, c) && Routes(s, s.entries[c].id, h) then Ends else Nothing
    case Stop => if !s.closed && h in s.tcp.Values then Ends else Nothing
  }

  lemma DeliverView(s: State, id: nat, data: bytes, h: nat)
    requires Consistent(s)
    ensures View(Deliver(s, id, data), h) == if Routes(s, id, h) then Do(View(s, h), Gives(data)) else View(s, h)
  {
    if data == [] && Routes(s, id, h) {
      assert Do(View(s, h), Gives(data)) == View(s, h);
    }
  }

  lemma RetargetView(s: State, id: nat, host: string, port: nat, h: nat)
    requires Consistent(s)
    ensures View(Retarget(s, id, host, port), h)
         == if h == s.next && id !in s.udp then Datagrams else View(s, h)
    ensures Retarget(s, id, host, port).tcp == s.tcp
  {
  }

  lemma EndStreamView(s: State, id: nat, h: nat)
    requires Consistent(s)
    ensures View(EndStream(s, id), h) == if Routes(s, id, h) then Do(View(s, h), Ends) else View(s, h)
  {
    assert View(EndTcp(s, id), h) == if Routes(s, id, h) then Do(View(s, h), Ends) else View(s, h);
    EndTcpKeeps(s, id);
  }

  lemma SendEndView(s: State, id: nat, h: nat)
    ensures View(SendEnd(s, id), h) == View(s, h)
    ensures SendEnd(s, id).entries == s.entries && SendEnd(s, id).tcp == s.tcp
  {
  }

  lemma OpenView(s: State, id: nat, initial: bytes, host: string, port: nat, data: bytes, h: nat)
    requires Consistent(s)
    ensures View(OpenTcp(s, id, initial), h) == if h == s.next then Do(View(s, h), Opens(initial)) else View(s, h)
    ensures var made := OpenUdp(s, id, host, port);
            && View(made, h) == (if h == s.next then Datagrams else View(s, h))
            && View(SendUdp(made, s.next, data), h) == View(made, h)
  {
  }

  lemma NewView(text: Text, s: State, f: Frame, h: nat)
    requires Consistent(s) && |f.meta| >= 4 && f.Command() == NEW
    ensures View(OnNew(text, s, f), h) == Do(View(s, h), FrameDeed(text, s, f, h))
  {
    hide ReadTarget, IsBlocked, View, Consistent, OpenTcp, OpenUdp, SendUdp, SendEnd;
    SendEndView(s, f.Id(), h);
    if ReadTarget(text, f.meta).Some? {
      var t := ReadTarget(text, f.meta).value;
      OpenView(s, f.Id(), f.Payload(), t.host, t.port, f.Payload(), h);
    }
  }

  lemma KeepView(text: Text, s: State, f: Frame, h: nat)
    requires Consistent(s) && !s.closed && |f.meta| >= 4 && f.Command() == KEEP
    ensures View(OnKeep(text, s, f), h) == Do(View(s, h), FrameDeed(text, s, f, h))
  {
    hide ReadTarget, IsBlocked, Deliver, Retarget, SendEnd, Consistent, View;
    SendEndView(s, f.Id(), h);
    if !Retargets(f) {
      DeliverView(s, f.Id(), f.Payload(), h);
    } else if ReadTarget(text, f.meta).Some? {
      var t := ReadTarget(text, f.meta).value;
      RetargetKeeps(s, f.Id(), t.host, t.port);
      RetargetView(s, f.Id(), t.host, t.port, h);
      DeliverView(Retarget(s, f.Id(), t.host, t.port), f.Id(), f.Payload(), h);
      NextIsUnnamed(s, f.Id());
    }
  }

  lemma NextIsUnnamed(s: State, id: nat)
    requires Consistent(s)
    ensures !Routes(s, id, s.next)
  {
  }

  lemma StopView(s: State, h: nat)
    requires Consistent(s)
    ensures View(Close(s), h) == if !s.closed && h in s.tcp.Values then Do(View(s, h), Ends) else View(s, h)
  {
  }

  lemma ConnectView(s: State, c: nat, h: nat)
    ensures View(OnConnect(s, c), h) == if c == h then Do(View(s, h), Flushes) else View(s, h)
  {
  }

  /** Every event does its deed to each handle, and nothing else. */
  lemma StepSocket(text: Text, s: State, e: Event, h: nat)
    requires Consistent(s)
    ensures View(Step(text, s, e), h) == Do(View(s, h), DeedOf(text, s, e, h))
  {
    match e
    case Arrives(f) =>
      if !s.closed && |f.meta| >= 4 {
        if f.Command() == NEW { NewView(text, s, f, h); }
        else if f.Command() == KEEP { KeepView(text, s, f, h); }
        else { EndStreamView(s, f.Id(), h); }
        hide OnNew, OnKeep, EndStream, View, Consistent;
      }
    case Connects(c) => ConnectView(s, c, h);
    case Data(_, _) =>
    case Received(_, _, _, _) =>
    case Closes(c) =>
      if Listens(s, c) {
        SendEndView(s, s.entries[c].id, h);
        SendEndKeeps(s, s.entries[c].id);
        EndStreamView(SendEnd(s, s.entries[c].id), s.entries[c].id, h);
        hide EndStream, View, Consistent, SendEnd;
      }
    case Fails(c) =>
      if Listens(s, c) {
        SendEndView(s, s.entries[c].id, h);
        SendEndKeeps(s, s.entries[c].id);
        EndStreamView(SendEnd(s, s.entries[c].id), s.entries[c].id, h);
        EndStreamView(s, s.entries[c].id, h);
        hide EndStream, View, Consistent, SendEnd;
      }
    case Stop => StopView(s, h);
  }

  /** Only a fresh handle is opened, and only a socket that still listens is given data. */
  lemma DeedsFit(text: Text, s: State, e: Event, h: nat)
    requires Consistent(s)
    ensures var deed, k := DeedOf(text, s, e, h), View(s, h);
            && (deed.Opens? || deed.OpensUdp? ==> k.Unopened?)
            && (deed.Gives? ==> k.Stream? && k.listening)
            && (k.Stream? && k.connected ==> k.pending == [])
  {
    hide ReadTarget, IsBlocked;
  }

  // ----- whole runs -----

  /** What a handle is sent in a run: the data of the New frame that opened it, then of its Keep frames. */
  ghost function Fed(text: Text, events: seq<Event>, h: nat): bytes
    decreases |events|
  {
    if events == [] then [] else
    var before := events[..|events| - 1];
    Fed(text, before, h) + Brought(DeedOf(text, Run(text, before), events[|events| - 1], h))
  }

  ghost function Brought(deed: Deed): bytes {
    match deed
    case Opens(initial) => initial
    case Gives(data) => data
    case _ => []
  }

  /** How much of it came in Keep frames before the socket had connected. */
  ghost function Early(text: Text, events: seq<Event>, h: nat): nat
    decreases |events|
  {
    if events == [] then 0 else
    var before := events[..|events| - 1];
    Early(text, before, h) + TooEarly(View(Run(text, before), h),
        DeedOf(text, Run(text, before), events[|events| - 1], h))
  }

  ghost function TooEarly(k: Socket, deed: Deed): nat {
    if deed.Gives? && k.Stream? && !k.connected then |deed.data| else 0
  }

  ghost predicate Faithful(k: Socket, fed: bytes, early: nat) {
    match k
    case Unopened(tx) => fed == [] && tx == early == 0
    case Datagrams => true
    case Stream(connected, pending, sent, listening, tx) =>
      && (if listening then sent + pending == fed else sent <= fed && pending == [])
      && (if connected then pending == [] else sent == [])
      && tx == |sent| + early
  }

  lemma DoIsFaithful(k: Socket, deed: Deed, fed: bytes, early: nat)
    requires Faithful(k, fed, early)
    requires deed.Opens? || deed.OpensUdp? ==> k.Unopened?
    requires deed.Gives? ==> k.Stream? && k.listening
    ensures Faithful(Do(k, deed), fed + Brought(deed), early + TooEarly(k, deed))
  {
    match deed
    case Opens(initial) => assert [] + initial == initial == fed + initial;
    case Gives(data) => assert k.sent + k.pending + data == k.sent + (k.pending + data);
    case Flushes =>
      assert fed + [] == fed;
      if k.Stream? { assert k.sent + k.pending + [] == k.sent + k.pending; }
    case _ => assert fed + [] == fed;
  }

  /**
   In every reachable state, the bytes written to a TCP substream's socket followed by the bytes
   waiting for it to connect are what the run sent it, in order; nothing waits once it is connected;
   and the statistics exceed what was written by exactly the Keep data that came before the connection,
   which is counted on arrival and again when it is flushed.
   */
  lemma {:induction false} UplinkIsFaithful(text: Text, events: seq<Event>, h: nat)
    ensures Faithful(View(Run(text, events), h), Fed(text, events, h), Early(text, events, h))
    decreases |events|
  {
    if events == [] {
    } else {
      var before, e := events[..|events| - 1], events[|events| - 1];
      var s := Run(text, before);
      UplinkIsFaithful(text, before, h);
      BooksBalance(text, before);
      StepSocket(text, s, e, h);
      DeedsFit(text, s, e, h);
      hide Step, View, DeedOf, Consistent, Faithful, Do;
      DoIsFaithful(View(s, h), DeedOf(text, s, e, h), Fed(text, before, h), Early(text, before, h));
    }
  }

  /** So a substream's count is the number of bytes written exactly when no Keep data came too early. */
  lemma CountIsExact(text: Text, events: seq<Event>, h: nat)
    requires View(Run(text, events), h).Stream?
    ensures View(Run(text, events), h).tx == |View(Run(text, events), h).sent| <==> Early(text, events, h) == 0
  {
    UplinkIsFaithful(text, events, h);
  }

  /** A Keep frame in front of the connection: its bytes are written once and counted twice. */
  lemma EarlyKeepCountsTwice(text: Text, m: Meta, first: bytes, more: bytes)
    requires Dials(text, m) && more != []
    ensures var dial, keep := Frame(m.Bytes(), Some(first)), Frame([m.id / 256, m.id % 256, 2, 1], Some(more));
            View(Run(text, [Arrives(dial), Arrives(keep), Connects(0)]), 0)
            == Stream(true, [], first + more, true, |first| + |more| + |more|)
  {
    var dial, keep := Frame(m.Bytes(), Some(first)), Frame([m.id / 256, m.id % 256, 2, 1], Some(more));
    hide OnFrame, OnConnect, OpenTcp, View, Dials;
    var one, two, all := [Arrives(dial)], [Arrives(dial), Arrives(keep)], [Arrives(dial), Arrives(keep), Connects(0)];
    assert one + [Arrives(keep)] == two && all[..2] == two;
    DialRuns(text, m, first);
    FrameArrives(text, one, keep);
    var s := OpenTcp(START, m.id, first);
    var t := OnFrame(text, s, keep);
    KeepDelivers(text, s, m.id, first, keep);
    assert Run(text, all) == OnConnect(t, 0);
    hide Run;
    ConnectView(t, 0, 0);
    assert [] + (first + more) == first + more;
  }

  lemma KeepDelivers(text: Text, s: State, id: nat, first: bytes, keep: Frame)
    requires s == OpenTcp(START, id, first) && id < 65536
    requires keep.data.Some? && keep.data.value != [] && keep.meta == [id / 256, id % 256, 2, 1]
    ensures View(OnFrame(text, s, keep), 0) == Stream(false, first + keep.data.value, [], true, |keep.data.value|)
  {
    assert keep.Id() == id && keep.Command() == KEEP && !Retargets(keep);
    assert s.tcp == map[id := 0];
  }
}
