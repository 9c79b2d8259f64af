/**
 The substreams of a Node mux session (src/node/mux.js) as a transition system.  A substream id is
 looked up in one of two tables; the entry it names is an object of its own, known here by its
 handle, because sockets keep calling back with the entry they were created with even after the
 table has moved on.  The handle also names the entry's statistics record.
 */
module MuxStreams {
  import opened Bytes
  import opened Options
  import opened Names
  import opened MuxWire
  import Downlink
  import WsFrames

  /** A datagram as it is handed to the resolver: payload and current peer. */
  datatype Datagram = Datagram(payload: bytes, host: string, port: nat)

  datatype Entry =
    | TcpEntry(id: nat, connected: bool, pending: bytes, sent: bytes, listening: bool)
    | UdpEntry(id: nat, host: string, port: nat, datagrams: seq<Datagram>, listening: bool)

  datatype State = State(
    tcp: map<nat, nat>, udp: map<nat, nat>, entries: map<nat, Entry>, next: nat,
    /** Statistics: records not ended yet, and bytes counted per record. */
    unended: set<nat>, tx: map<nat, nat>,
    closed: bool,
    /** The session is over, so nothing reaches the client any more. */
    mute: bool,
    out: seq<bytes>)

  const START := State(map[], map[], map[], 0, {}, map[], false, false, [])

  function Get<K, V>(m: map<K, V>, k: K, default: V): V {
    if k in m then m[k] else default
  }

  function CountTx(s: State, handle: nat, n: nat): State {
    s.(tx := s.tx[handle := Get(s.tx, handle, 0) + n])
  }

  // ----- towards the client -----

  function SendEnd(s: State, id: nat): State {
    if s.mute then s
    else s.(out := s.out + [WsFrames.EncodeBinary(Wire(Frame(Downlink.MetaEnd(id), None)))])
  }

  function SendKeep(s: State, id: nat, data: bytes): State {
    if s.mute then s else s.(out := s.out + Downlink.NodeWrites(id, data))
  }

  function SendUdpFrom(s: State, id: nat, port: nat, quad: Option<bytes>, data: bytes): State {
    if s.mute then s
    else s.(out := s.out + [WsFrames.EncodeBinary(Wire(Frame(Downlink.MetaUdpFrom(id, port, quad), Some(data))))])
  }

  // ----- substreams -----

  function OpenTcp(s: State, id: nat, initial: bytes): State {
    s.(entries := s.entries[s.next := TcpEntry(id, false, initial, [], true)],
       tcp := s.tcp[id := s.next], unended := s.unended + {s.next}, next := s.next + 1)
  }

  function OpenUdp(s: State, id: nat, host: string, port: nat): State {
    s.(entries := s.entries[s.next := UdpEntry(id, host, port, [], true)],
       udp := s.udp[id := s.next], unended := s.unended + {s.next}, next := s.next + 1)
  }

  /** What is left of an entry once its socket is destroyed. */
  function Ended(e: Entry): Entry {
    match e
    case TcpEntry(id, connected, _, sent, _) => TcpEntry(id, connected, [], sent, false)
    case UdpEntry(id, host, port, datagrams, _) => UdpEntry(id, host, port, datagrams, false)
  }

  function EndTcp(s: State, id: nat): State {
    if id !in s.tcp || s.tcp[id] !in s.entries then s else
    var h := s.tcp[id];
    s.(tcp := s.tcp - {id}, unended := s.unended - {h}, entries := s.entries[h := Ended(s.entries[h])])
  }

  function EndUdp(s: State, id: nat): State {
    if id !in s.udp || s.udp[id] !in s.entries then s else
    var h := s.udp[id];
    s.(udp := s.udp - {id}, unended := s.unended - {h}, entries := s.entries[h := Ended(s.entries[h])])
  }

  /** Tear down whatever an id names, in either table. */
  function EndStream(s: State, id: nat): State {
    EndUdp(EndTcp(s, id), id)
  }

  function SendUdp(s: State, handle: nat, data: bytes): State {
    if handle !in s.entries || !s.entries[handle].UdpEntry? then s else
    var e := s.entries[handle];
    CountTx(s, handle, |data|).(
      entries := s.entries[handle := e.(datagrams := e.datagrams + [Datagram(data, e.host, e.port)])])
  }

  // ----- frames -----

  function OnNew(text: Text, s: State, f: Frame): State
    requires |f.meta| >= 4
  {
    match ReadTarget(text, f.meta)
    case None => s
    case Some(t) =>
      if IsBlocked(text, t.host) then SendEnd(s, f.Id())
      else if t.network == TCP then OpenTcp(s, f.Id(), f.Payload())
      else if t.network == UDP then
        var made := OpenUdp(s, f.Id(), t.host, t.port);
        if f.Payload() == [] then made else SendUdp(made, s.next, f.Payload())
      else s
  }

  /** The datagram peer a Keep frame names, or None when the frame is to be dropped. */
  function Retarget(s: State, id: nat, host: string, port: nat): State {
    if id in s.udp && s.udp[id] in s.entries && s.entries[s.udp[id]].UdpEntry?
    then s.(entries := s.entries[s.udp[id] := s.entries[s.udp[id]].(host := host, port := port)])
    else OpenUdp(s, id, host, port)
  }

  /** Keep data goes to the TCP substream of that id, else to the UDP one, else nowhere. */
  function Deliver(s: State, id: nat, data: bytes): State {
    if data == [] then s
    else if id in s.tcp && s.tcp[id] in s.entries && s.entries[s.tcp[id]].TcpEntry? then
      var h := s.tcp[id];
      var e := s.entries[h];
      CountTx(s, h, |data|).(
        entries := s.entries[h := if e.connected then e.(sent := e.sent + data) else e.(pending := e.pending + data)])
    else if id in s.udp then SendUdp(s, s.udp[id], data)
    else s
  }

  function OnKeep(text: Text, s: State, f: Frame): State
    requires |f.meta| >= 4
  {
    if Retargets(f) then
      match ReadTarget(text, f.meta)
      case None => s
      case Some(t) =>
        if IsBlocked(text, t.host) then SendEnd(s, f.Id())
        else Deliver(Retarget(s, f.Id(), t.host, t.port), f.Id(), f.Payload())
    else Deliver(s, f.Id(), f.Payload())
  }

  function OnFrame(text: Text, s: State, f: Frame): State
    requires |f.meta| >= 4
  {
    if f.Command() == NEW then OnNew(text, s, f)
    else if f.Command() == KEEP then OnKeep(text, s, f)
    else if f.Command() == END then EndStream(s, f.Id())
    else s
  }

  // ----- socket callbacks -----

  /** A TCP socket connects, which happens to a handle at most once: flush what was waiting. */
  function OnConnect(s: State, h: nat): State {
    if h !in s.entries || !s.entries[h].TcpEntry? || s.entries[h].connected then s else
    var e := s.entries[h];
    var flushed := s.(entries := s.entries[h := e.(connected := true, pending := [], sent := e.sent + e.pending)]);
    if e.pending == [] then flushed else CountTx(flushed, h, |e.pending|)
  }

  predicate Listens(s: State, h: nat) {
    h in s.entries && s.entries[h].listening
  }

  function OnTargetData(s: State, h: nat, data: bytes): State {
    if !Listens(s, h) || s.mute || s.closed then s else SendKeep(s, s.entries[h].id, data)
  }

  function OnDatagram(s: State, h: nat, port: nat, quad: Option<bytes>, data: bytes): State {
    if !Listens(s, h) || s.mute || s.closed then s else SendUdpFrom(s, s.entries[h].id, port, quad, data)
  }

  function OnTargetClose(s: State, h: nat): State {
    if !Listens(s, h) || s.mute || s.closed then s
    else EndStream(SendEnd(s, s.entries[h].id), s.entries[h].id)
  }

  function OnTargetError(s: State, h: nat): State {
    if !Listens(s, h) then s else
    var told := if s.mute || s.closed then s else SendEnd(s, s.entries[h].id);
    EndStream(told, s.entries[h].id)
  }

  /** The session ends every substream in both tables. */
  function Close(s: State): State {
    if s.closed then s else
    s.(closed := true, tcp := map[], udp := map[], unended := s.unended - s.tcp.Values - s.udp.Values,
       entries := map h | h in s.entries ::
         if h in s.tcp.Values || h in s.udp.Values then Ended(s.entries[h]) else s.entries[h])
  }

  datatype Event =
    | Arrives(frame: Frame)
    | Connects(handle: nat)
    | Data(handle: nat, data: bytes)
    | Received(handle: nat, port: nat, quad: Option<bytes>, data: bytes)
    | Closes(handle: nat)
    | Fails(handle: nat)
    | Stop

  /** Frames reach a mux session only while it is open: the session drops its relay when it closes it. */
  function Step(text: Text, s: State, e: Event): State {
    match e
    case Arrives(f) => if s.closed || |f.meta| < 4 then s else OnFrame(text, s, f)
    case Connects(h) => OnConnect(s, h)
    case Data(h, data) => OnTargetData(s, h, data)
    case Received(h, port, quad, data) => OnDatagram(s, h, port, quad, data)
    case Closes(h) => OnTargetClose(s, h)
    case Fails(h) => OnTargetError(s, h)
    case Stop => Close(s)
  }

  function Run(text: Text, events: seq<Event>): State
    decreases |events|
  {
    if events == [] then START else Step(text, Run(text, events[..|events| - 1]), events[|events| - 1])
  }
}
