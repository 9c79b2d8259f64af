/** The plain TCP tunnel: one target socket behind a session (src/node/relay.js). */
module Relays {
  import opened Bytes
  import opened Queues
  import opened Sessions
  import WsFrames

  /** The session knows its only target by this number. */
  const TARGET: nat := 0

  /** What has reached the target socket and what still waits for it to connect. */
  datatype Tcp = Tcp(connected: bool, pending: bytes, sent: bytes)

  datatype Event = Connect | Write(payload: bytes)

  function Step(s: Tcp, e: Event): Tcp {
    match e
    case Connect => Tcp(true, [], s.sent + s.pending)
    case Write(payload) =>
      if s.connected then s.(sent := s.sent + payload) else s.(pending := s.pending + payload)
  }

  function Run(s: Tcp, events: seq<Event>): Tcp
    decreases |events|
  {
    if events == [] then s else Run(Step(s, events[0]), events[1..])
  }

  function Written(events: seq<Event>): bytes
    decreases |events|
  {
    if events == [] then [] else (if events[0].Write? then events[0].payload else []) + Written(events[1..])
  }

  /** At every point of every run, sent and pending bytes are the opening bytes and every write, in order. */
  lemma {:induction false} RunDelivers(s: Tcp, events: seq<Event>)
    requires s.connected ==> s.pending == []
    ensures var t := Run(s, events);
            && t.sent + t.pending == s.sent + s.pending + Written(events)
            && (t.connected ==> t.pending == [])
            && t.connected == (s.connected || Connect in events)
    decreases |events|
  {
    if events == [] {
      assert s.sent + s.pending + Written(events) == s.sent + s.pending;
    } else {
      RunDelivers(Step(s, events[0]), events[1..]);
      assert events[0] == Connect || events[0] in events;
    }
  }

  class TcpRelay {
    const session: Session
    const pendingWrites: ByteQueue
    var connected: bool
    var closed: bool
    /** Every byte written to the target, and the count reported to the statistics. */
    var sent: bytes
    var txBytes: nat
    /** A write was refused and the target has not emitted `drain` since. */
    var targetOwes: bool

    ghost predicate Valid()
      reads this, session, session.inbound, session.message, pendingWrites
    {
      && session.Valid() && pendingWrites.Valid()
      && pendingWrites != session.inbound && pendingWrites != session.message
      && ((connected || closed) ==> pendingWrites.Contents() == [])
      && txBytes == |sent|
      && NoLostWakeup()
    }

    /** Whenever this relay has stopped reading from the client, the target owes the event that restarts it. */
    ghost predicate NoLostWakeup()
      reads this, session
    {
      session.clientPaused && !session.phase.Dead? ==> targetOwes
    }

    ghost function View(): Tcp
      reads this, pendingWrites
    {
      Tcp(connected, pendingWrites.Contents(), sent)
    }

    constructor (session: Session, initial: bytes)
      requires session.Valid() && !session.clientPaused
      ensures Valid() && View() == Tcp(false, initial, []) && this.session == session
      ensures fresh(pendingWrites) && !closed
    {
      this.session := session;
      connected, closed, sent, txBytes, targetOwes := false, false, [], 0, false;
      pendingWrites := new ByteQueue();
      new;
      pendingWrites.Push(initial);
    }

    method TargetWrite(data: bytes) returns (ok: bool)
      modifies `sent, `targetOwes
      ensures sent == old(sent) + data
      ensures targetOwes == (old(targetOwes) || !ok)
    {
      sent := sent + data;
      ok := *;
      targetOwes := targetOwes || !ok;
    }

    /** The socket connects; when it refuses what was waiting, the client is paused. */
    method OnConnect() returns (ghost refused: bool)
      requires Valid()
      modifies this, pendingWrites, session`clientPaused
      ensures Valid() && View() == Step(old(View()), Connect) && closed == old(closed)
      ensures targetOwes == (old(targetOwes) || refused)
      ensures session.clientPaused == (old(session.clientPaused) || refused)
    {
      connected, refused := true, false;
      if pendingWrites.size == 0 {
        assert sent + pendingWrites.Contents() == sent;
        return;
      }
      var buffered := pendingWrites.Flatten();
      txBytes := txBytes + |buffered|;
      var ok := TargetWrite(buffered);
      refused := !ok;
      if !ok { session.PauseClient(); }
      pendingWrites.Clear();
    }

    /** A payload from the client; when the target refuses it, the client is paused. */
    method Write(payload: bytes) returns (ghost refused: bool)
      requires Valid() && !closed
      modifies this, pendingWrites, session`clientPaused
      ensures Valid() && View() == Step(old(View()), Event.Write(payload)) && closed == old(closed)
      ensures targetOwes == (old(targetOwes) || refused)
      ensures session.clientPaused == (old(session.clientPaused) || refused)
    {
      refused := false;
      if |payload| == 0 { return; }
      if !connected {
        pendingWrites.Push(payload);
        return;
      }
      txBytes := txBytes + |payload|;
      var ok := TargetWrite(payload);
      refused := !ok;
      if !ok { session.PauseClient(); }
    }

    /** Bytes from the target go to the client as one frame; a refusal pauses the target. */
    method OnTargetData(chunk: bytes) returns (ghost refused: bool)
      requires Valid()
      modifies session`out, session`clientOwes, session`paused, session`stalled
      ensures Valid() && View() == old(View())
      ensures session.out == if session.phase.Dead? then old(session.out)
                             else old(session.out) + [WsFrames.Encode(WsFrames.BINARY, chunk)]
      ensures session.clientOwes == (old(session.clientOwes) || refused)
      ensures session.stalled == old(session.stalled) + if refused then {TARGET} else {}
    {
      refused := false;
      if session.phase.Dead? { return; }
      var ok := session.SendWs(WsFrames.BINARY, chunk);
      refused := !ok;
      if !ok { session.PauseSource(TARGET); }
    }

    /** The target emits `drain`: unless the session is over, the client is read again. */
    method OnTargetDrain()
      requires Valid()
      modifies `targetOwes, session`clientPaused
      ensures Valid() && View() == old(View()) && !targetOwes
      ensures !session.phase.Dead? ==> !session.clientPaused
    {
      targetOwes := false;
      session.ResumeClient();
    }

    /** The target is gone, so the session is, which in turn closes this relay. */
    method OnTargetClose()
      requires Valid()
      modifies this, pendingWrites, session, session.inbound, session.message
      ensures Valid() && closed && session.phase.Dead?
      ensures sent == old(sent)
    {
      session.Destroy();
      Close();
    }

    method Close()
      requires Valid()
      modifies this, pendingWrites
      ensures Valid() && closed
      ensures sent == old(sent) && (!old(closed) ==> pendingWrites.Contents() == [])
    {
      if closed { return; }
      closed := true;
      pendingWrites.Clear();
    }
  }

  // ----- whole runs -----

  /** What can happen to a tunnel: to its target, to its client, and what the session passes on. */
  datatype Happening =
    | Connects | TargetSends(chunk: bytes) | TargetDrains | TargetCloses
    | ClientSends(chunk: bytes) | ClientDrains | ClientCloses | Passes(payload: bytes)

  /**
   No lost wakeup, in every reachable state: whatever happens, in whatever order and with whatever answers
   from the two sockets, each source that is paused is owed the drain that resumes it, and while nothing is
   owed nothing is paused.
   */
  method Drive(relay: TcpRelay, happenings: seq<Happening>)
    requires relay.Valid()
    modifies relay, relay.pendingWrites, relay.session, relay.session.inbound, relay.session.message
    ensures relay.Valid() && relay.NoLostWakeup() && relay.session.NoLostWakeup()
    ensures !relay.session.phase.Dead? && !relay.session.clientOwes ==> relay.session.stalled == {}
    ensures !relay.session.phase.Dead? && !relay.targetOwes ==> !relay.session.clientPaused
  {
    var session := relay.session;
    for i := 0 to |happenings|
      invariant relay.Valid()
    {
      match happenings[i]
      case Connects => var _ := relay.OnConnect();
      case TargetSends(chunk) => var _ := relay.OnTargetData(chunk);
      case TargetDrains => relay.OnTargetDrain();
      case TargetCloses => relay.OnTargetClose();
      case ClientSends(chunk) => session.OnData(chunk);
      case ClientDrains => session.OnDrain();
      case ClientCloses =>
        session.Destroy();
        relay.Close();
      case Passes(payload) => if !relay.closed { var _ := relay.Write(payload); }
    }
  }
}
