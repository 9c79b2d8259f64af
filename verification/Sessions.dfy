/**
 The client connection as the machine it is (src/node/session.js).  Every method is specified
 on `View`, the state of `Pump`; beside it the machine keeps the books on backpressure, where
 the client socket's own answer to each write is arbitrary.
 */
module Sessions {
  import opened Bytes
  import opened Options
  import opened Queues
  import opened Pump
  import WsFrames
  import HttpHead
  import Vless

  class Session {
    const env: Env
    var phase: Phase
    const inbound: ByteQueue
    const message: ByteQueue
    var relay: Option<Relay>
    var out: seq<bytes>

    /** Sources registered to be resumed when the client drains. */
    var paused: set<nat>
    /** Sources that are in fact paused, as their sockets see it. */
    var stalled: set<nat>
    /** A write was refused and the client socket has not emitted `drain` since. */
    var clientOwes: bool
    /** Reading from the client is paused. */
    var clientPaused: bool

    ghost predicate Valid()
      reads this, inbound, message
    {
      && inbound != message && inbound.Valid() && message.Valid()
      && (phase.Dead? ==> paused == {} && inbound.Contents() == [] && message.Contents() == [])
      && NoLostWakeup()
    }

    /** Whatever is paused will be resumed: the client owes the event that does it. */
    ghost predicate NoLostWakeup()
      reads this
    {
      && (paused != {} ==> clientOwes)
      && (!phase.Dead? ==> stalled == paused)
    }

    ghost function View(): State
      reads this, inbound, message
    {
      State(phase, inbound.Contents(), message.Contents(), relay, out)
    }

    constructor (env: Env)
      ensures Valid() && fresh(inbound) && fresh(message) && View() == START && !clientPaused
      ensures this.env == env
    {
      this.env := env;
      phase, relay, out := Http, None, [];
      paused, stalled, clientOwes, clientPaused := {}, {}, false, false;
      inbound := new ByteQueue();
      message := new ByteQueue();
    }

    // ----- the relay-facing surface -----

    method ClientWrite(data: bytes) returns (ok: bool)
      modifies `out, `clientOwes
      ensures out == old(out) + [data]
      ensures clientOwes == (old(clientOwes) || !ok)
    {
      out := out + [data];
      ok := *;
      clientOwes := clientOwes || !ok;
    }

    method SendWs(opcode: nat, payload: bytes) returns (ok: bool)
      requires Valid()
      modifies `out, `clientOwes
      ensures Valid()
      ensures out == if phase.Dead? then old(out) else old(out) + [WsFrames.Encode(opcode, payload)]
      ensures clientOwes == (old(clientOwes) || !ok) && (!ok ==> !phase.Dead?)
    {
      if phase.Dead? { return true; }
      var frame := WsFrames.EncodeFrame(opcode, payload);
      ok := ClientWrite(frame);
    }

    /** A mux frame to the client; one that overflows a length field cannot be sent at all. */
    method SendMux(meta: bytes, hasData: bool, payload: bytes) returns (ok: bool)
      requires Valid() && WsFrames.FitsMux(meta, if hasData then Some(payload) else None)
      modifies `out, `clientOwes
      ensures Valid()
      ensures out == if phase.Dead? then old(out) else
                old(out) + [WsFrames.EncodeBinary(WsFrames.MuxPayload(meta, if hasData then Some(payload) else None))]
      ensures clientOwes == (old(clientOwes) || !ok) && (!ok ==> !phase.Dead?)
    {
      hide WsFrames.FitsMux, WsFrames.MuxPayload, WsFrames.Encode;
      if phase.Dead? { return true; }
      var frame := WsFrames.EncodeMuxFrame(WsFrames.BINARY, meta, hasData, payload);
      ok := ClientWrite(frame.value);
    }

    /** Pause a source until the client drains; only a refused write is a reason to. */
    method PauseSource(stream: nat)
      requires Valid() && !phase.Dead? && clientOwes
      modifies `paused, `stalled
      ensures Valid() && paused == old(paused) + {stream} && stalled == old(stalled) + {stream}
    {
      stalled := stalled + {stream};
      paused := paused + {stream};
    }

    method PauseClient()
      modifies `clientPaused
      ensures clientPaused
    {
      clientPaused := true;
    }

    method ResumeClient()
      modifies `clientPaused
      ensures clientPaused == (old(clientPaused) && phase.Dead?)
    {
      if !phase.Dead? { clientPaused := false; }
    }

    /** The client socket emits `drain`: afterwards nothing is paused. */
    method OnDrain()
      requires Valid()
      modifies `paused, `stalled, `clientOwes
      ensures Valid() && View() == old(View())
      ensures !phase.Dead? ==> paused == stalled == {}
      ensures !clientOwes
    {
      clientOwes := false;
      if phase.Dead? { return; }
      var todo := paused;
      while todo != {}
        invariant todo <= paused && stalled == todo
        modifies `stalled
      {
        var stream :| stream in todo;
        stalled := stalled - {stream};
        todo := todo - {stream};
      }
      paused := {};
    }

    method Destroy()
      requires Valid()
      modifies this, inbound, message
      ensures Valid() && View() == Pump.Destroy(old(View())) && phase.Dead?
      ensures clientPaused == old(clientPaused)
    {
      if phase.Dead? { return; }
      phase := Dead;
      if relay.Some? { relay := Some(relay.value.(closed := true)); }
      paused := {};
      inbound.Clear();
      message.Clear();
    }

    method ServeDecoy(status: nat)
      requires Valid() && !phase.Dead?
      modifies this, inbound, message
      ensures Valid() && View() == Decoy(env, old(View()), status) && clientPaused == old(clientPaused)
    {
      var _ := ClientWrite(env.decoyResponse(status));
      Destroy();
    }

    // ----- byte pump -----

    /** A chunk arrives; the whole effect is that of `Feed` on the flat state. */
    method OnData(chunk: bytes)
      requires Valid()
      modifies this, inbound, message
      ensures Valid() && View() == Feed(env, old(View()), chunk) && clientPaused == old(clientPaused)
    {
      if phase.Dead? || phase.Page? { return; }
      inbound.Push(chunk);
      if phase.Http? { HandleHttp(); }
      if phase.Ws? { HandleWs(); }
    }

    method HandleHttp()
      requires Valid() && phase.Http?
      modifies this, inbound, message
      ensures Valid() && View() == HttpStep(env, old(View())) && clientPaused == old(clientPaused)
    {
      hide Dispatch;
      var head := inbound.Flatten();
      var eoh := HttpHead.IndexOfHeaderEnd(head, 0);
      if eoh == -1 {
        if inbound.size > env.maxHeaderBytes { Destroy(); }
        return;
      }
      inbound.Consume(eoh + 4);
      assert inbound.Contents() == head[eoh + 4..];
      match env.parseHead(head[..eoh + 4])
      case None => Destroy();
      case Some(req) => Serve(Dispatch(env, req));
    }

    method Serve(route: Route)
      requires Valid() && phase.Http?
      modifies this, inbound, message
      ensures Valid() && clientPaused == old(clientPaused)
      ensures View() == match route
        case ToPage => old(View()).(phase := Page, inbound := [])
        case ToWait => old(View())
        case ToDecoy(status) => Decoy(env, old(View()), status)
        case ToUpgrade(key) => old(View()).(phase := Ws, out := old(View()).out + [env.upgradeResponse(key)])
    {
      match route
      case ToPage =>
        phase := Page;
        inbound.Clear();
      case ToWait =>
      case ToDecoy(status) =>
        ServeDecoy(status);
      case ToUpgrade(key) =>
        var _ := ClientWrite(env.upgradeResponse(key));
        phase := Ws;
    }

    /** The certificate probe is back, and the invite that waited for it is answered. */
    method OnProbe(response: bytes)
      requires Valid()
      modifies this, inbound, message
      ensures Valid() && View() == Settle(old(View()), response) && clientPaused == old(clientPaused)
    {
      if phase.Dead? { return; }
      var _ := ClientWrite(response);
      Destroy();
    }

    method HandleWs()
      requires Valid() && phase.Ws?
      modifies this, inbound, message
      ensures Valid() && View() == WsRun(env, old(View())) && clientPaused == old(clientPaused)
    {
      hide WsRun, StepFrame, WsFrames.Decode;
      while phase.Ws?
        invariant Valid() && WsRun(env, View()) == WsRun(env, old(View())) && clientPaused == old(clientPaused)
        decreases |inbound.Contents()| + if phase.Ws? then 1 else 0
      {
        var buf := inbound.Flatten();
        var cut := WsFrames.DecodeFrame(buf);
        WsRunStep(env, View());
        if cut.Need? { return; }
        inbound.Consume(cut.consumed);
        assert inbound.Contents() == buf[cut.consumed..];
        HandleFrame(cut.item);
      }
      WsRunDone(env, View());
    }

    method HandleFrame(frame: Frame)
      requires Valid() && phase.Ws?
      modifies this, inbound, message
      ensures Valid() && View() == StepFrame(env, old(View()), frame) && clientPaused == old(clientPaused)
      ensures |inbound.Contents()| <= |old(inbound.Contents())|
    {
      if frame.opcode == WsFrames.CLOSE {
        Destroy();
      } else if frame.opcode == WsFrames.PING {
        var _ := SendWs(WsFrames.PONG, frame.payload);
      } else if frame.opcode != WsFrames.CONT && frame.opcode != WsFrames.TEXT && frame.opcode != WsFrames.BINARY {
      } else if frame.opcode == WsFrames.CONT {
        message.Push(frame.payload);
        if frame.fin {
          var whole := message.Flatten();
          message.Clear();
          OnMessage(whole);
        }
      } else if frame.fin {
        OnMessage(frame.payload);
      } else {
        message.Push(frame.payload);
      }
    }

    method OnMessage(payload: bytes)
      requires Valid() && phase.Ws?
      modifies this, inbound, message
      ensures Valid() && View() == Pump.OnMessage(env, old(View()), payload) && clientPaused == old(clientPaused)
    {
      if relay.Some? {
        relay := Some(relay.value.(writes := relay.value.writes + [payload]));
        return;
      }
      message.Push(payload);
      var buf := message.Flatten();
      match Vless.ParseHeader(env.auth, buf)
      case Need =>
      case Fail(_) =>
        message.Clear();
        ServeDecoy(200);
      case Ok(request, headerEnd) =>
        var initial := buf[headerEnd..];
        message.Clear();
        var _ := SendWs(WsFrames.BINARY, OK_HEADER);
        relay := Some(Relay(request, [initial], false));
    }
  }
}
