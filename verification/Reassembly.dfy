/**
 What the tunnel delivers.  One byte queue holds fragments of a message, an unfinished VLESS
 header, or both; the theorems here say that none of this can be seen from the relay's side.
 */
module Reassembly {
  import opened Bytes
  import opened Options
  import opened Pump
  import opened Vless
  import WsFrames

  /** The payload a client sent: the data frames end to end. */
  ghost function DataOf(frames: seq<Frame>): bytes
    decreases |frames|
  {
    if frames == [] then [] else Payload(frames[0]) + DataOf(frames[1..])
  }

  ghost function Payload(f: Frame): bytes {
    if IsData(f) then f.payload else []
  }

  /** Whether a fragmented message is still unfinished after this frame. */
  predicate OpenAfter(f: Frame, open: bool) {
    if IsData(f) then !f.fin else open
  }

  predicate OpenAfterAll(frames: seq<Frame>, open: bool)
    decreases |frames|
  {
    if frames == [] then open else OpenAfterAll(frames[1..], OpenAfter(frames[0], open))
  }

  /** RFC 6455 section 5.4: no new message starts while a fragmented one is unfinished. */
  predicate Fragmented(frames: seq<Frame>, open: bool)
    decreases |frames|
  {
    frames != [] ==> Fits(frames[0], open) && Fragmented(frames[1..], OpenAfter(frames[0], open))
  }

  predicate Fits(f: Frame, open: bool) {
    open ==> f.opcode != WsFrames.TEXT && f.opcode != WsFrames.BINARY
  }

  // ----- the end of a connection -----

  /** What is sent before the client closes, if it does. */
  function Heard(frames: seq<Frame>): seq<Frame>
    decreases |frames|
  {
    if frames == [] || frames[0].opcode == WsFrames.CLOSE then [] else [frames[0]] + Heard(frames[1..])
  }

  predicate Closes(frames: seq<Frame>) {
    exists i | 0 <= i < |frames| :: frames[i].opcode == WsFrames.CLOSE
  }

  /** A close frame ends the connection where it stands, and its relay with it; what follows is not looked at. */
  lemma CloseEnds(env: Env, s: State, a: seq<Frame>, close: Frame, b: seq<Frame>)
    requires s.phase.Ws? && close.opcode == WsFrames.CLOSE
    ensures Run(env, s, a + [close] + b) == Destroy(Run(env, s, a))
  {
    RunAppend(env, s, a + [close], b);
    RunAppend(env, s, a, [close]);
    RunPhase(env, s, a);
    var t := Run(env, s, a);
    hide StepFrame;
    assert [close][1..] == [] && Run(env, t, [close]) == StepFrame(env, t, close);
    CloseStep(env, t, close);
    RunStopped(env, Destroy(t), b);
  }

  lemma CloseStep(env: Env, s: State, close: Frame)
    requires (s.phase.Ws? || s.phase.Dead?) && close.opcode == WsFrames.CLOSE
    ensures StepFrame(env, s, close) == Destroy(s) && Destroy(s).phase.Dead?
  {
    hide OnMessage;
  }

  lemma {:induction false} HeardFirst(frames: seq<Frame>)
    ensures Heard(frames) <= frames && !Closes(Heard(frames))
    ensures Closes(frames) <==> |Heard(frames)| < |frames|
    ensures Closes(frames) ==> frames[|Heard(frames)|].opcode == WsFrames.CLOSE
    decreases |frames|
  {
    if frames != [] && frames[0].opcode != WsFrames.CLOSE {
      HeardFirst(frames[1..]);
      var heard := Heard(frames[1..]);
      assert forall i | 0 <= i < |heard| :: ([frames[0]] + heard)[i + 1] == heard[i];
      assert forall i | 0 < i < |frames| :: frames[i] == frames[1..][i - 1];
    }
  }

  /** So a connection is what was heard made of it, closed if the client closed it. */
  lemma RunIsHeard(env: Env, s: State, frames: seq<Frame>)
    requires s.phase.Ws?
    ensures var t := Run(env, s, Heard(frames)); Run(env, s, frames) == if Closes(frames) then Destroy(t) else t
  {
    HeardFirst(frames);
    var n := |Heard(frames)|;
    if Closes(frames) {
      assert frames == Heard(frames) + [frames[n]] + frames[n + 1..];
      CloseEnds(env, s, Heard(frames), frames[n], frames[n + 1..]);
    } else {
      assert Heard(frames) == frames;
    }
  }

  // ----- the account of the payload -----

  /**
   The session accounts for exactly the payload `data` sent so far: it is waiting with all of it,
   or the relay named by the header in `data` has been given the rest, up to a pending fragment,
   or the header in `data` is one to be refused.
   */
  ghost predicate Accounts(env: Env, s: State, data: bytes, open: bool) {
    var verdict := ParseHeader(env.auth, data);
    match s.phase
    case Http => false
    case Page => false
    case Dead => verdict.Fail? && s.relay.None?
    case Ws =>
      match s.relay
      case None => s.message == data && (!open ==> verdict.Need?)
      case Some(r) =>
        && verdict.Ok? && verdict.request == r.request
        && data[verdict.headerEnd..] == Concat(r.writes) + s.message
        && (!open ==> s.message == [])
  }

  /** Before the header is known, a completed message is parsed with everything that came before it. */
  lemma HeaderMessageAccounts(env: Env, s: State, message: bytes)
    requires s.phase.Ws? && s.relay.None?
    ensures Accounts(env, OnMessage(env, s, message), s.message + message, false)
  {
    var data := s.message + message;
    if ParseHeader(env.auth, data).Ok? {
      ConcatOne(data[ParseHeader(env.auth, data).headerEnd..]);
    }
  }

  /** Afterwards the pending fragments and the last one reach the relay as one message. */
  lemma RelayMessageAccounts(env: Env, s: State, data: bytes, payload: bytes, open: bool)
    requires s.phase.Ws? && s.relay.Some? && Accounts(env, s, data, open)
    ensures Accounts(env, OnMessage(env, s.(message := []), s.message + payload), data + payload, false)
  {
    hide ParseHeader;
    ParseStable(env.auth, data, payload);
    ConcatSnoc(s.relay.value.writes, s.message + payload);
    var end := ParseHeader(env.auth, data).headerEnd;
    assert (data + payload)[end..] == data[end..] + payload;
  }

  lemma FragmentAccounts(env: Env, s: State, data: bytes, payload: bytes, open: bool)
    requires s.phase.Ws? && Accounts(env, s, data, open)
    ensures Accounts(env, s.(message := s.message + payload), data + payload, true)
  {
    if s.relay.Some? {
      ParseStable(env.auth, data, payload);
      var end := ParseHeader(env.auth, data).headerEnd;
      assert (data + payload)[end..] == data[end..] + payload;
    }
  }

  /** Everything but a whole message over pending fragments of another, once the relay runs. */
  predicate KeepsOrder(s: State, f: Frame) {
    s.relay.Some? && f.fin && (f.opcode == WsFrames.TEXT || f.opcode == WsFrames.BINARY) ==> s.message == []
  }

  predicate OrderKept(env: Env, s: State, frames: seq<Frame>)
    decreases |frames|
  {
    frames != [] ==> KeepsOrder(s, frames[0]) && OrderKept(env, StepFrame(env, s, frames[0]), frames[1..])
  }

  lemma StepAccounts(env: Env, s: State, data: bytes, f: Frame, open: bool)
    requires Accounts(env, s, data, open) && f.opcode != WsFrames.CLOSE && (s.phase.Ws? ==> KeepsOrder(s, f))
    ensures Accounts(env, StepFrame(env, s, f), data + Payload(f), OpenAfter(f, open))
  {
    if s.phase.Dead? {
      ParseStable(env.auth, data, Payload(f));
    } else if !IsData(f) {
      assert data + Payload(f) == data;
    } else if !f.fin {
      FragmentAccounts(env, s, data, f.payload, open);
    } else if s.relay.Some? {
      assert f.opcode != WsFrames.CONT ==> s == s.(message := []) && f.payload == s.message + f.payload;
      RelayMessageAccounts(env, s, data, f.payload, open);
    } else {
      var t := if f.opcode == WsFrames.CONT then s.(message := []) else s;
      var m := if f.opcode == WsFrames.CONT then s.message + f.payload else f.payload;
      assert t.message + m == data + f.payload;
      HeaderMessageAccounts(env, t, m);
    }
  }

  /** Every run that keeps the order delivers exactly the payload that was sent, up to the client's close. */
  lemma RunAccounts(env: Env, s: State, data: bytes, frames: seq<Frame>, open: bool)
    requires s.phase.Ws? && Accounts(env, s, data, open) && OrderKept(env, s, Heard(frames))
    ensures var t := Run(env, s, Heard(frames));
            && Accounts(env, t, data + DataOf(Heard(frames)), OpenAfterAll(Heard(frames), open))
            && Run(env, s, frames) == if Closes(frames) then Destroy(t) else t
  {
    HeardFirst(frames);
    HeardAccounts(env, s, data, Heard(frames), open);
    RunIsHeard(env, s, frames);
  }

  lemma Unfold(env: Env, s: State, data: bytes, frames: seq<Frame>, open: bool)
    requires frames != []
    ensures var f, rest := frames[0], frames[1..];
            && Run(env, s, frames) == Run(env, StepFrame(env, s, f), rest)
            && data + DataOf(frames) == data + Payload(f) + DataOf(rest)
            && OpenAfterAll(frames, open) == OpenAfterAll(rest, OpenAfter(f, open))
            && (OrderKept(env, s, frames) <==> KeepsOrder(s, f) && OrderKept(env, StepFrame(env, s, f), rest))
  {
    hide StepFrame, KeepsOrder, Payload, OpenAfter;
    assert DataOf(frames) == Payload(frames[0]) + DataOf(frames[1..]);
  }

  lemma NoClose(frames: seq<Frame>)
    requires frames != [] && !Closes(frames)
    ensures frames[0].opcode != WsFrames.CLOSE && !Closes(frames[1..])
  {
    assert forall i | 0 <= i < |frames| - 1 :: frames[1..][i] == frames[i + 1];
  }

  lemma {:induction false} HeardAccounts(env: Env, s: State, data: bytes, frames: seq<Frame>, open: bool)
    requires Accounts(env, s, data, open) && OrderKept(env, s, frames) && !Closes(frames)
    ensures Accounts(env, Run(env, s, frames), data + DataOf(frames), OpenAfterAll(frames, open))
    decreases |frames|
  {
    if frames == [] {
      assert data + DataOf(frames) == data;
    } else {
      var f, rest := frames[0], frames[1..];
      NoClose(frames);
      Unfold(env, s, data, frames, open);
      hide *;
      StepAccounts(env, s, data, f, open);
      HeardAccounts(env, StepFrame(env, s, f), data + Payload(f), rest, OpenAfter(f, open));
    }
  }

  /** Nothing is reordered on a connection that was refused. */
  lemma {:induction false} LegalWhenDead(env: Env, s: State, frames: seq<Frame>)
    requires s.phase.Dead? && s.relay.None?
    ensures OrderKept(env, s, frames)
    decreases |frames|
  {
    if frames == [] {
    } else {
      LegalWhenDead(env, s, frames[1..]);
    }
  }

  /** A client that fragments as section 5.4 of RFC 6455 says keeps the order. */
  lemma {:induction false} LegalKeepsOrder(env: Env, s: State, data: bytes, frames: seq<Frame>, open: bool)
    requires Accounts(env, s, data, open) && Fragmented(frames, open) && !Closes(frames)
    ensures OrderKept(env, s, frames)
    decreases |frames|
  {
    if frames == [] {
    } else {
      if s.phase.Dead? {
        LegalWhenDead(env, s, frames);
      } else {
        NoClose(frames);
        StepAccounts(env, s, data, frames[0], open);
        hide Accounts, StepFrame, Closes;
        LegalKeepsOrder(env, StepFrame(env, s, frames[0]), data + Payload(frames[0]), frames[1..],
            OpenAfter(frames[0], open));
      }
    }
  }

  /** A freshly upgraded connection has sent nothing. */
  lemma UpgradedAccounts(env: Env, s: State)
    requires s.phase.Ws? && s.message == [] && s.relay.None?
    ensures Accounts(env, s, [], false)
  {
  }

  // ----- what the client is sent -----

  /**
   What the client gets for these frames, when `data` is the payload before them and `waiting` says whether no
   request has been accepted yet: a pong with the same payload for every ping, two zero bytes in a message of
   their own when the header is accepted, and the decoy when it is refused, which is the end.
   */
  ghost function Returns(env: Env, data: bytes, waiting: bool, frames: seq<Frame>): seq<bytes>
    decreases |frames|
  {
    if frames == [] then [] else
    var f, rest := frames[0], frames[1..];
    if f.opcode == 9 then [WsFrames.Encode(10, f.payload)] + Returns(env, data, waiting, rest)
    else if f.opcode != 0 && f.opcode != 1 && f.opcode != 2 then Returns(env, data, waiting, rest)
    else if !waiting || !f.fin then Returns(env, data + f.payload, waiting, rest)
    else match ParseHeader(env.auth, data + f.payload)
      case Need => Returns(env, data + f.payload, true, rest)
      case Ok(_, _) => [WsFrames.Encode(2, [0, 0])] + Returns(env, data + f.payload, false, rest)
      case Fail(_) => [env.decoyResponse(200)]
  }

  lemma StepReturns(env: Env, s: State, data: bytes, f: Frame, rest: seq<Frame>, open: bool)
    requires s.phase.Ws? && Accounts(env, s, data, open) && f.opcode != WsFrames.CLOSE
    ensures var t := StepFrame(env, s, f);
            && (t.phase.Ws? || t.phase.Dead?)
            && (t.phase.Ws? ==>
                  s.out + Returns(env, data, s.relay.None?, [f] + rest)
                  == t.out + Returns(env, data + Payload(f), t.relay.None?, rest))
            && (t.phase.Dead? ==> s.out + Returns(env, data, s.relay.None?, [f] + rest) == t.out)
  {
    hide ParseHeader, WsFrames.Encode;
    assert ([f] + rest)[1..] == rest && ([f] + rest)[0] == f;
    assert data + [] == data;
    var t := StepFrame(env, s, f);
    var more := Returns(env, data + Payload(f), t.relay.None?, rest);
    assert forall x :: s.out + ([x] + more) == s.out + [x] + more;
    if IsData(f) && f.fin && s.relay.None? {
      assert [] + (s.message + f.payload) == s.message + f.payload == data + f.payload;
    }
  }

  /** Everything the client is sent, told from its frames. */
  lemma {:induction false} ClientIsSent(env: Env, s: State, data: bytes, frames: seq<Frame>, open: bool)
    requires s.phase.Ws? && Accounts(env, s, data, open) && OrderKept(env, s, frames) && !Closes(frames)
    ensures Run(env, s, frames).out == s.out + Returns(env, data, s.relay.None?, frames)
    decreases |frames|
  {
    if frames == [] {
      assert s.out + [] == s.out;
    } else {
      var f, rest := frames[0], frames[1..];
      NoClose(frames);
      Unfold(env, s, data, frames, open);
      assert frames == [f] + rest;
      hide *;
      StepAccounts(env, s, data, f, open);
      StepReturns(env, s, data, f, rest, open);
      if StepFrame(env, s, f).phase.Ws? {
        ClientIsSent(env, StepFrame(env, s, f), data + Payload(f), rest, OpenAfter(f, open));
      } else {
        RunStopped(env, StepFrame(env, s, f), rest);
      }
    }
  }

  /** All that a relay has been given. */
  ghost function Delivered(s: State): Option<(Request, bytes)> {
    if s.relay.None? then None else Some((s.relay.value.request, Concat(s.relay.value.writes)))
  }

  /**
   How a payload was cut into frames and messages cannot be seen: after any two legal segmentations
   of the same bytes the relay has the same request and has been delivered the same bytes, and the
   connection has decided as the header parser decides on the whole payload; whether it is still open is
   for the client's close frame and that decision to say.
   */
  lemma SegmentationIsInvisible(env: Env, s: State, a: seq<Frame>, b: seq<Frame>)
    requires s.phase.Ws? && s.message == [] && s.relay.None?
    requires Fragmented(Heard(a), false) && !OpenAfterAll(Heard(a), false)
    requires Fragmented(Heard(b), false) && !OpenAfterAll(Heard(b), false)
    requires DataOf(Heard(a)) == DataOf(Heard(b))
    ensures var (x, y, verdict) := (Run(env, s, a), Run(env, s, b), ParseHeader(env.auth, DataOf(Heard(a))));
            && Delivered(x) == Delivered(y) && (Delivered(x).Some? <==> verdict.Ok?)
            && (x.phase.Ws? || x.phase.Dead?) && (x.phase.Dead? <==> verdict.Fail? || Closes(a))
            && (x.phase.Ws? && y.phase.Ws? ==> x.message == y.message)
  {
    WholeAccounts(env, s, a);
    WholeAccounts(env, s, b);
  }

  /** A whole number of messages leaves nothing pending: the relay has what is behind the header. */
  lemma WholeAccounts(env: Env, s: State, frames: seq<Frame>)
    requires s.phase.Ws? && s.message == [] && s.relay.None?
    requires Fragmented(Heard(frames), false) && !OpenAfterAll(Heard(frames), false)
    ensures Answers(env, Run(env, s, frames), DataOf(Heard(frames)), Closes(frames))
  {
    var heard := Heard(frames);
    HeardFirst(frames);
    UpgradedAccounts(env, s);
    LegalKeepsOrder(env, s, [], heard, false);
    RunAccounts(env, s, [], frames, false);
    assert [] + DataOf(heard) == DataOf(heard);
    var t := Run(env, s, heard);
    hide Run, DataOf, ParseHeader, Fragmented, OpenAfterAll, Heard, Closes, OrderKept;
    if t.phase.Ws? && t.relay.Some? {
      assert Concat(t.relay.value.writes) + t.message == Concat(t.relay.value.writes);
    }
  }

  /**
   What the tunnel makes of a payload, as one look at the whole of it says, and what is left when the client
   closes.
   */
  ghost predicate Answers(env: Env, t: State, data: bytes, closed: bool) {
    match ParseHeader(env.auth, data)
    case Fail(_) => t.phase.Dead? && t.relay.None?
    case Need => t.relay.None? && if closed then t.phase.Dead? else t.phase.Ws? && t.message == data
    case Ok(request, headerEnd) =>
      && t.relay.Some? && t.message == [] && (if closed then t.phase.Dead? else t.phase.Ws?)
      && t.relay.value.request == request && Concat(t.relay.value.writes) == data[headerEnd..]
      && (closed ==> t.relay.value.closed)
  }

  /** The payload of one data frame has joined what the relay got and what is pending, at the end. */
  ghost predicate InOrder(s: State, t: State, payload: bytes) {
    && s.relay.Some? && t.relay.Some?
    && Concat(t.relay.value.writes) + t.message == Concat(s.relay.value.writes) + s.message + payload
  }

  /**
   Outside the rule the order is lost: on a running tunnel a data frame keeps the order for every
   payload exactly when it is not a whole message sent while fragments of another are pending.
   */
  lemma InterruptionReorders(env: Env, s: State, fin: bool, opcode: nat)
    requires s.phase.Ws? && s.relay.Some? && opcode in {WsFrames.CONT, WsFrames.TEXT, WsFrames.BINARY}
    ensures (forall payload :: InOrder(s, StepFrame(env, s, WsFrames.Frame(fin, opcode, payload)), payload))
            <==> !(fin && opcode != WsFrames.CONT && s.message != [])
  {
    var writes := s.relay.value.writes;
    if fin && opcode != WsFrames.CONT && s.message != [] {
      var payload: bytes := [if s.message[0] == 0 then 1 else 0];
      ConcatSnoc(writes, payload);
      var t := StepFrame(env, s, WsFrames.Frame(fin, opcode, payload));
      var at := |Concat(writes)|;
      assert (Concat(t.relay.value.writes) + t.message)[at] != (Concat(writes) + s.message + payload)[at];
      assert !InOrder(s, t, payload);
    } else {
      forall payload
        ensures InOrder(s, StepFrame(env, s, WsFrames.Frame(fin, opcode, payload)), payload)
      {
        ConcatSnoc(writes, s.message + payload);
        ConcatSnoc(writes, payload);
      }
    }
  }
}
