/**
 Datagrams on a stream: a 16-bit length before each (src/node/udp.js, src/worker/dns.mjs,
 src/worker/bytes.mjs).
 */
module Datagrams {
  import opened Bytes
  import opened Options
  import opened Queues
  import Streams

  function Datagram(buf: bytes): Streams.Cut<bytes> {
    if |buf| < 2 || |buf| < 2 + U16(buf[0], buf[1]) then Streams.Need
    else Streams.Got(buf[2..2 + U16(buf[0], buf[1])], 2 + U16(buf[0], buf[1]))
  }

  function LengthPrefixed(payload: bytes): bytes {
    Be16(|payload|) + payload
  }

  method FrameDatagram(payload: bytes) returns (framed: bytes)
    ensures framed == LengthPrefixed(payload)
  {
    var out := new byte[2 + |payload|];
    out[0], out[1] := |payload| / 256 % 256, |payload| % 256;
    Put(out, payload, 2);
    assert out[..2] == Be16(|payload|);
    return out[..];
  }

  lemma DatagramStable()
    ensures Streams.Stable(Datagram)
  {
    forall a, b {:trigger Datagram(a + b)} | Datagram(a).Got?
      ensures Datagram(a + b) == Datagram(a)
    {
      var end := 2 + U16(a[0], a[1]);
      assert (a + b)[2..end] == a[2..end];
    }
  }

  /**
   A framed datagram is its length, high byte first, and the payload; and it reads back exactly when the length
   fits the 16-bit field.
   */
  lemma DatagramRoundTrip(payload: bytes, rest: bytes)
    ensures var b := LengthPrefixed(payload);
            |b| == 2 + |payload| && b[0] as int * 256 + b[1] == |payload| % 65536 && b[2..] == payload
    ensures Datagram(LengthPrefixed(payload) + rest) == Streams.Got(payload, |LengthPrefixed(payload)|)
            <==> |payload| < 65536
  {
    var buf := LengthPrefixed(payload) + rest;
    ReadBe16(|payload|);
    assert buf[0] == Be16(|payload|)[0] && buf[1] == Be16(|payload|)[1];
    assert buf[2..] == payload + rest;
    if |payload| < 65536 {
      assert buf[2..2 + |payload|] == payload;
    }
  }

  /** However framed datagrams are cut into chunks, the reader recovers them all, in order. */
  lemma ChunksCarryDatagrams(datagrams: seq<bytes>, tail: bytes, chunks: seq<bytes>)
    requires forall d <- datagrams :: |d| < 65536
    requires Datagram(tail).Need?
    requires Concat(chunks) == Concat(Streams.Map(LengthPrefixed, datagrams)) + tail
    ensures Streams.Feed(Datagram, [], chunks) == (datagrams, tail)
  {
    DatagramStable();
    Streams.ChunkingIsInvisible(Datagram, [], chunks);
    assert [] + Concat(chunks) == Concat(chunks);
    forall d: bytes, rest {:trigger LengthPrefixed(d) + rest} | d in datagrams
      ensures Datagram(LengthPrefixed(d) + rest) == Streams.Got((x => x)(d), |LengthPrefixed(d)|)
    {
      DatagramRoundTrip(d, rest);
    }
    Streams.WalkInverts(Datagram, LengthPrefixed, (x: bytes) => x, datagrams, tail);
    assert Streams.Map((x: bytes) => x, datagrams) == datagrams;
  }

  /** The step both length-prefixed loops repeat: a whole datagram off the queue, or none yet. */
  method TakeDatagram(queue: ByteQueue) returns (packet: Option<bytes>)
    requires queue.Valid()
    modifies queue
    ensures queue.Valid()
    ensures Datagram(old(queue.Contents())).Need? ==> packet == None && queue.Contents() == old(queue.Contents())
    ensures Datagram(old(queue.Contents())).Got? ==>
              var cut := Datagram(old(queue.Contents()));
              && packet == Some(cut.item) && 0 < cut.consumed <= |old(queue.Contents())|
              && queue.Contents() == old(queue.Contents())[cut.consumed..]
  {
    ghost var buf := queue.Contents();
    if queue.size < 2 { return None; }
    var hi := queue.At(0);
    var lo := queue.At(1);
    var len := U16(hi.value, lo.value);
    assert len == U16(buf[0], buf[1]);
    hide U16;
    if queue.size < 2 + len { return None; }
    var copy := queue.Slice(2, 2 + len);
    assert copy == buf[2..2 + len];
    queue.Consume(2 + len);
    return Some(copy);
  }

  /** The UDP association of the Node build: datagrams in, sends out. */
  class UdpRelay {
    const inbound: ByteQueue
    /** Payloads handed to the socket, and their total as the statistics count it. */
    var sent: seq<bytes>
    var txBytes: nat

    ghost predicate Valid()
      reads this, inbound
    {
      inbound.Valid() && txBytes == |Concat(sent)|
    }

    constructor (initial: bytes)
      ensures Valid() && (sent, inbound.Contents()) == Streams.Walk(Datagram, initial)
    {
      sent, txBytes := [], 0;
      inbound := new ByteQueue();
      new;
      if |initial| > 0 {
        Write(initial);
        assert [] + initial == initial;
        assert [] + Streams.Walk(Datagram, initial).0 == Streams.Walk(Datagram, initial).0;
      }
    }

    method Write(payload: bytes)
      requires Valid()
      modifies this, inbound
      ensures Valid()
      ensures var (more, rest) := Streams.Walk(Datagram, old(inbound.Contents()) + payload);
              sent == old(sent) + more && inbound.Contents() == rest
    {
      if |payload| > 0 { inbound.Push(payload); }
      assert inbound.Contents() == old(inbound.Contents()) + payload;
      ghost var start := inbound.Contents();
      ghost var done: seq<bytes> := [];
      Streams.ProgressStart(Datagram, start);
      hide Streams.Walk, Streams.Progress, Datagram, Concat;
      while true
        invariant Valid() && sent == old(sent) + done
        invariant Streams.Progress(Datagram, start, done, inbound.Contents())
        decreases |inbound.Contents()|
      {
        Streams.ProgressStep(Datagram, start, done, inbound.Contents());
        var next := TakeDatagram(inbound);
        if next.None? { return; }
        done := done + [next.value];
        Send(next.value);
      }
    }

    method Send(packet: bytes)
      requires txBytes == |Concat(sent)|
      modifies `sent, `txBytes
      ensures sent == old(sent) + [packet] && txBytes == |Concat(sent)|
    {
      ConcatSnoc(sent, packet);
      sent, txBytes := sent + [packet], txBytes + |packet|;
    }
  }

  const OK_HEADER: bytes := [0, 0]

  /** The reply side of the Worker's DNS relay: the tunnel's reply header rides on the first answer. */
  class DnsReplies {
    var header: Option<bytes>
    var out: seq<bytes>
    ghost var answers: seq<bytes>

    ghost predicate Valid()
      reads this
    {
      && header == (if answers == [] then Some(OK_HEADER) else None)
      && Concat(out) == (if answers == [] then [] else OK_HEADER) + Concat(Streams.Map(LengthPrefixed, answers))
    }

    constructor ()
      ensures Valid() && answers == []
    {
      header, out, answers := Some(OK_HEADER), [], [];
    }

    method Reply(answer: bytes)
      requires Valid()
      modifies this
      ensures Valid() && answers == old(answers) + [answer] && old(out) < out
    {
      var framed := FrameDatagram(answer);
      var message := if header.Some? then header.value + framed else framed;
      ConcatSnoc(out, message);
      ConcatSnoc(Streams.Map(LengthPrefixed, answers), framed);
      assert Streams.Map(LengthPrefixed, answers + [answer]) == Streams.Map(LengthPrefixed, answers) + [framed];
      out := out + [message];
      header := None;
      answers := answers + [answer];
    }
  }

  /** What the client reads back behind the two header bytes is the answers, in the order they came. */
  lemma RepliesReadBack(answers: seq<bytes>, stream: bytes)
    requires answers != [] && forall a <- answers :: |a| < 65536
    requires stream == OK_HEADER + Concat(Streams.Map(LengthPrefixed, answers))
    ensures Streams.Walk(Datagram, stream[2..]) == (answers, [])
  {
    var body: bytes, none: bytes := stream[2..], [];
    var one: seq<bytes> := [body];
    ConcatOne(body);
    assert body == Concat(Streams.Map(LengthPrefixed, answers)) + none;
    ChunksCarryDatagrams(answers, none, one);
    DatagramStable();
    Streams.ChunkingIsInvisible(Datagram, none, one);
    assert none + Concat(one) == body;
  }
}
