# The tunnel, verified

A Dafny model of a VLESS-over-WebSocket tunnel and of the small stateful services beside it, with proofs
of what the program is for: everything a client sends is cut again by TCP, by WebSocket fragmentation and
by mux frames, and what comes out at the other end does not depend on any of it.

`dafny verify dfyconfig.toml` checks the whole project.

The stack, from the socket up:

- `Queues.dfy` the chunked queue every parser reads from, specified on the flat bytes it stands for.
- `Streams.dfy` incremental parsing in general: a cut that never changes when more bytes follow makes the
  result independent of the chunking. Every reader below is an instance.
- `HttpHead.dfy`, `WsFrames.dfy`, `Vless.dfy`, `Datagrams.dfy`, `MuxWire.dfy` the parsers, each against a
  grammar of its own: the parser reads every sentence of the grammar and accepts nothing else, and it is
  said exactly when it asks for more. Two parsers have exceptions, stated with them: the frame decoder misreads
  lengths from 2^32 on, and the VLESS parser refuses a header it need not see the end of.
- `Pump.dfy`, `Reassembly.dfy`, `Sessions.dfy` one client connection: as a function of the bytes it sent, as
  an account of the payload, and as the object with its queues and its backpressure.
- `Relays.dfy`, `Datagrams.dfy`, `MuxStreams.dfy`, `MuxBooks.dfy`, `MuxUplink.dfy`, `MuxLives.dfy`,
  `MuxPeers.dfy`, `MuxTalks.dfy`, `MuxReplies.dfy`, `MuxSessions.dfy`, `MuxDrives.dfy`, `Downlink.dfy`,
  `WorkerMux.dfy` the relays and both builds of the mux.
- `EndToEnd.dfy` the stack put together.

The services: `RateLimit.dfy`, `Invites.dfy`, `DnsCache.dfy`, `DnsWire.dfy`, `Breaker.dfy`, `Uuids.dfy`,
`Registries.dfy`, `StatsBook.dfy`; and the two builders of one client configuration: `Jsons.dfy`,
`Templates.dfy`, `ClientConfig.dfy`.

Code that changes state in place is a class or a loop, proved equal to a function of its old state; what
the source promises is proved of runs of those functions. Callbacks, sockets and timers are events and logs.
HMAC, text decoding, lower-casing, the resolver and the clock are parameters. Characters of strings stand for
UTF-16 units, lengths are unbounded, bytes are masked with the exclusive or of bit vectors (`Bits.dfy`), and other
bit operations are arithmetic on bytes.

## What the proofs found

Where a promise does not hold of the code, the code is modelled as it is and the exact condition is proved.

- A request head longer than the limit is served when it arrives in one piece and dropped when it is split
  (`src/node/session.js:236-243`): `Pump.SplitHeadIsDropped`, `Pump.WholeHeadIsServed`.
- While an invite waits for its certificate probe the connection still reads heads, so that a second head is acted
  on if it comes in a later chunk and stays queued if it came along (`src/node/session.js:265-271`,
  `src/node/session.js:593-595`): `Pump.SecondHeadIsSeen`. But for these two chunking is invisible:
  `Pump.ChunkingIsInvisible`.
- A whole message sent while a fragmented one is pending overtakes it (`src/node/session.js:715-727`), which
  section 5.4 of RFC 6455 forbids a client to do: `Reassembly.InterruptionReorders`.
- The upper half of a 64-bit length is neither written nor read (`src/node/wsframe.js:49`,
  `src/node/wsframe.js:98`), so that a frame of 2^32 bytes or more does not read back, and is taken for a shorter
  one: `WsFrames.EncodeRoundTrip`, `WsFrames.RightIffSmall`, `WsFrames.OversizedIsMisread`.
- The Node mux parser stops at a malformed length or an unreadable address and looks again only at the next
  write (`src/node/mux.js:112-118`, `src/node/mux.js:139-142`): `MuxWire.NodeChunking`, `MuxWire.UnsettledMoves`,
  `MuxWire.ZerosDoNotSettle`.
- A New frame that reuses a live id leaks the statistics record of the old substream
  (`src/node/mux.js:247-252`): `MuxBooks.BooksBalance`, `MuxBooks.TwoNewsLeak`.
- Keep data that arrives before a target has connected is counted twice (`src/node/mux.js:235`,
  `src/node/mux.js:267`): `MuxUplink.UplinkIsFaithful`, `MuxUplink.CountIsExact`,
  `MuxUplink.EarlyKeepCountsTwice`.
- The resolver's breaker opens once in a streak of failures, so an outage costs more than the one timeout that the
  repository's `README.md:105` and the comment at `src/node/doh.js:183` speak of: `Breaker.OpensOncePerStreak`,
  `Breaker.FailureHoldsItOpen`, `Breaker.OutageCostsMore`.
- The label check of a DNS query counts characters, so that a query can hold a label of more than 63 bytes
  (`src/node/doh.js:32`): `DnsWire.AccentsAreTooLong`, `DnsWire.QueryIsWellFormed`. It still reads back:
  `DnsWire.QueryReadsBack`.
- Fronting without a pin and with an empty CA, or a UDP policy that is none of the three, makes the two
  configuration builders differ: `ClientConfig.RenderMatchesBuild`.

## Model

| member | source | states |
|---|---|---|
| Bytes.ReadBe16 | src/node/mux.js:108 | A 16-bit field holds the number modulo 65536, high byte first, and reads back as that |
| Bytes.ReadBe32 | src/node/wsframe.js:93-102 | A 32-bit field holds the number modulo 2^32, high byte first, and reads back as that |
| Queues.ByteQueue.Push | src/vless.js:185-197 | A pushed chunk joins the contents at the end, and an empty one changes nothing |
| Queues.ByteQueue.At | src/vless.js:199-207 | The byte at an absolute index of the contents, wherever chunk boundaries fall, and nothing beyond them |
| Queues.ByteQueue.Slice | src/vless.js:210-233 | The clamped range of the contents, assembled across chunks, which stay as they are |
| Queues.ByteQueue.Flatten | src/vless.js:236-247 | The whole contents in one piece, memoized without changing them |
| Queues.ByteQueue.Consume | src/vless.js:249-262 | The contents without their first n bytes, and empty when n is as large as they are |
| Queues.ByteQueue.Clear | src/vless.js:264-267 | The contents become empty |
| Streams.WalkAppend | src/node/session.js:689-698 | Walking a + b is walking a and then what was left of a followed by b, for every stable parser |
| Streams.ChunkingIsInvisible | src/node/session.js:210-222 | However a stream is cut into chunks, a stable reader sees the units of the flat stream and keeps the same rest |
| Streams.WalkInverts | src/node/session.js:689-698 | If units read back in front of anything, walking a concatenation of them recovers the list |
| HttpHead.IndexOfHeaderEnd | src/node/http.js:71-80 | The first CR LF CR LF at or after `from`, or -1 exactly when there is none |
| HttpHead.HeadEndStable | src/node/http.js:71-80 | A head end that has been found stays where it is under every extension |
| HttpHead.HeadEndOfPrefix | src/node/http.js:71-80 | A prefix has no head end exactly when it stops short of the terminator of the whole |
| Names.QuadSpells | src/vless.js:112 | The text of four bytes is four decimal numbers without leading zeros, the first byte first, with dots between them |
| Names.GroupsSpell | src/vless.js:121-127 | The text of 16 bytes is eight numbers in base 16 without leading zeros, each of two bytes and the high one first, with colons between them |
| Names.BlockedIff | src/vless.js:19-27 | A host is blocked exactly when, in lower case, it is a blocked domain or ends in a dot and one |
| WsFrames.MaskTwice | src/node/wsframe.js:62-69 | Masking with the same key twice is the identity, by the arithmetic of exclusive or |
| WsFrames.DecodedBytes | src/node/wsframe.js:57-74 | Byte i of a masked payload is the exclusive or of byte i on the wire and byte i mod 4 of the key, and an unmasked payload is what stands on the wire |
| WsFrames.KeyByteReaches | src/node/wsframe.js:67-69 | A byte of the key acts on the positions of its residue modulo 4 and on no others |
| WsFrames.HelloIsRead | src/node/wsframe.js:28-75 | The masked frame of section 5.7 of RFC 6455 decodes to the text "Hello" |
| WsFrames.DecodeFrame | src/node/wsframe.js:28-75 | The decoder meets its flat specification: one frame, with its length and consumed bytes, or need |
| WsFrames.Unmask | src/node/wsframe.js:62-69 | The unmasking loop gives every byte xored with its key byte, in a fresh copy |
| WsFrames.DecodeReadsWire | src/node/wsframe.js:28-75 | Every frame of the grammar of RFC 6455 section 5.2, masked or not, in any of the three length forms, is read back in front of anything exactly when its payload is below 2^32 bytes |
| WsFrames.DecodedIsWire | src/node/wsframe.js:28-75 | What is decoded is a frame of the grammar, and the bytes consumed are exactly that frame, if and only if the upper half of a 64-bit length is zero |
| WsFrames.NeedMeansIncomplete | src/node/wsframe.js:28-58 | Need is never answered on a whole frame, and is answered on anything less unless the upper half of a 64-bit length is not zero |
| WsFrames.RightIffSmall | src/node/wsframe.js:44-60 | Behind a whole header every answer of the decoder is right, whatever comes next, exactly when the upper half of the length is zero |
| WsFrames.OversizedIsMisread | src/node/wsframe.js:44-51 | Ten bytes that announce 2^32 are decoded as an empty frame |
| WsFrames.DecodeStable | src/node/wsframe.js:28-75 | A decoded frame and its length never change when more bytes follow |
| WsFrames.WriteHeader | src/node/wsframe.js:85-104 | The header is written at the front of the buffer, FIN set, unmasked, in the shortest length form, and the rest is untouched |
| WsFrames.EncodeFrame | src/node/wsframe.js:107-113 | The frame is its header and its payload |
| WsFrames.EncodeIsWire | src/node/wsframe.js:107-113 | Every payload below 2^32 bytes becomes a frame of the grammar |
| WsFrames.EncodeRoundTrip | src/node/wsframe.js:28-113 | Decoding inverts encoding in front of anything exactly for payloads below 2^32 bytes, across every header boundary |
| WsFrames.WalkRecoversFrames | src/node/session.js:689-698 | Walking a concatenation of frames of less than 2^32 bytes from clients and servers recovers the list |
| WsFrames.WalkRecoversPayloads | src/node/wsframe.js:107-113 | Walking what the server wrote finds one binary frame for each payload, in order |
| WsFrames.EncodeMuxFrame | src/node/wsframe.js:120-147 | The mux frame inside a WebSocket frame in one buffer, and the error exactly when a length field would overflow |
| Vless.ParseReadsHeader | src/vless.js:81-138 | Every whole header of the grammar gets the verdict its fields call for, whatever follows it, and never need |
| Vless.RequestNamesTarget | src/vless.js:81-138 | An accepted request has the command, port and user of its header, and a host that spells the four bytes or the eight groups of its address, or is its name decoded |
| Vless.ParseStable | src/vless.js:81-138 | A verdict on a prefix, acceptance or refusal, is the verdict on every extension with the same header end |
| Vless.AcceptedIsHeader | src/vless.js:81-138 | Nothing is accepted but a whole header of the grammar, whose length is headerEnd |
| Vless.AcceptedVerdict | src/vless.js:81-138 | An accepted request has the command, address, port and user its header says |
| Vless.NeedMeansIncomplete | src/vless.js:81-138 | More bytes are asked for exactly while the fixed 18 bytes are not there, or while what there is, from a known user, is short of a whole header and could still become one |
| Pump.WsAppend | src/node/session.js:689-731 | Frames that arrive together or one run after another lead to the same state |
| Pump.ChunksJoin | src/node/session.js:210-288 | Where the head fits and no invite waits in front of more, feeding chunks is feeding their concatenation |
| Pump.ChunkingIsInvisible | src/node/session.js:210-288 | Every split of a client stream reaches the same state, relay target and payloads, exactly when the head fits the buffer limit and, if it asks for an invite that waits for its probe, nothing behind it would be acted on |
| Pump.WholeHeadIsServed | src/node/session.js:232-251 | A readable head that arrives in one piece is answered whatever its length |
| Pump.DispatchIs | src/node/session.js:245-283 | What becomes of a request, told from its method, path and headers |
| Pump.TunnelOpensIff | src/node/session.js:236-288 | A whole head opens a tunnel exactly when it is a GET that asks for a WebSocket, names no admin page, has the tunnel path in its path and has a key; without the key it gets status 400, a page or an invite is served as such, and every other head gets the decoy with status 200 and the end |
| Pump.SplitHeadIsDropped | src/node/session.js:236-243 | A head longer than the limit is served whole and dropped when it is split |
| Pump.SecondHeadIsSeen | src/node/session.js:265-271 | A head behind an invite that waits stays queued if it came in the same chunk and is acted on if it came later |
| Reassembly.RunAccounts | src/node/session.js:689-777 | Unless a whole message overtakes pending fragments once the relay runs, the relay has the concatenated payload from headerEnd on up to a pending fragment, or the header is still awaited with all of it, or refused; and a close frame destroys the session in that state |
| Reassembly.LegalKeepsOrder | src/node/session.js:715-727 | Fragmenting as section 5.4 of RFC 6455 says keeps the order |
| Reassembly.CloseEnds | src/node/session.js:700-702 | A close frame ends the connection where it stands, closes its relay, and nothing behind it is looked at |
| Reassembly.RunIsHeard | src/node/session.js:700-702 | A run is the run up to the first close frame, destroyed if there is one |
| Reassembly.WholeAccounts | src/node/session.js:689-777 | After a whole number of messages, closed or not, the relay has the request of the header and exactly the rest of the payload |
| Reassembly.ClientIsSent | src/node/session.js:689-776 | What the client is sent, told from its frames: a pong with the same payload for every ping, two zero bytes when the header is accepted, the decoy when it is refused, and nothing else |
| Reassembly.SegmentationIsInvisible | src/node/session.js:689-777 | Two legal segmentations of one payload end with the same request, the same bytes delivered and the same decision, whether or not the client closes |
| Reassembly.InterruptionReorders | src/node/session.js:715-727 | A data frame keeps the order for every payload exactly when it is not a whole message in the middle of a fragmented one |
| Sessions.Session.OnData | src/node/session.js:210-222 | A chunk moves the session as the flat function of its bytes does |
| Sessions.Session.HandleHttp | src/node/session.js:232-251 | One look at the buffered head has the effect of the flat step |
| Sessions.Session.Serve | src/node/session.js:253-288 | Page, waiting invite, decoy, bad request or upgrade, as routed |
| Sessions.Session.OnProbe | src/node/session.js:593-595 | When the probe is back the invite is answered and the connection destroyed, whatever it has become |
| Sessions.Session.HandleWs | src/node/session.js:689-731 | The frame loop ends with every whole frame handled and the rest queued |
| Sessions.Session.HandleFrame | src/node/session.js:700-729 | One frame: close, ping, ignored, fragment or message |
| Sessions.Session.OnMessage | src/node/session.js:733-776 | A message is more header, or payload for the relay; a verdict starts the relay or serves the decoy |
| Sessions.Session.SendWs | src/node/session.js:147-150 | One encoded frame goes out unless the session is dead, and a refused write leaves the client owing a drain |
| Sessions.Session.SendMux | src/node/session.js:152-155 | The same for a mux frame |
| Sessions.Session.PauseSource | src/node/session.js:157-161 | A source is paused only while the client owes the drain that resumes it |
| Sessions.Session.OnDrain | src/node/session.js:171-177 | After the client drains nothing is left paused |
| Sessions.Session.Destroy | src/node/session.js:179-206 | Dead for good, with nothing queued, nothing pending and nothing paused; the second call changes nothing |
| Relays.RunDelivers | src/node/relay.js:19-60 | At every point of every run, sent then pending bytes are the opening bytes and every write, in order, and nothing is pending once connected |
| Relays.TcpRelay.OnConnect | src/node/relay.js:30-37 | Connecting flushes what is pending in one write, and exactly a refusal pauses the client, while the target owes a drain |
| Relays.TcpRelay.Write | src/node/relay.js:52-60 | A write reaches the socket or the pending bytes, in order, and exactly a refusal pauses the client |
| Relays.TcpRelay.OnTargetData | src/node/relay.js:39-45 | Bytes from the target become one frame, and exactly a refusal pauses the target, while the client owes a drain |
| Relays.TcpRelay.OnTargetDrain | src/node/relay.js:47 | The target's drain resumes the client unless the session is over |
| Relays.TcpRelay.OnTargetClose | src/node/relay.js:48 | The end of the target is the end of the session and of the relay |
| Relays.TcpRelay.Close | src/node/relay.js:62-72 | A closed relay sends nothing more and holds nothing |
| Relays.Drive | src/node/relay.js:30-60 | No lost wakeup: in every reachable state of a session and its relay whatever is paused is owed the drain that resumes it, and while nothing is owed nothing is paused |
| Datagrams.FrameDatagram | src/worker/bytes.mjs:15-21 | The payload behind its 16-bit length |
| Datagrams.DatagramRoundTrip | src/worker/bytes.mjs:15-21 | A framed datagram is its length, high byte first, and the payload, and reads back exactly when it is shorter than 65536 bytes |
| Datagrams.ChunksCarryDatagrams | src/node/udp.js:38-53 | However framed datagrams are cut into chunks, the loop recovers all of them in order and keeps an incomplete tail |
| Datagrams.TakeDatagram | src/worker/dns.mjs:84-91 | A whole datagram off the queue, or none and the queue unchanged |
| Datagrams.UdpRelay.Write | src/node/udp.js:38-53 | A write sends exactly the whole datagrams of the queue and the payload, in order |
| Datagrams.DnsReplies.Reply | src/worker/dns.mjs:74-82 | An answer goes out framed, the first one behind the reply header |
| Datagrams.RepliesReadBack | src/worker/dns.mjs:74-82 | Behind the two header bytes the client reads the answers, in order |
| MuxWire.WireIs | src/node/wsframe.js:120-147 | A frame on the wire is the length of its meta, high byte first, the meta, and the same of its data if it has any |
| MuxWire.LookReadsWire | src/node/mux.js:102-130 | The frame parser inverts the frame encoder in front of anything |
| MuxWire.LookedIsWire | src/node/mux.js:102-130 | A frame that was cut off is well formed and its encoding is what was consumed |
| MuxWire.CutFrameStable | src/worker/mux.mjs:95-138 | A frame once cut never changes when more bytes follow |
| MuxWire.DrainStep | src/node/mux.js:105-149 | One look moves a pass by a frame or ends it as the specification says |
| MuxWire.NodeChunking | src/node/mux.js:102-150 | In the Node build frames and rest are the same for every chunking exactly when at most the last frame of the stream cannot be acted on and what is behind the frames waits, alone or behind the byte a bad length loses |
| MuxWire.SettlesIffQuiet | src/node/mux.js:102-150 | That condition on the frames says exactly that one pass leaves nothing to act on |
| MuxWire.UnsettledMoves | src/node/mux.js:112-118 | If the frames of a stream do not settle, a second look at what one pass left behind moves on |
| MuxWire.ZerosDoNotSettle | src/node/mux.js:110-118 | Six zero bytes do not settle: each look loses one of them |
| MuxWire.NodeFollowsWalk | src/node/mux.js:102-150 | The Node build dispatches a prefix of the frames in the stream, and all of them when it is well formed |
| MuxWire.WellFormedSettles | src/node/mux.js:102-150 | A well-formed stream settles |
| MuxWire.NodeRecoversFrames | src/node/mux.js:102-150 | Frames a client encodes come out as they went in, for any chunking |
| MuxWire.WalkReadsFrames | src/worker/mux.mjs:95-138 | Walking a concatenation of encoded frames recovers the list |
| MuxWire.TargetReads | src/node/mux.js:157-173 | Every meta of the grammar of id, command, option, network, port and address is read as its network, port and host, whatever follows it |
| MuxWire.TargetIff | src/vless.js:144-170 | A target is read exactly when such a meta is there: neither short, nor with an empty name or an unknown address type |
| Downlink.PiecesCover | src/node/mux.js:334-341 | The pieces of any data are of 1 to 65535 bytes and join to the data |
| Downlink.KeepFramesAreValid | src/node/mux.js:50-52 | The Keep frames are well-formed frames of that id |
| Downlink.FramesReadBack | src/node/mux.js:334-341 | A client reading the payloads end to end finds those Keep frames |
| Downlink.NodeDownlink | src/node/mux.js:334-341 | Decoding the WebSocket frames and then the mux frames gives Keep frames of that id, none empty and none too long, whose data is the input |
| Downlink.NeverTooLong | src/node/wsframe.js:120-130 | Nothing the mux session sends overflows a length field |
| Downlink.UdpFromReads | src/node/mux.js:63-75 | A datagram reply from a dotted quad reads back as a Keep frame of that id that names that port and quad |
| Downlink.MetaOfReply | src/node/mux.js:49-57 | The meta of Keep and End frames, byte for byte |
| WorkerMux.WorkerChunking | src/worker/mux.mjs:95-138 | The Worker sees the same frames, closes or not, and keeps the same bytes for every chunking of every stream, malformed ones included |
| WorkerMux.BuildsAgree | src/worker/mux.mjs:95-138 | On a well-formed stream both builds dispatch the same frames |
| WorkerMux.Reader.Receive | src/worker/mux.mjs:95-138 | A message is pushed and every whole frame dispatched; a bad length closes the session |
| WorkerMux.Reader.SendFrame | src/worker/mux.mjs:51-64 | One message holding the encoded frame, and none once closed |
| WorkerMux.Reader.SendKeep | src/worker/mux.mjs:66-74 | The Worker's splitter sends the same Keep frames as the Node build |
| WorkerMux.TakeFrame | src/node/mux.js:105-130 | The step both parsers repeat: a whole frame off the queue, or the reason there is none |
| MuxBooks.StepKeeps | src/node/mux.js:139-148 | Every event keeps the tables consistent, and leaks a record only by reusing an id |
| MuxBooks.BooksBalance | src/node/mux.js:247-380 | In every reachable state the un-ended records are those of live substreams exactly when no New frame reused a live id; connected entries have nothing pending; a closed session has no substream |
| MuxBooks.TwoNewsLeak | src/node/mux.js:247-252 | The same New frame twice leaves a record that no substream has |
| MuxBooks.RecordsFollowSockets | src/node/mux.js:247-371 | In every reachable state a record is un-ended exactly while its socket listens, leaked or not, and every id fits its field |
| MuxBooks.CloseLeavesNone | src/node/mux.js:373-380 | Closing ends every substream and every record that had not leaked before |
| MuxBooks.ShrunkToNothing | src/node/mux.js:373-380 | Ending every id of both tables one by one is closing |
| MuxUplink.StepSocket | src/node/mux.js:175-296 | Every event does one deed to each handle and nothing else |
| MuxUplink.DeedsFit | src/node/mux.js:247-296 | Only a fresh handle is opened, and only a listening socket is given data |
| MuxUplink.UplinkIsFaithful | src/node/mux.js:205-296 | Bytes written to a handle then bytes pending are what its table entries routed to it, in order; nothing pends once connected; the count exceeds the bytes by the early Keep data |
| MuxUplink.CountIsExact | src/node/mux.js:235-267 | A substream's count is the bytes written exactly when no Keep data came before the connection |
| MuxUplink.EarlyKeepCountsTwice | src/node/mux.js:235-267 | A New frame with a byte, a Keep frame with another, then the connection: two bytes are written and three are counted |
| MuxLives.StepFollows | src/node/mux.js:175-380 | Every event leaves ids with their handles and changes the TCP table only as New, End, a socket or the end of the session say |
| MuxLives.RouteStays | src/node/mux.js:348-380 | Without reuse of ids the table goes on naming a handle until something ends its id |
| MuxLives.SubstreamIsFaithful | src/node/mux.js:205-296 | With fresh ids a substream listens and has an un-ended record exactly until its id is ended, as told from the events; until then bytes written then bytes pending are its New data and the Keep data of its id, in order, and what was written before it ended is the front of that |
| MuxPeers.TalkIsFaithful | src/node/mux.js:208-245 | In every run, ids reused or not, a datagram substream has sent the payloads that its table routed to it, in order, each to the peer that New or Keep named last |
| MuxTalks.TablesAreTold | src/node/mux.js:158-371 | Which ids are in use, for TCP and for UDP, can be told from the events: something opened the id and nothing has ended it since |
| MuxTalks.TalkIsTold | src/node/mux.js:190-245 | With fresh ids a datagram substream listens and has an un-ended record exactly until its id is ended, and it has sent the payload of the frame that opened it and of the Keep frames of its id while it lived, in order, each to the peer named last, and as many bytes are counted; all told from the events |
| MuxReplies.StepOut | src/node/mux.js:172-345 | Every event sends the client exactly the frames it calls for: Keep frames for data, an End frame for a refused host or a lost target, and nothing else |
| MuxReplies.DownlinkIsFaithful | src/node/mux.js:272-345 | For every run, a client that decodes all it was sent finds exactly the frames of the events in order, and on each id exactly the data that its listening sockets delivered, in order, however substreams interleave |
| MuxSessions.MuxSession.Write | src/node/mux.js:96-99 | A payload joins the queue and one pass dispatches exactly the frames the pure parser finds |
| MuxSessions.MuxSession.Drain | src/node/mux.js:102-150 | The loop over the chunked queue dispatches the frames of the flat specification and leaves its rest |
| MuxSessions.MuxSession.OneFrame | src/node/mux.js:105-149 | One look takes a whole frame off the queue and handles it, loses a byte to a bad length, or waits |
| MuxSessions.MuxSession.HandleFrame | src/node/mux.js:139-148 | A frame does its command's step, and parsing goes on as the specification says |
| MuxSessions.MuxSession.OnNew | src/node/mux.js:175-203 | New opens a TCP or UDP substream, ends a blocked one, or stops at an unreadable address |
| MuxSessions.MuxSession.OnKeep | src/node/mux.js:205-245 | Keep delivers to the substream of its id |
| MuxSessions.MuxSession.OnXudpKeep | src/node/mux.js:208-228 | Keep with a peer redirects or opens the datagram substream first |
| MuxSessions.MuxSession.OpenTcp | src/node/mux.js:247-252 | A fresh entry with New's data pending and an un-ended record |
| MuxSessions.MuxSession.OpenUdp | src/node/mux.js:298-306 | A fresh datagram entry with an un-ended record |
| MuxSessions.MuxSession.SendKeep | src/node/mux.js:334-341 | Data of any length goes out as the specified Keep frames, and false means the client owes a drain |
| MuxSessions.MuxSession.SendEnd | src/node/mux.js:343-345 | One End frame for the id |
| MuxSessions.MuxSession.SendUdp | src/node/mux.js:323-327 | One datagram to the current peer, counted |
| MuxSessions.MuxSession.EndStream | src/node/mux.js:348-371 | Whatever the id names in either table is torn down and its record ended |
| MuxSessions.MuxSession.Close | src/node/mux.js:373-380 | Every substream is ended, the queue is empty, and the second call changes nothing |
| MuxSessions.MuxSession.OnConnect | src/node/mux.js:263-270 | Connecting flushes what is pending |
| MuxSessions.MuxSession.OnTargetData | src/node/mux.js:272-278 | Target bytes become Keep frames, and exactly a refusal pauses that target |
| MuxSessions.MuxSession.OnDatagram | src/node/mux.js:308-312 | A datagram reply becomes one Keep frame with the peer's address |
| MuxSessions.MuxSession.OnTargetClose | src/node/mux.js:280-284 | An End frame, then the substream is gone |
| MuxSessions.MuxSession.OnTargetError | src/node/mux.js:286-293 | An End frame unless the session is over, then the substream is gone; a late error changes nothing |
| MuxDrives.FoldIsRun | src/node/mux.js:102-150 | Dispatching the frames of a pass is the run of their events |
| MuxDrives.PlotIsFed | src/node/mux.js:88-150 | While nothing has ended, the frames among the events of a run are those the parser finds in the payloads passed on |
| MuxDrives.Drive | src/node/mux.js:88-380 | Whatever happens to a mux session, in whatever order and with whatever answers from the client socket, it is in the state of the run of its events, and while the client owes nothing none of its sources is paused |
| EndToEnd.ChunksRunFrames | src/node/session.js:210-222 | Any chunking of a head and what is behind it runs exactly the whole frames there are and keeps the rest queued |
| EndToEnd.TunnelIsTransparent | src/node/session.js:210-777 | For every upgrade, every stream behind it, whole or cut off inside a frame, and every TCP cut, if the order is kept the session accounts for exactly the payload of the whole frames up to the close, keeps the rest queued, and has sent the client what those frames call for |
| EndToEnd.LegalFramesArrive | src/node/session.js:210-777 | For every upgrade, every legal frame sequence below 2^32 bytes a frame, closed or not, and every TCP cut, the session accounts for the payload sent before the close, and after whole messages the relay is the one its header names and has exactly the rest |
| EndToEnd.TcpCarriesPayload | src/node/relay.js:19-60 | The TCP relay sends the payload, wherever the connection comes in between |
| EndToEnd.UdpCarriesDatagrams | src/node/udp.js:38-53 | The UDP relay sends the datagrams in the payload |
| EndToEnd.MuxCarriesFrames | src/node/mux.js:96-150 | On a well-formed payload the mux relay dispatches the frames in it |
| EndToEnd.MuxFramesArrive | src/node/session.js:210-777 | A mux client's frames, behind a VLESS header and cut into WebSocket frames and TCP chunks in any legal way, are dispatched one by one in order |
| RateLimit.RateLimiter.MayProceed | src/node/ratelimit.js:26-44 | The call refills, sweeps, creates and spends as specified, with the reason for a refusal, and the map keeps its bound |
| RateLimit.RateLimiter.Spend | src/node/ratelimit.js:35-43 | The bucket is refilled up to the capacity and a whole token is taken or none |
| RateLimit.RateLimiter.SweepFull | src/node/ratelimit.js:17-24 | Exactly the refilled buckets go |
| RateLimit.StaysSmall | src/node/ratelimit.js:29-32 | One call does not make the map outgrow maxKeys |
| RateLimit.RunStaysSmall | src/node/ratelimit.js:29-34 | The map never outgrows maxKeys, in any run, on any clock |
| RateLimit.SweepIsInvisible | src/node/ratelimit.js:17-43 | Every call not refused for a full map is answered as the key's own bucket, never swept, would answer from that key's calls alone |
| RateLimit.WindowSpends | src/node/ratelimit.js:13-44 | In any window, calls allowed plus tokens left are at most capacity plus refill |
| RateLimit.RateIsLimited | src/node/ratelimit.js:13-44 | In any window of any run the calls allowed for a key are at most the capacity and a thousandth of the rate for every millisecond of it, across sweeps |
| RateLimit.RefusedIff | src/node/ratelimit.js:26-44 | The converse: a call that finds room in the map is refused exactly when allowing it would put more calls of its key than capacity plus refill into some window that ends with it |
| RateLimit.FullIff | src/node/ratelimit.js:29-34 | A call is turned away for a full map exactly when its key is new to a map of maxKeys keys, none of them refilled |
| Invites.LastDot | src/node/tokens.js:69 | The last dot, or -1 exactly when there is none |
| Invites.MintedVerifies | src/node/tokens.js:110-144 | A minted token is "1", expiry, label and nonce with dots between them and the MAC of that behind another; it verifies as these until its time to live is over, to the second, and as stale from then on; one over 200 characters or with an unsafe expiry is forged |
| Invites.MintedFits | src/node/session.js:479-483 | With a label of at most 32 characters and a nonce of eight, as the server mints them, a token has at most 200 characters |
| Invites.VerifiedWasSigned | src/node/tokens.js:126-144 | Nothing verifies but a body of the format followed by its own MAC |
| Invites.BurnStore.TryClaim | src/node/tokens.js:172-181 | The first claim starts the grace window, later ones succeed only inside it, and a full store refuses |
| Invites.BurnStore.SweepExpired | src/node/tokens.js:158-162 | Exactly the expired nonces go |
| Invites.RunRemembers | src/node/tokens.js:155-187 | A redeemed nonce is remembered with its first use, or can never verify again |
| Invites.RedeemedInGrace | src/node/tokens.js:172-181 | A redemption is the first of its nonce or less than the grace period later |
| Invites.RedeemedWithinGrace | src/node/session.js:533-571 | All redemptions of a nonce lie within the grace window of its first, although sweeps forget nonces |
| Invites.RedeemedIff | src/node/session.js:533-571 | Exactly the attempts with a good token for someone who may redeem succeed that are the first of their nonce, when the store is not full of unexpired ones, or come within the grace period of the first |
| Invites.StoreStaysSmall | src/node/tokens.js:172-181 | The store never outgrows its bound |
| DnsCache.Cache.OnResolve | src/node/dnscache.js:54-69 | Empty host, literal, hit, joined queue or new lookup |
| DnsCache.Cache.OnAnswer | src/node/dnscache.js:71-84 | An answer is cached if it has an address and flushes everyone waiting, in order |
| DnsCache.Cache.Flush | src/node/dnscache.js:77-83 | Every queued callback is called once, in order |
| DnsCache.Cache.OnSweep | src/node/dnscache.js:39-44 | Exactly the expired entries go |
| DnsCache.EachCallerOnce | src/node/dnscache.js:54-84 | The callbacks told, then those waiting, are the callers of a host in the order they asked, each once |
| DnsCache.CallersAreTold | src/node/dnscache.js:54-84 | What each callback of a host has been told, from the events alone and in order: the error for an empty host, a literal itself, the latest successful answer within its TTL, or the answer or failure of the lookup it waited for; who still waits; and that one lookup is in flight if someone does |
| DnsCache.LiteralIff | src/node/dnscache.js:14-58 | A literal is four runs of digits with dots between them, or anything with a colon |
| DnsCache.HitsAreFresh | src/node/dnscache.js:60-62 | A caller is answered from the cache exactly while the latest successful answer is within its TTL, with that answer |
| DnsCache.SweepIsInvisible | src/node/dnscache.js:39-44 | Callbacks, queues and lookups are those of a run without sweeps |
| DnsWire.SkipNameAt | src/node/doh.js:55-64 | The loop ends where the specification says, or fails, on any bytes |
| DnsWire.SkipNameStops | src/node/doh.js:55-64 | A plain or compressed name is skipped exactly to its end |
| DnsWire.Decode | src/node/doh.js:70-97 | The decoder meets its specification on arbitrary bytes, in bounds and terminating |
| DnsWire.SkipQuestionsAt | src/node/doh.js:79-80 | The question loop |
| DnsWire.ReadRecordsAt | src/node/doh.js:82-96 | The record loop collects the A records of the specification in order |
| DnsWire.QuestionsAreSkipped | src/node/doh.js:79-80 | Well-formed questions are skipped exactly |
| DnsWire.RecordsAreRead | src/node/doh.js:82-96 | Well-formed records give exactly their A addresses, in order |
| DnsWire.AnswersAreRead | src/node/doh.js:70-97 | Every well-formed message, with compressed names and records of any type, gives the texts of the four bytes of its A records, in order, each as four numbers with dots between them; one with an error code gives that code |
| DnsWire.EncodeQuery | src/node/doh.js:29-52 | The query, or the error exactly when a label is over 63 characters |
| DnsWire.WriteName | src/node/doh.js:42-47 | The labels are written behind their lengths and closed with the root, the rest untouched |
| DnsWire.QueryReadsBack | src/node/doh.js:29-64 | Skipping a query's name lands on the type and class that end it, and its labels are the host's |
| DnsWire.LabelsAreParts | src/node/doh.js:30 | The labels of a name are what stands between its dots |
| DnsWire.QueryIsWellFormed | src/node/doh.js:30-33 | A query that can be built has id 0, recursion desired and one question as the format spells it, of type A and class IN; and it can be built with a valid question exactly when no label takes more than 63 bytes |
| DnsWire.AccentsAreTooLong | src/node/doh.js:30-33 | A label of 32 accented letters passes the check and makes a question the format does not allow |
| Breaker.Resolver.Resolve4 | src/node/doh.js:182-193 | Fallback while open or when the name cannot be encoded, else one request |
| Breaker.Resolver.OnReply | src/node/doh.js:195-210 | A usable answer ends the streak, everything else is a failure and falls back |
| Breaker.Resolver.NoteFailure | src/node/doh.js:171-179 | The breaker opens when the count equals the threshold, and only then |
| Breaker.FailuresAreTheStreak | src/node/doh.js:163-179 | The count is the number of failed replies since the last success, whatever was asked or refused in between |
| Breaker.OpenAfterATrip | src/node/doh.js:171-184 | The breaker is open exactly within the cool-off of some reply that brought a streak to the threshold |
| Breaker.OpensOncePerStreak | src/node/doh.js:171-184 | In a streak beyond the threshold it is open exactly within one cool-off of the reply that reached it |
| Breaker.FailureHoldsItOpen | src/node/doh.js:173-184 | A failure from the threshold on keeps it open for a cool-off exactly when it comes no later than the one that reached it |
| Breaker.OutageCostsMore | src/node/doh.js:173-184 | Four timeouts with the default settings leave it closed when the cool-off is over |
| Breaker.StaysClosed | src/node/doh.js:173-184 | After the cool-off, without a success, it never opens again |
| Breaker.LogIsTold | src/node/doh.js:182-209 | What each event has the resolver do, in order and from the events alone: a lookup is asked, or handed on while the breaker is tripped or the name cannot be encoded; a reply with addresses answers with all of them, any other hands on |
| Breaker.EachLookupEndsOnce | src/node/doh.js:182-210 | Every lookup asked is out, or answered once, or handed to the fallback once |
| Uuids.WriteUuid | src/node/users.js:40-44 | The text is the 32 padded digits in groups of 8, 4, 4, 4 and 12 |
| Uuids.HexAt | src/node/users.js:41-42 | Byte i of a UUID stands at digits 2i and 2i + 1, the high half first |
| Uuids.UuidIs | src/node/users.js:40-44 | The text of 16 bytes is their 32 digits in groups of 8, 4, 4, 4 and 12 with dashes between them |
| Uuids.ReadUuid | src/vless.js:30-36 | The parser meets its specification, refusals included |
| Uuids.ReadHex | src/vless.js:33-35 | The loop reads each pair of digits as one byte |
| Uuids.ParsesIff | src/vless.js:30-36 | A text names 16 bytes exactly when its digits, dashes and surrounding space aside and in lower case, are what the bytes print as |
| Uuids.UuidRoundTrip | src/node/users.js:40-44 | Reading inverts printing for every 16 bytes |
| Registries.Registry.Add | src/node/users.js:123-129 | The index holds every credential added so far, by bucket and in order |
| Registries.Registry.AddLabel | src/node/users.js:142-149 | A label is added under every secret, and only the first becomes current |
| Registries.DerivedFrom | src/node/users.js:53-59 | A derived credential is the first 16 bytes of the MAC of tag and label under the secret, with the version and variant bits set, and its text names them |
| Registries.UsableAppend | src/node/users.js:141 | Which secrets are usable is decided one by one, and they keep their order |
| Registries.UsableOne | src/node/users.js:141 | A secret is usable when it is not empty |
| Registries.OwnerIsFirst | src/node/users.js:131-139 | The credential of the operator stands in front of the derived ones |
| Registries.ProvisionedAt | src/node/users.js:142-149 | Derived credentials stand label by label, each under one secret after the other |
| Registries.CreateUserRegistry | src/node/users.js:119-149 | The registry holds the owner, then label by label and secret by secret, with the current secret of each label to hand out; a malformed UUID is an error |
| Registries.Registry.Lookup | src/node/users.js:163-171 | The first-added credential equal to the 16 bytes, or none, whatever shares its bucket |
| Registries.Registry.Mintable | src/node/users.js:181-184 | For a listed label other than the owner, and with a secret, the credential under the current secret; in every other case none |
| Registries.Matches | src/node/users.js:102-108 | True exactly when the 16 bytes are there and equal |
| Registries.OneBucketDecides | src/node/users.js:97-100 | The first match within a bucket is the first match of all |
| Registries.FirstMatchIsFirst | src/node/users.js:163-171 | None exactly when no credential has these bytes, else the one with the least index |
| Registries.AcceptedIffProvisioned | src/node/users.js:131-149 | A credential is accepted exactly when it is the owner's or derives from a listed label under some non-empty secret |
| Registries.MintableIffListed | src/node/users.js:141-149 | A label other than the owner's is mintable exactly when it is listed and there is a secret, with the current secret's credential |
| Registries.MintedOpens | src/node/users.js:53-59 | The credential an invite hands out is accepted, and its text reads back as its bytes |
| Registries.TunnelsAreProvisioned | src/vless.js:81-138 | No header is accepted without an added credential, and the tunnel is billed to the first with those bytes |
| StatsBook.Stats.OnOpen | src/node/stats.js:66-88 | Opening a connection, with a row for its label unless there are too many |
| StatsBook.Stats.OnClose | src/node/stats.js:95-108 | Closing once, with the history cut to the last hundred |
| StatsBook.Stats.OnStart | src/node/stats.js:114-132 | A stream begins on the totals, its connection and its row |
| StatsBook.Stats.OnEnd | src/node/stats.js:135-142 | A stream ends once |
| StatsBook.Stats.AddBytes | src/node/stats.js:144-162 | Bytes join the record, the connection, the totals and the row |
| StatsBook.Stats.Snapshot | src/node/stats.js:180-204 | The uptime, the totals, the open connections in order of opening, the latest closures newest first, and the heaviest users |
| StatsBook.Stats.HeaviestUsers | src/node/stats.js:199-202 | The fifty users with the most traffic, or all when they are fewer, heaviest first, each once and with its row, the empty label shown as the owner |
| StatsBook.StepCounts | src/node/stats.js:66-142 | Every call keeps every gauge equal to what it counts |
| StatsBook.RunIsCounted | src/node/stats.js:66-142 | After any calls, activeConnections is the size of the open set and activeStreams, tcpStreams and udpStreams count the un-ended records |
| StatsBook.RecordsAreTold | src/node/stats.js:66-160 | After any calls each record of a connection and of a stream, and the totals that only grow, are what the calls say |
| StatsBook.DescribedIs | src/node/stats.js:168-177 | Each row on the dashboard, field by field |
| StatsBook.GuardIsIdle | src/node/stats.js:103-104 | The guard against a negative row is never needed |
| StatsBook.RowsAreSums | src/node/stats.js:33-42 | A user's row is the sum of that user's connections: how many, how many open, streams and bytes |
| StatsBook.BytesAreKept | src/node/stats.js:144-162 | The byte totals are the bytes of all connections and of the calls that named none |
| StatsBook.RowsAddUp | src/node/stats.js:144-162 | The rows count all connections exactly when every connection has a row, and then they add up to the totals: bytes both ways, connections and open connections |
| StatsBook.RoomForAll | src/node/stats.js:36-37 | Every connection has a row while at most 129 labels are configured or seen |
| StatsBook.RunClosures | src/node/stats.js:95-108 | The history is the last hundred closures in order, and a connection is open until its first |
| StatsBook.ShownHistory | src/node/stats.js:187-189 | The dashboard shows the latest closures, newest first, up to twenty |
| StatsBook.ClosedOnce | src/node/stats.js:95-97 | Each connection is closed at most once, however often its teardown runs |
| StatsBook.RunIsInRange | src/node/stats.js:180-189 | After any calls a snapshot finds every connection it names |
| Jsons.SetReads | tools/render-configs.mjs:168-175 | A property that is set reads back and the others stay |
| Templates.PiecesAreFilled | tools/render-configs.mjs:120-132 | A string of literals and bound placeholders becomes the literals with the values in place, whatever the values hold |
| Templates.ListBecomes | tools/render-configs.mjs:98-106 | A list's placeholder alone in an array becomes its lines |
| Templates.ObjectBecomes | tools/render-configs.mjs:113-117 | Objects keep their keys and their order |
| Templates.ArrayBecomes | tools/render-configs.mjs:98-111 | Arrays keep their length and order where nothing is spliced |
| Templates.PlainBecomes | tools/render-configs.mjs:97-135 | What has no placeholder is left as it is |
| ClientConfig.TemplateIsFilled | templates/android-socks.json:1-91 | Every placeholder of the Android template is filled with its value, nothing else changes and no error is reported |
| ClientConfig.RulesAreTrimmed | tools/render-configs.mjs:140-149 | Trimming rewrites the rules and nothing else |
| ClientConfig.TlsIsEdited | tools/render-configs.mjs:151-175 | Dropping and fronting rewrite the TLS settings of the first outbound and nothing else |
| ClientConfig.TrimmedIffKnown | tools/render-configs.mjs:140-149 | The trimmed template rules are the builder's exactly for the three policies |
| ClientConfig.EditedTls | tools/render-configs.mjs:151-175 | The TLS settings after the edit, field by field |
| ClientConfig.RenderMatchesBuild | tools/render-configs.mjs:317-340 | Rendering the Android template always succeeds and equals the direct builder (src/node/clientconf.js:56-128) on port 443 exactly for the three policies and for fronting with a name and a pin or a CA |
| ClientConfig.TrimmedRoutesAlike | src/node/clientconf.js:61-69 | Leaving out the UDP/443 rule changes no route, and all traffic goes where the policy promises |
| ClientConfig.RenderedRoutesAsPromised | tools/render-configs.mjs:140-149 | So do the rules of the rendered template |

## Left out

- Request head parsing (`parseRequestHead`), cookies, pages, admin, invite and event-stream routes.
- Sessions.Session.HandleHttp: a request for a page is one phase in which nothing more is read, because what the pages hold is not modelled; which invites wait is a parameter.
- Sessions.Session.Serve: the same phase stands for every page.
- HMAC, base64, constant-time comparison, TextDecoder, toLowerCase, Number: parameters with the few assumptions stated as `Sound`.
- Sockets, timers, TLS, HTTPS and `dgram`: their events are methods, their writes are logs; a socket's answer to a write is any boolean.
- Sharing of buffers: chunks, payloads and slices are values, so the model does not capture that a view could be overwritten later.
- Pending bytes of a relay or mux entry are one byte string instead of a second queue of chunks.
- Connection and stream records are held by number instead of by reference; a number never given out stands for a missing record.
- Statistics inside the mux model are the un-ended records and the bytes sent per record; the full counters are in `StatsBook.dfy`.
- StatsBook.Stats.HeaviestUsers: users with the same traffic may come in any order, where the code keeps the order of the map.
- WsFrames.DecodeReadsWire: the grammar leaves reserved bits, unknown opcodes and lengths spelled longer than needed alone, as the decoder does.
- Sessions.Session.SendMux: does not model a client socket that is destroyed while its session is alive.
- The Worker's relays, retries, caching and substreams: only its frame layer, its splitter and its reply framing are modelled.
- `dnscache.clear()` and the fallback from the cache to the system's own lookup.
- Parsing the list of users and the label rules.
- `validateConfig`, reading of templates and certificates, and the Linux template.
- In-place edits of the configuration are functions on values; no other reference to the object is modelled.
- DnsCache.CallersAreTold: assumes the resolver answers each lookup at most once, which is its contract.
- DnsCache.EachCallerOnce: makes the same assumption.
- Breaker.EachLookupEndsOnce: assumes each request calls back at most once, which the transport sees to.
