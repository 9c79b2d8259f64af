/** DNS queries and answers on the wire (src/node/doh.js), against the message format of RFC 1035 section 4.1. */
module DnsWire {
  import opened Bytes
  import opened Options
  import opened Names

  datatype Error = ShortMessage | Rcode(code: nat) | TruncatedName | TruncatedRecord | TruncatedRdata

  datatype Answer = Bad(error: Error) | Good(addresses: seq<string>)

  // ----- reading -----

  /** Where a name that starts at `o` ends; a compression pointer is the last thing in a name. */
  function SkipName(b: bytes, o: nat): Option<nat>
    decreases |b| - o
  {
    if o >= |b| then None
    else if b[o] == 0 then Some(o + 1)
    else if b[o] >= 192 then Some(o + 2)
    else SkipName(b, o + b[o] as int + 1)
  }

  method SkipNameAt(b: bytes, start: nat) returns (end: Option<nat>)
    ensures end == SkipName(b, start)
  {
    var o := start;
    while true
      invariant SkipName(b, start) == SkipName(b, o)
      decreases |b| - o
    {
      if o >= |b| { return None; }
      var len: int := b[o];
      if len == 0 { return Some(o + 1); }
      if len / 64 == 3 { return Some(o + 2); }
      o := o + len + 1;
    }
  }

  function SkipQuestions(b: bytes, o: nat, count: nat): Option<nat>
    decreases count
  {
    if count == 0 then Some(o) else
    match SkipName(b, o)
    case None => None
    case Some(end) => SkipQuestions(b, end + 4, count - 1)
  }

  function ReadRecords(b: bytes, o: nat, count: nat): Answer
    decreases count
  {
    if count == 0 then Good([]) else
    match SkipName(b, o)
    case None => Bad(TruncatedName)
    case Some(at) =>
      if at + 10 > |b| then Bad(TruncatedRecord) else
      var rdlen := U16(b[at + 8], b[at + 9]);
      var data := at + 10;
      if data + rdlen > |b| then Bad(TruncatedRdata) else
      match ReadRecords(b, data + rdlen, count - 1)
      case Bad(e) => Bad(e)
      case Good(more) =>
        Good(Found(U16(b[at], b[at + 1]), b[data..data + rdlen]) + more)
  }

  function DecodeAnswer(b: bytes): Answer {
    if |b| < 12 then Bad(ShortMessage)
    else if b[3] % 16 != 0 then Bad(Rcode(b[3] % 16))
    else match SkipQuestions(b, 12, U16(b[4], b[5]))
      case None => Bad(TruncatedName)
      case Some(o) => ReadRecords(b, o, U16(b[6], b[7]))
  }

  /** Terminates on any bytes at all and never reads outside them. */
  method Decode(b: bytes) returns (r: Answer)
    ensures r == DecodeAnswer(b)
  {
    hide SkipQuestions, ReadRecords;
    if |b| < 12 { return Bad(ShortMessage); }
    var rcode := b[3] % 16;
    if rcode != 0 { return Bad(Rcode(rcode)); }
    var qdcount, ancount := U16(b[4], b[5]), U16(b[6], b[7]);
    var o := SkipQuestionsAt(b, 12, qdcount);
    if o.None? { return Bad(TruncatedName); }
    r := ReadRecordsAt(b, o.value, ancount);
  }

  method SkipQuestionsAt(b: bytes, start: nat, count: nat) returns (end: Option<nat>)
    ensures end == SkipQuestions(b, start, count)
  {
    hide SkipName;
    var o := start;
    for i := 0 to count
      invariant SkipQuestions(b, start, count) == SkipQuestions(b, o, count - i)
    {
      var name := SkipNameAt(b, o);
      if name.None? { return None; }
      o := name.value + 4;
    }
    return Some(o);
  }

  method ReadRecordsAt(b: bytes, start: nat, count: nat) returns (r: Answer)
    ensures r == ReadRecords(b, start, count)
  {
    hide SkipName, U16, DottedQuad, ReadRecords;
    var o: nat := start;
    var addresses: seq<string> := [];
    for i := 0 to count
      invariant ReadRecords(b, start, count) == Prepend(addresses, ReadRecords(b, o, count - i))
    {
      FirstRecord(b, o, count - i);
      var at := SkipNameAt(b, o);
      if at.None? { return Bad(TruncatedName); }
      o := at.value;
      if o + 10 > |b| { return Bad(TruncatedRecord); }
      var rtype: nat, rdlen: nat := U16(b[o], b[o + 1]), U16(b[o + 8], b[o + 9]);
      o := o + 10;
      if o + rdlen > |b| { return Bad(TruncatedRdata); }
      var found := if rtype == 1 && rdlen == 4 then [DottedQuad(b[o..o + 4])] else [];
      PrependTwice(addresses, found, ReadRecords(b, o + rdlen, count - i - 1));
      addresses := addresses + found;
      o := o + rdlen;
    }
    assert addresses + [] == addresses;
    NoRecords(b, o);
    return Good(addresses);
  }

  lemma NoRecords(b: bytes, o: nat)
    ensures ReadRecords(b, o, 0) == Good([])
  {
  }

  /** What the first record, or the lack of it, means for the rest. */
  lemma FirstRecord(b: bytes, o: nat, count: nat)
    requires count > 0
    ensures match SkipName(b, o)
      case None => ReadRecords(b, o, count) == Bad(TruncatedName)
      case Some(at) =>
        if at + 10 > |b| then ReadRecords(b, o, count) == Bad(TruncatedRecord) else
        var rtype, next := U16(b[at], b[at + 1]), at + 10 + U16(b[at + 8], b[at + 9]);
        if next > |b| then ReadRecords(b, o, count) == Bad(TruncatedRdata)
        else ReadRecords(b, o, count) == Prepend(Found(rtype, b[at + 10..next]), ReadRecords(b, next, count - 1))
  {
    hide SkipName, U16, Found;
  }

  ghost function Prepend(found: seq<string>, r: Answer): Answer {
    if r.Bad? then r else Good(found + r.addresses)
  }

  lemma PrependTwice(a: seq<string>, b: seq<string>, r: Answer)
    ensures Prepend(a, Prepend(b, r)) == Prepend(a + b, r)
  {
    if r.Good? { assert a + (b + r.addresses) == a + b + r.addresses; }
  }

  // ----- the message format -----

  /** Labels, then the root or a pointer to an earlier name (RFC 1035 section 4.1.4). */
  datatype Name = Name(labels: seq<bytes>, pointer: Option<bytes>) {
    ghost predicate Valid() {
      && (forall i | 0 <= i < |labels| :: 1 <= |labels[i]| <= 63)
      && (pointer.Some? ==> |pointer.value| == 2 && pointer.value[0] >= 192)
    }
  }

  function LabelBytes(l: bytes): bytes {
    [|l| % 256] + l
  }

  function NameBytes(labels: seq<bytes>, end: bytes): bytes {
    if labels == [] then end else LabelBytes(labels[0]) + NameBytes(labels[1..], end)
  }

  function WireName(n: Name): bytes {
    NameBytes(n.labels, if n.pointer.Some? then n.pointer.value else [0])
  }

  datatype Question = Question(name: Name, typeAndClass: bytes)

  datatype Record = Record(name: Name, rtype: nat, classAndTtl: bytes, rdata: bytes)

  datatype Message = Message(id: bytes, flags: bytes, questions: seq<Question>, answers: seq<Record>, others: bytes,
                             rest: bytes) {
    ghost predicate Valid() {
      && |id| == 2 && |flags| == 2 && |others| == 4
      && |questions| < 65536 && |answers| < 65536
      && (forall i | 0 <= i < |questions| :: ValidQuestion(questions[i]))
      && (forall i | 0 <= i < |answers| :: ValidRecord(answers[i]))
    }
  }

  ghost predicate ValidQuestion(q: Question) {
    q.name.Valid() && |q.typeAndClass| == 4
  }

  ghost predicate ValidRecord(r: Record) {
    r.name.Valid() && r.rtype < 65536 && |r.classAndTtl| == 6 && |r.rdata| < 65536
  }

  function WireQuestion(q: Question): bytes {
    WireName(q.name) + q.typeAndClass
  }

  function WireQuestions(questions: seq<Question>): bytes {
    if questions == [] then [] else WireQuestion(questions[0]) + WireQuestions(questions[1..])
  }

  function RecordBody(r: Record): bytes {
    Be16(r.rtype) + r.classAndTtl + Be16(|r.rdata|) + r.rdata
  }

  function WireRecord(r: Record): bytes {
    WireName(r.name) + RecordBody(r)
  }

  function WireRecords(records: seq<Record>): bytes {
    if records == [] then [] else WireRecord(records[0]) + WireRecords(records[1..])
  }

  function WireHead(m: Message): bytes {
    m.id + m.flags + Be16(|m.questions|) + Be16(|m.answers|) + m.others
  }

  function WireMessage(m: Message): bytes {
    WireHead(m) + (WireQuestions(m.questions) + (WireRecords(m.answers) + m.rest))
  }

  function Found(rtype: nat, rdata: bytes): seq<string> {
    if rtype == 1 && |rdata| == 4 then [DottedQuad(rdata)] else []
  }

  /** The addresses of the A records, in order. */
  function Addresses(records: seq<Record>): seq<string> {
    if records == [] then [] else Found(records[0].rtype, records[0].rdata) + Addresses(records[1..])
  }

  /** What the answers are about: the four bytes of every A record (type 1), in order. */
  function Quads(records: seq<Record>): seq<bytes> {
    if records == [] then []
    else (if records[0].rtype == 1 && |records[0].rdata| == 4 then [records[0].rdata] else []) + Quads(records[1..])
  }

  /** Four numbers with dots between them. */
  ghost predicate SpellsQuad(text: string, q: bytes) {
    |q| == 4 && SpellsAll(text, '.', 10, [q[0], q[1], q[2], q[3]])
  }

  ghost predicate SpellQuads(texts: seq<string>, quads: seq<bytes>) {
    |texts| == |quads| && forall i | 0 <= i < |texts| :: SpellsQuad(texts[i], quads[i])
  }

  lemma {:induction false} AddressesSpell(records: seq<Record>)
    ensures SpellQuads(Addresses(records), Quads(records))
    decreases |records|
  {
    hide SpellsQuad, DottedQuad;
    if records == [] {
    } else {
      var r, others, quads := records[0], Addresses(records[1..]), Quads(records[1..]);
      AddressesSpell(records[1..]);
      if r.rtype == 1 && |r.rdata| == 4 {
        OneSpells(r.rdata);
        assert Addresses(records) == [DottedQuad(r.rdata)] + others && Quads(records) == [r.rdata] + quads;
      } else {
        assert Addresses(records) == [] + others == others && Quads(records) == [] + quads == quads;
      }
    }
  }

  lemma OneSpells(q: bytes)
    requires |q| == 4
    ensures SpellsQuad(DottedQuad(q), q)
  {
    QuadSpells(q);
  }

  /** `part` stands in `b` at `o`. */
  ghost predicate At(b: bytes, o: nat, part: bytes) {
    o + |part| <= |b| && b[o..o + |part|] == part
  }

  lemma AtParts(b: bytes, o: nat, first: bytes, second: bytes)
    requires At(b, o, first + second)
    ensures At(b, o, first) && At(b, o + |first|, second)
  {
    assert b[o..o + |first|] == (first + second)[..|first|];
    assert b[o + |first|..o + |first| + |second|] == (first + second)[|first|..];
  }

  /**
   Skipping a name stops exactly at its end, plain or compressed, for every label a length byte below 192 can
   count.
   */
  lemma {:induction false} SkipNameStops(b: bytes, o: nat, labels: seq<bytes>, end: bytes)
    requires forall i | 0 <= i < |labels| :: 1 <= |labels[i]| < 192
    requires end == [0] || (|end| == 2 && end[0] >= 192)
    requires At(b, o, NameBytes(labels, end))
    ensures SkipName(b, o) == Some(o + |NameBytes(labels, end)|)
    decreases |labels|
  {
    if labels == [] {
      assert b[o] == b[o..o + |end|][0];
    } else {
      var l, rest := LabelBytes(labels[0]), NameBytes(labels[1..], end);
      AtParts(b, o, l, rest);
      assert b[o] == b[o..o + |l|][0] == |labels[0]|;
      SkipNameStops(b, o + |l|, labels[1..], end);
    }
  }

  lemma SkipWireName(b: bytes, o: nat, n: Name)
    requires n.Valid() && At(b, o, WireName(n))
    ensures SkipName(b, o) == Some(o + |WireName(n)|)
  {
    SkipNameStops(b, o, n.labels, if n.pointer.Some? then n.pointer.value else [0]);
  }

  lemma {:induction false} QuestionsAreSkipped(b: bytes, o: nat, questions: seq<Question>)
    requires forall i | 0 <= i < |questions| :: ValidQuestion(questions[i])
    requires At(b, o, WireQuestions(questions))
    ensures SkipQuestions(b, o, |questions|) == Some(o + |WireQuestions(questions)|)
    decreases |questions|
  {
    hide SkipName, WireQuestion, ValidQuestion, At;
    if questions == [] {
    } else {
      var wire, others := WireQuestion(questions[0]), questions[1..];
      QuestionStands(b, o, questions);
      assert forall i | 0 <= i < |others| :: others[i] == questions[i + 1];
      hide *;
      QuestionsAreSkipped(b, o + |wire|, others);
      OneQuestion(b, o, o + |wire| - 4, |others|);
    }
  }

  lemma QuestionStands(b: bytes, o: nat, questions: seq<Question>)
    requires questions != [] && ValidQuestion(questions[0]) && At(b, o, WireQuestions(questions))
    ensures var wire, others := WireQuestion(questions[0]), WireQuestions(questions[1..]);
            && |wire| >= 4 && SkipName(b, o) == Some(o + |wire| - 4)
            && At(b, o + |wire|, others) && |WireQuestions(questions)| == |wire| + |others|
  {
    var q, others := questions[0], WireQuestions(questions[1..]);
    var wire := WireQuestion(q);
    assert WireQuestions(questions) == wire + others;
    hide At, WireName, SkipName, Name.Valid, WireQuestions;
    AtParts(b, o, wire, others);
    AtParts(b, o, WireName(q.name), q.typeAndClass);
    SkipWireName(b, o, q.name);
  }

  lemma OneQuestion(b: bytes, o: nat, end: nat, count: nat)
    requires SkipName(b, o) == Some(end)
    ensures SkipQuestions(b, o, count + 1) == SkipQuestions(b, end + 4, count)
  {
  }

  /** A record of type `rtype` stands at `o`, and `next` is behind it. */
  ghost predicate RecordAt(b: bytes, o: nat, next: nat, rtype: nat, rdata: bytes) {
    var name := SkipName(b, o);
    && name.Some?
    && next == name.value + 10 + |rdata| <= |b|
    && U16(b[name.value], b[name.value + 1]) == rtype
    && U16(b[name.value + 8], b[name.value + 9]) == |rdata|
    && b[name.value + 10..next] == rdata
  }

  lemma RecordStands(b: bytes, o: nat, r: Record)
    requires ValidRecord(r) && At(b, o, WireRecord(r))
    ensures RecordAt(b, o, o + |WireRecord(r)|, r.rtype, r.rdata)
  {
    hide SkipName, WireName, NameBytes, U16, Be16, Name.Valid;
    var at, body := o + |WireName(r.name)|, RecordBody(r);
    AtParts(b, o, WireName(r.name), body);
    SkipWireName(b, o, r.name);
    var here := b[at..at + |body|];
    assert here == body && |body| == 10 + |r.rdata|;
    assert b[at] == here[0] && b[at + 1] == here[1] && b[at + 8] == here[8] && b[at + 9] == here[9];
    assert b[at + 10..at + 10 + |r.rdata|] == here[10..];
    ReadBe16(r.rtype);
    ReadBe16(|r.rdata|);
  }

  /** One record in front of others that are read. */
  lemma OneRecord(b: bytes, o: nat, next: nat, rtype: nat, rdata: bytes, count: nat)
    requires RecordAt(b, o, next, rtype, rdata)
    ensures ReadRecords(b, o, count + 1) == Prepend(Found(rtype, rdata), ReadRecords(b, next, count))
  {
    hide SkipName, U16, Found;
  }

  lemma {:induction false} RecordsAreRead(b: bytes, o: nat, records: seq<Record>)
    requires forall i | 0 <= i < |records| :: ValidRecord(records[i])
    requires At(b, o, WireRecords(records))
    ensures ReadRecords(b, o, |records|) == Good(Addresses(records))
    decreases |records|
  {
    if records == [] {
    } else {
      var r, others := records[0], records[1..];
      var wire := WireRecord(r);
      RecordsSplit(records);
      hide *;
      AtParts(b, o, wire, WireRecords(others));
      RecordStands(b, o, r);
      RecordsAreRead(b, o + |wire|, others);
      OneRecord(b, o, o + |wire|, r.rtype, r.rdata, |others|);
      PrependGood(Found(r.rtype, r.rdata), Addresses(others));
    }
  }

  lemma RecordsSplit(records: seq<Record>)
    requires records != []
    ensures WireRecords(records) == WireRecord(records[0]) + WireRecords(records[1..])
    ensures Addresses(records) == Found(records[0].rtype, records[0].rdata) + Addresses(records[1..])
  {
  }

  lemma PrependGood(a: seq<string>, b: seq<string>)
    ensures Prepend(a, Good(b)) == Good(a + b)
  {
  }

  lemma HeadFields(m: Message, b: bytes)
    requires m.Valid() && At(b, 0, WireHead(m))
    ensures |WireHead(m)| == 12 <= |b| && b[3] == m.flags[1]
    ensures U16(b[4], b[5]) == |m.questions| && U16(b[6], b[7]) == |m.answers|
  {
    hide U16, Be16;
    var head := WireHead(m);
    assert forall k :: 0 <= k < 12 ==> b[k] == b[0..|head|][k] == head[k];
    ReadBe16(|m.questions|);
    ReadBe16(|m.answers|);
  }

  /**
   For every well-formed message, with plain or compressed names, records of any kind between the
   addresses and anything at all behind the answers, exactly the A addresses come back, in order;
   a message with an error code is refused with that code.
   */
  lemma AnswersAreRead(m: Message)
    requires m.Valid()
    ensures DecodeAnswer(WireMessage(m)) ==
            if m.flags[1] % 16 != 0 then Bad(Rcode(m.flags[1] % 16)) else Good(Addresses(m.answers))
    ensures SpellQuads(Addresses(m.answers), Quads(m.answers))
  {
    var b, qs, rs := WireMessage(m), WireQuestions(m.questions), WireRecords(m.answers);
    hide *;
    AddressesSpell(m.answers);
    MessageParts(m);
    HeadFields(m, b);
    QuestionsAreSkipped(b, 12, m.questions);
    RecordsAreRead(b, 12 + |qs|, m.answers);
    DecodeFrom(b, 12 + |qs|);
  }

  lemma MessageParts(m: Message)
    requires m.Valid()
    ensures var b, qs := WireMessage(m), WireQuestions(m.questions);
            && At(b, 0, WireHead(m)) && At(b, 12, qs) && At(b, 12 + |qs|, WireRecords(m.answers))
    ensures forall i | 0 <= i < |m.questions| :: ValidQuestion(m.questions[i])
    ensures forall i | 0 <= i < |m.answers| :: ValidRecord(m.answers[i])
  {
    hide At, ValidQuestion, ValidRecord, WireQuestions, WireRecords;
    var b, qs, rs := WireMessage(m), WireQuestions(m.questions), WireRecords(m.answers);
    var head := WireHead(m);
    AtStart(b);
    assert b == head + (qs + (rs + m.rest));
    AtParts(b, 0, head, qs + (rs + m.rest));
    AtParts(b, 12, qs, rs + m.rest);
    AtParts(b, 12 + |qs|, rs, m.rest);
  }

  lemma AtStart(b: bytes)
    ensures At(b, 0, b)
  {
    assert b[0..|b|] == b;
  }

  lemma DecodeFrom(b: bytes, o: nat)
    requires |b| >= 12 && SkipQuestions(b, 12, U16(b[4], b[5])) == Some(o)
    ensures DecodeAnswer(b) == if b[3] % 16 != 0 then Bad(Rcode(b[3] % 16)) else ReadRecords(b, o, U16(b[6], b[7]))
  {
  }

  // ----- writing -----

  /** UTF-8, of which the model assumes only that a character takes one to three bytes. */
  datatype Utf8 = Utf8(encode: string -> bytes) {
    ghost predicate Sound() {
      forall s :: |s| <= |encode(s)| <= 3 * |s|
    }
  }

  function Labels(host: string): seq<string> {
    NonEmpty(Split(host, '.'))
  }

  function NonEmpty(parts: seq<string>): (r: seq<string>)
    ensures forall p <- r :: p != "" && p in parts
  {
    if parts == [] then []
    else (if parts[0] == "" then [] else [parts[0]]) + NonEmpty(parts[1..])
  }

  /** The labels of a name are what stands between its dots. */
  lemma LabelsAreParts(parts: seq<string>)
    requires parts != [] && forall p <- parts :: p != "" && '.' !in p
    ensures Labels(Join(parts, ".")) == parts
  {
    assert "." == ['.'];
    SplitJoin(parts, '.');
    hide Split, Join;
    AllNonEmpty(parts);
  }

  lemma {:induction false} AllNonEmpty(parts: seq<string>)
    requires forall p <- parts :: p != ""
    ensures NonEmpty(parts) == parts
    decreases |parts|
  {
    if parts == [] {
    } else {
      assert parts[0] in parts && forall p <- parts[1..] :: p in parts;
      AllNonEmpty(parts[1..]);
      assert [parts[0]] + parts[1..] == parts;
    }
  }

  function EncodeLabels(utf8: Utf8, labels: seq<string>): seq<bytes> {
    seq(|labels|, i requires 0 <= i < |labels| => utf8.encode(labels[i]))
  }

  /** Id 0, recursion desired, one question; and at the end type A, class IN. */
  const QUERY_HEAD: bytes := [0, 0, 1, 0, 0, 1, 0, 0, 0, 0, 0, 0]
  const QUERY_TAIL: bytes := [0, 1, 0, 1]

  /** The query for a host's A records; None when a label is too long to be encoded. */
  function Query(utf8: Utf8, host: string): Option<bytes> {
    if exists l <- Labels(host) :: |l| > 63 then None else
    Some(QUERY_HEAD + (NameBytes(EncodeLabels(utf8, Labels(host)), [0]) + QUERY_TAIL))
  }

  lemma QueryOf(utf8: Utf8, host: string)
    ensures Query(utf8, host).Some? <==> forall l <- Labels(host) :: |l| <= 63
    ensures Query(utf8, host).Some? ==>
              Query(utf8, host).value == QUERY_HEAD + (NameBytes(EncodeLabels(utf8, Labels(host)), [0]) + QUERY_TAIL)
  {
  }

  method EncodeQuery(utf8: Utf8, host: string) returns (r: Option<bytes>)
    ensures r == Query(utf8, host)
  {
    var labels := Labels(host);
    for i := 0 to |labels|
      invariant forall k :: 0 <= k < i ==> |labels[k]| <= 63
    {
      if |labels[i]| > 63 {
        assert labels[i] in labels;
        return None;
      }
    }
    assert forall l <- labels :: |l| <= 63;
    QueryOf(utf8, host);
    hide Labels, Query, NameBytes, EncodeLabels;
    var encoded := EncodeLabels(utf8, labels);
    var size := NameSize(encoded);
    var q := WriteQuery(encoded, size);
    return Some(q);
  }

  method WriteQuery(labels: seq<bytes>, size: nat) returns (q: bytes)
    requires size == |NameBytes(labels, [0])|
    ensures q == QUERY_HEAD + (NameBytes(labels, [0]) + QUERY_TAIL)
  {
    hide NameBytes;
    var b := new byte[12 + size + 4];
    Put(b, QUERY_HEAD, 0);
    assert b[..12] == QUERY_HEAD;
    var o := WriteName(b, labels, 12);
    ghost var named := b[..o];
    Put(b, QUERY_TAIL, o);
    assert b[..] == named + QUERY_TAIL == QUERY_HEAD + (NameBytes(labels, [0]) + QUERY_TAIL);
    return b[..];
  }

  method NameSize(labels: seq<bytes>) returns (size: nat)
    ensures size == |NameBytes(labels, [0])|
  {
    size := 0;
    for i := 0 to |labels|
      invariant size + |NameBytes(labels[i..], [0])| == |NameBytes(labels, [0])|
    {
      assert labels[i..][1..] == labels[i + 1..];
      size := size + 1 + |labels[i]|;
    }
    size := size + 1;
  }

  method WriteName(b: array<byte>, labels: seq<bytes>, start: nat) returns (o: nat)
    requires start + |NameBytes(labels, [0])| <= b.Length
    modifies b
    ensures o == start + |NameBytes(labels, [0])| && b[..o] == old(b[..start]) + NameBytes(labels, [0])
  {
    var j := 0;
    o := start;
    ghost var todo := NameBytes(labels, [0]);
    assert labels[0..] == labels;
    while j < |labels|
      invariant 0 <= j <= |labels| && start <= o && todo == NameBytes(labels[j..], [0])
      invariant o + |todo| == start + |NameBytes(labels, [0])|
      invariant b[..o] + todo == old(b[..start]) + NameBytes(labels, [0])
    {
      ghost var written, rest := b[..o], NameBytes(labels[j + 1..], [0]);
      assert labels[j..][1..] == labels[j + 1..];
      assert todo == LabelBytes(labels[j]) + rest;
      Put(b, LabelBytes(labels[j]), o);
      assert written + (LabelBytes(labels[j]) + rest) == written + LabelBytes(labels[j]) + rest;
      todo := rest;
      o := o + 1 + |labels[j]|;
      j := j + 1;
    }
    Put(b, [0], o);
    o := o + 1;
  }

  /** The labels of an uncompressed name. */
  function ReadLabels(b: bytes, o: nat): Option<seq<bytes>>
    decreases |b| - o
  {
    if o >= |b| then None
    else if b[o] == 0 then Some([])
    else if o + 1 + b[o] as int > |b| then None
    else match ReadLabels(b, o + 1 + b[o] as int)
      case None => None
      case Some(more) => Some([b[o + 1..o + 1 + b[o] as int]] + more)
  }

  lemma {:induction false} LabelsReadBack(b: bytes, o: nat, labels: seq<bytes>)
    requires forall i | 0 <= i < |labels| :: 1 <= |labels[i]| < 256
    requires At(b, o, NameBytes(labels, [0]))
    ensures ReadLabels(b, o) == Some(labels)
    decreases |labels|
  {
    if labels == [] {
      assert b[o] == b[o..o + 1][0];
    } else {
      var l, rest := LabelBytes(labels[0]), NameBytes(labels[1..], [0]);
      AtParts(b, o, l, rest);
      assert b[o] == b[o..o + |l|][0] == |labels[0]|;
      assert b[o + 1..o + |l|] == b[o..o + |l|][1..] == labels[0];
      LabelsReadBack(b, o + |l|, labels[1..]);
      assert [labels[0]] + labels[1..] == labels;
    }
  }

  /**
   The reader inverts the writer: skipping the name of a query lands on the type and class that end
   it, and its labels are the encoded labels of the host.  This holds beyond ASCII, although the
   length check counts characters: 63 of them take less than 192 bytes.
   */
  lemma QueryReadsBack(utf8: Utf8, host: string)
    requires utf8.Sound() && Query(utf8, host).Some?
    ensures var q := Query(utf8, host).value;
            && SkipName(q, 12) == Some(|q| - 4) && q[|q| - 4..] == QUERY_TAIL
            && ReadLabels(q, 12) == Some(EncodeLabels(utf8, Labels(host)))
  {
    QueryOf(utf8, host);
    EncodedLengths(utf8, Labels(host));
    hide *;
    QueryPartsRead(Query(utf8, host).value, EncodeLabels(utf8, Labels(host)));
  }

  lemma QueryPartsRead(q: bytes, encoded: seq<bytes>)
    requires q == QUERY_HEAD + (NameBytes(encoded, [0]) + QUERY_TAIL)
    requires forall i | 0 <= i < |encoded| :: 1 <= |encoded[i]| < 192
    ensures SkipName(q, 12) == Some(|q| - 4) && q[|q| - 4..] == QUERY_TAIL
    ensures ReadLabels(q, 12) == Some(encoded)
  {
    hide *;
    QueryParts(q, NameBytes(encoded, [0]));
    SkipNameStops(q, 12, encoded, [0]);
    LabelsReadBack(q, 12, encoded);
  }

  lemma QueryParts(q: bytes, name: bytes)
    requires q == QUERY_HEAD + (name + QUERY_TAIL)
    ensures At(q, 12, name) && |q| == 16 + |name| && q[|q| - 4..] == QUERY_TAIL
  {
    assert q[12..] == name + QUERY_TAIL;
    assert q[12..][..|name|] == name;
  }

  lemma EncodedLengths(utf8: Utf8, labels: seq<string>)
    requires utf8.Sound() && forall l <- labels :: 1 <= |l| <= 63
    ensures forall i | 0 <= i < |EncodeLabels(utf8, labels)| :: 1 <= |EncodeLabels(utf8, labels)[i]| < 192
  {
    forall i | 0 <= i < |labels|
      ensures 1 <= |EncodeLabels(utf8, labels)[i]| < 192
    {
      assert labels[i] in labels;
    }
  }

  /** The question of a query for a host. */
  function QuestionOf(utf8: Utf8, host: string): Question {
    Question(Name(EncodeLabels(utf8, Labels(host)), None), QUERY_TAIL)
  }

  ghost predicate Within(utf8: Utf8, labels: seq<string>) {
    forall l <- labels :: |utf8.encode(l)| <= 63
  }

  lemma NameIsValid(utf8: Utf8, host: string)
    requires utf8.Sound()
    ensures ValidQuestion(QuestionOf(utf8, host)) <==> Within(utf8, Labels(host))
  {
    var labels, encoded := Labels(host), EncodeLabels(utf8, Labels(host));
    assert forall i ::
        0 <= i < |labels| ==> labels[i] in labels && encoded[i] == utf8.encode(labels[i]) && encoded[i] in encoded;
  }

  /**
   What is asked: a query that can be built holds one question, on the wire as the format spells it; and it
   can be built with a question the format allows exactly when no label takes more than 63 bytes, while
   the check counts characters.
   */
  lemma QueryIsWellFormed(utf8: Utf8, host: string)
    requires utf8.Sound()
    ensures Query(utf8, host).Some? ==> Query(utf8, host).value == QUERY_HEAD + WireQuestions([QuestionOf(utf8, host)])
    ensures Query(utf8, host).Some? && ValidQuestion(QuestionOf(utf8, host)) <==> Within(utf8, Labels(host))
    ensures Query(utf8, host).Some? ==>
              var q := Query(utf8, host).value;
              |q| >= 17 && q[..12] == [0, 0, 1, 0, 0, 1, 0, 0, 0, 0, 0, 0] && q[|q| - 4..] == [0, 1, 0, 1]
  {
    NameIsValid(utf8, host);
    QueryOf(utf8, host);
    var q := QuestionOf(utf8, host);
    assert [q][1..] == [] && WireQuestions([]) == [];
    assert WireQuestions([q]) == WireQuestion(q) + [] == WireQuestion(q);
    if Within(utf8, Labels(host)) {
      forall l | l in Labels(host)
        ensures |l| <= 63
      {
        assert |l| <= |utf8.encode(l)|;
      }
    }
    hide Labels, EncodeLabels, Within, ValidQuestion, NameBytes;
  }

  // ----- a host the check lets through -----

  /** UTF-8 for a UTF-16 unit that stands for a character of its own. */
  function EncodeUnit(c: char): (b: bytes)
    ensures 1 <= |b| <= 3
  {
    var n := c as int;
    if n < 0x80 then [n]
    else if n < 0x800 then [0xC0 + n / 64, 0x80 + n % 64]
    else [0xE0 + n / 4096 % 16, 0x80 + n / 64 % 64, 0x80 + n % 64]
  }

  function EncodeUnits(s: string): (b: bytes)
    ensures |s| <= |b| <= 3 * |s|
  {
    if s == "" then [] else EncodeUnit(s[0]) + EncodeUnits(s[1..])
  }

  function Accents(n: nat): string {
    if n == 0 then "" else "\U{00e9}" + Accents(n - 1)
  }

  lemma {:induction false} AccentsLength(n: nat)
    ensures |Accents(n)| == n && '.' !in Accents(n) && |EncodeUnits(Accents(n))| == 2 * n
  {
    if n == 0 {
    } else {
      AccentsLength(n - 1);
      assert Accents(n)[1..] == Accents(n - 1);
      assert |EncodeUnit('\U{00e9}')| == 2;
    }
  }

  /** A label of 32 accented letters passes the check and takes 64 bytes, one too many. */
  lemma AccentsAreTooLong()
    ensures var utf8, host := Utf8(EncodeUnits), Accents(32);
            utf8.Sound() && Query(utf8, host).Some? && !ValidQuestion(QuestionOf(utf8, host))
  {
    var utf8, host := Utf8(EncodeUnits), Accents(32);
    assert utf8.encode == EncodeUnits;
    UnitsAreSound();
    AccentsLength(32);
    assert host != "";
    hide *;
    OneLabel(host);
    TooManyBytes(utf8, host);
  }

  lemma UnitsAreSound()
    ensures Utf8(EncodeUnits).Sound()
  {
  }

  lemma TooManyBytes(utf8: Utf8, host: string)
    requires utf8.Sound() && Labels(host) == [host] && |host| <= 63 < |utf8.encode(host)|
    ensures Query(utf8, host).Some? && !ValidQuestion(QuestionOf(utf8, host))
  {
    NameIsValid(utf8, host);
    QueryOf(utf8, host);
    hide Labels, Query, ValidQuestion, Utf8.Sound;
    assert host in Labels(host);
  }

  lemma OneLabel(host: string)
    requires host != "" && '.' !in host
    ensures Labels(host) == [host]
  {
    SplitFirst(host, "", '.');
    assert host + "" == host && Split("", '.') == [""];
    assert [host + ""] + [""][1..] == [host];
    assert NonEmpty([host]) == [host] + NonEmpty([]) by { assert [host][1..] == []; }
  }
}
