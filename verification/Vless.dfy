/** The VLESS request header that opens every tunnel (src/vless.js). */
module Vless {
  import opened Bytes
  import opened Options
  import opened Names

  /** Who a credential belongs to, and the text functions the parser calls. */
  datatype Auth = Auth(lookup: bytes -> Option<string>, text: Text)

  datatype Reason =
    | BadVersion | UuidMismatch | UnknownCommand(cmd: nat) | UnknownAtyp(atyp: nat) | BlockedDomain(host: string)

  datatype Request = Request(cmd: nat, host: string, port: nat, user: string)

  datatype Parsed = Need | Fail(reason: Reason) | Ok(request: Request, headerEnd: nat)

  /** The host at `pos`, where the address type stands; `None` inside `Need` waits for more bytes. */
  datatype Host = HostNeed | HostUnknown(atyp: nat) | HostAt(host: string, end: nat)

  function ParseHost(text: Text, p: bytes, pos: nat): Host
    requires pos < |p|
  {
    var at := pos + 1;
    if p[pos] == 1 then
      if |p| < at + 4 then HostNeed else HostAt(DottedQuad(p[at..at + 4]), at + 4)
    else if p[pos] == 2 then
      if |p| < at + 1 || |p| < at + 1 + p[at] then HostNeed
      else HostAt(text.decode(p[at + 1..at + 1 + p[at]]), at + 1 + p[at])
    else if p[pos] == 3 then
      if |p| < at + 16 then HostNeed else HostAt(HexGroups(p[at..at + 16]), at + 16)
    else if p[pos] == 0 then HostAt("0.0.0.0", at)
    else HostUnknown(p[pos])
  }

  /** The command byte stands behind the options, whose length byte is the 18th. */
  function CommandAt(p: bytes): nat
    requires |p| >= 18
  {
    18 + (p[17] as int)
  }

  function ParseHeader(auth: Auth, p: bytes): (r: Parsed)
    ensures r.Ok? ==> r.headerEnd <= |p|
  {
    if |p| < 18 then Need
    else if p[0] != 0 then Fail(BadVersion)
    else if auth.lookup(p[1..17]).None? then Fail(UuidMismatch)
    else
      var user := auth.lookup(p[1..17]).value;
      var pos := CommandAt(p);
      if |p| < pos + 1 then Need
      else if p[pos] == 3 then Ok(Request(3, "0.0.0.0", 0, user), pos + 1)
      else if p[pos] != 1 && p[pos] != 2 then Fail(UnknownCommand(p[pos]))
      else if |p| < pos + 4 then Need
      else match ParseHost(auth.text, p, pos + 3)
        case HostNeed => Need
        case HostUnknown(atyp) => Fail(UnknownAtyp(atyp))
        case HostAt(host, end) =>
          if IsBlocked(auth.text, host) then Fail(BlockedDomain(host))
          else Ok(Request(p[pos], host, U16(p[pos + 1], p[pos + 2]), user), end)
  }

  // ----- the header grammar -----

  datatype Address = NoAddress | V4(quad: bytes) | Name(name: bytes) | V6(groups: bytes) {
    ghost predicate Valid() {
      (V4? ==> |quad| == 4) && (Name? ==> |name| < 256) && (V6? ==> |groups| == 16)
    }

    function Bytes(): bytes
      requires Name? ==> |name| < 256
    {
      match this
      case NoAddress => [0]
      case V4(quad) => [1] + quad
      case Name(name) => [2, |name|] + name
      case V6(groups) => [3] + groups
    }

    function Host(text: Text): string {
      match this
      case NoAddress => "0.0.0.0"
      case V4(quad) => DottedQuad(quad)
      case Name(name) => text.decode(name)
      case V6(groups) => HexGroups(groups)
    }

    /** A host text says where the address leads. */
    ghost predicate Names(text: Text, host: string)
      requires Valid()
    {
      match this
      case NoAddress => host == "0.0.0.0"
      case V4(q) => SpellsAll(host, '.', 10, [q[0], q[1], q[2], q[3]])
      case Name(name) => host == text.decode(name)
      case V6(groups) => SpellsAll(host, ':', 16, Fields(groups))
    }
  }

  lemma HostNames(address: Address, text: Text)
    requires address.Valid()
    ensures address.Names(text, address.Host(text))
  {
    hide DottedQuad, HexGroups, SpellsAll, Fields;
    match address
    case V4(q) => QuadSpells(q);
    case V6(groups) => GroupsSpell(groups);
    case _ =>
  }

  datatype Header = Header(uuid: bytes, options: bytes, cmd: nat, port: nat, address: Address) {
    ghost predicate Valid() {
      |uuid| == 16 && |options| < 256 && 1 <= cmd <= 3 && port < 65536 && address.Valid()
    }

    function Prefix(): bytes
      requires |options| < 256
    {
      [0] + uuid + [|options|] + options
    }

    ghost function Bytes(): bytes
      requires Valid()
    {
      Prefix() + [cmd] + if cmd == 3 then [] else Be16(port) + address.Bytes()
    }

    /** What the server should answer once it has the whole header. */
    ghost function Verdict(auth: Auth): Parsed
      requires Valid()
    {
      if auth.lookup(uuid).None? then Fail(UuidMismatch)
      else if cmd == 3 then Ok(Request(3, "0.0.0.0", 0, auth.lookup(uuid).value), |Bytes()|)
      else if IsBlocked(auth.text, address.Host(auth.text)) then Fail(BlockedDomain(address.Host(auth.text)))
      else Ok(Request(cmd, address.Host(auth.text), port, auth.lookup(uuid).value), |Bytes()|)
    }
  }

  lemma QuadReads(text: Text, quad: bytes, p: bytes, pos: nat)
    requires |quad| == 4 && pos + 5 <= |p| && p[pos..pos + 5] == [1] + quad
    ensures ParseHost(text, p, pos) == HostAt(DottedQuad(quad), pos + 5)
  {
    hide DottedQuad, HexGroups;
    assert p[pos] == p[pos..pos + 5][0] && p[pos + 1..pos + 5] == p[pos..pos + 5][1..];
  }

  lemma NameReads(text: Text, name: bytes, p: bytes, pos: nat)
    requires |name| < 256 && pos + 2 + |name| <= |p| && p[pos..pos + 2 + |name|] == [2, |name|] + name
    ensures ParseHost(text, p, pos) == HostAt(text.decode(name), pos + 2 + |name|)
  {
    hide DottedQuad, HexGroups;
    var b := p[pos..pos + 2 + |name|];
    assert p[pos] == b[0] && p[pos + 1] == b[1] && p[pos + 2..pos + 2 + |name|] == b[2..];
  }

  lemma GroupsRead(text: Text, groups: bytes, p: bytes, pos: nat)
    requires |groups| == 16 && pos + 17 <= |p| && p[pos..pos + 17] == [3] + groups
    ensures ParseHost(text, p, pos) == HostAt(HexGroups(groups), pos + 17)
  {
    hide DottedQuad, HexGroups;
    assert p[pos] == p[pos..pos + 17][0] && p[pos + 1..pos + 17] == p[pos..pos + 17][1..];
  }

  lemma NothingReads(text: Text, p: bytes, pos: nat)
    requires pos < |p| && p[pos] == 0
    ensures ParseHost(text, p, pos) == HostAt("0.0.0.0", pos + 1)
  {
  }

  lemma HostReads(text: Text, address: Address, p: bytes, pos: nat)
    requires address.Valid() && pos + |address.Bytes()| <= |p|
    ensures p[pos..pos + |address.Bytes()|] == address.Bytes() ==>
              ParseHost(text, p, pos) == HostAt(address.Host(text), pos + |address.Bytes()|)
  {
    hide ParseHost, DottedQuad, HexGroups;
    if p[pos..pos + |address.Bytes()|] == address.Bytes() {
      match address
      case NoAddress =>
        assert p[pos] == p[pos..pos + 1][0];
        NothingReads(text, p, pos);
      case V4(quad) => QuadReads(text, quad, p, pos);
      case Name(name) => NameReads(text, name, p, pos);
      case V6(groups) => GroupsRead(text, groups, p, pos);
    }
  }

  /** The parser never asks for more once the header is whole, and it answers as the header says. */
  lemma ParseReadsHeader(auth: Auth, h: Header, rest: bytes)
    requires h.Valid()
    ensures ParseHeader(auth, h.Bytes() + rest) == h.Verdict(auth)
  {
    hide ParseHost, U16, IsBlocked;
    var p, pos := h.Bytes() + rest, |h.Prefix()|;
    assert p[..pos] == h.Prefix() && p[pos] == h.cmd;
    assert p[1..17] == h.uuid && p[17] == |h.options|;
    if h.cmd != 3 {
      var head := h.Prefix() + [h.cmd] + Be16(h.port);
      assert p == head + h.address.Bytes() + rest;
      assert p[|head|..|head| + |h.address.Bytes()|] == h.address.Bytes();
      HostReads(auth.text, h.address, p, |head|);
      assert p[pos + 1] == head[pos + 1] && p[pos + 2] == head[pos + 2];
      ReadBe16(h.port);
    }
  }

  /**
   Where an accepted request goes: the text of the four bytes or of the eight groups of its header, the name
   as it is decoded, or nowhere in particular; with the header's command and port, for the user of its key.
   */
  lemma RequestNamesTarget(auth: Auth, h: Header, rest: bytes)
    requires h.Valid() && ParseHeader(auth, h.Bytes() + rest).Ok?
    ensures var r := ParseHeader(auth, h.Bytes() + rest).request;
            && r.cmd == h.cmd && auth.lookup(h.uuid) == Some(r.user)
            && (h.cmd == 3 ==> r.host == "0.0.0.0" && r.port == 0)
            && (h.cmd != 3 ==> r.port == h.port && h.address.Names(auth.text, r.host))
  {
    ParseReadsHeader(auth, h, rest);
    HostNames(h.address, auth.text);
    hide ParseHeader, Address.Host, Address.Names, IsBlocked;
  }

  lemma HostKeeps(text: Text, a: bytes, b: bytes, pos: nat)
    requires pos < |a| && !ParseHost(text, a, pos).HostNeed?
    ensures ParseHost(text, a + b, pos) == ParseHost(text, a, pos)
  {
    var at := pos + 1;
    if a[pos] == 1 {
      assert (a + b)[at..at + 4] == a[at..at + 4];
    } else if a[pos] == 2 {
      assert (a + b)[at + 1..at + 1 + a[at]] == a[at + 1..at + 1 + a[at]];
    } else if a[pos] == 3 {
      assert (a + b)[at..at + 16] == a[at..at + 16];
    }
  }

  /** A verdict on a prefix, of either kind, is the verdict on every extension. */
  lemma ParseStable(auth: Auth, a: bytes, b: bytes)
    requires !ParseHeader(auth, a).Need?
    ensures ParseHeader(auth, a + b) == ParseHeader(auth, a)
  {
    hide ParseHost, U16;
    assert (a + b)[1..17] == a[1..17];
    var pos := CommandAt(a);
    if |a| >= pos + 4 && !ParseHost(auth.text, a, pos + 3).HostNeed? {
      HostKeeps(auth.text, a, b, pos + 3);
    }
  }

  /** The address block between `pos` and `end`. */
  ghost function AddressAt(p: bytes, pos: nat, end: nat): Address
    requires pos < end <= |p|
  {
    if p[pos] == 1 then V4(p[pos + 1..end])
    else if p[pos] == 2 && pos + 2 <= end then Name(p[pos + 2..end])
    else if p[pos] == 3 then V6(p[pos + 1..end])
    else NoAddress
  }

  lemma AddressIsParsed(text: Text, p: bytes, pos: nat)
    requires pos < |p| && ParseHost(text, p, pos).HostAt?
    ensures var end := ParseHost(text, p, pos).end;
            && pos < end <= |p|
            && AddressAt(p, pos, end).Valid() && AddressAt(p, pos, end).Bytes() == p[pos..end]
  {
    hide DottedQuad, HexGroups;
  }

  /** The header an accepted request was read from. */
  ghost function Accepted(auth: Auth, p: bytes): Header
    requires ParseHeader(auth, p).Ok?
  {
    hide DottedQuad, HexGroups, IsBlocked, U16;
    var end := ParseHeader(auth, p).headerEnd;
    var pos := CommandAt(p);
    if p[pos] == 3 then Header(p[1..17], p[18..pos], 3, 0, NoAddress)
    else Header(p[1..17], p[18..pos], p[pos], U16(p[pos + 1], p[pos + 2]), AddressAt(p, pos + 3, end))
  }

  /** Nothing but a whole header of the grammar is accepted, and `headerEnd` is its length. */
  lemma AcceptedIsHeader(auth: Auth, p: bytes)
    requires ParseHeader(auth, p).Ok?
    ensures Accepted(auth, p).Valid()
    ensures Accepted(auth, p).Bytes() == p[..ParseHeader(auth, p).headerEnd]
  {
    hide ParseHost, AddressAt, U16, Be16, IsBlocked;
    var h, end := Accepted(auth, p), ParseHeader(auth, p).headerEnd;
    var pos := CommandAt(p);
    assert h.Prefix() == p[..pos] && h.cmd == p[pos];
    hide Header.Prefix;
    if h.cmd == 3 {
      assert p[..end] == p[..pos] + [p[pos]] + [];
    } else {
      WriteU16(p[pos + 1], p[pos + 2]);
      AddressIsParsed(auth.text, p, pos + 3);
      assert h.address.Bytes() == p[pos + 3..end] && Be16(h.port) == [p[pos + 1], p[pos + 2]];
      hide Address.Bytes;
      assert p[..end] == p[..pos] + [p[pos]] + ([p[pos + 1], p[pos + 2]] + p[pos + 3..end]);
    }
  }

  /** So an accepted request says exactly what its header says. */
  lemma AcceptedVerdict(auth: Auth, p: bytes)
    requires ParseHeader(auth, p).Ok?
    ensures Accepted(auth, p).Valid() && Accepted(auth, p).Verdict(auth) == ParseHeader(auth, p)
  {
    hide *;
    AcceptedIsHeader(auth, p);
    var h, rest := Accepted(auth, p), p[ParseHeader(auth, p).headerEnd..];
    assert h.Bytes() + rest == p;
    ParseReadsHeader(auth, h, rest);
  }

  // ----- when more bytes are asked for -----

  ghost predicate BeginsHeader(p: bytes) {
    exists h: Header :: h.Valid() && h.Bytes() <= p
  }

  ghost predicate BecomesHeader(p: bytes) {
    exists h: Header :: h.Valid() && p <= h.Bytes()
  }

  /** A server that knows every user and blocks no domain. */
  const OPEN := Auth(_ => Some(""), Text(_ => "", _ => ""))

  lemma OpenParses(auth: Auth, p: bytes)
    requires |p| >= 18 && auth.lookup(p[1..17]).Some?
    ensures ParseHeader(OPEN, p).Need? <==> ParseHeader(auth, p).Need?
    ensures ParseHeader(OPEN, p).Ok? <==>
            ParseHeader(auth, p).Ok? || (ParseHeader(auth, p).Fail? && ParseHeader(auth, p).reason.BlockedDomain?)
  {
    assert OPEN.lookup(p[1..17]).Some?;
    assert forall host :: !IsBlocked(OPEN.text, host);
    hide IsBlocked;
    var pos := CommandAt(p);
    if |p| >= pos + 4 {
      HostNeedIsOpen(auth.text, p, pos + 3);
    }
    hide ParseHost, U16;
  }

  lemma HostNeedIsOpen(text: Text, p: bytes, pos: nat)
    requires pos < |p|
    ensures ParseHost(text, p, pos).HostNeed? <==> ParseHost(OPEN.text, p, pos).HostNeed?
    ensures ParseHost(text, p, pos).HostAt? <==> ParseHost(OPEN.text, p, pos).HostAt?
  {
    hide DottedQuad, HexGroups;
  }

  /**
   Whatever is still waited for can come: bytes of value 3 spell options, a command, a port, an address type and
   an address.
   */
  lemma ThreesComplete(p: bytes, more: bytes)
    requires |p| >= 18 && ParseHeader(OPEN, p).Need?
    requires |more| == 600 && forall i | 0 <= i < |more| :: more[i] == 3
    ensures ParseHeader(OPEN, p + more).Ok?
  {
    var q, pos := p + more, CommandAt(p);
    assert q[..|p|] == p && CommandAt(q) == pos;
    assert OPEN.lookup(q[1..17]).Some? && forall host :: !IsBlocked(OPEN.text, host);
    hide IsBlocked, DottedQuad, HexGroups, U16;
    assert forall i | |p| <= i < |q| :: q[i] == 3;
  }

  lemma AcceptedBegins(auth: Auth, p: bytes)
    requires ParseHeader(auth, p).Ok?
    ensures BeginsHeader(p)
  {
    AcceptedIsHeader(auth, p);
    hide ParseHeader, Accepted;
  }

  lemma BegunIsDecided(auth: Auth, p: bytes)
    requires BeginsHeader(p)
    ensures !ParseHeader(auth, p).Need?
  {
    var h: Header :| h.Valid() && h.Bytes() <= p;
    hide ParseHeader;
    VerdictIsDecided(auth, h);
    hide *;
    ParseReadsHeader(auth, h, p[|h.Bytes()|..]);
    assert h.Bytes() + p[|h.Bytes()|..] == p;
  }

  lemma VerdictIsDecided(auth: Auth, h: Header)
    requires h.Valid()
    ensures !h.Verdict(auth).Need?
  {
  }

  lemma NeededBecomes(p: bytes)
    requires |p| >= 18 && ParseHeader(OPEN, p).Need?
    ensures BecomesHeader(p)
  {
    var more: bytes := seq(600, _ => 3);
    ThreesComplete(p, more);
    AcceptedIsHeader(OPEN, p + more);
    hide ParseHeader;
    var h := Accepted(OPEN, p + more);
    assert h.Bytes() <= p + more;
    if |h.Bytes()| < |p| {
      assert h.Bytes() <= p;
      BegunIsDecided(OPEN, p);
    }
  }

  /** What was refused, if not for its domain, is no beginning of a header. */
  lemma RefusedStaysRefused(auth: Auth, p: bytes)
    requires |p| >= 18 && auth.lookup(p[1..17]).Some? && BecomesHeader(p)
    ensures ParseHeader(auth, p).Fail? ==> ParseHeader(auth, p).reason.BlockedDomain?
  {
    if ParseHeader(auth, p).Fail? {
      var h: Header :| h.Valid() && p <= h.Bytes();
      hide ParseHeader;
      StartsWithUuid(h);
      assert p[1..17] == h.Bytes()[1..17];
      VerdictHolds(auth, h, p);
    }
  }

  lemma StartsWithUuid(h: Header)
    requires h.Valid()
    ensures |h.Bytes()| >= 18 && h.Bytes()[1..17] == h.uuid
  {
  }

  /** What was answered before the header was whole is the answer. */
  lemma VerdictHolds(auth: Auth, h: Header, p: bytes)
    requires h.Valid() && p <= h.Bytes() && !ParseHeader(auth, p).Need?
    ensures ParseHeader(auth, p) == h.Verdict(auth)
  {
    hide *;
    var more := h.Bytes()[|p|..];
    assert p + more == h.Bytes() + [] == h.Bytes();
    ParseStable(auth, p, more);
    ParseReadsHeader(auth, h, []);
  }

  /**
   More bytes are asked for exactly while the fixed part is not there, or while what there is, from a known
   user, is short of a whole header and could still become one.
   */
  lemma NeedMeansIncomplete(auth: Auth, p: bytes)
    ensures ParseHeader(auth, p).Need? <==>
            |p| < 18 || (auth.lookup(p[1..17]).Some? && BecomesHeader(p) && !BeginsHeader(p))
  {
    if |p| >= 18 && auth.lookup(p[1..17]).Some? {
      OpenParses(auth, p);
      hide ParseHeader, BeginsHeader, BecomesHeader;
      if ParseHeader(auth, p).Need? {
        NeededBecomes(p);
        if BeginsHeader(p) { BegunIsDecided(auth, p); }
      } else if BecomesHeader(p) {
        RefusedStaysRefused(auth, p);
        AcceptedBegins(OPEN, p);
      }
    }
  }
}
