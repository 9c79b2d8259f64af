/** Credentials as text and as the 16 bytes on the wire (src/node/users.js:40-44, src/vless.js:30-36). */
module Uuids {
  import opened Bytes
  import opened Options
  import opened Names

  /** What `trim` removes. */
  predicate IsSpace(c: char) {
    || c in " \t\n\r\U{000b}\U{000c}\U{00a0}\U{1680}\U{2028}\U{2029}\U{202f}\U{205f}\U{3000}\U{feff}"
    || '\U{2000}' <= c <= '\U{200a}'
  }

  function Trim(s: string): string {
    if s == "" then s
    else if IsSpace(s[0]) then Trim(s[1..])
    else if IsSpace(s[|s| - 1]) then Trim(s[..|s| - 1])
    else s
  }

  /** `s` with every `c` taken out. */
  function Without(s: string, c: char): string {
    if s == "" then "" else (if s[0] == c then "" else [s[0]]) + Without(s[1..], c)
  }

  predicate IsHexDigit(c: char) {
    '0' <= c <= '9' || 'a' <= c <= 'f' || 'A' <= c <= 'F'
  }

  function HexValue(c: char): (v: nat)
    requires IsHexDigit(c)
    ensures v < 16
  {
    if c <= '9' then (c - '0') as nat
    else if c <= 'F' then (c - 'A') as nat + 10
    else (c - 'a') as nat + 10
  }

  function PairValue(hi: char, lo: char): byte
    requires IsHexDigit(hi) && IsHexDigit(lo)
  {
    16 * HexValue(hi) + HexValue(lo)
  }

  ghost predicate IsHex(s: string) {
    forall i | 0 <= i < |s| :: IsHexDigit(s[i])
  }

  /** One byte, padded to two digits. */
  function HexPair(b: byte): string {
    var n := Numeral(b, 16);
    if |n| < 2 then "0" + n else n
  }

  function Hex(b: bytes): string {
    if b == [] then "" else HexPair(b[0]) + Hex(b[1..])
  }

  function Unhex(s: string): (b: bytes)
    requires IsHex(s)
    ensures |b| == |s| / 2
  {
    if |s| < 2 then [] else [PairValue(s[0], s[1])] + Unhex(s[2..])
  }

  /** The groups between the dashes. */
  function Groups(hex: string): seq<string>
    requires |hex| == 32
  {
    [hex[..8], hex[8..12], hex[12..16], hex[16..20], hex[20..]]
  }

  function FormatUuid(b: bytes): string
    requires |b| == 16
  {
    HexLength(b);
    Join(Groups(Hex(b)), "-")
  }

  method WriteUuid(b: bytes) returns (text: string)
    requires |b| == 16
    ensures text == FormatUuid(b)
  {
    hide Hex, HexPair, Numeral;
    var hex := "";
    assert b[0..] == b;
    for i := 0 to 16
      invariant hex + Hex(b[i..]) == Hex(b)
    {
      var pair := Padded(b[i]);
      HexStep(b, i);
      assert hex + (pair + Hex(b[i + 1..])) == hex + pair + Hex(b[i + 1..]);
      hex := hex + pair;
    }
    HexNothing(b[16..]);
    assert hex + [] == hex;
    HexLength(b);
    text := Join([hex[..8], hex[8..12], hex[12..16], hex[16..20], hex[20..]], "-");
  }

  method Padded(b: byte) returns (pair: string)
    ensures pair == HexPair(b)
  {
    pair := Numeral(b, 16);
    if |pair| < 2 { pair := "0" + pair; }
  }

  lemma HexStep(b: bytes, i: nat)
    requires i < |b|
    ensures Hex(b[i..]) == HexPair(b[i]) + Hex(b[i + 1..])
  {
    assert b[i..][1..] == b[i + 1..];
  }

  lemma HexNothing(b: bytes)
    requires b == []
    ensures Hex(b) == ""
  {
  }

  /** The 16 bytes a text names: dashes and surrounding space do not matter; None where the code throws. */
  function UuidToBytes(text: string): (r: Option<bytes>)
    ensures r.Some? ==> |r.value| == 16
  {
    var hex := Trim(Without(text, '-'));
    if |hex| == 32 && (forall i | 0 <= i < |hex| :: IsHexDigit(hex[i])) then Some(Unhex(hex)) else None
  }

  method ReadUuid(text: string) returns (r: Option<bytes>)
    ensures r == UuidToBytes(text)
  {
    var hex := Trim(Without(text, '-'));
    hide Trim, Without, Unhex, IsHexDigit;
    if |hex| != 32 || !(forall i | 0 <= i < |hex| :: IsHexDigit(hex[i])) { return None; }
    var b := ReadHex(hex);
    return Some(b);
  }

  method ReadHex(hex: string) returns (b: bytes)
    requires IsHex(hex) && |hex| == 32
    ensures b == Unhex(hex)
  {
    hide Unhex, PairValue, HexValue, IsHexDigit;
    var out := new byte[16];
    var i := 0;
    assert hex[0..] == hex;
    while i < 16
      invariant 0 <= i <= 16
      invariant out[..i] + Unhex(hex[2 * i..]) == Unhex(hex)
    {
      UnhexStep(hex, i);
      ghost var done, more := out[..i], Unhex(hex[2 * i + 2..]);
      out[i] := PairValue(hex[2 * i], hex[2 * i + 1]);
      assert out[..i + 1] == done + [out[i]];
      assert done + ([out[i]] + more) == out[..i + 1] + more;
      i := i + 1;
    }
    return out[..];
  }

  lemma UnhexStep(hex: string, i: nat)
    requires IsHex(hex) && 2 * i + 2 <= |hex|
    ensures IsHexDigit(hex[2 * i]) && IsHexDigit(hex[2 * i + 1])
    ensures Unhex(hex[2 * i..]) == [PairValue(hex[2 * i], hex[2 * i + 1])] + Unhex(hex[2 * i + 2..])
  {
    assert hex[2 * i..][2..] == hex[2 * i + 2..];
  }

  // ----- the two are inverse -----

  lemma HexPairDigits(b: byte)
    ensures HexPair(b) == [Digit(b / 16), Digit(b % 16)]
  {
    if b >= 16 {
      assert Numeral(b / 16, 16) == [Digit(b / 16)];
      assert [Digit(b / 16)] + [Digit(b % 16)] == [Digit(b / 16), Digit(b % 16)];
    } else {
      assert "0" + [Digit(b)] == [Digit(0), Digit(b)];
    }
  }

  /** Byte `i` stands at digits 2i and 2i + 1, the high half first. */
  lemma {:induction false} HexAt(b: bytes, i: nat)
    requires i < |b|
    ensures |Hex(b)| == 2 * |b| && Hex(b)[2 * i] == Digit(b[i] / 16) && Hex(b)[2 * i + 1] == Digit(b[i] % 16)
    decreases |b|
  {
    hide HexPair, Digit;
    HexLength(b);
    HexPairDigits(b[0]);
    if i == 0 {
    } else {
      HexAt(b[1..], i - 1);
    }
  }

  /** The text of 16 bytes: their 32 digits in groups of 8, 4, 4, 4 and 12 with dashes between them. */
  lemma UuidIs(b: bytes)
    requires |b| == 16
    ensures |Hex(b)| == 32
    ensures var h := Hex(b);
            FormatUuid(b) == h[..8] + "-" + h[8..12] + "-" + h[12..16] + "-" + h[16..20] + "-" + h[20..]
  {
    HexLength(b);
    hide Hex;
    var h := Hex(b);
    JoinFive(h[..8], h[8..12], h[12..16], h[16..20], h[20..]);
  }

  lemma JoinFive(a: string, b: string, c: string, d: string, e: string)
    ensures Join([a, b, c, d, e], "-") == a + "-" + b + "-" + c + "-" + d + "-" + e
  {
    var de, cde, bcde, all := [d, e], [c, d, e], [b, c, d, e], [a, b, c, d, e];
    assert all[1..] == bcde && bcde[1..] == cde && cde[1..] == de && de[1..] == [e];
    assert Join([e], "-") == e && Join(de, "-") == d + "-" + Join([e], "-");
    assert Join(cde, "-") == c + "-" + Join(de, "-") && Join(bcde, "-") == b + "-" + Join(cde, "-");
    assert Join(all, "-") == a + "-" + Join(bcde, "-");
    hide Join;
  }

  lemma {:induction false} HexLength(b: bytes)
    ensures |Hex(b)| == 2 * |b|
    decreases |b|
  {
    if b == [] {
    } else {
      HexPairDigits(b[0]);
      HexLength(b[1..]);
    }
  }

  function Lowered(s: string): (r: string)
    ensures |r| == |s|
  {
    seq(|s|, i requires 0 <= i < |s| => if 'A' <= s[i] <= 'F' then s[i] + ('a' - 'A') else s[i])
  }

  lemma LoweredDigit(c: char, d: nat)
    requires d < 16
    ensures (if 'A' <= c <= 'F' then c + ('a' - 'A') else c) == Digit(d) <==> IsHexDigit(c) && HexValue(c) == d
  {
  }

  /** Digits name bytes exactly when, in lower case, they are what the bytes print as. */
  lemma {:induction false} UnhexIff(s: string, b: bytes)
    requires |s| == 2 * |b|
    ensures IsHex(s) && Unhex(s) == b <==> Lowered(s) == Hex(b)
    decreases |b|
  {
    HexLength(b);
    if b == [] {
      assert s == "";
    } else {
      UnhexIff(s[2..], b[1..]);
      TwoDigits(s, b);
      TwoPrinted(s, b);
      hide *;
    }
  }

  /** The first two characters are the digits of `b`. */
  ghost predicate Spells(s: string, b: byte) {
    && |s| >= 2
    && IsHexDigit(s[0]) && HexValue(s[0]) == b / 16
    && IsHexDigit(s[1]) && HexValue(s[1]) == b % 16
  }

  lemma TwoDigits(s: string, b: bytes)
    requires |s| == 2 * |b| > 0
    ensures IsHex(s) && Unhex(s) == b <==> Spells(s, b[0]) && IsHex(s[2..]) && Unhex(s[2..]) == b[1..]
  {
    var tail := s[2..];
    assert IsHex(s) <==> IsHexDigit(s[0]) && IsHexDigit(s[1]) && IsHex(tail) by {
      assert forall i | 0 <= i < |tail| :: s[i + 2] == tail[i];
      assert forall i | 2 <= i < |s| :: s[i] == tail[i - 2];
    }
    if IsHex(s) {
      var v := PairValue(s[0], s[1]);
      assert Unhex(s) == [v] + Unhex(tail);
      hide Unhex, IsHex, HexValue;
      assert b == [b[0]] + b[1..];
      assert [v] + Unhex(tail) == b <==> v == b[0] && Unhex(tail) == b[1..] by {
        assert ([v] + Unhex(tail))[1..] == Unhex(tail);
      }
    }
  }

  lemma TwoPrinted(s: string, b: bytes)
    requires |s| == 2 * |b| > 0
    ensures Lowered(s) == Hex(b) <==> Spells(s, b[0]) && Lowered(s[2..]) == Hex(b[1..])
  {
    var tail, more := s[2..], b[1..];
    HexPairDigits(b[0]);
    HexLength(b);
    LoweredDigit(s[0], b[0] / 16);
    LoweredDigit(s[1], b[0] % 16);
    assert Lowered(s)[2..] == Lowered(tail);
    assert Hex(b)[2..] == Hex(more);
    assert Hex(b)[..2] == [Digit(b[0] / 16), Digit(b[0] % 16)];
    assert Lowered(s)[..2] == [Lowered(s)[0], Lowered(s)[1]];
    assert Spells(s, b[0]) <==> Lowered(s)[0] == Digit(b[0] / 16) && Lowered(s)[1] == Digit(b[0] % 16);
    hide Hex, HexPair, Digit, Lowered, IsHexDigit, Spells;
    SplitEqual(Lowered(s), Hex(b), 2);
  }

  lemma SplitEqual(a: string, b: string, n: nat)
    requires n <= |a| == |b|
    ensures a == b <==> a[..n] == b[..n] && a[n..] == b[n..]
  {
    assert a == a[..n] + a[n..] && b == b[..n] + b[n..];
  }

  lemma {:induction false} WithoutAppend(a: string, b: string, c: char)
    ensures Without(a + b, c) == Without(a, c) + Without(b, c)
  {
    if a == "" {
      assert a + b == b;
    } else {
      assert (a + b)[1..] == a[1..] + b;
      WithoutAppend(a[1..], b, c);
    }
  }

  lemma {:induction false} WithoutNone(s: string, c: char)
    requires c !in s
    ensures Without(s, c) == s
  {
    if s == "" {
    } else {
      WithoutNone(s[1..], c);
    }
  }

  /**
   A text names 16 bytes exactly when its digits, without dashes and surrounding space and in lower
   case, are what the bytes print as; every other text is refused.
   */
  lemma ParsesIff(text: string, b: bytes)
    ensures UuidToBytes(text) == Some(b) <==> |b| == 16 && Lowered(Trim(Without(text, '-'))) == Hex(b)
  {
    var hex := Trim(Without(text, '-'));
    hide Trim, Without, Hex, Unhex, Lowered;
    HexLength(b);
    if |b| == 16 && |hex| == 32 { UnhexIff(hex, b); }
  }

  /** Digits in lower case. */
  ghost predicate Plain(s: string) {
    forall i | 0 <= i < |s| :: IsHexDigit(s[i]) && !('A' <= s[i] <= 'F')
  }

  lemma {:induction false} HexIsPlain(b: bytes)
    ensures Plain(Hex(b))
    decreases |b|
  {
    if b == [] {
    } else {
      HexPairIsPlain(b[0]);
      HexIsPlain(b[1..]);
      var head, tail := HexPair(b[0]), Hex(b[1..]);
      assert Hex(b) == head + tail;
      hide Hex, HexPair, IsHexDigit;
    }
  }

  lemma HexPairIsPlain(b: byte)
    ensures Plain(HexPair(b))
  {
    HexPairDigits(b);
    hide HexPair;
  }

  function Flat(parts: seq<string>): string {
    if parts == [] then "" else parts[0] + Flat(parts[1..])
  }

  lemma {:induction false} WithoutJoin(parts: seq<string>, c: char)
    requires forall i | 0 <= i < |parts| :: c !in parts[i]
    ensures Without(Join(parts, [c]), c) == Flat(parts)
    decreases |parts|
  {
    if parts == [] {
    } else {
      var head, rest := parts[0], parts[1..];
      if rest == [] {
        WithoutNone(head, c);
        assert Flat(parts) == head + "" == head;
      } else {
        assert forall i | 0 <= i < |rest| :: rest[i] == parts[i + 1];
        WithoutJoin(rest, c);
        assert Join(parts, [c]) == head + [c] + Join(rest, [c]);
        hide Join, Flat;
        WithoutHead(head, Join(rest, [c]), c);
      }
    }
  }

  lemma WithoutHead(head: string, rest: string, c: char)
    requires c !in head
    ensures Without(head + [c] + rest, c) == head + Without(rest, c)
  {
    WithoutNone(head, c);
    WithoutAppend(head + [c], rest, c);
    WithoutAppend(head, [c], c);
    assert Without([c], c) == "";
    hide Without;
    assert head + [] == head;
  }

  lemma GroupsFlat(hex: string)
    requires |hex| == 32
    ensures Flat(Groups(hex)) == hex
  {
    var g := Groups(hex);
    assert g[1..][1..] == g[2..] && g[2..][1..] == g[3..] && g[3..][1..] == g[4..] && g[4..][1..] == [];
    assert Flat(g) == g[0] + Flat(g[1..]) && Flat(g[1..]) == g[1] + Flat(g[2..]) && Flat(g[2..]) == g[2] + Flat(g[3..]);
    assert Flat(g[3..]) == g[3] + Flat(g[4..]) && Flat(g[4..]) == g[4] + "" == g[4];
  }

  lemma PlainText(hex: string)
    requires |hex| == 32 && Plain(hex)
    ensures Trim(hex) == hex == Lowered(hex)
    ensures forall i | 0 <= i < |Groups(hex)| :: '-' !in Groups(hex)[i]
  {
    assert IsHexDigit(hex[0]) && IsHexDigit(hex[31]);
  }

  /** Reading inverts printing for every credential. */
  lemma UuidRoundTrip(b: bytes)
    requires |b| == 16
    ensures UuidToBytes(FormatUuid(b)) == Some(b)
  {
    HexLength(b);
    HexIsPlain(b);
    PlainText(Hex(b));
    assert FormatUuid(b) == Join(Groups(Hex(b)), "-");
    hide *;
    WithoutJoin(Groups(Hex(b)), '-');
    GroupsFlat(Hex(b));
    ParsesIff(FormatUuid(b), b);
  }
}
