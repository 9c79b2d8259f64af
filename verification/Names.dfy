/** Host names and numbers as the parsers print them. */
module Names {
  import opened Bytes

  function Digit(d: nat): char
    requires d < 16
  {
    "0123456789abcdef"[d]
  }

  /** `n.toString(base)` */
  function Numeral(n: nat, base: nat): (s: string)
    requires 2 <= base <= 16
    ensures s != []
    decreases n
  {
    if n < base then [Digit(n)] else Numeral(n / base, base) + [Digit(n % base)]
  }

  function Join(parts: seq<string>, sep: string): string {
    if parts == [] then "" else if |parts| == 1 then parts[0] else parts[0] + sep + Join(parts[1..], sep)
  }

  function DottedQuad(b: bytes): string {
    Join(seq(|b|, i requires 0 <= i < |b| => Numeral(b[i], 10)), ".")
  }

  function HexGroups(b: bytes): string {
    Join(seq(|b| / 2, i requires 0 <= i < |b| / 2 => Numeral(U16(b[2 * i], b[2 * i + 1]), 16)), ":")
  }

  /** The text machinery of the JavaScript runtime, which the model leaves open. */
  datatype Text = Text(decode: bytes -> string, lower: string -> string)

  const BLOCKED_DOMAINS: seq<string> := [
    "speedtest.net", "fast.com", "speedtest.cn", "speed.cloudflare.com", "speedof.me",
    "testmy.net", "bandwidth.place", "speed.io", "librespeed.org", "speedcheck.org"]

  predicate EndsWith(s: string, suffix: string) {
    |suffix| <= |s| && s[|s| - |suffix|..] == suffix
  }

  /** A blocked domain or any name under one. */
  predicate IsBlocked(text: Text, host: string) {
    && host != ""
    && exists d <- BLOCKED_DOMAINS :: text.lower(host) == d || EndsWith(text.lower(host), "." + d)
  }

  // ----- splitting -----

  /** `s.split(c)` */
  function Split(s: string, c: char): (parts: seq<string>)
    ensures parts != [] && forall p <- parts :: c !in p
    ensures Join(parts, [c]) == s
  {
    if s == "" then [""]
    else
      var rest := Split(s[1..], c);
      if s[0] == c then [""] + rest
      else
        assert ([[s[0]] + rest[0]] + rest[1..])[1..] == rest[1..];
        [[s[0]] + rest[0]] + rest[1..]
  }

  /** Parts without the separator come back from their join. */
  lemma {:induction false} SplitJoin(parts: seq<string>, c: char)
    requires parts != [] && forall p <- parts :: c !in p
    ensures Split(Join(parts, [c]), c) == parts
    decreases |parts|
  {
    if |parts| == 1 {
      SplitFirst(parts[0], "", c);
      assert parts[0] + "" == parts[0];
      assert [parts[0] + ""] + Split("", c)[1..] == parts;
    } else {
      var rest := Join(parts[1..], [c]);
      assert Join(parts, [c]) == parts[0] + [c] + rest;
      hide Join;
      SplitJoin(parts[1..], c);
      SplitBehind(parts[0], rest, c);
      hide Split;
      assert [parts[0]] + parts[1..] == parts;
    }
  }

  lemma SplitBehind(head: string, rest: string, c: char)
    requires c !in head
    ensures Split(head + [c] + rest, c) == [head] + Split(rest, c)
  {
    SplitHere(rest, c);
    hide Split;
    SplitFirst(head, [c] + rest, c);
    assert head + [c] + rest == head + ([c] + rest);
    assert head + "" == head && ([""] + Split(rest, c))[1..] == Split(rest, c);
  }

  lemma SplitHere(rest: string, c: char)
    ensures Split([c] + rest, c) == [""] + Split(rest, c)
  {
    assert ([c] + rest)[1..] == rest && ([c] + rest)[0] == c;
  }

  /** Characters that are not the separator go to the first part. */
  lemma {:induction false} SplitFirst(head: string, rest: string, c: char)
    requires c !in head
    ensures Split(head + rest, c) == [head + Split(rest, c)[0]] + Split(rest, c)[1..]
  {
    if head == "" {
      assert head + rest == rest;
      assert "" + Split(rest, c)[0] == Split(rest, c)[0];
    } else {
      assert (head + rest)[1..] == head[1..] + rest && (head + rest)[0] == head[0] != c;
      SplitFirst(head[1..], rest, c);
      var tail := Split(head[1..] + rest, c);
      assert Split(head + rest, c) == [[head[0]] + tail[0]] + tail[1..];
      assert [head[0]] + (head[1..] + Split(rest, c)[0]) == head + Split(rest, c)[0];
    }
  }

  // ----- reading what is printed -----

  /** The value of a digit; anything that is none has the value 16. */
  function DigitValue(c: char): nat {
    if '0' <= c <= '9' then (c - '0') as nat
    else if 'a' <= c <= 'f' then 10 + (c - 'a') as nat
    else 16
  }

  /** The number a row of digits stands for, the first one counting most. */
  function Reading(s: string, base: nat): nat {
    if s == "" then 0 else Reading(s[..|s| - 1], base) * base + DigitValue(s[|s| - 1])
  }

  /** The digits of a number, in lower case and without leading zeros. */
  ghost predicate Spells(s: string, base: nat, n: nat) {
    && s != "" && (|s| > 1 ==> s[0] != '0') && Reading(s, base) == n
    && forall c <- s :: DigitValue(c) < base
  }

  lemma DigitReads(d: nat)
    requires d < 16
    ensures DigitValue(Digit(d)) == d && (Digit(d) == '0' <==> d == 0)
  {
  }

  lemma ReadingSnoc(s: string, c: char, base: nat)
    ensures Reading(s + [c], base) == Reading(s, base) * base + DigitValue(c)
  {
    assert (s + [c])[..|s|] == s;
  }

  /** A numeral spells its number. */
  lemma {:induction false} NumeralSpells(n: nat, base: nat)
    requires 2 <= base <= 16
    ensures Spells(Numeral(n, base), base, n)
    ensures n > 0 ==> Numeral(n, base)[0] != '0'
    decreases n
  {
    hide Digit, DigitValue, Reading, Spells;
    if n < base {
      OneSpells(n, base);
    } else {
      var q, d := n / base, n % base;
      Division(n, base);
      assert Numeral(n, base) == Numeral(q, base) + [Digit(d)];
      hide *;
      NumeralSpells(q, base);
      DigitReads(d);
      MoreSpells(Numeral(q, base), Digit(d), base, q, d);
    }
  }

  lemma Division(n: nat, base: nat)
    requires 2 <= base <= n
    ensures 0 < n / base < n && n / base * base + n % base == n
  {
  }

  lemma OneSpells(n: nat, base: nat)
    requires n < base <= 16
    ensures Spells([Digit(n)], base, n) && (n > 0 ==> Digit(n) != '0')
  {
    DigitReads(n);
    ReadingOne(Digit(n), base);
    hide Digit, DigitValue, Reading;
  }

  lemma MoreSpells(front: string, last: char, base: nat, n: nat, d: nat)
    requires Spells(front, base, n) && front[0] != '0' && DigitValue(last) == d < base
    ensures Spells(front + [last], base, n * base + d)
  {
    ReadingSnoc(front, last, base);
    hide DigitValue, Reading;
  }

  lemma ReadingOne(c: char, base: nat)
    ensures Reading([c], base) == DigitValue(c)
  {
    assert [c][..0] == "" && Reading("", base) == 0;
  }

  /** The text of numbers with a separator between them. */
  ghost predicate SpellsAll(s: string, sep: char, base: nat, numbers: seq<nat>) {
    var parts := Split(s, sep);
    |parts| == |numbers| && forall i | 0 <= i < |parts| :: Spells(parts[i], base, numbers[i])
  }

  /** Four numbers with dots between them, the first byte first. */
  lemma QuadSpells(b: bytes)
    requires |b| == 4
    ensures SpellsAll(DottedQuad(b), '.', 10, [b[0], b[1], b[2], b[3]])
  {
    var parts := seq(4, i requires 0 <= i < 4 => Numeral(b[i], 10));
    assert parts == seq(|b|, i requires 0 <= i < |b| => Numeral(b[i], 10));
    NumeralsSpell(parts, '.', 10, [b[0], b[1], b[2], b[3]]);
  }

  /** The 16-bit fields of an address, each its high byte first. */
  function Fields(b: bytes): seq<nat> {
    seq(|b| / 2, i requires 0 <= i < |b| / 2 => b[2 * i] as int * 256 + b[2 * i + 1])
  }

  /** Eight groups with colons between them, in base 16, the first field first. */
  lemma GroupsSpell(b: bytes)
    requires |b| == 16
    ensures SpellsAll(HexGroups(b), ':', 16, Fields(b))
  {
    var parts := seq(|b| / 2, i requires 0 <= i < |b| / 2 => Numeral(U16(b[2 * i], b[2 * i + 1]), 16));
    NumeralsSpell(parts, ':', 16, Fields(b));
  }

  lemma NumeralsSpell(parts: seq<string>, sep: char, base: nat, numbers: seq<nat>)
    requires 2 <= base <= 16 && sep !in "0123456789abcdef"
    requires parts != [] && |parts| == |numbers|
    requires forall i | 0 <= i < |parts| :: parts[i] == Numeral(numbers[i], base)
    ensures SpellsAll(Join(parts, [sep]), sep, base, numbers)
  {
    forall i | 0 <= i < |parts|
      ensures Spells(parts[i], base, numbers[i]) && sep !in parts[i]
    {
      NumeralSpells(numbers[i], base);
      NumeralDigits(numbers[i], base);
    }
    SplitJoin(parts, sep);
    hide Spells, Split, Join, Numeral;
  }

  /** A name is a domain or a name under it. */
  ghost predicate BelongsTo(name: string, domain: string) {
    name == domain || exists front: string :: name == front + "." + domain
  }

  /** A host is blocked exactly when, in lower case, it belongs to a blocked domain. */
  lemma BlockedIff(text: Text, host: string)
    ensures IsBlocked(text, host) <==>
            host != "" && exists d <- BLOCKED_DOMAINS :: BelongsTo(text.lower(host), d)
  {
    forall d <- BLOCKED_DOMAINS
      ensures BelongsTo(text.lower(host), d) <==> text.lower(host) == d || EndsWith(text.lower(host), "." + d)
    {
      SuffixIff(text.lower(host), d);
    }
    hide BelongsTo, EndsWith;
  }

  lemma SuffixIff(name: string, domain: string)
    ensures EndsWith(name, "." + domain) <==> exists front: string :: name == front + "." + domain
  {
    if EndsWith(name, "." + domain) {
      assert name == name[..|name| - |"." + domain|] + "." + domain;
    }
    forall front: string | name == front + "." + domain
      ensures EndsWith(name, "." + domain)
    {
      assert name == front + ("." + domain);
    }
  }

  /** Numerals hold digits only. */
  lemma {:induction false} NumeralDigits(n: nat, base: nat)
    requires 2 <= base <= 16
    ensures forall c <- Numeral(n, base) :: c in "0123456789abcdef"
    decreases n
  {
    if n < base {
    } else {
      NumeralDigits(n / base, base);
    }
  }
}
