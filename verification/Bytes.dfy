/** Byte strings and the 16-bit and 32-bit big-endian fields every wire format here is built from. */
module Bytes {
  type byte = b: int | 0 <= b < 256
  type bytes = seq<byte>

  function U16(hi: byte, lo: byte): (n: nat)
    ensures n < 65536
  {
    hi * 256 + lo
  }

  function Be16(n: nat): (b: bytes)
    ensures |b| == 2
  {
    [n / 256 % 256, n % 256]
  }

  function U32(a: byte, b: byte, c: byte, d: byte): nat {
    a * 16777216 + b * 65536 + c * 256 + d
  }

  function Be32(n: nat): (b: bytes)
    ensures |b| == 4
  {
    [n / 16777216 % 256, n / 65536 % 256, n / 256 % 256, n % 256]
  }

  /** A 16-bit field holds the number truncated to 16 bits, high byte first, and reads back as that. */
  lemma ReadBe16(n: nat)
    ensures Be16(n)[0] as int * 256 + Be16(n)[1] == n % 65536
    ensures U16(Be16(n)[0], Be16(n)[1]) == n % 65536
  {
    assert n / 256 / 256 == n / 65536;
  }

  lemma ReadBe32(n: nat)
    ensures Be32(n)[0] as int * 16777216 + Be32(n)[1] as int * 65536 + Be32(n)[2] as int * 256 + Be32(n)[3]
            == n % 0x1_0000_0000
    ensures U32(Be32(n)[0], Be32(n)[1], Be32(n)[2], Be32(n)[3]) == n % 0x1_0000_0000
  {
    var a, b, c := n / 256, n / 65536, n / 16777216;
    assert b == a / 256 && c == b / 256 && n / 0x1_0000_0000 == c / 256;
  }

  /** Every 16-bit field value is the encoding of the number it reads as. */
  lemma WriteU16(hi: byte, lo: byte)
    ensures Be16(U16(hi, lo)) == [hi, lo]
  {
    assert (hi * 256 + lo) / 256 == hi;
  }

  function Concat(parts: seq<bytes>): bytes {
    if parts == [] then [] else parts[0] + Concat(parts[1..])
  }

  lemma {:induction false} ConcatAppend(a: seq<bytes>, b: seq<bytes>)
    ensures Concat(a + b) == Concat(a) + Concat(b)
  {
    if a == [] {
      assert a + b == b;
    } else {
      assert (a + b)[1..] == a[1..] + b;
      ConcatAppend(a[1..], b);
    }
  }

  lemma ConcatHead(parts: seq<bytes>, p: nat)
    requires p < |parts|
    ensures Concat(parts[p..]) == parts[p] + Concat(parts[p + 1..])
  {
    assert parts[p..][1..] == parts[p + 1..];
  }

  lemma ConcatOne(part: bytes)
    ensures Concat([part]) == part
  {
    assert [part][1..] == [];
  }

  lemma ConcatSnoc(parts: seq<bytes>, last: bytes)
    ensures Concat(parts + [last]) == Concat(parts) + last
  {
    ConcatAppend(parts, [last]);
    ConcatOne(last);
  }

  function Min(a: int, b: int): (m: int)
    ensures m <= a && m <= b && (m == a || m == b)
  {
    if a < b then a else b
  }

  /** `out.set(src, offset)`: overwrite part of a buffer, leaving the rest alone. */
  method Put(out: array<byte>, src: bytes, offset: nat)
    requires offset + |src| <= out.Length
    modifies out
    ensures out[..offset + |src|] == old(out[..offset]) + src
    ensures out[offset + |src|..] == old(out[offset + |src|..])
  {
    forall i | 0 <= i < |src| {
      out[offset + i] := src[i];
    }
  }
}
