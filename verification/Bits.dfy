/** Exclusive or of bytes, bit by bit. */
module Bits {
  import opened Bytes

  function Xor(a: byte, b: byte): byte {
    ((a as bv8) ^ (b as bv8)) as int
  }

  lemma BitsTwice(x: bv8, y: bv8)
    ensures (x ^ y) ^ y == x && (x as int) as bv8 == x
  {
  }

  lemma NextBits(x: bv8)
    requires x != 255
    ensures (x + 1) as int == x as int + 1
  {
  }

  /** Every byte is the value of eight bits. */
  lemma {:induction false} BitsOf(a: byte) returns (x: bv8)
    ensures x as int == a
    decreases a
  {
    if a == 0 {
      x := 0;
    } else {
      x := BitsOf(a - 1);
      assert x != 255;
      NextBits(x);
      x := x + 1;
    }
  }

  lemma ByteOfBits(a: byte)
    ensures (a as bv8) as int == a
  {
    var x := BitsOf(a);
    BitsTwice(x, x);
  }

  lemma XorTwice(a: byte, b: byte)
    ensures Xor(Xor(a, b), b) == a
  {
    BitsTwice(a as bv8, b as bv8);
    BitsTwice((a as bv8) ^ (b as bv8), b as bv8);
    ByteOfBits(a);
  }

  /** The bytes of the masked greeting of RFC 6455 section 5.7. */
  lemma HelloBytes()
    ensures Xor(0x7f, 0x37) == 72 && Xor(0x9f, 0xfa) == 101 && Xor(0x4d, 0x21) == 108
    ensures Xor(0x51, 0x3d) == 108 && Xor(0x58, 0x37) == 111
  {
  }
}
