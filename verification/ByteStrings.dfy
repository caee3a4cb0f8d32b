/** Bytes as numbers, with the bit operations the frames need. */
module ByteStrings {
  type Byte = b: int | 0 <= b < 256
  type Bytes = seq<Byte>

  /** b & 0x80 != 0 */
  predicate HighBit(b: Byte) {
    b >= 0x80
  }

  /** b | 0x80 */
  function SetHighBit(b: Byte): Byte {
    if HighBit(b) then b else b + 0x80
  }

  /** b & 0x7F */
  function Low7(b: Byte): nat {
    b % 0x80
  }

  /** b & 0x0F */
  function Low4(b: Byte): Byte {
    b % 0x10
  }

  function Pow2(n: nat): nat {
    if n == 0 then 1 else 2 * Pow2(n - 1)
  }

  /** The exclusive or of the lowest `n` bits */
  function XorBits(a: nat, k: nat, n: nat): (x: nat)
    ensures x < Pow2(n)
  {
    if n == 0 then 0 else 2 * XorBits(a / 2, k / 2, n - 1) + (a + k) % 2
  }

  /** a ^ k */
  function Xor(a: Byte, k: Byte): Byte {
    EightBits();
    XorBits(a, k, 8)
  }

  lemma EightBits()
    ensures Pow2(8) == 256
  {
    assert Pow2(4) == 16;
  }

  lemma {:induction false} XorBitsTwice(a: nat, k: nat, n: nat)
    requires a < Pow2(n)
    ensures XorBits(XorBits(a, k, n), k, n) == a
  {
    hide XorBits;
    XorBitsStep(a, k, n);
    if n == 0 {
    } else {
      var x, high := XorBits(a, k, n), XorBits(a / 2, k / 2, n - 1);
      XorBitsTwice(a / 2, k / 2, n - 1);
      LowestBit(high, (a + k) % 2);
      XorBitsStep(x, k, n);
      AddedTwice(a, k, x);
      assert x / 2 == high;
    }
  }

  lemma XorBitsStep(a: nat, k: nat, n: nat)
    ensures XorBits(a, k, n) == if n == 0 then 0 else 2 * XorBits(a / 2, k / 2, n - 1) + (a + k) % 2
    ensures n == 0 ==> Pow2(n) == 1
  {
  }

  lemma LowestBit(high: nat, bit: nat)
    requires bit < 2
    ensures (2 * high + bit) / 2 == high && (2 * high + bit) % 2 == bit
  {
  }

  /** Adding a bit twice leaves the bit it was added to. */
  lemma AddedTwice(a: nat, k: nat, x: nat)
    requires x % 2 == (a + k) % 2
    ensures 2 * (a / 2) + (x + k) % 2 == a
  {
  }

  lemma XorTwice(a: Byte, k: Byte)
    ensures Xor(Xor(a, k), k) == a
  {
    EightBits();
    XorBitsTwice(a, k, 8);
  }
}
