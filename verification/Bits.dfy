/** Bytes, bit strings (lowest bit first), and the exclusive-or of natural numbers as Python has it. */
module Bits {

  type byte = x: int | 0 <= x < 256

  /** The low `n` bits of a number, lowest first. */
  function NumberBits(x: nat, n: nat): (bits: seq<bool>)
    ensures |bits| == n
  {
    if n == 0 then [] else [x % 2 == 1] + NumberBits(x / 2, n - 1)
  }

  function BitsNumber(bits: seq<bool>): nat {
    if bits == [] then 0 else (if bits[0] then 1 else 0) + 2 * BitsNumber(bits[1..])
  }

  function ByteBits(b: byte): (bits: seq<bool>)
    ensures |bits| == 8
  {
    NumberBits(b, 8)
  }

  function BytesBits(data: seq<byte>): (bits: seq<bool>)
    ensures |bits| == 8 * |data|
  {
    if data == [] then [] else ByteBits(data[0]) + BytesBits(data[1..])
  }

  function Pow2(n: nat): nat {
    if n == 0 then 1 else 2 * Pow2(n - 1)
  }

  lemma {:induction false} BitsNumberBound(bits: seq<bool>)
    ensures BitsNumber(bits) < Pow2(|bits|)
  {
    if bits != [] {
      BitsNumberBound(bits[1..]);
    }
  }

  lemma {:induction false} BitsOfNumber(bits: seq<bool>)
    ensures NumberBits(BitsNumber(bits), |bits|) == bits
  {
    if bits != [] {
      BitsOfNumber(bits[1..]);
      assert BitsNumber(bits) / 2 == BitsNumber(bits[1..]);
    }
  }

  lemma {:induction false} NumberOfBits(x: nat, n: nat)
    requires x < Pow2(n)
    ensures BitsNumber(NumberBits(x, n)) == x
  {
    if n > 0 {
      NumberOfBits(x / 2, n - 1);
      assert NumberBits(x, n)[1..] == NumberBits(x / 2, n - 1);
    }
  }

  lemma Associate(x: seq<bool>, y: seq<bool>, z: seq<bool>)
    ensures x + (y + z) == (x + y) + z
  {
  }

  lemma {:induction false} BytesBitsSplit(a: seq<byte>, b: seq<byte>)
    ensures BytesBits(a + b) == BytesBits(a) + BytesBits(b)
  {
    if a == [] {
      assert a + b == b;
    } else {
      calc {
        BytesBits(a + b);
        { assert (a + b)[1..] == a[1..] + b; }
        ByteBits(a[0]) + BytesBits(a[1..] + b);
        { BytesBitsSplit(a[1..], b); }
        ByteBits(a[0]) + (BytesBits(a[1..]) + BytesBits(b));
        { Associate(ByteBits(a[0]), BytesBits(a[1..]), BytesBits(b)); }
        BytesBits(a) + BytesBits(b);
      }
    }
  }

  function XorBits(a: seq<bool>, b: seq<bool>): (c: seq<bool>)
    requires |a| == |b|
    ensures |c| == |a| && forall i :: 0 <= i < |a| ==> c[i] == (a[i] != b[i])
  {
    seq(|a|, i requires 0 <= i < |a| => a[i] != b[i])
  }

  lemma DoubleProduct(p: nat, n: nat)
    ensures 2 * p * n == 2 * (p * n)
  {
  }

  lemma {:induction false} BitsNumberSplit(x: seq<bool>, y: seq<bool>)
    ensures BitsNumber(x + y) == BitsNumber(x) + Pow2(|x|) * BitsNumber(y)
  {
    if x == [] {
      assert x + y == y;
    } else {
      BitsNumberSplit(x[1..], y);
      assert (x + y)[1..] == x[1..] + y;
      DoubleProduct(Pow2(|x| - 1), BitsNumber(y));
    }
  }

  lemma {:induction false} BitsNumberZero(bits: seq<bool>)
    requires BitsNumber(bits) == 0
    ensures forall i :: 0 <= i < |bits| ==> !bits[i]
  {
    if bits != [] {
      BitsNumberZero(bits[1..]);
    }
  }

  // ---- exclusive or ----

  /** `a ^ b` on natural numbers. */
  function Xor(a: nat, b: nat): nat {
    if a == 0 then b
    else if b == 0 then a
    else (if a % 2 != b % 2 then 1 else 0) + 2 * Xor(a / 2, b / 2)
  }

  lemma Halve(bit: nat, rest: nat)
    requires bit < 2
    ensures (bit + 2 * rest) % 2 == bit && (bit + 2 * rest) / 2 == rest
  {
  }

  lemma XorStep(a: nat, b: nat)
    ensures Xor(a, b) % 2 == (if a % 2 != b % 2 then 1 else 0)
    ensures Xor(a, b) / 2 == Xor(a / 2, b / 2)
  {
    if a != 0 && b != 0 {
      Halve(if a % 2 != b % 2 then 1 else 0, Xor(a / 2, b / 2));
    }
  }

  lemma {:induction false} XorCommutes(a: nat, b: nat)
    ensures Xor(a, b) == Xor(b, a)
  {
    if a != 0 && b != 0 {
      XorCommutes(a / 2, b / 2);
    }
  }

  /** Numbers are determined by their lowest bit and the rest. */
  lemma SameHalves(a: nat, b: nat)
    requires a % 2 == b % 2 && a / 2 == b / 2
    ensures a == b
  {
  }

  lemma {:induction false} XorAssociates(a: nat, b: nat, c: nat)
    ensures Xor(Xor(a, b), c) == Xor(a, Xor(b, c))
    decreases a + b + c
  {
    if a != 0 && b != 0 && c != 0 {
      XorAssociates(a / 2, b / 2, c / 2);
      XorStep(a, b);
      XorStep(b, c);
      XorStep(Xor(a, b), c);
      XorStep(a, Xor(b, c));
      SameHalves(Xor(Xor(a, b), c), Xor(a, Xor(b, c)));
    }
  }

  lemma {:induction false} XorIsZero(a: nat, b: nat)
    ensures Xor(a, b) == 0 <==> a == b
  {
    if a != 0 && b != 0 {
      XorIsZero(a / 2, b / 2);
      XorStep(a, b);
    }
  }

  lemma {:induction false} XorSwap(a: nat, b: nat, c: nat, d: nat)
    ensures Xor(Xor(a, b), Xor(c, d)) == Xor(Xor(a, c), Xor(b, d))
  {
    XorAssociates(a, b, Xor(c, d));
    XorAssociates(b, c, d);
    XorCommutes(b, c);
    XorAssociates(c, b, d);
    XorAssociates(a, c, Xor(b, d));
  }

  lemma {:induction false} XorBound(a: nat, b: nat, n: nat)
    requires a < Pow2(n) && b < Pow2(n)
    ensures Xor(a, b) < Pow2(n)
  {
    if a != 0 && b != 0 {
      XorBound(a / 2, b / 2, n - 1);
    }
  }

  // ---- parity ----

  /** Whether an odd number of bits is set. */
  predicate OddOnes(x: nat) {
    x != 0 && ((x % 2 == 1) != OddOnes(x / 2))
  }

  predicate OddTrue(bits: seq<bool>) {
    bits != [] && (bits[0] != OddTrue(bits[1..]))
  }

  lemma {:induction false} OddOfXor(a: nat, b: nat)
    ensures OddOnes(Xor(a, b)) == (OddOnes(a) != OddOnes(b))
  {
    if a != 0 && b != 0 {
      OddOfXor(a / 2, b / 2);
      XorStep(a, b);
    }
  }

  lemma {:induction false} OddOfXorBits(a: seq<bool>, b: seq<bool>)
    requires |a| == |b|
    ensures OddTrue(XorBits(a, b)) == (OddTrue(a) != OddTrue(b))
  {
    if a != [] {
      OddOfXorBits(a[1..], b[1..]);
      assert XorBits(a, b)[1..] == XorBits(a[1..], b[1..]);
    }
  }
}
