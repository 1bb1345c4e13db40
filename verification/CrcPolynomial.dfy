/** What the CRC is, with no register in sight: the remainder of the message, as a polynomial with coefficients
    0 and 1, on division by x^16 + x^15 + x^2 + 1. */
module CrcPolynomial {
  import opened Bits
  import opened Crc

  /** The coefficients of a polynomial, the highest first. */
  type Polynomial = seq<bool>

  function Zeros(n: nat): (z: Polynomial)
    ensures |z| == n && forall i :: 0 <= i < n ==> !z[i]
  {
    seq(n, _ => false)
  }

  /** x^16 + x^15 + x^2 + 1. */
  function Generator(): (g: Polynomial)
    ensures |g| == 17
    ensures forall i :: 0 <= i < 17 ==> (g[i] <==> 16 - i == 16 || 16 - i == 15 || 16 - i == 2 || 16 - i == 0)
  {
    seq(17, i => i == 0 || i == 1 || i == 14 || i == 16)
  }

  /** The product, one partial product for each coefficient of `q`. */
  function Times(q: Polynomial, g: Polynomial): (p: Polynomial)
    requires g != []
    ensures |p| == |q| + |g| - 1
  {
    if q == [] then Zeros(|g| - 1)
    else XorBits((if q[0] then g else Zeros(|g|)) + Zeros(|q| - 1), [false] + Times(q[1..], g))
  }

  /** `p` leaves `r` on division by the generator. */
  ghost predicate Leaves(p: Polynomial, r: Polynomial) {
    |r| == 16 && exists q: Polynomial :: |q| + 16 == |p| && Divides(p, q, r)
  }

  ghost predicate Divides(p: Polynomial, q: Polynomial, r: Polynomial)
    requires |q| + 16 == |p| && |r| == 16
  {
    p == XorBits(Times(q, Generator()), Zeros(|q|) + r)
  }

  /** What is divided: the bits in the order they are sent, lowest of each byte first, then sixteen zeros, with
      the first sixteen of all these complemented. */
  function Dividend(data: seq<byte>): (p: Polynomial)
    ensures |p| == 8 * |data| + 16
  {
    var bits := BytesBits(data) + Zeros(16);
    seq(|bits|, i requires 0 <= i < |bits| => if i < 16 then !bits[i] else bits[i])
  }

  /** The lowest place of the register holds the coefficient of x^15. */
  function Coefficients(crc: nat): (p: Polynomial)
    ensures |p| == 16
  {
    NumberBits(crc, 16)
  }

  /** The CRC of a message is its remainder, and the only one. */
  lemma CrcIsTheRemainder(data: seq<byte>, crc: nat)
    requires crc < 0x10000
    ensures Leaves(Dividend(data), Coefficients(crc)) <==> crc == CrcOf(data)
  {
    var bits := BytesBits(data);
    InitialIsOnes();
    assert Dividend(data) == Pending(INITIAL, bits);
    FeedInRange(INITIAL, bits);
    var c := CrcOf(data);
    var q := Quotient(INITIAL, bits);
    FeedDivides(INITIAL, bits);
    assert Divides(Dividend(data), q, Coefficients(c));
    if Leaves(Dividend(data), Coefficients(crc)) {
      var other: Polynomial :| |other| + 16 == |Dividend(data)| && Divides(Dividend(data), other, Coefficients(crc));
      RemainderIsUnique(Dividend(data), q, other, Coefficients(c), Coefficients(crc));
      WordSize();
      NumberOfBits(c, 16);
      NumberOfBits(crc, 16);
    }
  }

  /** Every polynomial of at least sixteen coefficients leaves at most one remainder. */
  lemma {:induction false} RemainderIsUnique(
      p: Polynomial, q: Polynomial, other: Polynomial, r: Polynomial, s: Polynomial)
    requires |q| == |other| && |q| + 16 == |p| && |r| == |s| == 16
    requires Divides(p, q, r) && Divides(p, other, s)
    ensures q == other && r == s
    decreases |q|
  {
    var g := Generator();
    if q == [] {
      forall i | 0 <= i < 16 ensures r[i] == s[i] {
        assert p[i] == (Times(q, g)[i] != (Zeros(0) + r)[i]);
        assert p[i] == (Times(other, g)[i] != (Zeros(0) + s)[i]);
      }
    } else {
      LeadingCoefficient(p, q, r);
      LeadingCoefficient(p, other, s);
      RemainderIsUnique(Reduced(p), q[1..], other[1..], r, s);
      assert q == [q[0]] + q[1..] && other == [other[0]] + other[1..];
    }
  }

  /** One step of long division: a leading 1 is cancelled with the generator, and the place is dropped. */
  function Reduced(p: Polynomial): (r: Polynomial)
    requires |p| >= 17
    ensures |r| == |p| - 1
  {
    XorBits(p, (if p[0] then Generator() else Zeros(17)) + Zeros(|p| - 17))[1..]
  }

  lemma LeadingCoefficient(p: Polynomial, q: Polynomial, r: Polynomial)
    requires |q| + 16 == |p| && |r| == 16 && q != []
    ensures Divides(p, q, r) <==> q[0] == p[0] && Divides(Reduced(p), q[1..], r)
  {
    var g := Generator();
    var lead, rest := if q[0] then g else Zeros(17), Times(q[1..], g);
    var z, y := Zeros(|q|) + r, Zeros(|q| - 1) + r;
    assert z == [false] + y;
    var x := XorBits(lead + Zeros(|q| - 1), [false] + rest);
    assert Times(q, g) == x;
    assert XorBits(x, z)[0] == q[0];
    forall i | 0 < i < |p|
      ensures XorBits(x, z)[i] == ((lead + Zeros(|q| - 1))[i] != XorBits(rest, y)[i - 1])
    {
      assert z[i] == y[i - 1] && ([false] + rest)[i] == rest[i - 1];
    }
    var t := XorBits(p, lead + Zeros(|q| - 1));
    assert p == XorBits(x, z) <==> p[0] == q[0] && t[1..] == XorBits(rest, y) by {
      if p[0] == q[0] && t[1..] == XorBits(rest, y) {
        forall i | 0 < i < |p| ensures p[i] == XorBits(x, z)[i] {
          assert t[i] == t[1..][i - 1];
        }
        assert p == XorBits(x, z);
      }
    }
  }

  // ---- the register divides ----

  /** What is still to be divided: the register over the bits that have not been fed. */
  function Pending(c: nat, bits: seq<bool>): (p: Polynomial)
    ensures |p| == |bits| + 16
  {
    XorBits(Coefficients(c) + Zeros(|bits|), bits + Zeros(16))
  }

  function Quotient(c: nat, bits: seq<bool>): (q: Polynomial)
    ensures |q| == |bits|
    decreases |bits|
  {
    if bits == [] then []
    else [(c % 2 == 1) != bits[0]] + Quotient(Shift(Xor(c, BitNumber(bits[0]))), bits[1..])
  }

  /** Feeding a bit is one step of long division. */
  lemma FeedReduces(c: nat, bits: seq<bool>)
    requires bits != [] && c < 0x10000
    ensures Pending(c, bits)[0] == ((c % 2 == 1) != bits[0])
    ensures Reduced(Pending(c, bits)) == Pending(Shift(Xor(c, BitNumber(bits[0]))), bits[1..])
  {
    var p := Pending(c, bits);
    var d := Shift(Xor(c, BitNumber(bits[0])));
    var odd := (c % 2 == 1) != bits[0];
    var lead := (if odd then Generator() else Zeros(17)) + Zeros(|p| - 17);
    var next := Pending(d, bits[1..]);
    forall i | 0 <= i < |next| ensures Reduced(p)[i] == next[i] {
      assert Reduced(p)[i] == (p[i + 1] != lead[i + 1]);
      assert p[i + 1] == ((Coefficients(c) + Zeros(|bits|))[i + 1] != (bits + Zeros(16))[i + 1]);
      assert (bits + Zeros(16))[i + 1] == (bits[1..] + Zeros(16))[i];
      assert next[i] == ((Coefficients(d) + Zeros(|bits| - 1))[i] != (bits[1..] + Zeros(16))[i]);
      if i < 16 {
        assert lead[i + 1] == (odd && Generator()[i + 1]);
        assert (Coefficients(d) + Zeros(|bits| - 1))[i] == Coefficients(d)[i];
        assert (Coefficients(c) + Zeros(|bits|))[i + 1] == (i < 15 && Coefficients(c)[i + 1]);
        ShiftedCoefficients(c, bits[0], i);
        assert p[i + 1] == ((i < 15 && Coefficients(c)[i + 1]) != (bits[1..] + Zeros(16))[i]);
        assert Reduced(p)[i] == next[i];
      } else {
        assert !lead[i + 1];
        assert !(Coefficients(d) + Zeros(|bits| - 1))[i];
        assert !(Coefficients(c) + Zeros(|bits|))[i + 1];
        assert Reduced(p)[i] == next[i];
      }
    }
    assert Reduced(p) == next;
  }

  lemma ShiftedCoefficients(c: nat, b: bool, i: nat)
    requires c < 0x10000 && i < 16
    ensures var odd := (c % 2 == 1) != b;
      Coefficients(Shift(Xor(c, BitNumber(b))))[i] ==
      ((i < 15 && Coefficients(c)[i + 1]) != (odd && Generator()[i + 1]))
  {
    hide NumberBits, Xor, Shift;
    ShiftMixed(c, b);
    HalfCoefficients(c);
    BitsOfXor(c / 2, POLYNOMIAL, 16);
    PolynomialIsTheGenerator();
  }

  lemma ShiftMixed(c: nat, b: bool)
    ensures Shift(Xor(c, BitNumber(b))) == if (c % 2 == 1) != b then Xor(c / 2, POLYNOMIAL) else c / 2
  {
    hide POLYNOMIAL;
    XorStep(c, BitNumber(b));
    assert Xor(c / 2, 0) == c / 2;
  }

  lemma HalfCoefficients(c: nat)
    requires c < 0x10000
    ensures Coefficients(c / 2) == Coefficients(c)[1..] + [false]
  {
    WordSize();
    TopPlace(c / 2, 15);
  }

  lemma {:induction false} TopPlace(x: nat, n: nat)
    requires x < Pow2(n)
    ensures NumberBits(x, n + 1) == NumberBits(x, n) + [false]
  {
    if n > 0 {
      TopPlace(x / 2, n - 1);
    }
  }

  lemma {:induction false} BitsOfXor(a: nat, b: nat, n: nat)
    ensures NumberBits(Xor(a, b), n) == XorBits(NumberBits(a, n), NumberBits(b, n))
  {
    if n > 0 {
      XorStep(a, b);
      BitsOfXor(a / 2, b / 2, n - 1);
    }
  }

  lemma {:induction false} LowZeros(x: nat, k: nat, n: nat)
    ensures NumberBits(Pow2(k) * x, k + n) == Zeros(k) + NumberBits(x, n)
  {
    if k == 0 {
      assert Zeros(0) + NumberBits(x, n) == NumberBits(x, n);
    } else {
      DoubleProduct(Pow2(k - 1), x);
      LowZeros(x, k - 1, n);
    }
  }

  lemma {:induction false} AllOnes(x: nat, n: nat)
    requires x + 1 == Pow2(n)
    ensures forall i :: 0 <= i < n ==> NumberBits(x, n)[i]
  {
    if n > 0 {
      AllOnes(x / 2, n - 1);
    }
  }

  /** The constant of the register is the generator without its leading term. */
  lemma PolynomialIsTheGenerator()
    ensures Coefficients(POLYNOMIAL) == Generator()[1..]
  {
    TermsOf(POLYNOMIAL);
  }

  lemma TermsOf(n: nat)
    requires n == 0xA001
    ensures Coefficients(n) == Generator()[1..]
  {
    HighTerms(n / 2);
    LowTerms(5);
    hide NumberBits;
    assert Generator()[1..] == [true] + (Zeros(12) + [true, false, true]);
    OddNumber(n, 16);
  }

  lemma OddNumber(n: nat, k: nat)
    requires n % 2 == 1 && k > 0
    ensures NumberBits(n, k) == [true] + NumberBits(n / 2, k - 1)
  {
  }

  lemma HighTerms(n: nat)
    requires n == 0x5000
    ensures NumberBits(n, 15) == Zeros(12) + NumberBits(5, 3)
  {
    assert Pow2(12) == 0x1000;
    hide NumberBits;
    LowZeros(5, 12, 3);
  }

  lemma LowTerms(n: nat)
    requires n == 5
    ensures NumberBits(n, 3) == [true, false, true]
  {
    assert NumberBits(n, 3) == [true] + NumberBits(n / 2, 2);
    assert NumberBits(n / 2, 2) == [false] + NumberBits(n / 2 / 2, 1);
    assert NumberBits(n / 2 / 2, 1) == [true] + NumberBits(0, 0);
  }

  lemma {:induction false} FeedDivides(c: nat, bits: seq<bool>)
    requires c < 0x10000
    ensures Divides(Pending(c, bits), Quotient(c, bits), Coefficients(Feed(c, bits)))
    decreases |bits|
  {
    if bits != [] {
      var d := Shift(Xor(c, BitNumber(bits[0])));
      XorWords(c, BitNumber(bits[0]));
      ShiftStaysInRange(Xor(c, BitNumber(bits[0])));
      FeedDivides(d, bits[1..]);
      FeedReduces(c, bits);
      LeadingCoefficient(Pending(c, bits), Quotient(c, bits), Coefficients(Feed(c, bits)));
      assert Quotient(c, bits)[1..] == Quotient(d, bits[1..]);
    }
  }

  lemma InitialIsOnes()
    ensures forall i :: 0 <= i < 16 ==> Coefficients(INITIAL)[i]
  {
    WordSize();
    AllOnes(INITIAL, 16);
  }

  // ---- known values ----

  lemma EvenXor(x: nat, y: nat)
    ensures Xor(x, 2 * y) == 2 * Xor(x / 2, y) + x % 2
  {
    hide Xor;
    XorStep(x, 2 * y);
    SameHalves(Xor(x, 2 * y), 2 * Xor(x / 2, y) + x % 2);
  }

  lemma FourXor(x: nat, y: nat)
    ensures Xor(x, 16 * y) == 16 * Xor(x / 16, y) + x % 16
  {
    hide Xor;
    EvenXor(x, 8 * y);
    EvenXor(x / 2, 4 * y);
    EvenXor(x / 4, 2 * y);
    EvenXor(x / 8, y);
    assert x / 2 / 2 == x / 4 && x / 4 / 2 == x / 8 && x / 8 / 2 == x / 16;
  }

  /** The register's shift in plain arithmetic: a lost 1 flips the places 0, 13 and 15. */
  predicate Next(c: nat, d: int) {
    var h := c / 2;
    d == if c % 2 == 0 then h
         else 0x8000 + (if h / 0x2000 == 0 || h / 0x2000 == 2 then h + 0x2000 else h - 0x2000)
                     + (if h % 2 == 1 then -1 else 1)
  }

  lemma XorFive(u: nat)
    requires u < 4
    ensures Xor(u, 5) == if u == 0 || u == 2 then u + 5 else u + 3
  {
    assert u == 0 || u == 1 || u == 2 || u == 3;
    assert Xor(0, 5) == 5 && Xor(1, 5) == 4 && Xor(2, 5) == 7 && Xor(3, 5) == 6;
  }

  lemma XorUpper(x: nat)
    requires x < 0x4000
    ensures Xor(x, 0x5000) == 0x1000 * (if x / 0x1000 == 0 || x / 0x1000 == 2 then 5 else 3) + x
  {
    hide Xor;
    FourXor(x, 0x500);
    FourXor(x / 0x10, 0x50);
    FourXor(x / 0x100, 5);
    assert x / 0x10 / 0x10 == x / 0x100 && x / 0x100 / 0x10 == x / 0x1000;
    XorFive(x / 0x1000);
  }

  lemma XorPolynomial(h: nat)
    requires h < 0x8000
    ensures Xor(h, POLYNOMIAL) / 2 == 0x1000 * (if h / 0x2000 == 0 || h / 0x2000 == 2 then 5 else 3) + h / 2
    ensures Xor(h, POLYNOMIAL) % 2 == 1 - h % 2
  {
    hide Xor;
    XorStep(h, POLYNOMIAL);
    XorUpper(h / 2);
  }

  lemma ShiftIsNext(c: nat, d: nat)
    requires c < 0x10000 && Next(c, d)
    ensures Shift(c) == d
  {
    hide Xor;
    if c % 2 == 1 {
      XorPolynomial(c / 2);
    }
  }

  lemma {:induction false} Shifts(c: nat, ds: seq<nat>)
    requires c < 0x10000 && ds != []
    requires Next(c, ds[0]) && forall i :: 0 <= i < |ds| - 1 ==> Next(ds[i], ds[i + 1])
    ensures ShiftN(c, |ds|) == ds[|ds| - 1]
    decreases |ds|
  {
    ShiftIsNext(c, ds[0]);
    ShiftStaysInRange(c);
    if |ds| > 1 {
      Shifts(ds[0], ds[1..]);
    }
  }

  lemma {:induction false} NextByte(data: seq<byte>, k: nat, mixed: nat, after: seq<nat>)
    requires k < |data| && mixed == Xor(CrcOf(data[..k]), data[k]) && |after| == 8
    requires Next(mixed, after[0]) && forall i :: 0 <= i < 7 ==> Next(after[i], after[i + 1])
    ensures CrcOf(data[..k + 1]) == after[7]
  {
    FeedInRange(INITIAL, BytesBits(data[..k]));
    XorWords(CrcOf(data[..k]), data[k]);
    Shifts(mixed, after);
    CrcSnoc(data, k);
    FeedByte(CrcOf(data[..k]), data[k]);
  }

  lemma NoByte(data: seq<byte>)
    ensures CrcOf(data[..0]) == 0xFFFF && data[..|data|] == data
  {
  }

  lemma {:induction false} TwoBytes()
    ensures CrcOf([0x02, 0x07]) == 0x1241
  {
    hide CrcOf;
    var data: seq<byte> := [0x02, 0x07];
    NoByte(data);
    NextByte(data, 0, 0xFFFD, [0xDFFF, 0xCFFE, 0x67FF, 0x93FE, 0x49FF, 0x84FE, 0x427F, 0x813E]);
    NextByte(data, 1, 0x8139, [0xE09D, 0xD04F, 0xC826, 0x6413, 0x9208, 0x4904, 0x2482, 0x1241]);
  }

  lemma {:induction false} FirstThree(data: seq<byte>)
    requires |data| >= 3 && data[0] == 0x01 && data[1] == 0x03 && data[2] == 0x00
    ensures CrcOf(data[..3]) == 0xF020
  {
    hide CrcOf;
    NoByte(data);
    NextByte(data, 0, 0xFFFE, [0x7FFF, 0x9FFE, 0x4FFF, 0x87FE, 0x43FF, 0x81FE, 0x40FF, 0x807E]);
    NextByte(data, 1, 0x807D, [0xE03F, 0xD01E, 0x680F, 0x9406, 0x4A03, 0x8500, 0x4280, 0x2140]);
    NextByte(data, 2, 0x2140, [0x10A0, 0x0850, 0x0428, 0x0214, 0x010A, 0x0085, 0xA043, 0xF020]);
  }

  lemma {:induction false} LastThree(data: seq<byte>)
    requires |data| == 6 && data[3] == 0x00 && data[4] == 0x00 && data[5] == 0x0A
    requires CrcOf(data[..3]) == 0xF020
    ensures CrcOf(data) == 0xCDC5
  {
    hide CrcOf;
    NoByte(data);
    NextByte(data, 3, 0xF020, [0x7810, 0x3C08, 0x1E04, 0x0F02, 0x0781, 0xA3C1, 0xF1E1, 0xD8F1]);
    NextByte(data, 4, 0xD8F1, [0xCC79, 0xC63D, 0xC31F, 0xC18E, 0x60C7, 0x9062, 0x4831, 0x8419]);
    NextByte(data, 5, 0x8413, [0xE208, 0x7104, 0x3882, 0x1C41, 0xAE21, 0xF711, 0xDB89, 0xCDC5]);
  }

  /** The worked example of the tests. */
  lemma {:induction false} KnownRequest()
    ensures CrcOf([0x01, 0x03, 0x00, 0x00, 0x00, 0x0A]) == 0xCDC5
  {
    hide CrcOf;
    var data: seq<byte> := [0x01, 0x03, 0x00, 0x00, 0x00, 0x0A];
    FirstThree(data);
    LastThree(data);
  }
}
