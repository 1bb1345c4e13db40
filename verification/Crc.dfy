/** The CRC-16 of Modbus RTU: the byte loop, the bit-by-bit register it computes, and what that
    register detects. */
module Crc {
  import opened Bits

  const POLYNOMIAL: nat := 0xA001
  const INITIAL: nat := 0xFFFF

  /** One shift of the register. */
  function Shift(c: nat): nat {
    if c % 2 == 1 then Xor(c / 2, POLYNOMIAL) else c / 2
  }

  function ShiftN(c: nat, n: nat): nat
    decreases n
  {
    if n == 0 then c else ShiftN(Shift(c), n - 1)
  }

  function BitNumber(b: bool): nat {
    if b then 1 else 0
  }

  /** The reference definition: each message bit enters the lowest place of the register. */
  function Feed(c: nat, bits: seq<bool>): nat
    decreases |bits|
  {
    if bits == [] then c else Feed(Shift(Xor(c, BitNumber(bits[0]))), bits[1..])
  }

  function CrcOf(data: seq<byte>): nat {
    Feed(INITIAL, BytesBits(data))
  }

  // ---- the shift is linear and loses nothing ----

  lemma ShiftIsLinear(a: nat, b: nat)
    ensures Shift(Xor(a, b)) == Xor(Shift(a), Shift(b))
  {
    XorStep(a, b);
    var x, y := a / 2, b / 2;
    if a % 2 == 1 && b % 2 == 1 {
      XorSwap(x, POLYNOMIAL, y, POLYNOMIAL);
      XorIsZero(POLYNOMIAL, POLYNOMIAL);
    } else if a % 2 == 1 {
      XorAssociates(x, POLYNOMIAL, y);
      XorCommutes(POLYNOMIAL, y);
      XorAssociates(x, y, POLYNOMIAL);
    } else if b % 2 == 1 {
      XorAssociates(x, y, POLYNOMIAL);
    }
  }

  lemma {:induction false} ShiftNIsLinear(a: nat, b: nat, n: nat)
    ensures ShiftN(Xor(a, b), n) == Xor(ShiftN(a, n), ShiftN(b, n))
    decreases n
  {
    if n > 0 {
      ShiftIsLinear(a, b);
      ShiftNIsLinear(Shift(a), Shift(b), n - 1);
    }
  }

  lemma WordSize()
    ensures Pow2(16) == 0x10000 && Pow2(15) == 0x8000 && Pow2(8) == 0x100
  {
    calc {
      Pow2(16);
      2 * (2 * (2 * (2 * (2 * (2 * (2 * (2 * Pow2(8))))))));
      2 * (2 * (2 * (2 * (2 * (2 * (2 * (2 * (2 * (2 * (2 * (2 * (2 * (2 * (2 * (2 * Pow2(0))))))))))))))));
    }
  }

  lemma XorWords(a: nat, b: nat)
    requires a < 0x10000 && b < 0x10000
    ensures Xor(a, b) < 0x10000
  {
    WordSize();
    XorBound(a, b, 16);
  }

  lemma ShiftStaysInRange(c: nat)
    requires c < 0x10000
    ensures Shift(c) < 0x10000
  {
    XorWords(c / 2, POLYNOMIAL);
  }

  /** Only the empty register shifts to zero, so the shift is a bijection of the 16-bit words. */
  lemma ShiftKeepsNonZero(c: nat)
    requires c < 0x10000
    ensures Shift(c) == 0 <==> c == 0
  {
    XorIsZero(c / 2, POLYNOMIAL);
  }

  lemma ShiftIsInjective(a: nat, b: nat)
    requires a < 0x10000 && b < 0x10000 && Shift(a) == Shift(b)
    ensures a == b
  {
    ShiftIsLinear(a, b);
    XorIsZero(Shift(a), Shift(b));
    XorWords(a, b);
    ShiftKeepsNonZero(Xor(a, b));
    XorIsZero(a, b);
  }

  lemma {:induction false} ShiftNKeepsNonZero(c: nat, n: nat)
    requires c < 0x10000
    ensures ShiftN(c, n) == 0 <==> c == 0
    decreases n
  {
    if n > 0 {
      ShiftKeepsNonZero(c);
      ShiftStaysInRange(c);
      ShiftNKeepsNonZero(Shift(c), n - 1);
    }
  }

  // ---- feeding many bits at once ----

  lemma {:induction false} FeedSplit(c: nat, x: seq<bool>, y: seq<bool>)
    ensures Feed(c, x + y) == Feed(Feed(c, x), y)
    decreases |x|
  {
    if x == [] {
      assert x + y == y;
    } else {
      assert (x + y)[1..] == x[1..] + y;
      FeedSplit(Shift(Xor(c, BitNumber(x[0]))), x[1..], y);
    }
  }

  /** A number is its lowest bit and its double rest. */
  lemma XorLowest(b: bool, rest: nat)
    ensures Xor(BitNumber(b), 2 * rest) == BitNumber(b) + 2 * rest
  {
    if b && rest != 0 {
      XorStep(1, 2 * rest);
      assert Xor(0, rest) == rest;
      SameHalves(Xor(1, 2 * rest), 1 + 2 * rest);
    }
  }

  lemma DoubleShifts(rest: nat)
    ensures Shift(2 * rest) == rest
  {
  }

  lemma FeedLowest(c: nat, b: bool, rest: nat)
    ensures Shift(Xor(c, BitNumber(b) + 2 * rest)) == Xor(Shift(Xor(c, BitNumber(b))), rest)
  {
    XorLowest(b, rest);
    XorAssociates(c, BitNumber(b), 2 * rest);
    ShiftIsLinear(Xor(c, BitNumber(b)), 2 * rest);
    DoubleShifts(rest);
  }

  /** Feeding a bit string is adding it as a number and shifting it out: the step from bytes to bits. */
  lemma {:induction false} FeedIsAddAndShift(c: nat, bits: seq<bool>)
    ensures Feed(c, bits) == ShiftN(Xor(c, BitsNumber(bits)), |bits|)
    decreases |bits|
  {
    if bits == [] {
      assert Xor(c, 0) == c;
    } else {
      FeedIsAddAndShift(Shift(Xor(c, BitNumber(bits[0]))), bits[1..]);
      FeedLowest(c, bits[0], BitsNumber(bits[1..]));
    }
  }

  lemma {:induction false} FeedByte(c: nat, b: byte)
    ensures Feed(c, ByteBits(b)) == ShiftN(Xor(c, b), 8)
  {
    FeedIsAddAndShift(c, ByteBits(b));
    WordSize();
    NumberOfBits(b, 8);
  }

  // ---- the loop ----

  /** After `k` of a byte's eight shifts. */
  ghost predicate Shifting(crc: nat, mixed: nat, k: nat) {
    k <= 8 && crc < 0x10000 && ShiftN(crc, 8 - k) == ShiftN(mixed, 8)
  }

  lemma {:induction false} ShiftingStep(crc: nat, mixed: nat, k: nat)
    requires Shifting(crc, mixed, k) && k < 8
    ensures Shifting(Shift(crc), mixed, k + 1)
  {
    ShiftStaysInRange(crc);
  }

  lemma ShiftsDone(crc: nat, mixed: nat)
    requires Shifting(crc, mixed, 8)
    ensures crc == ShiftN(mixed, 8)
  {
  }

  /** The register after the first `i` bytes. */
  ghost predicate CrcSoFar(crc: nat, data: seq<byte>, i: nat) {
    i <= |data| && crc < 0x10000 && crc == CrcOf(data[..i])
  }

  lemma ByteStarts(crc: nat, data: seq<byte>, i: nat)
    requires CrcSoFar(crc, data, i) && i < |data|
    ensures Shifting(Xor(crc, data[i]), Xor(crc, data[i]), 0)
  {
    XorWords(crc, data[i]);
  }

  lemma {:induction false} ByteDone(data: seq<byte>, i: nat, before: nat, crc: nat)
    requires i < |data| && crc < 0x10000 && CrcSoFar(before, data, i)
    ensures crc == ShiftN(Xor(before, data[i]), 8) ==> CrcSoFar(crc, data, i + 1)
  {
    FeedByte(before, data[i]);
    CrcSnoc(data, i);
  }

  lemma AllBytes(crc: nat, data: seq<byte>)
    requires CrcSoFar(crc, data, |data|)
    ensures crc == CrcOf(data) && crc < 0x10000
  {
    assert data[..|data|] == data;
  }

  /** The byte-wise loop leaves what feeding the message bit by bit leaves. */
  method Crc16(data: seq<byte>) returns (crc: nat)
    ensures crc == CrcOf(data)
    ensures crc < 0x10000
  {
    crc := 0xFFFF;
    for i := 0 to |data|
      invariant CrcSoFar(crc, data, i)
    {
      ghost var before := crc;
      ByteStarts(before, data, i);
      crc := Xor(crc, data[i]);
      for k := 0 to 8
        invariant Shifting(crc, Xor(before, data[i]), k)
      {
        ShiftingStep(crc, Xor(before, data[i]), k);
        if crc % 2 == 1 {
          crc := Xor(crc / 2, 0xA001);
        } else {
          crc := crc / 2;
        }
      }
      ShiftsDone(crc, Xor(before, data[i]));
      ByteDone(data, i, before, crc);
    }
    AllBytes(crc, data);
  }

  lemma CrcSnoc(data: seq<byte>, i: nat)
    requires i < |data|
    ensures CrcOf(data[..i + 1]) == Feed(CrcOf(data[..i]), ByteBits(data[i]))
  {
    assert data[..i + 1] == data[..i] + [data[i]];
    BytesBitsSplit(data[..i], [data[i]]);
    OneByte(data[i]);
    FeedSplit(INITIAL, BytesBits(data[..i]), ByteBits(data[i]));
  }

  lemma OneByte(b: byte)
    ensures BytesBits([b]) == ByteBits(b)
  {
    assert BytesBits([b]) == ByteBits(b) + BytesBits([]);
  }

  lemma {:induction false} FeedInRange(c: nat, bits: seq<bool>)
    requires c < 0x10000
    ensures Feed(c, bits) < 0x10000
    decreases |bits|
  {
    if bits != [] {
      XorWords(c, BitNumber(bits[0]));
      ShiftStaysInRange(Xor(c, BitNumber(bits[0])));
      FeedInRange(Shift(Xor(c, BitNumber(bits[0]))), bits[1..]);
    }
  }

  // ---- a message followed by its own CRC leaves the register empty ----

  function WithCrc(frame: seq<byte>): seq<byte> {
    FeedInRange(INITIAL, BytesBits(frame));
    var crc := CrcOf(frame);
    frame + [crc % 256, crc / 256 % 256]
  }

  lemma TrailerBits(lo: byte, hi: byte)
    ensures |BytesBits([lo, hi])| == 16 && BitsNumber(BytesBits([lo, hi])) == lo + 256 * hi
  {
    BytesBitsSplit([lo], [hi]);
    assert [lo] + [hi] == [lo, hi];
    OneByte(lo);
    OneByte(hi);
    BitsNumberSplit(ByteBits(lo), ByteBits(hi));
    WordSize();
    NumberOfBits(lo, 8);
    NumberOfBits(hi, 8);
  }

  lemma FeedTrailer(c: nat, x: seq<bool>, y: seq<bool>, n: nat)
    requires |y| == 16 && BitsNumber(y) == n
    ensures Feed(c, x + y) == ShiftN(Xor(Feed(c, x), n), 16)
  {
    FeedSplit(c, x, y);
    FeedIsAddAndShift(Feed(c, x), y);
  }

  lemma {:induction false} CrcOfWhole(frame: seq<byte>, lo: byte, hi: byte)
    ensures CrcOf(frame + [lo, hi]) == ShiftN(Xor(CrcOf(frame), lo + 256 * hi), 16)
  {
    hide BytesBits, BitsNumber, Feed, ShiftN, Xor;
    BytesBitsSplit(frame, [lo, hi]);
    TrailerBits(lo, hi);
    FeedTrailer(INITIAL, BytesBits(frame), BytesBits([lo, hi]), lo + 256 * hi);
  }

  lemma {:induction false} ShiftedOutIffZero(c: nat, n: nat)
    requires c < 0x10000 && n < 0x10000
    ensures ShiftN(Xor(c, n), 16) == 0 <==> c == n
  {
    XorWords(c, n);
    ShiftNKeepsNonZero(Xor(c, n), 16);
    XorIsZero(c, n);
  }

  /** The two trailing bytes are the message's CRC, low byte first, exactly when the CRC of the whole
      frame, trailer included, is zero. */
  lemma TrailerMatchesIffZero(frame: seq<byte>, lo: byte, hi: byte)
    ensures CrcOf(frame + [lo, hi]) == 0 <==> lo + 256 * hi == CrcOf(frame)
  {
    CrcOfWhole(frame, lo, hi);
    FeedInRange(INITIAL, BytesBits(frame));
    ShiftedOutIffZero(CrcOf(frame), lo + 256 * hi);
  }

  // ---- error detection ----

  lemma {:induction false} FeedIsLinear(c: nat, d: nat, x: seq<bool>, y: seq<bool>)
    requires |x| == |y|
    ensures Xor(Feed(c, x), Feed(d, y)) == Feed(Xor(c, d), XorBits(x, y))
    decreases |x|
  {
    if x != [] {
      var a, b := BitNumber(x[0]), BitNumber(y[0]);
      FeedIsLinear(Shift(Xor(c, a)), Shift(Xor(d, b)), x[1..], y[1..]);
      ShiftIsLinear(Xor(c, a), Xor(d, b));
      XorSwap(c, a, d, b);
      XorOfBits(x[0], y[0]);
      assert XorBits(x, y)[1..] == XorBits(x[1..], y[1..]);
    }
  }

  lemma XorOfBits(a: bool, b: bool)
    ensures Xor(BitNumber(a), BitNumber(b)) == BitNumber(a != b)
  {
    XorIsZero(1, 1);
  }

  ghost predicate AllFalse(bits: seq<bool>) {
    forall i :: 0 <= i < |bits| ==> !bits[i]
  }

  /** No bit string of up to 16 bits, other than all zeros, brings an empty register back to empty. */
  lemma ShortPatternShows(bits: seq<bool>)
    requires |bits| <= 16 && Feed(0, bits) == 0
    ensures AllFalse(bits)
  {
    FeedIsAddAndShift(0, bits);
    BitsNumberBound(bits);
    Pow2Grows(|bits|, 16);
    WordSize();
    ShiftNKeepsNonZero(BitsNumber(bits), |bits|);
    BitsNumberZero(bits);
  }

  lemma {:induction false} Pow2Grows(a: nat, b: nat)
    requires a <= b
    ensures Pow2(a) <= Pow2(b)
    decreases b
  {
    if a < b {
      Pow2Grows(a, b - 1);
    }
  }

  lemma {:induction false} ZerosAreBits(bits: seq<bool>)
    requires AllFalse(bits)
    ensures BitsNumber(bits) == 0
  {
    if bits != [] {
      ZerosAreBits(bits[1..]);
    }
  }

  /** Zeros shift the register along without emptying or filling it. */
  lemma ZerosKeepNonZero(c: nat, bits: seq<bool>)
    requires AllFalse(bits) && c < 0x10000
    ensures Feed(c, bits) == 0 <==> c == 0
  {
    ZerosAreBits(bits);
    FeedIsAddAndShift(c, bits);
    assert Xor(c, 0) == c;
    ShiftNKeepsNonZero(c, |bits|);
  }

  /** All true bits of a pattern lie in the sixteen places from `k` on. */
  ghost predicate WithinBurst(bits: seq<bool>, k: nat) {
    forall i :: 0 <= i < |bits| && bits[i] ==> k <= i < k + 16
  }

  /** A burst, wherever it falls, leaves a register that started empty non-empty. */
  lemma BurstShows(bits: seq<bool>, k: nat)
    requires WithinBurst(bits, k) && !AllFalse(bits)
    ensures Feed(0, bits) != 0
  {
    var lo := if k <= |bits| then k else |bits|;
    var hi := if k + 16 <= |bits| then k + 16 else |bits|;
    var before, burst, after := bits[..lo], bits[lo..hi], bits[hi..];
    assert bits == before + burst + after;
    FeedSplit(0, before + burst, after);
    FeedSplit(0, before, burst);
    assert AllFalse(before) && AllFalse(after);
    ZerosKeepNonZero(0, before);
    FeedInRange(0, burst);
    ZerosKeepNonZero(Feed(0, burst), after);
    if Feed(0, burst) == 0 {
      ShortPatternShows(burst);
      forall i | 0 <= i < |bits|
        ensures !bits[i]
      {
        if lo <= i < hi {
          assert burst[i - lo] == bits[i];
        }
      }
    }
  }

  /** Two equally long messages whose difference is a burst have different CRCs. */
  lemma {:induction false} BurstChangesCrc(f: seq<byte>, g: seq<byte>, k: nat)
    requires |f| == |g|
    requires var d := XorBits(BytesBits(f), BytesBits(g)); WithinBurst(d, k) && !AllFalse(d)
    ensures CrcOf(f) != CrcOf(g)
  {
    FeedIsLinear(INITIAL, INITIAL, BytesBits(f), BytesBits(g));
    XorIsZero(INITIAL, INITIAL);
    BurstShows(XorBits(BytesBits(f), BytesBits(g)), k);
    XorIsZero(CrcOf(f), CrcOf(g));
  }

  // ---- parity ----

  lemma TwoOnes(x: nat)
    ensures OddOnes(4 * x + 3) == OddOnes(x)
  {
    assert (4 * x + 3) / 2 == 2 * x + 1 && (2 * x + 1) / 2 == x;
  }

  lemma OnePlace(x: nat)
    ensures OddOnes(2 * x) == OddOnes(x)
  {
  }

  lemma FourPlaces(x: nat)
    ensures OddOnes(16 * x) == OddOnes(x)
  {
    OnePlace(x);
    OnePlace(2 * x);
    OnePlace(4 * x);
    OnePlace(8 * x);
  }

  lemma PolynomialIsOdd()
    ensures OddOnes(POLYNOMIAL)
  {
    FourPlaces(0x500);
    FourPlaces(0x50);
    FourPlaces(5);
    assert OddOnes(0xA001) == !OddOnes(0x5000);
    assert !OddOnes(5);
  }

  lemma InitialIsEven()
    ensures !OddOnes(INITIAL)
  {
    TwoOnes(0x3FFF);
    TwoOnes(0xFFF);
    TwoOnes(0x3FF);
    TwoOnes(0xFF);
    TwoOnes(0x3F);
    TwoOnes(0xF);
    TwoOnes(3);
    TwoOnes(0);
  }

  /** The polynomial has an odd number of ones, so a shift replaces a lost one by an odd number of them. */
  lemma ShiftKeepsParity(c: nat)
    ensures OddOnes(Shift(c)) == OddOnes(c)
  {
    OddOfXor(c / 2, POLYNOMIAL);
    PolynomialIsOdd();
  }

  lemma {:induction false} FeedParity(c: nat, bits: seq<bool>)
    ensures OddOnes(Feed(c, bits)) == (OddOnes(c) != OddTrue(bits))
    decreases |bits|
  {
    if bits != [] {
      var u := Xor(c, BitNumber(bits[0]));
      OddOfXor(c, BitNumber(bits[0]));
      ShiftKeepsParity(u);
      FeedParity(Shift(u), bits[1..]);
    }
  }

  /** The CRC has an odd number of ones exactly when the message has. */
  lemma ParityOfCrc(data: seq<byte>)
    ensures OddOnes(CrcOf(data)) == OddTrue(BytesBits(data))
  {
    FeedParity(INITIAL, BytesBits(data));
    InitialIsEven();
  }
}
