/** Modbus RTU framing for the two function codes the controller uses, and what a received frame
    can and cannot hide. */
module ModbusFraming {
  import opened Common
  import opened Bits
  import opened Crc

  const READ_HOLDING_REGISTERS: byte := 0x03
  const WRITE_SINGLE_REGISTER: byte := 0x06
  const EXCEPTION_BIT: byte := 0x80

  datatype BuildError = SlaveIdNotAByte(slaveId: int)

  datatype ModbusError =
    | ResponseTooShort(length: nat)
    | UnexpectedSlave(received: byte)
    | CrcMismatch
    | DeviceError(functionCode: byte, exceptionCode: byte)
    | UnexpectedFunction(functionCode: byte)
    | ByteCountMismatch
    | UnexpectedLength(length: nat)
    | NotTheRequest

  // ---- building ----

  /** `(x >> 8) & 0xFF` and `x & 0xFF` on Python integers. */
  function High(x: int): byte { x / 256 % 256 }

  function Low(x: int): byte { x % 256 }

  function BuildRequest(slaveId: int, functionCode: byte, first: int, second: int): Result<seq<byte>, BuildError> {
    if 0 <= slaveId < 256
    then Ok(WithCrc([slaveId, functionCode, High(first), Low(first), High(second), Low(second)]))
    else Err(SlaveIdNotAByte(slaveId))
  }

  function BuildReadHoldingRegisters(slaveId: int, address: int, count: int): Result<seq<byte>, BuildError> {
    BuildRequest(slaveId, READ_HOLDING_REGISTERS, address, count)
  }

  function BuildWriteSingleRegister(slaveId: int, address: int, value: int): Result<seq<byte>, BuildError> {
    BuildRequest(slaveId, WRITE_SINGLE_REGISTER, address, value)
  }

  // ---- parsing ----

  /** `lo | (hi << 8)`. */
  function Pair(lo: byte, hi: byte): nat {
    lo as int + 256 * hi as int
  }

  function CheckFrame(slaveId: int, response: seq<byte>): Option<ModbusError> {
    if |response| < 5 then Some(ResponseTooShort(|response|))
    else if response[0] != slaveId then Some(UnexpectedSlave(response[0]))
    else if Pair(response[|response| - 2], response[|response| - 1]) != CrcOf(response[..|response| - 2])
    then Some(CrcMismatch)
    else None
  }

  predicate Accepted(slaveId: int, response: seq<byte>) {
    CheckFrame(slaveId, response).None?
  }

  /** `[(r[3+i] << 8) | r[3+i+1] for i in range(0, byte_count, 2)]`, from byte `i` on. */
  function RegistersFrom(response: seq<byte>, byteCount: nat, i: nat): seq<nat>
    requires |response| == 3 + byteCount + 2
    decreases byteCount - i
  {
    if i >= byteCount then []
    else [Pair(response[3 + i + 1], response[3 + i])] + RegistersFrom(response, byteCount, i + 2)
  }

  function ParseReadResponse(slaveId: int, response: seq<byte>): Result<seq<nat>, ModbusError> {
    var problem := CheckFrame(slaveId, response);
    if problem.Some? then Err(problem.value)
    else if response[1] == READ_HOLDING_REGISTERS + EXCEPTION_BIT then
      Err(DeviceError(READ_HOLDING_REGISTERS, response[2]))
    else if response[1] != READ_HOLDING_REGISTERS then Err(UnexpectedFunction(response[1]))
    else if |response| != 3 + response[2] as int + 2 then Err(ByteCountMismatch)
    else Ok(RegistersFrom(response, response[2], 0))
  }

  function ParseWriteResponse(slaveId: int, address: int, value: int, response: seq<byte>): Result<(), ModbusError> {
    var problem := CheckFrame(slaveId, response);
    if problem.Some? then Err(problem.value)
    else if response[1] == WRITE_SINGLE_REGISTER + EXCEPTION_BIT then
      Err(DeviceError(WRITE_SINGLE_REGISTER, response[2]))
    else if response[1] != WRITE_SINGLE_REGISTER then Err(UnexpectedFunction(response[1]))
    else if |response| != 8 then Err(UnexpectedLength(|response|))
    else if Pair(response[3], response[2]) != address || Pair(response[5], response[4]) != value then Err(NotTheRequest)
    else Ok(())
  }

  // ---- the frame check ----

  lemma SplitTrailer(response: seq<byte>)
    requires |response| >= 2
    ensures response == response[..|response| - 2] + [response[|response| - 2], response[|response| - 1]]
  {
  }

  /** A frame of five bytes or more for the slave is accepted exactly when the CRC of the whole of it is zero. */
  lemma AcceptedIffWholeCrcIsZero(slaveId: int, response: seq<byte>)
    ensures Accepted(slaveId, response) <==> |response| >= 5 && response[0] == slaveId && CrcOf(response) == 0
  {
    if |response| >= 5 {
      SplitTrailer(response);
      TrailerMatchesIffZero(response[..|response| - 2], response[|response| - 2], response[|response| - 1]);
    }
  }

  /** The words behind the header, high byte first, an odd byte at the end with the one behind it. */
  ghost predicate AreRegistersOf(response: seq<byte>, n: nat, registers: seq<nat>)
    requires |response| == 5 + n
  {
    && |registers| == (n + 1) / 2
    && forall k :: 0 <= k < |registers| ==>
         registers[k] == 256 * response[3 + 2 * k] as int + response[4 + 2 * k] as int
  }

  /** What the read parser answers to any bytes: an exception has the function code's top bit set and its code behind
      it, and registers are read high byte first. */
  lemma ReadAnswers(slaveId: int, response: seq<byte>)
    ensures
      var r := ParseReadResponse(slaveId, response);
      if |response| < 5 then r == Err(ResponseTooShort(|response|))
      else if response[0] != slaveId then r == Err(UnexpectedSlave(response[0]))
      else if CrcOf(response) != 0 then r == Err(CrcMismatch)
      else if response[1] == 0x83 then r == Err(DeviceError(0x03, response[2]))
      else if response[1] != 0x03 then r == Err(UnexpectedFunction(response[1]))
      else if |response| != 5 + response[2] as int then r == Err(ByteCountMismatch)
      else r.Ok? && AreRegistersOf(response, response[2], r.value)
  {
    CheckDecides(slaveId, response);
    hide CrcOf, CheckFrame, RegistersFrom, AreRegistersOf;
    if |response| >= 5 && |response| == 5 + response[2] as int {
      RegistersAreWords(response, response[2]);
    }
  }

  lemma {:induction false} RegistersAreWords(response: seq<byte>, n: nat)
    requires |response| == 5 + n
    ensures AreRegistersOf(response, n, RegistersFrom(response, n, 0))
  {
    var registers := RegistersFrom(response, n, 0);
    RegisterCount(response, n, 0);
    forall k | 0 <= k < |registers|
      ensures registers[k] == 256 * response[3 + 2 * k] as int + response[4 + 2 * k] as int
    {
      RegisterAt(response, n, 0, k);
    }
  }

  lemma CheckDecides(slaveId: int, response: seq<byte>)
    ensures
      var e := CheckFrame(slaveId, response);
      if |response| < 5 then e == Some(ResponseTooShort(|response|))
      else if response[0] != slaveId then e == Some(UnexpectedSlave(response[0]))
      else if CrcOf(response) != 0 then e == Some(CrcMismatch)
      else e == None
  {
    AcceptedIffWholeCrcIsZero(slaveId, response);
  }

  /** And the write parser. */
  lemma WriteAnswers(slaveId: int, address: int, value: int, response: seq<byte>)
    ensures
      var r := ParseWriteResponse(slaveId, address, value, response);
      if |response| < 5 then r == Err(ResponseTooShort(|response|))
      else if response[0] != slaveId then r == Err(UnexpectedSlave(response[0]))
      else if CrcOf(response) != 0 then r == Err(CrcMismatch)
      else if response[1] == 0x86 then r == Err(DeviceError(0x06, response[2]))
      else if response[1] != 0x06 then r == Err(UnexpectedFunction(response[1]))
      else if |response| != 8 then r == Err(UnexpectedLength(|response|))
      else if address != 256 * response[2] as int + response[3] as int then r == Err(NotTheRequest)
      else if value != 256 * response[4] as int + response[5] as int then r == Err(NotTheRequest)
      else r == Ok(())
  {
    hide CrcOf, CheckFrame;
    CheckDecides(slaveId, response);
  }

  lemma PairOf(lo: byte, hi: byte, crc: nat)
    requires crc < 0x10000
    ensures Pair(lo, hi) == crc <==> lo == crc % 256 && hi == crc / 256 % 256
  {
  }

  lemma SamePrefix(body: seq<byte>, x: seq<byte>, y: seq<byte>)
    requires |x| == |y|
    ensures body + x == body + y <==> x == y
  {
    assert x == (body + x)[|body|..] && y == (body + y)[|body|..];
  }

  lemma TrailerIsCrc(body: seq<byte>, lo: byte, hi: byte)
    ensures body + [lo, hi] == WithCrc(body) <==> Pair(lo, hi) == CrcOf(body)
  {
    FeedInRange(INITIAL, BytesBits(body));
    var crc := CrcOf(body);
    var trailer: seq<byte> := [crc % 256, crc / 256 % 256];
    PairOf(lo, hi, crc);
    SamePrefix(body, [lo, hi], trailer);
    assert [lo, hi] == trailer <==> lo == trailer[0] && hi == trailer[1];
  }

  /** What `WithCrc` appends is the only trailer that is accepted. */
  lemma {:induction false} OnlyWithCrcIsAccepted(slaveId: int, body: seq<byte>, response: seq<byte>)
    requires |body| >= 3 && |response| == |body| + 2 && response[..|body|] == body && body[0] == slaveId
    ensures Accepted(slaveId, response) <==> response == WithCrc(body)
  {
    SplitTrailer(response);
    TrailerIsCrc(body, response[|body|], response[|body| + 1]);
    assert response[0] == response[..|body|][0];
  }

  /** Two different frames that differ only inside one burst of 16 bits, trailer included, are never
      both accepted: every such burst error is detected. */
  lemma {:induction false} BurstErrorsAreDetected(slaveId: int, f: seq<byte>, g: seq<byte>, k: nat)
    requires |f| == |g| && f != g
    requires WithinBurst(XorBits(BytesBits(f), BytesBits(g)), k)
    ensures !(Accepted(slaveId, f) && Accepted(slaveId, g))
  {
    if Accepted(slaveId, f) && Accepted(slaveId, g) {
      AcceptedIffWholeCrcIsZero(slaveId, f);
      AcceptedIffWholeCrcIsZero(slaveId, g);
      DifferentBytesDifferInABit(f, g);
      BurstChangesCrc(f, g, k);
    }
  }

  lemma {:induction false} DifferentBytesDifferInABit(f: seq<byte>, g: seq<byte>)
    requires |f| == |g| && f != g
    ensures !AllFalse(XorBits(BytesBits(f), BytesBits(g)))
  {
    if AllFalse(XorBits(BytesBits(f), BytesBits(g))) {
      forall i | 0 <= i < |BytesBits(f)|
        ensures BytesBits(f)[i] == BytesBits(g)[i]
      {
        assert !XorBits(BytesBits(f), BytesBits(g))[i];
      }
      assert BytesBits(f) == BytesBits(g);
      SameBitsSameBytes(f, g);
    }
  }

  lemma {:induction false} SameBitsSameBytes(f: seq<byte>, g: seq<byte>)
    requires |f| == |g| && BytesBits(f) == BytesBits(g)
    ensures f == g
  {
    if f != [] {
      FirstByte(ByteBits(f[0]), BytesBits(f[1..]), ByteBits(g[0]), BytesBits(g[1..]));
      WordSize();
      NumberOfBits(f[0], 8);
      NumberOfBits(g[0], 8);
      SameBitsSameBytes(f[1..], g[1..]);
      assert f == [f[0]] + f[1..] && g == [g[0]] + g[1..];
    }
  }

  lemma FirstByte(a: seq<bool>, x: seq<bool>, b: seq<bool>, y: seq<bool>)
    requires |a| == |b| == 8 && a + x == b + y
    ensures a == b && x == y
  {
    assert a == (a + x)[..8] && b == (b + y)[..8];
    assert x == (a + x)[8..] && y == (b + y)[8..];
  }

  /** Flipping any odd number of bits anywhere in an accepted frame makes it rejected. */
  lemma {:induction false} OddErrorsAreDetected(slaveId: int, f: seq<byte>, g: seq<byte>)
    requires |f| == |g| && Accepted(slaveId, f)
    requires OddTrue(XorBits(BytesBits(f), BytesBits(g)))
    ensures !Accepted(slaveId, g)
  {
    if Accepted(slaveId, g) {
      AcceptedIffWholeCrcIsZero(slaveId, f);
      AcceptedIffWholeCrcIsZero(slaveId, g);
      ParityOfCrc(f);
      ParityOfCrc(g);
      OddOfXorBits(BytesBits(f), BytesBits(g));
    }
  }

  // ---- requests ----

  /** Every built request passes the frame check of its slave, whatever the other arguments are. */
  lemma RequestsAreAccepted(slaveId: int, functionCode: byte, first: int, second: int)
    requires 0 <= slaveId < 256
    ensures BuildRequest(slaveId, functionCode, first, second).Ok?
    ensures Accepted(slaveId, BuildRequest(slaveId, functionCode, first, second).value)
  {
    var body: seq<byte> := [slaveId, functionCode, High(first), Low(first), High(second), Low(second)];
    assert WithCrc(body)[..6] == body;
    OnlyWithCrcIsAccepted(slaveId, body, WithCrc(body));
  }

  /** The eight bytes of a request: slave, function, two words with the high byte first, the CRC with the low. */
  ghost predicate IsRequest(r: seq<byte>, slaveId: int, functionCode: byte, first: int, second: int) {
    && |r| == 8
    && r[0] == slaveId
    && r[1] == functionCode
    && 256 * r[2] as int + r[3] as int == first % 0x10000
    && 256 * r[4] as int + r[5] as int == second % 0x10000
    && CrcOf(r) == 0
  }

  lemma WordAsBytes(x: int)
    ensures 256 * High(x) as int + Low(x) as int == x % 0x10000
  {
    WordOfBytes(x, x / 0x10000, x % 0x10000);
  }

  lemma RequestLayout(slaveId: int, functionCode: byte, first: int, second: int)
    requires 0 <= slaveId < 256
    ensures var r := BuildRequest(slaveId, functionCode, first, second);
      r.Ok? && IsRequest(r.value, slaveId, functionCode, first, second)
  {
    RequestsAreAccepted(slaveId, functionCode, first, second);
    var r := BuildRequest(slaveId, functionCode, first, second).value;
    AcceptedIffWholeCrcIsZero(slaveId, r);
    WordAsBytes(first);
    WordAsBytes(second);
  }

  /** Only slave ids that are no byte are refused, and then both builders send what section 6.3 and 6.6 ask for. */
  lemma RequestsAreAsSpecified(slaveId: int, address: int, count: int)
    ensures var r := BuildReadHoldingRegisters(slaveId, address, count);
      if 0 <= slaveId < 256 then r.Ok? && IsRequest(r.value, slaveId, 0x03, address, count)
      else r == Err(SlaveIdNotAByte(slaveId))
    ensures var w := BuildWriteSingleRegister(slaveId, address, count);
      if 0 <= slaveId < 256 then w.Ok? && IsRequest(w.value, slaveId, 0x06, address, count)
      else w == Err(SlaveIdNotAByte(slaveId))
  {
    if 0 <= slaveId < 256 {
      RequestLayout(slaveId, READ_HOLDING_REGISTERS, address, count);
      RequestLayout(slaveId, WRITE_SINGLE_REGISTER, address, count);
    }
  }

  lemma WordOfBytes(x: int, q: int, r: nat)
    requires x == 0x10000 * q + r && r < 0x10000
    ensures High(x) == r / 256 && Low(x) == r % 256
  {
    assert x / 256 == 256 * q + r / 256;
  }

  lemma {:induction false} SameBytesSameWord(x: int, y: int)
    ensures High(x) == High(y) && Low(x) == Low(y) <==> x % 0x10000 == y % 0x10000
  {
    WordOfBytes(x, x / 0x10000, x % 0x10000);
    WordOfBytes(y, y / 0x10000, y % 0x10000);
  }

  /** Two requests are the same bytes exactly when slave and function agree and both arguments agree
      as 16-bit words. */
  lemma {:induction false} RequestsAreInjective(s: int, f: byte, a: int, b: int, t: int, g: byte, c: int, d: int)
    requires 0 <= s < 256 && 0 <= t < 256
    ensures BuildRequest(s, f, a, b) == BuildRequest(t, g, c, d) <==>
      s == t && f == g && a % 0x10000 == c % 0x10000 && b % 0x10000 == d % 0x10000
  {
    var x: seq<byte> := [s, f, High(a), Low(a), High(b), Low(b)];
    var y: seq<byte> := [t, g, High(c), Low(c), High(d), Low(d)];
    SameBytesSameWord(a, c);
    SameBytesSameWord(b, d);
    if WithCrc(x) == WithCrc(y) {
      BuiltFrom(x, WithCrc(x));
      BuiltFrom(y, WithCrc(y));
      assert x[0] == y[0] && x[1] == y[1] && x[2] == y[2] && x[3] == y[3] && x[4] == y[4] && x[5] == y[5];
    }
  }

  // ---- the write parser inverts the write builder ----

  predicate IsWord(x: int) {
    0 <= x < 0x10000
  }

  lemma HighLow(x: int, h: byte, l: byte)
    ensures Pair(l, h) == x <==> IsWord(x) && h == High(x) && l == Low(x)
  {
  }

  lemma SixBytes(response: seq<byte>, a: int, b: byte, c: byte, d: byte, e: byte, f: byte)
    requires |response| >= 6 && 0 <= a < 256
    ensures response[..6] == [a, b, c, d, e, f] <==>
      && response[0] == a && response[1] == b && response[2] == c
      && response[3] == d && response[4] == e && response[5] == f
  {
  }

  lemma BuiltFrom(body: seq<byte>, response: seq<byte>)
    requires |response| == |body| + 2 && response == WithCrc(body)
    ensures response[..|body|] == body
  {
  }

  lemma WriteFrame(slaveId: int, address: int, value: int, response: seq<byte>)
    requires |response| == 8 && 0 <= slaveId < 256
    ensures ParseWriteResponse(slaveId, address, value, response).Ok? <==>
      IsWord(address) && IsWord(value) &&
      response == WithCrc([slaveId, WRITE_SINGLE_REGISTER, High(address), Low(address), High(value), Low(value)])
  {
    HighLow(address, response[2], response[3]);
    HighLow(value, response[4], response[5]);
    var body: seq<byte> := [slaveId, WRITE_SINGLE_REGISTER, High(address), Low(address), High(value), Low(value)];
    SixBytes(response, slaveId, WRITE_SINGLE_REGISTER, High(address), Low(address), High(value), Low(value));
    if response[..6] == body {
      OnlyWithCrcIsAccepted(slaveId, body, response);
    } else if response == WithCrc(body) {
      BuiltFrom(body, response);
    }
  }

  /** The write parser accepts one byte string and no other: the built request. For an address or value
      that is not a 16-bit word, whose excess bits the builder drops, it accepts none. */
  lemma WriteParserAcceptsOnlyTheRequest(slaveId: int, address: int, value: int, response: seq<byte>)
    ensures ParseWriteResponse(slaveId, address, value, response).Ok? <==>
      IsWord(address) && IsWord(value) && BuildWriteSingleRegister(slaveId, address, value) == Ok(response)
  {
    RequestLength(slaveId, WRITE_SINGLE_REGISTER, address, value);
    if |response| == 8 && 0 <= slaveId < 256 {
      WriteFrame(slaveId, address, value, response);
    }
  }

  lemma RequestLength(slaveId: int, functionCode: byte, first: int, second: int)
    ensures BuildRequest(slaveId, functionCode, first, second).Ok? ==>
      |BuildRequest(slaveId, functionCode, first, second).value| == 8
  {
  }

  // ---- the read parser inverts the response encoding of section 6.3 ----

  function RegisterBytes(registers: seq<nat>): (bytes: seq<byte>)
    ensures |bytes| == 2 * |registers|
  {
    if registers == [] then []
    else [High(registers[0]), Low(registers[0])] + RegisterBytes(registers[1..])
  }

  predicate AreWords(registers: seq<nat>) {
    forall i :: 0 <= i < |registers| ==> registers[i] < 0x10000
  }

  /** Function code, byte count, then each register high byte first, in the serial-line frame. */
  function EncodeReadResponse(slaveId: byte, registers: seq<nat>): seq<byte>
    requires |registers| <= 127
  {
    WithCrc([slaveId, READ_HOLDING_REGISTERS, 2 * |registers|] + RegisterBytes(registers))
  }

  lemma {:induction false} RegistersOfBytes(response: seq<byte>, n: nat, i: nat, registers: seq<nat>)
    requires |response| == 3 + n + 2 && i <= n && i % 2 == 0 && n % 2 == 0
    requires |registers| == (n - i) / 2
    ensures RegistersFrom(response, n, i) == registers <==>
      AreWords(registers) && response[3 + i..3 + n] == RegisterBytes(registers)
    decreases n - i
  {
    if i < n {
      var first, rest := registers[0], registers[1..];
      var data := response[3 + i..3 + n];
      RegistersOfBytes(response, n, i + 2, rest);
      HighLow(first, response[3 + i], response[3 + i + 1]);
      assert data == [response[3 + i], response[3 + i + 1]] + response[3 + (i + 2)..3 + n];
      assert data[2..] == response[3 + (i + 2)..3 + n];
      assert RegisterBytes(registers)[2..] == RegisterBytes(rest);
      assert AreWords(registers) <==> first < 0x10000 && AreWords(rest);
      assert registers == [first] + rest;
      SamePair(data, RegisterBytes(registers));
      SameHead(RegistersFrom(response, n, i), registers);
    }
  }

  lemma SamePair(a: seq<byte>, b: seq<byte>)
    requires |a| == |b| >= 2
    ensures a == b <==> a[0] == b[0] && a[1] == b[1] && a[2..] == b[2..]
  {
    assert a == [a[0], a[1]] + a[2..] && b == [b[0], b[1]] + b[2..];
  }

  lemma SameHead(a: seq<nat>, b: seq<nat>)
    requires |a| > 0 && |b| > 0
    ensures a == b <==> a[0] == b[0] && a[1..] == b[1..]
  {
    assert a == [a[0]] + a[1..] && b == [b[0]] + b[1..];
  }

  lemma {:induction false} RegisterCount(response: seq<byte>, n: nat, i: nat)
    requires |response| == 3 + n + 2 && i <= n + 1
    ensures |RegistersFrom(response, n, i)| == (n + 1 - i) / 2
    decreases n - i
  {
    if i < n {
      RegisterCount(response, n, i + 2);
    }
  }

  lemma ReadBody(slaveId: int, response: seq<byte>, body: seq<byte>)
    requires |body| >= 3 && body[0] == slaveId && body[1] == READ_HOLDING_REGISTERS && |body| == 3 + body[2] as int
    requires |response| == |body| + 2 && response[..|body|] == body
    ensures ParseReadResponse(slaveId, response).Ok? <==> response == WithCrc(body)
    ensures ParseReadResponse(slaveId, response).Ok? ==>
      ParseReadResponse(slaveId, response).value == RegistersFrom(response, body[2], 0)
  {
    OnlyWithCrcIsAccepted(slaveId, body, response);
    assert response[0] == response[..|body|][0] && response[1] == response[..|body|][1]
        && response[2] == response[..|body|][2];
  }

  /** Reading is the exact inverse of encoding: registers come back from their own encoding, and a
      response with an even byte count that parses to some registers is their encoding. */
  lemma ReadParserInvertsEncoding(slaveId: byte, registers: seq<nat>, response: seq<byte>)
    requires |response| < 3 || response[2] % 2 == 0
    ensures ParseReadResponse(slaveId, response) == Ok(registers) <==>
      |registers| <= 127 && AreWords(registers) && response == EncodeReadResponse(slaveId, registers)
  {
    if ParseReadResponse(slaveId, response) == Ok(registers) {
      var n := response[2];
      RegisterCount(response, n, 0);
      RegistersOfBytes(response, n, 0, registers);
      var body := response[..|response| - 2];
      assert body == [slaveId, READ_HOLDING_REGISTERS, n] + response[3..3 + n];
      ReadBody(slaveId, response, body);
    }
    if |registers| <= 127 && AreWords(registers) && response == EncodeReadResponse(slaveId, registers) {
      var n := 2 * |registers|;
      var body := [slaveId, READ_HOLDING_REGISTERS, n] + RegisterBytes(registers);
      assert response[..|body|] == body && response[3..3 + n] == RegisterBytes(registers) by {
        assert WithCrc(body)[..|body|] == body && WithCrc(body)[3..3 + n] == body[3..];
      }
      ReadBody(slaveId, response, body);
      RegistersOfBytes(response, n, 0, registers);
    }
  }

  /** With an odd byte count the parser still answers, and the last "register" has the low CRC byte
      of the frame in it. */
  lemma {:induction false} OddByteCountReadsTheCrc(slaveId: int, response: seq<byte>)
    requires ParseReadResponse(slaveId, response).Ok? && response[2] % 2 == 1
    ensures var registers, n := ParseReadResponse(slaveId, response).value, response[2] as int;
      && |registers| == (n + 1) / 2
      && registers[|registers| - 1] == Pair((CrcOf(response[..|response| - 2]) % 256) as byte, response[2 + n])
  {
    var n := response[2] as int;
    LastRegister(response, n, n / 2);
    FeedInRange(INITIAL, BytesBits(response[..|response| - 2]));
    PairOf(response[3 + n], response[4 + n], CrcOf(response[..|response| - 2]));
  }

  lemma LastRegister(response: seq<byte>, n: nat, k: nat)
    requires |response| == 3 + n + 2 && n == 2 * k + 1
    ensures |RegistersFrom(response, n, 0)| == k + 1
    ensures RegistersFrom(response, n, 0)[k] == Pair(response[3 + n], response[2 + n])
  {
    RegisterCount(response, n, 0);
    RegisterAt(response, n, 0, k);
  }

  lemma {:induction false} RegisterAt(response: seq<byte>, n: nat, i: nat, k: nat)
    requires |response| == 3 + n + 2 && i + 2 * k < n
    ensures |RegistersFrom(response, n, i)| > k
    ensures RegistersFrom(response, n, i)[k] == Pair(response[3 + i + 2 * k + 1], response[3 + i + 2 * k])
    decreases n - i
  {
    var first, rest := Pair(response[3 + i + 1], response[3 + i]), RegistersFrom(response, n, i + 2);
    assert RegistersFrom(response, n, i) == [first] + rest;
    if k > 0 {
      RegisterAt(response, n, i + 2, k - 1);
      assert ([first] + rest)[k] == rest[k - 1];
    }
  }

  /** Such a frame exists: one data byte, and the parser reports a register made of it and the CRC. */
  lemma OddByteCountIsAccepted(slaveId: byte, data: byte)
    ensures ParseReadResponse(slaveId, WithCrc([slaveId, READ_HOLDING_REGISTERS, 1, data])).Ok?
  {
    var body: seq<byte> := [slaveId, READ_HOLDING_REGISTERS, 1, data];
    assert WithCrc(body)[..4] == body;
    ReadBody(slaveId, WithCrc(body), body);
  }
}
