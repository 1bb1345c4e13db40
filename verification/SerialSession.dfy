/** One Modbus transaction on the serial line: reading a self-delimiting frame off a byte stream. */
module SerialSession {
  import opened Common
  import opened Bits
  import opened Crc
  import opened ModbusFraming

  /** The line as the session sees it. `buffered` has been received and not read yet, `answer` is what
      the bus will carry after the request, and `inTime` says, read by read, how many bytes arrive
      before that read's timeout. */
  class SerialPort {
    var buffered: seq<byte>
    var answer: seq<byte>
    var inTime: seq<nat>
    var sent: seq<byte>

    constructor (buffered: seq<byte>, answer: seq<byte>, inTime: seq<nat>)
      ensures this.buffered == buffered && this.answer == answer && this.inTime == inTime && sent == []
    {
      this.buffered, this.answer, this.inTime, sent := buffered, answer, inTime, [];
    }

    method ResetInputBuffer()
      modifies this`buffered
      ensures buffered == []
    {
      buffered := [];
    }

    method Write(data: seq<byte>)
      modifies this`sent, this`buffered, this`answer
      ensures sent == old(sent) + data && buffered == old(buffered) + old(answer) && answer == []
    {
      sent := sent + data;
      buffered := buffered + answer;
      answer := [];
    }

    method Read(size: nat) returns (data: seq<byte>)
      modifies this`buffered, this`inTime
      ensures (data, buffered, inTime) == ReadSpec(old(buffered), old(inTime), size)
    {
      var n := Granted(buffered, inTime, size);
      data := buffered[..n];
      buffered := buffered[n..];
      inTime := if inTime == [] then [] else inTime[1..];
    }
  }

  /** How many bytes a read of `size` gets: all it asks for, unless the stream or the time runs out. */
  function Granted(stream: seq<byte>, inTime: seq<nat>, size: nat): (n: nat)
    ensures n <= |stream| && n <= size
    ensures size <= |stream| && (inTime == [] || size <= inTime[0]) ==> n == size
  {
    var n := if size <= |stream| then size else |stream|;
    if inTime != [] && inTime[0] < n then inTime[0] else n
  }

  function ReadSpec(stream: seq<byte>, inTime: seq<nat>, size: nat): (seq<byte>, seq<byte>, seq<nat>) {
    var n := Granted(stream, inTime, size);
    (stream[..n], stream[n..], if inTime == [] then [] else inTime[1..])
  }

  /** How many bytes the frame announces after its three header bytes. */
  function Remaining(header: seq<byte>, isRead: bool): nat
    requires |header| >= 3
  {
    if header[1] >= 0x80 then 2
    else if isRead then header[2] as int + 2
    else 5
  }

  function TransactSpec(stream: seq<byte>, inTime: seq<nat>, isRead: bool): (seq<byte>, seq<byte>) {
    var (header, rest, later) := ReadSpec(stream, inTime, 3);
    if |header| < 3 then (header, rest)
    else
      var (body, left, _) := ReadSpec(rest, later, Remaining(header, isRead));
      (header + body, left)
  }

  /** `_transact`: whatever was buffered before is dropped, the request goes out, one frame comes in. */
  method Transact(port: SerialPort, frame: seq<byte>, isRead: bool) returns (response: seq<byte>)
    modifies port
    ensures (response, port.buffered) == TransactSpec(old(port.answer), old(port.inTime), isRead)
    ensures port.sent == old(port.sent) + frame
  {
    port.ResetInputBuffer();
    port.Write(frame);
    assert port.buffered == old(port.answer);
    var header := port.Read(3);
    if |header| < 3 {
      return header;
    }
    var functionCode := header[1];
    if functionCode >= 0x80 {
      var code := port.Read(2);
      return header + code;
    }
    if isRead {
      var byteCount := header[2];
      var data := port.Read(byteCount as int + 2);
      return header + data;
    }
    var echo := port.Read(5);
    return header + echo;
  }

  // ---- what one transaction takes off the line ----

  /** A frame that is exactly as long as its own header says. */
  predicate SelfDelimiting(frame: seq<byte>, isRead: bool) {
    |frame| >= 3 && |frame| == 3 + Remaining(frame, isRead)
  }

  predicate Timely(inTime: seq<nat>, frame: seq<byte>) {
    (|inTime| > 0 ==> inTime[0] >= 3) && (|inTime| > 1 ==> inTime[1] >= |frame| - 3)
  }

  /** If the frame arrives in time, exactly the frame is taken, whatever follows it. */
  lemma TakesExactlyTheFrame(frame: seq<byte>, following: seq<byte>, inTime: seq<nat>, isRead: bool)
    requires SelfDelimiting(frame, isRead) && Timely(inTime, frame)
    ensures TransactSpec(frame + following, inTime, isRead) == (frame, following)
  {
    var stream := frame + following;
    assert stream[..3] == frame[..3];
    assert stream[3..] == frame[3..] + following;
    var header := stream[..3];
    assert Remaining(header, isRead) == Remaining(frame, isRead) == |frame| - 3;
    assert stream[3..][..|frame| - 3] == frame[3..] && stream[3..][|frame| - 3..] == following;
    assert frame[..3] + frame[3..] == frame;
  }

  /** Whatever the timing, what is taken is a prefix of the stream, and nothing is reordered or lost. */
  lemma TakesAPrefix(stream: seq<byte>, inTime: seq<nat>, isRead: bool)
    ensures var (response, left) := TransactSpec(stream, inTime, isRead);
      response + left == stream && (|response| >= 3 ==> |response| <= 3 + Remaining(response, isRead))
  {
    var (header, rest, later) := ReadSpec(stream, inTime, 3);
    assert header + rest == stream;
    if |header| == 3 {
      var (body, left, _) := ReadSpec(rest, later, Remaining(header, isRead));
      assert body + left == rest;
      assert (header + body) + left == header + (body + left);
      assert Remaining(header + body, isRead) == Remaining(header, isRead);
    }
  }

  lemma ReadResponsesAreSelfDelimiting(slaveId: byte, registers: seq<nat>)
    requires |registers| <= 127
    ensures SelfDelimiting(EncodeReadResponse(slaveId, registers), true)
    ensures EncodeReadResponse(slaveId, registers)[2] == 2 * |registers|
  {
    var body := [slaveId, READ_HOLDING_REGISTERS, 2 * |registers|] + RegisterBytes(registers);
    assert WithCrc(body)[1] == body[1] && WithCrc(body)[2] == body[2];
  }

  lemma WriteEchoesAreSelfDelimiting(slaveId: byte, address: int, value: int)
    ensures SelfDelimiting(BuildWriteSingleRegister(slaveId, address, value).value, false)
  {
    var body: seq<byte> := [slaveId, WRITE_SINGLE_REGISTER, High(address), Low(address), High(value), Low(value)];
    assert WithCrc(body)[1] == body[1];
  }

  lemma ExceptionsAreSelfDelimiting(slaveId: byte, functionCode: byte, code: byte, isRead: bool)
    requires functionCode >= 0x80
    ensures SelfDelimiting(WithCrc([slaveId, functionCode, code]), isRead)
  {
    var body: seq<byte> := [slaveId, functionCode, code];
    assert WithCrc(body)[1] == body[1];
  }

  predicate IsFrameError<T>(r: Result<T, ModbusError>) {
    r.Err? && !r.error.DeviceError?
  }

  /** A response cut short by a timeout is an error to both parsers, never a value. */
  lemma TruncatedResponsesAreErrors(stream: seq<byte>, inTime: seq<nat>, isRead: bool, slaveId: int, address: int,
      value: int)
    requires var response := TransactSpec(stream, inTime, isRead).0;
      |response| < 3 || |response| < 3 + Remaining(response, isRead)
    ensures var response := TransactSpec(stream, inTime, isRead).0;
      if isRead then IsFrameError(ParseReadResponse(slaveId, response))
      else IsFrameError(ParseWriteResponse(slaveId, address, value, response))
  {
  }

  // ---- whole calls ----

  method ReadHoldingRegisters(port: SerialPort, slaveId: byte, address: int, count: int)
    returns (r: Result<seq<nat>, ModbusError>)
    modifies port
    ensures r == ParseReadResponse(slaveId, TransactSpec(old(port.answer), old(port.inTime), true).0)
    ensures BuildReadHoldingRegisters(slaveId, address, count).Ok?
    ensures port.sent == old(port.sent) + BuildReadHoldingRegisters(slaveId, address, count).value
  {
    var frame := BuildReadHoldingRegisters(slaveId, address, count).value;
    var response := Transact(port, frame, true);
    r := ParseReadResponse(slaveId, response);
  }

  method WriteSingleRegister(port: SerialPort, slaveId: byte, address: int, value: int)
    returns (r: Result<(), ModbusError>)
    modifies port
    ensures r == ParseWriteResponse(slaveId, address, value, TransactSpec(old(port.answer), old(port.inTime), false).0)
    ensures BuildWriteSingleRegister(slaveId, address, value).Ok?
    ensures port.sent == old(port.sent) + BuildWriteSingleRegister(slaveId, address, value).value
  {
    var frame := BuildWriteSingleRegister(slaveId, address, value).value;
    var response := Transact(port, frame, false);
    r := ParseWriteResponse(slaveId, address, value, response);
  }

  /** A device that answers with its registers has them read back, however noisy the line was before
      and whatever it sends afterwards. */
  lemma RegistersAreReadBack(slaveId: byte, registers: seq<nat>, following: seq<byte>, inTime: seq<nat>)
    requires |registers| <= 127 && AreWords(registers)
    requires Timely(inTime, EncodeReadResponse(slaveId, registers))
    ensures var (response, left) := TransactSpec(EncodeReadResponse(slaveId, registers) + following, inTime, true);
      ParseReadResponse(slaveId, response) == Ok(registers) && left == following
  {
    hide TransactSpec, ParseReadResponse, EncodeReadResponse, WithCrc, Remaining;
    var frame := EncodeReadResponse(slaveId, registers);
    ReadResponsesAreSelfDelimiting(slaveId, registers);
    TakesExactlyTheFrame(frame, following, inTime, true);
    ReadParserInvertsEncoding(slaveId, registers, frame);
  }

  /** A write succeeds exactly when the first eight bytes that come back are the request itself. */
  lemma WritesAreConfirmedByTheirEcho(slaveId: byte, address: int, value: int, stream: seq<byte>, inTime: seq<nat>)
    requires IsWord(address) && IsWord(value)
    requires Timely(inTime, BuildWriteSingleRegister(slaveId, address, value).value)
    ensures var request := BuildWriteSingleRegister(slaveId, address, value).value;
      ParseWriteResponse(slaveId, address, value, TransactSpec(stream, inTime, false).0).Ok? <==> request <= stream
  {
    var request := BuildWriteSingleRegister(slaveId, address, value).value;
    WriteEchoesAreSelfDelimiting(slaveId, address, value);
    if request <= stream {
      var following := stream[|request|..];
      assert stream == request + following;
      TakesExactlyTheFrame(request, following, inTime, false);
      WriteParserAcceptsOnlyTheRequest(slaveId, address, value, request);
    }
    var response := TransactSpec(stream, inTime, false).0;
    if ParseWriteResponse(slaveId, address, value, response).Ok? {
      WriteParserAcceptsOnlyTheRequest(slaveId, address, value, response);
      TakesAPrefix(stream, inTime, false);
    }
  }
}
