/** The dispatch of one peripheral request on CPU3 (rk3588_peripheral_service.c). */
module PeripheralService {
  import opened Words
  import opened Protocol
  import opened PeripheralCodec
  import WordShifts
  import Ring

  const UNAVAILABLE: i32 := -19
  const INVALID: i32 := -22

  const GPIO_CONFIG: u32 := 1
  const GPIO_WRITE: u32 := 2
  const GPIO_READ: u32 := 3
  const UART_WRITE: u32 := 4
  const UART_READ: u32 := 5
  const I2C_WRITE: u32 := 6
  const I2C_READ: u32 := 7
  const I2C_WRITE_READ: u32 := 8
  const SPI_TRANSFER: u32 := 9
  const PWM_SET: u32 := 10
  const PWM_STOP: u32 := 11
  const ADC_READ: u32 := 12

  /** What the device drivers behind the service answer: the status of the first call, of the second where there is
      one, a level or conversion, and the bytes that a read delivered. */
  datatype Drivers = Drivers(first: i32, second: i32, value: u32, received: nat, bytes: Inline)

  /** No driver uses the service's own code for a bad argument, and a read delivers no more than it was asked for. */
  ghost predicate Honest(b: Drivers, wanted: u32) {
    b.first != INVALID && b.second != INVALID && b.received <= wanted
  }

  datatype Served = Served(status: i32, value: u32, length: u32)

  /** The requests whose arguments the service refuses, in the pin profile that it runs in. */
  predicate Malformed(r: Record, spi: bool) {
    var op, arg0, arg1, arg2, length := r.word0, r.word1, r.word2, r.word3, r.word4;
    || length > 8
    || (op == GPIO_CONFIG && (arg1 > 1 || arg2 > 1))
    || (op == GPIO_WRITE && arg1 > 1)
    || (op == UART_WRITE && arg0 != 5 && arg0 != 7)
    || (op == UART_READ && ((arg0 != 5 && arg0 != 7) || arg1 == 0 || arg1 > 8))
    || (op == I2C_WRITE && !spi && arg0 > 127)
    || (op == I2C_READ && !spi && (arg0 > 127 || arg1 == 0 || arg1 > 8))
    || (op == I2C_WRITE_READ && !spi && (arg0 > 127 || length == 0 || length > 3 || arg1 == 0 || arg1 > 8))
    || (op == SPI_TRANSFER && spi && (length == 0 || arg1 > 3))
    || (op == PWM_SET && arg2 > 1)
    || op == 0 || op > 12
  }

  /** The operations that the pin profile leaves out. */
  predicate Unavailable(op: u32, spi: bool) {
    if spi then op in {GPIO_CONFIG, GPIO_WRITE, GPIO_READ, I2C_WRITE, I2C_READ, I2C_WRITE_READ} else op == SPI_TRANSFER
  }

  /** How an available, well-formed operation answers, from what its drivers answered. */
  function Driven(r: Record, b: Drivers): Served {
    var op := r.word0;
    if op == GPIO_READ then Served(b.first, b.value, 0)
    else if op == UART_READ then Served(b.first, 0, if b.received <= 8 then b.received else 0)
    else if op == I2C_READ || op == I2C_WRITE_READ then Served(b.first, 0, if b.first == 0 then r.word2 else 0)
    else if op == SPI_TRANSFER then
      var status := if b.first == 0 then b.second else b.first;
      Served(status, 0, if status == 0 then r.word4 else 0)
    else if op == ADC_READ then
      if b.first == 0 then Served(b.second, b.value, 0) else Served(b.first, 0, 0)
    else Served(b.first, 0, 0)
  }

  function Serve(r: Record, spi: bool, b: Drivers): Served {
    if Malformed(r, spi) then Served(INVALID, 0, 0)
    else if Unavailable(r.word0, spi) then Served(UNAVAILABLE, 0, 0)
    else Driven(r, b)
  }

  // ----- What it asks of the drivers -----

  /** A call that the service makes to a device driver. */
  datatype Call =
    | ConfigureOutput(line: int, level: int) | ConfigureInput(line: int) | SetLine(line: int, level: int)
    | GetLine(line: int)
    | UartSend(port: int, data: seq<bv8>) | UartReceive(port: int, length: int)
    | I2cSend(address: int, data: seq<bv8>) | I2cReceive(address: int, length: int)
    | I2cSendReceive(address: int, data: seq<bv8>, length: int)
    | SpiMode(mode: int) | SpiExchange(chipSelect: int, data: seq<bv8>)
    | PwmRun(period: int, duty: int, polarity: int) | PwmHalt
    | AdcReset | AdcConvert(channel: int)

  /** The calls that a request leads to, in order; a second call is made only if the first succeeds. */
  function Calls(r: Record, spi: bool, b: Drivers): seq<Call> {
    var op, arg0, arg1, arg2 := r.word0, r.word1, r.word2, r.word3;
    if Malformed(r, spi) || Unavailable(op, spi) then []
    else
      var data := r.data[..r.word4];
      if op == GPIO_CONFIG then [if arg1 != 0 then ConfigureOutput(arg0, arg2) else ConfigureInput(arg0)]
      else if op == GPIO_WRITE then [SetLine(arg0, arg1)]
      else if op == GPIO_READ then [GetLine(arg0)]
      else if op == UART_WRITE then [UartSend(arg0, data)]
      else if op == UART_READ then [UartReceive(arg0, arg1)]
      else if op == I2C_WRITE then [I2cSend(arg0, data)]
      else if op == I2C_READ then [I2cReceive(arg0, arg1)]
      else if op == I2C_WRITE_READ then [I2cSendReceive(arg0, data, arg1)]
      else if op == SPI_TRANSFER then [SpiMode(arg1)] + if b.first == 0 then [SpiExchange(arg0, data)] else []
      else if op == PWM_SET then [PwmRun(arg0, arg1, arg2)]
      else if op == PWM_STOP then [PwmHalt]
      else [AdcReset] + if b.first == 0 then [AdcConvert(arg0)] else []
  }

  /** The service answers "invalid argument" exactly for the malformed requests. */
  lemma InvalidExactly(r: Record, spi: bool, b: Drivers)
    requires Honest(b, r.word2)
    ensures Serve(r, spi, b).status == INVALID <==> Malformed(r, spi)
  {}

  lemma ServedFits(r: Record, spi: bool, b: Drivers)
    requires Honest(b, r.word2)
    ensures Serve(r, spi, b).length <= 8
  {}

  function Answer(m: Ring.Message, spi: bool, b: Drivers): Result {
    var r := Load(m.payload);
    var served := Serve(r, spi, b);
    Result(m.sequence, served.status, r.word0, served.value, served.length,
           if served.length <= 8 then Padded(b.bytes[..served.length]) else b.bytes)
  }

  /** What a successful answer says, in terms of what the drivers said: a level or conversion for the two reads of a
      value, the bytes received for the four that receive, zeros behind them, and nothing else. */
  lemma SuccessReportsTheDrivers(m: Ring.Message, spi: bool, b: Drivers, a: Result)
    requires Honest(b, LoadU32(m.payload, 8)) && a == Answer(m, spi, b)
    ensures a.sequence == m.sequence && a.op == LoadU32(m.payload, 0)
    ensures a.status == 0 ==>
      && b.first == 0 && (a.op == SPI_TRANSFER || a.op == ADC_READ ==> b.second == 0)
      && a.value == (if a.op == GPIO_READ || a.op == ADC_READ then b.value else 0)
      && a.length == (if a.op == UART_READ then b.received
                      else if a.op == I2C_READ || a.op == I2C_WRITE_READ then LoadU32(m.payload, 8)
                      else if a.op == SPI_TRANSFER then LoadU32(m.payload, 16) else 0)
      && a.length <= 8
      && (forall k :: 0 <= k < a.length ==> a.data[k] == b.bytes[k])
      && (forall k :: a.length <= k < 8 ==> a.data[k] == 0)
    ensures a.status == 0 ==> a.op in {1, 2, 3, 4, 5, 6, 7, 8, 9, 10, 11, 12}
    ensures var calls := Calls(Load(m.payload), spi, b);
            && (calls == [] ==> a.status == INVALID || a.status == UNAVAILABLE)
            && (|calls| == 1 ==> a.status == b.first) && (|calls| == 2 ==> a.status == b.second) && |calls| <= 2
            && (calls != [] && a.op == UART_READ ==> a.length == b.received)
  {
    var r := Load(m.payload);
    ServedFits(r, spi, b);
  }

  lemma AnswerIs(m: Ring.Message, spi: bool, b: Drivers, r: Record, served: Served)
    requires r == Load(m.payload) && served == Serve(r, spi, b) && served.length <= 8
    ensures StoreResult(Answer(m, spi, b)) ==
            Pack(Record(m.sequence, ToUnsigned(served.status), r.word0, served.value, served.length,
                        Padded(b.bytes[..served.length])))
  {}

  class Service {
    var spiProfile: bool

    /** The status locals of the switch, one branch for each operation. */
    method Dispatch(r: Record, b: Drivers) returns (status: i32, value: u32, outLength: u32, calls: seq<Call>)
      requires Honest(b, r.word2)
      ensures Served(status, value, outLength) == Serve(r, spiProfile, b)
      ensures status == INVALID <==> Malformed(r, spiProfile)
      ensures status != 0 ==> outLength == 0 || r.word0 == UART_READ
      ensures calls == Calls(r, spiProfile, b)
    {
      var op, arg0, arg1, arg2, length := r.word0, r.word1, r.word2, r.word3, r.word4;
      status, value, outLength, calls := 0, 0, 0, [];
      var data := if length <= 8 then r.data[..length] else [];
      if length > 8 {
        status := INVALID;
      } else if op == GPIO_CONFIG {
        if arg1 > 1 || arg2 > 1 { status := INVALID; }
        else if spiProfile { status := UNAVAILABLE; }
        else {
          calls := if arg1 != 0 then [ConfigureOutput(arg0, arg2)] else [ConfigureInput(arg0)];
          status := b.first;
        }
      } else if op == GPIO_WRITE {
        if arg1 > 1 { status := INVALID; }
        else if spiProfile { status := UNAVAILABLE; }
        else { calls, status := [SetLine(arg0, arg1)], b.first; }
      } else if op == GPIO_READ {
        if spiProfile { status := UNAVAILABLE; } else { calls, status, value := [GetLine(arg0)], b.first, b.value; }
      } else if op == UART_WRITE {
        if arg0 == 5 || arg0 == 7 { calls, status := [UartSend(arg0, data)], b.first; } else { status := INVALID; }
      } else if op == UART_READ {
        if (arg0 != 5 && arg0 != 7) || arg1 == 0 || arg1 > 8 { status := INVALID; }
        else { calls, status, outLength := [UartReceive(arg0, arg1)], b.first, b.received; }
      } else if op == I2C_WRITE {
        if spiProfile { status := UNAVAILABLE; }
        else if arg0 > 127 { status := INVALID; }
        else { calls, status := [I2cSend(arg0, data)], b.first; }
      } else if op == I2C_READ {
        if spiProfile || arg0 > 127 || arg1 == 0 || arg1 > 8 {
          status := if spiProfile then UNAVAILABLE else INVALID;
        } else {
          calls, status := [I2cReceive(arg0, arg1)], b.first;
          outLength := if status != 0 then 0 else arg1;
        }
      } else if op == I2C_WRITE_READ {
        if spiProfile || arg0 > 127 || length == 0 || length > 3 || arg1 == 0 || arg1 > 8 {
          status := if spiProfile then UNAVAILABLE else INVALID;
        } else {
          calls, status := [I2cSendReceive(arg0, data, arg1)], b.first;
          outLength := if status != 0 then 0 else arg1;
        }
      } else if op == SPI_TRANSFER {
        if !spiProfile || length == 0 || arg1 > 3 {
          status := if spiProfile then INVALID else UNAVAILABLE;
        } else {
          calls, status := [SpiMode(arg1)], b.first;
          if status == 0 { calls, status := calls + [SpiExchange(arg0, data)], b.second; }
          outLength := if status != 0 then 0 else length;
        }
      } else if op == PWM_SET {
        if arg2 > 1 { status := INVALID; } else { calls, status := [PwmRun(arg0, arg1, arg2)], b.first; }
      } else if op == PWM_STOP {
        calls, status := [PwmHalt], b.first;
      } else if op == ADC_READ {
        calls, status := [AdcReset], b.first;
        if status == 0 { calls, status, value := calls + [AdcConvert(arg0)], b.second, b.value; }
      } else {
        status := INVALID;
      }
    }

    static method StoreWord(p: array<bv8>, offset: nat, value: u32)
      requires offset + 4 <= p.Length
      modifies p
      ensures p[..] == old(p[..offset]) + StoreU32(value) + old(p[offset + 4..])
    {
      var bytes := WordShifts.StoreWord(value);
      p[offset], p[offset + 1], p[offset + 2], p[offset + 3] := bytes[0], bytes[1], bytes[2], bytes[3];
    }

    /** A malformed envelope answers -1 and leaves the buffer alone; anything else fills it with one result record. */
    method Execute(m: Ring.Message, b: Drivers, result: array<bv8>) returns (ret: int, calls: seq<Call>)
      requires result.Length == 28 && Honest(b, Load(m.payload).word2)
      modifies result
      ensures ret == if m.kind == MSG_PERIPHERAL_REQUEST && m.length == 28 then 0 else -1
      ensures ret == 0 ==> result[..] == StoreResult(Answer(m, spiProfile, b))
      ensures ret != 0 ==> result[..] == old(result[..])
      ensures calls == if ret == 0 then Calls(Load(m.payload), spiProfile, b) else []
    {
      if m.kind != MSG_PERIPHERAL_REQUEST || m.length != 28 { return -1, []; }
      var r := LoadInC(m.payload);
      var status, value, outLength;
      status, value, outLength, calls := Dispatch(r, b);
      ServedFits(r, spiProfile, b);
      FillResult(result, m.sequence, ToUnsigned(status), r.word0, value, outLength, b.bytes);
      AnswerIs(m, spiProfile, b, r, Served(status, value, outLength));
      ret := 0;
    }

    /** Stores the next word of a record that is zero from there on. */
    static method StoreNext(p: array<bv8>, ghost head: seq<bv8>, offset: nat, value: u32)
      requires |head| == offset && offset + 4 <= p.Length && p[..] == head + Zeros(p.Length - offset)
      modifies p
      ensures p[..] == head + StoreU32(value) + Zeros(p.Length - offset - 4)
    {
      StoreWord(p, offset, value);
      assert old(p[..offset]) == head && old(p[offset + 4..]) == Zeros(p.Length - offset - 4);
    }

    static method FillResult(result: array<bv8>, w0: u32, w1: u32, w2: u32, w3: u32, length: u32, bytes: Inline)
      requires result.Length == 28 && length <= 8
      modifies result
      ensures result[..] == Pack(Record(w0, w1, w2, w3, length, Padded(bytes[..length])))
    {
      forall i | 0 <= i < 28 { result[i] := 0; }
      assert result[..] == [] + Zeros(28);
      StoreNext(result, [], 0, w0);
      assert [] + StoreU32(w0) == StoreU32(w0);
      ghost var head := StoreU32(w0);
      StoreNext(result, head, 4, w1);
      head := head + StoreU32(w1);
      StoreNext(result, head, 8, w2);
      head := head + StoreU32(w2);
      StoreNext(result, head, 12, w3);
      head := head + StoreU32(w3);
      StoreNext(result, head, 16, length);
      head := head + StoreU32(length);
      CopyInline(result, head, length, bytes);
    }

    static method CopyInline(result: array<bv8>, ghost head: seq<bv8>, length: u32, bytes: Inline)
      requires result.Length == 28 && |head| == 20 && length <= 8 && result[..] == head + Zeros(8)
      modifies result
      ensures result[..] == head + Padded(bytes[..length])
    {
      var i := 0;
      while i < length
        invariant 0 <= i <= length
        invariant result[..] == head + (bytes[..i] + Zeros(8 - i))
      {
        result[20 + i] := bytes[i];
        i := i + 1;
      }
    }
  }
}
