/** The host side of a peripheral call (mailmsg_agent.py): which decisions are accepted, how they become a command,
    and the loop that waits for the acknowledgement and the result. */
module PeripheralAgent {
  import opened Words
  import opened Protocol
  import opened PeripheralCodec
  import opened PeripheralService
  import Ring

  const PRIORITY_CONTROL: u32 := 1

  // ----- Decisions -----

  /** A parsed tool call; Python integers have no width, and byte strings are already decoded. */
  datatype Decision =
    | GpioConfig(line: int, output: bool, level: int)
    | GpioWrite(line: int, level: int)
    | GpioRead(line: int)
    | UartWrite(port: int, data: seq<bv8>)
    | UartRead(port: int, length: int)
    | I2cWrite(address: int, data: seq<bv8>)
    | I2cRead(address: int, length: int)
    | I2cWriteRead(address: int, data: seq<bv8>, length: int)
    | SpiTransfer(chipSelect: int, mode: int, data: seq<bv8>)
    | PwmSet(period: int, duty: int, polarity: int)
    | PwmStop
    | AdcRead(channel: int)

  predicate OwnedLine(line: int) {
    line == 25 || line == 28 || line == 29
  }

  predicate Accepted(d: Decision) {
    match d
    case GpioConfig(line, _, level) => OwnedLine(line) && 0 <= level <= 1
    case GpioWrite(line, level) => OwnedLine(line) && 0 <= level <= 1
    case GpioRead(line) => OwnedLine(line)
    case UartWrite(port, data) => (port == 5 || port == 7) && 1 <= |data| <= 8
    case UartRead(port, length) => (port == 5 || port == 7) && 1 <= length <= 8
    case I2cWrite(address, data) => 0 <= address <= 127 && 1 <= |data| <= 8
    case I2cRead(address, length) => 0 <= address <= 127 && 1 <= length <= 8
    case I2cWriteRead(address, data, length) => 0 <= address <= 127 && 1 <= |data| <= 3 && 1 <= length <= 8
    case SpiTransfer(chipSelect, mode, data) => 0 <= chipSelect <= 1 && 0 <= mode <= 3 && 1 <= |data| <= 8
    case PwmSet(period, duty, polarity) =>
      1 <= period <= 0xffff_ffff && 0 <= duty <= 0xffff_ffff && 0 <= polarity <= 1 && duty <= period
    case PwmStop => true
    case AdcRead(channel) => 0 <= channel <= 7
  }

  /** The numbers of a decision are words, and its data fits a record. */
  predicate Fits(d: Decision) {
    match d
    case GpioConfig(line, _, level) => IsWord(line) && IsWord(level)
    case GpioWrite(line, level) => IsWord(line) && IsWord(level)
    case GpioRead(line) => IsWord(line)
    case UartWrite(port, data) => IsWord(port) && |data| <= 8
    case UartRead(port, length) => IsWord(port) && IsWord(length)
    case I2cWrite(address, data) => IsWord(address) && |data| <= 8
    case I2cRead(address, length) => IsWord(address) && IsWord(length)
    case I2cWriteRead(address, data, length) => IsWord(address) && IsWord(length) && |data| <= 8
    case SpiTransfer(chipSelect, mode, data) => IsWord(chipSelect) && IsWord(mode) && |data| <= 8
    case PwmSet(period, duty, polarity) => IsWord(period) && IsWord(duty) && IsWord(polarity)
    case PwmStop => true
    case AdcRead(channel) => IsWord(channel)
  }

  predicate IsWord(x: int) {
    0 <= x < 0x1_0000_0000
  }

  function Arguments(d: Decision): Command
    requires Fits(d)
  {
    match d
    case GpioConfig(line, output, level) => Command(GPIO_CONFIG, line, if output then 1 else 0, level, [])
    case GpioWrite(line, level) => Command(GPIO_WRITE, line, level, 0, [])
    case GpioRead(line) => Command(GPIO_READ, line, 0, 0, [])
    case UartWrite(port, data) => Command(UART_WRITE, port, 0, 0, data)
    case UartRead(port, length) => Command(UART_READ, port, length, 0, [])
    case I2cWrite(address, data) => Command(I2C_WRITE, address, 0, 0, data)
    case I2cRead(address, length) => Command(I2C_READ, address, length, 0, [])
    case I2cWriteRead(address, data, length) => Command(I2C_WRITE_READ, address, length, 0, data)
    case SpiTransfer(chipSelect, mode, data) => Command(SPI_TRANSFER, chipSelect, mode, 0, data)
    case PwmSet(period, duty, polarity) => Command(PWM_SET, period, duty, polarity, [])
    case PwmStop => Command(PWM_STOP, 0, 0, 0, [])
    case AdcRead(channel) => Command(ADC_READ, channel, 0, 0, [])
  }

  /** The payload of the request that an accepted decision turns into. */
  function RequestPayload(d: Decision): (s: seq<bv8>)
    requires Accepted(d)
    ensures |s| == 28
  {
    var c := Arguments(d);
    Pack(Record(c.op, c.arg0, c.arg1, c.arg2, |c.data|, Padded(c.data)))
  }

  lemma ArgumentsWellFormed(d: Decision, r: Record, spi: bool)
    requires Accepted(d)
    requires var c := Arguments(d); r == Record(c.op, c.arg0, c.arg1, c.arg2, |c.data|, Padded(c.data))
    ensures !Malformed(r, spi)
  {}

  /** Whatever the pin profile and whatever honest drivers answer, the service never calls an accepted decision
      invalid. */
  lemma AcceptedIsNeverInvalid(d: Decision, m: Ring.Message, spi: bool, b: Drivers)
    requires Accepted(d) && m.payload == RequestPayload(d) && Honest(b, Load(m.payload).word2)
    ensures Answer(m, spi, b).status != INVALID && Answer(m, spi, b).op == Arguments(d).op
  {
    var c := Arguments(d);
    var r := Record(c.op, c.arg0, c.arg1, c.arg2, |c.data|, Padded(c.data));
    LoadPacked(r);
    ArgumentsWellFormed(d, r, spi);
    InvalidExactly(r, spi, b);
  }

  // ----- What becomes of a decision -----

  /** The record that the agent writes to the p1 device: a PERIPHERAL_REQUEST of 28 bytes; the driver numbers it. */
  function RequestRecord(d: Decision): (s: seq<bv8>)
    requires Accepted(d)
    ensures |s| == 48
  {
    PackFrame(UserFrame(PRIORITY_CONTROL, MSG_PERIPHERAL_REQUEST, 0, 28, RequestPayload(d) + Zeros(4)))
  }

  /** The message that the driver makes of a record. */
  predicate Carried(record: seq<bv8>, m: Ring.Message)
    requires |record| == 48
  {
    var f := LoadFrame(record);
    f.priority == 1 && f.length == 28 && m.kind == f.kind && m.length == f.length && m.payload == f.payload[..28]
  }

  /** The decision as calls to the drivers: its own fields, operation by operation. */
  predicate Reaches(d: Decision, b: Drivers, calls: seq<Call>) {
    match d
    case GpioConfig(line, output, level) =>
      calls == if output then [ConfigureOutput(line, level)] else [ConfigureInput(line)]
    case GpioWrite(line, level) => calls == [SetLine(line, level)]
    case GpioRead(line) => calls == [GetLine(line)]
    case UartWrite(port, data) => calls == [UartSend(port, data)]
    case UartRead(port, length) => calls == [UartReceive(port, length)]
    case I2cWrite(address, data) => calls == [I2cSend(address, data)]
    case I2cRead(address, length) => calls == [I2cReceive(address, length)]
    case I2cWriteRead(address, data, length) => calls == [I2cSendReceive(address, data, length)]
    case SpiTransfer(chipSelect, mode, data) =>
      calls == if b.first == 0 then [SpiMode(mode), SpiExchange(chipSelect, data)] else [SpiMode(mode)]
    case PwmSet(period, duty, polarity) => calls == [PwmRun(period, duty, polarity)]
    case PwmStop => calls == [PwmHalt]
    case AdcRead(channel) => calls == if b.first == 0 then [AdcReset, AdcConvert(channel)] else [AdcReset]
  }

  /** The pin profile decides between SPI on the one hand and GPIO and I2C on the other. */
  predicate InProfile(d: Decision, spi: bool) {
    if spi then !(d.GpioConfig? || d.GpioWrite? || d.GpioRead? || d.I2cWrite? || d.I2cRead? || d.I2cWriteRead?)
    else !d.SpiTransfer?
  }

  lemma RequestCarried(d: Decision, m: Ring.Message)
    requires Accepted(d) && Carried(RequestRecord(d), m)
    ensures m.kind == MSG_PERIPHERAL_REQUEST && m.length == 28 && m.payload == RequestPayload(d)
  {
    var f := UserFrame(PRIORITY_CONTROL, MSG_PERIPHERAL_REQUEST, 0, 28, RequestPayload(d) + Zeros(4));
    FrameRoundTrip(f);
    assert f.payload[..28] == RequestPayload(d);
  }

  lemma CallsOf(d: Decision, r: Record, spi: bool, b: Drivers)
    requires Accepted(d)
    requires var c := Arguments(d); r == Record(c.op, c.arg0, c.arg1, c.arg2, |c.data|, Padded(c.data))
    ensures if InProfile(d, spi) then Reaches(d, b, Calls(r, spi, b)) else Calls(r, spi, b) == []
  {
    var c := Arguments(d);
    ArgumentsWellFormed(d, r, spi);
    assert Padded(c.data)[..|c.data|] == c.data;
  }

  /** Through packing, the driver and the service's loads: for every accepted decision the drivers are called with that
      decision's own arguments, and only then if the pin profile has the device; the answer is never "invalid
      argument", and "unavailable" if the profile has not. */
  lemma DecisionReachesTheDevice(d: Decision, m: Ring.Message, spi: bool, b: Drivers)
    requires Accepted(d) && Carried(RequestRecord(d), m) && Honest(b, Load(m.payload).word2)
    ensures m.kind == MSG_PERIPHERAL_REQUEST && m.length == 28
    ensures var calls := Calls(Load(m.payload), spi, b);
            if InProfile(d, spi) then Reaches(d, b, calls) else calls == [] && Answer(m, spi, b).status == UNAVAILABLE
    ensures Answer(m, spi, b).status != INVALID
  {
    RequestCarried(d, m);
    AcceptedIsNeverInvalid(d, m, spi, b);
    var c := Arguments(d);
    var r := Record(c.op, c.arg0, c.arg1, c.arg2, |c.data|, Padded(c.data));
    LoadPacked(r);
    CallsOf(d, r, spi, b);
    ArgumentsWellFormed(d, r, spi);
  }

  /** The words of the request that the answer speaks of: the operation, the length asked for, and the length sent. */
  lemma RequestWords(d: Decision, m: Ring.Message)
    requires Accepted(d) && Carried(RequestRecord(d), m)
    ensures LoadU32(m.payload, 0) == match d
                                     case GpioConfig(_, _, _) => 1
                                     case GpioWrite(_, _) => 2
                                     case GpioRead(_) => 3
                                     case UartWrite(_, _) => 4
                                     case UartRead(_, _) => 5
                                     case I2cWrite(_, _) => 6
                                     case I2cRead(_, _) => 7
                                     case I2cWriteRead(_, _, _) => 8
                                     case SpiTransfer(_, _, _) => 9
                                     case PwmSet(_, _, _) => 10
                                     case PwmStop => 11
                                     case AdcRead(_) => 12
    ensures d.UartRead? || d.I2cRead? || d.I2cWriteRead? ==> LoadU32(m.payload, 8) == d.length
    ensures d.SpiTransfer? ==> LoadU32(m.payload, 16) == |d.data|
  {
    RequestCarried(d, m);
    var c := Arguments(d);
    LoadPacked(Record(c.op, c.arg0, c.arg1, c.arg2, |c.data|, Padded(c.data)));
  }

  /** What the agent asks beyond the service: its own lines, ports with something to write, a period, a duty within it,
      a chip select and a channel that exist. */
  predicate Stricter(d: Decision) {
    match d
    case GpioConfig(line, _, _) => line in {25, 28, 29}
    case GpioWrite(line, _) => line in {25, 28, 29}
    case GpioRead(line) => line in {25, 28, 29}
    case UartWrite(_, data) => data != []
    case I2cWrite(_, data) => data != []
    case SpiTransfer(chipSelect, _, _) => chipSelect <= 1
    case PwmSet(period, duty, _) => period > 0 && duty <= period
    case AdcRead(channel) => channel <= 7
    case _ => true
  }

  /** The agent accepts a decision if and only if its numbers are words, its data fits, the service would not call it
      invalid in the profile that serves it, and those demands are met. */
  lemma AcceptedExactly(d: Decision)
    ensures Accepted(d) <==>
      && Fits(d) && Stricter(d)
      && var c := Arguments(d);
         !Malformed(Record(c.op, c.arg0, c.arg1, c.arg2, |c.data|, Padded(c.data)), d.SpiTransfer?)
  {}

  // ----- Waiting for the answer -----

  /** What one turn of the poll loop sees: the deadline has passed, nothing to read, the session is gone, a read that
      the driver fails (with its errno), or a record. */
  datatype Event = Deadline | Nothing | Hangup | ReadFails(errno: int) | Readable(bytes: seq<bv8>)

  datatype Ack = Ack(sequence: u32, peer: u32)

  /** `Escaped` is the operating system error that the loop does not catch. */
  datatype Outcome = Success(value: u32, data: seq<bv8>, peer: u32) | Failure(code: string) | Escaped(errno: int)

  /** Where a record leaves the loop: an error, an acknowledgement, or a result. */
  datatype Reading = Refused(code: string) | Acked(ack: Ack) | Resulted(result: Result)

  function Read(op: u32, bytes: seq<bv8>): Reading {
    if |bytes| != 48 then Refused("short_frame")
    else
      var f := LoadFrame(bytes);
      if f.priority != PRIORITY_CONTROL then Refused("wrong_priority")
      else if f.length > 28 then Refused("invalid_frame")
      else if f.kind == MSG_ACK then
        if f.length < 8 then Refused("invalid_ack")
        else if LoadU32(f.payload, 4) != 0 then Refused("ack_failed")
        else Acked(Ack(f.sequence, LoadU32(f.payload, 0)))
      else if f.kind == MSG_NACK then Refused("nack")
      else if f.kind == MSG_PERIPHERAL_RESULT then
        if f.length != 28 then Refused("invalid_peripheral_result")
        else
          var r := UnpackResult(f.payload[..28]);
          if r.op != op || r.length > 8 then Refused("invalid_peripheral_result") else Resulted(r)
      else Refused("unexpected_frame")
  }

  /** The name that the agent gives a status of the service. */
  function StatusError(status: i32): string {
    if status == -1 then "peripheral_invalid_request"
    else if status == -2 then "peripheral_timeout"
    else if status == UNAVAILABLE then "peripheral_unavailable"
    else if status == INVALID then "peripheral_invalid_argument"
    else "peripheral_failed"
  }

  function Concluded(ack: Ack, r: Result): Outcome {
    if ack.peer != r.sequence then Failure("sequence_mismatch")
    else if r.status != 0 then Failure(StatusError(r.status))
    else Success(r.value, Inlined(r), r.sequence)
  }

  /** Python slices stop at the end of what they slice. */
  function Inlined(r: Result): seq<bv8> {
    r.data[..if r.length <= 8 then r.length else 8]
  }

  /** The loop as a function of what it still lacks and of the events to come; with no more events it times out. */
  function Awaited(op: u32, ack: Option<Ack>, result: Option<Result>, events: seq<Event>): Outcome
    decreases |events|
  {
    if ack.Some? && result.Some? then Concluded(ack.value, result.value)
    else if events == [] || events[0].Deadline? then Failure("timeout")
    else if events[0].Nothing? then Awaited(op, ack, result, events[1..])
    else if events[0].Hangup? then Failure("mailmsg_offline")
    else if events[0].ReadFails? then Escaped(events[0].errno)
    else
      match Read(op, events[0].bytes)
      case Refused(code) => Failure(code)
      case Acked(a) => Awaited(op, Some(a), result, events[1..])
      case Resulted(r) => Awaited(op, ack, Some(r), events[1..])
  }

  method AwaitAnswer(op: u32, events: seq<Event>) returns (outcome: Outcome)
    ensures outcome == Awaited(op, None, None, events)
  {
    var ack: Option<Ack>, result: Option<Result> := None, None;
    var i := 0;
    while ack.None? || result.None?
      invariant 0 <= i <= |events|
      invariant Awaited(op, ack, result, events[i..]) == Awaited(op, None, None, events)
      decreases |events| - i
    {
      if i == |events| || events[i].Deadline? { return Failure("timeout"); }
      var event := events[i];
      assert events[i..][0] == event && events[i..][1..] == events[i + 1..];
      i := i + 1;
      if event.Nothing? { continue; }
      if event.Hangup? { return Failure("mailmsg_offline"); }
      if event.ReadFails? { return Escaped(event.errno); }
      var reading := Read(op, event.bytes);
      if reading.Refused? { return Failure(reading.code); }
      if reading.Acked? { ack := Some(reading.ack); } else { result := Some(reading.result); }
    }
    if ack.value.peer != result.value.sequence { return Failure("sequence_mismatch"); }
    if result.value.status != 0 { return Failure(StatusError(result.value.status)); }
    return Success(result.value.value, Inlined(result.value), result.value.sequence);
  }

  // ----- The loop over what it has made of each event -----

  /** What an event means for the loop: it is over, it goes on, or it has an acknowledgement or a result. */
  datatype Turn = Over(outcome: Outcome) | Idle | AckSeen(ack: Ack) | ResultSeen(result: Result)

  function Seen(op: u32, event: Event): Turn {
    match event
    case Deadline => Over(Failure("timeout"))
    case Nothing => Idle
    case Hangup => Over(Failure("mailmsg_offline"))
    case ReadFails(errno) => Over(Escaped(errno))
    case Readable(bytes) =>
      match Read(op, bytes)
      case Refused(code) => Over(Failure(code))
      case Acked(ack) => AckSeen(ack)
      case Resulted(result) => ResultSeen(result)
  }

  function SeenFor(op: u32): Event -> Turn {
    (event: Event) => Seen(op, event)
  }

  function Turns(seen: Event -> Turn, events: seq<Event>): seq<Turn> {
    if events == [] then [] else [seen(events[0])] + Turns(seen, events[1..])
  }

  function Settled(ack: Option<Ack>, result: Option<Result>, turns: seq<Turn>): Outcome
    decreases |turns|
  {
    if ack.Some? && result.Some? then Concluded(ack.value, result.value)
    else if turns == [] then Failure("timeout")
    else
      match turns[0]
      case Over(outcome) => outcome
      case Idle => Settled(ack, result, turns[1..])
      case AckSeen(a) => Settled(Some(a), result, turns[1..])
      case ResultSeen(r) => Settled(ack, Some(r), turns[1..])
  }

  lemma {:induction false} AwaitedIsSettled(op: u32, ack: Option<Ack>, result: Option<Result>, events: seq<Event>)
    ensures Awaited(op, ack, result, events) == Settled(ack, result, Turns(SeenFor(op), events))
    decreases |events|
  {
    if !(ack.Some? && result.Some?) && events != [] {
      var turn := Seen(op, events[0]);
      var turns := Turns(SeenFor(op), events);
      assert turns[0] == turn && turns[1..] == Turns(SeenFor(op), events[1..]);
      if turn.Idle? { AwaitedIsSettled(op, ack, result, events[1..]); }
      else if turn.AckSeen? { AwaitedIsSettled(op, Some(turn.ack), result, events[1..]); }
      else if turn.ResultSeen? { AwaitedIsSettled(op, ack, Some(turn.result), events[1..]); }
    }
  }

  /** With nothing to read, what ends the waiting is the deadline, the end of the session, or a failed read. */
  lemma {:induction false} SilenceExactly(op: u32, ack: Option<Ack>, result: Option<Result>, events: seq<Event>, n: nat)
    requires (ack.None? || result.None?) && n <= |events| && forall i :: 0 <= i < n ==> events[i].Nothing?
    ensures n == |events| || events[n].Deadline? ==> Awaited(op, ack, result, events) == Failure("timeout")
    ensures n < |events| && events[n].Hangup? ==> Awaited(op, ack, result, events) == Failure("mailmsg_offline")
    ensures n < |events| && events[n].ReadFails? ==> Awaited(op, ack, result, events) == Escaped(events[n].errno)
    decreases n
  {
    if n > 0 { SilenceExactly(op, ack, result, events[1..], n - 1); }
  }

  // ----- Whose answer it is -----

  /** What the agent reads, record by record. */
  function Readings(op: u32, events: seq<Event>): seq<Reading> {
    if events == [] then []
    else (if events[0].Readable? then [Read(op, events[0].bytes)] else []) + Readings(op, events[1..])
  }

  /** A success has read an acknowledgement and a result that name the same request, with status zero, and reports the
      value and data of that result. */
  lemma {:induction false} SuccessHasBoth(op: u32, ack: Option<Ack>, result: Option<Result>, events: seq<Event>)
    returns (a: Ack, r: Result)
    requires Awaited(op, ack, result, events).Success?
    ensures Awaited(op, ack, result, events) == Concluded(a, r) && a.peer == r.sequence && r.status == 0
    ensures ack == Some(a) || Acked(a) in Readings(op, events)
    ensures result == Some(r) || Resulted(r) in Readings(op, events)
    decreases |events|
  {
    if ack.Some? && result.Some? {
      a, r := ack.value, result.value;
    } else if events[0].Nothing? {
      a, r := SuccessHasBoth(op, ack, result, events[1..]);
    } else {
      var reading := Read(op, events[0].bytes);
      if reading.Acked? { a, r := SuccessHasBoth(op, Some(reading.ack), result, events[1..]); }
      else { a, r := SuccessHasBoth(op, ack, Some(reading.result), events[1..]); }
    }
  }
}
