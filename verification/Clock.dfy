/** The clock sequencer of the peripherals that Zephyr owns (rk3588_peripheral_clock.c): ordered write-masked
    register writes to the RK3588 clock and reset unit. */
module Clock {

  const CLOCK_OK: int := 0
  const CLOCK_INVALID: int := -1

  /** Register numbers, in words from the base: CLKSEL_CON(n) at 0x300 and CLKGATE_CON(n) at 0x800. */
  const REGISTERS: nat := 528
  const UART5_MUX: nat := 192 + 51
  const UART7_MUX: nat := 192 + 55
  const I2C7_MUX: nat := 192 + 38
  const SHARED_MUX: nat := 192 + 59
  const SARADC_CON: nat := 192 + 40
  const TOP_PCLK_GATE: nat := 512 + 10
  const PERIPH_GATE: nat := 512 + 11
  const UART_PCLK_GATE: nat := 512 + 12
  const UART_SCLK_GATE: nat := 512 + 13
  const SPI_GATE: nat := 512 + 14
  const PWM_GATE: nat := 512 + 15

  datatype Peripheral = Uart5 | Uart7 | I2c7 | Spi0 | Pwm1 | Saradc

  /** A 32-bit word, as the set of the positions of its one bits. */
  type Word = w: set<nat> | forall i :: i in w ==> i < 32 witness {}

  /** A write as the hardware carries it out: the bits of `mask` take the bits of `value`. */
  datatype Write = Write(reg: nat, mask: Word, value: Word)

  function Put(v: Word, mask: Word, value: Word): Word {
    (v - mask) + (value * mask)
  }

  ghost predicate Valid(w: Write) {
    w.reg < REGISTERS
  }

  function Written(s: seq<Word>, w: Write): (t: seq<Word>)
    requires |s| == REGISTERS && w.reg < REGISTERS
    ensures |t| == REGISTERS
  {
    s[w.reg := Put(s[w.reg], w.mask, w.value)]
  }

  /** Gate bits are 1 for closed. */
  function GateWrite(reg: nat, bit: nat, enable: bool): Write
    requires bit < 32
  {
    Write(reg, {bit}, if enable then {} else {bit})
  }

  function EnableWrites(p: Peripheral): seq<Write> {
    match p
    case Uart5 => UartWrites(UART5_MUX, 6, 9)
    case Uart7 => UartWrites(UART7_MUX, 8, 15)
    case I2c7 =>
      [GateWrite(PERIPH_GATE, 6, false), Write(I2C7_MUX, {12}, {12}),
       GateWrite(TOP_PCLK_GATE, 14, true), GateWrite(PERIPH_GATE, 6, true)]
    case Spi0 =>
      [GateWrite(SPI_GATE, 11, false), Write(SHARED_MUX, {2, 3}, {3}),
       GateWrite(SPI_GATE, 6, true), GateWrite(SPI_GATE, 11, true)]
    case Pwm1 =>
      [GateWrite(PWM_GATE, 4, false), GateWrite(PWM_GATE, 5, false), Write(SHARED_MUX, {12, 13}, {13}),
       GateWrite(PWM_GATE, 3, true), GateWrite(PWM_GATE, 4, true), GateWrite(PWM_GATE, 5, true)]
    case Saradc =>
      [GateWrite(PERIPH_GATE, 15, false), Write(SARADC_CON, {14}, {14}),
       Write(SARADC_CON, {6, 7, 8, 9, 10, 11, 12, 13}, {6, 7, 8, 10}),
       GateWrite(PERIPH_GATE, 14, true), GateWrite(PERIPH_GATE, 15, true)]
  }

  function UartWrites(mux: nat, pclk: nat, sclk: nat): seq<Write>
    requires pclk < 32 && sclk < 32
  {
    [GateWrite(UART_SCLK_GATE, sclk, false), Write(mux, {0, 1}, {1}),
     GateWrite(UART_PCLK_GATE, pclk, true), GateWrite(UART_SCLK_GATE, sclk, true)]
  }

  function DisableWrites(p: Peripheral): seq<Write> {
    match p
    case Uart5 => [GateWrite(UART_SCLK_GATE, 9, false), GateWrite(UART_PCLK_GATE, 6, false)]
    case Uart7 => [GateWrite(UART_SCLK_GATE, 15, false), GateWrite(UART_PCLK_GATE, 8, false)]
    case I2c7 => [GateWrite(PERIPH_GATE, 6, false), GateWrite(TOP_PCLK_GATE, 14, false)]
    case Spi0 => [GateWrite(SPI_GATE, 11, false), GateWrite(SPI_GATE, 6, false)]
    case Pwm1 => [GateWrite(PWM_GATE, 5, false), GateWrite(PWM_GATE, 4, false), GateWrite(PWM_GATE, 3, false)]
    case Saradc => [GateWrite(PERIPH_GATE, 15, false), GateWrite(PERIPH_GATE, 14, false)]
  }

  datatype Call = Call(enable: bool, p: Peripheral)

  function Writes(c: Call): (ws: seq<Write>) {
    if c.enable then EnableWrites(c.p) else DisableWrites(c.p)
  }

  ghost predicate AllValid(ws: seq<Write>) {
    forall i :: 0 <= i < |ws| ==> Valid(ws[i])
  }

  function WrittenAll(s: seq<Word>, ws: seq<Write>): (t: seq<Word>)
    requires |s| == REGISTERS && forall i :: 0 <= i < |ws| ==> ws[i].reg < REGISTERS
    ensures |t| == REGISTERS
    decreases |ws|
  {
    if ws == [] then s else WrittenAll(Written(s, ws[0]), ws[1..])
  }

  lemma CallsAreValid(c: Call)
    ensures AllValid(Writes(c))
  {}

  // ----- The registers, written in place -----

  /** The C shift: bits that leave the word are lost. */
  function ShiftLeft(w: Word, n: nat): Word {
    set i | i in w && i + n < 32 :: i + n
  }

  /** The halves of a word that the hardware tells apart: which bits to change, and to what. */
  function UpperHalf(w: Word): Word {
    set i | i in w && i >= 16 :: i - 16
  }

  function LowerHalf(w: Word): Word {
    set i | i in w && i < 16
  }

  predicate Low(w: Word) {
    forall i :: i in w ==> i < 16
  }

  function HiwordWord(m: Word, v: Word): Word {
    ShiftLeft(m, 16) + v
  }

  function Decode(reg: nat, word: Word): Write {
    Write(reg, UpperHalf(word), LowerHalf(word))
  }

  lemma HiwordDecodes(reg: nat, m: Word, v: Word)
    requires Low(m) && Low(v)
    ensures Decode(reg, HiwordWord(m, v)) == Write(reg, m, v)
  {
    var word := HiwordWord(m, v);
    forall i | i in m ensures i in UpperHalf(word) { assert i + 16 in ShiftLeft(m, 16); }
    assert UpperHalf(word) == m;
    assert LowerHalf(word) == v;
  }

  lemma ShiftWithin(a: Word, b: Word, n: nat)
    requires a <= b && Low(ShiftLeft(b, n))
    ensures Low(ShiftLeft(a, n))
  {
    forall j | j in ShiftLeft(a, n) ensures j < 16 { assert j in ShiftLeft(b, n); }
  }

  class Cru {
    const regs: array<Word>

    ghost predicate Ready() {
      regs.Length == REGISTERS
    }

    constructor (initial: seq<Word>)
      requires |initial| == REGISTERS
      ensures fresh(regs) && Ready() && regs[..] == initial
    {
      regs := new Word[REGISTERS](i requires 0 <= i < |initial| => initial[i]);
      new;
      assert regs[..] == initial;
    }

    /** What the hardware does with a 32-bit write. */
    method Write32(word: Word, reg: nat)
      requires Ready() && reg < REGISTERS
      modifies regs
      ensures regs[..] == Written(old(regs[..]), Decode(reg, word))
    {
      var mask, value := UpperHalf(word), LowerHalf(word);
      regs[reg] := (regs[reg] - mask) + (value * mask);
    }

    method HiwordUpdate(reg: nat, mask: Word, shift: nat, value: Word)
      requires Ready() && reg < REGISTERS && Low(ShiftLeft(mask, shift))
      modifies regs
      ensures regs[..] == Written(old(regs[..]), Write(reg, ShiftLeft(mask, shift), ShiftLeft(value * mask, shift)))
    {
      var shifted := ShiftLeft(mask, shift);
      var word := ShiftLeft(shifted, 16) + ShiftLeft(value * mask, shift);
      ShiftWithin(value * mask, mask, shift);
      HiwordDecodes(reg, shifted, ShiftLeft(value * mask, shift));
      Write32(word, reg);
    }

    method GateSet(reg: nat, bit: nat, enable: bool)
      requires Ready() && reg < REGISTERS && bit < 16
      modifies regs
      ensures regs[..] == Written(old(regs[..]), GateWrite(reg, bit, enable))
    {
      OneBit(bit);
      HiwordUpdate(reg, {0}, bit, if enable then {} else {0});
    }

    method UartEnable(mux: nat, pclk: nat, sclk: nat)
      requires Ready() && mux < REGISTERS && pclk < 16 && sclk < 16
      modifies regs
      ensures regs[..] == WrittenAll(old(regs[..]), UartWrites(mux, pclk, sclk))
    {
      ghost var s, ws := regs[..], UartWrites(mux, pclk, sclk);
      FieldTable();
      GateSet(UART_SCLK_GATE, sclk, false);
      HiwordUpdate(mux, {0, 1}, 0, {1});
      GateSet(UART_PCLK_GATE, pclk, true);
      GateSet(UART_SCLK_GATE, sclk, true);
      FourWrites(s, ws);
    }

    /** The codes of the C enumeration, in order; any other is refused and nothing is written. */
    method Enable(code: int) returns (ret: int)
      requires Ready()
      modifies regs
      ensures 0 <= code < 6 ==> ret == CLOCK_OK && regs[..] == WrittenAll(old(regs[..]), EnableWrites(Of(code)))
      ensures !(0 <= code < 6) ==> ret == CLOCK_INVALID && regs[..] == old(regs[..])
    {
      ghost var s := regs[..];
      FieldTable();
      if code == 0 {
        UartEnable(UART5_MUX, 6, 9);
      } else if code == 1 {
        UartEnable(UART7_MUX, 8, 15);
      } else if code == 2 {
        GateSet(PERIPH_GATE, 6, false);
        HiwordUpdate(I2C7_MUX, {0}, 12, {0});
        GateSet(TOP_PCLK_GATE, 14, true);
        GateSet(PERIPH_GATE, 6, true);
        FourWrites(s, EnableWrites(I2c7));
      } else if code == 3 {
        GateSet(SPI_GATE, 11, false);
        HiwordUpdate(SHARED_MUX, {0, 1}, 2, {1});
        GateSet(SPI_GATE, 6, true);
        GateSet(SPI_GATE, 11, true);
        FourWrites(s, EnableWrites(Spi0));
      } else if code == 4 {
        Pwm1Enable();
      } else if code == 5 {
        SaradcEnable();
      } else {
        return CLOCK_INVALID;
      }
      return CLOCK_OK;
    }

    method Pwm1Enable()
      requires Ready()
      modifies regs
      ensures regs[..] == WrittenAll(old(regs[..]), EnableWrites(Pwm1))
    {
      ghost var s := regs[..];
      FieldTable();
      GateSet(PWM_GATE, 4, false);
      GateSet(PWM_GATE, 5, false);
      ghost var m := regs[..];
      HiwordUpdate(SHARED_MUX, {0, 1}, 12, {1});
      GateSet(PWM_GATE, 3, true);
      GateSet(PWM_GATE, 4, true);
      GateSet(PWM_GATE, 5, true);
      ghost var ws := EnableWrites(Pwm1);
      FourWrites(m, ws[2..]);
      TwoThen(s, ws);
    }

    method SaradcEnable()
      requires Ready()
      modifies regs
      ensures regs[..] == WrittenAll(old(regs[..]), EnableWrites(Saradc))
    {
      ghost var s := regs[..];
      FieldTable();
      GateSet(PERIPH_GATE, 15, false);
      ghost var m := regs[..];
      HiwordUpdate(SARADC_CON, {0}, 14, {0});
      HiwordUpdate(SARADC_CON, {0, 1, 2, 3, 4, 5, 6, 7}, 6, {0, 1, 2, 4});
      GateSet(PERIPH_GATE, 14, true);
      GateSet(PERIPH_GATE, 15, true);
      ghost var ws := EnableWrites(Saradc);
      FourWrites(m, ws[1..]);
    }

    method Disable(code: int) returns (ret: int)
      requires Ready()
      modifies regs
      ensures 0 <= code < 6 ==> ret == CLOCK_OK && regs[..] == WrittenAll(old(regs[..]), DisableWrites(Of(code)))
      ensures !(0 <= code < 6) ==> ret == CLOCK_INVALID && regs[..] == old(regs[..])
    {
      ghost var s := regs[..];
      FieldTable();
      if code == 0 {
        GateSet(UART_SCLK_GATE, 9, false);
        GateSet(UART_PCLK_GATE, 6, false);
        TwoWrites(s, DisableWrites(Uart5));
      } else if code == 1 {
        GateSet(UART_SCLK_GATE, 15, false);
        GateSet(UART_PCLK_GATE, 8, false);
        TwoWrites(s, DisableWrites(Uart7));
      } else if code == 2 {
        GateSet(PERIPH_GATE, 6, false);
        GateSet(TOP_PCLK_GATE, 14, false);
        TwoWrites(s, DisableWrites(I2c7));
      } else if code == 3 {
        GateSet(SPI_GATE, 11, false);
        GateSet(SPI_GATE, 6, false);
        TwoWrites(s, DisableWrites(Spi0));
      } else if code == 4 {
        GateSet(PWM_GATE, 5, false);
        ghost var m := regs[..];
        GateSet(PWM_GATE, 4, false);
        GateSet(PWM_GATE, 3, false);
        TwoWrites(m, DisableWrites(Pwm1)[1..]);
      } else if code == 5 {
        GateSet(PERIPH_GATE, 15, false);
        GateSet(PERIPH_GATE, 14, false);
        TwoWrites(s, DisableWrites(Saradc));
      } else {
        return CLOCK_INVALID;
      }
      return CLOCK_OK;
    }
  }

  function Of(code: int): Peripheral
    requires 0 <= code < 6
  {
    if code == 0 then Uart5 else if code == 1 then Uart7 else if code == 2 then I2c7
    else if code == 3 then Spi0 else if code == 4 then Pwm1 else Saradc
  }

  lemma OneBit(bit: nat)
    requires bit < 16
    ensures ShiftLeft({0}, bit) == {bit} && ShiftLeft({}, bit) == {}
    ensures {} * {0} == {} && {0} * {0} == {0}
  {
    assert 0 + bit in ShiftLeft({0}, bit);
  }

  lemma TwoBits(n: nat)
    requires n < 15
    ensures ShiftLeft({0, 1}, n) == {n, n + 1} && ShiftLeft({1}, n) == {n + 1} && {1} * {0, 1} == {1}
  {
    assert 0 + n in ShiftLeft({0, 1}, n) && 1 + n in ShiftLeft({0, 1}, n) && 1 + n in ShiftLeft({1}, n);
  }

  lemma DividerField()
    ensures ShiftLeft({0, 1, 2, 3, 4, 5, 6, 7}, 6) == {6, 7, 8, 9, 10, 11, 12, 13}
    ensures {0, 1, 2, 4} * {0, 1, 2, 3, 4, 5, 6, 7} == {0, 1, 2, 4} && ShiftLeft({0, 1, 2, 4}, 6) == {6, 7, 8, 10}
  {
    var a, b := ShiftLeft({0, 1, 2, 3, 4, 5, 6, 7}, 6), ShiftLeft({0, 1, 2, 4}, 6);
    assert 0 + 6 in a && 1 + 6 in a && 2 + 6 in a && 3 + 6 in a && 4 + 6 in a && 5 + 6 in a && 6 + 6 in a && 7 + 6 in a;
    assert 0 + 6 in b && 1 + 6 in b && 2 + 6 in b && 4 + 6 in b;
  }

  /** Where the masks, shifts and values of the source land: 23, the divider for 1 MHz, is bits 0, 1, 2 and 4. */
  lemma FieldTable()
    ensures ShiftLeft({0, 1}, 0) == {0, 1} && ShiftLeft({1} * {0, 1}, 0) == {1}
    ensures ShiftLeft({0, 1}, 2) == {2, 3} && ShiftLeft({1} * {0, 1}, 2) == {3}
    ensures ShiftLeft({0, 1}, 12) == {12, 13} && ShiftLeft({1} * {0, 1}, 12) == {13}
    ensures ShiftLeft({0}, 12) == {12} && ShiftLeft({0} * {0}, 12) == {12}
    ensures ShiftLeft({0}, 14) == {14} && ShiftLeft({0} * {0}, 14) == {14}
    ensures ShiftLeft({0, 1, 2, 3, 4, 5, 6, 7}, 6) == {6, 7, 8, 9, 10, 11, 12, 13}
    ensures ShiftLeft({0, 1, 2, 4} * {0, 1, 2, 3, 4, 5, 6, 7}, 6) == {6, 7, 8, 10}
  {
    TwoBits(0);
    TwoBits(2);
    TwoBits(12);
    OneBit(12);
    OneBit(14);
    DividerField();
  }

  lemma TwoThen(s: seq<Word>, ws: seq<Write>)
    requires |s| == REGISTERS && |ws| >= 2 && AllValid(ws)
    ensures Valid(ws[0]) && Valid(ws[1]) && AllValid(ws[2..])
    ensures WrittenAll(s, ws) == WrittenAll(Written(Written(s, ws[0]), ws[1]), ws[2..])
  {
    assert Valid(ws[0]) && Valid(ws[1]);
    var rest := ws[1..];
    assert rest[0] == ws[1] && rest[1..] == ws[2..];
    assert WrittenAll(Written(s, ws[0]), rest) == WrittenAll(Written(Written(s, ws[0]), ws[1]), rest[1..]);
  }

  lemma TwoWrites(s: seq<Word>, ws: seq<Write>)
    requires |s| == REGISTERS && |ws| == 2 && AllValid(ws)
    ensures Valid(ws[0]) && Valid(ws[1]) && WrittenAll(s, ws) == Written(Written(s, ws[0]), ws[1])
  {
    assert Valid(ws[0]) && Valid(ws[1]);
    var rest := ws[1..];
    assert rest[0] == ws[1] && rest[1..] == [];
    assert WrittenAll(Written(s, ws[0]), rest) == WrittenAll(Written(Written(s, ws[0]), ws[1]), rest[1..]);
  }

  lemma FourWrites(s: seq<Word>, ws: seq<Write>)
    requires |s| == REGISTERS && |ws| == 4 && AllValid(ws)
    ensures Valid(ws[0]) && Valid(ws[1]) && Valid(ws[2]) && Valid(ws[3])
    ensures WrittenAll(s, ws) == Written(Written(Written(Written(s, ws[0]), ws[1]), ws[2]), ws[3])
  {
    assert Valid(ws[0]) && Valid(ws[1]);
    var rest := ws[1..][1..];
    assert rest == ws[2..] && |rest| == 2 && rest[0] == ws[2] && rest[1] == ws[3];
    TwoWrites(Written(Written(s, ws[0]), ws[1]), rest);
  }
}
