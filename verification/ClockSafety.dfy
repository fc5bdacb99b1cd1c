/** Properties of every sequence of clock calls, from every register state. */
module ClockSafety {
  import opened Clock

  /** The bits of register `r` that belong to a peripheral. */
  function MuxMask(p: Peripheral, r: nat): Word {
    match p
    case Uart5 => if r == UART5_MUX then {0, 1} else {}
    case Uart7 => if r == UART7_MUX then {0, 1} else {}
    case I2c7 => if r == I2C7_MUX then {12} else {}
    case Spi0 => if r == SHARED_MUX then {2, 3} else {}
    case Pwm1 => if r == SHARED_MUX then {12, 13} else {}
    case Saradc => if r == SARADC_CON then {6, 7, 8, 9, 10, 11, 12, 13, 14} else {}
  }

  function GateMask(p: Peripheral, r: nat): Word {
    match p
    case Uart5 => if r == UART_SCLK_GATE then {9} else if r == UART_PCLK_GATE then {6} else {}
    case Uart7 => if r == UART_SCLK_GATE then {15} else if r == UART_PCLK_GATE then {8} else {}
    case I2c7 => if r == PERIPH_GATE then {6} else if r == TOP_PCLK_GATE then {14} else {}
    case Spi0 => if r == SPI_GATE then {6, 11} else {}
    case Pwm1 => if r == PWM_GATE then {3, 4, 5} else {}
    case Saradc => if r == PERIPH_GATE then {14, 15} else {}
  }

  function Own(p: Peripheral, r: nat): Word {
    MuxMask(p, r) + GateMask(p, r)
  }

  /** The gates of the clocks that the mux and divider feed. */
  function LeafReg(p: Peripheral): nat {
    match p
    case Uart5 => UART_SCLK_GATE
    case Uart7 => UART_SCLK_GATE
    case I2c7 => PERIPH_GATE
    case Spi0 => SPI_GATE
    case Pwm1 => PWM_GATE
    case Saradc => PERIPH_GATE
  }

  function LeafMask(p: Peripheral): Word {
    match p
    case Uart5 => {9}
    case Uart7 => {15}
    case I2c7 => {6}
    case Spi0 => {11}
    case Pwm1 => {4, 5}
    case Saradc => {15}
  }

  predicate LeafClosed(s: seq<Word>, p: Peripheral)
    requires |s| == REGISTERS
  {
    LeafMask(p) <= s[LeafReg(p)]
  }

  // ----- Masked writes -----

  lemma PutApart(v: Word, m: Word, x: Word, n: Word, y: Word)
    requires m * n == {}
    ensures Put(Put(v, m, x), n, y) == Put(Put(v, n, y), m, x)
  {
    forall i | i in m ensures i !in n { assert i in n ==> i in m * n; }
  }

  lemma PutOutside(v: Word, m: Word, x: Word, keep: Word)
    requires m * keep == {}
    ensures Put(v, m, x) * keep == v * keep
  {
    forall i | i in m ensures i !in keep { assert i in keep ==> i in m * keep; }
  }

  predicate Apart(x: Write, y: Write) {
    x.reg != y.reg || x.mask * y.mask == {}
  }

  lemma WritesCommute(s: seq<Word>, x: Write, y: Write)
    requires |s| == REGISTERS && x.reg < REGISTERS && y.reg < REGISTERS && Apart(x, y)
    ensures Written(Written(s, x), y) == Written(Written(s, y), x)
  {
    if x.reg == y.reg { PutApart(s[x.reg], x.mask, x.value, y.mask, y.value); }
  }

  ghost predicate ApartFrom(x: Write, ys: seq<Write>) {
    forall i :: 0 <= i < |ys| ==> Apart(x, ys[i])
  }

  ghost predicate AllApart(xs: seq<Write>, ys: seq<Write>) {
    forall i :: 0 <= i < |xs| ==> ApartFrom(xs[i], ys)
  }

  lemma {:induction false} WriteMovesBehind(s: seq<Word>, x: Write, ys: seq<Write>)
    requires |s| == REGISTERS && Valid(x) && AllValid(ys) && ApartFrom(x, ys)
    ensures WrittenAll(Written(s, x), ys) == Written(WrittenAll(s, ys), x)
    decreases |ys|
  {
    if ys != [] {
      assert Valid(ys[0]) && Apart(x, ys[0]);
      WritesCommute(s, x, ys[0]);
      assert AllValid(ys[1..]) && ApartFrom(x, ys[1..]);
      WriteMovesBehind(Written(s, ys[0]), x, ys[1..]);
    }
  }

  lemma {:induction false} SequencesCommute(s: seq<Word>, xs: seq<Write>, ys: seq<Write>)
    requires |s| == REGISTERS && AllValid(xs) && AllValid(ys) && AllApart(xs, ys)
    ensures WrittenAll(WrittenAll(s, xs), ys) == WrittenAll(WrittenAll(s, ys), xs)
    decreases |xs|
  {
    if xs != [] {
      assert Valid(xs[0]) && ApartFrom(xs[0], ys);
      WriteMovesBehind(s, xs[0], ys);
      assert AllValid(xs[1..]) && AllApart(xs[1..], ys);
      SequencesCommute(Written(s, xs[0]), xs[1..], ys);
    }
  }

  // ----- Ownership -----

  lemma OwnersDisjoint(p: Peripheral, q: Peripheral, r: nat)
    requires p != q
    ensures Own(p, r) * Own(q, r) == {}
  {}

  ghost predicate WithinOwn(ws: seq<Write>, p: Peripheral) {
    forall i :: 0 <= i < |ws| ==> ws[i].mask <= Own(p, ws[i].reg)
  }

  lemma CallsStayWithinOwn(c: Call)
    ensures WithinOwn(Writes(c), c.p)
  {}

  lemma Smaller(a: Word, b: Word, m: Word, n: Word)
    requires a <= m && b <= n && m * n == {}
    ensures a * b == {}
  {
    if i :| i in a * b { assert i in m * n; }
  }

  lemma CallsApart(c: Call, d: Call)
    requires c.p != d.p
    ensures AllApart(Writes(c), Writes(d))
  {
    CallsStayWithinOwn(c);
    CallsStayWithinOwn(d);
    var xs, ys := Writes(c), Writes(d);
    forall i, j | 0 <= i < |xs| && 0 <= j < |ys| ensures Apart(xs[i], ys[j]) {
      if xs[i].reg == ys[j].reg {
        OwnersDisjoint(c.p, d.p, xs[i].reg);
        Smaller(xs[i].mask, ys[j].mask, Own(c.p, xs[i].reg), Own(d.p, ys[j].reg));
      }
    }
    forall i | 0 <= i < |xs| ensures ApartFrom(xs[i], ys) {}
  }

  /** Calls for different peripherals commute, from every register state. */
  lemma CallsCommute(s: seq<Word>, c: Call, d: Call)
    requires |s| == REGISTERS && c.p != d.p
    ensures AllValid(Writes(c)) && AllValid(Writes(d))
    ensures WrittenAll(WrittenAll(s, Writes(c)), Writes(d)) == WrittenAll(WrittenAll(s, Writes(d)), Writes(c))
  {
    CallsAreValid(c);
    CallsAreValid(d);
    CallsApart(c, d);
    SequencesCommute(s, Writes(c), Writes(d));
  }

  lemma {:induction false} OutsideKept(s: seq<Word>, ws: seq<Write>, r: nat, keep: Word)
    requires |s| == REGISTERS && AllValid(ws) && r < REGISTERS
    requires forall i :: 0 <= i < |ws| && ws[i].reg == r ==> ws[i].mask * keep == {}
    ensures WrittenAll(s, ws)[r] * keep == s[r] * keep
    decreases |ws|
  {
    if ws != [] {
      assert Valid(ws[0]);
      if ws[0].reg == r { PutOutside(s[r], ws[0].mask, ws[0].value, keep); }
      assert AllValid(ws[1..]);
      OutsideKept(Written(s, ws[0]), ws[1..], r, keep);
    }
  }

  /** A call changes no bit of any register outside the fields of its own peripheral. */
  lemma OnlyOwnBitsChange(s: seq<Word>, c: Call, r: nat, bit: nat)
    requires |s| == REGISTERS && r < REGISTERS && bit < 32 && bit !in Own(c.p, r)
    ensures AllValid(Writes(c)) && (bit in WrittenAll(s, Writes(c))[r] <==> bit in s[r])
  {
    CallsAreValid(c);
    CallsStayWithinOwn(c);
    OutsideKept(s, Writes(c), r, {bit});
    assert bit in WrittenAll(s, Writes(c))[r] <==> bit in WrittenAll(s, Writes(c))[r] * {bit};
    assert bit in s[r] <==> bit in s[r] * {bit};
  }

  // ----- Glitch freedom -----

  /** Every write that a sequence of calls makes, in order. */
  function Trace(calls: seq<Call>): (ws: seq<Write>) {
    if calls == [] then [] else Writes(calls[0]) + Trace(calls[1..])
  }

  lemma {:induction false} TraceValid(calls: seq<Call>)
    ensures AllValid(Trace(calls))
  {
    if calls != [] {
      CallsAreValid(calls[0]);
      TraceValid(calls[1..]);
    }
  }

  predicate TouchesMux(w: Write, q: Peripheral) {
    w.mask * MuxMask(q, w.reg) != {}
  }

  /** Only the enable call of a peripheral writes its mux or divider, and never before its leaf gates are closed. */
  lemma MuxWritesAreGated(s: seq<Word>, c: Call, k: nat, q: Peripheral)
    requires |s| == REGISTERS && k < |Writes(c)| && AllValid(Writes(c)) && AllValid(Writes(c)[..k])
    requires TouchesMux(Writes(c)[k], q)
    ensures LeafClosed(WrittenAll(s, Writes(c)[..k]), q)
  {
    var w := Writes(c)[k];
    CallsStayWithinOwn(c);
    if c.p != q {
      OwnersDisjoint(c.p, q, w.reg);
      assert w.mask <= Own(c.p, w.reg);
      Smaller(w.mask, MuxMask(q, w.reg), Own(c.p, w.reg), Own(q, w.reg));
    }
    assert c.p == q && c.enable;
    EnableIsGated(s, q, k);
  }

  lemma EnableIsGated(s: seq<Word>, q: Peripheral, k: nat)
    requires |s| == REGISTERS && k < |EnableWrites(q)|
    requires AllValid(EnableWrites(q)[..k]) && TouchesMux(EnableWrites(q)[k], q)
    ensures LeafClosed(WrittenAll(s, EnableWrites(q)[..k]), q)
  {
    var ws := EnableWrites(q);
    if q == Pwm1 {
      assert k == 2;
      TwoWrites(s, ws[..2]);
    } else if k == 1 {
      OneWrite(s, ws[..1]);
    } else {
      assert q == Saradc && k == 2;
      TwoWrites(s, ws[..2]);
    }
  }

  lemma OneWrite(s: seq<Word>, ws: seq<Write>)
    requires |s| == REGISTERS && |ws| == 1 && AllValid(ws)
    ensures Valid(ws[0]) && WrittenAll(s, ws) == Written(s, ws[0])
  {
    assert Valid(ws[0]);
    assert ws[1..] == [];
  }

  lemma {:induction false} WrittenInTwo(s: seq<Word>, a: seq<Write>, b: seq<Write>)
    requires |s| == REGISTERS && AllValid(a) && AllValid(b)
    ensures AllValid(a + b) && WrittenAll(s, a + b) == WrittenAll(WrittenAll(s, a), b)
    decreases |a|
  {
    if a == [] { assert a + b == b; }
    else {
      assert Valid(a[0]) && AllValid(a[1..]) && (a + b)[0] == a[0] && (a + b)[1..] == a[1..] + b;
      WrittenInTwo(Written(s, a[0]), a[1..], b);
    }
  }

  lemma UntouchedMux(s: seq<Word>, w: Write, q: Peripheral, r: nat)
    requires |s| == REGISTERS && Valid(w) && r < REGISTERS && !TouchesMux(w, q)
    ensures Written(s, w)[r] * MuxMask(q, r) == s[r] * MuxMask(q, r)
  {
    if w.reg == r { PutOutside(s[r], w.mask, w.value, MuxMask(q, r)); }
  }

  /** From every register state and over every sequence of enable and disable calls: a write that changes a mux or
      divider field of a peripheral happens while that peripheral's leaf clock gates are closed. */
  lemma {:induction false} MuxMovesOnlyWhileGated(s: seq<Word>, calls: seq<Call>, k: nat, q: Peripheral, r: nat)
    requires |s| == REGISTERS && k < |Trace(calls)| && r < REGISTERS
    ensures AllValid(Trace(calls)[..k]) && Valid(Trace(calls)[k])
    ensures var before := WrittenAll(s, Trace(calls)[..k]);
            Written(before, Trace(calls)[k])[r] * MuxMask(q, r) != before[r] * MuxMask(q, r) ==> LeafClosed(before, q)
    decreases |calls|
  {
    TraceValid(calls);
    var ws, n, trace := Writes(calls[0]), |Writes(calls[0])|, Trace(calls);
    assert Valid(trace[k]) && AllValid(trace[..k]) && trace == ws + Trace(calls[1..]);
    CallsAreValid(calls[0]);
    if k < n {
      assert trace[..k] == ws[..k] && trace[k] == ws[k];
      var before := WrittenAll(s, ws[..k]);
      if TouchesMux(ws[k], q) { MuxWritesAreGated(s, calls[0], k, q); } else { UntouchedMux(before, ws[k], q, r); }
    } else {
      assert trace[..k] == ws + Trace(calls[1..])[..k - n] && trace[k] == Trace(calls[1..])[k - n];
      TraceValid(calls[1..]);
      WrittenInTwo(s, ws, Trace(calls[1..])[..k - n]);
      MuxMovesOnlyWhileGated(WrittenAll(s, ws), calls[1..], k - n, q, r);
    }
  }

  // ----- What a call achieves -----

  /** The parent and divider that a peripheral runs from. */
  function MuxValue(p: Peripheral, r: nat): Word {
    match p
    case Uart5 => if r == UART5_MUX then {1} else {}
    case Uart7 => if r == UART7_MUX then {1} else {}
    case I2c7 => if r == I2C7_MUX then {12} else {}
    case Spi0 => if r == SHARED_MUX then {3} else {}
    case Pwm1 => if r == SHARED_MUX then {13} else {}
    case Saradc => if r == SARADC_CON then {6, 7, 8, 10, 14} else {}
  }

  /** The last write to a bit decides it. */
  lemma {:induction false} LastWriteWins(s: seq<Word>, ws: seq<Write>, i: nat, bit: nat)
    requires |s| == REGISTERS && AllValid(ws) && i < |ws| && bit in ws[i].mask
    requires forall j :: i < j < |ws| && ws[j].reg == ws[i].reg ==> bit !in ws[j].mask
    ensures bit in WrittenAll(s, ws)[ws[i].reg] <==> bit in ws[i].value
    decreases |ws|
  {
    assert Valid(ws[0]) && AllValid(ws[1..]) && bit < 32;
    if i > 0 { LastWriteWins(Written(s, ws[0]), ws[1..], i - 1, bit); }
    else {
      var t := Written(s, ws[0]);
      OutsideKept(t, ws[1..], ws[0].reg, {bit});
      assert bit in t[ws[0].reg] <==> bit in t[ws[0].reg] * {bit};
      assert bit in WrittenAll(t, ws[1..])[ws[0].reg] <==> bit in WrittenAll(t, ws[1..])[ws[0].reg] * {bit};
    }
  }

  /** After enable a peripheral runs from its own parent with every gate open; after disable its gates are closed. */
  lemma CallReaches(s: seq<Word>, c: Call, r: nat, bit: nat)
    requires |s| == REGISTERS && r < REGISTERS && bit < 32
    ensures AllValid(Writes(c))
    ensures var t := WrittenAll(s, Writes(c));
            && (c.enable && bit in MuxMask(c.p, r) ==> (bit in t[r] <==> bit in MuxValue(c.p, r)))
            && (bit in GateMask(c.p, r) ==> (bit in t[r] <==> !c.enable))
  {
    CallsAreValid(c);
    if (c.enable && bit in MuxMask(c.p, r)) || bit in GateMask(c.p, r) {
      var i := LastWrite(c, r, bit);
      LastWriteWins(s, Writes(c), i, bit);
    }
  }

  lemma LastWrite(c: Call, r: nat, bit: nat) returns (i: nat)
    requires (c.enable && bit in MuxMask(c.p, r)) || bit in GateMask(c.p, r)
    ensures i < |Writes(c)| && Writes(c)[i].reg == r && bit in Writes(c)[i].mask
    ensures forall j :: i < j < |Writes(c)| && Writes(c)[j].reg == r ==> bit !in Writes(c)[j].mask
    ensures bit in MuxMask(c.p, r) ==> (bit in Writes(c)[i].value <==> bit in MuxValue(c.p, r))
    ensures bit in GateMask(c.p, r) ==> (bit in Writes(c)[i].value <==> !c.enable)
  {
    var pclk := r == UART_PCLK_GATE || r == TOP_PCLK_GATE;
    if c.enable {
      i := match c.p
           case Uart5 => if r == UART5_MUX then 1 else if pclk then 2 else 3
           case Uart7 => if r == UART7_MUX then 1 else if pclk then 2 else 3
           case I2c7 => if r == I2C7_MUX then 1 else if pclk then 2 else 3
           case Spi0 => if r == SHARED_MUX then 1 else if bit == 6 then 2 else 3
           case Pwm1 => if r == SHARED_MUX then 2 else bit
           case Saradc => if r == PERIPH_GATE then (if bit == 14 then 3 else 4) else if bit == 14 then 1 else 2;
    } else {
      i := match c.p
           case Uart5 => if pclk then 1 else 0
           case Uart7 => if pclk then 1 else 0
           case I2c7 => if pclk then 1 else 0
           case Spi0 => if bit == 6 then 1 else 0
           case Pwm1 => 5 - bit
           case Saradc => if bit == 14 then 1 else 0;
    }
  }

  // ----- The bus clock -----

  /** The gate of the bus clock that a peripheral's registers need. */
  function BusReg(p: Peripheral): nat {
    match p
    case Uart5 => UART_PCLK_GATE
    case Uart7 => UART_PCLK_GATE
    case I2c7 => TOP_PCLK_GATE
    case Spi0 => SPI_GATE
    case Pwm1 => PWM_GATE
    case Saradc => PERIPH_GATE
  }

  function BusBit(p: Peripheral): nat {
    match p
    case Uart5 => 6
    case Uart7 => 8
    case I2c7 => 14
    case Spi0 => 6
    case Pwm1 => 3
    case Saradc => 14
  }

  predicate BusOpen(s: seq<Word>, p: Peripheral)
    requires |s| == REGISTERS
  {
    BusBit(p) !in s[BusReg(p)]
  }

  /** No leaf clock runs without the bus clock. */
  predicate Fed(s: seq<Word>, p: Peripheral)
    requires |s| == REGISTERS
  {
    LeafClosed(s, p) || BusOpen(s, p)
  }

  /** The write opens a leaf gate, or closes the bus gate. */
  predicate OpensLeaf(w: Write, q: Peripheral) {
    w.reg == LeafReg(q) && (w.mask - w.value) * LeafMask(q) != {}
  }

  predicate ClosesBus(w: Write, q: Peripheral) {
    w.reg == BusReg(q) && BusBit(q) in w.mask && BusBit(q) in w.value
  }

  /** Only those two kinds of writes can leave a leaf clock without its bus clock. */
  lemma WriteFed(s: seq<Word>, w: Write, q: Peripheral)
    requires |s| == REGISTERS && Valid(w) && Fed(s, q)
    requires OpensLeaf(w, q) ==> BusOpen(s, q) && !ClosesBus(w, q)
    requires ClosesBus(w, q) ==> LeafClosed(s, q) && !OpensLeaf(w, q)
    ensures Fed(Written(s, w), q)
  {
    var t := Written(s, w);
    if LeafClosed(s, q) && !OpensLeaf(w, q) {
      forall i | i in LeafMask(q) ensures i in t[LeafReg(q)] {
        assert i in w.mask - w.value ==> i in (w.mask - w.value) * LeafMask(q);
      }
    }
  }

  /** A call that is for another peripheral does neither. */
  lemma OthersSpare(c: Call, k: nat, q: Peripheral)
    requires k < |Writes(c)| && c.p != q
    ensures !OpensLeaf(Writes(c)[k], q) && !ClosesBus(Writes(c)[k], q)
  {
    var w := Writes(c)[k];
    CallsStayWithinOwn(c);
    OwnersDisjoint(c.p, q, w.reg);
    assert w.mask <= Own(c.p, w.reg);
    forall i | i in w.mask ensures i !in Own(q, w.reg) {
      assert i in Own(q, w.reg) ==> i in Own(c.p, w.reg) * Own(q, w.reg);
    }
  }

  /** An enable call opens the bus gate before it opens a leaf gate. */
  lemma EnableFeeds(s: seq<Word>, q: Peripheral, k: nat)
    requires |s| == REGISTERS && k < |EnableWrites(q)| && AllValid(EnableWrites(q)[..k])
    requires OpensLeaf(EnableWrites(q)[k], q)
    ensures BusOpen(WrittenAll(s, EnableWrites(q)[..k]), q)
  {
    var ws := EnableWrites(q);
    var i := if q == Pwm1 || q == Saradc then 3 else 2;
    assert i < k && ws[i] == GateWrite(BusReg(q), BusBit(q), true);
    assert ws[..k][i] == ws[i];
    LastWriteWins(s, ws[..k], i, BusBit(q));
  }

  /** A disable call closes every leaf gate before it closes the bus gate. */
  lemma DisableFeeds(s: seq<Word>, q: Peripheral, k: nat)
    requires |s| == REGISTERS && k < |DisableWrites(q)| && AllValid(DisableWrites(q)[..k])
    requires ClosesBus(DisableWrites(q)[k], q)
    ensures LeafClosed(WrittenAll(s, DisableWrites(q)[..k]), q)
  {
    var ws := DisableWrites(q);
    forall bit | bit in LeafMask(q) ensures bit in WrittenAll(s, ws[..k])[LeafReg(q)] {
      var i := if q == Pwm1 && bit == 4 then 1 else 0;
      assert i < k && ws[i] == GateWrite(LeafReg(q), bit, false);
      assert ws[..k][i] == ws[i];
      LastWriteWins(s, ws[..k], i, bit);
    }
  }

  lemma {:induction false} CallFed(s: seq<Word>, c: Call, k: nat, q: Peripheral)
    requires |s| == REGISTERS && k <= |Writes(c)| && Fed(s, q)
    ensures AllValid(Writes(c)[..k]) && Fed(WrittenAll(s, Writes(c)[..k]), q)
  {
    CallsAreValid(c);
    if k > 0 {
      var ws := Writes(c);
      CallFed(s, c, k - 1, q);
      assert ws[..k] == ws[..k - 1] + [ws[k - 1]] && Valid(ws[k - 1]);
      var before := WrittenAll(s, ws[..k - 1]);
      WrittenInTwo(s, ws[..k - 1], [ws[k - 1]]);
      OneWrite(before, [ws[k - 1]]);
      if c.p != q { OthersSpare(c, k - 1, q); } else { OwnWriteFeeds(s, c, k - 1); }
      WriteFed(before, ws[k - 1], q);
    }
  }

  lemma OwnWriteFeeds(s: seq<Word>, c: Call, k: nat)
    requires |s| == REGISTERS && k < |Writes(c)| && AllValid(Writes(c)[..k])
    ensures var before, w := WrittenAll(s, Writes(c)[..k]), Writes(c)[k];
            && (OpensLeaf(w, c.p) ==> BusOpen(before, c.p) && !ClosesBus(w, c.p))
            && (ClosesBus(w, c.p) ==> LeafClosed(before, c.p) && !OpensLeaf(w, c.p))
  {
    var w := Writes(c)[k];
    if c.enable {
      assert !ClosesBus(w, c.p);
      if OpensLeaf(w, c.p) { EnableFeeds(s, c.p, k); }
    } else {
      assert !OpensLeaf(w, c.p);
      if ClosesBus(w, c.p) { DisableFeeds(s, c.p, k); }
    }
  }

  /** A prefix of a trace that goes beyond the first call. */
  lemma TraceInTwo(s: seq<Word>, calls: seq<Call>, k: nat)
    requires |s| == REGISTERS && calls != [] && |Writes(calls[0])| <= k <= |Trace(calls)|
    ensures var ws, rest := Writes(calls[0]), Trace(calls[1..])[..k - |Writes(calls[0])|];
            && AllValid(ws) && AllValid(rest) && AllValid(Trace(calls)[..k])
            && WrittenAll(s, Trace(calls)[..k]) == WrittenAll(WrittenAll(s, ws), rest)
  {
    var ws, n := Writes(calls[0]), |Writes(calls[0])|;
    TraceValid(calls[1..]);
    CallsAreValid(calls[0]);
    assert Trace(calls)[..k] == ws + Trace(calls[1..])[..k - n];
    WrittenInTwo(s, ws, Trace(calls[1..])[..k - n]);
  }

  /** Over every sequence of calls from a state in which no leaf clock runs without its bus clock, none does after any
      single write: buses are opened before leaves and closed after them. */
  lemma {:induction false} BusOutlivesLeaf(s: seq<Word>, calls: seq<Call>, k: nat, q: Peripheral)
    requires |s| == REGISTERS && k <= |Trace(calls)| && Fed(s, q)
    ensures AllValid(Trace(calls)[..k]) && Fed(WrittenAll(s, Trace(calls)[..k]), q)
    decreases |calls|
  {
    if calls == [] { assert Trace(calls)[..k] == []; }
    else {
      var ws, n := Writes(calls[0]), |Writes(calls[0])|;
      if k <= n {
        assert Trace(calls)[..k] == ws[..k];
        CallFed(s, calls[0], k, q);
      } else {
        CallFed(s, calls[0], n, q);
        assert ws[..n] == ws;
        TraceInTwo(s, calls, k);
        BusOutlivesLeaf(WrittenAll(s, ws), calls[1..], k - n, q);
      }
    }
  }

  /** An enable call ends by opening its gates, and a disable call closes those gates in the opposite order. */
  lemma DisableReversesEnable(p: Peripheral, i: nat)
    requires i < |DisableWrites(p)|
    ensures |DisableWrites(p)| < |EnableWrites(p)|
    ensures var opening, closing := EnableWrites(p)[|EnableWrites(p)| - 1 - i], DisableWrites(p)[i];
            && opening.reg == closing.reg && opening.mask == closing.mask != {}
            && opening.value == {} && closing.value == closing.mask
  {}
}
