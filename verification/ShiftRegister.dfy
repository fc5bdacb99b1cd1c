/**
 A shift register over an unspecified word type. Only the laws below are known about its words,
 so the proofs are algebra over GF(2) and never look at machine arithmetic.
 */
module ShiftRegister {
  import opened Gf2
  import opened WordBits

  datatype Ops<!T> = Ops(xor: (T, T) -> T, shift: T -> T, low: T -> bool, widen: bv8 -> T, start: T, finish: T -> T)

  function Shifts<T>(o: Ops<T>, c: T, n: nat): T {
    if n == 0 then c else o.shift(Shifts(o, c, n - 1))
  }

  /** The register after `bytes` have gone through it. */
  function Register<T>(o: Ops<T>, bytes: seq<bv8>): T {
    if bytes == [] then o.start
    else
      var c := Register(o, bytes[..|bytes| - 1]);
      Shifts(o, o.xor(c, o.widen(bytes[|bytes| - 1])), 8)
  }

  function Checksum<T>(o: Ops<T>, bytes: seq<bv8>): T {
    o.finish(Register(o, bytes))
  }

  /** The nested loop of `mailmsg_frame_crc32`, for any number of bytes. */
  method ComputeChecksum<T>(o: Ops<T>, bytes: seq<bv8>) returns (crc: T)
    ensures crc == Checksum(o, bytes)
  {
    crc := o.start;
    var index := 0;
    while index < |bytes|
      invariant 0 <= index <= |bytes|
      invariant crc == Register(o, bytes[..index])
    {
      ghost var before := crc;
      crc := o.xor(crc, o.widen(bytes[index]));
      var bit := 0;
      while bit < 8
        invariant 0 <= bit <= 8
        invariant crc == Shifts(o, o.xor(before, o.widen(bytes[index])), bit)
      {
        crc := o.shift(crc);
        bit := bit + 1;
      }
      assert bytes[..index + 1][..index] == bytes[..index];
      index := index + 1;
    }
    assert bytes[..index] == bytes;
    crc := o.finish(crc);
  }

  /** The bits of a byte, least significant first: the order in which they enter the register. */
  function ByteBits(b: bv8): (s: seq<bool>)
    ensures |s| == 8
  {
    Expand(HalfByte, LowOfByte, b, 8)
  }

  ghost function BytePoly(b: bv8): Poly {
    FromBits(ByteBits(b))
  }

  /** How the operations act on the polynomial that a word stands for, given the generator `g`. */
  ghost predicate Laws<T(!new)>(o: Ops<T>, poly: T -> Poly, g: Poly) {
    XorLaw(o, poly) && ShiftLaw(o, poly, g) && WidenLaw(o, poly) && poly(o.start) == AllOnes()
  }

  ghost predicate XorLaw<T(!new)>(o: Ops<T>, poly: T -> Poly) {
    forall c, d :: poly(o.xor(c, d)) == Add(poly(c), poly(d))
  }

  ghost predicate ShiftLaw<T(!new)>(o: Ops<T>, poly: T -> Poly, g: Poly) {
    forall c :: poly(o.shift(c)) == Add(TimesPower(poly(c), 1), if o.low(c) then g else {})
  }

  ghost predicate WidenLaw<T(!new)>(o: Ops<T>, poly: T -> Poly) {
    forall b :: poly(o.widen(b)) == TimesPower(BytePoly(b), 24)
  }

  ghost function AllOnes(): Poly {
    FromBits(seq(32, _ => true))
  }

  lemma MultipleStep(q: seq<bool>, carry: bool, g: Poly)
    ensures Multiple(q + [carry], g) == Add(TimesPower(Multiple(q, g), 1), if carry then g else {})
  {
    assert (q + [carry])[..|q|] == q;
  }

  /** Turning the register `n` times keeps its distance from `p` a multiple of the generator. */
  lemma {:induction false} ShiftsDistance<T(!new)>(
      o: Ops<T>, poly: T -> Poly, g: Poly, p: Poly, c: T, n: nat, q: seq<bool>) returns (r: seq<bool>)
    requires Laws(o, poly, g) && Add(p, poly(c)) == Multiple(q, g)
    ensures Add(TimesPower(p, n), poly(Shifts(o, c, n))) == Multiple(r, g)
  {
    if n == 0 {
      r := q;
      TimesPowerZero(p);
    } else {
      var t := ShiftsDistance(o, poly, g, p, c, n - 1, q);
      var d := Shifts(o, c, n - 1);
      var carry := o.low(d);
      r := t + [carry];
      MultipleStep(t, carry, g);
      TimesPowerAdd(TimesPower(p, n - 1), poly(d), 1);
      TimesPowerTwice(p, n - 1, 1);
      AddThird(TimesPower(p, n), TimesPower(poly(d), 1), if carry then g else {});
    }
  }

  lemma AddThird(a: Poly, b: Poly, c: Poly)
    ensures Add(a, Add(b, c)) == Add(Add(a, b), c)
  {}

  /** All the bits of a message in the order in which they enter the register. */
  function MessageBits(bytes: seq<bv8>): (s: seq<bool>)
    ensures |s| == 8 * |bytes|
  {
    if bytes == [] then [] else MessageBits(bytes[..|bytes| - 1]) + ByteBits(bytes[|bytes| - 1])
  }

  /** x^32 * M(x) + x^(8n) * (x^31 + ... + 1): the message, padded, with the initial ones folded in. */
  ghost function Dividend(bytes: seq<bv8>): Poly {
    Add(TimesPower(FromBits(MessageBits(bytes)), 32), TimesPower(AllOnes(), 8 * |bytes|))
  }

  lemma DividendAlgebra(m: Poly, p: Poly, ones: Poly, n: nat)
    ensures Add(TimesPower(Add(TimesPower(m, 8), p), 32), TimesPower(ones, n + 8)) ==
            TimesPower(Add(Add(TimesPower(m, 32), TimesPower(ones, n)), TimesPower(p, 24)), 8)
  {
    var m32, ones', p24 := TimesPower(m, 32), TimesPower(ones, n), TimesPower(p, 24);
    TimesPowerAdd(TimesPower(m, 8), p, 32);
    TimesPowerTwice(m, 8, 32);
    TimesPowerAdd(Add(m32, ones'), p24, 8);
    TimesPowerAdd(m32, ones', 8);
    TimesPowerTwice(m, 32, 8);
    TimesPowerTwice(ones, n, 8);
    TimesPowerTwice(p, 24, 8);
    AddSwap(TimesPower(m, 40), TimesPower(p, 32), TimesPower(ones, n + 8));
  }

  lemma MessagePolyStep(bytes: seq<bv8>, b: bv8)
    ensures FromBits(MessageBits(bytes + [b])) == Add(TimesPower(FromBits(MessageBits(bytes)), 8), BytePoly(b))
  {
    assert (bytes + [b])[..|bytes|] == bytes;
    FromBitsConcat(MessageBits(bytes), ByteBits(b));
  }

  lemma DividendStep(bytes: seq<bv8>, b: bv8)
    ensures Dividend(bytes + [b]) == TimesPower(Add(Dividend(bytes), TimesPower(BytePoly(b), 24)), 8)
  {
    MessagePolyStep(bytes, b);
    DividendAlgebra(FromBits(MessageBits(bytes)), BytePoly(b), AllOnes(), 8 * |bytes|);
  }

  lemma AddSwap(a: Poly, b: Poly, c: Poly)
    ensures Add(Add(a, b), c) == Add(Add(a, c), b)
  {}

  /** The register and the dividend always differ by a multiple of the generator. */
  lemma {:induction false} RegisterDistance<T(!new)>(o: Ops<T>, poly: T -> Poly, g: Poly, bytes: seq<bv8>)
      returns (q: seq<bool>)
    requires Laws(o, poly, g)
    ensures Add(Dividend(bytes), poly(Register(o, bytes))) == Multiple(q, g)
  {
    if bytes == [] {
      q := [];
      TimesPowerZero(AllOnes());
    } else {
      var init, b := bytes[..|bytes| - 1], bytes[|bytes| - 1];
      assert bytes == init + [b];
      var t := RegisterDistance(o, poly, g, init);
      var c := Register(o, init);
      var word := TimesPower(BytePoly(b), 24);
      AddCancel(Dividend(init), poly(c), word);
      q := ShiftsDistance(o, poly, g, Add(Dividend(init), word), o.xor(c, o.widen(b)), 8, t);
      DividendStep(init, b);
    }
  }
}
