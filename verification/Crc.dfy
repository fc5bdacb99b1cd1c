/** The CRC-32/ISO-HDLC that guards every frame (mailmsg.h). */
module Crc {
  import opened Gf2
  import opened WordBits
  import opened ShiftRegister
  import BitLaws

  const POLYNOMIAL: bv32 := 0xedb88320
  const ONES: bv32 := 0xffffffff

  /** One turn of the inner loop: shift right and fold the bit that falls out. */
  function Shift(c: bv32): bv32 {
    (c >> 1) ^ (POLYNOMIAL & (0 - (c & 1)))
  }

  function Widen(b: bv8): bv32 {
    b as bv32
  }

  function Complement(c: bv32): bv32 {
    !c
  }

  const CRC32: Ops<bv32> := Ops(Xor, Shift, Low, Widen, ONES, Complement)

  function Crc32(bytes: seq<bv8>): bv32 {
    Checksum(CRC32, bytes)
  }

  /** The checksum loop on 32-bit words: what it returns is the complement of the remainder of the message by the
      generator. */
  method ComputeCrc32(bytes: seq<bv8>) returns (crc: bv32)
    ensures crc == Crc32(bytes)
    ensures IsRemainder(Dividend(bytes), GENERATOR, 32, Poly32(!crc))
  {
    crc := ComputeChecksum(CRC32, bytes);
    CrcCharacterized(bytes, crc);
  }

  // ----- The register holds the remainder by the generator polynomial -----

  /** The CRC-32 generator of ITU-T V.42 and RFC 1662. */
  ghost const GENERATOR: Poly := {32, 26, 23, 22, 16, 12, 11, 10, 8, 7, 5, 4, 2, 1, 0}

  const FEEDBACK: seq<bool> :=
    [false, false, false, false, false, true, false, false]
    + [true, true, false, false, false, false, false, true]
    + [false, false, false, true, true, true, false, true]
    + [true, false, true, true, false, true, true, true]

  lemma FeedbackOctets()
    ensures Octet(Half, Low, 0xedb88320) == [false, false, false, false, false, true, false, false]
    ensures Octet(Half, Low, 0xedb883) == [true, true, false, false, false, false, false, true]
    ensures Octet(Half, Low, 0xedb8) == [false, false, false, true, true, true, false, true]
    ensures Octet(Half, Low, 0xed) == [true, false, true, true, false, true, true, true]
  {}

  lemma FeedbackBits()
    ensures Bits(POLYNOMIAL) == FEEDBACK
  {
    BitsOctets(POLYNOMIAL);
    assert Eight(Half, POLYNOMIAL) == 0xedb883 && Eight(Half, 0xedb883) == 0xedb8 && Eight(Half, 0xedb8) == 0xed;
    FeedbackOctets();
  }

  lemma OnesBits()
    ensures Bits(ONES) == seq(32, _ => true)
  {
    var c1 := Eight(Half, ONES);
    var c2 := Eight(Half, c1);
    assert c1 == 0xffffff && c2 == 0xffff && Eight(Half, c2) == 0xff;
    BitsOctets(ONES);
  }

  lemma WidenOctet(b: bv8)
    ensures Octet(Half, Low, b as bv32) == ByteBits(b)
  {
    ExpandOctet(HalfByte, LowOfByte, b, 0);
    assert Expand(HalfByte, LowOfByte, Eight(HalfByte, b), 0) == [];
    WidenHalves(b);
  }

  lemma WidenHalves(b: bv8)
    ensures Octet(Half, Low, b as bv32) == Octet(HalfByte, LowOfByte, b)
  {}

  lemma WidenEight(b: bv8)
    ensures Eight(Half, b as bv32) == 0
  {}

  lemma ZeroOctet()
    ensures Eight(Half, 0) == 0 && Octet(Half, Low, 0) == Zeros(8)
  {}

  lemma PadOctet(s: seq<bool>, zeros: seq<bool>)
    requires zeros == Zeros(8)
    ensures s + zeros + zeros + zeros == s + Zeros(24)
  {}

  lemma WidenBits(b: bv8)
    ensures Bits(Widen(b)) == ByteBits(b) + Zeros(24)
  {
    BitsOctets(b as bv32);
    WidenOctet(b);
    WidenEight(b);
    ZeroOctet();
    PadOctet(ByteBits(b), Octet(Half, Low, 0));
  }

  lemma FeedbackTerm(e: nat)
    ensures e < 32 && FEEDBACK[31 - e] <==> e in GENERATOR && e != 32
  {}

  lemma FeedbackTerms()
    ensures Add({32}, FromBits(FEEDBACK)) == GENERATOR
  {
    forall e: nat ensures e in FromBits(FEEDBACK) <==> e in GENERATOR && e != 32 {
      FromBitsMember(FEEDBACK, e);
      FeedbackTerm(e);
    }
  }

  lemma ShiftCases(c: bv32)
    ensures Shift(c) == if Low(c) then Xor(Half(c), POLYNOMIAL) else Half(c)
  {
    LowestBit(c);
    if c & 1 == 1 { MaskAll(POLYNOMIAL, c & 1); } else { MaskNone(Half(c), POLYNOMIAL, c & 1); }
  }

  lemma LowestBit(c: bv32)
    ensures c & 1 == 0 || c & 1 == 1
    ensures Low(c) <==> c & 1 == 1
  {}

  lemma MaskAll(p: bv32, one: bv32)
    requires one == 1
    ensures p & (0 - one) == p
  {}

  lemma MaskNone(h: bv32, p: bv32, zero: bv32)
    requires zero == 0
    ensures h ^ (p & (0 - zero)) == h
  {}

  ghost function Poly32(c: bv32): Poly {
    FromBits(Bits(c))
  }

  lemma PolyLaws()
    ensures Laws(CRC32, Poly32, GENERATOR)
  {
    XorHolds();
    GeneratorHolds();
    WidenHolds();
    StartHolds();
  }

  lemma GeneratorHolds()
    ensures ShiftLaw(CRC32, Poly32, GENERATOR)
  {
    FeedbackBits();
    FeedbackTerms();
    ShiftHolds(FEEDBACK, GENERATOR);
  }

  lemma StartHolds()
    ensures Poly32(CRC32.start) == AllOnes()
  {
    OnesBits();
  }

  lemma XorHolds()
    ensures XorLaw(CRC32, Poly32)
  {
    forall c, d ensures Poly32(CRC32.xor(c, d)) == Add(Poly32(c), Poly32(d)) {
      BitsXor(c, d);
      FromBitsXor(Bits(c), Bits(d));
    }
  }

  lemma ShiftBits(c: bv32)
    ensures Bits(Shift(c)) == if Low(c) then XorBits(Bits(Half(c)), Bits(POLYNOMIAL)) else Bits(Half(c))
  {
    ShiftCases(c);
    BitsXor(Half(c), POLYNOMIAL);
  }

  lemma PolyShift(c: bv32, feedback: seq<bool>, g: Poly)
    requires feedback == Bits(POLYNOMIAL) && Add({32}, FromBits(feedback)) == g
    ensures Poly32(Shift(c)) == Add(TimesPower(Poly32(c), 1), if Low(c) then g else {})
  {
    BitsHalf(c);
    ShiftBits(c);
    BitLaws.ShiftPoly(Bits(c), Bits(Half(c)), Bits(Shift(c)), feedback, g);
  }

  lemma ShiftHolds(feedback: seq<bool>, g: Poly)
    requires feedback == Bits(POLYNOMIAL) && Add({32}, FromBits(feedback)) == g
    ensures ShiftLaw(CRC32, Poly32, g)
  {
    forall c ensures Poly32(CRC32.shift(c)) == Add(TimesPower(Poly32(c), 1), if CRC32.low(c) then g else {}) {
      PolyShift(c, feedback, g);
    }
  }

  lemma WidenHolds()
    ensures WidenLaw(CRC32, Poly32)
  {
    forall b ensures Poly32(CRC32.widen(b)) == TimesPower(BytePoly(b), 24) {
      WidenBits(b);
      BitLaws.FromBitsShift(ByteBits(b), 24);
    }
  }

  // ----- What the checksum is, and what it detects -----

  lemma PolyDegree(c: bv32)
    ensures forall e :: e in Poly32(c) ==> e < 32
  {
    forall e | e in Poly32(c) ensures e < 32 { FromBitsMember(Bits(c), e); }
  }

  lemma PolyInjective(c: bv32, d: bv32)
    requires Poly32(c) == Poly32(d)
    ensures c == d
  {
    FromBitsInjective(Bits(c), Bits(d));
    BitsInjective(c, d);
  }

  lemma RegisterIsRemainder(bytes: seq<bv8>)
    ensures IsRemainder(Dividend(bytes), GENERATOR, 32, Poly32(Register(CRC32, bytes)))
  {
    PolyLaws();
    PolyDegree(Register(CRC32, bytes));
    var q := RegisterDistance(CRC32, Poly32, GENERATOR, bytes);
  }

  lemma GeneratorDegree()
    ensures 0 in GENERATOR && 32 in GENERATOR && forall e :: e in GENERATOR ==> e <= 32
  {}

  lemma Characterized(p: Poly, g: Poly, r: bv32, c: bv32)
    requires 32 in g && forall e :: e in g ==> e <= 32
    requires IsRemainder(p, g, 32, Poly32(r))
    ensures c == Complement(r) <==> IsRemainder(p, g, 32, Poly32(Complement(c)))
  {
    ComplementTwice(c);
    ComplementTwice(r);
    if IsRemainder(p, g, 32, Poly32(Complement(c))) {
      RemainderUnique(p, g, 32, Poly32(Complement(c)), Poly32(r));
      PolyInjective(Complement(c), r);
    }
  }

  lemma CrcByComplement(bytes: seq<bv8>, c: bv32)
    ensures c == Crc32(bytes) <==> IsRemainder(Dividend(bytes), GENERATOR, 32, Poly32(Complement(c)))
  {
    RegisterIsRemainder(bytes);
    GeneratorDegree();
    Characterized(Dividend(bytes), GENERATOR, Register(CRC32, bytes), c);
  }

  lemma ComplementIs(c: bv32)
    ensures Complement(c) == !c
  {}

  /** For byte sequences of every length, the checksum is the bitwise complement of the polynomial remainder
      and of nothing else. */
  lemma CrcCharacterized(bytes: seq<bv8>, c: bv32)
    ensures c == Crc32(bytes) <==> IsRemainder(Dividend(bytes), GENERATOR, 32, Poly32(!c))
  {
    CrcByComplement(bytes, c);
    ComplementIs(c);
  }

  lemma ComplementTwice(c: bv32)
    ensures Complement(Complement(c)) == c
  {}

  function XorBytes(a: seq<bv8>, b: seq<bv8>): (r: seq<bv8>)
    requires |a| == |b|
    ensures |r| == |a|
  {
    seq(|a|, i requires 0 <= i < |a| => XorByte(a[i], b[i]))
  }

  lemma ByteXorLaw(a: bv8, b: bv8)
    ensures LowOfByte(XorByte(a, b)) == (LowOfByte(a) != LowOfByte(b))
    ensures HalfByte(XorByte(a, b)) == XorByte(HalfByte(a), HalfByte(b))
  {}

  lemma ByteBitsXor(a: bv8, b: bv8)
    ensures ByteBits(XorByte(a, b)) == XorBits(ByteBits(a), ByteBits(b))
  {
    forall x, y ensures LowOfByte(XorByte(x, y)) == (LowOfByte(x) != LowOfByte(y))
                        && HalfByte(XorByte(x, y)) == XorByte(HalfByte(x), HalfByte(y)) {
      ByteXorLaw(x, y);
    }
    ExpandXor(HalfByte, LowOfByte, XorByte, a, b, 8);
  }

  lemma XorConcat(a: seq<bool>, b: seq<bool>, c: seq<bool>, d: seq<bool>)
    requires |a| == |b| && |c| == |d|
    ensures XorBits(a + c, b + d) == XorBits(a, b) + XorBits(c, d)
  {}

  lemma {:induction false} MessageBitsXor(a: seq<bv8>, b: seq<bv8>)
    requires |a| == |b|
    ensures MessageBits(XorBytes(a, b)) == XorBits(MessageBits(a), MessageBits(b))
  {
    if a != [] {
      var n := |a| - 1;
      assert XorBytes(a, b)[..n] == XorBytes(a[..n], b[..n]);
      MessageBitsXor(a[..n], b[..n]);
      ByteBitsXor(a[n], b[n]);
      XorConcat(MessageBits(a[..n]), MessageBits(b[..n]), ByteBits(a[n]), ByteBits(b[n]));
    }
  }

  /** Two equally long messages: the initial ones cancel and the difference of the messages remains. */
  lemma DividendXor(a: seq<bv8>, b: seq<bv8>)
    requires |a| == |b|
    ensures Add(Dividend(a), Dividend(b)) == TimesPower(FromBits(MessageBits(XorBytes(a, b))), 32)
  {
    var x, y, ones := FromBits(MessageBits(a)), FromBits(MessageBits(b)), TimesPower(AllOnes(), 8 * |a|);
    MessageBitsXor(a, b);
    FromBitsXor(MessageBits(a), MessageBits(b));
    TimesPowerAdd(x, y, 32);
    AddCancel(TimesPower(x, 32), TimesPower(y, 32), ones);
  }

  lemma {:induction false} MessageBitsConcat(a: seq<bv8>, b: seq<bv8>)
    ensures MessageBits(a + b) == MessageBits(a) + MessageBits(b)
  {
    if b == [] {
      assert a + b == a;
    } else {
      var n := |b| - 1;
      assert (a + b)[..|a| + n] == a + b[..n];
      MessageBitsConcat(a, b[..n]);
    }
  }

  lemma ConcatInjective(a: seq<bool>, b: seq<bool>, c: seq<bool>, d: seq<bool>)
    requires |a| == |c| && a + b == c + d
    ensures a == c && b == d
  {
    assert a == (a + b)[..|a|] && b == (a + b)[|a|..];
    assert c == (c + d)[..|a|] && d == (c + d)[|a|..];
  }

  lemma MessageBitsLast(a: seq<bv8>, b: seq<bv8>, n: nat)
    requires |a| == |b| == n + 1 && MessageBits(a) == MessageBits(b)
    ensures MessageBits(a[..n]) == MessageBits(b[..n]) && ByteBits(a[n]) == ByteBits(b[n])
  {
    ConcatInjective(MessageBits(a[..n]), ByteBits(a[n]), MessageBits(b[..n]), ByteBits(b[n]));
  }

  lemma SeqByLast(a: seq<bv8>, b: seq<bv8>, n: nat)
    requires |a| == |b| == n + 1 && a[..n] == b[..n] && a[n] == b[n]
    ensures a == b
  {
    assert a == a[..n] + [a[n]] && b == b[..n] + [b[n]];
  }

  lemma {:induction false} MessageBitsInjective(a: seq<bv8>, b: seq<bv8>)
    requires |a| == |b| && MessageBits(a) == MessageBits(b)
    ensures a == b
  {
    if a != [] {
      var n := |a| - 1;
      MessageBitsLast(a, b, n);
      MessageBitsInjective(a[..n], b[..n]);
      ByteBitsInjective(a[n], b[n]);
      SeqByLast(a, b, n);
    }
  }

  lemma ByteBitsInjective(a: bv8, b: bv8)
    requires ByteBits(a) == ByteBits(b)
    ensures a == b
  {
    forall x, y | LowOfByte(x) == LowOfByte(y) && HalfByte(x) == HalfByte(y) ensures x == y { HalfByteInjective(x, y); }
    IterateEight(HalfByte, a, 0);
    IterateEight(HalfByte, b, 0);
    NothingLeftOfByte(a);
    NothingLeftOfByte(b);
    ExpandInjective(HalfByte, LowOfByte, a, b, 8);
  }

  lemma HalfByteInjective(a: bv8, b: bv8)
    requires LowOfByte(a) == LowOfByte(b) && HalfByte(a) == HalfByte(b)
    ensures a == b
  {}

  lemma NothingLeftOfByte(a: bv8)
    ensures Eight(HalfByte, a) == 0
  {}

  lemma XorSelf(s: seq<bool>)
    ensures XorBits(s, s) == Zeros(|s|)
  {}

  lemma XorZero(s: seq<bool>, t: seq<bool>)
    requires |s| == |t| && XorBits(s, t) == Zeros(|s|)
    ensures s == t
  {
    forall i | 0 <= i < |s| ensures s[i] == t[i] { assert !XorBits(s, t)[i]; }
  }

  /** A burst: two inputs that differ, but only inside bytes i .. i+4. */
  ghost predicate DifferOnlyWithin(a: seq<bv8>, b: seq<bv8>, i: nat) {
    && |a| == |b| && i + 4 <= |a| && a != b
    && a[..i] == b[..i] && a[i + 4..] == b[i + 4..]
  }

  lemma {:induction false} MessageBitsSplit(a: seq<bv8>, b: seq<bv8>, c: seq<bv8>)
    ensures MessageBits(a + b + c) == MessageBits(a) + MessageBits(b) + MessageBits(c)
  {
    MessageBitsConcat(a, b);
    MessageBitsConcat(a + b, c);
  }

  lemma XorMiddle(pre: seq<bool>, x: seq<bool>, y: seq<bool>, post: seq<bool>)
    requires |x| == |y|
    ensures XorBits(pre + x + post, pre + y + post) == Zeros(|pre|) + XorBits(x, y) + Zeros(|post|)
  {
    XorConcat(pre, pre, x, y);
    XorConcat(pre + x, pre + y, post, post);
    XorSelf(pre);
    XorSelf(post);
  }

  lemma BurstBits(pre: seq<bv8>, x: seq<bv8>, y: seq<bv8>, post: seq<bv8>)
    requires |x| == |y|
    ensures MessageBits(XorBytes(pre + x + post, pre + y + post)) ==
            Zeros(8 * |pre|) + XorBits(MessageBits(x), MessageBits(y)) + Zeros(8 * |post|)
  {
    MessageBitsXor(pre + x + post, pre + y + post);
    MessageBitsSplit(pre, x, post);
    MessageBitsSplit(pre, y, post);
    XorMiddle(MessageBits(pre), MessageBits(x), MessageBits(y), MessageBits(post));
  }

  lemma PaddedPoly(m: nat, e: seq<bool>, n: nat)
    ensures FromBits(Zeros(m) + e + Zeros(n)) == TimesPower(FromBits(e), n)
  {
    BitLaws.FromBitsShift(Zeros(m) + e, n);
    FromBitsConcat(Zeros(m), e);
    NoTerms(Zeros(m));
    TimesPowerEmpty(|e|);
    AddEmpty(FromBits(e), {});
  }

  lemma BurstNonzero(x: seq<bv8>, y: seq<bv8>)
    requires |x| == |y| && x != y
    ensures true in XorBits(MessageBits(x), MessageBits(y))
  {
    var e := XorBits(MessageBits(x), MessageBits(y));
    if true !in e {
      assert e == Zeros(|e|);
      XorZero(MessageBits(x), MessageBits(y));
      MessageBitsInjective(x, y);
    }
  }

  /** The difference of the two messages is a nonzero polynomial of degree below 32, times a power of x. */
  lemma BurstPoly(a: seq<bv8>, b: seq<bv8>, i: nat) returns (e: seq<bool>, n: nat)
    requires DifferOnlyWithin(a, b, i)
    ensures |e| == 32 && true in e
    ensures FromBits(MessageBits(XorBytes(a, b))) == TimesPower(FromBits(e), n)
  {
    var pre, x, y, post := a[..i], a[i..i + 4], b[i..i + 4], a[i + 4..];
    assert a == pre + x + post && b == pre + y + post;
    e, n := XorBits(MessageBits(x), MessageBits(y)), 8 * |post|;
    BurstBits(pre, x, y, post);
    PaddedPoly(8 * |pre|, e, n);
    BurstNonzero(x, y);
  }

  lemma NoTerms(s: seq<bool>)
    requires true !in s
    ensures FromBits(s) == {}
  {
    forall k: nat ensures k !in FromBits(s) { FromBitsMember(s, k); }
  }

  lemma TimesPowerEmpty(n: nat)
    ensures TimesPower({}, n) == {}
  {}

  /** No nonzero polynomial below degree 32 is a multiple of the generator, whatever power of x it carries. */
  lemma BurstNotMultiple(e: seq<bool>, n: nat, k: seq<bool>, g: Poly)
    requires |e| == 32 && true in e
    requires 0 in g && 32 in g && forall t :: t in g ==> t <= 32
    ensures TimesPower(FromBits(e), n) != Multiple(k, g)
  {
    if TimesPower(FromBits(e), n) == Multiple(k, g) {
      var j := DividePower(FromBits(e), n, k, g);
      MultipleDegree(j, g, 32);
      var i :| 0 <= i < 32 && e[i];
      FromBitsMember(e, 31 - i);
      var top :| top in Multiple(j, g) && top >= 32;
      FromBitsMember(e, top);
    }
  }

  lemma SameRemainder(p1: Poly, p2: Poly, r: Poly, g: Poly, d: nat) returns (k: seq<bool>)
    requires IsRemainder(p1, g, d, r) && IsRemainder(p2, g, d, r)
    ensures Add(p1, p2) == Multiple(k, g)
  {
    RemainderAdd(p1, r, p2, r, g, d);
    AddEmpty(r, r);
    AddEmpty(Add(p1, p2), {});
    k :| Add(Add(p1, p2), Add(r, r)) == Multiple(k, g);
  }

  lemma NoSharedRemainder(p1: Poly, p2: Poly, p: Poly, e: seq<bool>, n: nat, r: Poly, g: Poly)
    requires |e| == 32 && true in e && p == TimesPower(FromBits(e), n) && Add(p1, p2) == TimesPower(p, 32)
    requires 0 in g && 32 in g && forall t :: t in g ==> t <= 32
    ensures !(IsRemainder(p1, g, 32, r) && IsRemainder(p2, g, 32, r))
  {
    if IsRemainder(p1, g, 32, r) && IsRemainder(p2, g, 32, r) {
      var k := SameRemainder(p1, p2, r, g, 32);
      TimesPowerTwice(FromBits(e), n, 32);
      BurstNotMultiple(e, n + 32, k, g);
    }
  }

  /** Every change inside four consecutive bytes changes the checksum. */
  lemma BurstDetected(a: seq<bv8>, b: seq<bv8>, i: nat)
    requires DifferOnlyWithin(a, b, i)
    ensures Crc32(a) != Crc32(b)
  {
    var e, n := BurstPoly(a, b, i);
    var p, c := FromBits(MessageBits(XorBytes(a, b))), Crc32(a);
    DividendXor(a, b);
    CrcByComplement(a, c);
    CrcByComplement(b, c);
    GeneratorDegree();
    NoSharedRemainder(Dividend(a), Dividend(b), p, e, n, Poly32(Complement(c)), GENERATOR);
  }

  /** The checksum is affine: it commutes with the sum of three equally long inputs. */
  lemma CrcAffine(a: seq<bv8>, b: seq<bv8>, c: seq<bv8>)
    requires |a| == |b| == |c|
    ensures Crc32(XorBytes(XorBytes(a, b), c)) == Xor(Xor(Crc32(a), Crc32(b)), Crc32(c))
  {
    var x, y, z := Register(CRC32, a), Register(CRC32, b), Register(CRC32, c);
    var s := XorBytes(XorBytes(a, b), c);
    RegisterIsRemainder(a);
    RegisterIsRemainder(b);
    RegisterIsRemainder(c);
    RemainderAdd(Dividend(a), Poly32(x), Dividend(b), Poly32(y), GENERATOR, 32);
    RemainderAdd(Add(Dividend(a), Dividend(b)), Add(Poly32(x), Poly32(y)), Dividend(c), Poly32(z), GENERATOR, 32);
    DividendTriple(a, b, c);
    PolyXor(x, y);
    PolyXor(Xor(x, y), z);
    ComplementTriple(x, y, z);
    CrcByComplement(s, Complement(Xor(Xor(x, y), z)));
  }

  lemma PolyXor(c: bv32, d: bv32)
    ensures Poly32(Xor(c, d)) == Add(Poly32(c), Poly32(d))
  {
    BitsXor(c, d);
    FromBitsXor(Bits(c), Bits(d));
  }

  lemma DividendTriple(a: seq<bv8>, b: seq<bv8>, c: seq<bv8>)
    requires |a| == |b| == |c|
    ensures Dividend(XorBytes(XorBytes(a, b), c)) == Add(Add(Dividend(a), Dividend(b)), Dividend(c))
  {
    var d := XorBytes(a, b);
    var x, y := FromBits(MessageBits(d)), FromBits(MessageBits(c));
    DividendXor(a, b);
    MessageBitsXor(d, c);
    FromBitsXor(MessageBits(d), MessageBits(c));
    TimesPowerAdd(x, y, 32);
    AddThird(TimesPower(x, 32), TimesPower(y, 32), TimesPower(AllOnes(), 8 * |a|));
  }

  lemma ComplementPair(x: bv32, y: bv32)
    ensures Xor(Complement(x), Complement(y)) == Xor(x, y)
  {}

  lemma ComplementRight(x: bv32, y: bv32)
    ensures Xor(x, Complement(y)) == Complement(Xor(x, y))
  {}

  lemma ComplementTriple(x: bv32, y: bv32, z: bv32)
    ensures Complement(Xor(Xor(x, y), z)) == Xor(Xor(Complement(x), Complement(y)), Complement(z))
    ensures Complement(Complement(Xor(Xor(x, y), z))) == Xor(Xor(x, y), z)
  {
    ComplementPair(x, y);
    ComplementRight(Xor(x, y), z);
    ComplementTwice(Xor(Xor(x, y), z));
  }

  // ----- The published check value -----

  lemma NextRegister(pre: seq<bv8>, b: bv8, c: bv32, d: bv32)
    requires Register(CRC32, pre) == c && Shifts(CRC32, Xor(c, Widen(b)), 8) == d
    ensures Register(CRC32, pre + [b]) == d
  {
    assert (pre + [b])[..|pre|] == pre;
  }

  lemma OneShift(c: bv32, n: nat)
    ensures Shifts(CRC32, c, n + 1) == Shift(Shifts(CRC32, c, n))
  {}

  lemma EightShifts(c: bv32)
    ensures Shifts(CRC32, c, 8) == Shift(Shift(Shift(Shift(Shift(Shift(Shift(Shift(c))))))))
  {
    OneShift(c, 0);
    OneShift(c, 1);
    OneShift(c, 2);
    OneShift(c, 3);
    OneShift(c, 4);
    OneShift(c, 5);
    OneShift(c, 6);
    OneShift(c, 7);
  }

  lemma CheckSteps()
    ensures Shift(Shift(Shift(Shift(Shift(Shift(Shift(Shift(Xor(0xffffffff, Widen(0x31)))))))))) == 0x7c231048
    ensures Shift(Shift(Shift(Shift(Shift(Shift(Shift(Shift(Xor(0x7c231048, Widen(0x32)))))))))) == 0xb0acbb32
    ensures Shift(Shift(Shift(Shift(Shift(Shift(Shift(Shift(Xor(0xb0acbb32, Widen(0x33)))))))))) == 0x77b79c2d
    ensures Shift(Shift(Shift(Shift(Shift(Shift(Shift(Shift(Xor(0x77b79c2d, Widen(0x34)))))))))) == 0x641c1f5c
    ensures Shift(Shift(Shift(Shift(Shift(Shift(Shift(Shift(Xor(0x641c1f5c, Widen(0x35)))))))))) == 0x340ac5e3
    ensures Shift(Shift(Shift(Shift(Shift(Shift(Shift(Shift(Xor(0x340ac5e3, Widen(0x36)))))))))) == 0xf68d2c9e
    ensures Shift(Shift(Shift(Shift(Shift(Shift(Shift(Shift(Xor(0xf68d2c9e, Widen(0x37)))))))))) == 0xaffc9660
    ensures Shift(Shift(Shift(Shift(Shift(Shift(Shift(Shift(Xor(0xaffc9660, Widen(0x38)))))))))) == 0x651f2550
    ensures Shift(Shift(Shift(Shift(Shift(Shift(Shift(Shift(Xor(0x651f2550, Widen(0x39)))))))))) == 0x340bc6d9
  {}

  /** The checksum of the ASCII digits 1 to 9 is the check value that CRC-32/ISO-HDLC is published with. */
  lemma CheckValue()
    ensures Crc32([0x31, 0x32, 0x33, 0x34, 0x35, 0x36, 0x37, 0x38, 0x39]) == 0xcbf43926
  {
    var digits: seq<bv8> := [0x31, 0x32, 0x33, 0x34, 0x35, 0x36, 0x37, 0x38, 0x39];
    CheckSteps();
    EightShifts(Xor(0xffffffff, Widen(0x31)));
    NextRegister(digits[..0], 0x31, 0xffffffff, 0x7c231048);
    assert digits[..0] + [0x31] == digits[..1];
    EightShifts(Xor(0x7c231048, Widen(0x32)));
    NextRegister(digits[..1], 0x32, 0x7c231048, 0xb0acbb32);
    assert digits[..1] + [0x32] == digits[..2];
    EightShifts(Xor(0xb0acbb32, Widen(0x33)));
    NextRegister(digits[..2], 0x33, 0xb0acbb32, 0x77b79c2d);
    assert digits[..2] + [0x33] == digits[..3];
    EightShifts(Xor(0x77b79c2d, Widen(0x34)));
    NextRegister(digits[..3], 0x34, 0x77b79c2d, 0x641c1f5c);
    assert digits[..3] + [0x34] == digits[..4];
    EightShifts(Xor(0x641c1f5c, Widen(0x35)));
    NextRegister(digits[..4], 0x35, 0x641c1f5c, 0x340ac5e3);
    assert digits[..4] + [0x35] == digits[..5];
    EightShifts(Xor(0x340ac5e3, Widen(0x36)));
    NextRegister(digits[..5], 0x36, 0x340ac5e3, 0xf68d2c9e);
    assert digits[..5] + [0x36] == digits[..6];
    EightShifts(Xor(0xf68d2c9e, Widen(0x37)));
    NextRegister(digits[..6], 0x37, 0xf68d2c9e, 0xaffc9660);
    assert digits[..6] + [0x37] == digits[..7];
    EightShifts(Xor(0xaffc9660, Widen(0x38)));
    NextRegister(digits[..7], 0x38, 0xaffc9660, 0x651f2550);
    assert digits[..7] + [0x38] == digits[..8];
    EightShifts(Xor(0x651f2550, Widen(0x39)));
    NextRegister(digits[..8], 0x39, 0x651f2550, 0x340bc6d9);
    assert digits[..8] + [0x39] == digits[..9];
    assert digits[..9] == digits;
  }
}
