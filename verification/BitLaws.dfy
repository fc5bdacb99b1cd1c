/** From the bits of a word to the laws of a shift register, for any word type. */
module BitLaws {
  import opened Gf2
  import opened ShiftRegister

  lemma HalfPoly(low: bool, tail: seq<bool>)
    requires |tail| == 31
    ensures FromBits(tail + [false]) == Add(TimesPower(FromBits([low] + tail), 1), if low then {32} else {})
  {
    FromBitsLeading(low, tail);
    TimesPowerAdd(FromBits(tail), if low then {31} else {}, 1);
    assert TimesPower({31}, 1) == {32};
    assert (tail + [false])[..31] == tail;
  }

  /** Multiplying by x and subtracting the generator when x^32 appears is what one turn does. */
  lemma ShiftPoly(c: seq<bool>, half: seq<bool>, shifted: seq<bool>, feedback: seq<bool>, g: Poly)
    requires |c| == |feedback| == 32 && half == c[1..] + [false]
    requires shifted == if c[0] then XorBits(half, feedback) else half
    requires Add({32}, FromBits(feedback)) == g
    ensures FromBits(shifted) == Add(TimesPower(FromBits(c), 1), if c[0] then g else {})
  {
    var tail := c[1..];
    assert c == [c[0]] + tail;
    HalfPoly(c[0], tail);
    FromBitsXor(half, feedback);
    AddThird(TimesPower(FromBits(c), 1), {32}, FromBits(feedback));
    AddEmpty(TimesPower(FromBits(c), 1), {});
  }

  lemma FromBitsShift(s: seq<bool>, n: nat)
    ensures FromBits(s + Zeros(n)) == TimesPower(FromBits(s), n)
  {
    FromBitsConcat(s, Zeros(n));
    forall e: nat ensures e !in FromBits(Zeros(n)) { FromBitsMember(Zeros(n), e); }
    assert FromBits(Zeros(n)) == {};
    AddEmpty(TimesPower(FromBits(s), n), {});
  }
}
