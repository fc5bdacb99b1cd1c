/** A machine word as the list of its bits, and exclusive-or seen through that list. */
module WordBits {
  import opened Gf2

  function Half(c: bv32): bv32 { c >> 1 }

  predicate Low(c: bv32) { c & 1 == 1 }

  function Xor(c: bv32, d: bv32): bv32 { c ^ d }

  function HalfByte(b: bv8): bv8 { b >> 1 }

  predicate LowOfByte(b: bv8) { b & 1 == 1 }

  function XorByte(a: bv8, b: bv8): bv8 { a ^ b }

  /** Bits read off one at a time, for any word type with a lowest bit and a halving. */
  function Expand<T>(half: T -> T, low: T -> bool, c: T, n: nat): (s: seq<bool>)
    ensures |s| == n
  {
    if n == 0 then [] else [low(c)] + Expand(half, low, half(c), n - 1)
  }

  lemma XorCons(x: bool, y: bool, s: seq<bool>, t: seq<bool>)
    requires |s| == |t|
    ensures XorBits([x] + s, [y] + t) == [x != y] + XorBits(s, t)
  {}

  lemma {:induction false} ExpandXor<T(!new)>(half: T -> T, low: T -> bool, xor: (T, T) -> T, c: T, d: T, n: nat)
    requires forall x, y :: low(xor(x, y)) == (low(x) != low(y)) && half(xor(x, y)) == xor(half(x), half(y))
    ensures Expand(half, low, xor(c, d), n) == XorBits(Expand(half, low, c, n), Expand(half, low, d, n))
    decreases n
  {
    if n > 0 {
      ExpandXor(half, low, xor, half(c), half(d), n - 1);
      XorCons(low(c), low(d), Expand(half, low, half(c), n - 1), Expand(half, low, half(d), n - 1));
    }
  }

  /** The bits of `c`, least significant first. */
  function Bits(c: bv32): (s: seq<bool>)
    ensures |s| == 32
  {
    Expand(Half, Low, c, 32)
  }

  lemma HalfXor(c: bv32, d: bv32)
    ensures Half(Xor(c, d)) == Xor(Half(c), Half(d))
  {}

  lemma LowXor(c: bv32, d: bv32)
    ensures Low(Xor(c, d)) == (Low(c) != Low(d))
  {}

  lemma BitsXor(c: bv32, d: bv32)
    ensures Bits(Xor(c, d)) == XorBits(Bits(c), Bits(d))
  {
    forall x, y ensures Low(Xor(x, y)) == (Low(x) != Low(y)) && Half(Xor(x, y)) == Xor(Half(x), Half(y)) {
      HalfXor(x, y);
      LowXor(x, y);
    }
    ExpandXor(Half, Low, Xor, c, d, 32);
  }

  // ----- Reading a word off eight bits at a time -----

  function Eight<T>(half: T -> T, c: T): T {
    half(half(half(half(half(half(half(half(c))))))))
  }

  /** The eight lowest bits of `c`. */
  function Octet<T>(half: T -> T, low: T -> bool, c: T): (s: seq<bool>)
    ensures |s| == 8
  {
    var c1 := half(c); var c2 := half(c1); var c3 := half(c2);
    var c4 := half(c3); var c5 := half(c4); var c6 := half(c5);
    [low(c), low(c1), low(c2), low(c3), low(c4), low(c5), low(c6), low(half(c6))]
  }

  lemma ExpandFour<T>(half: T -> T, low: T -> bool, c: T, n: nat)
    ensures Expand(half, low, c, 4 + n) ==
            [low(c), low(half(c)), low(half(half(c))), low(half(half(half(c))))]
            + Expand(half, low, half(half(half(half(c)))), n)
  {
    var c1 := half(c); var c2 := half(c1); var c3 := half(c2);
    assert Expand(half, low, c, 4 + n) == [low(c)] + Expand(half, low, c1, 3 + n);
    assert Expand(half, low, c1, 3 + n) == [low(c1)] + Expand(half, low, c2, 2 + n);
    assert Expand(half, low, c2, 2 + n) == [low(c2)] + Expand(half, low, c3, 1 + n);
  }

  lemma ExpandOctet<T>(half: T -> T, low: T -> bool, c: T, n: nat)
    ensures Expand(half, low, c, 8 + n) == Octet(half, low, c) + Expand(half, low, Eight(half, c), n)
  {
    ExpandFour(half, low, c, 4 + n);
    ExpandFour(half, low, half(half(half(half(c)))), n);
  }

  lemma ExpandWord<T>(half: T -> T, low: T -> bool, c: T, n: nat)
    ensures var c1 := Eight(half, c); var c2 := Eight(half, c1); var c3 := Eight(half, c2);
            Expand(half, low, c, 32 + n) ==
            Octet(half, low, c) + Octet(half, low, c1) + Octet(half, low, c2) + Octet(half, low, c3)
            + Expand(half, low, Eight(half, c3), n)
  {
    var c1 := Eight(half, c); var c2 := Eight(half, c1); var c3 := Eight(half, c2);
    ExpandOctet(half, low, c, 24 + n);
    ExpandOctet(half, low, c1, 16 + n);
    ExpandOctet(half, low, c2, 8 + n);
    ExpandOctet(half, low, c3, n);
  }

  lemma ExpandRest<T>(half: T -> T, low: T -> bool, c: T)
    ensures Expand(half, low, c, 33) ==
            Expand(half, low, c, 32) + [low(Eight(half, Eight(half, Eight(half, Eight(half, c)))))]
  {
    var rest := Eight(half, Eight(half, Eight(half, Eight(half, c))));
    assert Expand(half, low, rest, 1) == [low(rest)] && Expand(half, low, rest, 0) == [];
    ExpandWord(half, low, c, 1);
    ExpandWord(half, low, c, 0);
  }

  /** Halving drops the lowest bit and brings in a zero, if nothing is left after 32 halvings. */
  lemma ExpandHalf<T>(half: T -> T, low: T -> bool, c: T, rest: T)
    requires Expand(half, low, c, 33) == Expand(half, low, c, 32) + [low(rest)] && !low(rest)
    ensures Expand(half, low, half(c), 32) == Expand(half, low, c, 32)[1..] + [false]
  {
    assert Expand(half, low, c, 33) == [low(c)] + Expand(half, low, half(c), 32);
    assert Expand(half, low, half(c), 32) == Expand(half, low, c, 33)[1..];
  }

  function Iterate<T>(f: T -> T, c: T, n: nat): T {
    if n == 0 then c else Iterate(f, f(c), n - 1)
  }

  lemma IterateEight<T>(f: T -> T, c: T, n: nat)
    ensures Iterate(f, c, 8 + n) == Iterate(f, Eight(f, c), n)
  {
    var c1 := f(c); var c2 := f(c1); var c3 := f(c2); var c4 := f(c3);
    var c5 := f(c4); var c6 := f(c5); var c7 := f(c6); var c8 := f(c7);
    assert Iterate(f, c, 8 + n) == Iterate(f, c1, 7 + n);
    assert Iterate(f, c1, 7 + n) == Iterate(f, c2, 6 + n);
    assert Iterate(f, c2, 6 + n) == Iterate(f, c3, 5 + n);
    assert Iterate(f, c3, 5 + n) == Iterate(f, c4, 4 + n);
    assert Iterate(f, c4, 4 + n) == Iterate(f, c5, 3 + n);
    assert Iterate(f, c5, 3 + n) == Iterate(f, c6, 2 + n);
    assert Iterate(f, c6, 2 + n) == Iterate(f, c7, 1 + n);
    assert Iterate(f, c7, 1 + n) == Iterate(f, c8, n);
  }

  lemma {:induction false} ExpandInjective<T(!new)>(half: T -> T, low: T -> bool, c: T, d: T, n: nat)
    requires forall x, y :: low(x) == low(y) && half(x) == half(y) ==> x == y
    requires Expand(half, low, c, n) == Expand(half, low, d, n) && Iterate(half, c, n) == Iterate(half, d, n)
    ensures c == d
    decreases n
  {
    if n > 0 {
      var s, t := Expand(half, low, c, n), Expand(half, low, d, n);
      assert s[0] == low(c) && t[0] == low(d);
      assert s[1..] == Expand(half, low, half(c), n - 1) && t[1..] == Expand(half, low, half(d), n - 1);
      ExpandInjective(half, low, half(c), half(d), n - 1);
    }
  }

  lemma NothingLeft(c: bv32)
    ensures Eight(Half, Eight(Half, Eight(Half, Eight(Half, c)))) == 0
  {}

  lemma BitsHalf(c: bv32)
    ensures Bits(Half(c)) == Bits(c)[1..] + [false] && Bits(c)[0] == Low(c)
  {
    NothingLeft(c);
    ExpandRest(Half, Low, c);
    ExpandHalf(Half, Low, c, 0);
  }

  lemma HalfInjective(c: bv32, d: bv32)
    requires Low(c) == Low(d) && Half(c) == Half(d)
    ensures c == d
  {}

  lemma IterateWord<T>(f: T -> T, c: T)
    ensures Iterate(f, c, 32) == Eight(f, Eight(f, Eight(f, Eight(f, c))))
  {
    IterateEight(f, c, 24);
    IterateEight(f, Eight(f, c), 16);
    IterateEight(f, Eight(f, Eight(f, c)), 8);
    IterateEight(f, Eight(f, Eight(f, Eight(f, c))), 0);
  }

  lemma Exhausted(c: bv32)
    ensures Iterate(Half, c, 32) == 0
  {
    IterateWord(Half, c);
    NothingLeft(c);
  }

  lemma HalfLaw()
    ensures forall x, y :: Low(x) == Low(y) && Half(x) == Half(y) ==> x == y
  {
    forall x, y | Low(x) == Low(y) && Half(x) == Half(y) ensures x == y { HalfInjective(x, y); }
  }

  lemma BitsInjective(c: bv32, d: bv32)
    requires Bits(c) == Bits(d)
    ensures c == d
  {
    Exhausted(c);
    Exhausted(d);
    HalfLaw();
    ExpandInjective(Half, Low, c, d, 32);
  }

  lemma BitsOctets(c: bv32)
    ensures Bits(c) == Octet(Half, Low, c) + Octet(Half, Low, Eight(Half, c))
                       + Octet(Half, Low, Eight(Half, Eight(Half, c)))
                       + Octet(Half, Low, Eight(Half, Eight(Half, Eight(Half, c))))
  {
    ExpandWord(Half, Low, c, 0);
  }
}
