/** Polynomials over GF(2), written as the set of exponents whose coefficient is one. */
module Gf2 {

  type Poly = set<nat>

  function Add(p: Poly, q: Poly): Poly {
    (p - q) + (q - p)
  }

  /** x^n * p */
  function TimesPower(p: Poly, n: nat): Poly {
    set e | e in p :: e + n
  }

  lemma TimesPowerTerms(p: Poly, n: nat)
    ensures forall e: nat :: e in TimesPower(p, n) <==> e >= n && e - n in p
  {
    forall e: nat | e >= n && e - n in p ensures e in TimesPower(p, n) {
      assert (e - n) + n == e;
    }
  }

  /** The polynomial with the given coefficients, highest power first. */
  function FromBits(bits: seq<bool>): Poly {
    if bits == [] then {}
    else
      var p := TimesPower(FromBits(bits[..|bits| - 1]), 1);
      if bits[|bits| - 1] then p + {0} else p
  }

  /** The product of the polynomial with coefficients `q` (highest first) and `g`. */
  function Multiple(q: seq<bool>, g: Poly): Poly {
    if q == [] then {}
    else Add(TimesPower(Multiple(q[..|q| - 1], g), 1), if q[|q| - 1] then g else {})
  }

  function XorBits(a: seq<bool>, b: seq<bool>): (r: seq<bool>)
    requires |a| == |b|
    ensures |r| == |a|
  {
    seq(|a|, i requires 0 <= i < |a| => a[i] != b[i])
  }

  lemma TimesPowerAdd(p: Poly, q: Poly, n: nat)
    ensures TimesPower(Add(p, q), n) == Add(TimesPower(p, n), TimesPower(q, n))
  {
    TimesPowerTerms(p, n);
    TimesPowerTerms(q, n);
    TimesPowerTerms(Add(p, q), n);
  }

  lemma TimesPowerTwice(p: Poly, m: nat, n: nat)
    ensures TimesPower(TimesPower(p, m), n) == TimesPower(p, m + n)
  {
    TimesPowerTerms(p, m);
    TimesPowerTerms(TimesPower(p, m), n);
    TimesPowerTerms(p, m + n);
  }

  lemma TimesPowerZero(p: Poly)
    ensures TimesPower(p, 0) == p
  {}

  lemma NoConstantTerm(p: Poly)
    ensures 0 !in TimesPower(p, 1)
  {}

  lemma {:induction false} FromBitsXor(a: seq<bool>, b: seq<bool>)
    requires |a| == |b|
    ensures FromBits(XorBits(a, b)) == Add(FromBits(a), FromBits(b))
  {
    if a != [] {
      var n := |a| - 1;
      FromBitsXor(a[..n], b[..n]);
      TimesPowerAdd(FromBits(a[..n]), FromBits(b[..n]), 1);
      NoConstantTerm(FromBits(a[..n]));
      NoConstantTerm(FromBits(b[..n]));
      assert XorBits(a, b)[..n] == XorBits(a[..n], b[..n]);
    }
  }

  /** A leading coefficient contributes its own power. */
  lemma {:induction false} FromBitsLeading(b: bool, s: seq<bool>)
    ensures FromBits([b] + s) == Add(FromBits(s), if b then {|s|} else {})
  {
    if s == [] {
      assert ([b] + s)[..0] == [];
    } else {
      var n := |s| - 1;
      assert ([b] + s)[..|s|] == [b] + s[..n];
      FromBitsLeading(b, s[..n]);
      TimesPowerAdd(FromBits(s[..n]), if b then {n} else {}, 1);
      NoConstantTerm(FromBits(s[..n]));
      assert TimesPower({n}, 1) == {n + 1};
    }
  }

  lemma {:induction false} FromBitsMember(s: seq<bool>, e: nat)
    ensures e in FromBits(s) <==> e < |s| && s[|s| - 1 - e]
  {
    if s != [] {
      TimesPowerTerms(FromBits(s[..|s| - 1]), 1);
      if e > 0 {
        FromBitsMember(s[..|s| - 1], e - 1);
      }
    }
  }

  lemma FromBitsInjective(a: seq<bool>, b: seq<bool>)
    requires |a| == |b| && FromBits(a) == FromBits(b)
    ensures a == b
  {
    forall i | 0 <= i < |a| ensures a[i] == b[i] {
      FromBitsMember(a, |a| - 1 - i);
      FromBitsMember(b, |a| - 1 - i);
    }
  }

  lemma AddRegroup(a: Poly, b: Poly, c: Poly, d: Poly)
    ensures Add(Add(a, b), Add(c, d)) == Add(Add(a, c), Add(b, d))
  {}

  lemma AddCancel(a: Poly, b: Poly, c: Poly)
    ensures Add(Add(a, c), Add(b, c)) == Add(a, b)
  {}

  lemma {:induction false} FromBitsConcat(a: seq<bool>, b: seq<bool>)
    ensures FromBits(a + b) == Add(TimesPower(FromBits(a), |b|), FromBits(b))
  {
    if b == [] {
      assert a + b == a;
      TimesPowerZero(FromBits(a));
    } else {
      var n := |b| - 1;
      assert (a + b)[..|a| + n] == a + b[..n];
      FromBitsConcat(a, b[..n]);
      TimesPowerAdd(TimesPower(FromBits(a), n), FromBits(b[..n]), 1);
      TimesPowerTwice(FromBits(a), n, 1);
    }
  }

  lemma {:induction false} MultipleXor(a: seq<bool>, b: seq<bool>, g: Poly)
    requires |a| == |b|
    ensures Multiple(XorBits(a, b), g) == Add(Multiple(a, g), Multiple(b, g))
  {
    if a != [] {
      var n := |a| - 1;
      MultipleXor(a[..n], b[..n], g);
      TimesPowerAdd(Multiple(a[..n], g), Multiple(b[..n], g), 1);
      assert XorBits(a, b)[..n] == XorBits(a[..n], b[..n]);
    }
  }

  function Zeros(n: nat): (s: seq<bool>)
    ensures |s| == n
  {
    seq(n, _ => false)
  }

  lemma {:induction false} MultiplePad(n: nat, q: seq<bool>, g: Poly)
    ensures Multiple(Zeros(n) + q, g) == Multiple(q, g)
    decreases n + |q|
  {
    var s := Zeros(n) + q;
    if q != [] {
      assert s[..|s| - 1] == Zeros(n) + q[..|q| - 1];
      MultiplePad(n, q[..|q| - 1], g);
    } else if n > 0 {
      assert s[..|s| - 1] == Zeros(n - 1) + q;
      MultiplePad(n - 1, q, g);
    }
  }

  /** A product that is not zero has at least the degree of the generator. */
  lemma {:induction false} MultipleDegree(q: seq<bool>, g: Poly, d: nat)
    requires d in g && forall e :: e in g ==> e <= d
    ensures true !in q ==> Multiple(q, g) == {}
    ensures true in q ==>
      exists top :: top in Multiple(q, g) && top >= d && forall e :: e in Multiple(q, g) ==> e <= top
  {
    if q != [] {
      var n := |q| - 1;
      MultipleDegree(q[..n], g, d);
      assert q == q[..n] + [q[n]];
      if true in q[..n] {
        var t :| t in Multiple(q[..n], g) && t >= d && forall e :: e in Multiple(q[..n], g) ==> e <= t;
        var top := t + 1;
        TimesPowerTerms(Multiple(q[..n], g), 1);
        assert top in Multiple(q, g);
      } else if q[n] {
        assert Multiple(q, g) == g;
      }
    }
  }

  /** `r` is what is left of `p` after division by `g`, which has degree `d`. */
  ghost predicate IsRemainder(p: Poly, g: Poly, d: nat, r: Poly) {
    && (forall e :: e in r ==> e < d)
    && exists q :: Add(p, r) == Multiple(q, g)
  }

  /** Remainders add up. */
  lemma RemainderAdd(p1: Poly, r1: Poly, p2: Poly, r2: Poly, g: Poly, d: nat)
    requires IsRemainder(p1, g, d, r1) && IsRemainder(p2, g, d, r2)
    ensures IsRemainder(Add(p1, p2), g, d, Add(r1, r2))
  {
    var q1 :| Add(p1, r1) == Multiple(q1, g);
    var q2 :| Add(p2, r2) == Multiple(q2, g);
    var a, b := Zeros(|q2|) + q1, Zeros(|q1|) + q2;
    MultiplePad(|q2|, q1, g);
    MultiplePad(|q1|, q2, g);
    MultipleXor(a, b, g);
    AddRegroup(p1, r1, p2, r2);
    assert Add(Add(p1, p2), Add(r1, r2)) == Multiple(XorBits(a, b), g);
  }

  lemma AddEmpty(p: Poly, q: Poly)
    ensures Add(p, q) == {} <==> p == q
    ensures Add({}, p) == p
  {
    if Add(p, q) == {} {
      forall e ensures e in p <==> e in q { assert e !in Add(p, q); }
    }
  }

  lemma RemainderUnique(p: Poly, g: Poly, d: nat, r1: Poly, r2: Poly)
    requires d in g && forall e :: e in g ==> e <= d
    requires IsRemainder(p, g, d, r1) && IsRemainder(p, g, d, r2)
    ensures r1 == r2
  {
    RemainderAdd(p, r1, p, r2, g, d);
    AddEmpty(p, p);
    var k :| Add(Add(p, p), Add(r1, r2)) == Multiple(k, g);
    AddEmpty(Add(r1, r2), {});
    MultipleDegree(k, g, d);
    AddEmpty(r1, r2);
  }

  lemma TimesXInjective(p: Poly, q: Poly)
    requires TimesPower(p, 1) == TimesPower(q, 1)
    ensures p == q
  {
    TimesPowerTerms(p, 1);
    TimesPowerTerms(q, 1);
    forall e: nat ensures e in p <==> e in q {
      assert e in p <==> e + 1 in TimesPower(p, 1);
      assert e in q <==> e + 1 in TimesPower(q, 1);
    }
  }

  /** A generator with a constant term divides x^n * p only if it divides p. */
  lemma {:induction false} DividePower(p: Poly, n: nat, k: seq<bool>, g: Poly) returns (j: seq<bool>)
    requires 0 in g && TimesPower(p, n) == Multiple(k, g)
    ensures p == Multiple(j, g)
    decreases n
  {
    if n == 0 {
      TimesPowerZero(p);
      j := k;
    } else if k == [] {
      TimesPowerTerms(p, n);
      forall e: nat ensures e !in p { assert e + n !in TimesPower(p, n); }
      j := [];
    } else {
      var init := k[..|k| - 1];
      TimesPowerTerms(p, n);
      NoConstantTerm(Multiple(init, g));
      assert !k[|k| - 1];
      TimesPowerTwice(p, n - 1, 1);
      TimesXInjective(TimesPower(p, n - 1), Multiple(init, g));
      j := DividePower(p, n - 1, init, g);
    }
  }
}
