/** Polynomials over GF(2), each written as the finite set of exponents whose
    coefficient is 1, and division by the CRC generator of section 2 of ITU-T V.41. */
module Gf2 {
  type Poly = set<nat>

  function Add(p: Poly, q: Poly): Poly { (p - q) + (q - p) }

  function MulX(p: Poly): Poly { set e | e in p :: e + 1 }

  function MulXn(p: Poly, n: nat): Poly {
    if n == 0 then p else MulX(MulXn(p, n - 1))
  }

  /** x^16 + x^12 + x^5 + 1. */
  const GENERATOR: Poly := {16, 12, 5, 0}

  predicate Below(p: Poly, n: nat) { forall e | e in p :: e < n }

  function Unless(zero: bool, p: Poly): Poly { if zero then {} else p }

  /** Product of the polynomial with coefficients `q`, highest first, and `g`. */
  function Mul(q: seq<bool>, g: Poly): Poly {
    if q == [] then {}
    else Add(MulX(Mul(q[..|q| - 1], g)), Unless(!q[|q| - 1], g))
  }

  /** `r` is a remainder of `p` on division by the generator. */
  ghost predicate IsRemainder(p: Poly, r: Poly) {
    Below(r, 16) && exists q: seq<bool> :: p == Add(Mul(q, GENERATOR), r)
  }

  lemma MulXMember(p: Poly)
    ensures forall e: nat :: e in MulX(p) <==> e > 0 && e - 1 in p
  {
    forall e: nat ensures e in MulX(p) <==> e > 0 && e - 1 in p {
      if e > 0 && e - 1 in p { assert e == (e - 1) + 1; }
    }
  }

  lemma MulXAdd(p: Poly, q: Poly)
    ensures MulX(Add(p, q)) == Add(MulX(p), MulX(q))
  {
    MulXMember(p); MulXMember(q); MulXMember(Add(p, q));
  }

  lemma {:induction false} MulXnAt(p: Poly, n: nat, e: nat)
    ensures e in MulXn(p, n) <==> e >= n && e - n in p
  {
    if n > 0 {
      MulXMember(MulXn(p, n - 1));
      if e > 0 { MulXnAt(p, n - 1, e - 1); }
    }
  }

  lemma MulXnMember(p: Poly, n: nat)
    ensures forall e: nat :: e in MulXn(p, n) <==> e >= n && e - n in p
  {
    forall e: nat ensures e in MulXn(p, n) <==> e >= n && e - n in p { MulXnAt(p, n, e); }
  }

  // ----- the remainder is unique

  function XorBits(a: seq<bool>, b: seq<bool>): (c: seq<bool>)
    requires |a| == |b|
    ensures |c| == |a| && forall i :: 0 <= i < |a| ==> c[i] == (a[i] != b[i])
  {
    seq(|a|, i requires 0 <= i < |a| => a[i] != b[i])
  }

  lemma {:induction false} MulXorBits(a: seq<bool>, b: seq<bool>, g: Poly)
    requires |a| == |b|
    ensures Mul(XorBits(a, b), g) == Add(Mul(a, g), Mul(b, g))
  {
    if a != [] {
      var n := |a| - 1;
      MulXorBits(a[..n], b[..n], g);
      assert XorBits(a, b)[..n] == XorBits(a[..n], b[..n]);
      MulXAdd(Mul(a[..n], g), Mul(b[..n], g));
    }
  }

  lemma {:induction false} MulLeadingZeros(z: seq<bool>, q: seq<bool>, g: Poly)
    requires forall i :: 0 <= i < |z| ==> !z[i]
    ensures Mul(z + q, g) == Mul(q, g)
    decreases |z| + |q|
  {
    if q != [] {
      var n := |q| - 1;
      assert (z + q)[..|z + q| - 1] == z + q[..n];
      MulLeadingZeros(z, q[..n], g);
    } else if z != [] {
      var n := |z| - 1;
      assert z + q == z;
      MulLeadingZeros(z[..n], [], g);
      assert z[..n] + [] == z[..n];
    }
  }

  /** A multiple of the generator is zero or has a term of degree at least 16. */
  lemma {:induction false} MultipleIsZeroOrLarge(q: seq<bool>)
    ensures Mul(q, GENERATOR) == {} || exists e :: e in Mul(q, GENERATOR) && e >= 16
  {
    if q != [] {
      var p := Mul(q[..|q| - 1], GENERATOR);
      MultipleIsZeroOrLarge(q[..|q| - 1]);
      MulXMember(p);
      if p != {} {
        var e :| e in p && e >= 16;
        assert e + 1 in Mul(q, GENERATOR);
      } else if q[|q| - 1] {
        assert 16 in Mul(q, GENERATOR);
      }
    }
  }

  lemma RemainderUnique(p: Poly, r: Poly, s: Poly)
    requires IsRemainder(p, r) && IsRemainder(p, s)
    ensures r == s
  {
    var a: seq<bool> :| p == Add(Mul(a, GENERATOR), r);
    var b: seq<bool> :| p == Add(Mul(b, GENERATOR), s);
    var za, zb := seq(|b|, _ => false) + a, seq(|a|, _ => false) + b;
    MulLeadingZeros(seq(|b|, _ => false), a, GENERATOR);
    MulLeadingZeros(seq(|a|, _ => false), b, GENERATOR);
    MulXorBits(za, zb, GENERATOR);
    MultipleIsZeroOrLarge(XorBits(za, zb));
    AddCancel(Mul(a, GENERATOR), r, Mul(b, GENERATOR), s);
  }

  lemma AddCancel(a: Poly, r: Poly, b: Poly, s: Poly)
    requires Add(a, r) == Add(b, s)
    ensures Add(a, b) == Add(r, s)
    ensures Add(r, s) == {} ==> r == s
    ensures Below(r, 16) && Below(s, 16) ==> Below(Add(r, s), 16)
  {
    forall e: nat ensures e in Add(a, b) <==> e in Add(r, s) {
      assert e in Add(a, r) <==> e in Add(b, s);
    }
    if Add(r, s) == {} {
      forall e: nat ensures e in r <==> e in s { assert e !in Add(r, s); }
    }
  }

  // ----- the shift register

  /** One register step: multiply by x and reduce by the generator. */
  function StepPoly(r: Poly): Poly {
    var m := MulX(r);
    if 16 in m then Add(m, GENERATOR) else m
  }

  function Steps(r: Poly, n: nat): Poly {
    if n == 0 then r else StepPoly(Steps(r, n - 1))
  }

  /** One message bit enters at the top of the register. */
  function Feed(r: Poly, b: bool): Poly { StepPoly(Add(r, Unless(!b, {15}))) }

  function FeedAll(r: Poly, w: seq<bool>): Poly {
    if w == [] then r else Feed(FeedAll(r, w[..|w| - 1]), w[|w| - 1])
  }

  lemma StepMember(r: Poly)
    requires Below(r, 16)
    ensures Below(StepPoly(r), 16)
    ensures forall e: nat :: e in StepPoly(r) <==>
      e < 16 && ((e > 0 && e - 1 in r) != (15 in r && (e == 0 || e == 5 || e == 12)))
  {
    MulXMember(r);
  }

  lemma StepAdd(a: Poly, b: Poly)
    requires Below(a, 16) && Below(b, 16)
    ensures StepPoly(Add(a, b)) == Add(StepPoly(a), StepPoly(b))
  {
    StepMember(a); StepMember(b); StepMember(Add(a, b));
  }

  /** The step is one-to-one on registers. */
  lemma StepInjective(a: Poly, b: Poly)
    requires Below(a, 16) && Below(b, 16) && StepPoly(a) == StepPoly(b)
    ensures a == b
  {
    StepMember(a); StepMember(b);
    assert 0 in StepPoly(a) <==> 15 in a;
    assert 0 in StepPoly(b) <==> 15 in b;
    forall e: nat ensures e in a <==> e in b {
      assert e + 1 in StepPoly(a) <==> e + 1 in StepPoly(b);
    }
  }

  lemma {:induction false} StepsBelow(r: Poly, n: nat)
    requires Below(r, 16)
    ensures Below(Steps(r, n), 16)
  {
    if n > 0 { StepsBelow(r, n - 1); StepMember(Steps(r, n - 1)); }
  }

  lemma {:induction false} StepsAdd(a: Poly, b: Poly, n: nat)
    requires Below(a, 16) && Below(b, 16)
    ensures Steps(Add(a, b), n) == Add(Steps(a, n), Steps(b, n))
  {
    if n > 0 {
      StepsAdd(a, b, n - 1);
      StepsBelow(a, n - 1); StepsBelow(b, n - 1);
      StepAdd(Steps(a, n - 1), Steps(b, n - 1));
    }
  }

  lemma {:induction false} StepsInjective(a: Poly, b: Poly, n: nat)
    requires Below(a, 16) && Below(b, 16) && Steps(a, n) == Steps(b, n)
    ensures a == b
  {
    if n > 0 {
      StepsBelow(a, n - 1); StepsBelow(b, n - 1);
      StepInjective(Steps(a, n - 1), Steps(b, n - 1));
      StepsInjective(a, b, n - 1);
    }
  }

  lemma {:induction false} StepsCompose(r: Poly, m: nat, n: nat)
    ensures Steps(r, m + n) == Steps(Steps(r, m), n)
  {
    if n > 0 { StepsCompose(r, m, n - 1); }
  }

  lemma {:induction false} StepsZero(n: nat)
    ensures Steps({}, n) == {}
  {
    if n > 0 { StepsZero(n - 1); }
  }

  /** Below degree 16 a step is a plain shift. */
  lemma {:induction false} StepsShift(e: nat, n: nat)
    requires e + n < 16
    ensures Steps({e}, n) == {e + n}
  {
    if n > 0 {
      StepsShift(e, n - 1);
      StepMember({e + n - 1});
    }
  }

  lemma {:induction false} FeedAllBelow(r: Poly, w: seq<bool>)
    requires Below(r, 16)
    ensures Below(FeedAll(r, w), 16)
  {
    if w != [] {
      FeedAllBelow(r, w[..|w| - 1]);
      StepMember(Add(FeedAll(r, w[..|w| - 1]), Unless(!w[|w| - 1], {15})));
    }
  }

  lemma {:induction false} FeedAllConcat(r: Poly, v: seq<bool>, w: seq<bool>)
    ensures FeedAll(r, v + w) == FeedAll(FeedAll(r, v), w)
  {
    if w == [] {
      assert v + w == v;
    } else {
      assert (v + w)[..|v + w| - 1] == v + w[..|w| - 1];
      FeedAllConcat(r, v, w[..|w| - 1]);
    }
  }

  /** Feeding is linear over GF(2). */
  lemma {:induction false} FeedAllAdd(r: Poly, s: Poly, v: seq<bool>, w: seq<bool>)
    requires Below(r, 16) && Below(s, 16) && |v| == |w|
    ensures FeedAll(Add(r, s), XorBits(v, w)) == Add(FeedAll(r, v), FeedAll(s, w))
  {
    if v != [] {
      var n := |v| - 1;
      var a, b := FeedAll(r, v[..n]), FeedAll(s, w[..n]);
      FeedAllAdd(r, s, v[..n], w[..n]);
      FeedAllBelow(r, v[..n]); FeedAllBelow(s, w[..n]);
      assert XorBits(v, w)[..n] == XorBits(v[..n], w[..n]);
      StepAdd(Add(a, Unless(!v[n], {15})), Add(b, Unless(!w[n], {15})));
      assert Add(Add(a, b), Unless(v[n] == w[n], {15}))
          == Add(Add(a, Unless(!v[n], {15})), Add(b, Unless(!w[n], {15})));
    }
  }

  lemma {:induction false} FeedZeros(r: Poly, w: seq<bool>)
    requires forall i :: 0 <= i < |w| ==> !w[i]
    ensures FeedAll(r, w) == Steps(r, |w|)
  {
    if w != [] {
      FeedZeros(r, w[..|w| - 1]);
      assert Add(FeedAll(r, w[..|w| - 1]), {}) == FeedAll(r, w[..|w| - 1]);
    }
  }

  /** Up to 16 bits placed at the top of the register, first bit highest. */
  function Load(w: seq<bool>): Poly
    requires |w| <= 16
  {
    set e: nat | e < 16 && Loaded(w, e)
  }

  predicate Loaded(w: seq<bool>, e: nat)
    requires e < 16
  {
    15 - e < |w| && w[15 - e]
  }

  lemma LoadGrows(w: seq<bool>)
    requires 0 < |w| <= 16
    ensures Load(w) == Add(Load(w[..|w| - 1]), Unless(!w[|w| - 1], {16 - |w|}))
  {
    var v, top := w[..|w| - 1], Unless(!w[|w| - 1], {16 - |w|});
    forall e: nat ensures e in Load(w) <==> e in Add(Load(v), top) {
      if e < 16 { assert Loaded(w, e) == if e == 16 - |w| then w[|w| - 1] else Loaded(v, e); }
    }
  }

  /** Feeding at most 16 bits equals adding them to the register at once and then
      stepping: the byte-wide exclusive-or of the C loop is the bit-serial division. */
  lemma {:induction false} FeedIsLoadAndSteps(r: Poly, w: seq<bool>)
    requires Below(r, 16) && |w| <= 16
    ensures FeedAll(r, w) == Steps(Add(r, Load(w)), |w|)
  {
    if w == [] {
      assert Load(w) == {};
    } else {
      var n := |w| - 1;
      var v := w[..n];
      var top: Poly := Unless(!w[n], {15 - n});
      FeedIsLoadAndSteps(r, v);
      LoadGrows(w);
      assert Add(r, Load(w)) == Add(Add(r, Load(v)), top);
      StepsAdd(Add(r, Load(v)), top, n);
      StepsShift(15 - n, n);
      StepsZero(n);
      assert Steps(top, n) == Unless(!w[n], {15});
    }
  }

  // ----- the register holds the remainder

  /** The polynomial whose coefficients are `w`, highest first. */
  function Message(w: seq<bool>): Poly {
    set e: nat | e < |w| && Coefficient(w, e)
  }

  predicate Coefficient(w: seq<bool>, e: nat)
    requires e < |w|
  {
    w[|w| - 1 - e]
  }

  /** seed * x^|w| + message * x^16. */
  function Dividend(seed: Poly, w: seq<bool>): Poly {
    Add(MulXn(seed, |w|), MulXn(Message(w), 16))
  }

  lemma DividendMember(seed: Poly, w: seq<bool>, e: nat)
    ensures e in Dividend(seed, w) <==>
      (e >= |w| && e - |w| in seed) != (e >= 16 && e - 16 < |w| && Coefficient(w, e - 16))
  {
    MulXnMember(seed, |w|);
    MulXnMember(Message(w), 16);
  }

  lemma DividendGrows(seed: Poly, w: seq<bool>)
    requires w != []
    ensures Dividend(seed, w) == Add(MulX(Dividend(seed, w[..|w| - 1])), Unless(!w[|w| - 1], {16}))
  {
    var v := w[..|w| - 1];
    MulXMember(Dividend(seed, v));
    forall e: nat
      ensures e in Dividend(seed, w) <==> e in Add(MulX(Dividend(seed, v)), Unless(!w[|w| - 1], {16}))
    {
      DividendMember(seed, w, e);
      if e > 0 { DividendMember(seed, v, e - 1); }
    }
  }

  /** One step of long division: the bit shifted out of the register is the next
      quotient coefficient. */
  lemma DivisionStep(q: seq<bool>, r: Poly, b: bool)
    ensures exists t ::
      Add(MulX(Add(Mul(q, GENERATOR), r)), Unless(!b, {16})) == Add(Mul(q + [t], GENERATOR), Feed(r, b))
  {
    var m := MulX(Add(r, Unless(!b, {15})));
    var t := 16 in m;
    MulXAdd(Mul(q, GENERATOR), r);
    MulXAdd(r, Unless(!b, {15}));
    assert MulX(Unless(!b, {15})) == Unless(!b, {16});
    assert (q + [t])[..|q|] == q;
    DivisionTerms(MulX(Mul(q, GENERATOR)), MulX(r), Unless(!b, {16}), Unless(!t, GENERATOR));
    assert Feed(r, b) == Add(m, Unless(!t, GENERATOR));
  }

  lemma DivisionTerms(q: Poly, r: Poly, b: Poly, g: Poly)
    ensures Add(Add(q, r), b) == Add(Add(q, g), Add(Add(r, b), g))
  {
  }

  lemma {:induction false} RegisterIsRemainder(seed: Poly, w: seq<bool>)
    requires Below(seed, 16)
    ensures IsRemainder(Dividend(seed, w), FeedAll(seed, w))
  {
    FeedAllBelow(seed, w);
    if w == [] {
      forall e: nat ensures e in Dividend(seed, w) <==> e in seed { DividendMember(seed, w, e); }
      assert Dividend(seed, w) == Add(Mul([], GENERATOR), seed);
    } else {
      var v, b := w[..|w| - 1], w[|w| - 1];
      RegisterIsRemainder(seed, v);
      var q: seq<bool> :| Dividend(seed, v) == Add(Mul(q, GENERATOR), FeedAll(seed, v));
      DividendGrows(seed, w);
      DivisionStep(q, FeedAll(seed, v), b);
    }
  }
}
