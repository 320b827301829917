/** Roots of unity modulo p as the conversion object derives them from the generator 3, and the
    sizes for which they are what the transforms need. */
module Fp59Roots {
  import opened Bits
  import opened Options
  import opened Algebra
  import opened Primes
  import opened Fp59Prime
  import opened Fp59
  import opened Fp59Inverse
  import opened Fp59Field
  import opened NttCorrect
  import opened PolyConversions
  import opened CheckPoints

  lemma {:induction false} PowIs(x: fp, n: nat)
    ensures Pow(F59(), x, n) == PowMod(x, n, P)
  {
    if n != 0 {
      PowIs(x, n - 1);
      Operations(x, Pow(F59(), x, n - 1));
    } else {
      Operations(0, 0);
    }
  }

  lemma {:induction false} FromNatIs(n: nat)
    ensures FromNat(F59(), n) == n % P
  {
    if n == 0 {
      Operations(0, 0);
      ModOf(0, P, 0, 0);
    } else {
      FromNatIs(n - 1);
      assert FromNat(F59(), n) == F59().Add(F59().one, FromNat(F59(), n - 1));
      OneMoreMod(n);
    }
  }

  lemma OneMoreMod(n: nat)
    requires n >= 1
    ensures F59().Add(F59().one, (n - 1) % P) == n % P
  {
    Operations(1, (n - 1) % P);
    SumMod(1, n - 1, P);
    ModOf(1, P, 0, 1);
  }

  // (p - 1) / 2^j
  function RootExp(j: nat): nat
    requires j <= 28
  {
    Pow2(28 - j) * Q
  }

  lemma RootExpIs(j: nat)
    requires j <= 28
    ensures Pow2(j) * RootExp(j) == P - 1 && 1 <= RootExp(j) < P && Pow2(j) < P
  {
    Pow2Add(j, 28 - j);
    CofactorOfP();
    Assoc(Pow2(j), Pow2(28 - j), Q);
    AtLeast(RootExp(j), Pow2(j), 1);
    Commute(RootExp(j), Pow2(j));
    Pow2Monotone(j, 28);
    assert Pow2(28) < P by { assert Pow2(28) * Q == P - 1; }
  }

  // The quotient computed in the field is the quotient of the integers.
  lemma FieldQuotient(d: fp, e: nat)
    requires d != 0 && d * e == P - 1 && e < P
    ensures MultMod(P - 1, Recip(d)) == e
  {
    InvOfCorrect(d);
    var i := InvOf(d);
    Commute(i, d);
    MulMod(i * d, e, P);
    assert (i * d) * e == (P - 1) * i by { Assoc(i, d, e); Commute(i, P - 1); }
    ModOf(e, P, 0, e);
  }

  // ---- the loop ----

  // Powers of the generator, the first entry left at 1: 1, g, g^2, g^4, ...
  method PowersOfGen() returns (t: seq<fp>)
    ensures |t| == 59 && IsGenTable(t)
  {
    hide Pow2, PowMod;
    t := [1, 3];
    GeneratorPower();
    var i := 2;
    while i < 59
      invariant 2 <= i <= 59 && |t| == i && IsGenTable(t)
    {
      NextGenPower(i);
      t := t + [MultMod(t[i - 1], t[i - 1])];
      i := i + 1;
    }
  }

  ghost predicate IsGenTable(t: seq<fp>) {
    |t| >= 1 && t[0] == 1 && forall i :: 1 <= i < |t| ==> t[i] == PowMod(3, Pow2(i - 1), P)
  }

  lemma GeneratorPower()
    ensures PowMod(3, Pow2(0), P) == 3
  {
    assert PowMod(3, 1, P) == (3 * PowMod(3, 0, P)) % P;
    ModOf(3, P, 0, 3);
  }

  lemma NextGenPower(i: nat)
    requires i >= 2
    ensures PowMod(3, Pow2(i - 1), P) == (PowMod(3, Pow2(i - 2), P) * PowMod(3, Pow2(i - 2), P)) % P
  {
    PowModAdd(3, Pow2(i - 2), Pow2(i - 2), P);
  }

  // The exponent (p - 1) / degree, as a quotient in the field.
  function Exponent(degree: fp): fp
    requires degree != 0
  {
    var minusOne: fp := P - 1;
    MultMod(minusOne, Recip(degree))
  }

  /** For the degrees 2^j that divide p - 1 the quotient in the field is that of the integers. */
  lemma ExponentIs(j: nat)
    requires j <= 28
    ensures 0 < Pow2(j) < P && Exponent(Pow2(j)) == RootExp(j)
  {
    RootExpIs(j);
    hide Pow2, RootExp, MultMod, Recip;
    FieldQuotient(Pow2(j), RootExp(j));
  }

  // 3 to the exponent e with its lowest bit cleared.
  function EvenPower(e: nat): nat {
    PowMod(3, 2 * (e / 2), P)
  }

  /** The code's root for any degree below p: 3 to the exponent with its lowest bit cleared. */
  method PrimitiveRoot(degree: fp) returns (root: Option<fp>)
    ensures root.None? <==> degree == 0
    ensures root.Some? ==> root.value == EvenPower(Exponent(degree))
  {
    hide *;
    if degree == 0 { return None; }
    var t := PowersOfGen();
    var e := Exponent(degree);
    var res := BitProduct(t, e);
    TwiceHalf(res, e);
    root := Some(MultMod(res, res));
  }

  lemma TwiceHalf(res: fp, e: nat)
    requires res == PowMod(3, e / 2, P)
    ensures MultMod(res, res) == EvenPower(e)
  {
    hide PowMod;
    PowModAdd(3, e / 2, e / 2, P);
  }

  // The product over the bits of e; bit 0 contributes the entry 1.
  method BitProduct(t: seq<fp>, e: fp) returns (res: fp)
    requires |t| == 59 && IsGenTable(t)
    ensures res == PowMod(3, e / 2, P)
  {
    hide *;
    res := 1;
    BitsStart(e, t);
    if e % 2 == 1 { res := MultMod(res, t[0]); }
    var y := e / 2;
    ghost var acc: nat := 0;
    var i := 1;
    while i < 59
      invariant 1 <= i <= 59 && 0 <= y && res == PowMod(3, acc, P) && BitsLeft(e / 2, acc, i, y)
    {
      BitStep(e / 2, acc, i, y);
      if y % 2 == 1 {
        PowModAdd(3, acc, Pow2(i - 1), P);
        GenEntry(t, i);
        res := MultMod(res, t[i]);
        acc := acc + Pow2(i - 1);
      }
      y := y / 2;
      i := i + 1;
    }
    BitsEnd(e / 2, acc, y);
  }

  // acc is what the bits below i - 1 of the halved exponent contribute, y the bits that remain.
  ghost predicate BitsLeft(half: nat, acc: nat, i: nat, y: nat)
    requires 1 <= i <= 59
  {
    half == acc + Pow2(i - 1) * y && y < Pow2(59 - i)
  }

  lemma GenEntry(t: seq<fp>, i: nat)
    requires IsGenTable(t) && 1 <= i < |t|
    ensures t[i] == PowMod(3, Pow2(i - 1), P)
  {
  }

  lemma BitsStart(e: fp, t: seq<fp>)
    requires IsGenTable(t)
    ensures BitsLeft(e / 2, 0, 1, e / 2) && PowMod(3, 0, P) == 1 && MultMod(1, t[0]) == 1
  {
    BigPower(e / 2);
    ModOf(1, P, 0, 1);
  }

  lemma BitsEnd(half: nat, acc: nat, y: nat)
    requires BitsLeft(half, acc, 59, y)
    ensures half == acc
  {
    assert Pow2(0) == 1 && Pow2(58) * 0 == 0;
  }

  lemma BitStep(half: nat, acc: nat, i: nat, y: nat)
    requires 1 <= i < 59 && BitsLeft(half, acc, i, y)
    ensures BitsLeft(half, acc + (if y % 2 == 1 then Pow2(i - 1) else 0), i + 1, y / 2)
  {
    var w := Pow2(i - 1);
    DivFacts(y, 2);
    Distribute(w, 2 * (y / 2), y % 2);
    Assoc(2, w, y / 2);
    Assoc(w, 2, y / 2);
    Commute(2, w);
    assert w * 0 == 0;
  }

  lemma BigPower(y: nat)
    requires y < 288230376017494017
    ensures y < Pow2(58)
  {
    CofactorOfP();
    assert Pow2(28) == 268435456;
    Pow2Add(28, 28);
    Pow2Add(56, 2);
    assert Pow2(2) == 4;
  }

  // ---- when it is a root ----

  lemma NegOneIs()
    ensures F59().Neg(F59().one) == P - 1
  {
    Operations(1, 1);
  }

  /** The root for degree 2^j has its 2^(j-1)-th power equal to -1 exactly for j up to 27: at 2^28
      the exponent is odd and its lowest bit is lost. */
  lemma RootExactly(j: nat)
    requires 1 <= j <= 28
    ensures Root(F59(), EvenPower(RootExp(j)), j - 1) <==> j <= 27
  {
    hide RootExp, PowMod, Pow, Field.Neg;
    var e := 2 * (RootExp(j) / 2);
    var psi := PowMod(3, e, P);
    PowIs(psi, Pow2(j - 1));
    PowModMul(3, e, Pow2(j - 1), P);
    NegOneIs();
    if j <= 27 { EvenExponent(j); } else { OddExponent(); }
  }

  lemma HalfExponent(j: nat)
    requires 1 <= j <= 27
    ensures 2 * (RootExp(j) / 2) == RootExp(j) && RootExp(j) * Pow2(j - 1) == 288230376017494016
             && P - 1 == 576460752034988032
  {
    hide Pow2, RootExp;
    RootExpIs(j);
    RootIsEven(j);
    Doubles(j - 1);
    Halve(Pow2(j - 1), RootExp(j), P - 1);
  }

  lemma RootIsEven(j: nat)
    requires j <= 27
    ensures 2 * (RootExp(j) / 2) == RootExp(j)
  {
    Doubles(27 - j);
    EvenTimes(Pow2(27 - j), Q);
  }

  lemma EvenTimes(a: nat, b: nat)
    ensures 2 * (((2 * a) * b) / 2) == (2 * a) * b
  {
    Assoc(2, a, b);
  }

  lemma Doubles(n: nat)
    ensures Pow2(n + 1) == 2 * Pow2(n)
  {
  }

  lemma Halve(a: nat, b: nat, n: nat)
    requires (2 * a) * b == n
    ensures b * a == n / 2
  {
    Assoc(2, a, b);
    Commute(a, b);
  }

  lemma EvenExponent(j: nat)
    requires 1 <= j <= 27
    ensures 2 * (RootExp(j) / 2) == RootExp(j)
    ensures PowMod(3, RootExp(j) * Pow2(j - 1), P) == P - 1
  {
    RootExpIs(j);
    HalfExponent(j);
    hide *;
    PowerHalf();
  }

  lemma OddExponent()
    ensures PowMod(3, 2 * (RootExp(28) / 2) * Pow2(27), P) != P - 1
  {
    assert RootExp(28) == Q && 2 * (RootExp(28) / 2) == Q - 1;
    var n := Pow2(27);
    assert 2 * n == Pow2(28);
    CofactorOfP();
    Assoc(2, n, Q);
    assert n * Q == (P - 1) / 2;
    Distribute(n, Q, 1);
    Commute(n, Q - 1);
    hide PowMod;
    PowerHalf();
    PowModAdd(3, (Q - 1) * n, n, P);
    ThreeGenerates();
    Primes.NoEarlyUnit(3, P, n);
    var h := PowMod(3, n, P);
    if PowMod(3, (Q - 1) * n, P) == P - 1 {
      // then -h = -1
      PowersNonzero(3, P, n);
      Distribute(h, P, 1);
      Commute(h, P);
      Commute(h, P - 1);
      ModOf((P - 1) * h, P, h - 1, P - h);
    }
  }

  /** The root for k points is the matching power of the root for n points. */
  lemma RootsMatch(j: nat, l: nat)
    requires 1 <= l <= j <= 27
    ensures Pow(F59(), PowMod(3, RootExp(j), P), Pow2(j - l)) == PowMod(3, RootExp(l), P)
  {
    ExponentsMatch(j, l);
    hide *;
    PowIs(PowMod(3, RootExp(j), P), Pow2(j - l));
    PowModMul(3, RootExp(j), Pow2(j - l), P);
  }

  lemma ExponentsMatch(j: nat, l: nat)
    requires 1 <= l <= j <= 27
    ensures RootExp(j) * Pow2(j - l) == RootExp(l)
  {
    Pow2Add(28 - j, j - l);
    Shuffle(Pow2(28 - j), Q, Pow2(j - l));
  }

  lemma Shuffle(a: nat, b: nat, c: nat)
    ensures (a * b) * c == (a * c) * b
  {
  }

  /** Up to 2^26 parties the code's roots meet every hypothesis of the transforms. */
  lemma RootsSuit(logN: nat)
    requires logN <= 26
    ensures Suits(F59(), PowMod(3, RootExp(logN + 1), P), logN)
  {
    F59Laws();
    RootExactly(logN + 1);
    EvenExponent(logN + 1);
    RootExpIs(logN);
    FromNatIs(Pow2(logN));
    ModOf(Pow2(logN), P, 0, Pow2(logN));
    Operations(0, 0);
  }

  /** The multiplication check's points, for its compression parameter 16 and any other power of
      two up to 2^26, are distinct. */
  lemma CheckPointsGood(logM: nat)
    requires 1 <= logM <= 26
    ensures CheckParams(F59(), PowMod(3, RootExp(logM + 1), P), logM).Good()
  {
    RootsSuit(logM);
    RootExpIs(logM + 1);
    forall d | 1 <= d <= 2 * Pow2(logM) ensures FromNat(F59(), d) != F59().zero {
      FromNatIs(d);
      ModOf(d, P, 0, d);
      Operations(0, 0);
    }
    ParamsGood(F59(), PowMod(3, RootExp(logM + 1), P), logM);
  }

  /** The points of the last round are the numbers 1, 2, ..., 2m + 1. */
  lemma LastPointsAre(m: nat, i: nat)
    requires i < 2 * m + 1 < P
    ensures LastPts(F59(), m)[i] == i + 1
  {
    FromNatIs(i + 1);
    ModOf(i + 1, P, 0, i + 1);
    hide FromNat, F59;
  }
}
