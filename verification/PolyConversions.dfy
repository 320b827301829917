/** The conversion object: each of its conversions, in place over arrays, yields the values at
    its target points of the polynomial through the values given. */
module PolyConversions {
  import opened Options
  import opened Bits
  import opened Algebra
  import opened Polynomials
  import opened Interpolation
  import opened NttCorrect
  import opened NttInverse
  import opened NttFixed
  import opened Transforms
  import opened PackedPoly

  // ---- loops ----

  // Bit-reversal permutation.
  method ReversedCopy<E(!new)>(inn: seq<E>, w: nat) returns (a: array<E>)
    requires |inn| == Pow2(w)
    ensures fresh(a) && a[..] == Reversed(inn, w)
  {
    a := new E[|inn|](i requires 0 <= i < |inn| => inn[i]);
    var i := 0;
    while i < |inn|
      invariant 0 <= i <= |inn|
      invariant forall k :: 0 <= k < |inn| ==> a[k] == if k < i then inn[RevBits(k, w)] else inn[k]
    {
      var j := ReverseBits(i, w);
      if i != j { a[i] := inn[j]; }
      i := i + 1;
    }
  }

  ghost predicate PowersOf<E(!new)>(F: Field<E>, first: E, ratio: E, s: seq<E>) {
    forall i :: 0 <= i < |s| ==> s[i] == F.Mul(first, Pow(F, ratio, i))
  }

  method Geometric<E(!new)>(F: Field<E>, first: E, ratio: E, n: nat) returns (pts: seq<E>)
    requires F.Laws()
    ensures |pts| == n && PowersOf(F, first, ratio, pts)
  {
    pts := [];
    var p := first;
    One(F, first);
    for i := 0 to n
      invariant |pts| == i && PowersOf(F, first, ratio, pts) && p == F.Mul(first, Pow(F, ratio, i))
    {
      pts := pts + [p];
      p := F.Mul(p, ratio);
      assert At3(first, Pow(F, ratio, i), ratio) && At2(Pow(F, ratio, i), ratio);
    }
  }

  ghost predicate IsPowers<E(!new)>(F: Field<E>, offset: E, table: seq<E>) {
    forall i :: 0 <= i < |table| ==> table[i] == Pow(F, offset, i)
  }

  // Multiplies entry i by the i-th power of the offset.
  method StretchLoop<E(!new)>(F: Field<E>, a: array<E>, table: seq<E>, ghost offset: E)
    requires |table| == a.Length && IsPowers(F, offset, table)
    modifies a
    ensures a[..] == Stretch(F, old(a[..]), offset)
  {
    var i := 0;
    while i < a.Length
      invariant 0 <= i <= a.Length
      invariant forall k :: 0 <= k < a.Length ==>
                 a[k] == if k < i then F.Mul(old(a[k]), Pow(F, offset, k)) else old(a[k])
    {
      a[i] := F.Mul(a[i], table[i]);
      i := i + 1;
    }
  }

  // The entry at each of the positions 0, step, 2 step, ... of the bit-reversed vector.
  method Pick<E(!new)>(v: seq<E>, w: nat, step: nat, count: nat) returns (out: seq<E>)
    requires |v| == Pow2(w)
    ensures |out| == count && Picked(v, w, step, out)
  {
    out := [];
    var ptr := 0;
    for i := 0 to count
      invariant |out| == i && ptr == i * step
      invariant forall k :: 0 <= k < i ==> out[k] == v[RevBits(k * step, w)]
    {
      var j := ReverseBits(ptr, w);
      out := out + [v[j]];
      ptr := ptr + step;
    }
  }

  // ---- what the loops leave ----

  lemma NaturalOrder<E(!new)>(F: Field<E>, psi: E, L: nat, c: seq<E>, inn: seq<E>)
    requires |inn| == Pow2(L) && Evals(F, c, Points(F, psi, L)) == Reversed(inn, L)
    ensures Evals(F, c, OddPowers(F, psi, 1, Pow2(L))) == inn
  {
    hide Pow2, RevBits, Pow, Eval, Points;
    forall i | 0 <= i < |inn| ensures Eval(F, c, Pow(F, psi, 2 * i + 1)) == inn[i] {
      var j := RevBits(i, L);
      RevTwice(i, L);
      PointAt(F, psi, L, i);
      assert Evals(F, c, Points(F, psi, L))[j] == Reversed(inn, L)[j];
    }
  }

  lemma PointAt<E(!new)>(F: Field<E>, psi: E, L: nat, i: nat)
    requires i < Pow2(L)
    ensures Points(F, psi, L)[RevBits(i, L)] == Pow(F, psi, 2 * i + 1)
  {
    RevTwice(i, L);
  }

  lemma StretchedPoint<E(!new)>(F: Field<E>, psi: E, L: nat, c: seq<E>, e: nat, v: seq<E>, i: nat)
    requires F.Laws() && v == Evals(F, Stretch(F, c, Pow(F, psi, e)), Points(F, psi, L)) && i < Pow2(L)
    ensures |v| == Pow2(L) && v[RevBits(i, L)] == Eval(F, c, Pow(F, psi, e + (2 * i + 1)))
  {
    hide Pow2, RevBits, Pow, Stretch, Eval, Points;
    PointAt(F, psi, L, i);
    var off := Pow(F, psi, e);
    EvalStretch(F, c, off, Pow(F, psi, 2 * i + 1));
    PowAdd(F, psi, e, 2 * i + 1);
  }

  lemma OddOfGeometric<E(!new)>(F: Field<E>, psi: E, s: seq<E>)
    requires F.Laws() && PowersOf(F, psi, F.Mul(psi, psi), s)
    ensures s == OddPowers(F, psi, 1, |s|)
  {
    forall i | 0 <= i < |s| ensures s[i] == Pow(F, psi, 1 * (2 * i + 1)) {
      assert Pow(F, psi, 2) == F.Mul(psi, Pow(F, psi, 1)) && Pow(F, psi, 1) == F.Mul(psi, Pow(F, psi, 0));
      One(F, psi);
      PowPow(F, psi, 2, i);
    }
  }

  lemma SmallerDimension<E(!new)>(F: Field<E>, l: nat, L: nat)
    requires F.Laws() && l <= L && FromNat(F, Pow2(L)) != F.zero
    ensures FromNat(F, Pow2(l)) != F.zero
    decreases L
  {
    if l < L {
      DoubleNat(F, Pow2(L - 1));
      Zero(F, Two(F));
      SmallerDimension(F, l, L - 1);
    }
  }

  lemma PartiesDistinct<E(!new)>(F: Field<E>, psi: E, logN: nat)
    requires Suits(F, psi, logN)
    ensures Distinct(PartyPoints(F, psi, logN))
  {
    if logN > 0 {
      TwoNonzero(F, logN);
      OddPowersDistinct(F, psi, logN);
    }
  }

  method OffsetLoop<E(!new)>(F: Field<E>, psi: E, q: nat) returns (offset: E)
    requires F.Laws()
    ensures offset == Pow(F, psi, if q <= 2 then 1 else q - 1)
  {
    offset := psi;
    One(F, psi);
    assert Pow(F, psi, 1) == F.Mul(psi, Pow(F, psi, 0));
    var i := 0;
    while i + 2 < q
      invariant 0 <= i && (i == 0 || i + 2 <= q) && offset == Pow(F, psi, i + 1)
    {
      assert At2(offset, psi);
      offset := F.Mul(offset, psi);
      i := i + 1;
    }
  }

  // The hypotheses under which the 2^logN party points are distinct and the transforms work.
  ghost predicate Suits<E(!new)>(F: Field<E>, psi: E, logN: nat) {
    F.Laws() && Root(F, psi, logN) && FromNat(F, Pow2(logN)) != F.zero
  }

  // c interpolates inn, and v holds the values of c at psi^e times each transform point.
  ghost predicate Stretched<E(!new)>(F: Field<E>, psi: E, logN: nat, inn: seq<E>, c: seq<E>, e: nat, v: seq<E>) {
    && |inn| == |c| == |v| == Pow2(logN)
    && Evals(F, c, Points(F, psi, logN)) == Reversed(inn, logN)
    && v == Evals(F, Stretch(F, c, Pow(F, psi, e)), Points(F, psi, logN))
  }

  lemma ReadOff<E(!new)>(F: Field<E>, psi: E, logN: nat, inn: seq<E>, c: seq<E>, e: nat, v: seq<E>, i: nat)
    requires Suits(F, psi, logN) && Stretched(F, psi, logN, inn, c, e, v) && i < Pow2(logN)
    ensures |v| == |inn| == Pow2(logN)
    ensures v[RevBits(i, logN)] == ValueAt(F, PartyPoints(F, psi, logN), inn, Pow(F, psi, e + (2 * i + 1)))
  {
    NaturalOrder(F, psi, logN, c, inn);
    PartiesDistinct(F, psi, logN);
    StretchedPoint(F, psi, logN, c, e, v, i);
    LagrangeExact(F, c, PartyPoints(F, psi, logN), Pow(F, psi, e + (2 * i + 1)));
  }

  // The party points shifted to the even powers.
  function NextPoints<E(!new)>(F: Field<E>, psi: E, logN: nat): (r: seq<E>)
    ensures |r| == Pow2(logN)
  {
    seq(Pow2(logN), i requires 0 <= i < Pow2(logN) => Pow(F, psi, 1 + (2 * i + 1)))
  }

  // out lists the values in v at natural positions 0, step, 2 step, ...
  ghost predicate Picked<E(!new)>(v: seq<E>, w: nat, step: nat, out: seq<E>) {
    |v| == Pow2(w) && forall i :: 0 <= i < |out| ==> out[i] == v[RevBits(i * step, w)]
  }

  lemma PickedAt<E(!new)>(v: seq<E>, w: nat, step: nat, out: seq<E>, i: nat)
    requires Picked(v, w, step, out) && i < |out|
    ensures |v| == Pow2(w) && out[i] == v[RevBits(i * step, w)] && i * 1 == i
  {
  }

  lemma ShiftedPointAt<E(!new)>(F: Field<E>, psi: E, logK: nat, logN: nat, i: nat)
    requires logK <= logN && i < Pow2(logK)
    ensures i * Pow2(logN - logK) < Pow2(logN)
    ensures ShiftedPoints(F, psi, logK, logN)[i]
         == Pow(F, psi, OffsetExp(logK, logN) + (2 * (i * Pow2(logN - logK)) + 1))
  {
    hide Pow, OffsetExp;
    Pow2Add(logN - logK, logK);
    MoreCopies(i, Pow2(logK), Pow2(logN - logK));
    TimesSwap(Pow2(logK), Pow2(logN - logK));
  }

  lemma NextPointAt<E(!new)>(F: Field<E>, psi: E, logN: nat, i: nat)
    requires i < Pow2(logN)
    ensures NextPoints(F, psi, logN)[i] == Pow(F, psi, 1 + (2 * i + 1))
  {
  }

  lemma ReadShiftedAt<E(!new)>(F: Field<E>, psi: E, logK: nat, logN: nat, inn: seq<E>, c: seq<E>, v: seq<E>,
                               out: seq<E>, i: nat)
    requires logK <= logN && Suits(F, psi, logN) && Stretched(F, psi, logN, inn, c, OffsetExp(logK, logN), v)
    requires Picked(v, logN, Pow2(logN - logK), out) && i < |out| == Pow2(logK)
    ensures |inn| == Pow2(logN)
    ensures out[i] == ValueAt(F, PartyPoints(F, psi, logN), inn, ShiftedPoints(F, psi, logK, logN)[i])
  {
    hide *;
    PickedAt(v, logN, Pow2(logN - logK), out, i);
    ShiftedPointAt(F, psi, logK, logN, i);
    ReadOff(F, psi, logN, inn, c, OffsetExp(logK, logN), v, i * Pow2(logN - logK));
  }

  lemma ReadShifted<E(!new)>(F: Field<E>, psi: E, logK: nat, logN: nat, inn: seq<E>, c: seq<E>, v: seq<E>, out: seq<E>)
    requires logK <= logN && Suits(F, psi, logN) && Stretched(F, psi, logN, inn, c, OffsetExp(logK, logN), v)
    requires Picked(v, logN, Pow2(logN - logK), out) && |out| == Pow2(logK)
    ensures |inn| == Pow2(logN) && out == Convert(F, PartyPoints(F, psi, logN), ShiftedPoints(F, psi, logK, logN), inn)
    ensures logK < logN ==> ShiftedPoints(F, psi, logK, logN) == SecretPoints(F, psi, logK, logN)
  {
    hide Suits, Stretched, Picked, OffsetExp, PartyPoints, ShiftedPoints, ValueAt, Pow2;
    forall i | 0 <= i < |out|
      ensures |inn| == Pow2(logN)
      ensures out[i] == ValueAt(F, PartyPoints(F, psi, logN), inn, ShiftedPoints(F, psi, logK, logN)[i])
    {
      ReadShiftedAt(F, psi, logK, logN, inn, c, v, out, i);
    }
    SuitsLaws(F, psi, logN);
    if logK < logN { ShiftedAreSecret(F, psi, logK, logN); }
    assert |inn| == Pow2(logN) by { ReadShiftedAt(F, psi, logK, logN, inn, c, v, out, 0); }
  }

  lemma ReadNextAt<E(!new)>(F: Field<E>, psi: E, logN: nat, inn: seq<E>, c: seq<E>, v: seq<E>, out: seq<E>, i: nat)
    requires Suits(F, psi, logN) && Stretched(F, psi, logN, inn, c, 1, v)
    requires Picked(v, logN, 1, out) && i < |out| == Pow2(logN)
    ensures |inn| == Pow2(logN)
    ensures out[i] == ValueAt(F, PartyPoints(F, psi, logN), inn, NextPoints(F, psi, logN)[i])
  {
    hide *;
    PickedAt(v, logN, 1, out, i);
    NextPointAt(F, psi, logN, i);
    ReadOff(F, psi, logN, inn, c, 1, v, i);
  }

  lemma ReadNext<E(!new)>(F: Field<E>, psi: E, logN: nat, inn: seq<E>, c: seq<E>, v: seq<E>, out: seq<E>)
    requires Suits(F, psi, logN) && Stretched(F, psi, logN, inn, c, 1, v)
    requires Picked(v, logN, 1, out) && |out| == Pow2(logN)
    ensures |inn| == Pow2(logN) && out == Convert(F, PartyPoints(F, psi, logN), NextPoints(F, psi, logN), inn)
  {
    hide Suits, Stretched, Picked, PartyPoints, NextPoints, ValueAt, Pow2;
    forall i | 0 <= i < |out|
      ensures |inn| == Pow2(logN)
      ensures out[i] == ValueAt(F, PartyPoints(F, psi, logN), inn, NextPoints(F, psi, logN)[i])
    {
      ReadNextAt(F, psi, logN, inn, c, v, out, i);
    }
    assert |inn| == Pow2(logN) by { ReadNextAt(F, psi, logN, inn, c, v, out, 0); }
  }

  lemma PackedShares<E(!new)>(F: Field<E>, psi: E, logK: nat, logN: nat, inn: seq<E>, c: seq<E>)
    requires logK <= logN && Suits(F, psi, logN)
    requires |inn| == |c| == Pow2(logK)
    requires Evals(F, c, Points(F, Pow(F, psi, Pow2(logN - logK)), logK)) == Reversed(inn, logK)
    ensures Evals(F, c, OddPowers(F, psi, 1, Pow2(logN)))
         == Convert(F, SecretPoints(F, psi, logK, logN), PartyPoints(F, psi, logN), inn)
  {
    var psiK, ps, ss := Pow(F, psi, Pow2(logN - logK)), PartyPoints(F, psi, logN), SecretPoints(F, psi, logK, logN);
    NaturalOrder(F, psiK, logK, c, inn);
    SecretRoot(F, psi, logK, logN);
    SmallerDimension(F, logK, logN);
    PartiesDistinct(F, psiK, logK);
    forall i | 0 <= i < |ps| ensures Evals(F, c, ps)[i] == Convert(F, ss, ps, inn)[i] {
      LagrangeExact(F, c, ss, ps[i]);
    }
  }

  // Interpolates natural-order values: their polynomial's coefficients.
  method Coefficients<E(!new)>(T: Transform<E>, inn: seq<E>) returns (a: array<E>)
    requires T.Valid() && |inn| == Pow2(T.L)
    ensures fresh(a) && a.Length == |inn| && Evals(T.F, a[..], Points(T.F, T.psi, T.L)) == Reversed(inn, T.L)
  {
    a := ReversedCopy(inn, T.L);
    var ok := T.BackwardInplace(a);
  }

  method ValuesOf<E(!new)>(T: Transform<E>, a: array<E>) returns (v: seq<E>)
    requires T.Valid() && a.Length == Pow2(T.L)
    modifies a
    ensures |v| == a.Length && v == Evals(T.F, old(a[..]), Points(T.F, T.psi, T.L))
  {
    var ok := T.ForwardInplace(a);
    v := a[..];
  }

  lemma IsStretched<E(!new)>(F: Field<E>, psi: E, logN: nat, inn: seq<E>, c: seq<E>, e: nat, v: seq<E>)
    requires |inn| == |c| == |v| == Pow2(logN) && Evals(F, c, Points(F, psi, logN)) == Reversed(inn, logN)
    requires v == Evals(F, Stretch(F, c, Pow(F, psi, e)), Points(F, psi, logN))
    ensures Stretched(F, psi, logN, inn, c, e, v)
  {
  }

  lemma SuitsLaws<E(!new)>(F: Field<E>, psi: E, logN: nat)
    requires Suits(F, psi, logN)
    ensures F.Laws()
  {
  }

  ghost predicate Shifted<E(!new)>(F: Field<E>, psi: E, table: seq<E>) {
    forall i :: 0 <= i < |table| ==> table[i] == Pow(F, psi, i + 1)
  }

  method StretchEven<E(!new)>(F: Field<E>, psi: E, a: array<E>, table: seq<E>)
    requires F.Laws() && Shifted(F, psi, table) && 1 <= a.Length <= |table|
    modifies a
    ensures a[..] == Stretch(F, old(a[..]), Pow(F, psi, 1))
  {
    One(F, a[0]);
    var i := 1;
    while i < a.Length
      invariant 1 <= i <= a.Length
      invariant forall k :: 0 <= k < a.Length ==> a[k] == if k < i then F.Mul(old(a[k]), Pow(F, psi, k)) else old(a[k])
    {
      a[i] := F.Mul(a[i], table[i - 1]);
      i := i + 1;
    }
    assert Pow(F, psi, 1) == psi by { One(F, psi); assert Pow(F, psi, 1) == F.Mul(psi, Pow(F, psi, 0)); }
  }

  // ---- the conversions ----

  ghost predicate Ready<E(!new)>(T: Transform<E>) reads T {
    T.Valid() && Suits(T.F, T.psi, T.L)
  }

  lemma ReadyParts<E(!new)>(T: Transform<E>)
    requires Ready(T)
    ensures T.Valid() && Suits(T.F, T.psi, T.L) && T.F.Laws()
  {
  }

  lemma SecretsSuit<E(!new)>(F: Field<E>, psi: E, logK: nat, logN: nat)
    requires logK <= logN && Suits(F, psi, logN)
    ensures F.Laws() && Suits(F, Pow(F, psi, Pow2(logN - logK)), logK)
  {
    SecretRoot(F, psi, logK, logN);
    SmallerDimension(F, logK, logN);
  }

  method NewTransform<E(!new)>(F: Field<E>, L: nat, psi: E) returns (T: Transform<E>)
    requires Suits(F, psi, L)
    ensures fresh(T) && Ready(T) && T.F == F && T.L == L && T.psi == psi
  {
    T := new Transform<E>(F, L, psi);
  }

  method N2K<E(!new)>(T: Transform<E>, logK: nat, offsets: seq<E>, inn: seq<E>) returns (out: seq<E>)
    requires Ready(T) && logK <= T.L && |inn| == |offsets| == Pow2(T.L)
    requires IsPowers(T.F, Pow(T.F, T.psi, OffsetExp(logK, T.L)), offsets)
    ensures out == Convert(T.F, PartyPoints(T.F, T.psi, T.L), ShiftedPoints(T.F, T.psi, logK, T.L), inn)
    ensures logK < T.L ==> out == Convert(T.F, PartyPoints(T.F, T.psi, T.L), SecretPoints(T.F, T.psi, logK, T.L), inn)
  {
    hide *;
    ReadyParts(T);
    var a := Coefficients(T, inn);
    ghost var c := a[..];
    StretchLoop(T.F, a, offsets, Pow(T.F, T.psi, OffsetExp(logK, T.L)));
    var v := ValuesOf(T, a);
    IsStretched(T.F, T.psi, T.L, inn, c, OffsetExp(logK, T.L), v);
    out := Pick(v, T.L, Pow2(T.L - logK), Pow2(logK));
    ReadShifted(T.F, T.psi, logK, T.L, inn, c, v, out);
  }

  method N2N<E(!new)>(T: Transform<E>, pts2N: seq<E>, inn: seq<E>) returns (out: seq<E>)
    requires Ready(T) && |inn| == Pow2(T.L) <= |pts2N| && Shifted(T.F, T.psi, pts2N)
    ensures out == Convert(T.F, PartyPoints(T.F, T.psi, T.L), NextPoints(T.F, T.psi, T.L), inn)
  {
    hide *;
    ReadyParts(T);
    var a := Coefficients(T, inn);
    ghost var c := a[..];
    StretchEven(T.F, T.psi, a, pts2N);
    var v := ValuesOf(T, a);
    IsStretched(T.F, T.psi, T.L, inn, c, 1, v);
    out := Pick(v, T.L, 1, Pow2(T.L));
    ReadNext(T.F, T.psi, T.L, inn, c, v, out);
  }

  method K2N<E(!new)>(T: Transform<E>, TK: Transform<E>, inn: seq<E>) returns (out: seq<E>)
    requires Ready(T) && Ready(TK) && TK.F == T.F && TK.L <= T.L && |inn| == Pow2(TK.L)
    requires TK.psi == Pow(T.F, T.psi, Pow2(T.L - TK.L))
    ensures out == Convert(T.F, SecretPoints(T.F, T.psi, TK.L, T.L), PartyPoints(T.F, T.psi, T.L), inn)
  {
    hide *;
    ReadyParts(T);
    ReadyParts(TK);
    var a := Coefficients(TK, inn);
    var c := a[..];
    var b := ReversedCopy(c, TK.L);
    var r := T.ForwardFixDegree(b[..], TK.L);
    ReversedTwice(c, TK.L);
    PackedShares(T.F, T.psi, TK.L, T.L, inn, c);
    out := r[..];
  }

  ghost predicate PointTables<E(!new)>(
      F: Field<E>, psi: E, logK: nat, logN: nat, ptsN: seq<E>, ptsK: seq<E>, pts2N: seq<E>, offsets: seq<E>)
    requires logK <= logN
  {
    && ptsN == PartyPoints(F, psi, logN) && ptsK == SecretPoints(F, psi, logK, logN)
    && |pts2N| == 2 * Pow2(logN) && Shifted(F, psi, pts2N)
    && |offsets| == Pow2(logN) && IsPowers(F, Pow(F, psi, OffsetExp(logK, logN)), offsets)
  }

  method FillPoints<E(!new)>(F: Field<E>, psi: E, psiK: E, logK: nat, logN: nat)
    returns (ptsN: seq<E>, ptsK: seq<E>, pts2N: seq<E>, offsets: seq<E>)
    requires logK <= logN && F.Laws() && psiK == Pow(F, psi, Pow2(logN - logK))
    ensures PointTables(F, psi, logK, logN, ptsN, ptsK, pts2N, offsets)
  {
    hide Pow2, Pow;
    ptsK := Geometric(F, psiK, F.Mul(psiK, psiK), Pow2(logK));
    OddOfGeometric(F, psiK, ptsK);
    ptsN := Geometric(F, psi, F.Mul(psi, psi), Pow2(logN));
    OddOfGeometric(F, psi, ptsN);
    pts2N := Geometric(F, psi, psi, 2 * Pow2(logN));
    NextPower(F, psi, pts2N);
    var offset := OffsetLoop(F, psi, Pow2(logN - logK));
    offsets := Geometric(F, F.one, offset, Pow2(logN));
    FromOne(F, offset, offsets);
  }

  lemma NextPower<E(!new)>(F: Field<E>, psi: E, s: seq<E>)
    requires PowersOf(F, psi, psi, s)
    ensures Shifted(F, psi, s)
  {
  }

  lemma FromOne<E(!new)>(F: Field<E>, offset: E, s: seq<E>)
    requires F.Laws() && PowersOf(F, F.one, offset, s)
    ensures IsPowers(F, offset, s)
  {
    forall i | 0 <= i < |s| ensures s[i] == Pow(F, offset, i) { One(F, Pow(F, offset, i)); }
  }

  class Poly<E(!new)> {
    const F: Field<E>
    const logK: nat
    const logN: nat
    const psi: E
    const nttN: Transform<E>
    const nttK: Transform<E>
    var evalPointsN: seq<E>
    var evalPointsK: seq<E>
    var evalPoints2N: seq<E>
    var fpGenPowers: seq<E>

    ghost predicate Valid() reads this, nttN, nttK {
      && logK <= logN
      && Ready(nttN) && nttN.F == F && nttN.L == logN && nttN.psi == psi
      && Ready(nttK) && nttK.F == F && nttK.L == logK && nttK.psi == Pow(F, psi, Pow2(logN - logK))
      && PointTables(F, psi, logK, logN, evalPointsN, evalPointsK, evalPoints2N, fpGenPowers)
    }

    constructor (F: Field<E>, logK: nat, logN: nat, psi: E, psiK: E)
      requires logK <= logN && Suits(F, psi, logN)
      requires psiK == Pow(F, psi, Pow2(logN - logK))
      ensures Valid() && this.F == F && this.logK == logK && this.logN == logN && this.psi == psi
    {
      hide Suits, Ready, PointTables, Pow, Pow2;
      SecretsSuit(F, psi, logK, logN);
      var tN := NewTransform(F, logN, psi);
      var tK := NewTransform(F, logK, psiK);
      var ptsN, ptsK, pts2N, offsets := FillPoints(F, psi, psiK, logK, logN);
      this.F, this.logK, this.logN, this.psi := F, logK, logN, psi;
      nttN, nttK, evalPointsN, evalPointsK, evalPoints2N, fpGenPowers := tN, tK, ptsN, ptsK, pts2N, offsets;
    }

    /** Party values to the values at the shifted points: the secrets, whenever k < n. */
    method NttEvalN2K(inn: seq<E>) returns (out: Option<seq<E>>)
      requires Valid()
      ensures out.None? <==> |inn| != Pow2(logN)
      ensures out.Some? ==> out.value == Convert(F, PartyPoints(F, psi, logN), ShiftedPoints(F, psi, logK, logN), inn)
      ensures out.Some? && logK < logN ==>
        out.value == Convert(F, PartyPoints(F, psi, logN), SecretPoints(F, psi, logK, logN), inn)
    {
      if |inn| != Pow2(logN) { return None; }
      var r := N2K(nttN, logK, fpGenPowers, inn);
      out := Some(r);
    }

    /** Party values to the values at the even powers of psi. */
    method NttEvalN2N(inn: seq<E>) returns (out: Option<seq<E>>)
      requires Valid()
      ensures out.None? <==> |inn| != Pow2(logN)
      ensures out.Some? ==> out.value == Convert(F, PartyPoints(F, psi, logN), NextPoints(F, psi, logN), inn)
    {
      if |inn| != Pow2(logN) { return None; }
      var r := N2N(nttN, evalPoints2N, inn);
      out := Some(r);
    }

    /** Secrets to the n party shares of their packing of degree k - 1. */
    method NttEvalK2N(inn: seq<E>) returns (out: Option<seq<E>>)
      requires Valid()
      ensures out.None? <==> |inn| != Pow2(logK)
      ensures out.Some? ==> out.value == Convert(F, SecretPoints(F, psi, logK, logN), PartyPoints(F, psi, logN), inn)
    {
      if |inn| != Pow2(logK) { return None; }
      var r := K2N(nttN, nttK, inn);
      out := Some(r);
    }
  }
}
