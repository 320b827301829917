/** Conversions between the n party values of a packed sharing, the k secrets it stores and the
    values at the points in between, each against one reference: the value at a point of the
    polynomial through the given values. */
module PackedPoly {
  import opened Bits
  import opened Algebra
  import opened Polynomials
  import opened Interpolation
  import opened NttCorrect
  import opened NttInverse
  import opened NttFixed
  import opened Transforms

  // The values at `to` of the polynomial with values `vals` at `from`.
  function Convert<E(!new)>(F: Field<E>, from: seq<E>, to: seq<E>, vals: seq<E>): (r: seq<E>)
    requires |from| == |vals|
    ensures |r| == |to|
  {
    seq(|to|, i requires 0 <= i < |to| => ValueAt(F, from, vals, to[i]))
  }

  function PartyPoints<E(!new)>(F: Field<E>, psi: E, logN: nat): (r: seq<E>)
    ensures |r| == Pow2(logN)
  {
    OddPowers(F, psi, 1, Pow2(logN))
  }

  function SecretPoints<E(!new)>(F: Field<E>, psi: E, logK: nat, logN: nat): (r: seq<E>)
    requires logK <= logN
    ensures |r| == Pow2(logK)
  {
    OddPowers(F, Pow(F, psi, Pow2(logN - logK)), 1, Pow2(logK))
  }

  // ---- the points are distinct ----

  lemma {:induction false} NegOnePow<E(!new)>(F: Field<E>, d: nat)
    requires F.Laws()
    ensures Pow(F, F.Neg(F.one), d) == if d % 2 == 0 then F.one else F.Neg(F.one)
  {
    if d != 0 {
      NegOnePow(F, d - 1);
      NegLaws(F, F.one, F.one);
      One(F, F.one);
      One(F, F.Neg(F.one));
    }
  }

  // An element whose 2^L-th power is -1 has order 2^(L+1).
  lemma {:induction false} NoEarlyUnit<E(!new)>(F: Field<E>, psi: E, L: nat, d: nat)
    requires F.Laws() && F.one != F.Neg(F.one) && Root(F, psi, L) && 0 < d < 2 * Pow2(L)
    ensures Pow(F, psi, d) != F.one
  {
    if d % 2 == 1 {
      PowPow(F, psi, d, Pow2(L));
      PowPow(F, psi, Pow2(L), d);
      assert d * Pow2(L) == Pow2(L) * d;
      NegOnePow(F, d);
      PowOne(F, Pow2(L));
    } else {
      var sq := Pow(F, psi, 2);
      PowPow(F, psi, 2, Pow2(L - 1));
      PowPow(F, psi, 2, d / 2);
      NoEarlyUnit(F, sq, L - 1, d / 2);
    }
  }

  lemma DistinctPowers<E(!new)>(F: Field<E>, psi: E, L: nat, a: nat, b: nat)
    requires F.Laws() && F.one != F.Neg(F.one) && Root(F, psi, L) && a < b < 2 * Pow2(L)
    ensures Pow(F, psi, a) != Pow(F, psi, b)
  {
    var p, d := Pow(F, psi, a), Pow(F, psi, b - a);
    PowAdd(F, psi, a, b - a);
    NoEarlyUnit(F, psi, L, b - a);
    if p == F.Mul(p, d) {
      RootNonzero(F, psi, L);
      PowNonzero(F, psi, a);
      assert At2(p, d) && At2(p, F.one);
      One(F, p);
      MulCancel(F, d, F.one, p);
    }
  }

  function SecretExp(logK: nat, logN: nat, i: nat): nat
    requires logK <= logN
  {
    Pow2(logN - logK) * (2 * i + 1)
  }

  lemma SecretExponents<E(!new)>(F: Field<E>, psi: E, logK: nat, logN: nat, i: nat)
    requires F.Laws() && logK <= logN && i < Pow2(logK)
    ensures SecretExp(logK, logN, i) < 2 * Pow2(logN)
    ensures SecretExp(logK, logN, i) == 2 * (i * Pow2(logN - logK)) + Pow2(logN - logK)
    ensures SecretPoints(F, psi, logK, logN)[i] == Pow(F, psi, SecretExp(logK, logN, i))
  {
    var q := Pow2(logN - logK);
    Pow2Add(logN - logK, logK);
    OddMultiple(q, Pow2(logK), i);
    PowPow(F, psi, q, 2 * i + 1);
    hide Pow2, Pow;
  }

  lemma SecretExpEven(logK: nat, logN: nat, i: nat)
    requires logK < logN
    ensures SecretExp(logK, logN, i) % 2 == 0
  {
    var h := Pow2(logN - logK - 1);
    assert (2 * h) * (2 * i + 1) == 2 * (h * (2 * i + 1));
  }

  lemma OddMultiple(q: nat, k: nat, i: nat)
    requires i < k && q >= 1
    ensures q * (2 * i + 1) < 2 * (q * k)
    ensures q * (2 * i + 1) == 2 * (i * q) + q
  {
    TimesOdd(q, i);
    MoreCopies(i, k, q);
    TimesSwap(k, q);
  }

  lemma TimesSwap(k: nat, q: nat)
    ensures k * q == q * k
  {
  }

  lemma TimesOdd(q: nat, i: nat)
    ensures q * (2 * i + 1) == 2 * (i * q) + q
  {
  }

  lemma SecretRoot<E(!new)>(F: Field<E>, psi: E, logK: nat, logN: nat)
    requires F.Laws() && Root(F, psi, logN) && logK <= logN
    ensures Root(F, Pow(F, psi, Pow2(logN - logK)), logK)
  {
    PowPow(F, psi, Pow2(logN - logK), Pow2(logK));
    Pow2Add(logN - logK, logK);
  }

  lemma OddPowersDistinct<E(!new)>(F: Field<E>, psi: E, L: nat)
    requires F.Laws() && F.one != F.Neg(F.one) && Root(F, psi, L)
    ensures Distinct(OddPowers(F, psi, 1, Pow2(L)))
  {
    var pts := OddPowers(F, psi, 1, Pow2(L));
    forall i, j | 0 <= i < j < |pts| ensures pts[i] != pts[j] {
      DistinctPowers(F, psi, L, 2 * i + 1, 2 * j + 1);
    }
  }

  /** The n party points, and the k secret points, are distinct; with k < n no secret point is a
      party point either. */
  lemma PointsDistinct<E(!new)>(F: Field<E>, psi: E, logK: nat, logN: nat)
    requires F.Laws() && F.one != F.Neg(F.one) && Root(F, psi, logN) && logK <= logN
    ensures Distinct(PartyPoints(F, psi, logN)) && Distinct(SecretPoints(F, psi, logK, logN))
    ensures logK < logN ==> Distinct(SecretPoints(F, psi, logK, logN) + PartyPoints(F, psi, logN))
  {
    var ps, ss := PartyPoints(F, psi, logN), SecretPoints(F, psi, logK, logN);
    OddPowersDistinct(F, psi, logN);
    SecretRoot(F, psi, logK, logN);
    OddPowersDistinct(F, Pow(F, psi, Pow2(logN - logK)), logK);
    if logK < logN {
      var all := ss + ps;
      forall i, j | 0 <= i < j < |all| ensures all[i] != all[j] {
        assert all[i] == if i < |ss| then ss[i] else ps[i - |ss|];
        assert all[j] == if j < |ss| then ss[j] else ps[j - |ss|];
        if i < |ss| <= j { SecretIsNoParty(F, psi, logK, logN, i, j - |ss|); }
      }
    }
  }

  lemma SecretIsNoParty<E(!new)>(F: Field<E>, psi: E, logK: nat, logN: nat, i: nat, j: nat)
    requires F.Laws() && F.one != F.Neg(F.one) && Root(F, psi, logN) && logK < logN
    requires i < Pow2(logK) && j < Pow2(logN)
    ensures SecretPoints(F, psi, logK, logN)[i] != PartyPoints(F, psi, logN)[j]
  {
    hide *;
    SecretExponents(F, psi, logK, logN, i);
    SecretExpEven(logK, logN, i);
    PartyExponents(F, psi, logN, j);
    EvenIsNotOdd(F, psi, logN, SecretExp(logK, logN, i), 2 * j + 1);
  }

  lemma PartyExponents<E(!new)>(F: Field<E>, psi: E, logN: nat, j: nat)
    requires j < Pow2(logN)
    ensures PartyPoints(F, psi, logN)[j] == Pow(F, psi, 2 * j + 1)
    ensures (2 * j + 1) % 2 == 1 && 2 * j + 1 < 2 * Pow2(logN)
  {
    hide Pow2;
  }

  lemma EvenIsNotOdd<E(!new)>(F: Field<E>, psi: E, L: nat, e: nat, f: nat)
    requires F.Laws() && F.one != F.Neg(F.one) && Root(F, psi, L)
    requires e % 2 == 0 && f % 2 == 1 && e < 2 * Pow2(L) && f < 2 * Pow2(L)
    ensures Pow(F, psi, e) != Pow(F, psi, f)
  {
    if e < f { DistinctPowers(F, psi, L, e, f); } else { DistinctPowers(F, psi, L, f, e); }
  }

  lemma TwoNonzero<E(!new)>(F: Field<E>, L: nat)
    requires F.Laws() && L >= 1 && FromNat(F, Pow2(L)) != F.zero
    ensures F.one != F.Neg(F.one)
  {
    DoubleNat(F, Pow2(L - 1));
    if F.one == F.Neg(F.one) {
      assert At1(F.one);
      Zero(F, FromNat(F, Pow2(L - 1)));
    }
  }

  // ---- conversions ----

  /** Packing k secrets and reading them back loses nothing, whichever points are used. */
  lemma RoundTrip<E(!new)>(F: Field<E>, secretPts: seq<E>, partyPts: seq<E>, secrets: seq<E>)
    requires F.Laws() && Distinct(secretPts) && Distinct(partyPts)
    requires |secrets| == |secretPts| <= |partyPts|
    ensures Convert(F, partyPts, secretPts, Convert(F, secretPts, partyPts, secrets)) == secrets
  {
    var c := Through(F, secretPts, secrets);
    ThroughPoints(F, secretPts, secrets);
    var shares := Convert(F, secretPts, partyPts, secrets);
    forall i | 0 <= i < |partyPts| ensures shares[i] == Evals(F, c, partyPts)[i] {
      EvalThrough(F, secretPts, secrets, partyPts[i]);
    }
    assert shares == Evals(F, c, partyPts);
    var back := Convert(F, partyPts, secretPts, shares);
    forall i | 0 <= i < |secretPts| ensures back[i] == Evals(F, c, secretPts)[i] {
      LagrangeExact(F, c, partyPts, secretPts[i]);
    }
  }

  // Party `index`'s additive share of each value at `to`.
  function OneShare<E(!new)>(F: Field<E>, from: seq<E>, to: seq<E>, index: nat, v: E): (r: seq<E>)
    requires index < |from|
    ensures |r| == |to|
  {
    seq(|to|, i requires 0 <= i < |to| => F.Mul(LagrangeCoeff(F, from, index, to[i]), v))
  }

  function AllShares<E(!new)>(F: Field<E>, from: seq<E>, to: seq<E>, vals: seq<E>): (r: seq<seq<E>>)
    requires |from| == |vals|
    ensures |r| == |from| && Rows(|to|, r)
  {
    seq(|from|, j requires 0 <= j < |from| => OneShare(F, from, to, j, vals[j]))
  }

  /** On arbitrary party values, the parties' local shares add up to the conversion. */
  lemma SharesAddUp<E(!new)>(F: Field<E>, from: seq<E>, to: seq<E>, vals: seq<E>)
    requires F.Laws() && |from| == |vals|
    ensures Total(F, |to|, AllShares(F, from, to, vals)) == Convert(F, from, to, vals)
  {
    var rows := AllShares(F, from, to, vals);
    forall i | 0 <= i < |to| ensures Total(F, |to|, rows)[i] == Convert(F, from, to, vals)[i] {
      TotalColumn(F, |to|, rows, i);
      var row := LagrangeRow(F, from, to[i]);
      DotIsSum(F, row, vals);
      assert Column(rows, i) == Hadamard(F, row, vals);
    }
  }

  // The exponent of the offset that the constructor's loop arrives at.
  function OffsetExp(logK: nat, logN: nat): nat
    requires logK <= logN
  {
    if Pow2(logN - logK) <= 2 then 1 else Pow2(logN - logK) - 1
  }

  // The points at which the offset trick evaluates: exponents e + 2 i n/k + 1.
  function ShiftedPoints<E(!new)>(F: Field<E>, psi: E, logK: nat, logN: nat): (r: seq<E>)
    requires logK <= logN
    ensures |r| == Pow2(logK)
  {
    var q, e := Pow2(logN - logK), OffsetExp(logK, logN);
    seq(Pow2(logK), i requires 0 <= i < Pow2(logK) => Pow(F, psi, e + (2 * (i * q) + 1)))
  }

  lemma ShiftedAreSecret<E(!new)>(F: Field<E>, psi: E, logK: nat, logN: nat)
    requires F.Laws() && logK < logN
    ensures ShiftedPoints(F, psi, logK, logN) == SecretPoints(F, psi, logK, logN)
  {
    var q := Pow2(logN - logK);
    assert q == 2 * Pow2(logN - logK - 1) >= 2;
    forall i | 0 <= i < Pow2(logK) ensures ShiftedPoints(F, psi, logK, logN)[i] == SecretPoints(F, psi, logK, logN)[i] {
      SecretExponents(F, psi, logK, logN, i);
    }
  }

  // Whether the offset conversion reads the secrets off every sharing.
  ghost predicate ReadsSecrets<E(!new)>(F: Field<E>, psi: E, logK: nat, logN: nat)
    requires logK <= logN
  {
    forall v: seq<E> :: |v| == Pow2(logN) ==>
      Convert(F, PartyPoints(F, psi, logN), ShiftedPoints(F, psi, logK, logN), v)
        == Convert(F, PartyPoints(F, psi, logN), SecretPoints(F, psi, logK, logN), v)
  }

  /** The conversion from party values to secrets is right exactly when k < n, or there is one
      party only: the constructor also admits k = n, and there it reads the next even powers. */
  lemma ReadsSecretsExactly<E(!new)>(F: Field<E>, psi: E, logK: nat, logN: nat)
    requires F.Laws() && F.one != F.Neg(F.one) && Root(F, psi, logN) && logK <= logN
    ensures ReadsSecrets(F, psi, logK, logN) <==> logK < logN || logN == 0
  {
    var ps, ss, hs := PartyPoints(F, psi, logN), SecretPoints(F, psi, logK, logN), ShiftedPoints(F, psi, logK, logN);
    PointsDistinct(F, psi, logK, logN);
    if logK < logN {
      ShiftedAreSecret(F, psi, logK, logN);
    } else if logN == 0 {
      forall v: seq<E> | |v| == 1 ensures Convert(F, ps, hs, v) == Convert(F, ps, ss, v) {
        OneParty(F, ps, v, hs[0]);
        OneParty(F, ps, v, ss[0]);
      }
    } else {
      Pow2Monotone(1, logN);
      FirstPointsDiffer(F, psi, logN);
      SharingOfX(F, ps, hs, ss);
    }
  }

  lemma FirstPointsDiffer<E(!new)>(F: Field<E>, psi: E, logN: nat)
    requires F.Laws() && F.one != F.Neg(F.one) && Root(F, psi, logN) && logN >= 1
    ensures |ShiftedPoints(F, psi, logN, logN)| >= 1
    ensures ShiftedPoints(F, psi, logN, logN)[0] != SecretPoints(F, psi, logN, logN)[0]
  {
    assert ShiftedPoints(F, psi, logN, logN)[0] == Pow(F, psi, 2) && Pow2(0) == 1;
    Pow2Monotone(1, logN);
    SecretExponents(F, psi, logN, logN, 0);
    DistinctPowers(F, psi, logN, 1, 2);
  }

  // The sharing of the polynomial X takes different values at different points.
  lemma SharingOfX<E(!new)>(F: Field<E>, ps: seq<E>, hs: seq<E>, ss: seq<E>)
    requires F.Laws() && Distinct(ps) && |ps| >= 2 && |hs| == |ss| >= 1 && hs[0] != ss[0]
    ensures exists v: seq<E> :: |v| == |ps| && Convert(F, ps, hs, v) != Convert(F, ps, ss, v)
  {
    var x := [F.zero, F.one];
    LagrangeExact(F, x, ps, hs[0]);
    LagrangeExact(F, x, ps, ss[0]);
    EvalX(F, hs[0]);
    EvalX(F, ss[0]);
    var v := Evals(F, x, ps);
    assert Convert(F, ps, hs, v)[0] != Convert(F, ps, ss, v)[0];
  }

  lemma EvalX<E(!new)>(F: Field<E>, x: E)
    requires F.Laws()
    ensures Eval(F, [F.zero, F.one], x) == x
  {
    assert [F.zero, F.one] == [F.zero] + [F.one];
    EvalCons(F, F.zero, [F.one], x);
    EvalConst(F, F.one, x);
    One(F, x);
    Zero(F, x);
  }

  lemma OneParty<E(!new)>(F: Field<E>, pts: seq<E>, v: seq<E>, x: E)
    requires F.Laws() && |pts| == |v| == 1
    ensures ValueAt(F, pts, v, x) == v[0]
  {
    assert Distinct(pts);
    var c := [v[0]];
    EvalConst(F, v[0], pts[0]);
    EvalConst(F, v[0], x);
    assert Evals(F, c, pts) == v;
    LagrangeExact(F, c, pts, x);
  }
}
