/** The evaluation points of the multiplication check: m odd powers of a 2m-th root of unity and the
    m - 1 powers between them for the folds, and 1, 2, ..., 2m + 1 for the last round. */
module CheckPoints {
  import opened Bits
  import opened Algebra
  import opened Interpolation
  import opened Compression
  import opened PackedPoly
  import opened PolyConversions

  function RoundPts<E(!new)>(F: Field<E>, psi: E, logM: nat): (r: seq<E>)
    ensures |r| == 2 * Pow2(logM) - 1
  {
    PartyPoints(F, psi, logM) + NextPoints(F, psi, logM)[..Pow2(logM) - 1]
  }

  function LastPts<E(!new)>(F: Field<E>, m: nat): (r: seq<E>)
    ensures |r| == 2 * m + 1
  {
    seq(2 * m + 1, i requires 0 <= i < 2 * m + 1 => FromNat(F, i + 1))
  }

  function CheckParams<E(!new)>(F: Field<E>, psi: E, logM: nat): Params<E> {
    Params(Pow2(logM), RoundPts(F, psi, logM), LastPts(F, Pow2(logM)))
  }

  function Exponent(m: nat, i: nat): nat {
    if i < m then 2 * i + 1 else 2 * (i - m) + 2
  }

  lemma RoundPtAt<E(!new)>(F: Field<E>, psi: E, logM: nat, i: nat)
    requires i < 2 * Pow2(logM) - 1
    ensures RoundPts(F, psi, logM)[i] == Pow(F, psi, Exponent(Pow2(logM), i))
  {
  }

  lemma RoundPtsDistinct<E(!new)>(F: Field<E>, psi: E, logM: nat)
    requires Suits(F, psi, logM) && logM >= 1
    ensures Distinct(RoundPts(F, psi, logM))
  {
    TwoNonzero(F, logM);
    var m, pts := Pow2(logM), RoundPts(F, psi, logM);
    forall i, j | 0 <= i < j < |pts| ensures pts[i] != pts[j] {
      RoundPtAt(F, psi, logM, i);
      RoundPtAt(F, psi, logM, j);
      var e, f := Exponent(m, i), Exponent(m, j);
      if e < f { DistinctPowers(F, psi, logM, e, f); } else { DistinctPowers(F, psi, logM, f, e); }
    }
  }

  lemma LastPtsDistinct<E(!new)>(F: Field<E>, m: nat)
    requires F.Laws() && forall d :: 1 <= d <= 2 * m ==> FromNat(F, d) != F.zero
    ensures Distinct(LastPts(F, m))
  {
    forall i, j | 0 <= i < j < 2 * m + 1 ensures LastPts(F, m)[i] != LastPts(F, m)[j] {
      FromNatAdd(F, i + 1, j - i);
      var a, d := FromNat(F, i + 1), FromNat(F, j - i);
      if a == F.Add(a, d) {
        Zero(F, a);
        assert At2(a, d);
        Cancel(F, d, F.zero, a);
      }
    }
  }

  /** Roots that suit the transforms give the check distinct points, whenever 1, ..., 2m stay
      nonzero in the field. */
  lemma ParamsGood<E(!new)>(F: Field<E>, psi: E, logM: nat)
    requires Suits(F, psi, logM) && logM >= 1
    requires forall d :: 1 <= d <= 2 * Pow2(logM) ==> FromNat(F, d) != F.zero
    ensures CheckParams(F, psi, logM).Good()
  {
    Pow2Monotone(1, logM);
    RoundPtsDistinct(F, psi, logM);
    LastPtsDistinct(F, Pow2(logM));
  }
}
