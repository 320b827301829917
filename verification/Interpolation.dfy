/** Lagrange interpolation, in the form the code computes it: a row of coefficients
    prod (x - p_l) / prod (p_j - p_l) against the values at the points. */
module Interpolation {
  import opened Algebra
  import opened Polynomials

  ghost predicate Distinct<E>(pts: seq<E>) {
    forall i, j :: 0 <= i < j < |pts| ==> pts[i] != pts[j]
  }

  function Others<E>(pts: seq<E>, j: nat): (r: seq<E>)
    requires j < |pts|
    ensures |r| == |pts| - 1
  {
    pts[..j] + pts[j + 1..]
  }

  function LagrangeCoeff<E(!new)>(F: Field<E>, pts: seq<E>, j: nat, x: E): E
    requires j < |pts|
  {
    F.Mul(RootProd(F, Others(pts, j), x), F.Inv(RootProd(F, Others(pts, j), pts[j])))
  }

  function LagrangeRow<E(!new)>(F: Field<E>, pts: seq<E>, x: E): (r: seq<E>)
    ensures |r| == |pts|
  {
    seq(|pts|, j requires 0 <= j < |pts| => LagrangeCoeff(F, pts, j, x))
  }

  // Value at x of the polynomial through (pts[j], vals[j]).
  function ValueAt<E(!new)>(F: Field<E>, pts: seq<E>, vals: seq<E>, x: E): E
    requires |pts| == |vals|
  {
    Dot(F, LagrangeRow(F, pts, x), vals)
  }

  lemma OthersHas<E>(pts: seq<E>, j: nat)
    requires j < |pts| && Distinct(pts)
    ensures forall i :: 0 <= i < |pts| ==> (pts[i] in Others(pts, j) <==> i != j)
  {
    forall i | 0 <= i < |pts| && i != j ensures pts[i] in Others(pts, j) {
      assert Others(pts, j)[if i < j then i else i - 1] == pts[i];
    }
  }

  lemma LagrangeDelta<E(!new)>(F: Field<E>, pts: seq<E>, i: nat, j: nat)
    requires F.Laws() && Distinct(pts) && i < |pts| && j < |pts|
    ensures LagrangeCoeff(F, pts, j, pts[i]) == if i == j then F.one else F.zero
  {
    OthersHas(pts, j);
    RootProdZero(F, Others(pts, j), pts[i]);
    if i == j {
      assert At1(RootProd(F, Others(pts, j), pts[j]));
    } else {
      Zero(F, F.Inv(RootProd(F, Others(pts, j), pts[j])));
    }
  }

  // Row of the identity matrix.
  ghost predicate UnitRow<E(!new)>(F: Field<E>, row: seq<E>, i: nat) {
    forall j :: 0 <= j < |row| ==> row[j] == if j == i then F.one else F.zero
  }

  lemma {:induction false} DotZeroRow<E(!new)>(F: Field<E>, row: seq<E>, vals: seq<E>)
    requires F.Laws() && |row| == |vals|
    requires forall j :: 0 <= j < |row| ==> row[j] == F.zero
    ensures Dot(F, row, vals) == F.zero
  {
    assert row == Zeros(F, |vals|);
    DotComm(F, row, vals);
    DotZeros(F, vals);
  }

  lemma {:induction false} DotUnit<E(!new)>(F: Field<E>, row: seq<E>, vals: seq<E>, i: nat)
    requires F.Laws() && |row| == |vals| && i < |row| && UnitRow(F, row, i)
    ensures Dot(F, row, vals) == vals[i]
  {
    Zero(F, vals[0]);
    One(F, vals[0]);
    Zero(F, vals[i]);
    if i == 0 {
      DotZeroRow(F, row[1..], vals[1..]);
    } else {
      DotUnit(F, row[1..], vals[1..], i - 1);
    }
  }

  // ---- the interpolating polynomial ----

  function Basis<E(!new)>(F: Field<E>, pts: seq<E>, j: nat): (c: seq<E>)
    requires j < |pts|
    ensures |c| == |pts|
  {
    Scale(F, F.Inv(RootProd(F, Others(pts, j), pts[j])), RootPoly(F, Others(pts, j)))
  }

  lemma EvalBasis<E(!new)>(F: Field<E>, pts: seq<E>, j: nat, x: E)
    requires F.Laws() && j < |pts|
    ensures Eval(F, Basis(F, pts, j), x) == LagrangeCoeff(F, pts, j, x)
  {
    var d, os := F.Inv(RootProd(F, Others(pts, j), pts[j])), Others(pts, j);
    EvalScale(F, d, RootPoly(F, os), x);
    EvalRootPoly(F, os, x);
    assert At2(d, RootProd(F, os, x));
  }

  // The first k summands of the interpolating polynomial.
  function Interpolate<E(!new)>(F: Field<E>, pts: seq<E>, vals: seq<E>, k: nat): (c: seq<E>)
    requires |pts| == |vals| && k <= |pts|
    ensures |c| == if k == 0 then 0 else |pts|
  {
    if k == 0 then []
    else PAdd(F, Interpolate(F, pts, vals, k - 1), Scale(F, vals[k - 1], Basis(F, pts, k - 1)))
  }

  lemma {:induction false} EvalInterpolate<E(!new)>(F: Field<E>, pts: seq<E>, vals: seq<E>, k: nat, x: E)
    requires F.Laws() && |pts| == |vals| && k <= |pts|
    ensures Eval(F, Interpolate(F, pts, vals, k), x) == Dot(F, LagrangeRow(F, pts, x)[..k], vals[..k])
  {
    if k != 0 {
      var row, c, b := LagrangeRow(F, pts, x), Interpolate(F, pts, vals, k - 1), Basis(F, pts, k - 1);
      EvalInterpolate(F, pts, vals, k - 1, x);
      EvalAdd(F, c, Scale(F, vals[k - 1], b), x);
      EvalScale(F, vals[k - 1], b, x);
      EvalBasis(F, pts, k - 1, x);
      assert At2(vals[k - 1], row[k - 1]);
      DotTake(F, row, vals, k - 1);
    }
  }

  // The polynomial of fewer than |pts| + 1 coefficients through the points.
  function Through<E(!new)>(F: Field<E>, pts: seq<E>, vals: seq<E>): (c: seq<E>)
    requires |pts| == |vals|
    ensures |c| == |pts|
  {
    Interpolate(F, pts, vals, |pts|)
  }

  lemma EvalThrough<E(!new)>(F: Field<E>, pts: seq<E>, vals: seq<E>, x: E)
    requires F.Laws() && |pts| == |vals|
    ensures Eval(F, Through(F, pts, vals), x) == ValueAt(F, pts, vals, x)
  {
    EvalInterpolate(F, pts, vals, |pts|, x);
    assert LagrangeRow(F, pts, x)[..|pts|] == LagrangeRow(F, pts, x) && vals[..|pts|] == vals;
  }

  lemma ThroughPoints<E(!new)>(F: Field<E>, pts: seq<E>, vals: seq<E>)
    requires F.Laws() && |pts| == |vals| && Distinct(pts)
    ensures Evals(F, Through(F, pts, vals), pts) == vals
  {
    forall i | 0 <= i < |pts| ensures Eval(F, Through(F, pts, vals), pts[i]) == vals[i] {
      EvalThrough(F, pts, vals, pts[i]);
      forall j | 0 <= j < |pts| ensures LagrangeRow(F, pts, pts[i])[j] == if j == i then F.one else F.zero {
        LagrangeDelta(F, pts, i, j);
      }
      DotUnit(F, LagrangeRow(F, pts, pts[i]), vals, i);
    }
  }

  function SetOf<E>(s: seq<E>): set<E> { set x | x in s }

  lemma {:induction false} DistinctSize<E>(pts: seq<E>)
    requires Distinct(pts)
    ensures |SetOf(pts)| == |pts|
  {
    if pts != [] {
      assert SetOf(pts) == SetOf(pts[1..]) + {pts[0]};
      DistinctSize(pts[1..]);
    }
  }

  /** Interpolation is exact: a polynomial with at most as many coefficients as there are points
      is recovered, at every x, from its values at the points. */
  lemma LagrangeExact<E(!new)>(F: Field<E>, c: seq<E>, pts: seq<E>, x: E)
    requires F.Laws() && Distinct(pts) && |c| <= |pts|
    ensures ValueAt(F, pts, Evals(F, c, pts), x) == Eval(F, c, x)
  {
    var vals := Evals(F, c, pts);
    var d := Through(F, pts, vals);
    ThroughPoints(F, pts, vals);
    forall r | r in SetOf(pts) ensures Eval(F, c, r) == Eval(F, d, r) {
      var i :| 0 <= i < |pts| && pts[i] == r;
      assert Evals(F, d, pts)[i] == vals[i];
    }
    DistinctSize(pts);
    AgreeEverywhere(F, c, d, SetOf(pts), x);
    EvalThrough(F, pts, vals, x);
  }
}
