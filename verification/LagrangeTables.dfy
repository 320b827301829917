/** Lagrange coefficients as the code's loops compute them: running products over all points but
    one, the inverted denominators kept in tables, and dot products against the values. */
module LagrangeTables {
  import opened Algebra
  import opened Polynomials
  import opened Interpolation
  import opened PackedPoly

  // pts[..l] without pts[j].
  function OthersUpTo<E>(pts: seq<E>, j: nat, l: nat): seq<E>
    requires l <= |pts|
  {
    if l <= j then pts[..l] else pts[..j] + pts[j + 1..l]
  }

  lemma NextOther<E>(pts: seq<E>, j: nat, l: nat)
    requires l < |pts|
    ensures OthersUpTo(pts, j, l + 1) == OthersUpTo(pts, j, l) + if l == j then [] else [pts[l]]
    ensures OthersUpTo(pts, j, 0) == []
    ensures j < |pts| ==> OthersUpTo(pts, j, |pts|) == Others(pts, j)
  {
    if j < |pts| { assert pts[j + 1..|pts|] == pts[j + 1..]; }
    if l > j { assert pts[j + 1..l + 1] == pts[j + 1..l] + [pts[l]]; }
  }

  // The running product after one more point.
  lemma NextProduct<E(!new)>(F: Field<E>, pts: seq<E>, j: nat, l: nat, x: E)
    requires F.Laws() && l < |pts|
    ensures RootProd(F, OthersUpTo(pts, j, l + 1), x)
         == if l == j then RootProd(F, OthersUpTo(pts, j, l), x)
            else F.Mul(RootProd(F, OthersUpTo(pts, j, l), x), F.Sub(x, pts[l]))
  {
    NextOther(pts, j, l);
    var was := OthersUpTo(pts, j, l);
    hide OthersUpTo, RootProd;
    if l == j { assert was + [] == was; } else { RootProdSnoc(F, was, pts[l], x); }
  }

  // Nothing is multiplied at the start, and all other points at the end.
  lemma ProductEnds<E(!new)>(F: Field<E>, pts: seq<E>, j: nat, x: E)
    requires j < |pts|
    ensures RootProd(F, OthersUpTo(pts, j, 0), x) == F.one
    ensures RootProd(F, OthersUpTo(pts, j, |pts|), x) == RootProd(F, Others(pts, j), x)
  {
    NextOther(pts, j, 0);
  }

  method OthersProduct<E(!new)>(F: Field<E>, pts: seq<E>, j: nat, x: E) returns (res: E)
    requires F.Laws() && j < |pts|
    ensures res == RootProd(F, Others(pts, j), x)
  {
    hide *;
    res := F.one;
    var l := 0;
    ProductEnds(F, pts, j, x);
    while l < |pts|
      invariant 0 <= l <= |pts| && res == RootProd(F, OthersUpTo(pts, j, l), x)
    {
      NextProduct(F, pts, j, l, x);
      if l != j { res := F.Mul(res, F.Sub(x, pts[l])); }
      l := l + 1;
    }
  }

  // Numerator and denominator in one loop, as for the conversion tables.
  method LagrangeCoeffLoop<E(!new)>(F: Field<E>, pts: seq<E>, j: nat, dest: E) returns (c: E)
    requires F.Laws() && j < |pts|
    ensures c == LagrangeCoeff(F, pts, j, dest)
  {
    hide OthersUpTo, RootProd, Others, Field.Laws;
    var numer, denom := F.one, F.one;
    var l := 0;
    ProductEnds(F, pts, j, dest);
    ProductEnds(F, pts, j, pts[j]);
    while l < |pts|
      invariant 0 <= l <= |pts|
      invariant numer == RootProd(F, OthersUpTo(pts, j, l), dest)
      invariant denom == RootProd(F, OthersUpTo(pts, j, l), pts[j])
    {
      NextProduct(F, pts, j, l, dest);
      NextProduct(F, pts, j, l, pts[j]);
      if l != j {
        numer := F.Mul(numer, F.Sub(dest, pts[l]));
        denom := F.Mul(denom, F.Sub(pts[j], pts[l]));
      }
      l := l + 1;
    }
    c := F.Mul(numer, F.Inv(denom));
  }

  // Inverses of the denominators of all coefficients over pts.
  function Divisors<E(!new)>(F: Field<E>, pts: seq<E>): (r: seq<E>)
    ensures |r| == |pts|
  {
    seq(|pts|, i requires 0 <= i < |pts| => F.Inv(RootProd(F, Others(pts, i), pts[i])))
  }

  method FillDivisors<E(!new)>(F: Field<E>, pts: seq<E>) returns (div: seq<E>)
    requires F.Laws()
    ensures div == Divisors(F, pts)
  {
    div := [];
    for i := 0 to |pts|
      invariant div == Divisors(F, pts)[..i]
    {
      var p := OthersProduct(F, pts, i, pts[i]);
      assert Divisors(F, pts)[..i + 1] == Divisors(F, pts)[..i] + [F.Inv(p)];
      div := div + [F.Inv(p)];
    }
  }

  /** The coefficients at `dest`, with the tabulated divisors. */
  method ComputeLagCoeff<E(!new)>(F: Field<E>, pts: seq<E>, div: seq<E>, dest: E) returns (row: seq<E>)
    requires F.Laws() && div == Divisors(F, pts)
    ensures row == LagrangeRow(F, pts, dest)
  {
    row := [];
    for i := 0 to |pts|
      invariant row == LagrangeRow(F, pts, dest)[..i]
    {
      var p := OthersProduct(F, pts, i, dest);
      assert LagrangeRow(F, pts, dest)[..i + 1] == LagrangeRow(F, pts, dest)[..i] + [F.Mul(p, div[i])];
      row := row + [F.Mul(p, div[i])];
    }
  }

  // One table row per target point.
  method CoefficientTable<E(!new)>(F: Field<E>, from: seq<E>, to: seq<E>) returns (rows: seq<seq<E>>)
    requires F.Laws()
    ensures |rows| == |to| && forall i :: 0 <= i < |to| ==> rows[i] == LagrangeRow(F, from, to[i])
  {
    rows := [];
    for i := 0 to |to|
      invariant |rows| == i && forall k :: 0 <= k < i ==> rows[k] == LagrangeRow(F, from, to[k])
    {
      var row := TableRow(F, from, to[i]);
      rows := rows + [row];
    }
  }

  method TableRow<E(!new)>(F: Field<E>, from: seq<E>, dest: E) returns (row: seq<E>)
    requires F.Laws()
    ensures row == LagrangeRow(F, from, dest)
  {
    row := [];
    for j := 0 to |from|
      invariant row == LagrangeRow(F, from, dest)[..j]
    {
      var c := LagrangeCoeffLoop(F, from, j, dest);
      assert LagrangeRow(F, from, dest)[..j + 1] == LagrangeRow(F, from, dest)[..j] + [c];
      row := row + [c];
    }
  }

  method DotLoop<E(!new)>(F: Field<E>, row: seq<E>, vals: seq<E>) returns (res: E)
    requires F.Laws() && |row| == |vals|
    ensures res == Dot(F, row, vals)
  {
    res := F.zero;
    for j := 0 to |row|
      invariant res == Dot(F, row[..j], vals[..j])
    {
      DotTake(F, row, vals, j);
      res := F.Add(res, F.Mul(row[j], vals[j]));
    }
    assert row[..|row|] == row && vals[..|row|] == vals;
  }

  /** Values at the points of `to` from values at the points of `from`. */
  method EvalTable<E(!new)>(F: Field<E>, rows: seq<seq<E>>, ghost from: seq<E>, ghost to: seq<E>, vals: seq<E>)
    returns (out: seq<E>)
    requires F.Laws() && |vals| == |from| && |rows| == |to|
    requires forall i :: 0 <= i < |to| ==> rows[i] == LagrangeRow(F, from, to[i])
    ensures out == Convert(F, from, to, vals)
  {
    out := [];
    for i := 0 to |rows|
      invariant out == Convert(F, from, to, vals)[..i]
    {
      var r := DotLoop(F, rows[i], vals);
      assert Convert(F, from, to, vals)[..i + 1] == Convert(F, from, to, vals)[..i] + [r];
      out := out + [r];
    }
  }

  /** Party `index`'s additive share of the value at every target point. */
  method EvalOne<E(!new)>(F: Field<E>, rows: seq<seq<E>>, ghost from: seq<E>, ghost to: seq<E>, index: nat, v: E)
    returns (out: seq<E>)
    requires index < |from| && |rows| == |to|
    requires forall i :: 0 <= i < |to| ==> rows[i] == LagrangeRow(F, from, to[i])
    ensures out == OneShare(F, from, to, index, v)
  {
    out := [];
    for i := 0 to |rows|
      invariant out == OneShare(F, from, to, index, v)[..i]
    {
      out := out + [F.Mul(rows[i][index], v)];
    }
  }
}
