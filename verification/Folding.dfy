/** One round of the compression argument as algebra: q chunks of x and of y become polynomials on
    the first q of 2q-1 points, and both vectors are folded to one chunk at a challenge. */
module Folding {
  import opened Algebra
  import opened Polynomials
  import opened Interpolation

  lemma InChunk(i: nat, j: nat, len: nat, q: nat)
    requires i < q && j < len
    ensures i * len + j < q * len && i * len + len <= q * len
  {
    assert (i + 1) * len <= q * len;
  }

  // Entry j of each of the first q chunks of x.
  function Strided<E>(x: seq<E>, j: nat, len: nat, q: nat): (r: seq<E>)
    requires j < len && q * len <= |x|
    ensures |r| == q
  {
    seq(q, i requires 0 <= i < q => InChunk(i, j, len, q); x[i * len + j])
  }

  function Chunk<E>(x: seq<E>, i: nat, len: nat): (r: seq<E>)
    requires (i + 1) * len <= |x|
    ensures |r| == len
  {
    x[i * len..(i + 1) * len]
  }

  // Entry j of the fold is the value, at the challenge behind `low`, of the polynomial through
  // entry j of every chunk.
  function FoldVec<E(!new)>(F: Field<E>, x: seq<E>, low: seq<E>, len: nat): (r: seq<E>)
    requires |low| * len == |x|
    ensures |r| == len
  {
    seq(len, j requires 0 <= j < len => Dot(F, Strided(x, j, len, |low|), low))
  }

  // ---- folding is linear ----

  lemma DotAddLeft<E(!new)>(F: Field<E>, s: seq<E>, t: seq<E>, c: seq<E>)
    requires F.Laws() && |c| == |s| == |t|
    ensures Dot(F, VAdd(F, s, t), c) == F.Add(Dot(F, s, c), Dot(F, t, c))
  {
    DotComm(F, VAdd(F, s, t), c);
    DotComm(F, s, c);
    DotComm(F, t, c);
    DotAddRight(F, c, s, t);
  }

  lemma DotScaleLeft<E(!new)>(F: Field<E>, a: E, s: seq<E>, c: seq<E>)
    requires F.Laws() && |c| == |s|
    ensures Dot(F, Scale(F, a, s), c) == F.Mul(a, Dot(F, s, c))
  {
    DotComm(F, Scale(F, a, s), c);
    DotComm(F, s, c);
    DotScaleRight(F, c, a, s);
  }

  lemma StridedAdd<E(!new)>(F: Field<E>, x: seq<E>, y: seq<E>, j: nat, len: nat, q: nat)
    requires j < len && q * len == |x| == |y|
    ensures Strided(VAdd(F, x, y), j, len, q) == VAdd(F, Strided(x, j, len, q), Strided(y, j, len, q))
  {
    forall i | 0 <= i < q ensures i * len + j < |x| { InChunk(i, j, len, q); }
  }

  lemma StridedScale<E(!new)>(F: Field<E>, a: E, x: seq<E>, j: nat, len: nat, q: nat)
    requires j < len && q * len == |x|
    ensures Strided(Scale(F, a, x), j, len, q) == Scale(F, a, Strided(x, j, len, q))
  {
    forall i | 0 <= i < q ensures i * len + j < |x| { InChunk(i, j, len, q); }
  }

  lemma FoldAdd<E(!new)>(F: Field<E>, x: seq<E>, y: seq<E>, low: seq<E>, len: nat)
    requires F.Laws() && |low| * len == |x| == |y|
    ensures FoldVec(F, VAdd(F, x, y), low, len) == VAdd(F, FoldVec(F, x, low, len), FoldVec(F, y, low, len))
  {
    forall j | 0 <= j < len
      ensures Dot(F, Strided(VAdd(F, x, y), j, len, |low|), low)
           == F.Add(Dot(F, Strided(x, j, len, |low|), low), Dot(F, Strided(y, j, len, |low|), low))
    {
      StridedAdd(F, x, y, j, len, |low|);
      DotAddLeft(F, Strided(x, j, len, |low|), Strided(y, j, len, |low|), low);
    }
  }

  lemma FoldScale<E(!new)>(F: Field<E>, a: E, x: seq<E>, low: seq<E>, len: nat)
    requires F.Laws() && |low| * len == |x|
    ensures FoldVec(F, Scale(F, a, x), low, len) == Scale(F, a, FoldVec(F, x, low, len))
  {
    forall j | 0 <= j < len
      ensures Dot(F, Strided(Scale(F, a, x), j, len, |low|), low) == F.Mul(a, Dot(F, Strided(x, j, len, |low|), low))
    {
      StridedScale(F, a, x, j, len, |low|);
      DotScaleLeft(F, a, Strided(x, j, len, |low|), low);
    }
  }

  // ---- the product polynomial ----

  // sum over j < k of f_j * g_j, where f_j and g_j interpolate entry j of the chunks.
  function ProductPoly<E(!new)>(F: Field<E>, pts: seq<E>, x: seq<E>, y: seq<E>, len: nat, k: nat): (c: seq<E>)
    requires pts != [] && |pts| * len == |x| == |y| && k <= len
    ensures |c| <= 2 * |pts| - 1
  {
    if k == 0 then []
    else PAdd(F, ProductPoly(F, pts, x, y, len, k - 1),
              PMul(F, Through(F, pts, Strided(x, k - 1, len, |pts|)), Through(F, pts, Strided(y, k - 1, len, |pts|))))
  }

  lemma {:induction false} EvalProductPoly<E(!new)>(F: Field<E>, pts: seq<E>, x: seq<E>, y: seq<E>, len: nat, k: nat,
                                                    r: E)
    requires F.Laws() && pts != [] && |pts| * len == |x| == |y| && k <= len
    ensures Eval(F, ProductPoly(F, pts, x, y, len, k), r)
         == Dot(F, FoldVec(F, x, LagrangeRow(F, pts, r), len)[..k], FoldVec(F, y, LagrangeRow(F, pts, r), len)[..k])
  {
    if k != 0 {
      var row := LagrangeRow(F, pts, r);
      var sx, sy := Strided(x, k - 1, len, |pts|), Strided(y, k - 1, len, |pts|);
      var f, g := Through(F, pts, sx), Through(F, pts, sy);
      EvalProductPoly(F, pts, x, y, len, k - 1, r);
      EvalAdd(F, ProductPoly(F, pts, x, y, len, k - 1), PMul(F, f, g), r);
      EvalMul(F, f, g, r);
      EvalThrough(F, pts, sx, r);
      EvalThrough(F, pts, sy, r);
      DotComm(F, row, sx);
      DotComm(F, row, sy);
      DotTake(F, FoldVec(F, x, row, len), FoldVec(F, y, row, len), k - 1);
    }
  }

  // What the two folded vectors multiply to at r.
  function FoldedDot<E(!new)>(F: Field<E>, pts: seq<E>, x: seq<E>, y: seq<E>, len: nat, r: E): E
    requires |pts| * len == |x| == |y|
  {
    var row := LagrangeRow(F, pts, r);
    Dot(F, FoldVec(F, x, row, len), FoldVec(F, y, row, len))
  }

  lemma FoldedDotIsPoly<E(!new)>(F: Field<E>, pts: seq<E>, x: seq<E>, y: seq<E>, len: nat, r: E)
    requires F.Laws() && pts != [] && |pts| * len == |x| == |y|
    ensures Eval(F, ProductPoly(F, pts, x, y, len, len), r) == FoldedDot(F, pts, x, y, len, r)
  {
    EvalProductPoly(F, pts, x, y, len, len, r);
    var row := LagrangeRow(F, pts, r);
    assert FoldVec(F, x, row, len)[..len] == FoldVec(F, x, row, len);
    assert FoldVec(F, y, row, len)[..len] == FoldVec(F, y, row, len);
  }

  lemma LagrangeUnitRow<E(!new)>(F: Field<E>, pts: seq<E>, i: nat)
    requires F.Laws() && Distinct(pts) && i < |pts|
    ensures UnitRow(F, LagrangeRow(F, pts, pts[i]), i)
  {
    forall j | 0 <= j < |pts| ensures LagrangeRow(F, pts, pts[i])[j] == if j == i then F.one else F.zero {
      LagrangeDelta(F, pts, i, j);
    }
  }

  lemma FoldUnit<E(!new)>(F: Field<E>, x: seq<E>, row: seq<E>, len: nat, i: nat)
    requires F.Laws() && UnitRow(F, row, i) && |row| * len == |x| && i < |row| && (i + 1) * len <= |x|
    ensures FoldVec(F, x, row, len) == Chunk(x, i, len)
  {
    forall j | 0 <= j < len ensures Dot(F, Strided(x, j, len, |row|), row) == Chunk(x, i, len)[j] {
      var s := Strided(x, j, len, |row|);
      DotComm(F, s, row);
      DotUnit(F, row, s, i);
      InChunk(i, j, len, |row|);
    }
  }

  // Inner products of the first k chunks.
  function ChunkDots<E(!new)>(F: Field<E>, x: seq<E>, y: seq<E>, len: nat, k: nat): (r: seq<E>)
    requires k * len <= |x| && |x| == |y|
    ensures |r| == k
  {
    seq(k, i requires 0 <= i < k =>
      assert (i + 1) * len <= k * len; Dot(F, Chunk(x, i, len), Chunk(y, i, len)))
  }

  lemma PrefixChunk<E>(x: seq<E>, len: nat, k: nat)
    requires k > 0 && k * len <= |x|
    ensures (k - 1) * len + len == k * len && 0 <= (k - 1) * len
    ensures x[..k * len] == x[..(k - 1) * len] + Chunk(x, k - 1, len)
  {
    assert (k - 1) * len + len == k * len;
  }

  lemma {:induction false} ChunkDotsSum<E(!new)>(F: Field<E>, x: seq<E>, y: seq<E>, len: nat, k: nat)
    requires F.Laws() && k * len <= |x| && |x| == |y|
    ensures Sum(F, ChunkDots(F, x, y, len, k)) == Dot(F, x[..k * len], y[..k * len])
  {
    if k == 0 {
      assert x[..k * len] == [] && y[..k * len] == [];
    } else {
      PrefixChunk(x, len, k);
      PrefixChunk(y, len, k);
      ChunkDotsSum(F, x, y, len, k - 1);
      var n, d := (k - 1) * len, Dot(F, Chunk(x, k - 1, len), Chunk(y, k - 1, len));
      assert ChunkDots(F, x, y, len, k) == ChunkDots(F, x, y, len, k - 1) + [d];
      SumSnoc(F, ChunkDots(F, x, y, len, k - 1), d);
      DotAppend(F, x[..n], y[..n], Chunk(x, k - 1, len), Chunk(y, k - 1, len));
    }
  }

  lemma ProductAtPoint<E(!new)>(F: Field<E>, pts: seq<E>, x: seq<E>, y: seq<E>, len: nat, i: nat)
    requires F.Laws() && Distinct(pts) && |pts| * len == |x| == |y| && i < |pts| && (i + 1) * len <= |x|
    ensures FoldedDot(F, pts, x, y, len, pts[i]) == Dot(F, Chunk(x, i, len), Chunk(y, i, len))
  {
    LagrangeUnitRow(F, pts, i);
    FoldUnit(F, x, LagrangeRow(F, pts, pts[i]), len, i);
    FoldUnit(F, y, LagrangeRow(F, pts, pts[i]), len, i);
  }

  // ---- completeness and soundness of a round ----

  // `h` reports the product polynomial at all 2q-1 points.
  ghost predicate Reports<E(!new)>(F: Field<E>, pts: seq<E>, q: nat, x: seq<E>, y: seq<E>, len: nat, h: seq<E>)
    requires q <= |pts| == |h| && q * len == |x| == |y|
  {
    forall i :: 0 <= i < |pts| ==> h[i] == FoldedDot(F, pts[..q], x, y, len, pts[i])
  }

  /** A truthful report interpolates, at any challenge, to the inner product of the folds. */
  lemma ReportFolds<E(!new)>(F: Field<E>, pts: seq<E>, q: nat, x: seq<E>, y: seq<E>, len: nat, h: seq<E>, r: E)
    requires F.Laws() && Distinct(pts) && 1 <= q && |pts| == |h| == 2 * q - 1 && q * len == |x| == |y|
    requires Reports(F, pts, q, x, y, len, h)
    ensures ValueAt(F, pts, h, r) == FoldedDot(F, pts[..q], x, y, len, r)
  {
    var c := ProductPoly(F, pts[..q], x, y, len, len);
    forall i | 0 <= i < |pts| ensures h[i] == Evals(F, c, pts)[i] {
      FoldedDotIsPoly(F, pts[..q], x, y, len, pts[i]);
    }
    assert h == Evals(F, c, pts);
    LagrangeExact(F, c, pts, r);
    FoldedDotIsPoly(F, pts[..q], x, y, len, r);
  }

  /** Soundness of a round, by counting. Whatever 2q-1 values a prover reports, as long as the first
      m of them add up to z: if the first m chunks do not multiply to z, then at most 2q-2
      challenges make the folded relation true. */
  lemma FoldSoundness<E(!new)>(F: Field<E>, pts: seq<E>, q: nat, m: nat, x: seq<E>, y: seq<E>, len: nat, h: seq<E>,
                               z: E, lucky: set<E>)
    requires F.Laws() && Distinct(pts) && 1 <= m <= q && |pts| == |h| == 2 * q - 1 && q * len == |x| == |y|
    requires m * len <= |x| && Sum(F, h[..m]) == z
    requires Dot(F, x[..m * len], y[..m * len]) != z
    requires forall r :: r in lucky ==> ValueAt(F, pts, h, r) == FoldedDot(F, pts[..q], x, y, len, r)
    ensures |lucky| <= 2 * q - 2
  {
    if |lucky| > 2 * q - 2 {
      var c, d := Through(F, pts, h), ProductPoly(F, pts[..q], x, y, len, len);
      forall r | r in lucky ensures Eval(F, c, r) == Eval(F, d, r) {
        EvalThrough(F, pts, h, r);
        FoldedDotIsPoly(F, pts[..q], x, y, len, r);
      }
      forall i | 0 <= i < m ensures h[..m][i] == ChunkDots(F, x, y, len, m)[i] {
        InChunkCount(i + 1, q, len);
        AgreeEverywhere(F, c, d, lucky, pts[i]);
        ReportedValue(F, pts, q, x, y, len, h, i);
      }
      assert h[..m] == ChunkDots(F, x, y, len, m);
      ChunkDotsSum(F, x, y, len, m);
    }
  }

  lemma InChunkCount(i: nat, q: nat, len: nat)
    requires i <= q
    ensures i * len <= q * len
  {
  }

  // If the reported polynomial meets the product polynomial at point i, the report there is honest.
  lemma ReportedValue<E(!new)>(F: Field<E>, pts: seq<E>, q: nat, x: seq<E>, y: seq<E>, len: nat, h: seq<E>, i: nat)
    requires F.Laws() && Distinct(pts) && i < q <= |pts| == |h| && q * len == |x| == |y| && (i + 1) * len <= |x|
    requires Eval(F, Through(F, pts, h), pts[i]) == Eval(F, ProductPoly(F, pts[..q], x, y, len, len), pts[i])
    ensures h[i] == Dot(F, Chunk(x, i, len), Chunk(y, i, len))
  {
    ThroughPoints(F, pts, h);
    assert Evals(F, Through(F, pts, h), pts)[i] == h[i];
    FoldedDotIsPoly(F, pts[..q], x, y, len, pts[i]);
    ProductAtPoint(F, pts[..q], x, y, len, i);
    assert pts[..q][i] == pts[i];
  }
}
