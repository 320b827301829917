/** The loops of the multiplication check, on both sides, against the runs they carry out. */
module CompressionLoops {
  import opened Bits
  import opened Algebra
  import opened Interpolation
  import opened Folding
  import opened Compression
  import opened PackedPoly
  import opened PolyConversions
  import opened LagrangeTables

  // ---- folding ----

  function AddScaled<E(!new)>(F: Field<E>, acc: seq<E>, s: seq<E>, c: E): (r: seq<E>)
    requires |acc| == |s|
    ensures |r| == |acc|
  {
    seq(|acc|, j requires 0 <= j < |acc| => F.Add(acc[j], F.Mul(s[j], c)))
  }

  method AddScaledLoop<E(!new)>(F: Field<E>, acc: seq<E>, x: seq<E>, p: nat, c: E) returns (r: seq<E>)
    requires p + |acc| <= |x|
    ensures r == AddScaled(F, acc, x[p..p + |acc|], c)
  {
    r := [];
    for j := 0 to |acc|
      invariant |r| == j && forall k :: 0 <= k < j ==> r[k] == F.Add(acc[k], F.Mul(x[p + k], c))
    {
      r := r + [F.Add(acc[j], F.Mul(x[p + j], c))];
    }
  }

  // The fold after the first i chunks.
  function Folded<E(!new)>(F: Field<E>, x: seq<E>, low: seq<E>, len: nat, i: nat): (r: seq<E>)
    requires |low| * len == |x| && i <= |low|
    ensures |r| == len
  {
    seq(len, j requires 0 <= j < len => Dot(F, Strided(x, j, len, |low|)[..i], low[..i]))
  }

  lemma FoldedEnds<E(!new)>(F: Field<E>, x: seq<E>, low: seq<E>, len: nat)
    requires |low| * len == |x|
    ensures Folded(F, x, low, len, 0) == Zeros(F, len) && Folded(F, x, low, len, |low|) == FoldVec(F, x, low, len)
  {
    assert low[..|low|] == low;
    forall j | 0 <= j < len ensures Folded(F, x, low, len, |low|)[j] == FoldVec(F, x, low, len)[j] {
      assert Strided(x, j, len, |low|)[..|low|] == Strided(x, j, len, |low|);
    }
  }

  lemma FoldedNext<E(!new)>(F: Field<E>, x: seq<E>, low: seq<E>, len: nat, i: nat)
    requires F.Laws() && |low| * len == |x| && i < |low|
    ensures i * len + len == (i + 1) * len <= |x|
    ensures Folded(F, x, low, len, i + 1) == AddScaled(F, Folded(F, x, low, len, i), x[i * len..i * len + len], low[i])
  {
    InChunkCount(i + 1, |low|, len);
    var p := i * len;
    var now, was := Folded(F, x, low, len, i + 1), AddScaled(F, Folded(F, x, low, len, i), x[p..p + len], low[i]);
    forall j | 0 <= j < len ensures now[j] == was[j] {
      InChunk(i, j, len, |low|);
      DotTake(F, Strided(x, j, len, |low|), low, i);
    }
  }

  method FoldLoop<E(!new)>(F: Field<E>, x: seq<E>, low: seq<E>, len: nat) returns (ev: seq<E>)
    requires F.Laws() && |low| * len == |x|
    ensures ev == FoldVec(F, x, low, len)
  {
    hide *;
    ev := Zeros(F, len);
    FoldedEnds(F, x, low, len);
    var p := 0;
    for i := 0 to |low|
      invariant p == i * len && ev == Folded(F, x, low, len, i) && |ev| == len
    {
      FoldedNext(F, x, low, len, i);
      ev := AddScaledLoop(F, ev, x, p, low[i]);
      p := p + len;
    }
  }

  method FoldToLoop<E(!new)>(F: Field<E>, low: seq<E>, len: nat, size: nat, x: seq<E>) returns (r: seq<E>)
    requires F.Laws() && |low| * len == |x| && len <= size
    ensures r == FoldTo(F, low, len, size, x)
  {
    var ev := FoldLoop(F, x, low, len);
    r := ev + seq(size - len, _ => F.zero);
  }

  method ValueLoop<E(!new)>(F: Field<E>, high: seq<E>, h: seq<E>, ghost pts: seq<E>, ghost r: E) returns (z: E)
    requires F.Laws() && |h| == |pts| && high == LagrangeRow(F, pts, r)
    ensures z == ValueAt(F, pts, h, r)
  {
    z := DotLoop(F, h, high);
    DotComm(F, h, high);
  }

  // ---- the prover's report ----

  // Inner products of the first m - 1 chunks, and what they leave of z.
  method ChunkDotsLoop<E(!new)>(F: Field<E>, x: seq<E>, y: seq<E>, len: nat, z: E, k: nat) returns (h: seq<E>, rest: E)
    requires F.Laws() && |x| == |y| && k * len <= |x|
    ensures h == ChunkDots(F, x, y, len, k) && rest == F.Sub(z, Sum(F, h))
  {
    hide *;
    h, rest := [], z;
    SubZero(F, z);
    ChunkNone(F, x, y, len);
    var p := 0;
    for i := 0 to k
      invariant p == i * len <= |x| && h == ChunkDots(F, x, y, len, i) && rest == F.Sub(z, Sum(F, h))
    {
      ChunkNext(F, x, y, len, i, k);
      var d := DotLoop(F, x[p..p + len], y[p..p + len]);
      SumSnoc(F, h, d);
      SubBoth(F, z, Sum(F, h), d);
      h, rest := h + [d], F.Sub(rest, d);
      p := p + len;
    }
  }

  lemma ChunkNone<E(!new)>(F: Field<E>, x: seq<E>, y: seq<E>, len: nat)
    requires |x| == |y|
    ensures ChunkDots(F, x, y, len, 0) == [] && Sum(F, ChunkDots(F, x, y, len, 0)) == F.zero
  {
  }

  lemma ChunkNext<E(!new)>(F: Field<E>, x: seq<E>, y: seq<E>, len: nat, i: nat, k: nat)
    requires |x| == |y| && i < k && k * len <= |x|
    ensures i * len + len == (i + 1) * len <= |x|
    ensures ChunkDots(F, x, y, len, i + 1)
         == ChunkDots(F, x, y, len, i) + [Dot(F, x[i * len..i * len + len], y[i * len..i * len + len])]
  {
    InChunkCount(i + 1, k, len);
  }

  lemma SubZero<E(!new)>(F: Field<E>, z: E)
    requires F.Laws()
    ensures F.Sub(z, F.zero) == z
  {
    NegLaws(F, z, z);
    Zero(F, z);
  }

  lemma SubBoth<E(!new)>(F: Field<E>, z: E, s: E, d: E)
    requires F.Laws()
    ensures F.Sub(F.Sub(z, s), d) == F.Sub(z, F.Add(s, d))
  {
    NegLaws(F, s, d);
    assert At3(z, F.Neg(s), F.Neg(d));
  }

  // ---- extension to the shifted points ----

  // The round's points are those of the conversion object: m base points and the m - 1 between them.
  ghost predicate RoundPoints<E(!new)>(P: Params<E>, poly: Poly<E>) reads poly, poly.nttN, poly.nttK {
    && poly.Valid() && P.m == Pow2(poly.logN) >= 2
    && P.pts == PartyPoints(poly.F, poly.psi, poly.logN) + NextPoints(poly.F, poly.psi, poly.logN)[..P.m - 1]
  }

  function RowAt<E(!new)>(F: Field<E>, pts: seq<E>, q: nat, t: nat): (row: seq<E>)
    requires q <= t < |pts|
    ensures |row| == q
  {
    LagrangeRow(F, pts[..q], pts[t])
  }

  // The products at the points from q on, over the first i entries of the folded vectors.
  function Shifted<E(!new)>(F: Field<E>, pts: seq<E>, q: nat, x: seq<E>, y: seq<E>, len: nat, i: nat): (r: seq<E>)
    requires q <= |pts| && q * len == |x| == |y| && i <= len
    ensures |r| == |pts| - q
  {
    seq(|pts| - q, j requires 0 <= j < |pts| - q =>
      var row := RowAt(F, pts, q, q + j);
      Dot(F, FoldVec(F, x, row, len)[..i], FoldVec(F, y, row, len)[..i]))
  }

  // The values at the points from q on of the polynomial through entry i of every chunk.
  function Extended<E(!new)>(F: Field<E>, pts: seq<E>, q: nat, x: seq<E>, len: nat, i: nat): (r: seq<E>)
    requires q <= |pts| && q * len == |x| && i < len
    ensures |r| == |pts| - q
  {
    seq(|pts| - q, j requires 0 <= j < |pts| - q => ValueAt(F, pts[..q], Strided(x, i, len, q), pts[q + j]))
  }

  lemma ShiftedNext<E(!new)>(F: Field<E>, pts: seq<E>, q: nat, x: seq<E>, y: seq<E>, len: nat, i: nat)
    requires F.Laws() && q <= |pts| && q * len == |x| == |y| && i < len
    ensures Shifted(F, pts, q, x, y, len, i + 1)
         == VAdd(F, Shifted(F, pts, q, x, y, len, i),
                 Hadamard(F, Extended(F, pts, q, x, len, i), Extended(F, pts, q, y, len, i)))
  {
    var now, was := Shifted(F, pts, q, x, y, len, i + 1), Shifted(F, pts, q, x, y, len, i);
    var f, g := Extended(F, pts, q, x, len, i), Extended(F, pts, q, y, len, i);
    hide FoldVec, RowAt, ValueAt, Strided;
    forall j | 0 <= j < |pts| - q ensures now[j] == F.Add(was[j], F.Mul(f[j], g[j])) {
      ShiftedNextAt(F, pts, q, x, y, len, i, j, RowAt(F, pts, q, q + j));
    }
  }

  lemma ShiftedNextAt<E(!new)>(F: Field<E>, pts: seq<E>, q: nat, x: seq<E>, y: seq<E>, len: nat, i: nat, j: nat,
                               row: seq<E>)
    requires F.Laws() && q <= |pts| && q * len == |x| == |y| && i < len && j < |pts| - q
             && row == RowAt(F, pts, q, q + j)
    ensures Dot(F, FoldVec(F, x, row, len)[..i + 1], FoldVec(F, y, row, len)[..i + 1])
         == F.Add(Dot(F, FoldVec(F, x, row, len)[..i], FoldVec(F, y, row, len)[..i]),
                  F.Mul(ValueAt(F, pts[..q], Strided(x, i, len, q), pts[q + j]),
                        ValueAt(F, pts[..q], Strided(y, i, len, q), pts[q + j])))
  {
    DotTake(F, FoldVec(F, x, row, len), FoldVec(F, y, row, len), i);
    DotComm(F, row, Strided(x, i, len, q));
    DotComm(F, row, Strided(y, i, len, q));
  }

  lemma ShiftedEnds<E(!new)>(F: Field<E>, pts: seq<E>, q: nat, x: seq<E>, y: seq<E>, len: nat)
    requires q <= |pts| && q * len == |x| == |y|
    ensures Shifted(F, pts, q, x, y, len, 0) == Zeros(F, |pts| - q)
    ensures forall j :: 0 <= j < |pts| - q ==>
               Shifted(F, pts, q, x, y, len, len)[j] == FoldedDot(F, pts[..q], x, y, len, pts[q + j])
  {
    forall j | 0 <= j < |pts| - q ensures Shifted(F, pts, q, x, y, len, 0)[j] == F.zero {
      var row := RowAt(F, pts, q, q + j);
      var a, b := FoldVec(F, x, row, len)[..0], FoldVec(F, y, row, len)[..0];
      assert a == [] && Shifted(F, pts, q, x, y, len, 0)[j] == Dot(F, a, b);
    }
    forall j | 0 <= j < |pts| - q
      ensures Shifted(F, pts, q, x, y, len, len)[j] == FoldedDot(F, pts[..q], x, y, len, pts[q + j])
    {
      var row := RowAt(F, pts, q, q + j);
      assert FoldVec(F, x, row, len)[..len] == FoldVec(F, x, row, len) && FoldVec(F, y, row, len)[..len] == FoldVec(F,
          y, row, len);
    }
  }

  method Gather<E(!new)>(x: seq<E>, i: nat, len: nat, q: nat) returns (buf: seq<E>)
    requires i < len && q * len == |x|
    ensures buf == Strided(x, i, len, q)
  {
    buf := [];
    for j := 0 to q
      invariant buf == Strided(x, i, len, q)[..j]
    {
      InChunk(j, i, len, q);
      buf := buf + [x[i + j * len]];
    }
  }

  method AccumulateProducts<E(!new)>(F: Field<E>, acc: seq<E>, f: seq<E>, g: seq<E>) returns (r: seq<E>)
    requires |acc| == |f| == |g|
    ensures r == VAdd(F, acc, Hadamard(F, f, g))
  {
    r := [];
    for j := 0 to |acc|
      invariant r == VAdd(F, acc, Hadamard(F, f, g))[..j]
    {
      r := r + [F.Add(acc[j], F.Mul(f[j], g[j]))];
    }
  }

  // The transform's extension of one polynomial, cut to the points in use.
  method ExtendOne<E(!new)>(P: Params<E>, poly: Poly<E>, x: seq<E>, len: nat, i: nat) returns (f: seq<E>)
    requires RoundPoints(P, poly) && P.m * len == |x| && i < len
    ensures P.m <= |P.pts| && f == Extended(poly.F, P.pts, P.m, x, len, i)
  {
    var buf := Gather(x, i, len, P.m);
    var ext := poly.NttEvalN2N(buf);
    f := ext.value[..P.m - 1];
    assert P.pts[..P.m] == PartyPoints(poly.F, poly.psi, poly.logN);
  }

  method ExtendLoop<E(!new)>(P: Params<E>, poly: Poly<E>, x: seq<E>, y: seq<E>, len: nat) returns (h: seq<E>)
    requires RoundPoints(P, poly) && P.m * len == |x| == |y|
    ensures P.m <= |P.pts| && h == Shifted(poly.F, P.pts, P.m, x, y, len, len)
  {
    var F := poly.F;
    assert F.Laws() && P.m <= |P.pts| == 2 * P.m - 1;
    hide *;
    h := Zeros(F, P.m - 1);
    ShiftedEnds(F, P.pts, P.m, x, y, len);
    for i := 0 to len
      invariant h == Shifted(F, P.pts, P.m, x, y, len, i)
    {
      var f := ExtendOne(P, poly, x, len, i);
      var g := ExtendOne(P, poly, y, len, i);
      ShiftedNext(F, P.pts, P.m, x, y, len, i);
      h := AccumulateProducts(F, h, f, g);
    }
  }

  // ---- whole reports ----

  lemma ReportParts<E(!new)>(F: Field<E>, pts: seq<E>, q: nat, m: nat, x: seq<E>, y: seq<E>, len: nat, z: E, i: nat)
    requires 1 <= m <= q <= |pts| && q * len == |x| == |y| && i < |pts|
    ensures (m - 1) * len <= |x|
    ensures var h := Report(F, pts, q, m, x, y, len, z);
            && (i < m - 1 ==> h[i] == ChunkDots(F, x, y, len, m - 1)[i])
            && (i == m - 1 ==> h[i] == F.Sub(z, Sum(F, ChunkDots(F, x, y, len, m - 1))))
            && (m <= i < q ==> (i + 1) * len <= |x| && h[i] == Dot(F, Chunk(x, i, len), Chunk(y, i, len)))
            && (q <= i ==> h[i] == FoldedDot(F, pts[..q], x, y, len, pts[i]))
  {
    InChunkCount(m - 1, q, len);
    if i < q { InChunkCount(i + 1, q, len); }
  }

  lemma RoundReportIs<E(!new)>(F: Field<E>, pts: seq<E>, m: nat, x: seq<E>, y: seq<E>, len: nat, z: E, ds: seq<E>,
                               rest: E, ext: seq<E>)
    requires 1 <= m <= |pts| && m * len == |x| == |y| && (m - 1) * len <= |x|
    requires ds == ChunkDots(F, x, y, len, m - 1) && rest == F.Sub(z, Sum(F, ds))
             && ext == Shifted(F, pts, m, x, y, len, len)
    ensures ds + [rest] + ext == Report(F, pts, m, m, x, y, len, z)
  {
    var h := ds + [rest] + ext;
    ShiftedEnds(F, pts, m, x, y, len);
    hide Report, ChunkDots, Shifted, FoldedDot, Sum;
    forall i | 0 <= i < |pts| ensures h[i] == Report(F, pts, m, m, x, y, len, z)[i] {
      ReportParts(F, pts, m, m, x, y, len, z, i);
      if m <= i { assert h[i] == ext[i - m]; }
    }
  }

  method RoundReport<E(!new)>(P: Params<E>, poly: Poly<E>, x: seq<E>, y: seq<E>, len: nat, z: E) returns (h: seq<E>)
    requires RoundPoints(P, poly) && P.m * len == |x| == |y|
    ensures 2 <= P.m <= |P.pts| && h == Report(poly.F, P.pts, P.m, P.m, x, y, len, z)
  {
    var F := poly.F;
    assert F.Laws() && 2 <= P.m <= |P.pts| == 2 * P.m - 1;
    hide *;
    InChunkCount(P.m - 1, P.m, len);
    var ds, rest := ChunkDotsLoop(F, x, y, len, z, P.m - 1);
    var ext := ExtendLoop(P, poly, x, y, len);
    RoundReportIs(F, P.pts, P.m, x, y, len, z, ds, rest, ext);
    h := ds + [rest] + ext;
  }

  lemma UnitValue<E(!new)>(F: Field<E>, pts: seq<E>, x: seq<E>, y: seq<E>, r: E)
    requires F.Laws() && |pts| == |x| == |y|
    ensures FoldedDot(F, pts, x, y, 1, r) == F.Mul(ValueAt(F, pts, x, r), ValueAt(F, pts, y, r))
  {
    OpeningDot(F, pts, x, y, r);
    var low := LagrangeRow(F, pts, r);
    assert Strided(x, 0, 1, |pts|) == x && Strided(y, 0, 1, |pts|) == y;
    DotComm(F, x, low);
    DotComm(F, y, low);
  }

  lemma UnitChunk<E(!new)>(F: Field<E>, x: seq<E>, y: seq<E>, i: nat)
    requires F.Laws() && |x| == |y| && i < |x|
    ensures (i + 1) * 1 <= |x| && Dot(F, Chunk(x, i, 1), Chunk(y, i, 1)) == F.Mul(x[i], y[i])
  {
    var a, b := Chunk(x, i, 1), Chunk(y, i, 1);
    assert a == [x[i]] && b == [y[i]];
    assert Dot(F, a, b) == F.Add(F.Mul(a[0], b[0]), Dot(F, a[1..], b[1..]));
    Zero(F, F.Mul(x[i], y[i]));
  }

  lemma LastReportIs<E(!new)>(F: Field<E>, pts: seq<E>, m: nat, x: seq<E>, y: seq<E>, z: E, ds: seq<E>, rest: E,
                              ext: seq<E>)
    requires F.Laws() && 1 <= m && |pts| == 2 * m + 1 && |x| == |y| == m + 1
    requires ds == ChunkDots(F, x, y, 1, m - 1) && rest == F.Sub(z, Sum(F, ds))
    requires ext == Hadamard(F, Convert(F, pts[..m + 1], pts[m + 1..], x), Convert(F, pts[..m + 1], pts[m + 1..], y))
    ensures ds + [rest, F.Mul(x[m], y[m])] + ext == Report(F, pts, m + 1, m, x, y, 1, z)
  {
    var h := ds + [rest, F.Mul(x[m], y[m])] + ext;
    assert (m + 1) * 1 == |x| == |y|;
    hide Report, ChunkDots, FoldedDot, Sum, ValueAt, Chunk;
    forall i | 0 <= i < |pts| ensures h[i] == Report(F, pts, m + 1, m, x, y, 1, z)[i] {
      ReportParts(F, pts, m + 1, m, x, y, 1, z, i);
      if i == m { UnitChunk(F, x, y, m); }
      if m < i {
        assert h[i] == ext[i - m - 1] && pts[m + 1..][i - m - 1] == pts[i];
        UnitValue(F, pts[..m + 1], x, y, pts[i]);
      }
    }
  }

  // Tables for the last round: evaluation at the upper points from the lower ones.
  ghost predicate LastTable<E(!new)>(F: Field<E>, P: Params<E>, rows: seq<seq<E>>) {
    && |P.lastPts| == 2 * P.m + 1 && |rows| == P.m
    && forall i :: 0 <= i < |rows| ==> rows[i] == LagrangeRow(F, P.lastPts[..P.m + 1], P.lastPts[P.m + 1..][i])
  }

  method LastReport<E(!new)>(F: Field<E>, P: Params<E>, rows: seq<seq<E>>, x: seq<E>, y: seq<E>, z: E)
    returns (h: seq<E>)
    requires F.Laws() && 1 <= P.m && LastTable(F, P, rows) && |x| == |y| == P.m + 1
    ensures |P.lastPts| == 2 * P.m + 1 && h == Report(F, P.lastPts, P.m + 1, P.m, x, y, 1, z)
  {
    var ds, rest := ChunkDotsLoop(F, x, y, 1, z, P.m - 1);
    var f := EvalTable(F, rows, P.lastPts[..P.m + 1], P.lastPts[P.m + 1..], x);
    var g := EvalTable(F, rows, P.lastPts[..P.m + 1], P.lastPts[P.m + 1..], y);
    var ext := Products(F, f, g);
    LastReportIs(F, P.lastPts, P.m, x, y, z, ds, rest, ext);
    h := ds + [rest, F.Mul(x[P.m], y[P.m])] + ext;
  }

  method Products<E(!new)>(F: Field<E>, f: seq<E>, g: seq<E>) returns (r: seq<E>)
    requires |f| == |g|
    ensures r == Hadamard(F, f, g)
  {
    r := [];
    for j := 0 to |f|
      invariant r == Hadamard(F, f, g)[..j]
    {
      r := r + [F.Mul(f[j], g[j])];
    }
  }
}
