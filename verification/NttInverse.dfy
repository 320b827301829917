/** The inverse transform undoes the forward one stage by stage, and the other way round; each
    stage pair doubles the vector, and the final scaling takes all the doublings back. */
module NttInverse {
  import opened Bits
  import opened Algebra
  import opened Polynomials
  import opened Ntt
  import opened NttCorrect

  function Two<E(!new)>(F: Field<E>): E { F.Add(F.one, F.one) }

  // Entry by entry, the two factor lists multiply to one.
  ghost predicate Reciprocal<E(!new)>(F: Field<E>, ws: seq<E>, iws: seq<E>) {
    |ws| == |iws| && forall i :: 0 <= i < |ws| ==> F.Mul(ws[i], iws[i]) == F.one
  }

  lemma BflyUndo<E(!new)>(F: Field<E>, u: E, v: E, w: E, iw: E)
    requires F.Laws() && F.Mul(w, iw) == F.one
    ensures F.Add(F.Add(u, F.Mul(v, w)), F.Sub(u, F.Mul(v, w))) == F.Mul(Two(F), u)
    ensures F.Mul(F.Sub(F.Add(u, F.Mul(v, w)), F.Sub(u, F.Mul(v, w))), iw) == F.Mul(Two(F), v)
  {
    var p := F.Mul(v, w);
    SumAndDifference(F, u, p);
    assert F.Mul(F.Mul(Two(F), p), iw) == F.Mul(F.Mul(Two(F), v), F.Mul(w, iw)) by { MulLaws(F); }
    One(F, F.Mul(Two(F), v));
  }

  lemma SumAndDifference<E(!new)>(F: Field<E>, u: E, p: E)
    requires F.Laws()
    ensures F.Add(F.Add(u, p), F.Sub(u, p)) == F.Mul(Two(F), u)
    ensures F.Sub(F.Add(u, p), F.Sub(u, p)) == F.Mul(Two(F), p)
  {
    var np := F.Neg(p);
    assert At1(p) && At1(u);
    assert F.Add(F.Add(u, p), F.Add(u, np)) == F.Add(F.Add(u, u), F.Add(p, np)) by { AddLaws(F); }
    Zero(F, F.Add(u, u));
    NegLaws(F, u, np);
    NegLaws(F, p, p);
    var nu := F.Neg(u);
    assert F.Add(F.Add(u, p), F.Add(nu, p)) == F.Add(F.Add(p, p), F.Add(u, nu)) by { AddLaws(F); }
    Zero(F, F.Add(p, p));
    Doubled(F, u);
    Doubled(F, p);
  }

  lemma Doubled<E(!new)>(F: Field<E>, u: E)
    requires F.Laws()
    ensures F.Mul(Two(F), u) == F.Add(u, u)
  {
    assert At2(Two(F), u) && At3(u, F.one, F.one);
    One(F, u);
  }

  lemma InvBflyUndo<E(!new)>(F: Field<E>, a: E, b: E, w: E, iw: E)
    requires F.Laws() && F.Mul(w, iw) == F.one
    ensures F.Add(F.Add(a, b), F.Mul(F.Mul(F.Sub(a, b), iw), w)) == F.Mul(Two(F), a)
    ensures F.Sub(F.Add(a, b), F.Mul(F.Mul(F.Sub(a, b), iw), w)) == F.Mul(Two(F), b)
  {
    var d := F.Sub(a, b);
    assert F.Mul(F.Mul(d, iw), w) == F.Mul(d, F.Mul(w, iw)) by { MulLaws(F); }
    One(F, d);
    SumAndDifference(F, a, b);
  }

  lemma {:induction false} StagesUndo<E(!new)>(F: Field<E>, ws: seq<E>, iws: seq<E>, t: nat, v: seq<E>)
    requires F.Laws() && Reciprocal(F, ws, iws) && |v| == Span(t, |ws|)
    ensures InvStage(F, iws, t, Stage(F, ws, t, v)) == Scale(F, Two(F), v)
    ensures Stage(F, ws, t, InvStage(F, iws, t, v)) == Scale(F, Two(F), v)
    decreases |ws|
  {
    if ws != [] {
      var b, rest, w, iw := v[..2 * t], v[2 * t..], ws[0], iws[0];
      StagesUndo(F, ws[1..], iws[1..], t, rest);
      BlockUndo(F, b, t, w, iw);
      CutAt(Bfly(F, b, t, w), Stage(F, ws[1..], t, rest));
      CutAt(InvBfly(F, b, t, iw), InvStage(F, iws[1..], t, rest));
      assert v == b + rest;
      ScaleJoin(F, Two(F), b, rest);
    }
  }

  lemma CutAt<E>(s: seq<E>, u: seq<E>)
    ensures (s + u)[..|s|] == s && (s + u)[|s|..] == u
  {
  }

  lemma ScaleJoin<E(!new)>(F: Field<E>, c: E, a: seq<E>, b: seq<E>)
    ensures Scale(F, c, a + b) == Scale(F, c, a) + Scale(F, c, b)
  {
  }

  lemma BlockUndo<E(!new)>(F: Field<E>, b: seq<E>, t: nat, w: E, iw: E)
    requires F.Laws() && |b| == 2 * t && F.Mul(w, iw) == F.one
    ensures InvBfly(F, Bfly(F, b, t, w), t, iw) == Scale(F, Two(F), b)
    ensures Bfly(F, InvBfly(F, b, t, iw), t, w) == Scale(F, Two(F), b)
  {
    forall j | 0 <= j < 2 * t
      ensures InvBfly(F, Bfly(F, b, t, w), t, iw)[j] == Scale(F, Two(F), b)[j]
      ensures Bfly(F, InvBfly(F, b, t, iw), t, w)[j] == Scale(F, Two(F), b)[j]
    {
      EntryUndo(F, b, t, w, iw, j);
    }
  }

  lemma EntryUndo<E(!new)>(F: Field<E>, b: seq<E>, t: nat, w: E, iw: E, j: nat)
    requires F.Laws() && |b| == 2 * t && j < 2 * t && F.Mul(w, iw) == F.one
    ensures InvBfly(F, Bfly(F, b, t, w), t, iw)[j] == F.Mul(Two(F), b[j])
    ensures Bfly(F, InvBfly(F, b, t, iw), t, w)[j] == F.Mul(Two(F), b[j])
  {
    var i := if j < t then j else j - t;
    assert (j < t ==> i == j) && (t <= j ==> i + t == j);
    BflyUndo(F, b[i], b[i + t], w, iw);
    InvBflyUndo(F, b[i], b[i + t], w, iw);
    hide Two, F.Laws, F.Sub;
    var u, x := Bfly(F, b, t, w), InvBfly(F, b, t, iw);
    assert u[i] == F.Add(b[i], F.Mul(b[i + t], w)) && u[i + t] == F.Sub(b[i], F.Mul(b[i + t], w));
    assert x[i] == F.Add(b[i], b[i + t]) && x[i + t] == F.Mul(F.Sub(b[i], b[i + t]), iw);
  }

  // ---- stages are homogeneous ----

  lemma BlockScale<E(!new)>(F: Field<E>, c: E, b: seq<E>, t: nat, w: E)
    requires F.Laws() && |b| == 2 * t
    ensures Bfly(F, Scale(F, c, b), t, w) == Scale(F, c, Bfly(F, b, t, w))
    ensures InvBfly(F, Scale(F, c, b), t, w) == Scale(F, c, InvBfly(F, b, t, w))
  {
    forall j | 0 <= j < 2 * t
      ensures Bfly(F, Scale(F, c, b), t, w)[j] == Scale(F, c, Bfly(F, b, t, w))[j]
      ensures InvBfly(F, Scale(F, c, b), t, w)[j] == Scale(F, c, InvBfly(F, b, t, w))[j]
    {
      BlockScaleAt(F, c, b, t, w, j);
    }
  }

  lemma BlockScaleAt<E(!new)>(F: Field<E>, c: E, b: seq<E>, t: nat, w: E, j: nat)
    requires F.Laws() && |b| == 2 * t && j < 2 * t
    ensures Bfly(F, Scale(F, c, b), t, w)[j] == Scale(F, c, Bfly(F, b, t, w))[j]
    ensures InvBfly(F, Scale(F, c, b), t, w)[j] == Scale(F, c, InvBfly(F, b, t, w))[j]
  {
    var i := if j < t then j else j - t;
    PairScale(F, c, b[i], b[i + t], w);
  }

  lemma PairScale<E(!new)>(F: Field<E>, c: E, u: E, v: E, w: E)
    requires F.Laws()
    ensures F.Add(F.Mul(c, u), F.Mul(F.Mul(c, v), w)) == F.Mul(c, F.Add(u, F.Mul(v, w)))
    ensures F.Sub(F.Mul(c, u), F.Mul(F.Mul(c, v), w)) == F.Mul(c, F.Sub(u, F.Mul(v, w)))
    ensures F.Add(F.Mul(c, u), F.Mul(c, v)) == F.Mul(c, F.Add(u, v))
    ensures F.Mul(F.Sub(F.Mul(c, u), F.Mul(c, v)), w) == F.Mul(c, F.Mul(F.Sub(u, v), w))
  {
    var p := F.Mul(v, w);
    assert At3(c, v, w) && At3(c, u, p) && At3(c, u, v);
    NegLaws(F, c, p);
    NegLaws(F, c, v);
    assert At3(c, u, F.Neg(p)) && At3(c, u, F.Neg(v)) && At3(c, F.Sub(u, v), w);
  }

  lemma {:induction false} StageScale<E(!new)>(F: Field<E>, c: E, ws: seq<E>, t: nat, v: seq<E>)
    requires F.Laws() && |v| == Span(t, |ws|)
    ensures Stage(F, ws, t, Scale(F, c, v)) == Scale(F, c, Stage(F, ws, t, v))
    ensures InvStage(F, ws, t, Scale(F, c, v)) == Scale(F, c, InvStage(F, ws, t, v))
    decreases |ws|
  {
    if ws != [] {
      var b, rest := v[..2 * t], v[2 * t..];
      assert Scale(F, c, v)[..2 * t] == Scale(F, c, b) && Scale(F, c, v)[2 * t..] == Scale(F, c, rest);
      BlockScale(F, c, b, t, ws[0]);
      StageScale(F, c, ws[1..], t, rest);
      ScaleJoin(F, c, Bfly(F, b, t, ws[0]), Stage(F, ws[1..], t, rest));
      ScaleJoin(F, c, InvBfly(F, b, t, ws[0]), InvStage(F, ws[1..], t, rest));
    }
  }

  lemma {:induction false} ForwardScale<E(!new)>(F: Field<E>, c: E, powers: seq<E>, L: nat, k: nat, v: seq<E>)
    requires F.Laws() && |v| == |powers| == Pow2(L) && k <= L
    ensures Forward(F, powers, L, k, Scale(F, c, v)) == Scale(F, c, Forward(F, powers, L, k, v))
    decreases k
  {
    if k != 0 { ForwardScaleStep(F, c, powers, L, k, v); }
  }

  lemma {:induction false} ForwardScaleStep<E(!new)>(F: Field<E>, c: E, powers: seq<E>, L: nat, k: nat, v: seq<E>)
    requires F.Laws() && |v| == |powers| == Pow2(L) && 1 <= k <= L
    ensures Forward(F, powers, L, k, Scale(F, c, v)) == Scale(F, c, Forward(F, powers, L, k, v))
    decreases k, 0
  {
    hide *;
    ForwardStep(F, powers, L, k, v);
    ForwardStep(F, powers, L, k, Scale(F, c, v));
    var ws, t := powers[Pow2(L - k)..2 * Pow2(L - k)], Pow2(k - 1);
    StageScale(F, c, ws, t, v);
    ForwardScale(F, c, powers, L, k - 1, Stage(F, ws, t, v));
  }

  lemma ScaleScale<E(!new)>(F: Field<E>, c: E, d: E, v: seq<E>)
    requires F.Laws()
    ensures Scale(F, c, Scale(F, d, v)) == Scale(F, F.Mul(c, d), v)
  {
    forall i | 0 <= i < |v| ensures F.Mul(c, F.Mul(d, v[i])) == F.Mul(F.Mul(c, d), v[i]) { assert At3(c, d, v[i]); }
  }

  lemma ScaleOne<E(!new)>(F: Field<E>, v: seq<E>)
    requires F.Laws()
    ensures Scale(F, F.one, v) == v
  {
    forall i | 0 <= i < |v| ensures F.Mul(F.one, v[i]) == v[i] { One(F, v[i]); }
  }

  lemma DoubleNat<E(!new)>(F: Field<E>, n: nat)
    requires F.Laws()
    ensures F.Mul(Two(F), FromNat(F, n)) == FromNat(F, 2 * n) && F.Mul(FromNat(F, n), Two(F)) == FromNat(F, 2 * n)
  {
    Doubled(F, FromNat(F, n));
    FromNatAdd(F, n, n);
    assert At2(Two(F), FromNat(F, n));
  }

  // ---- whole transforms ----

  lemma TablesReciprocal<E(!new)>(F: Field<E>, psi: E, L: nat, powers: seq<E>, ipowers: seq<E>, lo: nat, hi: nat)
    requires F.Laws() && psi != F.zero && IsTable(F, psi, L, powers) && IsTable(F, F.Inv(psi), L, ipowers)
    requires lo <= hi <= Pow2(L)
    ensures Reciprocal(F, powers[lo..hi], ipowers[lo..hi])
  {
    forall i | 0 <= i < hi - lo ensures F.Mul(powers[lo..hi][i], ipowers[lo..hi][i]) == F.one {
      var r := RevBits(lo + i, L);
      PowMul(F, psi, F.Inv(psi), r);
      assert At1(psi);
      PowOne(F, r);
    }
  }

  lemma UndoLast<E(!new)>(F: Field<E>, powers: seq<E>, ipowers: seq<E>, L: nat, k: nat, v: seq<E>, v': seq<E>)
    requires F.Laws() && 1 <= k <= L && |v| == |powers| == |ipowers| == Pow2(L) == Span(Pow2(k - 1), Pow2(L - k))
    requires 2 * Pow2(L - k) <= Pow2(L)
             && Reciprocal(F, powers[Pow2(L - k)..2 * Pow2(L - k)], ipowers[Pow2(L - k)..2 * Pow2(L - k)])
    requires v' == Stage(F, powers[Pow2(L - k)..2 * Pow2(L - k)], Pow2(k - 1), v)
    requires Backward(F, ipowers, L, k - 1, Forward(F, powers, L, k - 1, v')) == Scale(F, FromNat(F, Pow2(k - 1)), v')
    ensures Backward(F, ipowers, L, k, Forward(F, powers, L, k, v)) == Scale(F, FromNat(F, 2 * Pow2(k - 1)), v)
  {
    hide *;
    var m, t := Pow2(L - k), Pow2(k - 1);
    var c := FromNat(F, t);
    ForwardStep(F, powers, L, k, v);
    BackwardStep(F, ipowers, L, k, Forward(F, powers, L, k, v));
    StageScale(F, c, ipowers[m..2 * m], t, v');
    StagesUndo(F, powers[m..2 * m], ipowers[m..2 * m], t, v);
    ScaleScale(F, c, Two(F), v);
    DoubleNat(F, t);
  }

  lemma UndoFirst<E(!new)>(F: Field<E>, powers: seq<E>, ipowers: seq<E>, L: nat, k: nat, v: seq<E>, u: seq<E>)
    requires F.Laws() && 1 <= k <= L && |v| == |powers| == |ipowers| == Pow2(L) == Span(Pow2(k - 1), Pow2(L - k))
    requires 2 * Pow2(L - k) <= Pow2(L)
             && Reciprocal(F, powers[Pow2(L - k)..2 * Pow2(L - k)], ipowers[Pow2(L - k)..2 * Pow2(L - k)])
    requires u == Backward(F, ipowers, L, k - 1, v)
             && Forward(F, powers, L, k - 1, u) == Scale(F, FromNat(F, Pow2(k - 1)), v)
    ensures Forward(F, powers, L, k, Backward(F, ipowers, L, k, v)) == Scale(F, FromNat(F, 2 * Pow2(k - 1)), v)
  {
    hide *;
    var m, t := Pow2(L - k), Pow2(k - 1);
    BackwardStep(F, ipowers, L, k, v);
    ForwardStep(F, powers, L, k, Backward(F, ipowers, L, k, v));
    StagesUndo(F, powers[m..2 * m], ipowers[m..2 * m], t, u);
    ForwardScale(F, Two(F), powers, L, k - 1, u);
    ScaleScale(F, Two(F), FromNat(F, t), v);
    DoubleNat(F, t);
  }

  /** k stages of either transform and then the matching k of the other multiply by 2^k. */
  lemma {:induction false} StagesCancel<E(!new)>(F: Field<E>, psi: E, L: nat, powers: seq<E>, ipowers: seq<E>, k: nat,
                                                 v: seq<E>)
    requires F.Laws() && psi != F.zero && IsTable(F, psi, L, powers) && IsTable(F, F.Inv(psi), L, ipowers)
    requires k <= L && |v| == Pow2(L)
    ensures Backward(F, ipowers, L, k, Forward(F, powers, L, k, v)) == Scale(F, FromNat(F, Pow2(k)), v)
    ensures Forward(F, powers, L, k, Backward(F, ipowers, L, k, v)) == Scale(F, FromNat(F, Pow2(k)), v)
    decreases k
  {
    if k == 0 {
      Zero(F, F.one);
      ScaleOne(F, v);
    } else {
      CancelStep(F, psi, L, powers, ipowers, k, v);
    }
  }

  lemma {:induction false} CancelStep<E(!new)>(F: Field<E>, psi: E, L: nat, powers: seq<E>, ipowers: seq<E>, k: nat,
                                               v: seq<E>)
    requires F.Laws() && psi != F.zero && IsTable(F, psi, L, powers) && IsTable(F, F.Inv(psi), L, ipowers)
    requires 1 <= k <= L && |v| == Pow2(L)
    ensures Backward(F, ipowers, L, k, Forward(F, powers, L, k, v)) == Scale(F, FromNat(F, Pow2(k)), v)
    ensures Forward(F, powers, L, k, Backward(F, ipowers, L, k, v)) == Scale(F, FromNat(F, Pow2(k)), v)
    decreases k, 0
  {
    hide Forward, Backward, Stage, InvStage, Span, Scale, FromNat, Reciprocal;
    var m, t := Pow2(L - k), Pow2(k - 1);
    Halves(L, k);
    TablesReciprocal(F, psi, L, powers, ipowers, m, 2 * m);
    var v' := Stage(F, powers[m..2 * m], t, v);
    StagesCancel(F, psi, L, powers, ipowers, k - 1, v');
    UndoLast(F, powers, ipowers, L, k, v, v');
    StagesCancel(F, psi, L, powers, ipowers, k - 1, v);
    UndoFirst(F, powers, ipowers, L, k, v, Backward(F, ipowers, L, k - 1, v));
  }

  // Everything the transform object holds: a 2N-th root, its two tables and 1/N.
  ghost predicate Tables<E(!new)>(F: Field<E>, psi: E, L: nat, powers: seq<E>, ipowers: seq<E>, invDim: E) {
    && Root(F, psi, L) && psi != F.zero
    && IsTable(F, psi, L, powers) && IsTable(F, F.Inv(psi), L, ipowers)
    && F.Mul(invDim, FromNat(F, Pow2(L))) == F.one
  }

  /** The inverse transform with its scaling recovers the coefficients of any vector's forward
      transform. */
  lemma InverseOfForward<E(!new)>(F: Field<E>, psi: E, L: nat, powers: seq<E>, ipowers: seq<E>, invDim: E, f: seq<E>)
    requires F.Laws() && Tables(F, psi, L, powers, ipowers, invDim) && |f| == Pow2(L)
    ensures Scale(F, invDim, Backward(F, ipowers, L, L, Forward(F, powers, L, L, f))) == f
  {
    StagesCancel(F, psi, L, powers, ipowers, L, f);
    ScaleScale(F, invDim, FromNat(F, Pow2(L)), f);
    ScaleOne(F, f);
  }

  /** The inverse transform interpolates: its result takes, at psi^(2 rev(i) + 1), the value given
      at index i. */
  lemma InverseInterpolates<E(!new)>(F: Field<E>, psi: E, L: nat, powers: seq<E>, ipowers: seq<E>, invDim: E, v: seq<E>)
    requires F.Laws() && Tables(F, psi, L, powers, ipowers, invDim) && |v| == Pow2(L)
    ensures Evals(F, Scale(F, invDim, Backward(F, ipowers, L, L, v)), Points(F, psi, L)) == v
  {
    var b := Backward(F, ipowers, L, L, v);
    ForwardEvaluates(F, psi, L, powers, Scale(F, invDim, b));
    ForwardScale(F, invDim, powers, L, L, b);
    StagesCancel(F, psi, L, powers, ipowers, L, v);
    ScaleScale(F, invDim, FromNat(F, Pow2(L)), v);
    ScaleOne(F, v);
  }
}
