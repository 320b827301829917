/** What the transforms compute, over any field with an element psi such that psi^N = -1,
    N = 2^L: evaluations, and that the two directions undo each other. */
module NttCorrect {
  import opened Bits
  import opened Algebra
  import opened Polynomials
  import opened Ntt

  // ---- the twiddle tables ----

  // Entry j holds w to the power of j's reversed bits.
  ghost predicate IsTable<E(!new)>(F: Field<E>, w: E, L: nat, powers: seq<E>) {
    && |powers| == Pow2(L)
    && forall j :: 0 <= j < |powers| ==> powers[j] == Pow(F, w, RevBits(j, L))
  }

  method FillTable<E(!new)>(F: Field<E>, w: E, L: nat) returns (powers: seq<E>)
    requires F.Laws()
    ensures IsTable(F, w, L, powers)
  {
    var dim := Pow2(L);
    powers := seq(dim, _ => F.one);
    var p := F.one;
    var i := 1;
    ZeroRev(L);
    while i < dim
      invariant 1 <= i <= dim && |powers| == dim && p == Pow(F, w, i - 1)
      invariant forall j :: 0 <= j < dim && RevBits(j, L) < i ==> powers[j] == Pow(F, w, RevBits(j, L))
    {
      p := F.Mul(p, w);
      assert At2(w, Pow(F, w, i - 1));
      var rev := ReverseBits(i, L);
      RevTwice(i, L);
      forall j | 0 <= j < dim && RevBits(j, L) == i ensures j == rev { RevTwice(j, L); }
      powers := powers[rev := p];
      i := i + 1;
    }
  }

  lemma {:induction false} ZeroRev(L: nat)
    ensures forall j :: 0 <= j < Pow2(L) && RevBits(j, L) == 0 ==> j == 0
  {
    forall j | 0 <= j < Pow2(L) && RevBits(j, L) == 0 ensures j == 0 {
      RevTwice(j, L);
      RevOfZero(L);
    }
  }

  lemma {:induction false} RevOfZero(L: nat)
    ensures RevBits(0, L) == 0
  {
    if L != 0 { RevOfZero(L - 1); }
  }

  // ---- forward: residues modulo X^size - c ----

  // Block i of v is f modulo X^size - cs[i]: it agrees with f wherever x^size = cs[i].
  ghost predicate Residues<E(!new)>(F: Field<E>, f: seq<E>, v: seq<E>, size: nat, cs: seq<E>)
    decreases |cs|
  {
    if cs == [] then v == []
    else
      && size <= |v|
      && (forall x: E :: Pow(F, x, size) == cs[0] ==> Eval(F, v[..size], x) == Eval(F, f, x))
      && Residues(F, f, v[size..], size, cs[1..])
  }

  // w_0, -w_0, w_1, -w_1, ...
  function Split<E(!new)>(F: Field<E>, ws: seq<E>): (r: seq<E>)
    ensures |r| == 2 * |ws|
  {
    if ws == [] then [] else [ws[0], F.Neg(ws[0])] + Split(F, ws[1..])
  }

  lemma BflyHalves<E(!new)>(F: Field<E>, b: seq<E>, t: nat, w: E, x: E)
    requires F.Laws() && |b| == 2 * t
    ensures Pow(F, x, t) == w ==> Eval(F, Bfly(F, b, t, w)[..t], x) == Eval(F, b, x)
    ensures Pow(F, x, t) == F.Neg(w) ==> Eval(F, Bfly(F, b, t, w)[t..], x) == Eval(F, b, x)
  {
    var lo, hi := b[..t], b[t..];
    assert b == lo + hi;
    EvalAppend(F, lo, hi, x);
    var a, c := Eval(F, lo, x), Eval(F, hi, x);
    forall j | 0 <= j < t
      ensures F.Add(b[j], F.Mul(b[j + t], w)) == VAdd(F, lo, Scale(F, w, hi))[j]
      ensures F.Sub(b[j], F.Mul(b[j + t], w)) == VAdd(F, lo, Scale(F, F.Neg(w), hi))[j]
    {
      assert At2(b[j + t], w);
      NegLaws(F, w, b[j + t]);
    }
    assert Bfly(F, b, t, w)[..t] == VAdd(F, lo, Scale(F, w, hi));
    assert Bfly(F, b, t, w)[t..] == VAdd(F, lo, Scale(F, F.Neg(w), hi));
    EvalVAdd(F, lo, Scale(F, w, hi), x);
    EvalVAdd(F, lo, Scale(F, F.Neg(w), hi), x);
    EvalScale(F, w, hi, x);
    EvalScale(F, F.Neg(w), hi, x);
  }

  lemma SquareRoots<E(!new)>(F: Field<E>, x: E, t: nat, w: E)
    requires F.Laws() && (Pow(F, x, t) == w || Pow(F, x, t) == F.Neg(w))
    ensures Pow(F, x, 2 * t) == F.Mul(w, w)
  {
    PowAdd(F, x, t, t);
    NegLaws(F, w, w);
  }

  ghost predicate Squares<E(!new)>(F: Field<E>, ws: seq<E>, cs: seq<E>) {
    |ws| == |cs| && forall i :: 0 <= i < |ws| ==> F.Mul(ws[i], ws[i]) == cs[i]
  }

  // One stage turns residues modulo X^2t - w_i^2 into residues modulo X^t - w_i and X^t + w_i.
  lemma {:induction false} StageResidues<E(!new)>(F: Field<E>, f: seq<E>, v: seq<E>, t: nat, ws: seq<E>, cs: seq<E>)
    requires F.Laws() && Squares(F, ws, cs) && |v| == Span(t, |ws|) && Residues(F, f, v, 2 * t, cs)
    ensures Residues(F, f, Stage(F, ws, t, v), t, Split(F, ws))
    decreases |ws|
  {
    if ws != [] {
      var b, w, rest := v[..2 * t], ws[0], Stage(F, ws[1..], t, v[2 * t..]);
      var r := Bfly(F, b, t, w);
      StageResidues(F, f, v[2 * t..], t, ws[1..], cs[1..]);
      forall x: E ensures Pow(F, x, t) == w ==> Eval(F, r[..t], x) == Eval(F, f, x) {
        BflyHalves(F, b, t, w, x);
        if Pow(F, x, t) == w { SquareRoots(F, x, t, w); }
      }
      forall x: E ensures Pow(F, x, t) == F.Neg(w) ==> Eval(F, r[t..], x) == Eval(F, f, x) {
        BflyHalves(F, b, t, w, x);
        if Pow(F, x, t) == F.Neg(w) { SquareRoots(F, x, t, w); }
      }
      PairResidues(F, f, r, rest, t, w, Split(F, ws[1..]));
    }
  }

  lemma PairResidues<E(!new)>(F: Field<E>, f: seq<E>, r: seq<E>, rest: seq<E>, t: nat, w: E, cs: seq<E>)
    requires |r| == 2 * t && Residues(F, f, rest, t, cs)
    requires forall x: E :: Pow(F, x, t) == w ==> Eval(F, r[..t], x) == Eval(F, f, x)
    requires forall x: E :: Pow(F, x, t) == F.Neg(w) ==> Eval(F, r[t..], x) == Eval(F, f, x)
    ensures Residues(F, f, r + rest, t, [w, F.Neg(w)] + cs)
  {
    var v, ds := r + rest, [w, F.Neg(w)] + cs;
    assert v[..t] == r[..t] && v[t..][..t] == r[t..] && v[t..][t..] == rest;
    assert ds[1..][1..] == cs && ds[1..][0] == F.Neg(w);
    assert Residues(F, f, v[t..], t, ds[1..]);
  }

  lemma {:induction false} UnitResidues<E(!new)>(F: Field<E>, f: seq<E>, v: seq<E>, cs: seq<E>)
    requires F.Laws() && Residues(F, f, v, 1, cs)
    ensures v == Evals(F, f, cs)
    decreases |cs|
  {
    if cs != [] {
      UnitResidues(F, f, v[1..], cs[1..]);
      One(F, cs[0]);
      assert Pow(F, cs[0], 1) == F.Mul(cs[0], Pow(F, cs[0], 0)) == cs[0];
      assert v[..1] == [v[0]];
      EvalConst(F, v[0], cs[0]);
      assert v == [v[0]] + v[1..];
      assert Evals(F, f, cs) == [Eval(F, f, cs[0])] + Evals(F, f, cs[1..]);
    }
  }

  // The moduli in front of the stage that leaves k - 1 more to do.
  function Moduli<E(!new)>(F: Field<E>, powers: seq<E>, m: nat): (cs: seq<E>)
    requires 2 * m <= |powers|
    ensures |cs| == m
  {
    seq(m, i requires 0 <= i < m => F.Mul(powers[m + i], powers[m + i]))
  }

  lemma ModuliAreSquares<E(!new)>(F: Field<E>, powers: seq<E>, m: nat)
    requires 2 * m <= |powers|
    ensures Squares(F, powers[m..2 * m], Moduli(F, powers, m))
  {
  }

  // The points at which the whole transform evaluates.
  function Points<E(!new)>(F: Field<E>, psi: E, L: nat): (pts: seq<E>)
    ensures |pts| == Pow2(L)
  {
    seq(Pow2(L), i requires 0 <= i < Pow2(L) => Pow(F, psi, 2 * RevBits(i, L) + 1))
  }

  ghost predicate Root<E(!new)>(F: Field<E>, psi: E, L: nat) {
    Pow(F, psi, Pow2(L)) == F.Neg(F.one)
  }

  lemma RevFamily(j: nat, L: nat)
    requires L >= 1 && 2 * j + 1 < Pow2(L)
    ensures RevBits(2 * j, L) == RevBits(j, L - 1) && RevBits(2 * j + 1, L) == Pow2(L - 1) + RevBits(j, L - 1)
    ensures RevBits(j, L) == 2 * RevBits(j, L - 1)
  {
    RevDouble(j, L - 1);
    RevLow(j, L - 1);
  }

  // What becomes of the twiddles w_j, -w_j in the next stage: squares of entries 2j and 2j+1.
  lemma ChildSquares<E(!new)>(F: Field<E>, psi: E, L: nat, powers: seq<E>, j: nat)
    requires F.Laws() && Root(F, psi, L) && IsTable(F, psi, L, powers) && L >= 1 && 2 * j + 1 < Pow2(L)
    ensures F.Mul(powers[2 * j], powers[2 * j]) == powers[j]
    ensures F.Mul(powers[2 * j + 1], powers[2 * j + 1]) == F.Neg(powers[j])
  {
    hide RevBits, Pow, Root, Pow2;
    var r := RevBits(j, L - 1);
    RevFamily(j, L);
    PowAdd(F, psi, r, r);
    SquareOfOdd(F, psi, L, r);
  }

  lemma SquareOfOdd<E(!new)>(F: Field<E>, psi: E, L: nat, r: nat)
    requires F.Laws() && Root(F, psi, L) && L >= 1
    ensures var p := Pow(F, psi, Pow2(L - 1) + r);
            F.Mul(p, p) == F.Neg(Pow(F, psi, 2 * r))
  {
    var n, q := Pow2(L - 1), Pow(F, psi, 2 * r);
    PowAdd(F, psi, n + r, n + r);
    PowAdd(F, psi, 2 * n, 2 * r);
    NegLaws(F, F.one, q);
    One(F, q);
  }

  lemma {:induction false} SplitIndex<E(!new)>(F: Field<E>, ws: seq<E>, i: nat)
    requires i < |ws|
    ensures Split(F, ws)[2 * i] == ws[i] && Split(F, ws)[2 * i + 1] == F.Neg(ws[i])
  {
    if i > 0 { SplitIndex(F, ws[1..], i - 1); }
  }

  lemma NextModuli<E(!new)>(F: Field<E>, psi: E, L: nat, powers: seq<E>, m: nat)
    requires F.Laws() && Root(F, psi, L) && IsTable(F, psi, L, powers) && L >= 1 && 1 <= m && 4 * m <= Pow2(L)
    ensures Split(F, powers[m..2 * m]) == Moduli(F, powers, 2 * m)
  {
    hide Split, RevBits, Root;
    var ws := powers[m..2 * m];
    forall i | 0 <= i < 2 * m ensures Split(F, ws)[i] == Moduli(F, powers, 2 * m)[i] {
      SplitIndex(F, ws, i / 2);
      ChildSquares(F, psi, L, powers, m + i / 2);
      assert i == 2 * (i / 2) || i == 2 * (i / 2) + 1;
    }
  }

  lemma NegPow<E(!new)>(F: Field<E>, psi: E, L: nat, e: nat)
    requires F.Laws() && Root(F, psi, L)
    ensures Pow(F, psi, Pow2(L) + e) == F.Neg(Pow(F, psi, e))
  {
    PowAdd(F, psi, Pow2(L), e);
    NegLaws(F, F.one, Pow(F, psi, e));
    One(F, Pow(F, psi, e));
  }

  lemma LastRevs(i: nat, L: nat)
    requires L >= 1 && i < Pow2(L - 1)
    ensures RevBits(Pow2(L - 1) + i, L) == 2 * RevBits(2 * i, L) + 1
    ensures Pow2(L) + RevBits(Pow2(L - 1) + i, L) == 2 * RevBits(2 * i + 1, L) + 1
  {
    hide RevBits;
    RevHigh(i, L - 1);
    RevDouble(i, L - 1);
  }

  lemma LastPointPair<E(!new)>(F: Field<E>, psi: E, L: nat, i: nat)
    requires F.Laws() && Root(F, psi, L) && L >= 1 && i < Pow2(L - 1)
    ensures Pow(F, psi, RevBits(Pow2(L - 1) + i, L)) == Pow(F, psi, 2 * RevBits(2 * i, L) + 1)
    ensures F.Neg(Pow(F, psi, RevBits(Pow2(L - 1) + i, L))) == Pow(F, psi, 2 * RevBits(2 * i + 1, L) + 1)
  {
    LastRevs(i, L);
    NegPow(F, psi, L, RevBits(Pow2(L - 1) + i, L));
  }

  lemma LastPoint<E(!new)>(F: Field<E>, psi: E, L: nat, powers: seq<E>, m: nat, i: nat)
    requires F.Laws() && Root(F, psi, L) && IsTable(F, psi, L, powers) && L >= 1 && m == Pow2(L - 1)
    requires 2 * m == Pow2(L) && i < 2 * m
    ensures Split(F, powers[m..2 * m])[i] == Points(F, psi, L)[i]
  {
    hide Split, RevBits, Pow, Root, Pow2;
    var j, ws := i / 2, powers[m..2 * m];
    SplitIndex(F, ws, j);
    LastPointPair(F, psi, L, j);
    assert ws[j] == powers[m + j];
    assert i == 2 * j || i == 2 * j + 1;
  }

  lemma LastPoints<E(!new)>(F: Field<E>, psi: E, L: nat, powers: seq<E>, m: nat)
    requires F.Laws() && Root(F, psi, L) && IsTable(F, psi, L, powers) && L >= 1 && m == Pow2(L - 1)
    ensures 2 * m == Pow2(L) && Split(F, powers[m..2 * m]) == Points(F, psi, L)
  {
    assert 2 * m == Pow2(L);
    hide Split, RevBits, Pow, Root, Pow2, IsTable, Points;
    var ws, pts := powers[m..2 * m], Points(F, psi, L);
    forall i | 0 <= i < 2 * m ensures Split(F, ws)[i] == pts[i] {
      LastPoint(F, psi, L, powers, m, i);
    }
  }

  lemma {:induction false} ForwardResidues<E(!new)>(F: Field<E>, psi: E, L: nat, powers: seq<E>, f: seq<E>, k: nat,
                                                    v: seq<E>)
    requires F.Laws() && Root(F, psi, L) && IsTable(F, psi, L, powers) && 1 <= k <= L && |v| == Pow2(L)
    requires 2 * Pow2(L - k) <= Pow2(L) && Residues(F, f, v, Pow2(k), Moduli(F, powers, Pow2(L - k)))
    ensures Forward(F, powers, L, k, v) == Evals(F, f, Points(F, psi, L))
    decreases k
  {
    hide Stage, Residues, Points, Moduli, Split, RevBits, Pow;
    var m, t := Pow2(L - k), Pow2(k - 1);
    var ws := powers[m..2 * m];
    Halves(L, k);
    ForwardStep(F, powers, L, k, v);
    assert Squares(F, ws, Moduli(F, powers, m)) by { ModuliAreSquares(F, powers, m); }
    var v' := Stage(F, ws, t, v);
    StageResidues(F, f, v, t, ws, Moduli(F, powers, m));
    if k == 1 {
      LastPoints(F, psi, L, powers, m);
      UnitResidues(F, f, v', Points(F, psi, L));
    } else {
      Halves(L, k - 1);
      NextModuli(F, psi, L, powers, m);
      ForwardResidues(F, psi, L, powers, f, k - 1, v');
    }
  }

  /** The forward transform leaves f(psi^(2 rev(i) + 1)) at index i, for every size. */
  lemma ForwardEvaluates<E(!new)>(F: Field<E>, psi: E, L: nat, powers: seq<E>, f: seq<E>)
    requires F.Laws() && Root(F, psi, L) && IsTable(F, psi, L, powers) && |f| == Pow2(L)
    ensures Forward(F, powers, L, L, f) == Evals(F, f, Points(F, psi, L))
  {
    if L == 0 {
      assert f == [f[0]];
      EvalConst(F, f[0], Points(F, psi, 0)[0]);
    } else {
      var cs := Moduli(F, powers, 1);
      assert |f| >= 2 by { Pow2Monotone(1, L); }
      assert Residues(F, f, f, Pow2(L), cs) by {
        assert f[..Pow2(L)] == f && f[Pow2(L)..] == [] && cs[1..] == [];
      }
      ForwardResidues(F, psi, L, powers, f, L, f);
    }
  }
}
