/** Polynomials as coefficient sequences, lowest degree first: the root bound behind every
    counting theorem of the project, and Lagrange interpolation behind every conversion. */
module Polynomials {
  import opened Algebra

  function Eval<E(!new)>(F: Field<E>, c: seq<E>, x: E): E {
    if c == [] then F.zero else F.Add(c[0], F.Mul(x, Eval(F, c[1..], x)))
  }

  function Evals<E(!new)>(F: Field<E>, c: seq<E>, pts: seq<E>): (r: seq<E>)
    ensures |r| == |pts|
  {
    seq(|pts|, i requires 0 <= i < |pts| => Eval(F, c, pts[i]))
  }

  function PAdd<E(!new)>(F: Field<E>, c: seq<E>, d: seq<E>): (r: seq<E>)
    ensures |r| == if |c| <= |d| then |d| else |c|
  {
    if c == [] then d
    else if d == [] then c
    else [F.Add(c[0], d[0])] + PAdd(F, c[1..], d[1..])
  }

  function PMul<E(!new)>(F: Field<E>, c: seq<E>, d: seq<E>): (r: seq<E>)
    ensures c != [] && d != [] ==> |r| == |c| + |d| - 1
  {
    if c == [] then [] else PAdd(F, Scale(F, c[0], d), [F.zero] + PMul(F, c[1..], d))
  }

  lemma EvalCons<E(!new)>(F: Field<E>, a: E, c: seq<E>, x: E)
    ensures Eval(F, [a] + c, x) == F.Add(a, F.Mul(x, Eval(F, c, x)))
  {
    assert ([a] + c)[1..] == c;
  }

  lemma {:induction false} EvalAdd<E(!new)>(F: Field<E>, c: seq<E>, d: seq<E>, x: E)
    requires F.Laws()
    ensures Eval(F, PAdd(F, c, d), x) == F.Add(Eval(F, c, x), Eval(F, d, x))
  {
    if c == [] {
      Zero(F, Eval(F, d, x));
    } else if d == [] {
      Zero(F, Eval(F, c, x));
    } else {
      EvalAdd(F, c[1..], d[1..], x);
      EvalCons(F, F.Add(c[0], d[0]), PAdd(F, c[1..], d[1..]), x);
      AddParts(F, c[0], d[0], x, Eval(F, c[1..], x), Eval(F, d[1..], x));
    }
  }

  lemma AddParts<E(!new)>(F: Field<E>, a: E, b: E, x: E, s: E, t: E)
    requires F.Laws()
    ensures F.Add(F.Add(a, b), F.Mul(x, F.Add(s, t))) == F.Add(F.Add(a, F.Mul(x, s)), F.Add(b, F.Mul(x, t)))
  {
    Ring(F);
  }

  lemma {:induction false} EvalScale<E(!new)>(F: Field<E>, a: E, c: seq<E>, x: E)
    requires F.Laws()
    ensures Eval(F, Scale(F, a, c), x) == F.Mul(a, Eval(F, c, x))
  {
    if c == [] {
      Zero(F, a);
    } else {
      assert Scale(F, a, c)[1..] == Scale(F, a, c[1..]);
      EvalScale(F, a, c[1..], x);
      var s := Eval(F, c[1..], x);
      assert F.Add(F.Mul(a, c[0]), F.Mul(x, F.Mul(a, s))) == F.Mul(a, F.Add(c[0], F.Mul(x, s))) by { Ring(F); }
    }
  }

  lemma {:induction false} EvalMul<E(!new)>(F: Field<E>, c: seq<E>, d: seq<E>, x: E)
    requires F.Laws()
    ensures Eval(F, PMul(F, c, d), x) == F.Mul(Eval(F, c, x), Eval(F, d, x))
  {
    var v := Eval(F, d, x);
    if c == [] {
      Zero(F, v);
    } else {
      var p := PMul(F, c[1..], d);
      EvalAdd(F, Scale(F, c[0], d), [F.zero] + p, x);
      EvalScale(F, c[0], d, x);
      EvalCons(F, F.zero, p, x);
      EvalMul(F, c[1..], d, x);
      Zero(F, F.Mul(x, Eval(F, p, x)));
      var s := Eval(F, c[1..], x);
      assert F.Add(F.Mul(c[0], v), F.Mul(x, F.Mul(s, v))) == F.Mul(F.Add(c[0], F.Mul(x, s)), v) by { Ring(F); }
    }
  }

  lemma {:induction false} EvalAppend<E(!new)>(F: Field<E>, c: seq<E>, d: seq<E>, x: E)
    requires F.Laws()
    ensures Eval(F, c + d, x) == F.Add(Eval(F, c, x), F.Mul(Pow(F, x, |c|), Eval(F, d, x)))
  {
    var v := Eval(F, d, x);
    if c == [] {
      assert c + d == d;
      One(F, v);
      Zero(F, v);
    } else {
      assert (c + d)[1..] == c[1..] + d;
      EvalAppend(F, c[1..], d, x);
      var s, q := Eval(F, c[1..], x), Pow(F, x, |c| - 1);
      assert F.Add(c[0], F.Mul(x, F.Add(s, F.Mul(q, v)))) == F.Add(F.Add(c[0], F.Mul(x, s)), F.Mul(F.Mul(x, q), v))
        by { Ring(F); }
    }
  }

  // Stretching the argument is rescaling the coefficients by powers.
  function Stretch<E(!new)>(F: Field<E>, c: seq<E>, a: E): (r: seq<E>)
    ensures |r| == |c|
  {
    seq(|c|, i requires 0 <= i < |c| => F.Mul(c[i], Pow(F, a, i)))
  }

  lemma {:induction false} EvalStretch<E(!new)>(F: Field<E>, c: seq<E>, a: E, x: E)
    requires F.Laws()
    ensures Eval(F, Stretch(F, c, a), x) == Eval(F, c, F.Mul(a, x))
  {
    if c != [] {
      var t := Stretch(F, c[1..], a);
      assert Stretch(F, c, a)[1..] == Scale(F, a, t) by {
        forall i | 0 <= i < |c| - 1
          ensures F.Mul(c[i + 1], Pow(F, a, i + 1)) == F.Mul(a, F.Mul(c[1..][i], Pow(F, a, i)))
        {
          MulLaws(F);
        }
      }
      EvalScale(F, a, t, x);
      EvalStretch(F, c[1..], a, x);
      One(F, c[0]);
      var s := Eval(F, c[1..], F.Mul(a, x));
      assert F.Mul(x, F.Mul(a, s)) == F.Mul(F.Mul(a, x), s) by { MulLaws(F); }
    }
  }

  // ---- roots ----

  // Synthetic division of `c` by X - a.
  function Quot<E(!new)>(F: Field<E>, c: seq<E>, a: E): (q: seq<E>)
    requires c != []
    ensures |q| == |c| - 1
  {
    if |c| == 1 then [] else [Eval(F, c[1..], a)] + Quot(F, c[1..], a)
  }

  // c(x) - c(a) = (x - a) * q(x), written without subtraction.
  lemma {:induction false} QuotExact<E(!new)>(F: Field<E>, c: seq<E>, a: E, x: E)
    requires F.Laws() && c != []
    ensures var q := Eval(F, Quot(F, c, a), x);
            F.Add(Eval(F, c, x), F.Mul(a, q)) == F.Add(Eval(F, c, a), F.Mul(x, q))
  {
    if |c| == 1 {
      Zero(F, a);
      Zero(F, x);
      assert Eval(F, c[1..], x) == F.zero == Eval(F, c[1..], a);
    } else {
      QuotExact(F, c[1..], a, x);
      var q, ta, tx := Eval(F, Quot(F, c[1..], a), x), Eval(F, c[1..], a), Eval(F, c[1..], x);
      EvalCons(F, ta, Quot(F, c[1..], a), x);
      QuotStep(F, c[0], a, x, ta, tx, q);
    }
  }

  lemma QuotStep<E(!new)>(F: Field<E>, c0: E, a: E, x: E, ta: E, tx: E, q: E)
    requires F.Laws() && F.Add(tx, F.Mul(a, q)) == F.Add(ta, F.Mul(x, q))
    ensures var q' := F.Add(ta, F.Mul(x, q));
            F.Add(F.Add(c0, F.Mul(x, tx)), F.Mul(a, q')) == F.Add(F.Add(c0, F.Mul(a, ta)), F.Mul(x, q'))
  {
    assert F.Add(F.Add(c0, F.Mul(x, tx)), F.Mul(a, F.Add(ta, F.Mul(x, q))))
        == F.Add(F.Add(c0, F.Mul(a, ta)), F.Mul(x, F.Add(tx, F.Mul(a, q)))) by { Ring(F); }
  }

  lemma QuotRoot<E(!new)>(F: Field<E>, c: seq<E>, a: E, r: E)
    requires F.Laws() && c != [] && a != r
    requires Eval(F, c, a) == F.zero == Eval(F, c, r)
    ensures Eval(F, Quot(F, c, a), r) == F.zero
  {
    var q := Eval(F, Quot(F, c, a), r);
    QuotExact(F, c, a, r);
    Zero(F, F.Mul(a, q));
    Zero(F, F.Mul(r, q));
    if q != F.zero { MulCancel(F, a, r, q); }
  }

  /** A polynomial with at least as many roots as coefficients vanishes everywhere. */
  lemma {:induction false} RootBound<E(!new)>(F: Field<E>, c: seq<E>, roots: set<E>, x: E)
    requires F.Laws() && |c| <= |roots|
    requires forall r :: r in roots ==> Eval(F, c, r) == F.zero
    ensures Eval(F, c, x) == F.zero
    decreases |c|
  {
    if c != [] {
      var a :| a in roots;
      var q := Quot(F, c, a);
      forall r | r in roots - {a} ensures Eval(F, q, r) == F.zero { QuotRoot(F, c, a, r); }
      RootBound(F, q, roots - {a}, x);
      QuotExact(F, c, a, x);
      Zero(F, a);
      Zero(F, x);
      Zero(F, F.zero);
      Zero(F, Eval(F, c, x));
    }
  }

  function Difference<E(!new)>(F: Field<E>, c: seq<E>, d: seq<E>): (r: seq<E>)
    ensures |r| == if |c| <= |d| then |d| else |c|
  {
    PAdd(F, c, Scale(F, F.Neg(F.one), d))
  }

  lemma EvalDifference<E(!new)>(F: Field<E>, c: seq<E>, d: seq<E>, x: E)
    requires F.Laws()
    ensures Eval(F, Difference(F, c, d), x) == F.Sub(Eval(F, c, x), Eval(F, d, x))
  {
    EvalAdd(F, c, Scale(F, F.Neg(F.one), d), x);
    EvalScale(F, F.Neg(F.one), d, x);
    NegLaws(F, F.one, Eval(F, d, x));
    One(F, Eval(F, d, x));
  }

  /** Polynomials of at most n coefficients that agree at n points agree everywhere; so two that
      differ anywhere agree at fewer points than the longer has coefficients. */
  lemma AgreeEverywhere<E(!new)>(F: Field<E>, c: seq<E>, d: seq<E>, pts: set<E>, x: E)
    requires F.Laws() && |c| <= |pts| && |d| <= |pts|
    requires forall r :: r in pts ==> Eval(F, c, r) == Eval(F, d, r)
    ensures Eval(F, c, x) == Eval(F, d, x)
  {
    var e := Difference(F, c, d);
    forall r | r in pts ensures Eval(F, e, r) == F.zero {
      EvalDifference(F, c, d, r);
      SubLaws(F, Eval(F, c, r), Eval(F, d, r));
    }
    RootBound(F, e, pts, x);
    EvalDifference(F, c, d, x);
    SubLaws(F, Eval(F, c, x), Eval(F, d, x));
  }

  lemma {:induction false} EvalZeros<E(!new)>(F: Field<E>, n: nat, d: E)
    requires F.Laws()
    ensures Eval(F, Zeros(F, n), d) == F.zero
  {
    if n != 0 {
      assert Zeros(F, n)[1..] == Zeros(F, n - 1);
      EvalZeros(F, n - 1, d);
      Zero(F, d);
      Zero(F, F.zero);
    }
  }

  lemma {:induction false} EvalVAdd<E(!new)>(F: Field<E>, s: seq<E>, t: seq<E>, d: E)
    requires F.Laws() && |s| == |t|
    ensures Eval(F, VAdd(F, s, t), d) == F.Add(Eval(F, s, d), Eval(F, t, d))
  {
    if s == [] {
      Zero(F, F.zero);
    } else {
      EvalVAdd(F, s[1..], t[1..], d);
      assert VAdd(F, s, t)[1..] == VAdd(F, s[1..], t[1..]);
      AddParts(F, s[0], t[0], d, Eval(F, s[1..], d), Eval(F, t[1..], d));
    }
  }

  lemma QuotLeads<E(!new)>(F: Field<E>, c: seq<E>, a: E)
    requires F.Laws() && |c| >= 2
    ensures Quot(F, c, a)[|c| - 2] == c[|c| - 1]
  {
    if |c| == 2 {
      assert c[1..] == [c[1]] && Quot(F, c, a) == [Eval(F, [c[1]], a)];
      EvalConst(F, c[1], a);
    } else {
      QuotLeads(F, c[1..], a);
      assert Quot(F, c, a) == [Eval(F, c[1..], a)] + Quot(F, c[1..], a);
    }
  }

  /** A polynomial with as many roots as coefficients has leading coefficient zero. */
  lemma {:induction false} LeadingZero<E(!new)>(F: Field<E>, c: seq<E>, roots: set<E>)
    requires F.Laws() && 1 <= |c| <= |roots|
    requires forall r :: r in roots ==> Eval(F, c, r) == F.zero
    ensures c[|c| - 1] == F.zero
    decreases |c|
  {
    var a :| a in roots;
    if |c| == 1 {
      assert c == [c[0]];
      EvalConst(F, c[0], a);
    } else {
      forall r | r in roots - {a} ensures Eval(F, Quot(F, c, a), r) == F.zero { QuotRoot(F, c, a, r); }
      LeadingZero(F, Quot(F, c, a), roots - {a});
      QuotLeads(F, c, a);
    }
  }

  // Trailing zeros do not matter.
  lemma Trimmed<E(!new)>(F: Field<E>, c: seq<E>, k: nat, x: E)
    requires F.Laws() && k <= |c| && forall i :: k <= i < |c| ==> c[i] == F.zero
    ensures Eval(F, c, x) == Eval(F, c[..k], x)
  {
    assert c == c[..k] + Zeros(F, |c| - k);
    EvalAppend(F, c[..k], Zeros(F, |c| - k), x);
    EvalZeros(F, |c| - k, x);
    Zero(F, Pow(F, x, k));
    Zero(F, Eval(F, c[..k], x));
  }

  /** A polynomial with as many roots as coefficients is zero. */
  lemma {:induction false} AllZero<E(!new)>(F: Field<E>, c: seq<E>, roots: set<E>)
    requires F.Laws() && |c| <= |roots| && forall r :: r in roots ==> Eval(F, c, r) == F.zero
    ensures forall i :: 0 <= i < |c| ==> c[i] == F.zero
    decreases |c|
  {
    if c != [] {
      var n := |c| - 1;
      LeadingZero(F, c, roots);
      forall r | r in roots ensures Eval(F, c[..n], r) == F.zero { Trimmed(F, c, n, r); }
      AllZero(F, c[..n], roots);
    }
  }

  // ---- products of linear factors ----

  // (x - r_0) * (x - r_1) * ...
  function RootProd<E(!new)>(F: Field<E>, roots: seq<E>, x: E): E {
    if roots == [] then F.one else F.Mul(F.Sub(x, roots[0]), RootProd(F, roots[1..], x))
  }

  // Coefficient j of c * (m + x * X).
  function MulLinAt<E(!new)>(F: Field<E>, c: seq<E>, m: E, x: E, j: nat): E
    requires c != [] && j <= |c|
  {
    if j == 0 then F.Mul(c[0], m)
    else if j < |c| then F.Add(F.Mul(c[j], m), F.Mul(c[j - 1], x))
    else F.Mul(c[j - 1], x)
  }

  function MulLin<E(!new)>(F: Field<E>, c: seq<E>, m: E, x: E): (r: seq<E>)
    requires c != []
    ensures |r| == |c| + 1
  {
    seq(|c| + 1, j requires 0 <= j <= |c| => MulLinAt(F, c, m, x, j))
  }

  lemma {:induction false} EvalMulLin<E(!new)>(F: Field<E>, c: seq<E>, m: E, x: E, d: E)
    requires F.Laws() && c != []
    ensures Eval(F, MulLin(F, c, m, x), d) == F.Mul(Eval(F, c, d), F.Add(m, F.Mul(x, d)))
  {
    var r := MulLin(F, c, m, x);
    if |c| == 1 {
      assert r == [F.Mul(c[0], m)] + [F.Mul(c[0], x)];
      EvalCons(F, F.Mul(c[0], m), [F.Mul(c[0], x)], d);
      EvalConst(F, F.Mul(c[0], x), d);
      assert c == [c[0]];
      EvalConst(F, c[0], d);
      assert F.Add(F.Mul(c[0], m), F.Mul(d, F.Mul(c[0], x))) == F.Mul(c[0], F.Add(m, F.Mul(x, d))) by { Ring(F); }
    } else {
      var t := MulLin(F, c[1..], m, x);
      var u := [F.Add(t[0], F.Mul(c[0], x))] + t[1..];
      assert r[1..] == u;
      EvalMulLin(F, c[1..], m, x, d);
      var tv, cv := Eval(F, t[1..], d), Eval(F, c[1..], d);
      EvalCons(F, F.Add(t[0], F.Mul(c[0], x)), t[1..], d);
      MulLinStep(F, c[0], m, x, d, t[0], tv, cv);
    }
  }

  lemma MulLinStep<E(!new)>(F: Field<E>, c0: E, m: E, x: E, d: E, t0: E, tv: E, cv: E)
    requires F.Laws() && F.Add(t0, F.Mul(d, tv)) == F.Mul(cv, F.Add(m, F.Mul(x, d)))
    ensures F.Add(F.Mul(c0, m), F.Mul(d, F.Add(F.Add(t0, F.Mul(c0, x)), F.Mul(d, tv))))
         == F.Mul(F.Add(c0, F.Mul(d, cv)), F.Add(m, F.Mul(x, d)))
  {
    var k := F.Add(m, F.Mul(x, d));
    assert F.Add(F.Mul(c0, m), F.Mul(d, F.Add(F.Add(t0, F.Mul(c0, x)), F.Mul(d, tv))))
        == F.Add(F.Mul(c0, k), F.Mul(d, F.Add(t0, F.Mul(d, tv)))) by { Ring(F); }
    assert F.Add(F.Mul(c0, k), F.Mul(d, F.Mul(cv, k))) == F.Mul(F.Add(c0, F.Mul(d, cv)), k) by { Ring(F); }
  }

  function RootPoly<E(!new)>(F: Field<E>, roots: seq<E>): (c: seq<E>)
    ensures |c| == |roots| + 1
  {
    if roots == [] then [F.one] else MulLin(F, RootPoly(F, roots[1..]), F.Neg(roots[0]), F.one)
  }

  lemma {:induction false} EvalRootPoly<E(!new)>(F: Field<E>, roots: seq<E>, x: E)
    requires F.Laws()
    ensures Eval(F, RootPoly(F, roots), x) == RootProd(F, roots, x)
  {
    if roots == [] {
      EvalConst(F, F.one, x);
    } else {
      var c, n := RootPoly(F, roots[1..]), F.Neg(roots[0]);
      EvalMulLin(F, c, n, F.one, x);
      EvalRootPoly(F, roots[1..], x);
      One(F, x);
      assert At2(n, x) && At2(Eval(F, c, x), F.Add(n, x));
    }
  }

  lemma {:induction false} RootPolyMonic<E(!new)>(F: Field<E>, roots: seq<E>)
    requires F.Laws()
    ensures RootPoly(F, roots)[|roots|] == F.one
  {
    if roots != [] {
      RootPolyMonic(F, roots[1..]);
      One(F, F.one);
    }
  }

  lemma EvalConst<E(!new)>(F: Field<E>, a: E, x: E)
    requires F.Laws()
    ensures Eval(F, [a], x) == a
  {
    assert [a] == [a] + [];
    EvalCons(F, a, [], x);
    Zero(F, x);
    Zero(F, a);
  }

  lemma {:induction false} RootProdZero<E(!new)>(F: Field<E>, roots: seq<E>, x: E)
    requires F.Laws()
    ensures RootProd(F, roots, x) == F.zero <==> x in roots
  {
    if roots != [] {
      var a, b := F.Sub(x, roots[0]), RootProd(F, roots[1..], x);
      RootProdZero(F, roots[1..], x);
      SubLaws(F, x, roots[0]);
      Zero(F, a);
      Zero(F, b);
      if F.Mul(a, b) == F.zero { NoZeroDivisors(F, a, b); }
    }
  }

  lemma {:induction false} RootProdAppend<E(!new)>(F: Field<E>, s: seq<E>, t: seq<E>, x: E)
    requires F.Laws()
    ensures RootProd(F, s + t, x) == F.Mul(RootProd(F, s, x), RootProd(F, t, x))
  {
    if s == [] {
      assert s + t == t;
      One(F, RootProd(F, t, x));
    } else {
      assert (s + t)[1..] == s[1..] + t;
      RootProdAppend(F, s[1..], t, x);
      assert At3(F.Sub(x, s[0]), RootProd(F, s[1..], x), RootProd(F, t, x));
    }
  }

  lemma RootProdSnoc<E(!new)>(F: Field<E>, s: seq<E>, r: E, x: E)
    requires F.Laws()
    ensures RootProd(F, s + [r], x) == F.Mul(RootProd(F, s, x), F.Sub(x, r))
  {
    RootProdAppend(F, s, [r], x);
    assert RootProd(F, [r], x) == F.Mul(F.Sub(x, r), RootProd(F, [r][1..], x));
    One(F, F.Sub(x, r));
  }
}
