/** What arbitrary values from the prover leave behind. The code never checks that the n values of a
    batch are a packing of degree k - 1: the wires are then the values of their interpolant at the
    secret points, and their MACs hold for every sharing of the keys exactly if it was one. */
module PackedExact {
  import opened Algebra
  import opened Polynomials
  import opened Interpolation
  import opened AuthShares
  import opened PackedPoly
  import opened PackedAuth

  // The values at the party points of a polynomial with k coefficients.
  ghost predicate IsPacking<E(!new)>(F: Field<E>, from: seq<E>, k: nat, s: seq<E>) {
    exists c: seq<E> :: |c| == k && Evals(F, c, from) == s
  }

  // The MAC of slot x comes out right for one sharing of one key ...
  ghost predicate MacRight<E(!new)>(F: Field<E>, from: seq<E>, x: E, s: seq<E>, key: E, v: seq<E>)
    requires |s| == |v| == |from|
  {
    ValueAt(F, from, Hadamard(F, s, v), x) == F.Mul(ValueAt(F, from, s, x), key)
  }

  // ... and for all of them.
  ghost predicate MacAlwaysRight<E(!new)>(F: Field<E>, from: seq<E>, k: nat, x: E, s: seq<E>)
    requires |s| == |from| && k <= |from|
  {
    forall key: E, v: seq<E> :: |v| == |from| && SharesKey(F, from, |from| - k, x, key, v) ==> MacRight(F, from, x, s,
        key, v)
  }

  lemma PackingIsRight<E(!new)>(F: Field<E>, from: seq<E>, k: nat, x: E, s: seq<E>, key: E, v: seq<E>)
    requires F.Laws() && Distinct(from) && 1 <= k <= |from| == |s| == |v|
    requires IsPacking(F, from, k, s) && SharesKey(F, from, |from| - k, x, key, v)
    ensures MacRight(F, from, x, s, key, v)
  {
    var c :| |c| == k && Evals(F, c, from) == s;
    var d :| |d| == |from| - k + 1 && Evals(F, d, from) == v && Eval(F, d, x) == key;
    var e := PMul(F, c, d);
    forall i | 0 <= i < |from| ensures Evals(F, e, from)[i] == Hadamard(F, s, v)[i] { EvalMul(F, c, d, from[i]); }
    assert Evals(F, e, from) == Hadamard(F, s, v);
    LagrangeExact(F, e, from, x);
    LagrangeExact(F, c, from, x);
    EvalMul(F, c, d, x);
  }

  // ---- a polynomial of higher degree ----

  // The last nonzero coefficient from position k on, if there is one.
  lemma {:induction false} TopOf<E(!new)>(F: Field<E>, c: seq<E>, k: nat) returns (e: nat)
    requires k <= |c|
    ensures k <= e <= |c| && (e > k ==> c[e - 1] != F.zero) && forall i :: e <= i < |c| ==> c[i] == F.zero
  {
    if |c| == k || c[|c| - 1] != F.zero {
      e := |c|;
    } else {
      e := TopOf(F, c[..|c| - 1], k);
    }
  }

  // X^s * f * (X - x)
  function Raised<E(!new)>(F: Field<E>, f: seq<E>, s: nat, x: E): (r: seq<E>)
    requires f != []
    ensures |r| == s + |f| + 1
  {
    MulLin(F, Zeros(F, s) + f, F.Neg(x), F.one)
  }

  lemma RaisedValue<E(!new)>(F: Field<E>, f: seq<E>, s: nat, x: E, p: E)
    requires F.Laws() && f != []
    ensures Eval(F, Raised(F, f, s, x), p) == F.Mul(F.Mul(Pow(F, p, s), Eval(F, f, p)), F.Sub(p, x))
    ensures Raised(F, f, s, x)[s + |f|] == f[|f| - 1]
  {
    EvalMulLin(F, Zeros(F, s) + f, F.Neg(x), F.one, p);
    EvalAppend(F, Zeros(F, s), f, p);
    EvalZeros(F, s, p);
    var v := F.Mul(Pow(F, p, s), Eval(F, f, p));
    Zero(F, v);
    One(F, p);
    One(F, f[|f| - 1]);
    assert At2(F.Neg(x), p);
  }

  // With the vanishing polynomial of the party points taken off, it can be read off there.
  lemma ReadOffTop<E(!new)>(F: Field<E>, from: seq<E>, x: E, t: seq<E>)
    requires F.Laws() && Distinct(from) && |t| == |from| + 1 && Eval(F, t, x) == F.zero
    ensures ValueAt(F, from, Evals(F, t, from), x) == F.Neg(F.Mul(t[|from|], RootProd(F, from, x)))
  {
    var n, a := |from|, F.Neg(t[|from|]);
    var z := RootPoly(F, from);
    var d := VAdd(F, t, Scale(F, a, z));
    RootPolyMonic(F, from);
    One(F, a);
    assert At1(t[n]);
    assert d[n] == F.zero;
    forall p ensures Eval(F, d[..n], p) == F.Add(Eval(F, t, p), F.Mul(a, RootProd(F, from, p))) {
      Trimmed(F, d, n, p);
      EvalVAdd(F, t, Scale(F, a, z), p);
      EvalScale(F, a, z, p);
      EvalRootPoly(F, from, p);
    }
    forall i | 0 <= i < n ensures Evals(F, d[..n], from)[i] == Evals(F, t, from)[i] {
      RootProdZero(F, from, from[i]);
      Zero(F, a);
      Zero(F, Eval(F, t, from[i]));
    }
    assert Evals(F, d[..n], from) == Evals(F, t, from);
    LagrangeExact(F, d[..n], from, x);
    Zero(F, F.Mul(a, RootProd(F, from, x)));
    NegLaws(F, t[n], RootProd(F, from, x));
  }

  // The local products with the sharing of the key 0 are the values of the raised polynomial.
  lemma ProductsAreRaised<E(!new)>(F: Field<E>, from: seq<E>, c: seq<E>, shift: nat, pad: nat, x: E)
    requires F.Laws() && c != []
    ensures Hadamard(F, Evals(F, c, from), Evals(F, KeyPoly(F, shift, pad, x), from))
         == Evals(F, Raised(F, c, shift, x), from)
  {
    hide KeyPoly, Raised;
    var l := Hadamard(F, Evals(F, c, from), Evals(F, KeyPoly(F, shift, pad, x), from));
    var r := Evals(F, Raised(F, c, shift, x), from);
    forall i | 0 <= i < |from| ensures l[i] == r[i] {
      var p := from[i];
      KeyZero(F, x, shift, pad, p);
      RaisedValue(F, c, shift, x, p);
      Regrouped(F, Eval(F, c, p), Pow(F, p, shift), F.Sub(p, x));
    }
  }

  lemma Regrouped<E(!new)>(F: Field<E>, a: E, b: E, g: E)
    requires F.Laws()
    ensures F.Mul(a, F.Mul(b, g)) == F.Mul(F.Mul(b, a), g)
  {
    MulLaws(F);
  }

  // A sharing polynomial of the key 0 at x.
  function KeyPoly<E(!new)>(F: Field<E>, shift: nat, pad: nat, x: E): (r: seq<E>)
    ensures |r| == shift + 2 + pad
  {
    Raised(F, [F.one], shift, x) + Zeros(F, pad)
  }

  lemma KeyIsZero<E(!new)>(F: Field<E>, from: seq<E>, shift: nat, pad: nat, x: E)
    requires F.Laws()
    ensures SharesKey(F, from, shift + 1 + pad, x, F.zero, Evals(F, KeyPoly(F, shift, pad, x), from))
  {
    KeyZero(F, x, shift, pad, x);
    SubLaws(F, x, x);
    Zero(F, Pow(F, x, shift));
    hide KeyPoly;
    assert |KeyPoly(F, shift, pad, x)| == shift + 1 + pad + 1;
  }

  lemma RaisedVanishes<E(!new)>(F: Field<E>, c: seq<E>, shift: nat, x: E)
    requires F.Laws() && c != []
    ensures Eval(F, Raised(F, c, shift, x), x) == F.zero && Raised(F, c, shift, x)[shift + |c|] == c[|c| - 1]
  {
    RaisedValue(F, c, shift, x, x);
    SubLaws(F, x, x);
    Zero(F, F.Mul(Pow(F, x, shift), Eval(F, c, x)));
  }

  // The sharing of the key 0 under which a polynomial with e coefficients, k < e, is found out.
  lemma HighDegreeShows<E(!new)>(F: Field<E>, from: seq<E>, k: nat, x: E, s: seq<E>, c: seq<E>, e: nat)
    requires F.Laws() && Distinct(from) && x !in from && 1 <= k < e <= |from| == |s|
    requires |c| == e && Evals(F, c, from) == s && c[e - 1] != F.zero
    ensures !MacAlwaysRight(F, from, k, x, s)
  {
    hide Raised, KeyPoly, Evals, Hadamard, ValueAt, RootProd, SharesKey;
    var shift, pad := |from| - e, e - k - 1;
    var t, v := Raised(F, c, shift, x), Evals(F, KeyPoly(F, shift, pad, x), from);
    KeyIsZero(F, from, shift, pad, x);
    assert shift + 1 + pad == |from| - k;
    RaisedVanishes(F, c, shift, x);
    ProductsAreRaised(F, from, c, shift, pad, x);
    ReadOffTop(F, from, x, t);
    TopShows(F, from, x, t[|from|]);
    Zero(F, ValueAt(F, from, s, x));
    assert !MacRight(F, from, x, s, F.zero, v);
  }

  lemma KeyZero<E(!new)>(F: Field<E>, x: E, shift: nat, pad: nat, p: E)
    requires F.Laws()
    ensures Eval(F, KeyPoly(F, shift, pad, x), p) == F.Mul(Pow(F, p, shift), F.Sub(p, x))
  {
    var d := Raised(F, [F.one], shift, x);
    Trimmed(F, d + Zeros(F, pad), |d|, p);
    assert (d + Zeros(F, pad))[..|d|] == d;
    RaisedValue(F, [F.one], shift, x, p);
    EvalConst(F, F.one, p);
    One(F, Pow(F, p, shift));
  }

  lemma TopShows<E(!new)>(F: Field<E>, from: seq<E>, x: E, a: E)
    requires F.Laws() && x !in from && a != F.zero
    ensures F.Neg(F.Mul(a, RootProd(F, from, x))) != F.zero
  {
    var y := F.Mul(a, RootProd(F, from, x));
    RootProdZero(F, from, x);
    if y == F.zero { NoZeroDivisors(F, a, RootProd(F, from, x)); }
    NegLaws(F, y, y);
  }

  /** For any values the prover sends: the MAC of a slot comes out right for every sharing of every
      key if and only if the values are a packing of degree k - 1. */
  lemma MacRightExactly<E(!new)>(F: Field<E>, from: seq<E>, k: nat, x: E, s: seq<E>)
    requires F.Laws() && Distinct(from) && x !in from && 1 <= k <= |from| == |s|
    ensures MacAlwaysRight(F, from, k, x, s) <==> IsPacking(F, from, k, s)
  {
    if IsPacking(F, from, k, s) {
      forall key: E, v: seq<E> | |v| == |from| && SharesKey(F, from, |from| - k, x, key, v)
        ensures MacRight(F, from, x, s, key, v)
      {
        PackingIsRight(F, from, k, x, s, key, v);
      }
    } else {
      var c := Through(F, from, s);
      ThroughPoints(F, from, s);
      var e := TopOf(F, c, k);
      forall i | 0 <= i < |from| ensures Evals(F, c[..e], from)[i] == s[i] { Trimmed(F, c, e, from[i]); }
      assert Evals(F, c[..e], from) == s;
      assert e != k;
      HighDegreeShows(F, from, k, x, s, c[..e], e);
    }
  }

  // ---- the verifiers' shares ----

  lemma MacPartsAre<E(!new)>(F: Field<E>, from: seq<E>, to: seq<E>, s: seq<E>, keyShares: seq<seq<E>>, m: nat)
    requires F.Laws() && |s| == |keyShares| == |from| && Rows(|to|, keyShares) && m < |to|
    ensures Total(F, |to|, AllMacParts(F, from, to, s, keyShares))[m] == ValueAt(F, from,
        Hadamard(F, s, Column(keyShares, m)), to[m])
  {
    var rows := AllMacParts(F, from, to, s, keyShares);
    var v, row := Column(keyShares, m), LagrangeRow(F, from, to[m]);
    TotalColumn(F, |to|, rows, m);
    DotIsSum(F, row, Hadamard(F, s, v));
    assert Column(rows, m) == Hadamard(F, row, Hadamard(F, s, v));
  }

  /** For any n values: the verifiers' shares add up to the preprocessed secrets plus the values of
      their interpolant, and are authentic exactly if the MAC of every slot comes out right. */
  lemma GenSharesExactly<E(!new)>(F: Field<E>, from: seq<E>, to: seq<E>, secrets: seq<E>, s: seq<E>, delta: E,
                                  keyShares: seq<seq<E>>, base: seq<Lanes<E>>)
    requires F.Laws() && |secrets| == |to| && |s| == |keyShares| == |base| == |from| && Rows(|to|, keyShares)
    requires Authentic(F, delta, secrets, base)
    ensures var shs, w := GenShares(F, from, to, s, keyShares, base), VAdd(F, secrets, Convert(F, from, to, s));
            && Rows(|to|, ValRows(shs)) && Total(F, |to|, ValRows(shs)) == w
            && (Authentic(F, delta, w, shs) <==>
                forall m :: 0 <= m < |to| ==> MacRight(F, from, to[m], s, delta, Column(keyShares, m)))
  {
    var shs, diff := GenShares(F, from, to, s, keyShares, base), Convert(F, from, to, s);
    var parts := Total(F, |to|, AllMacParts(F, from, to, s, keyShares));
    hide GenShares, AllMacParts, AllShares, Total, MacRows, ValRows, KeyRows, Hadamard, ValueAt;
    GenTotals(F, from, to, s, keyShares, base);
    SharesAddUp(F, from, to, s);
    forall m | 0 <= m < |to|
      ensures MacRight(F, from, to[m], s, delta, Column(keyShares, m)) <==> parts[m] == Scale(F, delta, diff)[m]
    {
      MacPartsAre(F, from, to, s, keyShares, m);
      assert At2(delta, diff[m]);
    }
    if parts == Scale(F, delta, diff) {
      AddedAuthentic(F, delta, secrets, diff, base, shs);
    }
    if Authentic(F, delta, VAdd(F, secrets, diff), shs) {
      MacsForce(F, delta, secrets, diff, base, shs, parts);
    }
  }

  lemma MacsForce<E(!new)>(F: Field<E>, delta: E, v: seq<E>, diff: seq<E>, base: seq<Lanes<E>>, shs: seq<Lanes<E>>,
                           parts: seq<E>)
    requires F.Laws() && |v| == |diff| == |parts| && Authentic(F, delta, v, base)
             && Authentic(F, delta, VAdd(F, v, diff), shs)
    requires KeyRows(shs) == KeyRows(base)
    requires Total(F, |v|, MacRows(shs)) == VAdd(F, Total(F, |v|, MacRows(base)), parts)
    ensures parts == Scale(F, delta, diff)
  {
    assert Rows(|v|, KeyRows(base));
    hide Total, MacRows, KeyRows, ValRows, Sized, VAdd, Scale;
    SumsForce(F, delta, v, diff, parts, Total(F, |v|, KeyRows(base)));
  }

  lemma SumsForce<E(!new)>(F: Field<E>, delta: E, v: seq<E>, diff: seq<E>, parts: seq<E>, keys: seq<E>)
    requires F.Laws() && |v| == |diff| == |parts| == |keys|
    requires VAdd(F, VAdd(F, keys, Scale(F, delta, v)), parts) == VAdd(F, keys, Scale(F, delta, VAdd(F, v, diff)))
    ensures parts == Scale(F, delta, diff)
  {
    var l, r := VAdd(F, VAdd(F, keys, Scale(F, delta, v)), parts), VAdd(F, keys, Scale(F, delta, VAdd(F, v, diff)));
    forall p | 0 <= p < |v| ensures parts[p] == F.Mul(delta, diff[p]) {
      assert l[p] == r[p];
      MacForced(F, keys[p], delta, v[p], parts[p], diff[p]);
    }
  }

  lemma MacForced<E(!new)>(F: Field<E>, k: E, delta: E, v: E, part: E, diff: E)
    requires F.Laws() && F.Add(F.Add(k, F.Mul(delta, v)), part) == F.Add(k, F.Mul(delta, F.Add(v, diff)))
    ensures part == F.Mul(delta, diff)
  {
    var m, d := F.Add(k, F.Mul(delta, v)), F.Mul(delta, diff);
    assert At3(delta, v, diff) && At3(k, F.Mul(delta, v), d) && At2(m, part) && At2(m, d);
    Cancel(F, part, d, m);
  }
}
