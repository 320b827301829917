/** Fields, and the sums and inner products that the protocols are written in.

    Every protocol theorem of this project is proved over an arbitrary field: the operations
    are the components of a `Field` value and the field laws are a hypothesis, `Laws()`.
    `Fp59Field` discharges the hypothesis for F_p, p = 2^59 - 2^28 + 1. */
module Algebra {

  // Names the elements at which a field law is wanted; the laws fire on nothing else.
  predicate At1<E>(a: E) { true }
  predicate At2<E>(a: E, b: E) { true }
  predicate At3<E>(a: E, b: E, c: E) { true }

  datatype Field<!E(!new)> = Field(
    zero: E, one: E, plus: (E, E) -> E, times: (E, E) -> E, negate: E -> E, recip: E -> E)
  {
    function Add(a: E, b: E): E { plus(a, b) }

    function Mul(a: E, b: E): E { times(a, b) }

    function Neg(a: E): E { negate(a) }

    function Sub(a: E, b: E): E { Add(a, Neg(b)) }

    function Inv(a: E): E { recip(a) }

    ghost predicate Laws() {
      && zero != one
      && (forall a: E {:trigger At1(a)} ::
            && Add(a, zero) == a
            && Mul(a, one) == a
            && Add(a, Neg(a)) == zero
            && (a != zero ==> Mul(a, Inv(a)) == one))
      && (forall a: E, b: E {:trigger At2(a, b)} :: Add(a, b) == Add(b, a) && Mul(a, b) == Mul(b, a))
      && (forall a: E, b: E, c: E {:trigger At3(a, b, c)} ::
            && Add(Add(a, b), c) == Add(a, Add(b, c))
            && Mul(Mul(a, b), c) == Mul(a, Mul(b, c))
            && Mul(a, Add(b, c)) == Add(Mul(a, b), Mul(a, c)))
    }

    // Subtraction and addition coincide, as XOR does in GF(2^128).
    ghost predicate Char2() {
      forall a: E {:trigger At1(a)} :: Neg(a) == a
    }
  }

  // ---- laws, with triggers the solver fires on its own; for small identities only ----

  lemma AddLaws<E(!new)>(F: Field<E>)
    requires F.Laws()
    ensures forall a: E, b: E {:trigger F.Add(a, b)} :: F.Add(a, b) == F.Add(b, a)
    ensures forall a: E, b: E, c: E {:trigger F.Add(a, F.Add(b, c))} ::
              F.Add(a, F.Add(b, c)) == F.Add(F.Add(a, b), c)
  {
    forall a: E, b: E ensures F.Add(a, b) == F.Add(b, a) { assert At2(a, b); }
    forall a: E, b: E, c: E ensures F.Add(a, F.Add(b, c)) == F.Add(F.Add(a, b), c) { assert At3(a, b, c); }
  }

  lemma MulLaws<E(!new)>(F: Field<E>)
    requires F.Laws()
    ensures forall a: E, b: E {:trigger F.Mul(a, b)} :: F.Mul(a, b) == F.Mul(b, a)
    ensures forall a: E, b: E, c: E {:trigger F.Mul(a, F.Mul(b, c))} ::
              F.Mul(a, F.Mul(b, c)) == F.Mul(F.Mul(a, b), c)
  {
    forall a: E, b: E ensures F.Mul(a, b) == F.Mul(b, a) { assert At2(a, b); }
    forall a: E, b: E, c: E ensures F.Mul(a, F.Mul(b, c)) == F.Mul(F.Mul(a, b), c) { assert At3(a, b, c); }
  }

  lemma Ring<E(!new)>(F: Field<E>)
    requires F.Laws()
    ensures forall a: E, b: E {:trigger F.Add(a, b)} :: F.Add(a, b) == F.Add(b, a)
    ensures forall a: E, b: E, c: E {:trigger F.Add(a, F.Add(b, c))} ::
              F.Add(a, F.Add(b, c)) == F.Add(F.Add(a, b), c)
    ensures forall a: E, b: E {:trigger F.Mul(a, b)} :: F.Mul(a, b) == F.Mul(b, a)
    ensures forall a: E, b: E, c: E {:trigger F.Mul(a, F.Mul(b, c))} ::
              F.Mul(a, F.Mul(b, c)) == F.Mul(F.Mul(a, b), c)
    ensures forall a: E, b: E, c: E {:trigger F.Mul(a, F.Add(b, c))} ::
              F.Mul(a, F.Add(b, c)) == F.Add(F.Mul(a, b), F.Mul(a, c))
  {
    AddLaws(F);
    MulLaws(F);
    forall a: E, b: E, c: E ensures F.Mul(a, F.Add(b, c)) == F.Add(F.Mul(a, b), F.Mul(a, c)) { assert At3(a, b, c); }
  }

  lemma Zero<E(!new)>(F: Field<E>, a: E)
    requires F.Laws()
    ensures F.Add(a, F.zero) == a && F.Add(F.zero, a) == a
    ensures F.Mul(a, F.zero) == F.zero && F.Mul(F.zero, a) == F.zero
  {
    var p := F.Mul(a, F.zero);
    assert At1(a) && At2(a, F.zero) && At1(F.zero) && At3(a, F.zero, F.zero) && At1(p) && At3(p, p, F.Neg(p));
  }

  lemma One<E(!new)>(F: Field<E>, a: E)
    requires F.Laws()
    ensures F.Mul(a, F.one) == a && F.Mul(F.one, a) == a
  {
    assert At1(a) && At2(a, F.one);
  }

  lemma Cancel<E(!new)>(F: Field<E>, a: E, b: E, c: E)
    requires F.Laws() && F.Add(a, c) == F.Add(b, c)
    ensures a == b
  {
    assert At3(a, c, F.Neg(c)) && At3(b, c, F.Neg(c)) && At1(c) && At1(a) && At1(b);
  }

  lemma NegUnique<E(!new)>(F: Field<E>, a: E, b: E)
    requires F.Laws() && F.Add(a, b) == F.zero
    ensures b == F.Neg(a)
  {
    assert At1(a) && At2(a, b) && At2(a, F.Neg(a));
    Cancel(F, b, F.Neg(a), a);
  }

  // Negation moves through sums and products.
  lemma NegLaws<E(!new)>(F: Field<E>, a: E, b: E)
    requires F.Laws()
    ensures F.Neg(F.Neg(a)) == a
    ensures F.Neg(F.Add(a, b)) == F.Add(F.Neg(a), F.Neg(b))
    ensures F.Mul(a, F.Neg(b)) == F.Neg(F.Mul(a, b)) && F.Mul(F.Neg(a), b) == F.Neg(F.Mul(a, b))
    ensures F.Mul(F.Neg(a), F.Neg(b)) == F.Mul(a, b)
    ensures F.Neg(F.zero) == F.zero
  {
    var na, nb := F.Neg(a), F.Neg(b);
    assert At1(a) && At1(b) && At1(F.zero) && At2(a, na) && At2(F.zero, F.Neg(F.zero));
    NegUnique(F, na, a);
    assert F.Add(F.Add(a, b), F.Add(na, nb)) == F.Add(F.Add(a, na), F.Add(b, nb)) by { AddLaws(F); }
    NegUnique(F, F.Add(a, b), F.Add(na, nb));
    Zero(F, a);
    Zero(F, b);
    assert At3(a, b, nb) && At2(na, b) && At2(b, a) && At3(b, a, na);
    NegUnique(F, F.Mul(a, b), F.Mul(a, nb));
    NegUnique(F, F.Mul(a, b), F.Mul(na, b));
    assert At3(na, b, nb);
    Zero(F, na);
    NegUnique(F, F.Mul(na, b), F.Mul(na, nb));
    var ab := F.Mul(a, b);
    assert At1(ab) && At2(ab, F.Neg(ab));
    NegUnique(F, F.Neg(ab), ab);
    NegUnique(F, F.zero, F.zero);
  }

  lemma SubLaws<E(!new)>(F: Field<E>, a: E, b: E)
    requires F.Laws()
    ensures F.Add(F.Sub(a, b), b) == a && F.Add(b, F.Sub(a, b)) == a
    ensures F.Sub(F.Add(a, b), b) == a
    ensures F.Sub(a, b) == F.zero <==> a == b
  {
    assert At3(a, F.Neg(b), b) && At1(b) && At1(a) && At2(b, F.Neg(b)) && At2(b, F.Sub(a, b)) && At3(a, b, F.Neg(b));
    if F.Sub(a, b) == F.zero { Zero(F, b); }
  }

  lemma NoZeroDivisors<E(!new)>(F: Field<E>, a: E, b: E)
    requires F.Laws() && F.Mul(a, b) == F.zero
    ensures a == F.zero || b == F.zero
  {
    if a != F.zero {
      assert At1(a) && At1(b) && At3(F.Inv(a), a, b) && At2(F.Inv(a), a) && At2(F.one, b);
      Zero(F, F.Inv(a));
    }
  }

  lemma MulCancel<E(!new)>(F: Field<E>, a: E, b: E, c: E)
    requires F.Laws() && c != F.zero && F.Mul(a, c) == F.Mul(b, c)
    ensures a == b
  {
    assert At1(c) && At3(a, c, F.Inv(c)) && At3(b, c, F.Inv(c)) && At1(a) && At1(b);
  }

  // ---- powers and naturals ----

  function Pow<E(!new)>(F: Field<E>, x: E, n: nat): E {
    if n == 0 then F.one else F.Mul(x, Pow(F, x, n - 1))
  }

  lemma {:induction false} PowAdd<E(!new)>(F: Field<E>, x: E, m: nat, n: nat)
    requires F.Laws()
    ensures Pow(F, x, m + n) == F.Mul(Pow(F, x, m), Pow(F, x, n))
  {
    if m == 0 {
      One(F, Pow(F, x, n));
    } else {
      PowAdd(F, x, m - 1, n);
      assert At3(x, Pow(F, x, m - 1), Pow(F, x, n));
    }
  }

  lemma {:induction false} PowPow<E(!new)>(F: Field<E>, x: E, m: nat, n: nat)
    requires F.Laws()
    ensures Pow(F, Pow(F, x, m), n) == Pow(F, x, m * n)
  {
    if n != 0 {
      PowPow(F, x, m, n - 1);
      PowAdd(F, x, m, m * (n - 1));
      assert m + m * (n - 1) == m * n;
    }
  }

  lemma {:induction false} PowMul<E(!new)>(F: Field<E>, x: E, y: E, n: nat)
    requires F.Laws()
    ensures Pow(F, F.Mul(x, y), n) == F.Mul(Pow(F, x, n), Pow(F, y, n))
  {
    if n == 0 {
      One(F, F.one);
    } else {
      PowMul(F, x, y, n - 1);
      var a, b := Pow(F, x, n - 1), Pow(F, y, n - 1);
      assert F.Mul(F.Mul(x, y), F.Mul(a, b)) == F.Mul(F.Mul(x, a), F.Mul(y, b)) by { MulLaws(F); }
    }
  }

  lemma {:induction false} PowOne<E(!new)>(F: Field<E>, n: nat)
    requires F.Laws()
    ensures Pow(F, F.one, n) == F.one
  {
    if n != 0 {
      PowOne(F, n - 1);
      One(F, F.one);
    }
  }

  lemma {:induction false} PowNonzero<E(!new)>(F: Field<E>, x: E, n: nat)
    requires F.Laws() && x != F.zero
    ensures Pow(F, x, n) != F.zero
  {
    if n != 0 {
      PowNonzero(F, x, n - 1);
      if Pow(F, x, n) == F.zero { NoZeroDivisors(F, x, Pow(F, x, n - 1)); }
    }
  }

  // The field element 1 + ... + 1 (n ones).
  function FromNat<E(!new)>(F: Field<E>, n: nat): E {
    if n == 0 then F.zero else F.Add(F.one, FromNat(F, n - 1))
  }

  lemma {:induction false} FromNatAdd<E(!new)>(F: Field<E>, m: nat, n: nat)
    requires F.Laws()
    ensures FromNat(F, m + n) == F.Add(FromNat(F, m), FromNat(F, n))
  {
    if m == 0 {
      Zero(F, FromNat(F, n));
    } else {
      FromNatAdd(F, m - 1, n);
      assert At3(F.one, FromNat(F, m - 1), FromNat(F, n));
    }
  }

  // ---- vectors ----

  function Zeros<E(!new)>(F: Field<E>, n: nat): (r: seq<E>)
    ensures |r| == n
  {
    seq(n, _ => F.zero)
  }

  function VAdd<E(!new)>(F: Field<E>, s: seq<E>, t: seq<E>): (r: seq<E>)
    requires |s| == |t|
    ensures |r| == |s|
  {
    seq(|s|, i requires 0 <= i < |s| => F.Add(s[i], t[i]))
  }

  function Scale<E(!new)>(F: Field<E>, c: E, s: seq<E>): (r: seq<E>)
    ensures |r| == |s|
  {
    seq(|s|, i requires 0 <= i < |s| => F.Mul(c, s[i]))
  }

  function Hadamard<E(!new)>(F: Field<E>, s: seq<E>, t: seq<E>): (r: seq<E>)
    requires |s| == |t|
    ensures |r| == |s|
  {
    seq(|s|, i requires 0 <= i < |s| => F.Mul(s[i], t[i]))
  }

  function Sum<E(!new)>(F: Field<E>, s: seq<E>): E {
    if s == [] then F.zero else F.Add(s[0], Sum(F, s[1..]))
  }

  function Dot<E(!new)>(F: Field<E>, s: seq<E>, t: seq<E>): E
    requires |s| == |t|
  {
    if s == [] then F.zero else F.Add(F.Mul(s[0], t[0]), Dot(F, s[1..], t[1..]))
  }

  lemma {:induction false} SumAppend<E(!new)>(F: Field<E>, s: seq<E>, t: seq<E>)
    requires F.Laws()
    ensures Sum(F, s + t) == F.Add(Sum(F, s), Sum(F, t))
  {
    if s == [] {
      assert s + t == t;
      Zero(F, Sum(F, t));
    } else {
      assert (s + t)[1..] == s[1..] + t;
      SumAppend(F, s[1..], t);
      assert At3(s[0], Sum(F, s[1..]), Sum(F, t));
    }
  }

  lemma SumSnoc<E(!new)>(F: Field<E>, s: seq<E>, x: E)
    requires F.Laws()
    ensures Sum(F, s + [x]) == F.Add(Sum(F, s), x)
  {
    SumAppend(F, s, [x]);
    Zero(F, x);
    assert Sum(F, [x]) == F.Add(x, Sum(F, [x][1..]));
  }

  lemma {:induction false} SumAdd<E(!new)>(F: Field<E>, s: seq<E>, t: seq<E>)
    requires F.Laws() && |s| == |t|
    ensures Sum(F, VAdd(F, s, t)) == F.Add(Sum(F, s), Sum(F, t))
  {
    if s == [] {
      Zero(F, F.zero);
    } else {
      assert VAdd(F, s, t)[1..] == VAdd(F, s[1..], t[1..]);
      SumAdd(F, s[1..], t[1..]);
      var a, b := Sum(F, s[1..]), Sum(F, t[1..]);
      assert F.Add(F.Add(s[0], t[0]), F.Add(a, b)) == F.Add(F.Add(s[0], a), F.Add(t[0], b)) by { AddLaws(F); }
    }
  }

  lemma {:induction false} SumScale<E(!new)>(F: Field<E>, c: E, s: seq<E>)
    requires F.Laws()
    ensures Sum(F, Scale(F, c, s)) == F.Mul(c, Sum(F, s))
  {
    if s == [] {
      Zero(F, c);
    } else {
      assert Scale(F, c, s)[1..] == Scale(F, c, s[1..]);
      SumScale(F, c, s[1..]);
      assert At3(c, s[0], Sum(F, s[1..]));
    }
  }

  lemma {:induction false} SumZeros<E(!new)>(F: Field<E>, n: nat)
    requires F.Laws()
    ensures Sum(F, Zeros(F, n)) == F.zero
  {
    if n != 0 {
      assert Zeros(F, n)[1..] == Zeros(F, n - 1);
      SumZeros(F, n - 1);
      Zero(F, F.zero);
    }
  }

  lemma {:induction false} DotIsSum<E(!new)>(F: Field<E>, s: seq<E>, t: seq<E>)
    requires |s| == |t|
    ensures Dot(F, s, t) == Sum(F, Hadamard(F, s, t))
  {
    if s != [] {
      assert Hadamard(F, s, t)[1..] == Hadamard(F, s[1..], t[1..]);
      DotIsSum(F, s[1..], t[1..]);
    }
  }

  lemma DotComm<E(!new)>(F: Field<E>, s: seq<E>, t: seq<E>)
    requires F.Laws() && |s| == |t|
    ensures Dot(F, s, t) == Dot(F, t, s)
  {
    DotIsSum(F, s, t);
    DotIsSum(F, t, s);
    assert Hadamard(F, s, t) == Hadamard(F, t, s) by {
      forall i | 0 <= i < |s| ensures F.Mul(s[i], t[i]) == F.Mul(t[i], s[i]) { assert At2(s[i], t[i]); }
    }
  }

  lemma {:induction false} DotAppend<E(!new)>(F: Field<E>, s: seq<E>, t: seq<E>, s': seq<E>, t': seq<E>)
    requires F.Laws() && |s| == |t| && |s'| == |t'|
    ensures Dot(F, s + s', t + t') == F.Add(Dot(F, s, t), Dot(F, s', t'))
  {
    if s == [] {
      assert s + s' == s' && t + t' == t';
      Zero(F, Dot(F, s', t'));
    } else {
      assert (s + s')[1..] == s[1..] + s' && (t + t')[1..] == t[1..] + t';
      DotAppend(F, s[1..], t[1..], s', t');
      assert At3(F.Mul(s[0], t[0]), Dot(F, s[1..], t[1..]), Dot(F, s', t'));
    }
  }

  lemma DotSnoc<E(!new)>(F: Field<E>, s: seq<E>, t: seq<E>, a: E, b: E)
    requires F.Laws() && |s| == |t|
    ensures Dot(F, s + [a], t + [b]) == F.Add(Dot(F, s, t), F.Mul(a, b))
  {
    DotAppend(F, s, t, [a], [b]);
    assert Dot(F, [a], [b]) == F.Add(F.Mul(a, b), Dot(F, [a][1..], [b][1..]));
    Zero(F, F.Mul(a, b));
  }

  lemma DotTake<E(!new)>(F: Field<E>, s: seq<E>, t: seq<E>, k: nat)
    requires F.Laws() && k < |s| && k < |t|
    ensures Dot(F, s[..k + 1], t[..k + 1]) == F.Add(Dot(F, s[..k], t[..k]), F.Mul(s[k], t[k]))
  {
    assert s[..k + 1] == s[..k] + [s[k]] && t[..k + 1] == t[..k] + [t[k]];
    DotSnoc(F, s[..k], t[..k], s[k], t[k]);
  }

  lemma SumTake<E(!new)>(F: Field<E>, s: seq<E>, k: nat)
    requires F.Laws() && k < |s|
    ensures Sum(F, s[..k + 1]) == F.Add(Sum(F, s[..k]), s[k])
  {
    assert s[..k + 1] == s[..k] + [s[k]];
    SumSnoc(F, s[..k], s[k]);
  }

  lemma DotAddRight<E(!new)>(F: Field<E>, c: seq<E>, s: seq<E>, t: seq<E>)
    requires F.Laws() && |c| == |s| == |t|
    ensures Dot(F, c, VAdd(F, s, t)) == F.Add(Dot(F, c, s), Dot(F, c, t))
  {
    DotIsSum(F, c, VAdd(F, s, t));
    DotIsSum(F, c, s);
    DotIsSum(F, c, t);
    assert Hadamard(F, c, VAdd(F, s, t)) == VAdd(F, Hadamard(F, c, s), Hadamard(F, c, t)) by {
      forall i | 0 <= i < |c|
        ensures F.Mul(c[i], F.Add(s[i], t[i])) == F.Add(F.Mul(c[i], s[i]), F.Mul(c[i], t[i]))
      { assert At3(c[i], s[i], t[i]); }
    }
    SumAdd(F, Hadamard(F, c, s), Hadamard(F, c, t));
  }

  lemma DotScaleRight<E(!new)>(F: Field<E>, c: seq<E>, a: E, s: seq<E>)
    requires F.Laws() && |c| == |s|
    ensures Dot(F, c, Scale(F, a, s)) == F.Mul(a, Dot(F, c, s))
  {
    DotIsSum(F, c, Scale(F, a, s));
    DotIsSum(F, c, s);
    assert Hadamard(F, c, Scale(F, a, s)) == Scale(F, a, Hadamard(F, c, s)) by {
      forall i | 0 <= i < |c| ensures F.Mul(c[i], F.Mul(a, s[i])) == F.Mul(a, F.Mul(c[i], s[i])) { MulLaws(F); }
    }
    SumScale(F, a, Hadamard(F, c, s));
  }

  lemma DotZeros<E(!new)>(F: Field<E>, c: seq<E>)
    requires F.Laws()
    ensures Dot(F, c, Zeros(F, |c|)) == F.zero
  {
    DotIsSum(F, c, Zeros(F, |c|));
    assert Hadamard(F, c, Zeros(F, |c|)) == Zeros(F, |c|) by {
      forall i | 0 <= i < |c| ensures F.Mul(c[i], F.zero) == F.zero { Zero(F, c[i]); }
    }
    SumZeros(F, |c|);
  }

  lemma {:induction false} DotAtIndex<E(!new)>(F: Field<E>, d: seq<E>, chi: seq<E>, j: nat, a: E, b: E)
    requires F.Laws() && |d| == |chi| && j < |d|
    ensures F.Add(Dot(F, d, chi[j := a]), F.Mul(d[j], b)) == F.Add(Dot(F, d, chi[j := b]), F.Mul(d[j], a))
  {
    var p, q := F.Mul(d[j], a), F.Mul(d[j], b);
    if j == 0 {
      var t := Dot(F, d[1..], chi[1..]);
      assert chi[j := a][1..] == chi[1..] && chi[j := b][1..] == chi[1..];
      assert F.Add(F.Add(p, t), q) == F.Add(F.Add(q, t), p) by { AddLaws(F); }
    } else {
      assert chi[j := a][1..] == chi[1..][j - 1 := a] && chi[j := b][1..] == chi[1..][j - 1 := b];
      DotAtIndex(F, d[1..], chi[1..], j - 1, a, b);
      var h := F.Mul(d[0], chi[0]);
      assert At3(h, Dot(F, d[1..], chi[1..][j - 1 := a]), q) && At3(h, Dot(F, d[1..], chi[1..][j - 1 := b]), p);
    }
  }

  /** If entry j of d is not zero then, the other coefficients fixed, at most one value of
      coefficient j gives a combination of d its value. */
  lemma OneCoefficient<E(!new)>(F: Field<E>, d: seq<E>, chi: seq<E>, j: nat, a: E, b: E)
    requires F.Laws() && |d| == |chi| && j < |d| && d[j] != F.zero
    requires Dot(F, d, chi[j := a]) == Dot(F, d, chi[j := b])
    ensures a == b
  {
    var t, p, q := Dot(F, d, chi[j := a]), F.Mul(d[j], a), F.Mul(d[j], b);
    DotAtIndex(F, d, chi, j, a, b);
    assert At2(t, p) && At2(t, q) && At2(d[j], a) && At2(d[j], b);
    Cancel(F, q, p, t);
    MulCancel(F, a, b, d[j]);
  }

  // ---- parties: one row of values per party ----

  ghost predicate Rows<E>(len: nat, rows: seq<seq<E>>) {
    forall i :: 0 <= i < |rows| ==> |rows[i]| == len
  }

  // The parties' rows added up, entry by entry.
  function Total<E(!new)>(F: Field<E>, len: nat, rows: seq<seq<E>>): (r: seq<E>)
    requires Rows(len, rows)
    ensures |r| == len
  {
    if rows == [] then Zeros(F, len) else VAdd(F, rows[0], Total(F, len, rows[1..]))
  }

  function Column<E>(rows: seq<seq<E>>, p: nat): (r: seq<E>)
    requires forall i :: 0 <= i < |rows| ==> p < |rows[i]|
    ensures |r| == |rows|
  {
    seq(|rows|, i requires 0 <= i < |rows| => rows[i][p])
  }

  lemma {:induction false} TotalColumn<E(!new)>(F: Field<E>, len: nat, rows: seq<seq<E>>, p: nat)
    requires Rows(len, rows) && p < len
    ensures Total(F, len, rows)[p] == Sum(F, Column(rows, p))
  {
    if rows != [] {
      TotalColumn(F, len, rows[1..], p);
      assert Column(rows, p)[1..] == Column(rows[1..], p);
    }
  }
}
