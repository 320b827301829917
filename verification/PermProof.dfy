/** The permutation test: a product of linear factors compared at one challenge, evaluated by
    degree-N product steps over authenticated wires. The field is any field; where the code's XOR
    serves as subtraction the characteristic is 2, as in GF(2^128). */
module PermProof {
  import opened Algebra
  import opened Polynomials
  import opened Interpolation

  // ---- the product test ----

  lemma OthersMultiset<E>(s: seq<E>, i: nat)
    requires i < |s|
    ensures multiset(s) == multiset(Others(s, i)) + multiset{s[i]}
  {
    assert s == s[..i] + ([s[i]] + s[i + 1..]);
    assert multiset(s) == multiset(s[..i]) + multiset([s[i]] + s[i + 1..]);
    assert multiset(Others(s, i)) == multiset(s[..i]) + multiset(s[i + 1..]);
  }

  lemma RootProdOthers<E(!new)>(F: Field<E>, s: seq<E>, i: nat, r: E)
    requires F.Laws() && i < |s|
    ensures RootProd(F, s, r) == F.Mul(F.Sub(r, s[i]), RootProd(F, Others(s, i), r))
  {
    assert s == s[..i] + ([s[i]] + s[i + 1..]);
    RootProdAppend(F, s[..i], [s[i]] + s[i + 1..], r);
    RootProdAppend(F, s[..i], s[i + 1..], r);
    assert ([s[i]] + s[i + 1..])[1..] == s[i + 1..];
    var a, b, c := RootProd(F, s[..i], r), F.Sub(r, s[i]), RootProd(F, s[i + 1..], r);
    assert F.Mul(a, F.Mul(b, c)) == F.Mul(b, F.Mul(a, c)) by { MulLaws(F); }
  }

  /** Completeness: permutations agree at every challenge. */
  lemma {:induction false} PermutationsAgree<E(!new)>(F: Field<E>, a: seq<E>, b: seq<E>, r: E)
    requires F.Laws() && multiset(a) == multiset(b)
    ensures RootProd(F, a, r) == RootProd(F, b, r)
    decreases |a|
  {
    if a == [] {
      assert |multiset(b)| == 0;
    } else {
      assert a[0] in multiset(b);
      var i :| 0 <= i < |b| && b[i] == a[0];
      OthersMultiset(a, 0);
      OthersMultiset(b, i);
      assert multiset(Others(a, 0)) == multiset(a) - multiset{a[0]} == multiset(Others(b, i));
      PermutationsAgree(F, Others(a, 0), Others(b, i), r);
      RootProdOthers(F, a, 0, r);
      RootProdOthers(F, b, i, r);
    }
  }

  /** Soundness, by counting: two lists of the same length that are not permutations of one another
      have equal products at fewer challenges than they have elements. */
  lemma {:induction false} ProductTestSoundness<E(!new)>(F: Field<E>, a: seq<E>, b: seq<E>, lucky: set<E>)
    requires F.Laws() && |a| == |b| && multiset(a) != multiset(b)
    requires forall r :: r in lucky ==> RootProd(F, a, r) == RootProd(F, b, r)
    ensures |lucky| < |a|
    decreases |a|
  {
    if i, j :| 0 <= i < |a| && 0 <= j < |b| && a[i] == b[j] {
      var c := a[i];
      OthersMultiset(a, i);
      OthersMultiset(b, j);
      forall r | r in lucky - {c} ensures RootProd(F, Others(a, i), r) == RootProd(F, Others(b, j), r) {
        CommonFactor(F, a, b, i, j, r);
      }
      ProductTestSoundness(F, Others(a, i), Others(b, j), lucky - {c});
    } else {
      if |a| == 0 { EmptySame(a, b); }
      if |lucky| >= |a| {
        DisjointAgree(F, a, b, lucky);
        assert false;
      }
    }
  }

  lemma EmptySame<E>(a: seq<E>, b: seq<E>)
    requires |a| == 0 == |b|
    ensures multiset(a) == multiset(b)
  {
    assert a == b;
  }

  lemma CommonFactor<E(!new)>(F: Field<E>, a: seq<E>, b: seq<E>, i: nat, j: nat, r: E)
    requires F.Laws() && i < |a| && j < |b| && a[i] == b[j] && r != a[i]
    requires RootProd(F, a, r) == RootProd(F, b, r)
    ensures RootProd(F, Others(a, i), r) == RootProd(F, Others(b, j), r)
  {
    var d, p, q := F.Sub(r, a[i]), RootProd(F, Others(a, i), r), RootProd(F, Others(b, j), r);
    RootProdOthers(F, a, i, r);
    RootProdOthers(F, b, j, r);
    SubLaws(F, r, a[i]);
    assert At2(d, p) && At2(d, q);
    MulCancel(F, p, q, d);
  }

  // If products agree at |a| challenges, the first list has an element of the second.
  lemma DisjointAgree<E(!new)>(F: Field<E>, a: seq<E>, b: seq<E>, lucky: set<E>)
    requires F.Laws() && |a| == |b| > 0 && |lucky| >= |a|
    requires forall r :: r in lucky ==> RootProd(F, a, r) == RootProd(F, b, r)
    ensures exists j :: 0 <= j < |b| && b[j] == a[0]
  {
    var n, c, d := |a|, RootPoly(F, a)[..|a|], RootPoly(F, b)[..|b|];
    forall r | r in lucky ensures Eval(F, c, r) == Eval(F, d, r) {
      MonicParts(F, a, r);
      MonicParts(F, b, r);
      Cancel(F, Eval(F, c, r), Eval(F, d, r), Pow(F, r, n));
    }
    AgreeEverywhere(F, c, d, lucky, a[0]);
    MonicParts(F, a, a[0]);
    MonicParts(F, b, a[0]);
    RootProdZero(F, a, a[0]);
    RootProdZero(F, b, a[0]);
  }

  lemma MonicParts<E(!new)>(F: Field<E>, a: seq<E>, r: E)
    requires F.Laws()
    ensures RootProd(F, a, r) == F.Add(Eval(F, RootPoly(F, a)[..|a|], r), Pow(F, r, |a|))
  {
    var c := RootPoly(F, a);
    EvalRootPoly(F, a, r);
    RootPolyMonic(F, a);
    assert c == c[..|a|] + [F.one];
    EvalAppend(F, c[..|a|], [F.one], r);
    EvalConst(F, F.one, r);
    One(F, Pow(F, r, |a|));
  }

  // ---- authenticated wires ----

  // The prover's value and MAC and the verifier's key of one wire.
  datatype Wire<E> = Wire(val: E, mac: E, key: E)

  ghost predicate Good<E(!new)>(F: Field<E>, delta: E, w: Wire<E>) {
    w.mac == F.Add(w.key, F.Mul(w.val, delta))
  }

  function Vals<E>(ws: seq<Wire<E>>): (r: seq<E>)
    ensures |r| == |ws|
  {
    seq(|ws|, i requires 0 <= i < |ws| => ws[i].val)
  }

  // Adding a public constant: the prover's value changes and the verifier's key absorbs it.
  function AddConst<E(!new)>(F: Field<E>, delta: E, w: Wire<E>, c: E): Wire<E> {
    Wire(F.Add(w.val, c), w.mac, F.Add(w.key, F.Mul(c, delta)))
  }

  lemma AddConstGood<E(!new)>(F: Field<E>, delta: E, w: Wire<E>, c: E)
    requires F.Laws() && F.Char2() && Good(F, delta, w)
    ensures Good(F, delta, AddConst(F, delta, w, c))
  {
    var k, p, q := w.key, F.Mul(w.val, delta), F.Mul(c, delta);
    assert At2(F.Add(w.val, c), delta) && At3(delta, w.val, c) && At2(delta, w.val) && At2(delta, c);
    assert At1(q);
    assert F.Add(F.Add(k, q), F.Add(p, q)) == F.Add(F.Add(k, p), F.Add(q, q)) by { AddLaws(F); }
    Zero(F, F.Add(k, p));
  }

  // ---- the degree-N product step ----

  function Prod<E(!new)>(F: Field<E>, s: seq<E>): E {
    if s == [] then F.one else F.Mul(Prod(F, s[..|s| - 1]), s[|s| - 1])
  }

  // Coefficients of the product of (m_i + x_i X) over the first k pairs.
  function LinProd<E(!new)>(F: Field<E>, x: seq<E>, m: seq<E>, k: nat): (c: seq<E>)
    requires 1 <= k <= |x| == |m|
    ensures |c| == k + 1
  {
    if k == 1 then [m[0], x[0]] else MulLin(F, LinProd(F, x, m, k - 1), m[k - 1], x[k - 1])
  }

  // The keys m_i + x_i * d the verifier multiplies (in characteristic 2).
  function Keys<E(!new)>(F: Field<E>, x: seq<E>, m: seq<E>, d: E): (r: seq<E>)
    requires |x| == |m|
    ensures |r| == |x|
  {
    seq(|x|, i requires 0 <= i < |x| => F.Add(m[i], F.Mul(x[i], d)))
  }

  lemma {:induction false} EvalLinProd<E(!new)>(F: Field<E>, x: seq<E>, m: seq<E>, k: nat, d: E)
    requires F.Laws() && 1 <= k <= |x| == |m|
    ensures Eval(F, LinProd(F, x, m, k), d) == Prod(F, Keys(F, x, m, d)[..k])
  {
    var ks := Keys(F, x, m, d);
    assert ks[..k][..k - 1] == ks[..k - 1];
    if k == 1 {
      assert LinProd(F, x, m, 1) == [m[0]] + [x[0]];
      EvalCons(F, m[0], [x[0]], d);
      EvalConst(F, x[0], d);
      assert At2(x[0], d);
      One(F, ks[0]);
    } else {
      EvalMulLin(F, LinProd(F, x, m, k - 1), m[k - 1], x[k - 1], d);
      EvalLinProd(F, x, m, k - 1, d);
    }
  }

  lemma {:induction false} LinProdTop<E(!new)>(F: Field<E>, x: seq<E>, m: seq<E>, k: nat)
    requires F.Laws() && 1 <= k <= |x| == |m|
    ensures LinProd(F, x, m, k)[k] == Prod(F, x[..k])
  {
    assert x[..k][..k - 1] == x[..k - 1];
    if k == 1 {
      One(F, x[0]);
    } else {
      LinProdTop(F, x, m, k - 1);
    }
  }

  // What the prover buffers for one product of N factors: the coefficients below N, the
  // output's MAC folded into the top one, and zeros up to five.
  ghost predicate Buffered<E(!new)>(F: Field<E>, x: seq<E>, m: seq<E>, mLast: E, buffer: seq<E>)
    requires 1 <= |x| == |m| <= 5
  {
    var n, c := |x|, LinProd(F, x, m, |x|);
    && |buffer| == 5
    && (forall j :: 0 <= j < n - 1 ==> buffer[j] == c[j])
    && buffer[n - 1] == F.Add(c[n - 1], mLast)
    && (forall j :: n <= j < 5 ==> buffer[j] == F.zero)
  }

  lemma CoeffAt<E(!new)>(F: Field<E>, poly: seq<E>, m: E, x: E, j: nat)
    requires F.Laws() && 1 <= |poly| && j <= |poly|
    ensures var low := if j < |poly| then F.Mul(poly[j], m) else F.zero;
            MulLinAt(F, poly, m, x, j) == if j >= 1 then F.Add(low, F.Mul(poly[j - 1], x)) else low
  {
    if j == |poly| { Zero(F, F.Mul(poly[j - 1], x)); }
  }

  // One more factor, up to coefficient `top`.
  method NextPoly<E(!new)>(F: Field<E>, poly: seq<E>, i: nat, top: nat, m: E, x: E) returns (next: seq<E>)
    requires F.Laws() && |poly| == i + 1 && top <= i + 1
    ensures next == MulLin(F, poly, m, x)[..top + 1]
  {
    next := [];
    var j := 0;
    while j <= top
      invariant 0 <= j <= top + 1 && |next| == j
      invariant forall k :: 0 <= k < j ==> next[k] == MulLinAt(F, poly, m, x, k)
    {
      hide MulLinAt;
      CoeffAt(F, poly, m, x, j);
      var low := if j <= i then F.Mul(poly[j], m) else F.zero;
      next := next + [if j >= 1 then F.Add(low, F.Mul(poly[j - 1], x)) else low];
      j := j + 1;
    }
  }

  /** The prover's loop of the product step, for N = 3, 4 or 5: two factors by hand, then one
      factor an iteration, leaving out the top coefficient of the last. */
  method PolyPrdt<E(!new)>(F: Field<E>, x: seq<E>, m: seq<E>, mLast: E) returns (buffer: seq<E>)
    requires F.Laws() && 3 <= |x| == |m| <= 5
    ensures Buffered(F, x, m, mLast, buffer)
  {
    var n := |x|;
    var poly := [F.Mul(m[0], m[1]), F.Add(F.Mul(m[0], x[1]), F.Mul(x[0], m[1])), F.Mul(x[0], x[1])];
    assert At2(F.Mul(m[0], x[1]), F.Mul(x[0], m[1]));
    assert poly == LinProd(F, x, m, 2);
    var i := 2;
    while i < n
      invariant 2 <= i <= n
      invariant poly == if i < n then LinProd(F, x, m, i) else LinProd(F, x, m, n)[..n]
    {
      poly := NextPoly(F, poly, i, if i == n - 1 then n - 1 else i + 1, m[i], x[i]);
      i := i + 1;
    }
    buffer := seq(5, j requires 0 <= j < 5 && |poly| == n >= 3 =>
      if j < n - 1 then poly[j] else if j == n - 1 then F.Add(poly[n - 1], mLast) else F.zero);
  }

  // The buffer as a polynomial at d, whatever was committed as the output.
  lemma BufferValue<E(!new)>(F: Field<E>, x: seq<E>, m: seq<E>, mLast: E, buffer: seq<E>, d: E)
    requires F.Laws() && 1 <= |x| == |m| <= 5 && Buffered(F, x, m, mLast, buffer)
    ensures F.Add(Eval(F, buffer, d), F.Mul(Pow(F, d, |x|), Prod(F, x)))
         == F.Add(Prod(F, Keys(F, x, m, d)), F.Mul(Pow(F, d, |x| - 1), mLast))
  {
    var n, c := |x|, LinProd(F, x, m, |x|);
    var low, ks := c[..n - 1], Keys(F, x, m, d);
    assert ks[..n] == ks && x[..n] == x;
    EvalLinProd(F, x, m, n, d);
    LinProdTop(F, x, m, n);
    var b := F.Add(c[n - 1], mLast);
    assert buffer == (low + [b]) + Zeros(F, 5 - n);
    EvalAppend(F, low + [b], Zeros(F, 5 - n), d);
    EvalZeros(F, 5 - n, d);
    Zero(F, Pow(F, d, n));
    EvalAppend(F, low, [b], d);
    EvalConst(F, b, d);
    Zero(F, Eval(F, low + [b], d));
    assert c == low + [c[n - 1], c[n]];
    EvalAppend(F, low, [c[n - 1], c[n]], d);
    assert [c[n - 1], c[n]] == [c[n - 1]] + [c[n]];
    EvalCons(F, c[n - 1], [c[n]], d);
    EvalConst(F, c[n], d);
    BufferIdentity(F, Eval(F, low, d), Pow(F, d, n - 1), c[n - 1], c[n], mLast, d);
  }

  lemma BufferIdentity<E(!new)>(F: Field<E>, l: E, p: E, a: E, v: E, m: E, d: E)
    requires F.Laws()
    ensures F.Add(F.Add(l, F.Mul(p, F.Add(a, m))), F.Mul(F.Mul(d, p), v))
         == F.Add(F.Add(l, F.Mul(p, F.Add(a, F.Mul(d, v)))), F.Mul(p, m))
  {
    Ring(F);
  }

  // What the verifier holds for the same product.
  function VerifierProduct<E(!new)>(F: Field<E>, keys: seq<E>, keyLast: E, delta: E): E
    requires |keys| >= 1
  {
    F.Add(Prod(F, keys), F.Mul(keyLast, Pow(F, delta, |keys| - 1)))
  }

  /** Exactness of one product step: with every MAC in order, what should be equal differs by
      Delta^N times the difference between the product and the committed output. */
  lemma ProductStepExact<E(!new)>(F: Field<E>, delta: E, ins: seq<Wire<E>>, out: Wire<E>, buffer: seq<E>)
    requires F.Laws() && F.Char2() && 1 <= |ins| <= 5 && Good(F, delta, out)
    requires forall i :: 0 <= i < |ins| ==> Good(F, delta, ins[i])
    requires Buffered(F, Vals(ins), Macs(ins), out.mac, buffer)
    ensures F.Add(Eval(F, buffer, delta), VerifierProduct(F, KeysOf(ins), out.key, delta))
         == F.Mul(Pow(F, delta, |ins|), F.Add(Prod(F, Vals(ins)), out.val))
  {
    hide Prod, Eval, Buffered;
    var x, m, n := Vals(ins), Macs(ins), |ins|;
    BufferValue(F, x, m, out.mac, buffer, delta);
    forall i | 0 <= i < n ensures Keys(F, x, m, delta)[i] == KeysOf(ins)[i] {
      Char2Swap(F, ins[i].mac, ins[i].key, F.Mul(ins[i].val, delta));
    }
    assert Keys(F, x, m, delta) == KeysOf(ins);
    StepIdentity(F, Eval(F, buffer, delta), Prod(F, KeysOf(ins)), Pow(F, delta, n - 1), delta, Prod(F, x), out.val,
                 out.key);
  }

  /** So with Delta nonzero the prover's and the verifier's side agree for the product only. */
  lemma ProductStepIff<E(!new)>(F: Field<E>, delta: E, ins: seq<Wire<E>>, out: Wire<E>, buffer: seq<E>)
    requires F.Laws() && F.Char2() && delta != F.zero && 1 <= |ins| <= 5 && Good(F, delta, out)
    requires forall i :: 0 <= i < |ins| ==> Good(F, delta, ins[i])
    requires Buffered(F, Vals(ins), Macs(ins), out.mac, buffer)
    ensures Eval(F, buffer, delta) == VerifierProduct(F, KeysOf(ins), out.key, delta) <==> out.val == Prod(F, Vals(ins))
  {
    hide Good, Buffered, Prod, Eval, VerifierProduct;
    ProductStepExact(F, delta, ins, out, buffer);
    var p, v := Pow(F, delta, |ins|), Prod(F, Vals(ins));
    Char2Equal(F, Eval(F, buffer, delta), VerifierProduct(F, KeysOf(ins), out.key, delta));
    Char2Equal(F, v, out.val);
    PowNonzero(F, delta, |ins|);
    Zero(F, p);
    if F.Mul(p, F.Add(v, out.val)) == F.zero { NoZeroDivisors(F, p, F.Add(v, out.val)); }
  }

  function Macs<E>(ws: seq<Wire<E>>): (r: seq<E>)
    ensures |r| == |ws|
  {
    seq(|ws|, i requires 0 <= i < |ws| => ws[i].mac)
  }

  function KeysOf<E>(ws: seq<Wire<E>>): (r: seq<E>)
    ensures |r| == |ws|
  {
    seq(|ws|, i requires 0 <= i < |ws| => ws[i].key)
  }

  lemma Char2Equal<E(!new)>(F: Field<E>, a: E, b: E)
    requires F.Laws() && F.Char2()
    ensures F.Add(a, b) == F.zero <==> a == b
  {
    assert At1(b);
    SubLaws(F, a, b);
  }

  lemma Char2Swap<E(!new)>(F: Field<E>, m: E, k: E, p: E)
    requires F.Laws() && F.Char2() && m == F.Add(k, p)
    ensures F.Add(m, p) == k
  {
    assert At1(p);
    SubLaws(F, k, p);
  }

  // e + p^n v = K + p^(n-1) mac with mac = key + w d becomes e + (K + key p^(n-1)) = p^n (v + w).
  lemma StepIdentity<E(!new)>(F: Field<E>, e: E, k: E, q: E, d: E, v: E, w: E, key: E)
    requires F.Laws() && F.Char2()
    requires F.Add(e, F.Mul(F.Mul(d, q), v)) == F.Add(k, F.Mul(q, F.Add(key, F.Mul(w, d))))
    ensures F.Add(e, F.Add(k, F.Mul(key, q))) == F.Mul(F.Mul(d, q), F.Add(v, w))
  {
    var p, t := F.Mul(d, q), F.Add(k, F.Mul(key, q));
    var pv, pw := F.Mul(p, v), F.Mul(p, w);
    assert F.Add(k, F.Mul(q, F.Add(key, F.Mul(w, d)))) == F.Add(t, pw) by { Ring(F); }
    Char2Swap(F, F.Add(e, pv), e, pv);
    assert e == F.Add(F.Add(t, pw), pv);
    assert F.Add(F.Add(F.Add(t, pw), pv), t) == F.Add(F.Add(pv, pw), F.Add(t, t)) by { AddLaws(F); }
    Char2Equal(F, t, t);
    Zero(F, F.Add(pv, pw));
    assert At3(p, v, w);
  }

  // ---- evaluating the product over wires ----

  // One multiplication: its inputs and the wire committed as its output.
  datatype Step<E> = Step(ins: seq<Wire<E>>, out: Wire<E>)

  ghost predicate StepOk<E(!new)>(F: Field<E>, delta: E, s: Step<E>) {
    && (|s.ins| == 2 || |s.ins| == 5)
    && (forall i :: 0 <= i < |s.ins| ==> Good(F, delta, s.ins[i]))
    && Good(F, delta, s.out) && s.out.val == Prod(F, Vals(s.ins))
  }

  // A fresh commitment: the prover's MAC is `mac`, the verifier's key what makes it good.
  function Commit<E(!new)>(F: Field<E>, delta: E, val: E, mac: E): Wire<E> {
    Wire(val, mac, F.Add(mac, F.Mul(val, delta)))
  }

  lemma CommitGood<E(!new)>(F: Field<E>, delta: E, val: E, mac: E)
    requires F.Laws() && F.Char2()
    ensures Good(F, delta, Commit(F, delta, val, mac))
  {
    Char2Swap(F, F.Add(mac, F.Mul(val, delta)), mac, F.Mul(val, delta));
  }

  lemma ShiftedFactor<E(!new)>(F: Field<E>, e: E, r: E)
    requires F.Laws() && F.Char2()
    ensures F.Add(e, r) == F.Sub(r, e)
  {
    assert At1(e) && At2(e, r);
  }

  lemma ProdSnoc<E(!new)>(F: Field<E>, s: seq<E>, x: E)
    ensures Prod(F, s + [x]) == F.Mul(Prod(F, s), x)
  {
    assert (s + [x])[..|s|] == s;
  }

  lemma Prod5<E(!new)>(F: Field<E>, a: E, b: E, c: E, d: E, e: E)
    requires F.Laws()
    ensures Prod(F, [a, b, c, d, e]) == F.Mul(F.Mul(F.Mul(F.Mul(a, b), c), d), e)
    ensures Prod(F, [a, b]) == F.Mul(a, b)
  {
    ProdSnoc(F, [], a);
    One(F, a);
    assert [] + [a] == [a] && [a] + [b] == [a, b] && [a, b] + [c] == [a, b, c];
    assert [a, b, c] + [d] == [a, b, c, d] && [a, b, c, d] + [e] == [a, b, c, d, e];
    ProdSnoc(F, [a], b);
    ProdSnoc(F, [a, b], c);
    ProdSnoc(F, [a, b, c], d);
    ProdSnoc(F, [a, b, c, d], e);
  }

  lemma TakeFactors<E(!new)>(F: Field<E>, vals: seq<E>, i: nat, r: E)
    requires F.Laws() && F.Char2() && i < |vals|
    ensures RootProd(F, vals[..i + 1], r) == F.Mul(RootProd(F, vals[..i], r), F.Add(vals[i], r))
  {
    assert vals[..i + 1] == vals[..i] + [vals[i]];
    RootProdSnoc(F, vals[..i], vals[i], r);
    ShiftedFactor(F, vals[i], r);
  }

  // The factors: every element with the challenge added.
  function Shifted<E(!new)>(F: Field<E>, delta: E, v: seq<Wire<E>>, r: E): (s: seq<Wire<E>>)
    ensures |s| == |v|
  {
    seq(|v|, i requires 0 <= i < |v| => AddConst(F, delta, v[i], r))
  }

  // Fours as long as there are four factors left after the first, and then one by one.
  function Fours(n: nat): (q: nat)
    requires n >= 1
    ensures 4 * q < n <= 4 * q + 4
  {
    (n - 1) / 4
  }

  // Where step k starts, after q fours at the most.
  function From(q: nat, k: nat): (i: nat) { if k <= q then 1 + 4 * k else 1 + 3 * q + k }

  // Step k multiplies the output of the one before, the first step the first factor, by its factors.
  ghost predicate WiredAt<E>(fs: seq<Wire<E>>, q: nat, steps: seq<Step<E>>, k: nat)
    requires fs != [] && k < |steps|
  {
    Multiplies(fs, q, k, Before(fs, steps, k), steps[k])
  }

  function Before<E>(fs: seq<Wire<E>>, steps: seq<Step<E>>, k: nat): Wire<E>
    requires fs != [] && k <= |steps|
  {
    if k == 0 then fs[0] else steps[k - 1].out
  }

  ghost predicate Multiplies<E>(fs: seq<Wire<E>>, q: nat, k: nat, acc: Wire<E>, s: Step<E>) {
    From(q, k) <= From(q, k + 1) <= |fs| && s.ins == [acc] + fs[From(q, k)..From(q, k + 1)]
  }

  // Every factor goes into exactly one step, in order; the last output is the result.
  ghost predicate Wired<E>(fs: seq<Wire<E>>, acc: Wire<E>, steps: seq<Step<E>>)
    requires fs != []
  {
    && From(Fours(|fs|), |steps|) == |fs|
    && (forall k :: 0 <= k < |steps| ==> WiredAt(fs, Fours(|fs|), steps, k))
    && acc == Before(fs, steps, |steps|)
  }

  ghost predicate Evaluated<E(!new)>(F: Field<E>, delta: E, v: seq<Wire<E>>, i: nat, r: E, acc: Wire<E>,
                                     steps: seq<Step<E>>)
    requires i <= |v|
  {
    && acc.val == RootProd(F, Vals(v)[..i], r) && Good(F, delta, acc)
    && forall k :: 0 <= k < |steps| ==> StepOk(F, delta, steps[k])
  }

  // Multiply in four factors at once.
  method FourStep<E(!new)>(F: Field<E>, delta: E, v: seq<Wire<E>>, i: nat, r: E, acc: Wire<E>, mac: E)
    returns (s: Step<E>)
    requires F.Laws() && F.Char2() && i + 3 < |v| && (forall i :: 0 <= i < |v| ==> Good(F, delta, v[i]))
    requires acc.val == RootProd(F, Vals(v)[..i], r) && Good(F, delta, acc)
    ensures StepOk(F, delta, s) && s.out.val == RootProd(F, Vals(v)[..i + 4], r)
    ensures s.ins == [acc] + Shifted(F, delta, v, r)[i..i + 4] && s.out.mac == mac
  {
    var ins := [acc, AddConst(F, delta, v[i], r), AddConst(F, delta, v[i + 1], r), AddConst(F, delta, v[i + 2], r),
                AddConst(F, delta, v[i + 3], r)];
    FourFactors(F, delta, v, i, r, acc.val);
    assert Vals(ins) == [acc.val, F.Add(v[i].val, r), F.Add(v[i + 1].val, r), F.Add(v[i + 2].val, r),
                         F.Add(v[i + 3].val, r)];
    s := Step(ins, Commit(F, delta, Prod(F, Vals(ins)), mac));
    CommitGood(F, delta, s.out.val, mac);
  }

  // Multiply in one factor.
  method OneStep<E(!new)>(F: Field<E>, delta: E, v: seq<Wire<E>>, i: nat, r: E, acc: Wire<E>, mac: E)
    returns (s: Step<E>)
    requires F.Laws() && F.Char2() && i < |v| && (forall i :: 0 <= i < |v| ==> Good(F, delta, v[i]))
    requires acc.val == RootProd(F, Vals(v)[..i], r) && Good(F, delta, acc)
    ensures StepOk(F, delta, s) && s.out.val == RootProd(F, Vals(v)[..i + 1], r)
    ensures s.ins == [acc] + Shifted(F, delta, v, r)[i..i + 1] && s.out.mac == mac
  {
    var x := AddConst(F, delta, v[i], r);
    AddConstGood(F, delta, v[i], r);
    TakeFactors(F, Vals(v), i, r);
    Prod5(F, acc.val, x.val, x.val, x.val, x.val);
    assert Vals([acc, x]) == [acc.val, x.val];
    s := Step([acc, x], Commit(F, delta, F.Mul(acc.val, x.val), mac));
    CommitGood(F, delta, s.out.val, mac);
  }

  /** The product of (r - e) over all elements, four factors a step and the remainder one by one:
      whatever the grouping, the wire holds the product of all linear factors, is authentic,
      and every step multiplied what it should. `macs` are the MACs of the fresh commitments. */
  method EvalProduct<E(!new)>(F: Field<E>, delta: E, v: seq<Wire<E>>, r: E, macs: seq<E>)
    returns (acc: Wire<E>, steps: seq<Step<E>>)
    requires F.Laws() && F.Char2() && v != [] && |macs| >= |v|
    requires forall i :: 0 <= i < |v| ==> Good(F, delta, v[i])
    ensures acc.val == RootProd(F, Vals(v), r) && Good(F, delta, acc)
    ensures forall k :: 0 <= k < |steps| ==> StepOk(F, delta, steps[k])
    ensures Wired(Shifted(F, delta, v, r), acc, steps)
    ensures |steps| <= |macs| && forall k :: 0 <= k < |steps| ==> steps[k].out.mac == macs[k]
  {
    hide StepOk, Good, RootProd, Chained;
    ghost var fs := Shifted(F, delta, v, r);
    acc := AddConst(F, delta, v[0], r);
    AddConstGood(F, delta, v[0], r);
    FirstFactor(F, Vals(v), r);
    steps := [];
    var i := 1;
    ghost var q := Fours(|v|);
    ChainStarts(fs, q, macs);
    while i + 3 < |v|
      invariant 1 <= i <= |v| && 4 * |steps| == i - 1
      invariant Evaluated(F, delta, v, i, r, acc, steps) && Chained(fs, q, i, acc, steps, macs)
    {
      var s := FourStep(F, delta, v, i, r, acc, macs[|steps|]);
      ChainNext(fs, q, i, acc, steps, macs, s);
      steps, acc, i := steps + [s], s.out, i + 4;
    }
    while i < |v|
      invariant 4 * q < i <= |v| && i == 1 + 3 * q + |steps|
      invariant Evaluated(F, delta, v, i, r, acc, steps) && Chained(fs, q, i, acc, steps, macs)
    {
      var s := OneStep(F, delta, v, i, r, acc, macs[|steps|]);
      ChainNext(fs, q, i, acc, steps, macs, s);
      steps, acc, i := steps + [s], s.out, i + 1;
    }
    assert Vals(v)[..|v|] == Vals(v);
    ChainEnds(fs, acc, steps, macs);
  }

  // After i factors.
  ghost predicate Chained<E(!new)>(fs: seq<Wire<E>>, q: nat, i: nat, acc: Wire<E>, steps: seq<Step<E>>, macs: seq<E>) {
    && fs != [] && i == From(q, |steps|) && |steps| <= |macs|
    && acc == Before(fs, steps, |steps|)
    && forall k :: 0 <= k < |steps| ==> WiredAt(fs, q, steps, k) && steps[k].out.mac == macs[k]
  }

  lemma ChainStarts<E(!new)>(fs: seq<Wire<E>>, q: nat, macs: seq<E>)
    requires fs != []
    ensures Chained(fs, q, 1, fs[0], [], macs)
  {
  }

  lemma ChainNext<E(!new)>(fs: seq<Wire<E>>, q: nat, i: nat, acc: Wire<E>, steps: seq<Step<E>>, macs: seq<E>,
                           s: Step<E>)
    requires Chained(fs, q, i, acc, steps, macs) && |steps| < |macs| && s.out.mac == macs[|steps|]
    requires var n := if |steps| < q then 4 else 1; i + n <= |fs| && s.ins == [acc] + fs[i..i + n]
    ensures Chained(fs, q, i + |s.ins| - 1, s.out, steps + [s], macs)
  {
    var next := steps + [s];
    assert Multiplies(fs, q, |steps|, acc, s);
    assert From(q, |next|) == i + |s.ins| - 1;
    hide Multiplies, From;
    forall k | 0 <= k < |next| ensures WiredAt(fs, q, next, k) && next[k].out.mac == macs[k] {
      if k < |steps| { assert WiredAt(fs, q, steps, k) && next[k] == steps[k]; }
    }
  }

  lemma ChainEnds<E(!new)>(fs: seq<Wire<E>>, acc: Wire<E>, steps: seq<Step<E>>, macs: seq<E>)
    requires fs != [] && Chained(fs, Fours(|fs|), |fs|, acc, steps, macs)
    ensures Wired(fs, acc, steps)
    ensures |steps| <= |macs| && forall k :: 0 <= k < |steps| ==> steps[k].out.mac == macs[k]
  {
    hide WiredAt;
  }

  lemma FirstFactor<E(!new)>(F: Field<E>, vals: seq<E>, r: E)
    requires F.Laws() && F.Char2() && vals != []
    ensures RootProd(F, vals[..1], r) == F.Add(vals[0], r)
  {
    TakeFactors(F, vals, 0, r);
    assert vals[..0] == [];
    One(F, F.Add(vals[0], r));
  }

  lemma FourFactors<E(!new)>(F: Field<E>, delta: E, v: seq<Wire<E>>, i: nat, r: E, a: E)
    requires F.Laws() && F.Char2() && i + 3 < |v| && a == RootProd(F, Vals(v)[..i], r)
    requires forall i :: 0 <= i < |v| ==> Good(F, delta, v[i])
    ensures forall j :: i <= j < i + 4 ==> Good(F, delta, AddConst(F, delta, v[j], r))
    ensures Prod(F, [a, F.Add(v[i].val, r), F.Add(v[i + 1].val, r), F.Add(v[i + 2].val, r), F.Add(v[i + 3].val, r)])
         == RootProd(F, Vals(v)[..i + 4], r)
  {
    forall j | i <= j < i + 4 ensures Good(F, delta, AddConst(F, delta, v[j], r)) { AddConstGood(F, delta, v[j], r); }
    Prod5(F, a, F.Add(v[i].val, r), F.Add(v[i + 1].val, r), F.Add(v[i + 2].val, r), F.Add(v[i + 3].val, r));
    TakeFactors(F, Vals(v), i, r);
    TakeFactors(F, Vals(v), i + 1, r);
    TakeFactors(F, Vals(v), i + 2, r);
    TakeFactors(F, Vals(v), i + 3, r);
  }

  /** Opening two wires: what the verifier compares is val * Delta, so authentic wires pass exactly
      when their values are equal. */
  lemma OpenEqExact<E(!new)>(F: Field<E>, delta: E, pa: Wire<E>, pb: Wire<E>)
    requires F.Laws() && F.Char2() && delta != F.zero && Good(F, delta, pa) && Good(F, delta, pb)
    ensures F.Add(pa.key, pa.mac) == F.Add(pb.key, pb.mac) <==> pa.val == pb.val
  {
    OpenedTimesDelta(F, delta, pa);
    OpenedTimesDelta(F, delta, pb);
    if F.Mul(pa.val, delta) == F.Mul(pb.val, delta) { MulCancel(F, pa.val, pb.val, delta); }
  }

  lemma OpenedTimesDelta<E(!new)>(F: Field<E>, delta: E, p: Wire<E>)
    requires F.Laws() && F.Char2() && Good(F, delta, p)
    ensures F.Add(p.key, p.mac) == F.Mul(p.val, delta)
  {
    var k, v := p.key, F.Mul(p.val, delta);
    assert At3(k, k, v);
    Char2Equal(F, k, k);
    Zero(F, v);
  }

  /** The whole check: for lists of authentic wires of the same length, the opened products are
      compared equal at r exactly when the polynomials agree there; always for permutations. */
  method CheckEq<E(==, !new)>(F: Field<E>, delta: E, a: seq<Wire<E>>, b: seq<Wire<E>>, r: E, freshA: seq<E>,
                              freshB: seq<E>) returns (ok: bool)
    requires F.Laws() && F.Char2() && delta != F.zero && |freshA| >= |a| && |freshB| >= |b|
    requires forall i :: 0 <= i < |a| ==> Good(F, delta, a[i])
    requires forall i :: 0 <= i < |b| ==> Good(F, delta, b[i])
    ensures ok <==> |a| == |b| && RootProd(F, Vals(a), r) == RootProd(F, Vals(b), r)
    ensures multiset(Vals(a)) == multiset(Vals(b)) ==> ok
  {
    PermutationsPass(F, Vals(a), Vals(b), r);
    if |a| != |b| { return false; }
    if a == [] {
      assert Vals(a) == Vals(b);
      return true;
    }
    var pa, stepsA := EvalProduct(F, delta, a, r, freshA);
    var pb, stepsB := EvalProduct(F, delta, b, r, freshB);
    OpenEqExact(F, delta, pa, pb);
    ok := F.Add(pa.key, pa.mac) == F.Add(pb.key, pb.mac);
  }

  lemma PermutationsPass<E(!new)>(F: Field<E>, a: seq<E>, b: seq<E>, r: E)
    requires F.Laws()
    ensures multiset(a) == multiset(b) ==> |a| == |b| && RootProd(F, a, r) == RootProd(F, b, r)
  {
    if multiset(a) == multiset(b) {
      PermutationsAgree(F, a, b, r);
      assert |multiset(a)| == |a| && |multiset(b)| == |b|;
    }
  }

  // ---- the batch check over all buffered products ----

  // Entry by entry, the chi-combination of the buffers.
  function Combine<E(!new)>(F: Field<E>, chi: seq<E>, bufs: seq<seq<E>>): (r: seq<E>)
    requires |chi| == |bufs| && Rows(5, bufs)
    ensures |r| == 5
  {
    if chi == [] then Zeros(F, 5) else VAdd(F, Scale(F, chi[0], bufs[0]), Combine(F, chi[1..], bufs[1..]))
  }

  function EvalEach<E(!new)>(F: Field<E>, bufs: seq<seq<E>>, d: E): (r: seq<E>)
    ensures |r| == |bufs|
  {
    seq(|bufs|, i requires 0 <= i < |bufs| => Eval(F, bufs[i], d))
  }

  /** Folding keeps the equation: the combined buffers evaluate to the combination of what each
      buffer evaluates to, so the batch check holds whenever every product's equation does. */
  lemma {:induction false} CombineEval<E(!new)>(F: Field<E>, chi: seq<E>, bufs: seq<seq<E>>, d: E)
    requires F.Laws() && |chi| == |bufs| && Rows(5, bufs)
    ensures Eval(F, Combine(F, chi, bufs), d) == Dot(F, chi, EvalEach(F, bufs, d))
  {
    if chi == [] {
      EvalZeros(F, 5, d);
    } else {
      CombineEval(F, chi[1..], bufs[1..], d);
      EvalVAdd(F, Scale(F, chi[0], bufs[0]), Combine(F, chi[1..], bufs[1..]), d);
      EvalScale(F, chi[0], bufs[0], d);
      assert EvalEach(F, bufs, d)[1..] == EvalEach(F, bufs[1..], d);
    }
  }

  // A buffered product: its inputs, the output committed for it (right or not), its buffer.
  datatype Buffer<E> = Buffer(ins: seq<Wire<E>>, out: Wire<E>, coeffs: seq<E>)

  ghost predicate BufferOk<E(!new)>(F: Field<E>, delta: E, b: Buffer<E>) {
    && 1 <= |b.ins| <= 5 && Good(F, delta, b.out)
    && (forall i :: 0 <= i < |b.ins| ==> Good(F, delta, b.ins[i]))
    && Buffered(F, Vals(b.ins), Macs(b.ins), b.out.mac, b.coeffs)
  }

  // (product + committed output) * Delta^N: zero exactly for a right output, Delta being nonzero.
  function ProductError<E(!new)>(F: Field<E>, delta: E, b: Buffer<E>): E {
    F.Mul(Pow(F, delta, |b.ins|), F.Add(Prod(F, Vals(b.ins)), b.out.val))
  }

  function Coeffs<E>(bs: seq<Buffer<E>>): (r: seq<seq<E>>)
    ensures |r| == |bs|
  {
    seq(|bs|, i requires 0 <= i < |bs| => bs[i].coeffs)
  }

  function VerifierSide<E(!new)>(F: Field<E>, delta: E, bs: seq<Buffer<E>>): (r: seq<E>)
    requires forall i :: 0 <= i < |bs| ==> 1 <= |bs[i].ins|
    ensures |r| == |bs|
  {
    seq(|bs|, i requires 0 <= i < |bs| => VerifierProduct(F, KeysOf(bs[i].ins), bs[i].out.key, delta))
  }

  function Errors<E(!new)>(F: Field<E>, delta: E, bs: seq<Buffer<E>>): (r: seq<E>)
    ensures |r| == |bs|
  {
    seq(|bs|, i requires 0 <= i < |bs| => ProductError(F, delta, bs[i]))
  }

  /** Exactness of the batch check: with every MAC in order, what the prover sends and what the
      verifier holds differ by the chi-combination of the products' errors; so right outputs always
      pass, and wrong ones only if chi makes their errors cancel. */
  lemma BatchCheckExact<E(!new)>(F: Field<E>, delta: E, bs: seq<Buffer<E>>, chi: seq<E>)
    requires F.Laws() && F.Char2() && |chi| == |bs|
             && forall i :: 0 <= i < |bs| ==> 1 <= |bs[i].ins| && BufferOk(F, delta, bs[i])
    ensures Rows(5, Coeffs(bs))
    ensures F.Add(Eval(F, Combine(F, chi, Coeffs(bs)), delta), Dot(F, chi, VerifierSide(F, delta, bs)))
         == Dot(F, chi, Errors(F, delta, bs))
    ensures Eval(F, Combine(F, chi, Coeffs(bs)), delta) == Dot(F, chi, VerifierSide(F, delta, bs))
       <==> Dot(F, chi, Errors(F, delta, bs)) == F.zero
  {
    var es, vs := EvalEach(F, Coeffs(bs), delta), VerifierSide(F, delta, bs);
    forall i | 0 <= i < |bs| ensures VAdd(F, es, vs)[i] == Errors(F, delta, bs)[i] {
      assert BufferOk(F, delta, bs[i]);
      ProductStepExact(F, delta, bs[i].ins, bs[i].out, bs[i].coeffs);
    }
    assert VAdd(F, es, vs) == Errors(F, delta, bs);
    forall i | 0 <= i < |bs| ensures |Coeffs(bs)[i]| == 5 { assert BufferOk(F, delta, bs[i]); }
    CombineEval(F, chi, Coeffs(bs), delta);
    DotAddRight(F, chi, es, vs);
    Char2Equal(F, Dot(F, chi, es), Dot(F, chi, vs));
  }

  // ---- records as field elements ----

  // The sum of a block's wires, each times its power of X; short blocks are padded with zero wires.
  function Packed<E(!new)>(F: Field<E>, basis: seq<E>, ws: seq<Wire<E>>): Wire<E>
    requires |ws| <= |basis|
  {
    var b := basis[..|ws|];
    Wire(Dot(F, b, Vals(ws)), Dot(F, b, Macs(ws)), Dot(F, b, KeysOf(ws)))
  }

  /** A block of authentic bits packs to an authentic field element. */
  lemma PackedGood<E(!new)>(F: Field<E>, delta: E, basis: seq<E>, ws: seq<Wire<E>>)
    requires F.Laws() && |ws| <= |basis| && forall i :: 0 <= i < |ws| ==> Good(F, delta, ws[i])
    ensures Good(F, delta, Packed(F, basis, ws))
  {
    var b := basis[..|ws|];
    forall i | 0 <= i < |ws| ensures Macs(ws)[i] == VAdd(F, KeysOf(ws), Scale(F, delta, Vals(ws)))[i] {
      assert At2(delta, ws[i].val);
    }
    assert Macs(ws) == VAdd(F, KeysOf(ws), Scale(F, delta, Vals(ws)));
    DotAddRight(F, b, KeysOf(ws), Scale(F, delta, Vals(ws)));
    DotScaleRight(F, b, delta, Vals(ws));
    assert At2(delta, Dot(F, b, Vals(ws)));
  }

  /** Bit i of a block is worth the i-th power. */
  lemma OneBitPacks<E(!new)>(F: Field<E>, basis: seq<E>, ws: seq<Wire<E>>, i: nat)
    requires F.Laws() && i < |ws| <= |basis| && UnitRow(F, Vals(ws), i)
    ensures Packed(F, basis, ws).val == basis[i]
  {
    DotComm(F, basis[..|ws|], Vals(ws));
    DotUnit(F, Vals(ws), basis[..|ws|], i);
  }

  // One field element for every |basis| wires.
  function PackRecord<E(!new)>(F: Field<E>, basis: seq<E>, ws: seq<Wire<E>>): (r: seq<Wire<E>>)
    requires basis != []
    decreases |ws|
  {
    if ws == [] then []
    else if |ws| <= |basis| then [Packed(F, basis, ws)]
    else [Packed(F, basis, ws[..|basis|])] + PackRecord(F, basis, ws[|basis|..])
  }

  lemma {:induction false} PackRecordGood<E(!new)>(F: Field<E>, delta: E, basis: seq<E>, ws: seq<Wire<E>>)
    requires F.Laws() && basis != [] && forall i :: 0 <= i < |ws| ==> Good(F, delta, ws[i])
    ensures forall k :: 0 <= k < |PackRecord(F, basis, ws)| ==> Good(F, delta, PackRecord(F, basis, ws)[k])
    decreases |ws|
  {
    hide Good, Packed;
    if |ws| > |basis| {
      PackedGood(F, delta, basis, ws[..|basis|]);
      PackRecordGood(F, delta, basis, ws[|basis|..]);
    } else if ws != [] {
      PackedGood(F, delta, basis, ws);
    }
  }

  ghost predicate IsBits<E(!new)>(F: Field<E>, s: seq<E>) {
    forall i :: 0 <= i < |s| ==> s[i] == F.zero || s[i] == F.one
  }

  // Different bits make different sums: X, as an element of GF(2^128), has degree 128.
  ghost predicate Independent<E(!new)>(F: Field<E>, basis: seq<E>) {
    forall n: nat, s: seq<E>, t: seq<E> ::
      n <= |basis| && |s| == |t| == n && IsBits(F, s) && IsBits(F, t) ==>
        Dot(F, basis[..n], s) == Dot(F, basis[..n], t) ==> s == t
  }

  // The values of a packed record.
  function PackValues<E(!new)>(F: Field<E>, basis: seq<E>, s: seq<E>): (r: seq<E>)
    requires basis != []
    decreases |s|
  {
    if s == [] then []
    else
      var n := if |s| <= |basis| then |s| else |basis|;
      [Dot(F, basis[..n], s[..n])] + PackValues(F, basis, s[n..])
  }

  lemma {:induction false} PackedValues<E(!new)>(F: Field<E>, basis: seq<E>, ws: seq<Wire<E>>)
    requires basis != []
    ensures Vals(PackRecord(F, basis, ws)) == PackValues(F, basis, Vals(ws))
    decreases |ws|
  {
    if 0 < |ws| <= |basis| {
      assert Vals(ws)[..|ws|] == Vals(ws) && PackValues(F, basis, Vals(ws)[|ws|..]) == [];
    } else if ws != [] {
      var n := |basis|;
      assert Vals(ws[..n]) == Vals(ws)[..n] && Vals(ws[n..]) == Vals(ws)[n..];
      PackedValues(F, basis, ws[n..]);
    }
  }

  lemma SameBits<E(!new)>(F: Field<E>, basis: seq<E>, n: nat, s: seq<E>, t: seq<E>)
    requires Independent(F, basis) && n <= |basis| && |s| == |t| == n && IsBits(F, s) && IsBits(F, t)
    requires Dot(F, basis[..n], s) == Dot(F, basis[..n], t)
    ensures s == t
  {
  }

  lemma {:induction false} ValuesInjective<E(!new)>(F: Field<E>, basis: seq<E>, s: seq<E>, t: seq<E>)
    requires basis != [] && Independent(F, basis) && |s| == |t| && IsBits(F, s) && IsBits(F, t)
    requires PackValues(F, basis, s) == PackValues(F, basis, t)
    ensures s == t
    decreases |s|
  {
    hide Independent;
    if s != [] {
      var n := if |s| <= |basis| then |s| else |basis|;
      var x, y := PackValues(F, basis, s), PackValues(F, basis, t);
      assert x[0] == Dot(F, basis[..n], s[..n]) && y[0] == Dot(F, basis[..n], t[..n]);
      SameBits(F, basis, n, s[..n], t[..n]);
      assert x[1..] == PackValues(F, basis, s[n..]) && y[1..] == PackValues(F, basis, t[n..]);
      ValuesInjective(F, basis, s[n..], t[n..]);
      assert s == s[..n] + s[n..] && t == t[..n] + t[n..];
    }
  }

  /** Records of equal width pack to equal field elements only if they are equal bit by bit. */
  lemma PackInjective<E(!new)>(F: Field<E>, basis: seq<E>, v: seq<Wire<E>>, w: seq<Wire<E>>)
    requires basis != [] && Independent(F, basis) && |v| == |w| && IsBits(F, Vals(v)) && IsBits(F, Vals(w))
    requires Vals(PackRecord(F, basis, v)) == Vals(PackRecord(F, basis, w))
    ensures Vals(v) == Vals(w)
  {
    hide Independent, PackRecord, PackValues;
    PackedValues(F, basis, v);
    PackedValues(F, basis, w);
    ValuesInjective(F, basis, Vals(v), Vals(w));
  }
}
