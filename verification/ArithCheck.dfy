/** The multiplication check of the arithmetic engine: each party's sums over its worker slices, and
    the exact difference of the two sides. */
module ArithCheck {
  import opened Algebra
  import opened Polynomials
  import Folding
  import opened ArithEngine

  // The prover's MAC is the verifier's key plus the value times Delta.
  ghost predicate Tagged<E(!new)>(F: Field<E>, delta: E, a: Wire<E>, k: Wire<E>) {
    a.mac == F.Add(k.mac, F.Mul(a.val, delta))
  }

  ghost predicate AllTagged<E(!new)>(F: Field<E>, delta: E, xs: seq<Wire<E>>, ks: seq<Wire<E>>) {
    |xs| == |ks| && forall i :: 0 <= i < |xs| ==> Tagged(F, delta, xs[i], ks[i])
  }

  // ---- one gate ----

  function A0<E(!new)>(F: Field<E>, a: Wire<E>, b: Wire<E>): E { F.Mul(a.mac, b.mac) }

  function A1<E(!new)>(F: Field<E>, a: Wire<E>, b: Wire<E>, c: Wire<E>): E {
    F.Sub(F.Add(F.Mul(a.val, b.mac), F.Mul(b.val, a.mac)), c.mac)
  }

  function B<E(!new)>(F: Field<E>, delta: E, ka: Wire<E>, kb: Wire<E>, kc: Wire<E>): E {
    F.Add(F.Mul(ka.mac, kb.mac), F.Mul(kc.mac, delta))
  }

  // How wrong the gate is: a * b - c.
  function Defect<E(!new)>(F: Field<E>, a: Wire<E>, b: Wire<E>, c: Wire<E>): E { F.Sub(F.Mul(a.val, b.val), c.val) }

  lemma Products<E(!new)>(F: Field<E>, d: E, a: E, b: E, ka: E, kb: E)
    requires F.Laws()
    ensures F.Add(F.Mul(ka, kb), F.Mul(d, F.Add(F.Mul(a, F.Add(kb, F.Mul(b, d))), F.Mul(b, F.Add(ka, F.Mul(a, d))))))
         == F.Add(F.Mul(F.Add(ka, F.Mul(a, d)), F.Add(kb, F.Mul(b, d))), F.Mul(F.Mul(d, d), F.Mul(a, b)))
  {
    var p := F.Mul(a, b);
    assert F.Mul(d, F.Add(F.Mul(a, F.Add(kb, F.Mul(b, d))), F.Mul(b, F.Add(ka, F.Mul(a, d)))))
        == F.Add(F.Mul(F.Mul(d, a), kb),
                 F.Add(F.Mul(F.Mul(d, b), ka), F.Add(F.Mul(F.Mul(d, d), p), F.Mul(F.Mul(d, d), p)))) by { Ring(F); }
    assert F.Mul(F.Add(ka, F.Mul(a, d)), F.Add(kb, F.Mul(b, d)))
        == F.Add(F.Mul(ka, kb), F.Add(F.Mul(F.Mul(d, b), ka),
                                      F.Add(F.Mul(F.Mul(d, a), kb), F.Mul(F.Mul(d, d), p)))) by { Ring(F); }
    AddLaws(F);
  }

  // The tags cancel: what is left of a gate is Delta^2 times its defect.
  lemma GateIdentity<E(!new)>(F: Field<E>, delta: E, a: Wire<E>, b: Wire<E>, c: Wire<E>, ka: Wire<E>, kb: Wire<E>,
                              kc: Wire<E>)
    requires F.Laws() && Tagged(F, delta, a, ka) && Tagged(F, delta, b, kb) && Tagged(F, delta, c, kc)
    ensures F.Add(B(F, delta, ka, kb, kc), F.Mul(delta, A1(F, a, b, c)))
         == F.Add(A0(F, a, b), F.Mul(F.Mul(delta, delta), Defect(F, a, b, c)))
  {
    var d, dd, s, p := delta, F.Mul(delta, delta), F.Add(F.Mul(a.val, b.mac), F.Mul(b.val, a.mac)), F.Mul(a.val, b.val);
    Products(F, d, a.val, b.val, ka.mac, kb.mac);
    MinusTag(F, d, s, kc.mac, c.val);
    MinusValue(F, dd, p, c.val);
    var k, u, v, w := F.Mul(ka.mac, kb.mac), F.Mul(kc.mac, d), F.Mul(d, s), F.Neg(F.Mul(dd, c.val));
    assert F.Add(F.Add(k, u), F.Add(F.Add(v, F.Neg(u)), w)) == F.Add(F.Add(k, v), w) by { Regrouped(F, k, u, v, w); }
    assert At3(A0(F, a, b), F.Mul(dd, p), w);
  }

  lemma Regrouped<E(!new)>(F: Field<E>, k: E, u: E, v: E, w: E)
    requires F.Laws()
    ensures F.Add(F.Add(k, u), F.Add(F.Add(v, F.Neg(u)), w)) == F.Add(F.Add(k, v), w)
  {
    assert At1(u);
    assert F.Add(F.Add(k, u), F.Add(F.Add(v, F.Neg(u)), w)) == F.Add(F.Add(F.Add(k, v), w),
                                                                     F.Add(u, F.Neg(u))) by { AddLaws(F); }
    Zero(F, F.Add(F.Add(k, v), w));
  }

  // d * (s - (k + c d)) = d s - k d - d^2 c
  lemma MinusTag<E(!new)>(F: Field<E>, d: E, s: E, k: E, c: E)
    requires F.Laws()
    ensures F.Mul(d, F.Sub(s, F.Add(k, F.Mul(c, d))))
         == F.Add(F.Add(F.Mul(d, s), F.Neg(F.Mul(k, d))), F.Neg(F.Mul(F.Mul(d, d), c)))
  {
    var x, t := F.Mul(c, d), F.Add(k, F.Mul(c, d));
    assert At3(d, s, F.Neg(t)) && At3(d, k, x);
    NegLaws(F, d, t);
    NegLaws(F, F.Mul(d, k), F.Mul(d, x));
    assert F.Mul(d, x) == F.Mul(F.Mul(d, d), c) && F.Mul(d, k) == F.Mul(k, d) by { MulLaws(F); }
    assert At3(F.Mul(d, s), F.Neg(F.Mul(k, d)), F.Neg(F.Mul(F.Mul(d, d), c)));
  }

  lemma MinusValue<E(!new)>(F: Field<E>, dd: E, p: E, c: E)
    requires F.Laws()
    ensures F.Mul(dd, F.Sub(p, c)) == F.Add(F.Mul(dd, p), F.Neg(F.Mul(dd, c)))
  {
    assert At3(dd, p, F.Neg(c));
    NegLaws(F, dd, c);
  }

  // ---- a whole batch ----

  function A0s<E(!new)>(F: Field<E>, l: seq<Wire<E>>, r: seq<Wire<E>>): (s: seq<E>)
    requires |l| == |r|
    ensures |s| == |l|
  {
    seq(|l|, i requires 0 <= i < |l| => A0(F, l[i], r[i]))
  }

  function A1s<E(!new)>(F: Field<E>, l: seq<Wire<E>>, r: seq<Wire<E>>, o: seq<Wire<E>>): (s: seq<E>)
    requires |l| == |r| == |o|
    ensures |s| == |l|
  {
    seq(|l|, i requires 0 <= i < |l| => A1(F, l[i], r[i], o[i]))
  }

  function Bs<E(!new)>(F: Field<E>, delta: E, l: seq<Wire<E>>, r: seq<Wire<E>>, o: seq<Wire<E>>): (s: seq<E>)
    requires |l| == |r| == |o|
    ensures |s| == |l|
  {
    seq(|l|, i requires 0 <= i < |l| => B(F, delta, l[i], r[i], o[i]))
  }

  function Defects<E(!new)>(F: Field<E>, l: seq<Wire<E>>, r: seq<Wire<E>>, o: seq<Wire<E>>): (s: seq<E>)
    requires |l| == |r| == |o|
    ensures |s| == |l|
  {
    seq(|l|, i requires 0 <= i < |l| => Defect(F, l[i], r[i], o[i]))
  }

  // The prover's message: the two folded sums, masked by one correlation.
  function Proof<E(!new)>(F: Field<E>, l: seq<Wire<E>>, r: seq<Wire<E>>, o: seq<Wire<E>>, chi: seq<E>,
                          mask: Wire<E>): (E, E)
    requires |l| == |r| == |o| == |chi|
  {
    (F.Add(Dot(F, A0s(F, l, r), chi), mask.mac), F.Add(Dot(F, A1s(F, l, r, o), chi), mask.val))
  }

  // What the verifier compares the first sum with.
  function Expected<E(!new)>(F: Field<E>, delta: E, l: seq<Wire<E>>, r: seq<Wire<E>>, o: seq<Wire<E>>, chi: seq<E>,
                             mask: Wire<E>, sum1: E): E
    requires |l| == |r| == |o| == |chi|
  {
    F.Add(F.Mul(sum1, delta), F.Add(Dot(F, Bs(F, delta, l, r, o), chi), mask.mac))
  }

  /** For any values whose MACs are valid and any coefficients, the two sides of the comparison
      differ by Delta^2 times the combination of the gates' defects; the mask cancels. */
  lemma CheckDifference<E(!new)>(F: Field<E>, delta: E, l: seq<Wire<E>>, r: seq<Wire<E>>, o: seq<Wire<E>>,
                                 kl: seq<Wire<E>>, kr: seq<Wire<E>>, ko: seq<Wire<E>>, chi: seq<E>, mask: Wire<E>,
                                 kmask: Wire<E>)
    requires F.Laws() && |l| == |r| == |o| == |chi| && Tagged(F, delta, mask, kmask)
    requires AllTagged(F, delta, l, kl) && AllTagged(F, delta, r, kr) && AllTagged(F, delta, o, ko)
    ensures var p := Proof(F, l, r, o, chi, mask);
            Expected(F, delta, kl, kr, ko, chi, kmask, p.1)
              == F.Add(p.0, F.Mul(F.Mul(delta, delta), Dot(F, Defects(F, l, r, o), chi)))
  {
    var dd := F.Mul(delta, delta);
    var a0, a1, b, e := A0s(F, l, r), A1s(F, l, r, o), Bs(F, delta, kl, kr, ko), Defects(F, l, r, o);
    assert VAdd(F, b, Scale(F, delta, a1)) == VAdd(F, a0, Scale(F, dd, e)) by {
      forall i | 0 <= i < |l| ensures F.Add(b[i], F.Mul(delta, a1[i])) == F.Add(a0[i], F.Mul(dd, e[i])) {
        assert Tagged(F, delta, l[i], kl[i]) && Tagged(F, delta, r[i], kr[i]) && Tagged(F, delta, o[i], ko[i]);
        GateIdentity(F, delta, l[i], r[i], o[i], kl[i], kr[i], ko[i]);
      }
    }
    hide A0s, A1s, Bs, Defects, AllTagged;
    Folding.DotAddLeft(F, b, Scale(F, delta, a1), chi);
    Folding.DotScaleLeft(F, delta, a1, chi);
    Folding.DotAddLeft(F, a0, Scale(F, dd, e), chi);
    Folding.DotScaleLeft(F, dd, e, chi);
    MaskCancels(F, delta, Dot(F, a0, chi), Dot(F, a1, chi), Dot(F, b, chi), F.Mul(dd, Dot(F, e, chi)), mask.val,
                kmask.mac);
  }

  lemma MaskCancels<E(!new)>(F: Field<E>, d: E, u: E, v: E, w: E, x: E, m: E, k: E)
    requires F.Laws() && F.Add(w, F.Mul(d, v)) == F.Add(u, x)
    ensures F.Add(F.Mul(F.Add(v, m), d), F.Add(w, k)) == F.Add(F.Add(u, F.Add(k, F.Mul(m, d))), x)
  {
    assert F.Add(F.Mul(F.Add(v, m), d), F.Add(w, k)) == F.Add(F.Add(w, F.Mul(d, v)),
                                                              F.Add(k, F.Mul(m, d))) by { Ring(F); }
    assert F.Add(F.Add(u, x), F.Add(k, F.Mul(m, d))) == F.Add(F.Add(u, F.Add(k, F.Mul(m, d))), x) by { AddLaws(F); }
  }

  /** An honest proof passes for every batch of correct gates, at every chi; with a wrong gate and a
      nonzero Delta it passes exactly if chi hides the defects. */
  lemma CheckPasses<E(!new)>(F: Field<E>, delta: E, l: seq<Wire<E>>, r: seq<Wire<E>>, o: seq<Wire<E>>,
                             kl: seq<Wire<E>>, kr: seq<Wire<E>>, ko: seq<Wire<E>>, chi: seq<E>, mask: Wire<E>,
                             kmask: Wire<E>)
    requires F.Laws() && |l| == |r| == |o| == |chi| && Tagged(F, delta, mask, kmask)
    requires AllTagged(F, delta, l, kl) && AllTagged(F, delta, r, kr) && AllTagged(F, delta, o, ko)
    ensures var p := Proof(F, l, r, o, chi, mask);
            && (Dot(F, Defects(F, l, r, o), chi) == F.zero ==> p.0 == Expected(F, delta, kl, kr, ko, chi, kmask, p.1))
            && (delta != F.zero && p.0 == Expected(F, delta, kl, kr, ko, chi, kmask, p.1) ==>
                  Dot(F, Defects(F, l, r, o), chi) == F.zero)
    ensures (forall i :: 0 <= i < |l| ==> o[i].val == F.Mul(l[i].val, r[i].val)) ==>
               Dot(F, Defects(F, l, r, o), chi) == F.zero
  {
    var p, dd, e := Proof(F, l, r, o, chi, mask), F.Mul(delta, delta), Dot(F, Defects(F, l, r, o), chi);
    CheckDifference(F, delta, l, r, o, kl, kr, ko, chi, mask, kmask);
    Zero(F, p.0);
    Zero(F, dd);
    if F.Add(p.0, F.Mul(dd, e)) == p.0 {
      assert At2(p.0, F.Mul(dd, e)) && At2(p.0, F.zero);
      Cancel(F, F.Mul(dd, e), F.zero, p.0);
      NoZeroDivisors(F, dd, e);
      if delta != F.zero && dd == F.zero { NoZeroDivisors(F, delta, delta); }
    }
    if forall i :: 0 <= i < |l| ==> o[i].val == F.Mul(l[i].val, r[i].val) {
      forall i | 0 <= i < |l|
        ensures Defects(F, l, r, o)[i] == F.zero
      {
        SubLaws(F, F.Mul(l[i].val, r[i].val), o[i].val);
      }
      assert Defects(F, l, r, o) == Zeros(F, |l|);
      DotComm(F, Zeros(F, |l|), chi);
      DotZeros(F, chi);
    }
  }

  // ---- any proof ----

  // The key that belongs to an authenticated value under Delta.
  function KeyFor<E(!new)>(F: Field<E>, delta: E,
                           a: Wire<E>): Wire<E> { Wire(F.zero, F.Sub(a.mac, F.Mul(a.val, delta))) }

  function KeysFor<E(!new)>(F: Field<E>, delta: E, s: seq<Wire<E>>): (r: seq<Wire<E>>)
    requires F.Laws()
    ensures AllTagged(F, delta, s, r)
  {
    var r := seq(|s|, i requires 0 <= i < |s| => KeyFor(F, delta, s[i]));
    assert AllTagged(F, delta, s, r) by {
      forall i | 0 <= i < |s| ensures Tagged(F, delta, s[i], r[i]) { KeyTags(F, delta, s[i]); }
    }
    r
  }

  lemma KeyTags<E(!new)>(F: Field<E>, delta: E, a: Wire<E>)
    requires F.Laws()
    ensures Tagged(F, delta, a, KeyFor(F, delta, a))
  {
    SubLaws(F, a.mac, F.Mul(a.val, delta));
  }

  // A verifier holding Delta accepts the two numbers sent.
  ghost predicate AcceptsUnder<E(!new)>(F: Field<E>, delta: E, l: seq<Wire<E>>, r: seq<Wire<E>>, o: seq<Wire<E>>,
                                        chi: seq<E>, mask: Wire<E>, sum0: E, sum1: E)
    requires F.Laws() && |l| == |r| == |o| == |chi|
  {
    sum0 == Expected(F, delta, KeysFor(F, delta, l), KeysFor(F, delta, r), KeysFor(F, delta, o), chi,
                     KeyFor(F, delta, mask), sum1)
  }

  // What accepting means: a quadratic in Delta, led by the folded defect, vanishes.
  lemma AcceptedIsRoot<E(!new)>(F: Field<E>, delta: E, l: seq<Wire<E>>, r: seq<Wire<E>>, o: seq<Wire<E>>, chi: seq<E>,
                                mask: Wire<E>, sum0: E, sum1: E)
    requires F.Laws() && |l| == |r| == |o| == |chi|
    ensures var p := Proof(F, l, r, o, chi, mask);
            var quadratic := [F.Sub(p.0, sum0), F.Sub(sum1, p.1), Dot(F, Defects(F, l, r, o), chi)];
            AcceptsUnder(F, delta, l, r, o, chi, mask, sum0, sum1) <==> Eval(F, quadratic, delta) == F.zero
  {
    var p, e := Proof(F, l, r, o, chi, mask), Dot(F, Defects(F, l, r, o), chi);
    var kl, kr, ko, km := KeysFor(F, delta, l), KeysFor(F, delta, r), KeysFor(F, delta, o), KeyFor(F, delta, mask);
    KeyTags(F, delta, mask);
    CheckDifference(F, delta, l, r, o, kl, kr, ko, chi, mask, km);
    QuadraticValue(F, p.0, p.1, sum0, sum1, e, delta, F.Add(Dot(F, Bs(F, delta, kl, kr, ko), chi), km.mac));
  }

  lemma QuadraticValue<E(!new)>(F: Field<E>, p0: E, p1: E, s0: E, s1: E, e: E, d: E, k: E)
    requires F.Laws() && F.Add(F.Mul(p1, d), k) == F.Add(p0, F.Mul(F.Mul(d, d), e))
    ensures s0 == F.Add(F.Mul(s1, d), k) <==> Eval(F, [F.Sub(p0, s0), F.Sub(s1, p1), e], d) == F.zero
  {
    var c0, c1 := F.Sub(p0, s0), F.Sub(s1, p1);
    var v, x := F.Add(F.Mul(s1, d), k), F.Mul(d, F.Add(c1, F.Mul(d, e)));
    EvalCons(F, e, [], d);
    EvalCons(F, c1, [e], d);
    EvalCons(F, c0, [c1, e], d);
    EvalConst(F, e, d);
    SubLaws(F, p0, s0);
    SubLaws(F, s1, p1);
    assert [c0] + [c1, e] == [c0, c1, e] && [c1] + [e] == [c1, e];
    assert F.Add(s0, F.Add(c0, x)) == v by {
      assert v == F.Add(F.Mul(F.Add(c1, p1), d), k);
      assert F.Add(F.Mul(F.Add(c1, p1), d), k) == F.Add(F.Mul(c1, d), F.Add(F.Mul(p1, d), k)) by { Ring(F); }
      assert F.Add(s0, F.Add(c0, x)) == F.Add(F.Add(s0, c0), x) by { AddLaws(F); }
      assert F.Add(F.Mul(c1, d), F.Add(p0, F.Mul(F.Mul(d, d), e))) == F.Add(p0, x) by { Ring(F); }
    }
    Zero(F, s0);
    var ev := F.Add(c0, x);
    assert At2(s0, ev) && At2(s0, F.zero);
    if s0 == v { Cancel(F, ev, F.zero, s0); }
  }

  /** Soundness against any two numbers sent: if chi does not hide the defects, at most two of the
      Delta under which the values are authenticated let the verifier accept. */
  lemma FewDeltas<E(!new)>(F: Field<E>, l: seq<Wire<E>>, r: seq<Wire<E>>, o: seq<Wire<E>>, chi: seq<E>, mask: Wire<E>,
                           sum0: E, sum1: E, deltas: set<E>)
    requires F.Laws() && |l| == |r| == |o| == |chi| && Dot(F, Defects(F, l, r, o), chi) != F.zero
    requires forall d :: d in deltas ==> AcceptsUnder(F, d, l, r, o, chi, mask, sum0, sum1)
    ensures |deltas| <= 2
  {
    hide AcceptsUnder, Proof, Defects, Eval;
    if |deltas| > 2 {
      var p, e := Proof(F, l, r, o, chi, mask), Dot(F, Defects(F, l, r, o), chi);
      var c := [F.Sub(p.0, sum0), F.Sub(sum1, p.1), e];
      forall d | d in deltas ensures Eval(F, c, d) == F.zero { AcceptedIsRoot(F, d, l, r, o, chi, mask, sum0, sum1); }
      LeadingZero(F, c, deltas);
    }
  }

  // ---- workers ----

  // Coefficients of all workers' slices, in order.
  function Joined<E(!new)>(chis: seq<seq<E>>): seq<E> {
    if chis == [] then [] else Joined(chis[..|chis| - 1]) + chis[|chis| - 1]
  }

  // Slices of the given lengths from the front of s.
  ghost predicate Slices<E(!new)>(ranges: seq<(nat, nat)>, chis: seq<seq<E>>, n: nat) {
    && |ranges| == |chis| && (if ranges == [] then n == 0 else ranges[|ranges| - 1].1 == n)
    && (forall t :: 0 <= t < |ranges| ==> ranges[t].0 <= ranges[t].1 <= n && |chis[t]| == ranges[t].1 - ranges[t].0)
    && (forall t :: 0 <= t < |ranges| ==> ranges[t].0 == if t == 0 then 0 else ranges[t - 1].1)
  }

  method SliceSum<E(!new)>(F: Field<E>, s: seq<E>, lo: nat, hi: nat, chi: seq<E>) returns (sum: E)
    requires F.Laws() && lo <= hi <= |s| && |chi| == hi - lo
    ensures sum == Dot(F, s[lo..hi], chi)
  {
    sum := F.zero;
    for k := 0 to hi - lo
      invariant sum == Dot(F, s[lo..hi][..k], chi[..k])
    {
      DotTake(F, s[lo..hi], chi, k);
      sum := F.Add(sum, F.Mul(s[lo + k], chi[k]));
    }
    assert s[lo..hi][..hi - lo] == s[lo..hi] && chi[..hi - lo] == chi;
  }

  /** The workers' partial sums over consecutive slices, each with its own coefficients, add up to
      the sum over the whole buffer with the coefficients joined. */
  method WorkerSums<E(!new)>(F: Field<E>, s: seq<E>, ranges: seq<(nat, nat)>, chis: seq<seq<E>>) returns (total: E)
    requires F.Laws() && Slices(ranges, chis, |s|)
    ensures |Joined(chis)| == |s| && total == Dot(F, s, Joined(chis))
  {
    total := F.zero;
    for t := 0 to |ranges|
      invariant SumUpTo(F, s, ranges, chis, t, total)
    {
      var part := SliceSum(F, s, ranges[t].0, ranges[t].1, chis[t]);
      NextSlice(F, s, ranges, chis, t, total, part);
      total := F.Add(total, part);
    }
    assert chis[..|ranges|] == chis;
    assert s[..|s|] == s;
  }

  ghost predicate SumUpTo<E(!new)>(F: Field<E>, s: seq<E>, ranges: seq<(nat, nat)>, chis: seq<seq<E>>, t: nat,
                                   total: E) {
    && Slices(ranges, chis, |s|) && t <= |ranges|
    && var n := if t == 0 then 0 else ranges[t - 1].1;
       n <= |s| && |Joined(chis[..t])| == n && total == Dot(F, s[..n], Joined(chis[..t]))
  }

  lemma NextSlice<E(!new)>(F: Field<E>, s: seq<E>, ranges: seq<(nat, nat)>, chis: seq<seq<E>>, t: nat, total: E,
                           part: E)
    requires F.Laws() && t < |ranges| && SumUpTo(F, s, ranges, chis, t, total)
    requires part == Dot(F, s[ranges[t].0..ranges[t].1], chis[t])
    ensures SumUpTo(F, s, ranges, chis, t + 1, F.Add(total, part))
  {
    var lo, hi := ranges[t].0, ranges[t].1;
    assert s[..hi] == s[..lo] + s[lo..hi];
    assert chis[..t + 1][..t] == chis[..t] && chis[..t + 1][t] == chis[t];
    DotAppend(F, s[..lo], Joined(chis[..t]), s[lo..hi], chis[t]);
  }
}
