/** The checks of the permutation test against an arbitrary prover. It may commit any output for
    every product and send any sums and MACs; what it is bound to are the values it committed. Wires
    of different values, or wrong products that chi does not hide, are then accepted under few Delta. */
module PermBinding {
  import opened Algebra
  import opened Polynomials
  import opened PermProof
  import ArithEngine
  import ArithCheck

  // What the prover holds of a wire; the verifier's key follows from Delta.
  datatype Held<E> = Held(val: E, mac: E)

  function Keyed<E(!new)>(F: Field<E>, delta: E, h: Held<E>): Wire<E> { Commit(F, delta, h.val, h.mac) }

  function KeyedAll<E(!new)>(F: Field<E>, delta: E, hs: seq<Held<E>>): (r: seq<Wire<E>>)
    ensures |r| == |hs|
  {
    seq(|hs|, i requires 0 <= i < |hs| => Keyed(F, delta, hs[i]))
  }

  function ValsOf<E>(hs: seq<Held<E>>): (r: seq<E>)
    ensures |r| == |hs|
  {
    seq(|hs|, i requires 0 <= i < |hs| => hs[i].val)
  }

  function MacsOf<E>(hs: seq<Held<E>>): (r: seq<E>)
    ensures |r| == |hs|
  {
    seq(|hs|, i requires 0 <= i < |hs| => hs[i].mac)
  }

  // ---- opening two wires ----

  // The verifier that holds this key accepts the two MACs sent.
  ghost predicate OpensEqual<E(!new)>(F: Field<E>, delta: E, pa: Held<E>, pb: Held<E>, macA: E, macB: E) {
    F.Add(Keyed(F, delta, pa).key, macA) == F.Add(Keyed(F, delta, pb).key, macB)
  }

  lemma OpensIsRoot<E(!new)>(F: Field<E>, delta: E, pa: Held<E>, pb: Held<E>, macA: E, macB: E)
    requires F.Laws() && F.Char2() && OpensEqual(F, delta, pa, pb, macA, macB)
    ensures Eval(F, [F.Add(F.Add(pa.mac, macA), F.Add(pb.mac, macB)), F.Add(pa.val, pb.val)], delta) == F.zero
  {
    var c0, c1 := F.Add(F.Add(pa.mac, macA), F.Add(pb.mac, macB)), F.Add(pa.val, pb.val);
    assert [c0, c1] == [c0] + [c1];
    EvalCons(F, c0, [c1], delta);
    EvalConst(F, c1, delta);
    var x, y := F.Add(Keyed(F, delta, pa).key, macA), F.Add(Keyed(F, delta, pb).key, macB);
    assert F.Add(c0, F.Mul(delta, c1)) == F.Add(x, y) by { Ring(F); }
    Char2Equal(F, x, y);
  }

  /** Wires bound to different values open as equal under at most one Delta, whatever MACs are sent. */
  lemma OneDeltaOpens<E(!new)>(F: Field<E>, pa: Held<E>, pb: Held<E>, macA: E, macB: E, deltas: set<E>)
    requires F.Laws() && F.Char2() && pa.val != pb.val
    requires forall d :: d in deltas ==> OpensEqual(F, d, pa, pb, macA, macB)
    ensures |deltas| <= 1
  {
    if |deltas| > 1 {
      var c := [F.Add(F.Add(pa.mac, macA), F.Add(pb.mac, macB)), F.Add(pa.val, pb.val)];
      forall d | d in deltas ensures Eval(F, c, d) == F.zero { OpensIsRoot(F, d, pa, pb, macA, macB); }
      LeadingZero(F, c, deltas);
      Char2Equal(F, pa.val, pb.val);
    }
  }

  // ---- the batch check ----

  // A product of five wires with whatever was committed as its output.
  datatype Product<E> = Product(ins: seq<Held<E>>, out: Held<E>)

  ghost predicate Fives<E>(ps: seq<Product<E>>) {
    forall i :: 0 <= i < |ps| ==> |ps[i].ins| == 5
  }

  // How wrong the output is.
  function Wrong<E(!new)>(F: Field<E>, p: Product<E>): E { F.Add(Prod(F, ValsOf(p.ins)), p.out.val) }

  function Wrongs<E(!new)>(F: Field<E>, ps: seq<Product<E>>): (r: seq<E>)
    ensures |r| == |ps|
  {
    seq(|ps|, i requires 0 <= i < |ps| => Wrong(F, ps[i]))
  }

  // The coefficients an honest prover would have buffered.
  function Expansion<E(!new)>(F: Field<E>, p: Product<E>): (r: seq<E>)
    requires |p.ins| == 5
    ensures Buffered(F, ValsOf(p.ins), MacsOf(p.ins), p.out.mac, r)
  {
    var c := LinProd(F, ValsOf(p.ins), MacsOf(p.ins), 5);
    [c[0], c[1], c[2], c[3], F.Add(c[4], p.out.mac)]
  }

  function Expansions<E(!new)>(F: Field<E>, ps: seq<Product<E>>): (r: seq<seq<E>>)
    requires Fives(ps)
    ensures |r| == |ps| && Rows(5, r)
  {
    seq(|ps|, i requires 0 <= i < |ps| => Expansion(F, ps[i]))
  }

  function Buffers<E(!new)>(F: Field<E>, delta: E, ps: seq<Product<E>>): (r: seq<Buffer<E>>)
    requires Fives(ps)
    ensures |r| == |ps| && forall i :: 0 <= i < |r| ==> |r[i].ins| == 5
  {
    seq(|ps|, i requires 0 <= i < |ps| => Buffer(KeyedAll(F, delta, ps[i].ins), Keyed(F, delta, ps[i].out),
                                                 Expansion(F, ps[i])))
  }

  // The verifier that holds this key accepts the five sums sent for the batch.
  ghost predicate BatchAccepts<E(!new)>(F: Field<E>, delta: E, ps: seq<Product<E>>, chi: seq<E>, sums: seq<E>)
    requires Fives(ps) && |chi| == |ps|
  {
    Eval(F, sums, delta) == Dot(F, chi, VerifierSide(F, delta, Buffers(F, delta, ps)))
  }

  lemma BuffersAreOk<E(!new)>(F: Field<E>, delta: E, ps: seq<Product<E>>)
    requires F.Laws() && F.Char2() && Fives(ps)
    ensures forall i :: 0 <= i < |ps| ==> BufferOk(F, delta, Buffers(F, delta, ps)[i])
    ensures Coeffs(Buffers(F, delta, ps)) == Expansions(F, ps)
    ensures Errors(F, delta, Buffers(F, delta, ps)) == Scale(F, Pow(F, delta, 5), Wrongs(F, ps))
  {
    var bs := Buffers(F, delta, ps);
    forall i | 0 <= i < |ps|
      ensures BufferOk(F, delta, bs[i]) && Errors(F, delta, bs)[i] == F.Mul(Pow(F, delta, 5), Wrong(F, ps[i]))
    {
      var ins := KeyedAll(F, delta, ps[i].ins);
      assert Vals(ins) == ValsOf(ps[i].ins) && Macs(ins) == MacsOf(ps[i].ins);
      forall j | 0 <= j < 5 ensures Good(F, delta, ins[j]) { CommitGood(F, delta, ps[i].ins[j].val, ps[i].ins[j].mac); }
      CommitGood(F, delta, ps[i].out.val, ps[i].out.mac);
    }
  }

  // A polynomial of degree 5 in Delta, led by the folded error.
  function ErrorPoly<E(!new)>(F: Field<E>, ps: seq<Product<E>>, chi: seq<E>, sums: seq<E>): (c: seq<E>)
    requires Fives(ps) && |chi| == |ps| && |sums| == 5
    ensures |c| == 6 && c[5] == Dot(F, chi, Wrongs(F, ps))
  {
    VAdd(F, sums, Combine(F, chi, Expansions(F, ps))) + [Dot(F, chi, Wrongs(F, ps))]
  }

  // What accepting means: it vanishes.
  lemma AcceptedIsRoot<E(!new)>(F: Field<E>, delta: E, ps: seq<Product<E>>, chi: seq<E>, sums: seq<E>)
    requires F.Laws() && F.Char2() && Fives(ps) && |chi| == |ps| && |sums| == 5
    requires BatchAccepts(F, delta, ps, chi, sums)
    ensures Eval(F, ErrorPoly(F, ps, chi, sums), delta) == F.zero
  {
    var comb, w, p5 := Combine(F, chi, Expansions(F, ps)), Dot(F, chi, Wrongs(F, ps)), Pow(F, delta, 5);
    var side := Dot(F, chi, VerifierSide(F, delta, Buffers(F, delta, ps)));
    BuffersAreOk(F, delta, ps);
    BatchCheckExact(F, delta, Buffers(F, delta, ps), chi);
    hide BatchAccepts, Buffers, Expansions, Wrongs, Combine, VerifierSide, Errors, BufferOk, Coeffs;
    DotScaleRight(F, chi, p5, Wrongs(F, ps));
    EvalAppend(F, VAdd(F, sums, comb), [w], delta);
    EvalConst(F, w, delta);
    EvalVAdd(F, sums, comb, delta);
    assert Eval(F, sums, delta) == side by { assert BatchAccepts(F, delta, ps, chi, sums); }
    var x, e := Eval(F, comb, delta), F.Mul(p5, w);
    assert At2(side, x);
    Char2Equal(F, e, e);
  }

  /** If chi does not hide the errors of a batch, at most five Delta accept, whatever sums are sent. */
  lemma FiveDeltasAccept<E(!new)>(F: Field<E>, ps: seq<Product<E>>, chi: seq<E>, sums: seq<E>, deltas: set<E>)
    requires F.Laws() && F.Char2() && Fives(ps) && |chi| == |ps| && |sums| == 5
    requires Dot(F, chi, Wrongs(F, ps)) != F.zero
    requires forall d :: d in deltas ==> BatchAccepts(F, d, ps, chi, sums)
    ensures |deltas| <= 5
  {
    hide *;
    if |deltas| > 5 {
      var c := ErrorPoly(F, ps, chi, sums);
      forall d | d in deltas ensures Eval(F, c, d) == F.zero { AcceptedIsRoot(F, d, ps, chi, sums); }
      LeadingZero(F, c, deltas);
    }
  }

  // ---- the check of two-factor products ----

  ghost predicate Twos<E>(ps: seq<Product<E>>) {
    forall i :: 0 <= i < |ps| ==> |ps[i].ins| == 2
  }

  // The verifier's coefficient of one product: the inputs' keys multiplied, the output's key times Delta.
  function TwoSide<E(!new)>(F: Field<E>, delta: E, p: Product<E>): E
    requires |p.ins| == 2
  {
    F.Add(F.Mul(Keyed(F, delta, p.ins[0]).key, Keyed(F, delta, p.ins[1]).key), F.Mul(Keyed(F, delta, p.out).key, delta))
  }

  function TwoSides<E(!new)>(F: Field<E>, delta: E, ps: seq<Product<E>>): (r: seq<E>)
    requires Twos(ps)
    ensures |r| == |ps|
  {
    seq(|ps|, i requires 0 <= i < |ps| => TwoSide(F, delta, ps[i]))
  }

  // The verifier that holds this key accepts the two sums sent; they are masked by one correlation.
  ghost predicate TwosAccept<E(!new)>(F: Field<E>, delta: E, ps: seq<Product<E>>, chi: seq<E>, mask: Held<E>, sum0: E,
                                      sum1: E)
    requires Twos(ps) && |chi| == |ps|
  {
    F.Add(F.Mul(sum1, delta), sum0) == F.Add(Keyed(F, delta, mask).key, Dot(F, chi, TwoSides(F, delta, ps)))
  }

  // The wires as the arithmetic check has them: it is the same check where minus is plus.
  function Plain<E>(h: Held<E>): ArithEngine.Wire<E> { ArithEngine.Wire(h.val, h.mac) }

  function Input<E>(ps: seq<Product<E>>, j: nat): (r: seq<ArithEngine.Wire<E>>)
    requires Twos(ps) && j < 2
    ensures |r| == |ps|
  {
    seq(|ps|, i requires 0 <= i < |ps| => Plain(ps[i].ins[j]))
  }

  function Outputs<E>(ps: seq<Product<E>>): (r: seq<ArithEngine.Wire<E>>)
    ensures |r| == |ps|
  {
    seq(|ps|, i requires 0 <= i < |ps| => Plain(ps[i].out))
  }

  lemma Char2Minus<E(!new)>(F: Field<E>, x: E, y: E)
    requires F.Laws() && F.Char2()
    ensures F.Sub(x, y) == F.Add(x, y)
  {
    ShiftedFactor(F, y, x);
    assert At2(x, y);
  }

  lemma PlainKey<E(!new)>(F: Field<E>, delta: E, h: Held<E>)
    requires F.Laws() && F.Char2()
    ensures ArithCheck.KeyFor(F, delta, Plain(h)).mac == Keyed(F, delta, h).key
  {
    Char2Minus(F, h.mac, F.Mul(h.val, delta));
  }

  lemma SameSides<E(!new)>(F: Field<E>, delta: E, ps: seq<Product<E>>)
    requires F.Laws() && F.Char2() && Twos(ps)
    ensures ArithCheck.Bs(F, delta, ArithCheck.KeysFor(F, delta, Input(ps, 0)),
                          ArithCheck.KeysFor(F, delta, Input(ps, 1)), ArithCheck.KeysFor(F, delta, Outputs(ps)))
         == TwoSides(F, delta, ps)
  {
    forall i | 0 <= i < |ps|
      ensures ArithCheck.B(F, delta, ArithCheck.KeyFor(F, delta, Plain(ps[i].ins[0])),
                           ArithCheck.KeyFor(F, delta, Plain(ps[i].ins[1])),
                           ArithCheck.KeyFor(F, delta, Plain(ps[i].out)))
           == TwoSide(F, delta, ps[i])
    {
      PlainKey(F, delta, ps[i].ins[0]);
      PlainKey(F, delta, ps[i].ins[1]);
      PlainKey(F, delta, ps[i].out);
    }
  }

  lemma SameErrors<E(!new)>(F: Field<E>, ps: seq<Product<E>>)
    requires F.Laws() && F.Char2() && Twos(ps)
    ensures ArithCheck.Defects(F, Input(ps, 0), Input(ps, 1), Outputs(ps)) == Wrongs(F, ps)
  {
    forall i | 0 <= i < |ps|
      ensures F.Sub(F.Mul(ps[i].ins[0].val, ps[i].ins[1].val), ps[i].out.val) == Wrong(F, ps[i])
    {
      var x, y := ps[i].ins[0].val, ps[i].ins[1].val;
      assert ValsOf(ps[i].ins) == [x, y];
      Prod5(F, x, y, x, x, x);
      Char2Minus(F, F.Mul(x, y), ps[i].out.val);
    }
  }

  lemma TwosUnder<E(!new)>(F: Field<E>, delta: E, ps: seq<Product<E>>, chi: seq<E>, mask: Held<E>, sum0: E, sum1: E)
    requires F.Laws() && F.Char2() && Twos(ps) && |chi| == |ps| && TwosAccept(F, delta, ps, chi, mask, sum0, sum1)
    ensures ArithCheck.AcceptsUnder(F, delta, Input(ps, 0), Input(ps, 1), Outputs(ps), chi, Plain(mask), sum0, sum1)
  {
    SameSides(F, delta, ps);
    PlainKey(F, delta, mask);
    DotComm(F, chi, TwoSides(F, delta, ps));
    var x, k, d := F.Mul(sum1, delta), Keyed(F, delta, mask).key, Dot(F, chi, TwoSides(F, delta, ps));
    assert At2(x, sum0) && At2(k, d);
    Char2Swap(F, F.Add(k, d), sum0, x);
    assert At2(F.Add(k, d), x);
  }

  /** If chi does not hide the errors of a batch of two-factor products, at most two Delta accept,
      whatever mask is held and whatever two sums are sent. */
  lemma TwoDeltasAccept<E(!new)>(F: Field<E>, ps: seq<Product<E>>, chi: seq<E>, mask: Held<E>, sum0: E, sum1: E,
                                 deltas: set<E>)
    requires F.Laws() && F.Char2() && Twos(ps) && |chi| == |ps|
    requires Dot(F, chi, Wrongs(F, ps)) != F.zero
    requires forall d :: d in deltas ==> TwosAccept(F, d, ps, chi, mask, sum0, sum1)
    ensures |deltas| <= 2
  {
    hide *;
    forall d | d in deltas
      ensures ArithCheck.AcceptsUnder(F, d, Input(ps, 0), Input(ps, 1), Outputs(ps), chi, Plain(mask), sum0, sum1)
    {
      TwosUnder(F, d, ps, chi, mask, sum0, sum1);
    }
    SameErrors(F, ps);
    DotComm(F, chi, Wrongs(F, ps));
    ArithCheck.FewDeltas(F, Input(ps, 0), Input(ps, 1), Outputs(ps), chi, Plain(mask), sum0, sum1, deltas);
  }

  // ---- what chi can hide ----

  ghost predicate Right<E(!new)>(F: Field<E>, ps: seq<Product<E>>) {
    forall i :: 0 <= i < |ps| ==> Wrong(F, ps[i]) == F.zero
  }

  // The coefficients do not hide a wrong product.
  ghost predicate Shows<E(!new)>(F: Field<E>, ps: seq<Product<E>>, chi: seq<E>)
    requires |chi| == |ps|
  {
    !Right(F, ps) ==> Dot(F, chi, Wrongs(F, ps)) != F.zero
  }

  // The coefficients of a five-factor batch: seed, seed^2, seed^3, ...
  function Powers<E(!new)>(F: Field<E>, seed: E, n: nat): (r: seq<E>)
    ensures |r| == n
  {
    seq(n, i requires 0 <= i < n => Pow(F, seed, i + 1))
  }

  lemma {:induction false} DotPowers<E(!new)>(F: Field<E>, w: seq<E>, seed: E)
    requires F.Laws()
    ensures Dot(F, Powers(F, seed, |w|), w) == Eval(F, [F.zero] + w, seed)
    decreases |w|
  {
    if w == [] {
      EvalConst(F, F.zero, seed);
    } else {
      var n := |w| - 1;
      DotPowers(F, w[..n], seed);
      DotTake(F, Powers(F, seed, n + 1), w, n);
      assert Powers(F, seed, n + 1)[..n] == Powers(F, seed, n) && Powers(F, seed, n + 1)[..n + 1] == Powers(F, seed,
          n + 1);
      assert [F.zero] + w == ([F.zero] + w[..n]) + [w[n]] && w[..n + 1] == w;
      EvalAppend(F, [F.zero] + w[..n], [w[n]], seed);
      EvalConst(F, w[n], seed);
    }
  }

  /** Powers of at most as many seeds as there are products hide a wrong one among them. */
  lemma FewSeedsHide<E(!new)>(F: Field<E>, ps: seq<Product<E>>, seeds: set<E>)
    requires F.Laws() && forall s :: s in seeds ==> !Shows(F, ps, Powers(F, s, |ps|))
    ensures |seeds| <= |ps|
  {
    if |seeds| > |ps| {
      var w := Wrongs(F, ps);
      forall s | s in seeds ensures Eval(F, [F.zero] + w, s) == F.zero { DotPowers(F, w, s); }
      AllZero(F, [F.zero] + w, seeds);
      var one :| one in seeds;
      assert !Shows(F, ps, Powers(F, one, |ps|));
      forall i | 0 <= i < |ps| ensures Wrong(F, ps[i]) == F.zero { assert ([F.zero] + w)[i + 1] == w[i]; }
    }
  }

  /** Independent coefficients: the others fixed, at most one value of a wrong product's hides it. */
  lemma OneValueHides<E(!new)>(F: Field<E>, ps: seq<Product<E>>, chi: seq<E>, j: nat, x: E, y: E)
    requires F.Laws() && |chi| == |ps| && j < |ps| && Wrong(F, ps[j]) != F.zero
    requires !Shows(F, ps, chi[j := x]) && !Shows(F, ps, chi[j := y])
    ensures x == y
  {
    DotComm(F, chi[j := x], Wrongs(F, ps));
    DotComm(F, chi[j := y], Wrongs(F, ps));
    OneCoefficient(F, Wrongs(F, ps), chi, j, x, y);
  }
}
