/** Completeness of the whole permutation test: for permutations, a prover that commits the right
    products and sends the sums and MACs the code computes is accepted under every Delta. */
module PermComplete {
  import opened Algebra
  import opened PermProof
  import opened PermBinding
  import opened PermSound
  import ArithCheck

  // ---- one batch ----

  lemma NoErrors<E(!new)>(F: Field<E>, ps: seq<Product<E>>, chi: seq<E>, c: E)
    requires F.Laws() && |chi| == |ps| && Right(F, ps)
    ensures Wrongs(F, ps) == Zeros(F, |ps|) && Dot(F, chi, Scale(F, c, Wrongs(F, ps))) == F.zero
  {
    forall i | 0 <= i < |ps| ensures F.Mul(c, Wrong(F, ps[i])) == F.zero && Wrong(F, ps[i]) == F.zero { Zero(F, c); }
    assert Wrongs(F, ps) == Zeros(F, |ps|) && Scale(F, c, Wrongs(F, ps)) == Zeros(F, |chi|);
    DotZeros(F, chi);
  }

  // The sums folded from the buffered coefficients of right products are accepted.
  lemma FivesPass<E(!new)>(F: Field<E>, delta: E, ps: seq<Product<E>>, chi: seq<E>)
    requires F.Laws() && F.Char2() && Fives(ps) && |chi| == |ps| && Right(F, ps)
    ensures BatchAccepts(F, delta, ps, chi, Combine(F, chi, Expansions(F, ps)))
  {
    BuffersAreOk(F, delta, ps);
    NoErrors(F, ps, chi, Pow(F, delta, 5));
    hide Buffers, Expansions, Wrongs, Combine, VerifierSide, Errors, BufferOk, Coeffs;
    BatchCheckExact(F, delta, Buffers(F, delta, ps), chi);
  }

  // The two sums of the prover for a batch of two-factor products.
  function TwoSums<E(!new)>(F: Field<E>, ps: seq<Product<E>>, chi: seq<E>, mask: Held<E>): (E, E)
    requires Twos(ps) && |chi| == |ps|
  {
    ArithCheck.Proof(F, Input(ps, 0), Input(ps, 1), Outputs(ps), chi, Plain(mask))
  }

  lemma TwosPass<E(!new)>(F: Field<E>, delta: E, ps: seq<Product<E>>, chi: seq<E>, mask: Held<E>)
    requires F.Laws() && F.Char2() && Twos(ps) && |chi| == |ps| && Right(F, ps)
    ensures var s := TwoSums(F, ps, chi, mask); TwosAccept(F, delta, ps, chi, mask, s.0, s.1)
  {
    var l, r, o, s := Input(ps, 0), Input(ps, 1), Outputs(ps), TwoSums(F, ps, chi, mask);
    var kl, kr, ko := ArithCheck.KeysFor(F, delta, l), ArithCheck.KeysFor(F, delta, r), ArithCheck.KeysFor(F, delta, o);
    var km := ArithCheck.KeyFor(F, delta, Plain(mask));
    ArithCheck.KeyTags(F, delta, Plain(mask));
    SameErrors(F, ps);
    NoErrors(F, ps, chi, F.one);
    DotComm(F, Zeros(F, |chi|), chi);
    DotZeros(F, chi);
    ArithCheck.CheckPasses(F, delta, l, r, o, kl, kr, ko, chi, Plain(mask), km);
    SameSides(F, delta, ps);
    PlainKey(F, delta, mask);
    DotComm(F, chi, TwoSides(F, delta, ps));
    assert s.0 == F.Add(F.Mul(s.1, delta), F.Add(Dot(F, chi, TwoSides(F, delta, ps)), Keyed(F, delta, mask).key));
    hide *;
    XorTwice(F, F.Mul(s.1, delta), Dot(F, chi, TwoSides(F, delta, ps)), Keyed(F, delta, mask).key, s.0);
    TwosAcceptIf(F, delta, ps, chi, mask, s.0, s.1);
  }

  lemma TwosAcceptIf<E(!new)>(F: Field<E>, delta: E, ps: seq<Product<E>>, chi: seq<E>, mask: Held<E>, sum0: E, sum1: E)
    requires Twos(ps) && |chi| == |ps|
    requires F.Add(F.Mul(sum1, delta), sum0) == F.Add(Keyed(F, delta, mask).key, Dot(F, chi, TwoSides(F, delta, ps)))
    ensures TwosAccept(F, delta, ps, chi, mask, sum0, sum1)
  {
  }

  lemma XorTwice<E(!new)>(F: Field<E>, x: E, d: E, k: E, s: E)
    requires F.Laws() && F.Char2() && s == F.Add(x, F.Add(d, k))
    ensures F.Add(x, s) == F.Add(k, d)
  {
    assert At2(x, F.Add(d, k)) && At2(x, s) && At2(k, d);
    Char2Swap(F, s, F.Add(d, k), x);
  }

  // ---- the whole test ----

  // The outputs committed for the products are right, in the batches too.
  ghost predicate Honest<E(!new)>(F: Field<E>, a: seq<Held<E>>, b: seq<Held<E>>, r: E, t: Attempt<E>)
    requires WellFormed(F, a, b, r, t)
  {
    var ca, cb := TestOf(F, a, r, t.outsA), TestOf(F, b, r, t.outsB);
    && Right(F, ca.fives) && Right(F, cb.fives) && Right(F, ca.twos) && Right(F, cb.twos)
    && t.macA == ca.last.mac && t.macB == cb.last.mac
    && (forall k :: 0 <= k < |t.fives| ==> HonestFives(F, t.fives[k]))
    && (forall k :: 0 <= k < |t.twos| ==> HonestTwos(F, t.twos[k]))
  }

  ghost predicate HonestFives<E(!new)>(F: Field<E>, b: Batch<E>) {
    FiveBatch(b) && b.sums == Combine(F, b.chi, Expansions(F, b.ps))
  }

  ghost predicate HonestTwos<E(!new)>(F: Field<E>, b: Masked<E>) {
    TwoBatch(b) && Right(F, b.ps) && (b.sum0, b.sum1) == TwoSums(F, b.ps, b.chi, b.mask)
  }

  lemma {:induction false} PartsRight<E(!new)>(F: Field<E>, bs: seq<Batch<E>>, k: nat)
    requires Right(F, Flat(bs)) && k < |bs|
    ensures Right(F, bs[k].ps)
  {
    RightParts(F, bs[0].ps, Flat(bs[1..]));
    if k > 0 { PartsRight(F, bs[1..], k - 1); }
  }

  lemma RightBoth<E(!new)>(F: Field<E>, s: seq<Product<E>>, t: seq<Product<E>>)
    requires Right(F, s) && Right(F, t)
    ensures Right(F, s + t)
  {
    forall i | 0 <= i < |s + t| ensures Wrong(F, (s + t)[i]) == F.zero {
      assert (s + t)[i] == if i < |s| then s[i] else t[i - |s|];
    }
  }

  lemma RightOne<E(!new)>(F: Field<E>, p: Product<E>)
    requires F.Laws() && F.Char2() && p.out.val == Prod(F, ValsOf(p.ins))
    ensures Right(F, [p])
  {
    Char2Equal(F, Prod(F, ValsOf(p.ins)), p.out.val);
  }

  lemma SameLasts<E(!new)>(F: Field<E>, pa: Held<E>, pb: Held<E>, delta: E)
    requires F.Laws() && F.Char2() && pa.val == pb.val
    ensures OpensEqual(F, delta, pa, pb, pa.mac, pb.mac)
  {
    CommitGood(F, delta, pa.val, pa.mac);
    CommitGood(F, delta, pb.val, pb.mac);
    OpenedTimesDelta(F, delta, Keyed(F, delta, pa));
    OpenedTimesDelta(F, delta, Keyed(F, delta, pb));
  }

  /** For lists that are permutations of one another the prover that follows the code is accepted at
      every challenge, under every Delta and with all coefficients. */
  lemma PermutationsAccepted<E(!new)>(F: Field<E>, a: seq<Held<E>>, b: seq<Held<E>>, r: E, t: Attempt<E>, delta: E)
    requires F.Laws() && F.Char2() && multiset(ValsOf(a)) == multiset(ValsOf(b))
    requires WellFormed(F, a, b, r, t) && Honest(F, a, b, r, t)
    ensures TestAccepts(F, a, b, r, t, delta)
  {
    var ca, cb := TestOf(F, a, r, t.outsA), TestOf(F, b, r, t.outsB);
    RightTest(F, a, r, t.outsA);
    RightTest(F, b, r, t.outsB);
    PermutationsAgree(F, ValsOf(a), ValsOf(b), r);
    SameLasts(F, ca.last, cb.last, delta);
    LastsOpenHeld(F, a, b, r, t, delta);
    RightBoth(F, ca.fives, cb.fives);
    hide TestOf, Right, LastsOpen, BatchAccepts, TwosAccept, Flat, TwoSums, Expansions;
    forall k | 0 <= k < |t.fives|
      ensures BatchAccepts(F, delta, t.fives[k].ps, t.fives[k].chi, t.fives[k].sums)
    {
      PartsRight(F, t.fives, k);
      assert HonestFives(F, t.fives[k]);
      FivesPass(F, delta, t.fives[k].ps, t.fives[k].chi);
    }
    forall k | 0 <= k < |t.twos|
      ensures TwosAccept(F, delta, t.twos[k].ps, t.twos[k].chi, t.twos[k].mask, t.twos[k].sum0, t.twos[k].sum1)
    {
      assert HonestTwos(F, t.twos[k]);
      TwosPass(F, delta, t.twos[k].ps, t.twos[k].chi, t.twos[k].mask);
    }
  }

  /** Such a prover exists: for every list, challenge and choice of MACs some outputs are right. */
  lemma {:induction false} RightOutputs<E(!new)>(F: Field<E>, v: seq<Held<E>>, r: E, acc: Held<E>, i: nat, macs: seq<E>)
    returns (outs: seq<Held<E>>)
    requires F.Laws() && F.Char2() && i <= |v| <= i + |macs|
    ensures |outs| == |macs| && MacsOf(outs) == macs
    ensures var c := Evaluate(F, v, r, acc, i, outs); Right(F, c.fives) && Right(F, c.twos)
    decreases |v| - i
  {
    if i < |v| {
      var n := if i + 3 < |v| then 4 else 1;
      var ins := if n == 1 then [acc, Shift(F, v[i], r)]
                 else [acc, Shift(F, v[i], r), Shift(F, v[i + 1], r), Shift(F, v[i + 2], r), Shift(F, v[i + 3], r)];
      var out := Held(Prod(F, ValsOf(ins)), macs[0]);
      var rest := RightOutputs(F, v, r, out, i + n, macs[1..]);
      outs := [out] + rest;
      assert outs[1..] == rest;
      hide Right, Shift;
      var p, c := Product(ins, out), Evaluate(F, v, r, out, i + n, rest);
      var all := Evaluate(F, v, r, acc, i, outs);
      assert n == 4 ==> all.fives == [p] + c.fives && all.twos == c.twos;
      assert n == 1 ==> all.twos == [p] + c.twos && all.fives == c.fives;
      RightOne(F, p);
      assert MacsOf(outs)[0] == macs[0] && MacsOf(outs)[1..] == MacsOf(rest);
      RightBoth(F, [p], c.fives);
      RightBoth(F, [p], c.twos);
    } else {
      outs := seq(|macs|, k requires 0 <= k < |macs| => Held(F.zero, macs[k]));
    }
  }

  // ---- the loops of the code ----

  // The test from the factor that step k starts with, and what the steps have from there on.
  function TestFrom<E(!new)>(F: Field<E>, delta: E, v: seq<Wire<E>>, r: E, steps: seq<Step<E>>, outs: seq<Wire<E>>,
                             k: nat): KeyChain<E>
    requires v != [] && k <= |steps| && k <= |outs| && From(Fours(|v|), k) <= |v| <= From(Fours(|v|), k) + |outs| - k
  {
    KeyEvaluate(F, delta, v, r, Before(Shifted(F, delta, v, r), steps, k), From(Fours(|v|), k), outs[k..])
  }

  function StepsFrom<E>(q: nat, acc: Wire<E>, steps: seq<Step<E>>, k: nat): KeyChain<E>
    requires q <= |steps| && k <= |steps|
  {
    if k <= q then KeyChain(steps[k..q], steps[q..], acc) else KeyChain([], steps[k..], acc)
  }

  lemma StepsNext<E>(q: nat, acc: Wire<E>, steps: seq<Step<E>>, k: nat)
    requires q <= |steps| && k < |steps|
    ensures var c := StepsFrom(q, acc, steps, k + 1);
            StepsFrom(q, acc, steps, k)
              == if k < q then KeyChain([steps[k]] + c.fives, c.twos, c.last)
                 else KeyChain(c.fives, [steps[k]] + c.twos, c.last)
  {
    if k < q { assert steps[k..q] == [steps[k]] + steps[k + 1..q]; } else {
      assert steps[k..] == [steps[k]] + steps[k + 1..];
    }
  }

  lemma TestNext<E(!new)>(F: Field<E>, delta: E, v: seq<Wire<E>>, r: E, steps: seq<Step<E>>, outs: seq<Wire<E>>, k: nat)
    requires v != [] && |outs| >= |v| && k < |steps| <= |outs| && From(Fours(|v|), |steps|) == |v|
    requires WiredAt(Shifted(F, delta, v, r), Fours(|v|), steps, k) && steps[k].out == outs[k]
    ensures var q := Fours(|v|);
            && From(q, k + 1) <= |v| <= From(q, k + 1) + |outs| - (k + 1)
            && From(q, k) <= |v| <= From(q, k) + |outs| - k
            && var c := TestFrom(F, delta, v, r, steps, outs, k + 1);
               TestFrom(F, delta, v, r, steps, outs, k)
                 == if k < q then KeyChain([steps[k]] + c.fives, c.twos, c.last)
                    else KeyChain(c.fives, [steps[k]] + c.twos, c.last)
  {
    StepIs(F, delta, v, r, steps, k);
    assert outs[k..][1..] == outs[k + 1..] && outs[k..][0] == steps[k].out;
    assert Before(Shifted(F, delta, v, r), steps, k + 1) == outs[k];
    hide WiredAt, AddConst, Shifted, Fours;
  }

  lemma {:induction false} StepsLeft<E(!new)>(F: Field<E>, delta: E, v: seq<Wire<E>>, r: E, acc: Wire<E>,
                                              steps: seq<Step<E>>, outs: seq<Wire<E>>, k: nat)
    requires v != [] && |outs| >= |v| && k <= |steps| <= |outs| && Wired(Shifted(F, delta, v, r), acc, steps)
    requires forall j :: 0 <= j < |steps| ==> steps[j].out == outs[j]
    ensures var q := Fours(|v|);
            && q <= |steps| && From(q, k) <= |v| <= From(q, k) + |outs| - k
            && TestFrom(F, delta, v, r, steps, outs, k) == StepsFrom(q, acc, steps, k)
    decreases |steps| - k
  {
    if k < |steps| {
      assert WiredAt(Shifted(F, delta, v, r), Fours(|v|), steps, k);
      StepsLeft(F, delta, v, r, acc, steps, outs, k + 1);
      hide WiredAt, AddConst, Shifted, TestFrom, StepsFrom, Fours;
      TestNext(F, delta, v, r, steps, outs, k);
      StepsNext(Fours(|v|), acc, steps, k);
    }
  }

  // What step k multiplies.
  lemma StepIs<E(!new)>(F: Field<E>, delta: E, v: seq<Wire<E>>, r: E, steps: seq<Step<E>>, k: nat)
    requires v != [] && k < |steps| && From(Fours(|v|), |steps|) == |v|
    requires WiredAt(Shifted(F, delta, v, r), Fours(|v|), steps, k)
    ensures var q := Fours(|v|);
            var i, first := From(q, k), Before(Shifted(F, delta, v, r), steps, k);
            && (i + 3 < |v| <==> k < q) && i < |v| && From(q, k + 1) == i + (if k < q then 4 else 1)
            && steps[k].ins == if k < q
                               then [first, AddConst(F, delta, v[i], r), AddConst(F, delta, v[i + 1], r),
                                     AddConst(F, delta, v[i + 2], r), AddConst(F, delta, v[i + 3], r)]
                               else [first, AddConst(F, delta, v[i], r)]
  {
    var q, i, fs := Fours(|v|), From(Fours(|v|), k), Shifted(F, delta, v, r);
    hide AddConst, Fours;
    if k < q {
      assert fs[i..i + 4] == [fs[i], fs[i + 1], fs[i + 2], fs[i + 3]];
    } else {
      assert fs[i..i + 1] == [fs[i]];
    }
  }

  /** The products that the loops of the code leave behind are those of the test: the fives, then the
      twos, ending with the same wire. */
  lemma LoopsEvaluate<E(!new)>(F: Field<E>, delta: E, v: seq<Wire<E>>, r: E, acc: Wire<E>, steps: seq<Step<E>>,
                               outs: seq<Wire<E>>)
    requires v != [] && |outs| >= |v| && |steps| <= |outs| && Wired(Shifted(F, delta, v, r), acc, steps)
    requires forall k :: 0 <= k < |steps| ==> steps[k].out == outs[k]
    ensures var q := Fours(|v|);
            q <= |steps| && KeyTestOf(F, delta, v, r, outs) == KeyChain(steps[..q], steps[q..], acc)
  {
    StepsLeft(F, delta, v, r, acc, steps, outs, 0);
    assert outs[0..] == outs && steps[0..Fours(|v|)] == steps[..Fours(|v|)];
    hide Wired, AddConst, Fours, KeyEvaluate;
  }
}
