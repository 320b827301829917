/** Soundness of the permutation test for every prover: it commits whatever it likes for the products
    of the two lists and sends whatever it likes for the opening and for the checks of the products. */
module PermSound {
  import opened Algebra
  import opened Polynomials
  import opened PermProof
  import opened PermBinding

  // ---- evaluating a list ----

  function Shift<E(!new)>(F: Field<E>, h: Held<E>, r: E): Held<E> { Held(F.Add(h.val, r), h.mac) }

  lemma ShiftKeyed<E(!new)>(F: Field<E>, delta: E, h: Held<E>, r: E)
    requires F.Laws()
    ensures AddConst(F, delta, Keyed(F, delta, h), r) == Keyed(F, delta, Shift(F, h, r))
  {
    assert F.Add(F.Add(h.mac, F.Mul(h.val, delta)), F.Mul(r, delta)) == F.Add(h.mac,
        F.Mul(F.Add(h.val, r), delta)) by { Ring(F); }
  }

  // The products of a list evaluated at r, with whatever outputs were committed, and its last wire.
  datatype Chain<E> = Chain(fives: seq<Product<E>>, twos: seq<Product<E>>, last: Held<E>)

  function Evaluate<E(!new)>(F: Field<E>, v: seq<Held<E>>, r: E, acc: Held<E>, i: nat,
                             outs: seq<Held<E>>): (c: Chain<E>)
    requires i <= |v| <= i + |outs|
    ensures Fives(c.fives) && Twos(c.twos)
    decreases |v| - i
  {
    if i + 3 < |v| then
      var p := Product([acc, Shift(F, v[i], r), Shift(F, v[i + 1], r), Shift(F, v[i + 2], r), Shift(F, v[i + 3], r)],
                       outs[0]);
      var c := Evaluate(F, v, r, outs[0], i + 4, outs[1..]);
      Chain([p] + c.fives, c.twos, c.last)
    else if i < |v| then
      var p := Product([acc, Shift(F, v[i], r)], outs[0]);
      var c := Evaluate(F, v, r, outs[0], i + 1, outs[1..]);
      Chain(c.fives, [p] + c.twos, c.last)
    else Chain([], [], acc)
  }

  function TestOf<E(!new)>(F: Field<E>, v: seq<Held<E>>, r: E, outs: seq<Held<E>>): (c: Chain<E>)
    requires v != [] && |v| <= |outs|
    ensures Fives(c.fives) && Twos(c.twos)
  {
    Evaluate(F, v, r, Shift(F, v[0], r), 1, outs)
  }

  // ---- the verifier's evaluation, over its keys ----

  datatype KeyChain<E> = KeyChain(fives: seq<Step<E>>, twos: seq<Step<E>>, last: Wire<E>)

  function KeyEvaluate<E(!new)>(F: Field<E>, delta: E, w: seq<Wire<E>>, r: E, acc: Wire<E>, i: nat,
                                outs: seq<Wire<E>>): KeyChain<E>
    requires i <= |w| <= i + |outs|
    decreases |w| - i
  {
    if i + 3 < |w| then
      var s := Step([acc, AddConst(F, delta, w[i], r), AddConst(F, delta, w[i + 1], r),
                     AddConst(F, delta, w[i + 2], r), AddConst(F, delta, w[i + 3], r)], outs[0]);
      var c := KeyEvaluate(F, delta, w, r, outs[0], i + 4, outs[1..]);
      KeyChain([s] + c.fives, c.twos, c.last)
    else if i < |w| then
      var s := Step([acc, AddConst(F, delta, w[i], r)], outs[0]);
      var c := KeyEvaluate(F, delta, w, r, outs[0], i + 1, outs[1..]);
      KeyChain(c.fives, [s] + c.twos, c.last)
    else KeyChain([], [], acc)
  }

  function KeyTestOf<E(!new)>(F: Field<E>, delta: E, w: seq<Wire<E>>, r: E, outs: seq<Wire<E>>): KeyChain<E>
    requires w != [] && |w| <= |outs|
  {
    KeyEvaluate(F, delta, w, r, AddConst(F, delta, w[0], r), 1, outs)
  }

  // A product as the verifier that holds this key has it.
  function KeyedStep<E(!new)>(F: Field<E>, delta: E, p: Product<E>): Step<E> {
    Step(KeyedAll(F, delta, p.ins), Keyed(F, delta, p.out))
  }

  function KeyedSteps<E(!new)>(F: Field<E>, delta: E, ps: seq<Product<E>>): (r: seq<Step<E>>)
    ensures |r| == |ps|
  {
    seq(|ps|, i requires 0 <= i < |ps| => KeyedStep(F, delta, ps[i]))
  }

  ghost predicate Matches<E(!new)>(F: Field<E>, delta: E, k: KeyChain<E>, c: Chain<E>) {
    && k.fives == KeyedSteps(F, delta, c.fives) && k.twos == KeyedSteps(F, delta, c.twos)
    && k.last == Keyed(F, delta, c.last)
  }

  lemma StepsSplit<E(!new)>(F: Field<E>, delta: E, s: seq<Product<E>>, t: seq<Product<E>>)
    ensures KeyedSteps(F, delta, s + t) == KeyedSteps(F, delta, s) + KeyedSteps(F, delta, t)
  {
  }

  lemma FiveKeys<E(!new)>(F: Field<E>, delta: E, v: seq<Held<E>>, r: E, acc: Held<E>, i: nat, out: Held<E>)
    requires F.Laws() && i + 3 < |v|
    ensures var w := KeyedAll(F, delta, v);
            KeyedStep(F, delta, Product([acc, Shift(F, v[i], r), Shift(F, v[i + 1], r), Shift(F, v[i + 2], r),
                                         Shift(F, v[i + 3], r)], out))
              == Step([Keyed(F, delta, acc), AddConst(F, delta, w[i], r), AddConst(F, delta, w[i + 1], r),
                       AddConst(F, delta, w[i + 2], r), AddConst(F, delta, w[i + 3], r)], Keyed(F, delta, out))
  {
    ShiftKeyed(F, delta, v[i], r);
    ShiftKeyed(F, delta, v[i + 1], r);
    ShiftKeyed(F, delta, v[i + 2], r);
    ShiftKeyed(F, delta, v[i + 3], r);
  }

  lemma TwoKeys<E(!new)>(F: Field<E>, delta: E, v: seq<Held<E>>, r: E, acc: Held<E>, i: nat, out: Held<E>)
    requires F.Laws() && i < |v|
    ensures KeyedStep(F, delta, Product([acc, Shift(F, v[i], r)], out))
         == Step([Keyed(F, delta, acc), AddConst(F, delta, KeyedAll(F, delta, v)[i], r)], Keyed(F, delta, out))
  {
    ShiftKeyed(F, delta, v[i], r);
  }

  lemma {:induction false} KeysFollow<E(!new)>(F: Field<E>, delta: E, v: seq<Held<E>>, r: E, acc: Held<E>, i: nat,
                                               outs: seq<Held<E>>)
    requires F.Laws() && i <= |v| <= i + |outs|
    ensures Matches(F, delta, KeyEvaluate(F, delta, KeyedAll(F, delta, v), r, Keyed(F, delta, acc), i,
                                          KeyedAll(F, delta, outs)), Evaluate(F, v, r, acc, i, outs))
    decreases |v| - i
  {
    hide AddConst, Keyed, Shift, KeyedStep;
    if i + 3 < |v| {
      FiveKeys(F, delta, v, r, acc, i, outs[0]);
      assert KeyedAll(F, delta, outs)[1..] == KeyedAll(F, delta, outs[1..]);
      KeysFollow(F, delta, v, r, outs[0], i + 4, outs[1..]);
    } else if i < |v| {
      TwoKeys(F, delta, v, r, acc, i, outs[0]);
      assert KeyedAll(F, delta, outs)[1..] == KeyedAll(F, delta, outs[1..]);
      KeysFollow(F, delta, v, r, outs[0], i + 1, outs[1..]);
    }
  }

  /** The verifier's own evaluation, adding the challenge to its keys, multiplies and ends with the
      keys of what the prover multiplies and ends with. */
  lemma VerifierFollows<E(!new)>(F: Field<E>, delta: E, v: seq<Held<E>>, r: E, outs: seq<Held<E>>)
    requires F.Laws() && v != [] && |v| <= |outs|
    ensures Matches(F, delta, KeyTestOf(F, delta, KeyedAll(F, delta, v), r, KeyedAll(F, delta, outs)),
                    TestOf(F, v, r, outs))
  {
    ShiftKeyed(F, delta, v[0], r);
    KeysFollow(F, delta, v, r, Shift(F, v[0], r), 1, outs);
  }

  // ---- right products ----

  lemma {:induction false} RightChain<E(!new)>(F: Field<E>, v: seq<Held<E>>, r: E, acc: Held<E>, i: nat,
                                               outs: seq<Held<E>>)
    requires F.Laws() && F.Char2() && i <= |v| <= i + |outs| && acc.val == RootProd(F, ValsOf(v)[..i], r)
    requires var c := Evaluate(F, v, r, acc, i, outs); Right(F, c.fives) && Right(F, c.twos)
    ensures Evaluate(F, v, r, acc, i, outs).last.val == RootProd(F, ValsOf(v), r)
    decreases |v| - i
  {
    hide RootProd;
    var c := Evaluate(F, v, r, acc, i, outs);
    if i + 3 < |v| {
      var p := c.fives[0];
      FourShifts(F, v, r, acc, i);
      assert ValsOf(p.ins) == [acc.val, F.Add(v[i].val, r), F.Add(v[i + 1].val, r), F.Add(v[i + 2].val, r),
                               F.Add(v[i + 3].val, r)];
      Char2Equal(F, Prod(F, ValsOf(p.ins)), outs[0].val);
      assert Wrong(F, p) == F.zero;
      var rest := Evaluate(F, v, r, outs[0], i + 4, outs[1..]);
      assert c.fives[1..] == rest.fives;
      RightChain(F, v, r, outs[0], i + 4, outs[1..]);
    } else if i < |v| {
      var p := c.twos[0];
      TakeFactors(F, ValsOf(v), i, r);
      assert ValsOf(p.ins) == [acc.val, F.Add(v[i].val, r)];
      Prod5(F, acc.val, F.Add(v[i].val, r), acc.val, acc.val, acc.val);
      Char2Equal(F, Prod(F, ValsOf(p.ins)), outs[0].val);
      assert Wrong(F, p) == F.zero;
      var rest := Evaluate(F, v, r, outs[0], i + 1, outs[1..]);
      assert c.twos[1..] == rest.twos;
      RightChain(F, v, r, outs[0], i + 1, outs[1..]);
    } else {
      assert ValsOf(v)[..i] == ValsOf(v);
    }
  }

  lemma FourShifts<E(!new)>(F: Field<E>, v: seq<Held<E>>, r: E, acc: Held<E>, i: nat)
    requires F.Laws() && F.Char2() && i + 3 < |v| && acc.val == RootProd(F, ValsOf(v)[..i], r)
    ensures Prod(F, [acc.val, F.Add(v[i].val, r), F.Add(v[i + 1].val, r), F.Add(v[i + 2].val, r),
                     F.Add(v[i + 3].val, r)])
         == RootProd(F, ValsOf(v)[..i + 4], r)
  {
    var ws := KeyedAll(F, F.zero, v);
    assert Vals(ws) == ValsOf(v);
    forall j | 0 <= j < |v| ensures Good(F, F.zero, ws[j]) { CommitGood(F, F.zero, v[j].val, v[j].mac); }
    FourFactors(F, F.zero, ws, i, r, acc.val);
  }

  lemma RightParts<E(!new)>(F: Field<E>, s: seq<Product<E>>, t: seq<Product<E>>)
    ensures Right(F, s + t) ==> Right(F, s) && Right(F, t)
  {
    if Right(F, s + t) {
      forall i | 0 <= i < |s| ensures Wrong(F, s[i]) == F.zero { assert (s + t)[i] == s[i]; }
      forall i | 0 <= i < |t| ensures Wrong(F, t[i]) == F.zero { assert (s + t)[|s| + i] == t[i]; }
    }
  }

  lemma RightTest<E(!new)>(F: Field<E>, v: seq<Held<E>>, r: E, outs: seq<Held<E>>)
    requires F.Laws() && F.Char2() && v != [] && |v| <= |outs|
    requires Right(F, TestOf(F, v, r, outs).fives) && Right(F, TestOf(F, v, r, outs).twos)
    ensures TestOf(F, v, r, outs).last.val == RootProd(F, ValsOf(v), r)
  {
    FirstFactor(F, ValsOf(v), r);
    RightChain(F, v, r, Shift(F, v[0], r), 1, outs);
  }

  // ---- the whole test ----

  // A batch of five-factor products: its coefficients and the five sums sent for it.
  datatype Batch<E> = Batch(ps: seq<Product<E>>, chi: seq<E>, sums: seq<E>)

  // A batch of two-factor products: its coefficients, the correlation that masks it, the two sums sent.
  datatype Masked<E> = Masked(ps: seq<Product<E>>, chi: seq<E>, mask: Held<E>, sum0: E, sum1: E)

  // Everything a prover commits to and sends after the challenge r, and the coefficients drawn for it.
  datatype Attempt<E> = Attempt(outsA: seq<Held<E>>, outsB: seq<Held<E>>, fives: seq<Batch<E>>,
                                twos: seq<Masked<E>>, macA: E, macB: E)

  function Flat<E>(bs: seq<Batch<E>>): seq<Product<E>> {
    if bs == [] then [] else bs[0].ps + Flat(bs[1..])
  }

  lemma {:induction false} BatchOf<E>(bs: seq<Batch<E>>, j: nat) returns (k: nat, i: nat)
    requires j < |Flat(bs)|
    ensures k < |bs| && i < |bs[k].ps| && bs[k].ps[i] == Flat(bs)[j]
  {
    if j < |bs[0].ps| {
      k, i := 0, j;
    } else {
      k, i := BatchOf(bs[1..], j - |bs[0].ps|);
      k := k + 1;
    }
  }

  // Each product occurs in one of the batches, possibly among products of other computations.
  ghost predicate Covered<E(!new)>(ps: seq<Product<E>>, bs: seq<Masked<E>>) {
    forall i :: 0 <= i < |ps| ==> InSome(ps[i], bs)
  }

  ghost predicate InSome<E(!new)>(p: Product<E>, bs: seq<Masked<E>>) {
    exists k :: 0 <= k < |bs| && p in bs[k].ps
  }

  lemma CoveredAt<E(!new)>(ps: seq<Product<E>>, bs: seq<Masked<E>>, i: nat) returns (k: nat, j: nat)
    requires Covered(ps, bs) && i < |ps|
    ensures k < |bs| && j < |bs[k].ps| && bs[k].ps[j] == ps[i]
  {
    assert InSome(ps[i], bs);
    var m :| 0 <= m < |bs| && ps[i] in bs[m].ps;
    var n :| 0 <= n < |bs[m].ps| && bs[m].ps[n] == ps[i];
    k, j := m, n;
  }

  // The five-factor products in batches of any sizes, the two-factor ones in the engine's own batches.
  ghost predicate WellFormed<E(!new)>(F: Field<E>, a: seq<Held<E>>, b: seq<Held<E>>, r: E, t: Attempt<E>) {
    && |a| == |b| >= 1 && |a| <= |t.outsA| && |b| <= |t.outsB|
    && var ca, cb := TestOf(F, a, r, t.outsA), TestOf(F, b, r, t.outsB);
    && Flat(t.fives) == ca.fives + cb.fives && Covered(ca.twos + cb.twos, t.twos)
    && (forall k :: 0 <= k < |t.fives| ==> FiveBatch(t.fives[k]))
    && (forall k :: 0 <= k < |t.twos| ==> TwoBatch(t.twos[k]))
  }

  ghost predicate FiveBatch<E>(b: Batch<E>) { Fives(b.ps) && |b.ps| == |b.chi| && |b.sums| == 5 }

  ghost predicate TwoBatch<E>(b: Masked<E>) { Twos(b.ps) && |b.ps| == |b.chi| }

  // In no batch do the coefficients hide a wrong product.
  ghost predicate Unhidden<E(!new)>(F: Field<E>, t: Attempt<E>) {
    && (forall k :: 0 <= k < |t.fives| ==> FiveBatch(t.fives[k]) && Shows(F, t.fives[k].ps, t.fives[k].chi))
    && (forall k :: 0 <= k < |t.twos| ==> TwoBatch(t.twos[k]) && Shows(F, t.twos[k].ps, t.twos[k].chi))
  }

  // The verifier with this key evaluates both lists over its keys and accepts the MACs sent for the last wires.
  ghost predicate LastsOpen<E(!new)>(F: Field<E>, a: seq<Held<E>>, b: seq<Held<E>>, r: E, t: Attempt<E>, delta: E)
    requires |a| == |b| >= 1 && |a| <= |t.outsA| && |b| <= |t.outsB|
  {
    var ka := KeyTestOf(F, delta, KeyedAll(F, delta, a), r, KeyedAll(F, delta, t.outsA));
    var kb := KeyTestOf(F, delta, KeyedAll(F, delta, b), r, KeyedAll(F, delta, t.outsB));
    F.Add(ka.last.key, t.macA) == F.Add(kb.last.key, t.macB)
  }

  // It accepts the opening and every batch of products.
  ghost predicate TestAccepts<E(!new)>(F: Field<E>, a: seq<Held<E>>, b: seq<Held<E>>, r: E, t: Attempt<E>, delta: E)
    requires WellFormed(F, a, b, r, t)
  {
    && LastsOpen(F, a, b, r, t, delta)
    && (forall k :: 0 <= k < |t.fives| ==> BatchAccepts(F, delta, t.fives[k].ps, t.fives[k].chi, t.fives[k].sums))
    && (forall k :: 0 <= k < |t.twos| ==> TwosAccept(F, delta, t.twos[k].ps, t.twos[k].chi, t.twos[k].mask,
                                                     t.twos[k].sum0, t.twos[k].sum1))
  }

  /** The verifier checks what it multiplied: the keys in its five-factor batches are those of its
      own evaluation of the two lists, in order, and each of its two-factor products is in a batch. */
  lemma ChecksWhatItMultiplied<E(!new)>(F: Field<E>, a: seq<Held<E>>, b: seq<Held<E>>, r: E, t: Attempt<E>, delta: E)
    requires F.Laws() && WellFormed(F, a, b, r, t)
    ensures var ka := KeyTestOf(F, delta, KeyedAll(F, delta, a), r, KeyedAll(F, delta, t.outsA));
            var kb := KeyTestOf(F, delta, KeyedAll(F, delta, b), r, KeyedAll(F, delta, t.outsB));
            && KeyedSteps(F, delta, Flat(t.fives)) == ka.fives + kb.fives
            && forall s :: s in ka.twos + kb.twos ==>
                 exists k :: 0 <= k < |t.twos| && s in KeyedSteps(F, delta, t.twos[k].ps)
  {
    var ca, cb := TestOf(F, a, r, t.outsA), TestOf(F, b, r, t.outsB);
    var twos := KeyedSteps(F, delta, ca.twos + cb.twos);
    VerifierFollows(F, delta, a, r, t.outsA);
    VerifierFollows(F, delta, b, r, t.outsB);
    StepsSplit(F, delta, ca.fives, cb.fives);
    StepsSplit(F, delta, ca.twos, cb.twos);
    hide TestOf, KeyTestOf, KeyedStep, Flat, Covered;
    forall s | s in twos ensures exists k :: 0 <= k < |t.twos| && s in KeyedSteps(F, delta, t.twos[k].ps) {
      var i: nat :| i < |twos| && twos[i] == s;
      var k, j := CoveredAt(ca.twos + cb.twos, t.twos, i);
      assert KeyedSteps(F, delta, t.twos[k].ps)[j] == s;
    }
  }

  lemma LastsOpenHeld<E(!new)>(F: Field<E>, a: seq<Held<E>>, b: seq<Held<E>>, r: E, t: Attempt<E>, delta: E)
    requires F.Laws() && |a| == |b| >= 1 && |a| <= |t.outsA| && |b| <= |t.outsB|
    ensures LastsOpen(F, a, b, r, t, delta)
       <==> OpensEqual(F, delta, TestOf(F, a, r, t.outsA).last, TestOf(F, b, r, t.outsB).last, t.macA, t.macB)
  {
    VerifierFollows(F, delta, a, r, t.outsA);
    VerifierFollows(F, delta, b, r, t.outsB);
  }

  // A wrong product is in a batch that few Delta accept.
  lemma WrongFive<E(!new)>(F: Field<E>, a: seq<Held<E>>, b: seq<Held<E>>, r: E, t: Attempt<E>, deltas: set<E>)
    requires F.Laws() && F.Char2() && WellFormed(F, a, b, r, t) && Unhidden(F, t)
    requires forall d :: d in deltas ==> TestAccepts(F, a, b, r, t, d)
    requires !Right(F, TestOf(F, a, r, t.outsA).fives + TestOf(F, b, r, t.outsB).fives)
    ensures |deltas| <= 5
  {
    var all := TestOf(F, a, r, t.outsA).fives + TestOf(F, b, r, t.outsB).fives;
    hide BatchAccepts, TwosAccept, LastsOpen, TestOf, Wrongs;
    var j: nat :| j < |all| && Wrong(F, all[j]) != F.zero;
    var k, i := BatchOf(t.fives, j);
    assert !Right(F, t.fives[k].ps);
    FiveDeltasAccept(F, t.fives[k].ps, t.fives[k].chi, t.fives[k].sums, deltas);
  }

  lemma WrongTwo<E(!new)>(F: Field<E>, a: seq<Held<E>>, b: seq<Held<E>>, r: E, t: Attempt<E>, deltas: set<E>)
    requires F.Laws() && F.Char2() && WellFormed(F, a, b, r, t) && Unhidden(F, t)
    requires forall d :: d in deltas ==> TestAccepts(F, a, b, r, t, d)
    requires !Right(F, TestOf(F, a, r, t.outsA).twos + TestOf(F, b, r, t.outsB).twos)
    ensures |deltas| <= 2
  {
    var all := TestOf(F, a, r, t.outsA).twos + TestOf(F, b, r, t.outsB).twos;
    hide BatchAccepts, TwosAccept, LastsOpen, TestOf, Wrongs, Flat, Covered;
    var j: nat :| j < |all| && Wrong(F, all[j]) != F.zero;
    var k, i := CoveredAt(all, t.twos, j);
    assert !Right(F, t.twos[k].ps);
    TwoDeltasAccept(F, t.twos[k].ps, t.twos[k].chi, t.twos[k].mask, t.twos[k].sum0, t.twos[k].sum1, deltas);
  }

  /** If the products of the two lists differ at r and chi hides no wrong product, whatever the prover
      commits and sends, at most five Delta let the whole test pass. */
  lemma FewDeltasPass<E(!new)>(F: Field<E>, a: seq<Held<E>>, b: seq<Held<E>>, r: E, t: Attempt<E>, deltas: set<E>)
    requires F.Laws() && F.Char2() && WellFormed(F, a, b, r, t) && Unhidden(F, t)
    requires RootProd(F, ValsOf(a), r) != RootProd(F, ValsOf(b), r)
    requires forall d :: d in deltas ==> TestAccepts(F, a, b, r, t, d)
    ensures |deltas| <= 5
  {
    var ca, cb := TestOf(F, a, r, t.outsA), TestOf(F, b, r, t.outsB);
    assert |a| == |b| >= 1 && |a| <= |t.outsA| && |b| <= |t.outsB|;
    if ca.last.val != cb.last.val {
      forall d | d in deltas ensures OpensEqual(F, d, ca.last, cb.last, t.macA, t.macB) {
        assert TestAccepts(F, a, b, r, t, d);
        LastsOpenHeld(F, a, b, r, t, d);
      }
      hide *;
      OneDeltaOpens(F, ca.last, cb.last, t.macA, t.macB, deltas);
    } else {
      hide *;
      RightParts(F, ca.fives, cb.fives);
      RightParts(F, ca.twos, cb.twos);
      if !Right(F, ca.fives + cb.fives) {
        WrongFive(F, a, b, r, t, deltas);
      } else if !Right(F, ca.twos + cb.twos) {
        WrongTwo(F, a, b, r, t, deltas);
      } else {
        RightTest(F, a, r, t.outsA);
        RightTest(F, b, r, t.outsB);
        assert false;
      }
    }
  }

  // Some attempt after the challenge r would pass under more than five Delta.
  ghost predicate Cheatable<E(!new)>(F: Field<E>, a: seq<Held<E>>, b: seq<Held<E>>, r: E) {
    exists t: Attempt<E>, deltas: set<E> :: Fools(F, a, b, r, t, deltas)
  }

  ghost predicate Fools<E(!new)>(F: Field<E>, a: seq<Held<E>>, b: seq<Held<E>>, r: E, t: Attempt<E>, deltas: set<E>) {
    && WellFormed(F, a, b, r, t) && Unhidden(F, t) && |deltas| > 5
    && forall d :: d in deltas ==> TestAccepts(F, a, b, r, t, d)
  }

  /** Soundness of the test for every prover: lists that are not permutations of one another pass
      under more than five Delta at fewer challenges than they have elements. */
  lemma FewChallengesCheat<E(!new)>(F: Field<E>, a: seq<Held<E>>, b: seq<Held<E>>, bad: set<E>)
    requires F.Laws() && F.Char2() && |a| == |b| && multiset(ValsOf(a)) != multiset(ValsOf(b))
    requires forall r :: r in bad ==> Cheatable(F, a, b, r)
    ensures |bad| < |a|
  {
    forall r | r in bad ensures RootProd(F, ValsOf(a), r) == RootProd(F, ValsOf(b), r) {
      assert Cheatable(F, a, b, r);
      var t: Attempt<E>, deltas: set<E> :| Fools(F, a, b, r, t, deltas);
      if RootProd(F, ValsOf(a), r) != RootProd(F, ValsOf(b), r) { FewDeltasPass(F, a, b, r, t, deltas); }
    }
    ProductTestSoundness(F, ValsOf(a), ValsOf(b), bad);
  }
}
