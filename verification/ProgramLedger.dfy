/** What a program's run computes and hands over. The prover's values are the program's meaning; the
    triples of all checks and those still held are the program's products, in order; the wires of all
    packed sharings and those still pending are its inputs and products, in order. */
module ProgramLedger {
  import opened Algebra
  import opened Wires
  import opened LockstepRuns

  // ---- the meaning of a program ----

  function Coefficients<E>(terms: seq<(E, nat)>): (r: seq<E>)
    ensures |r| == |terms|
  {
    seq(|terms|, i requires 0 <= i < |terms| => terms[i].0)
  }

  function TermValues<E>(vals: seq<E>, terms: seq<(E, nat)>): (r: seq<E>)
    requires forall i :: 0 <= i < |terms| ==> terms[i].1 < |vals|
    ensures |r| == |terms|
  {
    seq(|terms|, i requires 0 <= i < |terms| => vals[terms[i].1])
  }

  // The value that an operation adds to the slots before it.
  function Denoted<E(!new)>(F: Field<E>, vals: seq<E>, op: Op<E>): (r: seq<E>)
    requires Fits(op, |vals|)
    ensures |r| == if op.Flush? || op.Finalize? then 0 else 1
  {
    match op
    case Feed(v) => [v]
    case Pub(c) => [c]
    case Lin(terms, c) => [F.Add(c, Dot(F, Coefficients(terms), TermValues(vals, terms)))]
    case Mult(a, b, claim) => [match claim case None => F.Mul(vals[a], vals[b]) case Some(v) => v]
    case Flush => []
    case Finalize => []
  }

  // The value of every slot.
  ghost function Cleartext<E(!new)>(F: Field<E>, ops: seq<Op<E>>): (r: seq<E>)
    requires Legal(ops)
    ensures |r| == Slots(ops)
  {
    if ops == [] then []
    else
      var n := |ops| - 1;
      var vals := Cleartext(F, ops[..n]);
      vals + Denoted(F, vals, ops[n])
  }

  // The products of the program, in order, each with the value it was given.
  ghost function Products<E(!new)>(F: Field<E>, ops: seq<Op<E>>): seq<(E, E, E)>
    requires Legal(ops)
  {
    if ops == [] then []
    else
      var n := |ops| - 1;
      var vals := Cleartext(F, ops[..n]);
      Products(F, ops[..n]) + match ops[n]
        case Mult(a, b, _) => [(vals[a], vals[b], Denoted(F, vals, ops[n])[0])]
        case _ => []
  }

  // Inputs and products, in order.
  ghost function Shareable<E(!new)>(F: Field<E>, ops: seq<Op<E>>): seq<E>
    requires Legal(ops)
  {
    if ops == [] then []
    else
      var n := |ops| - 1;
      Shareable(F, ops[..n]) + if Shared(ops[n]) then Denoted(F, Cleartext(F, ops[..n]), ops[n]) else []
  }

  // ---- what the prover has handed over ----

  function Flat<T>(lists: seq<seq<T>>): seq<T> {
    if lists == [] then [] else var n := |lists| - 1; Flat(lists[..n]) + lists[n]
  }

  function WiresOf<E>(sent: seq<Sharing<E>>): (r: seq<seq<E>>)
    ensures |r| == |sent|
  {
    seq(|sent|, b requires 0 <= b < |sent| => sent[b].wires)
  }

  ghost predicate HandsOver<E(!new)>(p: Prover<E>, vals: seq<E>, products: seq<(E, E, E)>, shareable: seq<E>) {
    && p.vals == vals && Flat(p.checked) + p.triples == products
    && Flat(WiresOf(p.sent)) + p.pending == shareable
    && p.clock.checks == |p.checked| && p.clock.batches == |p.sent|
  }

  // Packed sharings are full unless flushed early; checks have enough triples unless it is the end.
  ghost predicate Punctual<E(!new)>(L: Limits, p: Prover<E>, flushes: bool, finalizes: bool) {
    && |p.pending| < L.k && |p.triples| < L.bufSz + |p.pending|
    && (forall b :: 0 <= b < |p.sent| ==> FullEnough(L.k, p.sent[b].wires, flushes))
    && forall c :: 0 <= c < |p.checked| ==>
         |p.checked[c]| <= L.bufSz + L.k - 1 && (finalizes || L.bufSz <= |p.checked[c]|)
  }

  ghost predicate FullEnough<E>(k: nat, wires: seq<E>, flushes: bool) {
    1 <= |wires| <= k && (flushes || |wires| == k)
  }

  lemma FlatSnoc<T>(lists: seq<seq<T>>, last: seq<T>)
    ensures Flat(lists + [last]) == Flat(lists) + last
  {
    assert (lists + [last])[..|lists|] == lists;
  }

  lemma WiresSnoc<E>(sent: seq<Sharing<E>>, s: Sharing<E>)
    ensures Flat(WiresOf(sent + [s])) == Flat(WiresOf(sent)) + s.wires
  {
    assert WiresOf(sent + [s]) == WiresOf(sent) + [s.wires];
    FlatSnoc(WiresOf(sent), s.wires);
  }

  // ---- steps ----

  lemma CheckHands<E(!new)>(L: Limits, p: Prover<E>, vals: seq<E>, products: seq<(E, E, E)>, shareable: seq<E>)
    requires 1 <= L.k && 2 <= L.m && HandsOver(p, vals, products, shareable)
    ensures HandsOver(PCheck(L, p), vals, products, shareable)
  {
    FlatSnoc(p.checked, p.triples);
  }

  lemma BatchHands<E(!new)>(L: Limits, p: Prover<E>, vals: seq<E>, products: seq<(E, E, E)>, shareable: seq<E>)
    requires 1 <= L.k && 2 <= L.m && HandsOver(p, vals, products, shareable)
    ensures HandsOver(PBatch(L, p), vals, products, shareable)
  {
    var s := Sharing(NextSpot(L, p.clock), p.pending);
    WiresSnoc(p.sent, s);
    var q := p.(clock := BatchClock(L, p.clock), sent := p.sent + [s], pending := []);
    assert HandsOver(q, vals, products, shareable);
    hide HandsOver, PCheck;
    CheckHands(L, q, vals, products, shareable);
  }

  // A batch of at most k wires, with the triples that may have come with them.
  lemma BatchPunctual<E(!new)>(L: Limits, p: Prover<E>, flushes: bool, finalizes: bool)
    requires 1 <= L.k && 2 <= L.m && 1 <= L.bufSz && FullEnough(L.k, p.pending, flushes)
    requires |p.triples| < L.bufSz + |p.pending|
    requires Punctual(L, p.(pending := [], triples := []), flushes, finalizes)
    ensures Punctual(L, PBatch(L, p), flushes, finalizes) && PBatch(L, p).pending == []
  {
  }

  lemma {:induction false} CombineIs<E(!new)>(F: Field<E>, vals: seq<E>, terms: seq<(E, nat)>, c: E)
    requires F.Laws() && forall i :: 0 <= i < |terms| ==> terms[i].1 < |vals|
    ensures Combine(F, vals, terms, c) == F.Add(c, Dot(F, Coefficients(terms), TermValues(vals, terms)))
    decreases |terms|
  {
    var cs, xs := Coefficients(terms), TermValues(vals, terms);
    if terms == [] {
      Zero(F, c);
    } else {
      var n := |terms| - 1;
      CombineIs(F, vals, terms[..n], c);
      assert Coefficients(terms[..n]) == cs[..n] && TermValues(vals, terms[..n]) == xs[..n];
      DotTake(F, cs, xs, n);
      assert cs[..n + 1] == cs && xs[..n + 1] == xs;
      assert At3(c, Dot(F, cs[..n], xs[..n]), F.Mul(cs[n], xs[n]));
    }
  }

  // The state before a batch that the operation may trigger.
  lemma CreateHands<E(!new)>(F: Field<E>, p: Prover<E>, op: Op<E>, vals: seq<E>, products: seq<(E, E, E)>,
                             shareable: seq<E>)
    requires F.Laws() && HandsOver(p, vals, products, shareable) && Fits(op, |vals|) && !op.Flush? && !op.Finalize?
    ensures var d := Denoted(F, vals, op);
            HandsOver(PCreate(F, p, op), vals + d,
                      products + (if op.Mult? then [(vals[op.a], vals[op.b], d[0])] else []),
                      shareable + if Shared(op) then d else [])
  {
    if op.Lin? { CombineIs(F, vals, op.terms, op.c); }
  }

  lemma CreatePunctual<E(!new)>(F: Field<E>, L: Limits, p: Prover<E>, op: Op<E>, flushes: bool, finalizes: bool)
    requires 1 <= L.k && 1 <= L.bufSz && Punctual(L, p, flushes, finalizes)
    requires Fits(op, |p.vals|) && !op.Flush? && !op.Finalize?
    ensures var q := PCreate(F, p, op);
            && Punctual(L, q.(pending := [], triples := []), flushes, finalizes)
            && |q.triples| < L.bufSz + |q.pending| && |q.pending| == |p.pending| + (if Shared(op) then 1 else 0)
            && (|q.pending| < L.k ==> Punctual(L, q, flushes, finalizes))
  {
    hide FullEnough;
  }

  // ---- whole programs ----

  ghost predicate Flushing<E>(ops: seq<Op<E>>) { exists i :: 0 <= i < |ops| && (ops[i].Flush? || ops[i].Finalize?) }

  ghost predicate Finalizing<E>(ops: seq<Op<E>>) { exists i :: 0 <= i < |ops| && ops[i].Finalize? }

  lemma LaterToo<E(!new)>(L: Limits, p: Prover<E>, flushes: bool, finalizes: bool, flushes': bool, finalizes': bool)
    requires Punctual(L, p, flushes, finalizes) && (flushes ==> flushes') && (finalizes ==> finalizes')
    ensures Punctual(L, p, flushes', finalizes')
  {
  }

  lemma StepHands<E(!new)>(F: Field<E>, L: Limits, p: Prover<E>, op: Op<E>, vals: seq<E>, products: seq<(E, E, E)>,
                           shareable: seq<E>)
    requires F.Laws() && 1 <= L.k && 2 <= L.m && HandsOver(p, vals, products, shareable) && Fits(op, |vals|)
    ensures var d := Denoted(F, vals, op);
            |p.vals| == |vals| &&
            HandsOver(PStep(F, L, p, op), vals + d,
                      products + (if op.Mult? then [(vals[op.a], vals[op.b], d[0])] else []),
                      shareable + if Shared(op) then d else [])
  {
    assert |p.vals| == |vals|;
    assert vals + [] == vals && products + [] == products && shareable + [] == shareable;
    if op.Flush? || op.Finalize? {
      hide HandsOver, PBatch, PCheck;
      BatchHands(L, p, vals, products, shareable);
      CheckHands(L, PFlush(L, p), vals, products, shareable);
    } else {
      CreateHands(F, p, op, vals, products, shareable);
      PStepIs(F, L, p, op);
      hide HandsOver, PBatch, PStep, PCreate;
      var d := Denoted(F, vals, op);
      BatchHands(L, PCreate(F, p, op), vals + d,
                 products + (if op.Mult? then [(vals[op.a], vals[op.b], d[0])] else []),
                 shareable + if Shared(op) then d else []);
    }
  }

  lemma StepPunctual<E(!new)>(F: Field<E>, L: Limits, p: Prover<E>, op: Op<E>, flushes: bool, finalizes: bool)
    requires L.Good() && Punctual(L, p, flushes, finalizes) && Fits(op, |p.vals|)
    requires (op.Flush? || op.Finalize? ==> flushes) && (op.Finalize? ==> finalizes)
    ensures Punctual(L, PStep(F, L, p, op), flushes, finalizes)
  {
    if op.Flush? || op.Finalize? {
      if p.pending != [] { BatchPunctual(L, p, flushes, finalizes); }
      hide PBatch, FullEnough;
    } else {
      CreatePunctual(F, L, p, op, flushes, finalizes);
      PStepIs(F, L, p, op);
      hide Punctual, PBatch, PStep, PCreate;
      if Shared(op) && |p.pending| + 1 == L.k { BatchPunctual(L, PCreate(F, p, op), flushes, finalizes); }
    }
  }

  /** For every legal program: the prover's values are the program's meaning, every product is in
      exactly one check or still held, and every input and product in exactly one packed sharing or
      still pending, all in program order. */
  lemma {:induction false} RunHandsOver<E(!new)>(F: Field<E>, L: Limits, ops: seq<Op<E>>)
    requires F.Laws() && 1 <= L.k && 2 <= L.m && Legal(ops)
    ensures HandsOver(PRun(F, L, ops), Cleartext(F, ops), Products(F, ops), Shareable(F, ops))
  {
    if ops != [] {
      var n := |ops| - 1;
      RunHandsOver(F, L, ops[..n]);
      hide HandsOver, PStep, Denoted;
      StepHands(F, L, PRun(F, L, ops[..n]), ops[n], Cleartext(F, ops[..n]), Products(F, ops[..n]),
                Shareable(F, ops[..n]));
    }
  }

  /** And in time: a packed sharing goes out with k wires, or fewer but some at a flush; a check runs on
      between multGateBufSz and multGateBufSz + k - 1 triples, or fewer at the end; and it is run before
      more are held. */
  lemma {:induction false} RunPunctual<E(!new)>(F: Field<E>, L: Limits, ops: seq<Op<E>>)
    requires L.Good() && Legal(ops)
    ensures Punctual(L, PRun(F, L, ops), Flushing(ops), Finalizing(ops))
  {
    if ops != [] {
      var n := |ops| - 1;
      RunPunctual(F, L, ops[..n]);
      assert ops[..n + 1] == ops;
      OneOpMore(ops);
      hide Punctual, PStep, Flushing, Finalizing;
      LaterToo(L, PRun(F, L, ops[..n]), Flushing(ops[..n]), Finalizing(ops[..n]), Flushing(ops), Finalizing(ops));
      StepPunctual(F, L, PRun(F, L, ops[..n]), ops[n], Flushing(ops), Finalizing(ops));
    }
  }

  lemma OneOpMore<E>(ops: seq<Op<E>>)
    requires ops != []
    ensures var n := |ops| - 1;
            && (Flushing(ops[..n]) || ops[n].Flush? || ops[n].Finalize? ==> Flushing(ops))
            && (Finalizing(ops[..n]) || ops[n].Finalize? ==> Finalizing(ops))
  {
    var n := |ops| - 1;
    if Flushing(ops[..n]) {
      var i :| 0 <= i < n && (ops[..n][i].Flush? || ops[..n][i].Finalize?);
      assert ops[i].Flush? || ops[i].Finalize?;
    }
    if Finalizing(ops[..n]) {
      var i :| 0 <= i < n && ops[..n][i].Finalize?;
      assert ops[i].Finalize?;
    }
  }
}
