/** Prover and verifiers stay in lockstep over every program: the same refills, packed sharings and
    checks at the same operations, the same triples in the same order when a check runs, and
    every share a verifier can form authentic for the prover's value. */
module Lockstep {
  import opened Options
  import opened Algebra
  import opened Wires

  // ---- authentic cells ----

  function Macs<E>(cs: seq<Cell<E>>): (r: seq<E>) ensures |r| == |cs| {
    seq(|cs|, i requires 0 <= i < |cs| => cs[i].mac)
  }

  function Keys<E>(cs: seq<Cell<E>>): (r: seq<E>) ensures |r| == |cs| {
    seq(|cs|, i requires 0 <= i < |cs| => cs[i].key)
  }

  function Vals<E>(cs: seq<Cell<E>>): (r: seq<E>) ensures |r| == |cs| {
    seq(|cs|, i requires 0 <= i < |cs| => cs[i].val)
  }

  // The cells together share v, with a MAC under delta.
  ghost predicate Auth<E(!new)>(F: Field<E>, delta: E, v: E, cs: seq<Cell<E>>) {
    Sum(F, Vals(cs)) == v && Sum(F, Macs(cs)) == F.Add(Sum(F, Keys(cs)), F.Mul(delta, v))
  }

  function Deltas<E(!new)>(ps: seq<Party<E>>): (r: seq<E>) ensures |r| == |ps| {
    seq(|ps|, i requires 0 <= i < |ps| => ps[i].delta)
  }

  // Verifiers numbered from 0.
  ghost predicate Parties<E(!new)>(ps: seq<Party<E>>) {
    |ps| >= 1 && forall i :: 0 <= i < |ps| ==> ps[i].id == i
  }

  function PubCells<E(!new)>(F: Field<E>, ps: seq<Party<E>>, c: E): (r: seq<Cell<E>>) ensures |r| == |ps| {
    seq(|ps|, i requires 0 <= i < |ps| => PubCell(F, ps[i].id, ps[i].delta, c))
  }

  function LinCells<E(!new)>(F: Field<E>, a: E, xs: seq<Cell<E>>, ys: seq<Cell<E>>): (r: seq<Cell<E>>)
    requires |xs| == |ys|
    ensures |r| == |xs|
  {
    seq(|xs|, i requires 0 <= i < |xs| => AddCell(F, xs[i], ScaleCell(F, a, ys[i])))
  }

  lemma SumLin<E(!new)>(F: Field<E>, a: E, s: seq<E>, t: seq<E>, r: seq<E>)
    requires F.Laws() && |s| == |t| == |r| && forall i :: 0 <= i < |s| ==> r[i] == F.Add(s[i], F.Mul(a, t[i]))
    ensures Sum(F, r) == F.Add(Sum(F, s), F.Mul(a, Sum(F, t)))
  {
    assert r == VAdd(F, s, Scale(F, a, t));
    SumAdd(F, s, Scale(F, a, t));
    SumScale(F, a, t);
  }

  lemma AuthLin<E(!new)>(F: Field<E>, delta: E, a: E, v: E, w: E, xs: seq<Cell<E>>, ys: seq<Cell<E>>)
    requires F.Laws() && |xs| == |ys| && Auth(F, delta, v, xs) && Auth(F, delta, w, ys)
    ensures Auth(F, delta, F.Add(v, F.Mul(a, w)), LinCells(F, a, xs, ys))
  {
    var zs := LinCells(F, a, xs, ys);
    SumLin(F, a, Vals(xs), Vals(ys), Vals(zs));
    SumLin(F, a, Macs(xs), Macs(ys), Macs(zs));
    SumLin(F, a, Keys(xs), Keys(ys), Keys(zs));
    MacIdentity(F, delta, a, v, w, Sum(F, Keys(xs)), Sum(F, Keys(ys)));
  }

  lemma MacIdentity<E(!new)>(F: Field<E>, delta: E, a: E, v: E, w: E, k: E, l: E)
    requires F.Laws()
    ensures F.Add(F.Add(k, F.Mul(delta, v)), F.Mul(a, F.Add(l, F.Mul(delta, w))))
         == F.Add(F.Add(k, F.Mul(a, l)), F.Mul(delta, F.Add(v, F.Mul(a, w))))
  {
    Ring(F);
  }

  lemma {:induction false} SumFirst<E(!new)>(F: Field<E>, s: seq<E>)
    requires F.Laws() && s != [] && forall i :: 1 <= i < |s| ==> s[i] == F.zero
    ensures Sum(F, s) == s[0]
  {
    assert s[1..] == Zeros(F, |s| - 1);
    SumZeros(F, |s| - 1);
    Zero(F, s[0]);
  }

  lemma AuthPub<E(!new)>(F: Field<E>, ps: seq<Party<E>>, c: E)
    requires F.Laws() && Parties(ps)
    ensures Auth(F, Sum(F, Deltas(ps)), c, PubCells(F, ps, c))
  {
    var cs, delta := PubCells(F, ps, c), Sum(F, Deltas(ps));
    SumFirst(F, Vals(cs));
    assert Macs(cs) == Zeros(F, |ps|);
    SumZeros(F, |ps|);
    assert Keys(cs) == Scale(F, F.Neg(c), Deltas(ps)) by {
      forall i | 0 <= i < |ps|
        ensures F.Neg(F.Mul(c, ps[i].delta)) == F.Mul(F.Neg(c), ps[i].delta)
      {
        NegLaws(F, c, ps[i].delta);
      }
    }
    SumScale(F, F.Neg(c), Deltas(ps));
    NegLaws(F, c, delta);
    assert At2(c, delta) && At1(F.Mul(c, delta)) && At2(F.Neg(F.Mul(c, delta)), F.Mul(c, delta));
  }

  // ---- what every verifier makes of a slot ----

  // The verifiers have run the same program.
  ghost predicate SameProgram<E(!new)>(ps: seq<Party<E>>, prog: seq<Op<E>>, vs: seq<Verifier<E>>) {
    && Parties(ps) && |vs| == |ps| && Program(prog)
    && forall i :: 0 <= i < |vs| ==> vs[i].prog == prog && |vs[i].cells| == |prog|
  }

  // Values of the slots are what the program makes of the inputs.
  ghost predicate Evaluated<E(!new)>(F: Field<E>, prog: seq<Op<E>>, vals: seq<E>) {
    && Program(prog) && |vals| == |prog|
    && forall i :: 0 <= i < |prog| ==> EvaluatedAt(F, prog[i], vals, i)
  }

  ghost predicate EvaluatedAt<E(!new)>(F: Field<E>, op: Op<E>, vals: seq<E>, i: nat)
    requires i < |vals| && Fits(op, i)
  {
    match op
    case Feed(v) => vals[i] == v
    case Pub(c) => vals[i] == c
    case Lin(terms, c) => vals[i] == Combine(F, vals, terms, c)
    case Mult(a, b, claim) => vals[i] == Claimed(F, vals[a], vals[b], claim)
    case _ => true
  }

  // Every shared slot below n has arrived at every verifier, and what has arrived is authentic.
  ghost predicate ArrivedBelow<E(!new)>(F: Field<E>, ps: seq<Party<E>>, prog: seq<Op<E>>, vals: seq<E>,
                                        vs: seq<Verifier<E>>, n: nat)
    requires SameProgram(ps, prog, vs) && |vals| == |prog| && n <= |prog|
  {
    forall id :: 0 <= id < n && Shared(prog[id]) ==> CellsAuth(F, ps, prog, vals, vs, id)
  }

  ghost predicate CellsAuth<E(!new)>(F: Field<E>, ps: seq<Party<E>>, prog: seq<Op<E>>, vals: seq<E>,
                                     vs: seq<Verifier<E>>, id: nat)
    requires SameProgram(ps, prog, vs) && |vals| == |prog| && id < |prog|
  {
    (forall i :: 0 <= i < |vs| ==> vs[i].cells[id].Some?)
    && Auth(F, Sum(F, Deltas(ps)), vals[id], seq(|vs|, i requires 0 <= i < |vs| => Get(F, vs[i].cells[id])))
  }

  function Meanings<E(!new)>(F: Field<E>, ps: seq<Party<E>>, prog: seq<Op<E>>, vs: seq<Verifier<E>>,
                             id: nat): (r: seq<Cell<E>>)
    requires SameProgram(ps, prog, vs) && id < |prog|
    ensures |r| == |vs|
  {
    seq(|vs|, i requires 0 <= i < |vs| => Get(F, Meaning(F, ps[i], prog, vs[i].cells, id)))
  }

  // All verifiers can form slot id, and their shares are authentic for its value.
  ghost predicate Formed<E(!new)>(F: Field<E>, ps: seq<Party<E>>, prog: seq<Op<E>>, vals: seq<E>, vs: seq<Verifier<E>>,
                                  id: nat)
    requires SameProgram(ps, prog, vs) && |vals| == |prog| && id < |prog|
  {
    && (forall i :: 0 <= i < |vs| ==> Meaning(F, ps[i], prog, vs[i].cells, id).Some?)
    && Auth(F, Sum(F, Deltas(ps)), vals[id], Meanings(F, ps, prog, vs, id))
  }

  function MeaningsOf<E(!new)>(F: Field<E>, ps: seq<Party<E>>, prog: seq<Op<E>>, vs: seq<Verifier<E>>, n: nat,
                               terms: seq<(E, nat)>, c: E): (r: seq<Cell<E>>)
    requires SameProgram(ps, prog, vs) && n <= |prog| && forall i :: 0 <= i < |terms| ==> terms[i].1 < n
    ensures |r| == |vs|
  {
    seq(|vs|, i requires 0 <= i < |vs| => Get(F, MeaningOf(F, ps[i], prog, vs[i].cells, n, terms, c)))
  }

  /** Once the shared slots a slot depends on have arrived, every verifier's share of it is
      determined, and together they are authentic for the prover's value. */
  lemma {:induction false} SlotFormed<E(!new)>(F: Field<E>, ps: seq<Party<E>>, prog: seq<Op<E>>, vals: seq<E>,
                                               vs: seq<Verifier<E>>, n: nat, id: nat)
    requires F.Laws() && SameProgram(ps, prog, vs) && Evaluated(F, prog, vals) && n <= |prog| && id < n
    requires ArrivedBelow(F, ps, prog, vals, vs, n)
    ensures Formed(F, ps, prog, vals, vs, id)
    decreases id, 1, 0
  {
    assert EvaluatedAt(F, prog[id], vals, id);
    if prog[id].Pub? {
      AuthPub(F, ps, prog[id].c);
      assert Meanings(F, ps, prog, vs, id) == PubCells(F, ps, prog[id].c);
    } else if prog[id].Lin? {
      TermsFormed(F, ps, prog, vals, vs, n, id, prog[id].terms, prog[id].c);
      assert Meanings(F, ps, prog, vs, id) == MeaningsOf(F, ps, prog, vs, id, prog[id].terms, prog[id].c);
    } else {
      assert CellsAuth(F, ps, prog, vals, vs, id);
      assert Meanings(F, ps, prog, vs, id) == seq(|vs|, i requires 0 <= i < |vs| => Get(F, vs[i].cells[id]));
    }
  }

  lemma {:induction false} TermsFormed<E(!new)>(F: Field<E>, ps: seq<Party<E>>, prog: seq<Op<E>>, vals: seq<E>,
                                                vs: seq<Verifier<E>>, n: nat, id: nat, terms: seq<(E, nat)>, c: E)
    requires F.Laws() && SameProgram(ps, prog, vs) && Evaluated(F, prog, vals) && id < n <= |prog|
    requires ArrivedBelow(F, ps, prog, vals, vs, n) && forall i :: 0 <= i < |terms| ==> terms[i].1 < id
    ensures forall i :: 0 <= i < |vs| ==> MeaningOf(F, ps[i], prog, vs[i].cells, id, terms, c).Some?
    ensures Auth(F, Sum(F, Deltas(ps)), Combine(F, vals, terms, c), MeaningsOf(F, ps, prog, vs, id, terms, c))
    decreases id, 0, |terms|
  {
    if terms == [] {
      AuthPub(F, ps, c);
      assert MeaningsOf(F, ps, prog, vs, id, terms, c) == PubCells(F, ps, c);
    } else {
      var l := |terms| - 1;
      var a, x := terms[l].0, terms[l].1;
      TermsFormed(F, ps, prog, vals, vs, n, id, terms[..l], c);
      SlotFormed(F, ps, prog, vals, vs, n, x);
      var us, ws := MeaningsOf(F, ps, prog, vs, id, terms[..l], c), Meanings(F, ps, prog, vs, x);
      AuthLin(F, Sum(F, Deltas(ps)), a, Combine(F, vals, terms[..l], c), vals[x], us, ws);
      assert MeaningsOf(F, ps, prog, vs, id, terms, c) == LinCells(F, a, us, ws);
    }
  }

  // ---- triples ----

  // The verifiers' triples are, entry by entry, authentic shares of the prover's.
  ghost predicate TriplesAuth<E(!new)>(F: Field<E>, delta: E, ts: seq<(E, E, E)>,
                                       vts: seq<seq<(Cell<E>, Cell<E>, Cell<E>)>>) {
    && (forall i :: 0 <= i < |vts| ==> |vts[i]| == |ts|)
    && forall t :: 0 <= t < |ts| ==> TripleAuth(F, delta, ts[t], Row(vts, t))
  }

  function Row<T>(vts: seq<seq<T>>, t: nat): (r: seq<T>)
    requires forall i :: 0 <= i < |vts| ==> t < |vts[i]|
    ensures |r| == |vts|
  {
    seq(|vts|, i requires 0 <= i < |vts| => vts[i][t])
  }

  ghost predicate TripleAuth<E(!new)>(F: Field<E>, delta: E, t: (E, E, E), cs: seq<(Cell<E>, Cell<E>, Cell<E>)>) {
    && Auth(F, delta, t.0, seq(|cs|, i requires 0 <= i < |cs| => cs[i].0))
    && Auth(F, delta, t.1, seq(|cs|, i requires 0 <= i < |cs| => cs[i].1))
    && Auth(F, delta, t.2, seq(|cs|, i requires 0 <= i < |cs| => cs[i].2))
  }

  lemma TriplesSnoc<E(!new)>(F: Field<E>, delta: E, ts: seq<(E, E, E)>, vts: seq<seq<(Cell<E>, Cell<E>, Cell<E>)>>,
                             t: (E, E, E), cs: seq<(Cell<E>, Cell<E>, Cell<E>)>,
                             vts': seq<seq<(Cell<E>, Cell<E>, Cell<E>)>>)
    requires TriplesAuth(F, delta, ts, vts) && TripleAuth(F, delta, t, cs) && |cs| == |vts| == |vts'|
    requires forall i :: 0 <= i < |vts| ==> vts'[i] == vts[i] + [cs[i]]
    ensures TriplesAuth(F, delta, ts + [t], vts')
  {
    hide TripleAuth;
    forall x | 0 <= x < |ts| + 1 ensures TripleAuth(F, delta, (ts + [t])[x], Row(vts', x)) {
      if x < |ts| { assert Row(vts', x) == Row(vts, x); } else { assert Row(vts', x) == cs; }
    }
  }

  // The triples of the pending products, in order.
  function PendingTriples<E(!new)>(prog: seq<Op<E>>, vals: seq<E>, pend: seq<nat>): seq<(E, E, E)>
    requires Program(prog) && |vals| == |prog| && forall j :: 0 <= j < |pend| ==> pend[j] < |prog|
  {
    if pend == [] then []
    else
      var l := |pend| - 1;
      var rest := PendingTriples(prog, vals, pend[..l]);
      if prog[pend[l]].Mult? then rest + [TripleOf(prog, vals, pend[l])] else rest
  }

  function TripleOf<E(!new)>(prog: seq<Op<E>>, vals: seq<E>, id: nat): (E, E, E)
    requires Program(prog) && |vals| == |prog| && id < |prog| && prog[id].Mult?
  {
    (vals[prog[id].a], vals[prog[id].b], vals[id])
  }

  lemma {:induction false} PendingCount<E(!new)>(prog: seq<Op<E>>, vals: seq<E>, pend: seq<nat>)
    requires Program(prog) && |vals| == |prog| && forall j :: 0 <= j < |pend| ==> pend[j] < |prog|
    ensures |PendingTriples(prog, vals, pend)| <= |pend|
  {
    if pend != [] { PendingCount(prog, vals, pend[..|pend| - 1]); }
  }

  function ValuesAt<E(!new)>(vals: seq<E>, pend: seq<nat>): (r: seq<E>)
    requires forall j :: 0 <= j < |pend| ==> pend[j] < |vals|
    ensures |r| == |pend|
  {
    seq(|pend|, j requires 0 <= j < |pend| => vals[pend[j]])
  }

  // Pending slots in program order, all of them inputs or products.
  ghost predicate Ordered<E(!new)>(prog: seq<Op<E>>, pend: seq<nat>) {
    && (forall j :: 0 <= j < |pend| ==> pend[j] < |prog| && Shared(prog[pend[j]]))
    && forall i, j :: 0 <= i < j < |pend| ==> pend[i] < pend[j]
  }

  // Every shared slot outside pend[j..] has arrived and is authentic; the others have not arrived.
  ghost predicate ArrivedBut<E(!new)>(F: Field<E>, ps: seq<Party<E>>, prog: seq<Op<E>>, vals: seq<E>,
                                      vs: seq<Verifier<E>>, pend: seq<nat>, j: nat)
    requires SameProgram(ps, prog, vs) && |vals| == |prog| && j <= |pend|
  {
    forall id :: 0 <= id < |prog| && Shared(prog[id]) ==> SlotState(F, ps, prog, vals, vs, id, id in pend[j..])
  }

  ghost predicate SlotState<E(!new)>(F: Field<E>, ps: seq<Party<E>>, prog: seq<Op<E>>, vals: seq<E>,
                                     vs: seq<Verifier<E>>, id: nat, waits: bool)
    requires SameProgram(ps, prog, vs) && |vals| == |prog| && id < |prog|
  {
    if waits then forall i :: 0 <= i < |vs| ==> vs[i].cells[id] == None else CellsAuth(F, ps, prog, vals, vs, id)
  }

  lemma AllBelow<E(!new)>(F: Field<E>, ps: seq<Party<E>>, prog: seq<Op<E>>, vals: seq<E>, vs: seq<Verifier<E>>,
                          pend: seq<nat>)
    requires SameProgram(ps, prog, vs) && |vals| == |prog| && ArrivedBut(F, ps, prog, vals, vs, pend, 0) && pend == []
    ensures ArrivedBelow(F, ps, prog, vals, vs, |prog|)
  {
    forall id | 0 <= id < |prog| && Shared(prog[id]) ensures CellsAuth(F, ps, prog, vals, vs, id) {
      assert SlotState(F, ps, prog, vals, vs, id, id in pend[0..]);
    }
  }

  /** What one verifier can form all can, authentically. */
  lemma {:induction false} FormedIfAny<E(!new)>(F: Field<E>, ps: seq<Party<E>>, prog: seq<Op<E>>, vals: seq<E>,
                                                vs: seq<Verifier<E>>, pend: seq<nat>, i: nat, id: nat)
    requires F.Laws() && SameProgram(ps, prog, vs) && Evaluated(F, prog, vals)
             && ArrivedBut(F, ps, prog, vals, vs, pend, 0)
    requires i < |vs| && id < |prog| && Meaning(F, ps[i], prog, vs[i].cells, id).Some?
    ensures Formed(F, ps, prog, vals, vs, id)
    decreases id, 1, 0
  {
    assert EvaluatedAt(F, prog[id], vals, id);
    if prog[id].Pub? {
      AuthPub(F, ps, prog[id].c);
      assert Meanings(F, ps, prog, vs, id) == PubCells(F, ps, prog[id].c);
    } else if prog[id].Lin? {
      TermsIfAny(F, ps, prog, vals, vs, pend, i, id, prog[id].terms, prog[id].c);
      assert Meanings(F, ps, prog, vs, id) == MeaningsOf(F, ps, prog, vs, id, prog[id].terms, prog[id].c);
    } else {
      assert SlotState(F, ps, prog, vals, vs, id, id in pend[0..]);
      assert Meanings(F, ps, prog, vs, id) == seq(|vs|, x requires 0 <= x < |vs| => Get(F, vs[x].cells[id]));
    }
  }

  lemma {:induction false} TermsIfAny<E(!new)>(F: Field<E>, ps: seq<Party<E>>, prog: seq<Op<E>>, vals: seq<E>,
                                               vs: seq<Verifier<E>>, pend: seq<nat>, i: nat, id: nat,
                                               terms: seq<(E, nat)>, c: E)
    requires F.Laws() && SameProgram(ps, prog, vs) && Evaluated(F, prog, vals)
             && ArrivedBut(F, ps, prog, vals, vs, pend, 0)
    requires i < |vs| && id < |prog| && forall t :: 0 <= t < |terms| ==> terms[t].1 < id
    requires MeaningOf(F, ps[i], prog, vs[i].cells, id, terms, c).Some?
    ensures forall x :: 0 <= x < |vs| ==> MeaningOf(F, ps[x], prog, vs[x].cells, id, terms, c).Some?
    ensures Auth(F, Sum(F, Deltas(ps)), Combine(F, vals, terms, c), MeaningsOf(F, ps, prog, vs, id, terms, c))
    decreases id, 0, |terms|
  {
    if terms == [] {
      AuthPub(F, ps, c);
      assert MeaningsOf(F, ps, prog, vs, id, terms, c) == PubCells(F, ps, c);
    } else {
      var l := |terms| - 1;
      var a, x := terms[l].0, terms[l].1;
      TermsIfAny(F, ps, prog, vals, vs, pend, i, id, terms[..l], c);
      FormedIfAny(F, ps, prog, vals, vs, pend, i, x);
      var us, ws := MeaningsOf(F, ps, prog, vs, id, terms[..l], c), Meanings(F, ps, prog, vs, x);
      AuthLin(F, Sum(F, Deltas(ps)), a, Combine(F, vals, terms[..l], c), vals[x], us, ws);
      assert MeaningsOf(F, ps, prog, vs, id, terms, c) == LinCells(F, a, us, ws);
    }
  }

  // ---- a packed sharing arrives ----

  // The verifiers' shares of a packed sharing are authentic for the wires the prover put into it.
  ghost predicate Arrives<E(!new)>(F: Field<E>, ps: seq<Party<E>>, sh: Sharing<E>) {
    forall j :: 0 <= j < |sh.wires| ==> Auth(F, Sum(F, Deltas(ps)), sh.wires[j], Arriving(ps, sh.at, j))
  }

  function Arriving<E(!new)>(ps: seq<Party<E>>, at: Spot, j: nat): (r: seq<Cell<E>>)
    ensures |r| == |ps|
  {
    seq(|ps|, i requires 0 <= i < |ps| => ps[i].arrive(at, j))
  }

  function FillAll<E(!new)>(F: Field<E>, ps: seq<Party<E>>, vs: seq<Verifier<E>>, at: Spot,
                            j: nat): (r: seq<Verifier<E>>)
    requires |ps| == |vs| && forall i :: 0 <= i < |vs| ==> Shaped(vs[i]) && j <= |vs[i].pending|
    ensures |r| == |vs|
  {
    seq(|vs|, i requires 0 <= i < |vs| => assert Shaped(vs[i]); Fill(F, ps[i], vs[i], at, j))
  }

  function TripleLists<E(!new)>(vs: seq<Verifier<E>>): (r: seq<seq<(Cell<E>, Cell<E>, Cell<E>)>>)
    ensures |r| == |vs|
  {
    seq(|vs|, i requires 0 <= i < |vs| => vs[i].triples)
  }

  // Verifiers about to fill the pending slots pend of the next packed sharing.
  ghost predicate Waiting<E(!new)>(ps: seq<Party<E>>, prog: seq<Op<E>>, vs: seq<Verifier<E>>, pend: seq<nat>) {
    && SameProgram(ps, prog, vs) && Ordered(prog, pend)
    && forall i :: 0 <= i < |vs| ==> vs[i].pending == pend
  }

  // With the first j pending slots filled: what has arrived is authentic, and so are the triples.
  ghost predicate Filled<E(!new)>(F: Field<E>, ps: seq<Party<E>>, prog: seq<Op<E>>, vals: seq<E>, ts: seq<(E, E, E)>,
                                  vs: seq<Verifier<E>>, pend: seq<nat>, j: nat)
    requires |vals| == |prog| && j <= |pend|
  {
    && Waiting(ps, prog, vs, pend) && ArrivedBut(F, ps, prog, vals, vs, pend, j)
    && TriplesAuth(F, Sum(F, Deltas(ps)), ts + PendingTriples(prog, vals, pend[..j]), TripleLists(vs))
  }

  function NextAll<E(!new)>(F: Field<E>, ps: seq<Party<E>>, vs: seq<Verifier<E>>, id: nat,
                            cells: seq<Cell<E>>): (r: seq<Verifier<E>>)
    requires |ps| == |vs| == |cells| && forall i :: 0 <= i < |vs| ==> Shaped(vs[i]) && id < |vs[i].prog|
    ensures |r| == |vs|
  {
    seq(|vs|, i requires 0 <= i < |vs| => assert Shaped(vs[i]); FillNext(F, ps[i], vs[i], id, cells[i]))
  }

  lemma NextCells<E(!new)>(F: Field<E>, ps: seq<Party<E>>, prog: seq<Op<E>>, vals: seq<E>, vs: seq<Verifier<E>>,
                           pend: seq<nat>, j: nat, cells: seq<Cell<E>>)
    requires |vals| == |prog| && j < |pend| && Waiting(ps, prog, vs, pend)
             && ArrivedBut(F, ps, prog, vals, vs, pend, j)
    requires |cells| == |ps| && Auth(F, Sum(F, Deltas(ps)), vals[pend[j]], cells)
    ensures Waiting(ps, prog, NextAll(F, ps, vs, pend[j], cells), pend)
    ensures ArrivedBut(F, ps, prog, vals, NextAll(F, ps, vs, pend[j], cells), pend, j + 1)
  {
    var id, ws := pend[j], NextAll(F, ps, vs, pend[j], cells);
    assert pend[j..] == [id] + pend[j + 1..];
    assert Waiting(ps, prog, ws, pend);
    assert id !in pend[j + 1..];
    hide SlotState, NextAll, Waiting, Ordered;
    forall x | 0 <= x < |prog| && Shared(prog[x]) ensures SlotState(F, ps, prog, vals, ws, x, x in pend[j + 1..]) {
      assert SlotState(F, ps, prog, vals, vs, x, x in pend[j..]);
      NextCellsAt(F, ps, prog, vals, vs, pend, j, cells, x, x in pend[j + 1..]);
    }
  }

  lemma NextCellsAt<E(!new)>(F: Field<E>, ps: seq<Party<E>>, prog: seq<Op<E>>, vals: seq<E>, vs: seq<Verifier<E>>,
                             pend: seq<nat>, j: nat, cells: seq<Cell<E>>, x: nat, waits: bool)
    requires |vals| == |prog| && j < |pend| && Waiting(ps, prog, vs, pend) && x < |prog|
    requires |cells| == |ps| && Auth(F, Sum(F, Deltas(ps)), vals[pend[j]], cells)
    requires if x != pend[j] then SlotState(F, ps, prog, vals, vs, x, waits) else !waits
    ensures SameProgram(ps, prog, NextAll(F, ps, vs, pend[j], cells))
    ensures SlotState(F, ps, prog, vals, NextAll(F, ps, vs, pend[j], cells), x, waits)
  {
    hide Auth;
    var ws := NextAll(F, ps, vs, pend[j], cells);
    assert seq(|ws|, i requires 0 <= i < |ws| => Get(F, ws[i].cells[x]))
        == if x == pend[j] then cells else seq(|vs|, i requires 0 <= i < |vs| => Get(F, vs[i].cells[x]));
  }

  lemma EarlierArrived<E(!new)>(F: Field<E>, ps: seq<Party<E>>, prog: seq<Op<E>>, vals: seq<E>, vs: seq<Verifier<E>>,
                                pend: seq<nat>, j: nat)
    requires |vals| == |prog| && j < |pend| && Waiting(ps, prog, vs, pend)
             && ArrivedBut(F, ps, prog, vals, vs, pend, j)
    ensures ArrivedBelow(F, ps, prog, vals, vs, pend[j])
  {
    assert forall x :: 0 <= x < |pend[j..]| ==> pend[j..][x] == pend[j + x] >= pend[j];
    forall id | 0 <= id < pend[j] && Shared(prog[id]) ensures CellsAuth(F, ps, prog, vals, vs, id) {
      assert id !in pend[j..];
      assert SlotState(F, ps, prog, vals, vs, id, id in pend[j..]);
    }
  }

  lemma NextTriple<E(!new)>(F: Field<E>, ps: seq<Party<E>>, prog: seq<Op<E>>, vals: seq<E>, ts: seq<(E, E, E)>,
                            vs: seq<Verifier<E>>, pend: seq<nat>, j: nat, cells: seq<Cell<E>>)
    requires F.Laws() && Evaluated(F, prog, vals) && j < |pend| && Filled(F, ps, prog, vals, ts, vs, pend, j)
    requires |cells| == |ps| && Auth(F, Sum(F, Deltas(ps)), vals[pend[j]], cells)
    ensures TriplesAuth(F, Sum(F, Deltas(ps)), ts + PendingTriples(prog, vals, pend[..j + 1]),
                        TripleLists(NextAll(F, ps, vs, pend[j], cells)))
  {
    hide *;
    FilledFacts(F, ps, prog, vals, ts, vs, pend, j);
    NextPending(prog, vals, pend, j);
    var id, was := pend[j], PendingTriples(prog, vals, pend[..j]);
    var lists := TripleLists(NextAll(F, ps, vs, id, cells));
    NextLists(F, ps, prog, vs, pend, id, cells);
    if prog[id].Mult? {
      ProductTriple(F, ps, prog, vals, ts + was, vs, id, cells, lists);
      assert (ts + was) + [TripleOf(prog, vals, id)] == ts + (was + [TripleOf(prog, vals, id)]);
    } else {
      assert was + [] == was;
    }
  }

  lemma FilledFacts<E(!new)>(F: Field<E>, ps: seq<Party<E>>, prog: seq<Op<E>>, vals: seq<E>, ts: seq<(E, E, E)>,
                             vs: seq<Verifier<E>>, pend: seq<nat>, j: nat)
    requires Evaluated(F, prog, vals) && j < |pend| && Filled(F, ps, prog, vals, ts, vs, pend, j)
    ensures Waiting(ps, prog, vs, pend) && SameProgram(ps, prog, vs) && |vals| == |prog| && |vs| == |ps|
    ensures Program(prog) && (forall i :: 0 <= i < |pend| ==> pend[i] < |prog|) && Shared(prog[pend[j]])
    ensures ArrivedBelow(F, ps, prog, vals, vs, pend[j])
    ensures forall i :: 0 <= i < |vs| ==> Shaped(vs[i]) && pend[j] < |vs[i].prog|
    ensures TriplesAuth(F, Sum(F, Deltas(ps)), ts + PendingTriples(prog, vals, pend[..j]), TripleLists(vs))
  {
    hide TriplesAuth, PendingTriples, ArrivedBut, ArrivedBelow;
    EarlierArrived(F, ps, prog, vals, vs, pend, j);
  }

  lemma NextPending<E(!new)>(prog: seq<Op<E>>, vals: seq<E>, pend: seq<nat>, j: nat)
    requires Program(prog) && |vals| == |prog| && j < |pend| && forall i :: 0 <= i < |pend| ==> pend[i] < |prog|
    ensures PendingTriples(prog, vals, pend[..j + 1])
         == PendingTriples(prog, vals, pend[..j])
            + if prog[pend[j]].Mult? then [TripleOf(prog, vals, pend[j])] else []
  {
    assert pend[..j + 1][..j] == pend[..j] && pend[..j + 1][j] == pend[j];
  }

  // The triple of a product that arrives.
  lemma ProductTriple<E(!new)>(F: Field<E>, ps: seq<Party<E>>, prog: seq<Op<E>>, vals: seq<E>, ts: seq<(E, E, E)>,
                               vs: seq<Verifier<E>>, id: nat, cells: seq<Cell<E>>,
                               lists: seq<seq<(Cell<E>, Cell<E>, Cell<E>)>>)
    requires F.Laws() && SameProgram(ps, prog, vs) && Evaluated(F, prog, vals) && id < |prog| && prog[id].Mult?
    requires ArrivedBelow(F, ps, prog, vals, vs, id) && |cells| == |vs| == |lists|
    requires Auth(F, Sum(F, Deltas(ps)), vals[id], cells) && TriplesAuth(F, Sum(F, Deltas(ps)), ts, TripleLists(vs))
    requires forall i :: 0 <= i < |vs| ==>
      lists[i] == TripleLists(vs)[i] + [TripleCells(F, ps, prog, vs, id, cells)[i]]
    ensures TriplesAuth(F, Sum(F, Deltas(ps)), ts + [TripleOf(prog, vals, id)], lists)
  {
    assert |vals| == |prog|;
    hide TriplesAuth, TripleAuth, Auth, Formed, ArrivedBelow, Evaluated, TripleLists;
    SlotFormed(F, ps, prog, vals, vs, id, prog[id].a);
    SlotFormed(F, ps, prog, vals, vs, id, prog[id].b);
    TripleIsAuth(F, ps, prog, vals, vs, id, cells);
    TriplesSnoc(F, Sum(F, Deltas(ps)), ts, TripleLists(vs), TripleOf(prog, vals, id),
                TripleCells(F, ps, prog, vs, id, cells), lists);
  }

  lemma NextLists<E(!new)>(F: Field<E>, ps: seq<Party<E>>, prog: seq<Op<E>>, vs: seq<Verifier<E>>, pend: seq<nat>,
                           id: nat, cells: seq<Cell<E>>)
    requires Waiting(ps, prog, vs, pend) && id < |prog| && |cells| == |vs| && Shared(prog[id])
    ensures var ws := NextAll(F, ps, vs, id, cells);
            if prog[id].Mult? then
              forall i :: 0 <= i < |vs| ==>
                TripleLists(ws)[i] == TripleLists(vs)[i] + [TripleCells(F, ps, prog, vs, id, cells)[i]]
            else TripleLists(ws) == TripleLists(vs)
  {
  }

  function TripleCells<E(!new)>(F: Field<E>, ps: seq<Party<E>>, prog: seq<Op<E>>, vs: seq<Verifier<E>>, id: nat,
                                cells: seq<Cell<E>>): (r: seq<(Cell<E>, Cell<E>, Cell<E>)>)
    requires SameProgram(ps, prog, vs) && id < |prog| && prog[id].Mult? && |cells| == |vs|
    ensures |r| == |vs|
  {
    var us, ws := Meanings(F, ps, prog, vs, prog[id].a), Meanings(F, ps, prog, vs, prog[id].b);
    seq(|vs|, i requires 0 <= i < |vs| => (us[i], ws[i], cells[i]))
  }

  lemma TripleIsAuth<E(!new)>(F: Field<E>, ps: seq<Party<E>>, prog: seq<Op<E>>, vals: seq<E>, vs: seq<Verifier<E>>,
                              id: nat, cells: seq<Cell<E>>)
    requires SameProgram(ps, prog, vs) && |vals| == |prog| && id < |prog| && prog[id].Mult? && |cells| == |vs|
    requires Formed(F, ps, prog, vals, vs, prog[id].a) && Formed(F, ps, prog, vals, vs, prog[id].b)
    requires Auth(F, Sum(F, Deltas(ps)), vals[id], cells)
    ensures TripleAuth(F, Sum(F, Deltas(ps)), TripleOf(prog, vals, id), TripleCells(F, ps, prog, vs, id, cells))
  {
    var cs := TripleCells(F, ps, prog, vs, id, cells);
    assert seq(|cs|, i requires 0 <= i < |cs| => cs[i].0) == Meanings(F, ps, prog, vs, prog[id].a);
    assert seq(|cs|, i requires 0 <= i < |cs| => cs[i].1) == Meanings(F, ps, prog, vs, prog[id].b);
    assert seq(|cs|, i requires 0 <= i < |cs| => cs[i].2) == cells;
  }

  lemma {:induction false} FillsAuth<E(!new)>(F: Field<E>, ps: seq<Party<E>>, prog: seq<Op<E>>, vals: seq<E>,
                                              ts: seq<(E, E, E)>, vs: seq<Verifier<E>>, pend: seq<nat>, at: Spot,
                                              j: nat)
    requires F.Laws() && Evaluated(F, prog, vals) && |vals| == |prog| && j <= |pend|
             && Filled(F, ps, prog, vals, ts, vs, pend, 0)
    requires |vs| == |ps|
             && forall i :: 0 <= i < |vs| ==> Shaped(vs[i]) && vs[i].pending == pend
    requires (forall i :: 0 <= i < |pend| ==> pend[i] < |vals|) && Arrives(F, ps, Sharing(at, ValuesAt(vals, pend)))
    ensures Filled(F, ps, prog, vals, ts, FillAll(F, ps, vs, at, j), pend, j)
    decreases j
  {
    hide *;
    if j == 0 {
      FillNone(F, ps, vs, at);
    } else {
      FillsAuth(F, ps, prog, vals, ts, vs, pend, at, j - 1);
      ArrivalAt(F, ps, vals, pend, at, j - 1);
      FillsAuthStep(F, ps, prog, vals, ts, vs, pend, at, j, FillAll(F, ps, vs, at, j - 1), Arriving(ps, at, j - 1));
    }
  }

  lemma FillNone<E(!new)>(F: Field<E>, ps: seq<Party<E>>, vs: seq<Verifier<E>>, at: Spot)
    requires |ps| == |vs| && forall i :: 0 <= i < |vs| ==> Shaped(vs[i])
    ensures FillAll(F, ps, vs, at, 0) == vs
  {
  }

  lemma ArrivalAt<E(!new)>(F: Field<E>, ps: seq<Party<E>>, vals: seq<E>, pend: seq<nat>, at: Spot, j: nat)
    requires (forall i :: 0 <= i < |pend| ==> pend[i] < |vals|) && j < |pend|
    requires Arrives(F, ps, Sharing(at, ValuesAt(vals, pend)))
    ensures Auth(F, Sum(F, Deltas(ps)), vals[pend[j]], Arriving(ps, at, j))
  {
    assert ValuesAt(vals, pend)[j] == vals[pend[j]];
  }

  lemma FillsAuthStep<E(!new)>(F: Field<E>, ps: seq<Party<E>>, prog: seq<Op<E>>, vals: seq<E>, ts: seq<(E, E, E)>,
                               vs: seq<Verifier<E>>, pend: seq<nat>, at: Spot, j: nat, was: seq<Verifier<E>>,
                               cells: seq<Cell<E>>)
    requires F.Laws() && Evaluated(F, prog, vals) && |vals| == |prog| && 1 <= j <= |pend| && |vs| == |ps| == |was|
    requires forall i :: 0 <= i < |vs| ==> Shaped(vs[i]) && vs[i].pending == pend
    requires was == FillAll(F, ps, vs, at, j - 1) && Filled(F, ps, prog, vals, ts, was, pend, j - 1)
    requires cells == Arriving(ps, at, j - 1) && pend[j - 1] < |vals|
             && Auth(F, Sum(F, Deltas(ps)), vals[pend[j - 1]], cells)
    ensures Filled(F, ps, prog, vals, ts, FillAll(F, ps, vs, at, j), pend, j)
  {
    hide *;
    FilledNext(F, ps, prog, vals, ts, was, pend, j - 1, cells);
    FillStep(F, ps, vs, pend, at, j, was, cells);
  }

  lemma FilledNext<E(!new)>(F: Field<E>, ps: seq<Party<E>>, prog: seq<Op<E>>, vals: seq<E>, ts: seq<(E, E, E)>,
                            vs: seq<Verifier<E>>, pend: seq<nat>, j: nat, cells: seq<Cell<E>>)
    requires F.Laws() && Evaluated(F, prog, vals) && j < |pend| && Filled(F, ps, prog, vals, ts, vs, pend, j)
    requires |cells| == |ps| && Auth(F, Sum(F, Deltas(ps)), vals[pend[j]], cells)
    ensures |vs| == |ps| && forall i :: 0 <= i < |vs| ==> Shaped(vs[i]) && pend[j] < |vs[i].prog|
    ensures Filled(F, ps, prog, vals, ts, NextAll(F, ps, vs, pend[j], cells), pend, j + 1)
  {
    assert |vals| == |prog|;
    hide TriplesAuth, Auth, ArrivedBut, PendingTriples, Evaluated, NextAll;
    NextCells(F, ps, prog, vals, vs, pend, j, cells);
    NextTriple(F, ps, prog, vals, ts, vs, pend, j, cells);
  }

  lemma FillStep<E(!new)>(F: Field<E>, ps: seq<Party<E>>, vs: seq<Verifier<E>>, pend: seq<nat>, at: Spot, j: nat,
                          was: seq<Verifier<E>>, cells: seq<Cell<E>>)
    requires |ps| == |vs| && 1 <= j <= |pend| && cells == Arriving(ps, at, j - 1)
    requires forall i :: 0 <= i < |vs| ==> Shaped(vs[i]) && vs[i].pending == pend
    requires was == FillAll(F, ps, vs, at, j - 1)
    requires forall i :: 0 <= i < |was| ==> Shaped(was[i]) && pend[j - 1] < |was[i].prog|
    ensures FillAll(F, ps, vs, at, j) == NextAll(F, ps, was, pend[j - 1], cells)
  {
  }

  // ---- a slot is created ----

  lemma {:induction false} CombineExt<E(!new)>(F: Field<E>, vals: seq<E>, v: E, terms: seq<(E, nat)>, c: E)
    requires forall i :: 0 <= i < |terms| ==> terms[i].1 < |vals|
    ensures Combine(F, vals + [v], terms, c) == Combine(F, vals, terms, c)
  {
    if terms != [] { CombineExt(F, vals, v, terms[..|terms| - 1], c); }
  }

  lemma EvaluatedExt<E(!new)>(F: Field<E>, prog: seq<Op<E>>, vals: seq<E>, op: Op<E>, v: E)
    requires Evaluated(F, prog, vals) && !op.Flush? && !op.Finalize? && Fits(op, |prog|)
    requires EvaluatedAt(F, op, vals + [v], |vals|)
    ensures Evaluated(F, prog + [op], vals + [v])
  {
    forall i | 0 <= i < |prog| + 1 ensures EvaluatedAt(F, (prog + [op])[i], vals + [v], i) {
      if i < |prog| {
        assert EvaluatedAt(F, prog[i], vals, i);
        if prog[i].Lin? { CombineExt(F, vals, v, prog[i].terms, prog[i].c); }
      }
    }
  }

  lemma {:induction false} PendingExt<E(!new)>(prog: seq<Op<E>>, vals: seq<E>, op: Op<E>, v: E, pend: seq<nat>)
    requires Program(prog) && Program(prog + [op]) && |vals| == |prog|
             && forall j :: 0 <= j < |pend| ==> pend[j] < |prog|
    ensures PendingTriples(prog + [op], vals + [v], pend) == PendingTriples(prog, vals, pend)
  {
    if pend != [] { PendingExt(prog, vals, op, v, pend[..|pend| - 1]); }
  }

  // Verifiers with one more slot, pending if it is shared.
  function Created<E(!new)>(vs: seq<Verifier<E>>, op: Op<E>): (r: seq<Verifier<E>>)
    ensures |r| == |vs|
  {
    seq(|vs|, i requires 0 <= i < |vs| =>
      vs[i].(prog := vs[i].prog + [op], cells := vs[i].cells + [None],
             pending := if Shared(op) then vs[i].pending + [|vs[i].prog|] else vs[i].pending))
  }

  lemma OldCells<E(!new)>(F: Field<E>, ps: seq<Party<E>>, prog: seq<Op<E>>, vals: seq<E>, vs: seq<Verifier<E>>,
                          op: Op<E>, v: E, id: nat, waits: bool)
    requires SameProgram(ps, prog, vs) && SameProgram(ps, prog + [op], Created(vs, op)) && |vals| == |prog|
             && id < |prog|
    requires SlotState(F, ps, prog, vals, vs, id, waits)
    ensures SlotState(F, ps, prog + [op], vals + [v], Created(vs, op), id, waits)
  {
    var vs' := Created(vs, op);
    assert seq(|vs|, i requires 0 <= i < |vs| => Get(F, vs'[i].cells[id])) == seq(|vs|,
        i requires 0 <= i < |vs| => Get(F, vs[i].cells[id]));
  }

  lemma NewCell<E(!new)>(F: Field<E>, ps: seq<Party<E>>, prog: seq<Op<E>>, vals: seq<E>, vs: seq<Verifier<E>>,
                         op: Op<E>, v: E)
    requires SameProgram(ps, prog, vs) && SameProgram(ps, prog + [op], Created(vs, op)) && |vals| == |prog|
    ensures SlotState(F, ps, prog + [op], vals + [v], Created(vs, op), |prog|, true)
  {
  }

  lemma CreatedWaiting<E(!new)>(ps: seq<Party<E>>, prog: seq<Op<E>>, vs: seq<Verifier<E>>, pend: seq<nat>,
                                op: Op<E>)
    requires Waiting(ps, prog, vs, pend) && !op.Flush? && !op.Finalize? && Fits(op, |prog|)
    ensures Waiting(ps, prog + [op], Created(vs, op), if Shared(op) then pend + [|prog|] else pend)
  {
  }

  lemma CreatedArrived<E(!new)>(F: Field<E>, ps: seq<Party<E>>, prog: seq<Op<E>>, vals: seq<E>, vs: seq<Verifier<E>>,
                                pend: seq<nat>, op: Op<E>, v: E, pend': seq<nat>)
    requires SameProgram(ps, prog, vs) && SameProgram(ps, prog + [op], Created(vs, op)) && |vals| == |prog|
    requires ArrivedBut(F, ps, prog, vals, vs, pend, 0) && pend' == if Shared(op) then pend + [|prog|] else pend
    ensures ArrivedBut(F, ps, prog + [op], vals + [v], Created(vs, op), pend', 0)
  {
    var prog' := prog + [op];
    assert pend'[0..] == pend' && pend[0..] == pend;
    assert Shared(op) ==> pend'[|pend|] == |prog|;
    NewCell(F, ps, prog, vals, vs, op, v);
    hide SlotState, Created, SameProgram;
    forall id | 0 <= id < |prog'| && Shared(prog'[id])
      ensures SlotState(F, ps, prog', vals + [v], Created(vs, op), id, id in pend'[0..])
    {
      if id < |prog| {
        assert id in pend'[0..] <==> id in pend[0..];
        assert SlotState(F, ps, prog, vals, vs, id, id in pend[0..]);
        OldCells(F, ps, prog, vals, vs, op, v, id, id in pend[0..]);
      }
    }
  }

  lemma CreatedFilled<E(!new)>(F: Field<E>, ps: seq<Party<E>>, prog: seq<Op<E>>, vals: seq<E>, ts: seq<(E, E, E)>,
                               vs: seq<Verifier<E>>, pend: seq<nat>, op: Op<E>, v: E)
    requires |vals| == |prog| && Filled(F, ps, prog, vals, ts, vs, pend, 0)
    requires !op.Flush? && !op.Finalize? && Fits(op, |prog|)
    ensures Filled(F, ps, prog + [op], vals + [v], ts, Created(vs, op), if Shared(op) then pend + [|prog|] else pend, 0)
  {
    var pend' := if Shared(op) then pend + [|prog|] else pend;
    CreatedWaiting(ps, prog, vs, pend, op);
    assert TripleLists(Created(vs, op)) == TripleLists(vs);
    assert pend'[..0] == pend[..0] == [];
    hide ArrivedBut, TriplesAuth, Created, Ordered, Fits;
    CreatedArrived(F, ps, prog, vals, vs, pend, op, v, pend');
  }

  // ---- lockstep ----

  function CheckedAt<E(!new)>(vs: seq<Verifier<E>>, c: nat): (r: seq<seq<(Cell<E>, Cell<E>, Cell<E>)>>)
    requires forall i :: 0 <= i < |vs| ==> c < |vs[i].checked|
    ensures |r| == |vs|
  {
    seq(|vs|, i requires 0 <= i < |vs| => vs[i].checked[c])
  }

  // Every check so far ran on as many triples at the verifiers as at the prover, in the same order.
  ghost predicate ChecksAuth<E(!new)>(F: Field<E>, delta: E, checked: seq<seq<(E, E, E)>>, vs: seq<Verifier<E>>) {
    && (forall i :: 0 <= i < |vs| ==> |vs[i].checked| == |checked|)
    && forall c :: 0 <= c < |checked| ==> TriplesAuth(F, delta, checked[c], CheckedAt(vs, c))
  }

  // The lockstep but for the bound on recorded triples.
  ghost predicate Matched<E(!new)>(F: Field<E>, L: Limits, ps: seq<Party<E>>, p: Prover<E>, vs: seq<Verifier<E>>,
                                   prog: seq<Op<E>>, pend: seq<nat>, rec: seq<(E, E, E)>) {
    && L.Good() && Evaluated(F, prog, p.vals) && |p.sent| == p.clock.batches
    && Filled(F, ps, prog, p.vals, rec, vs, pend, 0)
    && p.triples == rec + PendingTriples(prog, p.vals, pend) && p.pending == ValuesAt(p.vals, pend)
    && (forall i :: 0 <= i < |vs| ==> vs[i].clock == p.clock)
    && ChecksAuth(F, Sum(F, Deltas(ps)), p.checked, vs)
  }

  /** The lockstep between operations: program, pending slots and the triples both sides have
      recorded; the prover's further triples are those of the pending products. */
  ghost predicate Lock<E(!new)>(F: Field<E>, L: Limits, ps: seq<Party<E>>, p: Prover<E>, vs: seq<Verifier<E>>,
                                prog: seq<Op<E>>, pend: seq<nat>, rec: seq<(E, E, E)>) {
    Matched(F, L, ps, p, vs, prog, pend, rec) && |rec| < L.bufSz && |pend| <= L.k
  }

  /** Never more triples than the buffers hold. */
  lemma TriplesBounded<E(!new)>(F: Field<E>, L: Limits, ps: seq<Party<E>>, p: Prover<E>, vs: seq<Verifier<E>>,
                                prog: seq<Op<E>>, pend: seq<nat>, rec: seq<(E, E, E)>)
    requires Lock(F, L, ps, p, vs, prog, pend, rec)
    ensures |p.triples| <= L.bufSz + L.k - 1
    ensures forall i :: 0 <= i < |vs| ==> |vs[i].triples| <= |p.triples|
  {
    PendingCount(prog, p.vals, pend);
    assert forall i :: 0 <= i < |vs| ==> TripleLists(vs)[i] == vs[i].triples;
    assert pend[..0] == [] && rec + [] == rec;
  }

  lemma ChecksSnoc<E(!new)>(F: Field<E>, delta: E, checked: seq<seq<(E, E, E)>>, vs: seq<Verifier<E>>,
                            ts: seq<(E, E, E)>, vs': seq<Verifier<E>>)
    requires ChecksAuth(F, delta, checked, vs) && TriplesAuth(F, delta, ts, TripleLists(vs)) && |vs'| == |vs|
    requires forall i :: 0 <= i < |vs| ==> vs'[i].checked == vs[i].checked + [vs[i].triples]
    ensures ChecksAuth(F, delta, checked + [ts], vs')
  {
    hide TriplesAuth;
    forall c | 0 <= c < |checked| + 1 ensures TriplesAuth(F, delta, (checked + [ts])[c], CheckedAt(vs', c)) {
      if c < |checked| {
        assert CheckedAt(vs', c) == CheckedAt(vs, c);
      } else {
        assert CheckedAt(vs', c) == TripleLists(vs);
      }
    }
  }

  lemma ChecksSame<E(!new)>(F: Field<E>, delta: E, checked: seq<seq<(E, E, E)>>, vs: seq<Verifier<E>>,
                            vs': seq<Verifier<E>>)
    requires ChecksAuth(F, delta, checked, vs) && |vs'| == |vs|
             && forall i :: 0 <= i < |vs| ==> vs'[i].checked == vs[i].checked
    ensures ChecksAuth(F, delta, checked, vs')
  {
    hide TriplesAuth;
    forall c | 0 <= c < |checked| ensures TriplesAuth(F, delta, checked[c], CheckedAt(vs', c)) {
      assert CheckedAt(vs', c) == CheckedAt(vs, c);
    }
  }
}