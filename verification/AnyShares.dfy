/** Programs against a prover whose packed sharings may be anything. The shares that arrive add up to
    some value for every wire; with these as its inputs and claims, the program says what the checks
    decide, whatever became of the MACs. */
module AnyShares {
  import opened Options
  import opened Algebra
  import opened AuthShares
  import Compression
  import opened Wires
  import opened Lockstep
  import opened LockstepRuns
  import opened ProgramChecks
  import opened ValueLanes
  import VerifierRun
  import MultCheck
  import Interpolation
  import Sound = CheckSoundness

  // ---- the program the shares stand for ----

  // What the shares of wire j of the packed sharing at a spot add up to.
  function Arrived<E(!new)>(F: Field<E>, ps: seq<Party<E>>, at: Spot, j: nat): E { Sum(F, Vals(Arriving(ps, at, j))) }

  // The operation with what the next shared wire turns out to be.
  function Actual<E(!new)>(F: Field<E>, L: Limits, ps: seq<Party<E>>, p: Prover<E>, op: Op<E>): Op<E> {
    var u := Arrived(F, ps, NextSpot(L, p.clock), |p.pending|);
    match op
    case Feed(_) => Feed(u)
    case Mult(a, b, _) => Mult(a, b, Some(u))
    case _ => op
  }

  lemma LegalSnoc<E>(ops: seq<Op<E>>, op: Op<E>)
    requires Legal(ops) && Fits(op, Slots(ops))
    ensures Legal(ops + [op])
    ensures Slots(ops + [op]) == Slots(ops) + if op.Flush? || op.Finalize? then 0 else 1
  {
    assert (ops + [op])[..|ops|] == ops;
  }

  function Effective<E(!new)>(F: Field<E>, L: Limits, ps: seq<Party<E>>, ops: seq<Op<E>>): (r: seq<Op<E>>)
    requires 1 <= L.k && 2 <= L.m && Legal(ops)
    ensures Legal(r) && |r| == |ops| && Slots(r) == Slots(ops)
  {
    if ops == [] then []
    else
      var n := |ops| - 1;
      var was := Effective(F, L, ps, ops[..n]);
      var op := Actual(F, L, ps, PRun(F, L, was), ops[n]);
      LegalSnoc(was, op);
      was + [op]
  }

  // The prover's values are what arrived or, as far as not sent yet, will arrive.
  ghost predicate AddedUp<E(!new)>(F: Field<E>, L: Limits, ps: seq<Party<E>>, p: Prover<E>) {
    && (forall b, j :: 0 <= b < |p.sent| && 0 <= j < |p.sent[b].wires| ==>
          p.sent[b].wires[j] == Arrived(F, ps, p.sent[b].at, j))
    && forall j :: 0 <= j < |p.pending| ==> p.pending[j] == Arrived(F, ps, NextSpot(L, p.clock), j)
  }

  lemma BatchAddedUp<E(!new)>(F: Field<E>, L: Limits, ps: seq<Party<E>>, p: Prover<E>)
    requires 1 <= L.k && 2 <= L.m
    ensures AddedUp(F, L, ps, PBatch(L, p)) <==> AddedUp(F, L, ps, p)
  {
    hide Arrived, CheckClock, BatchClock;
    var q := PBatch(L, p);
    assert q.sent == p.sent + [Sharing(NextSpot(L, p.clock), p.pending)] && q.pending == [];
    if AddedUp(F, L, ps, q) {
      assert q.sent[|p.sent|] == Sharing(NextSpot(L, p.clock), p.pending);
      forall b, j | 0 <= b < |p.sent| && 0 <= j < |p.sent[b].wires|
        ensures p.sent[b].wires[j] == Arrived(F, ps, p.sent[b].at, j)
      {
        assert q.sent[b] == p.sent[b];
      }
    }
  }

  lemma ShareAddedUp<E(!new)>(F: Field<E>, L: Limits, ps: seq<Party<E>>, p: Prover<E>, v: E)
    requires 1 <= L.k && 2 <= L.m
    ensures AddedUp(F, L, ps, PShare(L, p, v))
       <==> AddedUp(F, L, ps, p) && v == Arrived(F, ps, NextSpot(L, p.clock), |p.pending|)
  {
    hide Arrived, PBatch;
    var q := p.(vals := p.vals + [v], pending := p.pending + [v]);
    BatchAddedUp(F, L, ps, q);
    assert q.pending[|p.pending|] == v;
    assert forall j :: 0 <= j < |p.pending| ==> q.pending[j] == p.pending[j];
  }

  // What a step makes of it, and that the step is the effective one exactly if its value arrives.
  lemma StepAddedUp<E(!new)>(F: Field<E>, L: Limits, ps: seq<Party<E>>, p: Prover<E>, op: Op<E>)
    requires 1 <= L.k && 2 <= L.m && Fits(op, |p.vals|)
    ensures AddedUp(F, L, ps, p) ==> AddedUp(F, L, ps, PStep(F, L, p, Actual(F, L, ps, p, op)))
    ensures AddedUp(F, L, ps, PStep(F, L, p, op)) ==>
              AddedUp(F, L, ps, p) && PStep(F, L, p, Actual(F, L, ps, p, op)) == PStep(F, L, p, op)
  {
    hide Arrived, PBatch, PCheck, PShare, AddedUp;
    BatchAddedUp(F, L, ps, p);
    match op
    case Feed(v) =>
      ShareAddedUp(F, L, ps, p, v);
      ShareAddedUp(F, L, ps, p, Arrived(F, ps, NextSpot(L, p.clock), |p.pending|));
    case Mult(a, b, claim) =>
      var out, u := Claimed(F, p.vals[a], p.vals[b], claim), Arrived(F, ps, NextSpot(L, p.clock), |p.pending|);
      TriplesApart(F, L, ps, p, p.triples + [(p.vals[a], p.vals[b], out)]);
      TriplesApart(F, L, ps, p, p.triples + [(p.vals[a], p.vals[b], u)]);
      ShareAddedUp(F, L, ps, p.(triples := p.triples + [(p.vals[a], p.vals[b], out)]), out);
      ShareAddedUp(F, L, ps, p.(triples := p.triples + [(p.vals[a], p.vals[b], u)]), u);
    case Finalize =>
      FlushedPending(L, p);
      CheckAddedUp(F, L, ps, PFlush(L, p));
    case Pub(c) => ValsApart(F, L, ps, p, p.vals + [c]);
    case Lin(terms, c) => ValsApart(F, L, ps, p, p.vals + [Combine(F, p.vals, terms, c)]);
    case Flush =>
  }

  lemma TriplesApart<E(!new)>(F: Field<E>, L: Limits, ps: seq<Party<E>>, p: Prover<E>, ts: seq<(E, E, E)>)
    ensures AddedUp(F, L, ps, p.(triples := ts)) <==> AddedUp(F, L, ps, p)
  {
  }

  lemma ValsApart<E(!new)>(F: Field<E>, L: Limits, ps: seq<Party<E>>, p: Prover<E>, vals: seq<E>)
    ensures AddedUp(F, L, ps, p.(vals := vals)) <==> AddedUp(F, L, ps, p)
  {
  }

  lemma FlushedPending<E(!new)>(L: Limits, p: Prover<E>)
    requires 1 <= L.k && 2 <= L.m
    ensures PFlush(L, p).pending == []
  {
  }

  lemma CheckAddedUp<E(!new)>(F: Field<E>, L: Limits, ps: seq<Party<E>>, p: Prover<E>)
    requires 1 <= L.k && 2 <= L.m && p.pending == []
    ensures AddedUp(F, L, ps, PCheck(L, p)) <==> AddedUp(F, L, ps, p)
  {
  }

  lemma EffectiveStep<E(!new)>(F: Field<E>, L: Limits, ps: seq<Party<E>>, ops: seq<Op<E>>)
    requires 1 <= L.k && 2 <= L.m && Legal(ops) && ops != []
    ensures var was, op := Effective(F, L, ps, ops[..|ops| - 1]), ops[|ops| - 1];
            PRun(F, L, Effective(F, L, ps, ops))
              == PStep(F, L, PRun(F, L, was), Actual(F, L, ps, PRun(F, L, was), op))
  {
    hide PStep, Actual;
    var was, es := Effective(F, L, ps, ops[..|ops| - 1]), Effective(F, L, ps, ops);
    assert es[..|es| - 1] == was;
  }

  lemma {:induction false} EffectiveAddsUp<E(!new)>(F: Field<E>, L: Limits, ps: seq<Party<E>>, ops: seq<Op<E>>)
    requires 1 <= L.k && 2 <= L.m && Legal(ops)
    ensures AddedUp(F, L, ps, PRun(F, L, Effective(F, L, ps, ops)))
  {
    if ops != [] {
      hide AddedUp, PStep, Actual, PRun;
      var n := |ops| - 1;
      EffectiveStep(F, L, ps, ops);
      EffectiveAddsUp(F, L, ps, ops[..n]);
      StepAddedUp(F, L, ps, PRun(F, L, Effective(F, L, ps, ops[..n])), ops[n]);
    }
  }

  /** If the shares add up to what the prover means, the effective program is the program: the
      prover's run is the same, and it makes a false claim exactly if the program does. */
  lemma {:induction false} EffectiveIsProgram<E(!new)>(F: Field<E>, L: Limits, ps: seq<Party<E>>, ops: seq<Op<E>>)
    requires L.Good() && Legal(ops) && AddedUp(F, L, ps, PRun(F, L, ops))
    ensures PRun(F, L, Effective(F, L, ps, ops)) == PRun(F, L, ops)
    ensures NoFalseClaim(F, L, Effective(F, L, ps, ops)) <==> NoFalseClaim(F, L, ops)
  {
    hide AddedUp, PStep, Actual, NoFalseClaim;
    if ops != [] {
      var n := |ops| - 1;
      StepAddedUp(F, L, ps, PRun(F, L, ops[..n]), ops[n]);
      EffectiveIsProgram(F, L, ps, ops[..n]);
      EffectiveStep(F, L, ps, ops);
    }
    RunRight(F, L, ops);
    RunRight(F, L, Effective(F, L, ps, ops));
  }

  // ---- verifiers that see the same values ----

  // Same operation, up to what the prover inputs or claims.
  ghost predicate Like<E(!new)>(a: Op<E>, b: Op<E>) {
    match a
    case Feed(_) => b.Feed?
    case Mult(x, y, _) => b.Mult? && b.a == x && b.b == y
    case _ => b == a
  }

  ghost predicate LikeAll<E(!new)>(s: seq<Op<E>>, t: seq<Op<E>>) {
    |s| == |t| && forall i :: 0 <= i < |s| ==> Like(s[i], t[i])
  }

  ghost predicate SameCells<E>(s: seq<Option<Cell<E>>>, t: seq<Option<Cell<E>>>) {
    |s| == |t| && forall i :: 0 <= i < |s| ==> SameCell(s[i], t[i])
  }

  ghost predicate SameCell<E>(a: Option<Cell<E>>, b: Option<Cell<E>>) {
    a.Some? == b.Some? && (a.Some? ==> a.value.val == b.value.val)
  }

  ghost predicate SameTriples<E>(s: seq<Cells<E>>, t: seq<Cells<E>>) {
    |s| == |t| && forall i :: 0 <= i < |s| ==>
      s[i].0.val == t[i].0.val && s[i].1.val == t[i].1.val && s[i].2.val == t[i].2.val
  }

  ghost predicate SameChecks<E>(s: seq<seq<Cells<E>>>, t: seq<seq<Cells<E>>>) {
    |s| == |t| && forall c :: 0 <= c < |s| ==> SameTriples(s[c], t[c])
  }

  ghost predicate SameParty<E(!new)>(p: Party<E>, q: Party<E>) {
    p.id == q.id && forall at: Spot, j: nat :: p.arrive(at, j).val == q.arrive(at, j).val
  }

  // Two verifiers in the same place, with the same values.
  ghost predicate Alike<E(!new)>(v: Verifier<E>, w: Verifier<E>) {
    && LikeAll(v.prog, w.prog) && SameCells(v.cells, w.cells) && v.pending == w.pending && v.clock == w.clock
    && SameTriples(v.triples, w.triples) && SameChecks(v.checked, w.checked)
  }

  lemma {:induction false} MeaningAlike<E(!new)>(F: Field<E>, p: Party<E>, q: Party<E>, s: seq<Op<E>>, t: seq<Op<E>>,
                                                 cs: seq<Option<Cell<E>>>, ds: seq<Option<Cell<E>>>, id: nat)
    requires SameParty(p, q) && LikeAll(s, t) && SameCells(cs, ds)
    requires Program(s) && Program(t) && |cs| == |s| && id < |s|
    ensures SameCell(Meaning(F, p, s, cs, id), Meaning(F, q, t, ds, id))
    decreases id, 1, 0
  {
    assert Like(s[id], t[id]);
    if s[id].Lin? { MeaningOfAlike(F, p, q, s, t, cs, ds, id, s[id].terms, s[id].c); }
  }

  lemma {:induction false} MeaningOfAlike<E(!new)>(F: Field<E>, p: Party<E>, q: Party<E>, s: seq<Op<E>>, t: seq<Op<E>>,
                                                   cs: seq<Option<Cell<E>>>, ds: seq<Option<Cell<E>>>, n: nat,
                                                   terms: seq<(E, nat)>, c: E)
    requires SameParty(p, q) && LikeAll(s, t) && SameCells(cs, ds)
    requires Program(s) && Program(t) && |cs| == |s| && n <= |s| && forall i :: 0 <= i < |terms| ==> terms[i].1 < n
    ensures SameCell(MeaningOf(F, p, s, cs, n, terms, c), MeaningOf(F, q, t, ds, n, terms, c))
    decreases n, 0, |terms|
  {
    if terms != [] {
      var l := |terms| - 1;
      hide Program, LikeAll, SameCells, Meaning;
      MeaningOfAlike(F, p, q, s, t, cs, ds, n, terms[..l], c);
      MeaningAlike(F, p, q, s, t, cs, ds, terms[l].1);
    }
  }

  lemma FillNextAlike<E(!new)>(F: Field<E>, p: Party<E>, q: Party<E>, v: Verifier<E>, w: Verifier<E>, id: nat,
                               c: Cell<E>, d: Cell<E>)
    requires SameParty(p, q) && Alike(v, w) && Shaped(v) && Shaped(w) && id < |v.prog| && c.val == d.val
    ensures Alike(FillNext(F, p, v, id, c), FillNext(F, q, w, id, d))
  {
    assert Like(v.prog[id], w.prog[id]);
    hide Meaning, Program, SameChecks, SameParty;
    if v.prog[id].Mult? {
      FactorsFit(v.prog, id);
      MeaningAlike(F, p, q, v.prog, w.prog, v.cells, w.cells, v.prog[id].a);
      MeaningAlike(F, p, q, v.prog, w.prog, v.cells, w.cells, v.prog[id].b);
    }
  }

  lemma FactorsFit<E(!new)>(prog: seq<Op<E>>, id: nat)
    requires Program(prog) && id < |prog| && prog[id].Mult?
    ensures prog[id].a < id && prog[id].b < id
  {
  }

  lemma {:induction false} FillAlike<E(!new)>(F: Field<E>, p: Party<E>, q: Party<E>, v: Verifier<E>, w: Verifier<E>,
                                              at: Spot, i: nat)
    requires SameParty(p, q) && Alike(v, w) && Shaped(v) && Shaped(w) && i <= |v.pending|
    ensures Alike(Fill(F, p, v, at, i), Fill(F, q, w, at, i))
    decreases i
  {
    if i > 0 {
      hide Alike, FillNext;
      SamePlace(v, w);
      FillAlike(F, p, q, v, w, at, i - 1);
      FillNextAlike(F, p, q, Fill(F, p, v, at, i - 1), Fill(F, q, w, at, i - 1), v.pending[i - 1], p.arrive(at, i - 1),
                    q.arrive(at, i - 1));
    }
  }

  lemma SamePlace<E(!new)>(v: Verifier<E>, w: Verifier<E>)
    requires Alike(v, w)
    ensures v.pending == w.pending && v.clock == w.clock && |v.triples| == |w.triples| && |v.prog| == |w.prog|
    ensures (v.triples == []) == (w.triples == [])
  {
  }

  lemma CheckAlike<E(!new)>(L: Limits, v: Verifier<E>, w: Verifier<E>)
    requires 1 <= L.k && 2 <= L.m && Alike(v, w)
    ensures Alike(VCheck(L, v), VCheck(L, w))
  {
    hide SameTriples, LikeAll, SameCells, CheckClock;
    SamePlace(v, w);
    var none: seq<Cells<E>> := [];
    assert SameTriples(none, none) by { NoTriples<E>(); }
  }

  lemma NoTriples<E(!new)>()
    ensures SameTriples<E>([], [])
  {
  }

  lemma BatchAlike<E(!new)>(F: Field<E>, L: Limits, p: Party<E>, q: Party<E>, v: Verifier<E>, w: Verifier<E>)
    requires 1 <= L.k && 2 <= L.m && SameParty(p, q) && Alike(v, w) && Shaped(v) && Shaped(w)
    ensures Alike(VBatch(F, L, p, v), VBatch(F, L, q, w))
  {
    var at := NextSpot(L, v.clock);
    FillAlike(F, p, q, v, w, at, |v.pending|);
    var x := Fill(F, p, v, at, |v.pending|).(clock := BatchClock(L, v.clock), pending := []);
    var y := Fill(F, q, w, at, |w.pending|).(clock := BatchClock(L, w.clock), pending := []);
    hide Fill, BatchClock, VCheck, LikeAll, SameCells, SameTriples, SameChecks;
    assert Alike(x, y);
    SamePlace(x, y);
    CheckAlike(L, x, y);
  }

  lemma ShareAlike<E(!new)>(F: Field<E>, L: Limits, p: Party<E>, q: Party<E>, v: Verifier<E>, w: Verifier<E>, a: Op<E>,
                            b: Op<E>)
    requires 1 <= L.k && 2 <= L.m && SameParty(p, q) && Alike(v, w) && Shaped(v) && Shaped(w)
    requires Shared(a) && Like(a, b) && Fits(a, |v.prog|)
    ensures Shared(b) && Fits(b, |w.prog|) && Alike(VShare(F, L, p, v, a), VShare(F, L, q, w, b))
  {
    var x := v.(prog := v.prog + [a], cells := v.cells + [None], pending := v.pending + [|v.prog|]);
    var y := w.(prog := w.prog + [b], cells := w.cells + [None], pending := w.pending + [|w.prog|]);
    assert Alike(x, y);
    hide Alike, VBatch, SameParty, Like;
    SamePlace(x, y);
    if |x.pending| == L.k { BatchAlike(F, L, p, q, x, y); }
  }

  lemma FlushAlike<E(!new)>(F: Field<E>, L: Limits, p: Party<E>, q: Party<E>, v: Verifier<E>, w: Verifier<E>)
    requires 1 <= L.k && 2 <= L.m && SameParty(p, q) && Alike(v, w) && Shaped(v) && Shaped(w)
    ensures Alike(VFlush(F, L, p, v), VFlush(F, L, q, w))
  {
    hide Alike, VBatch;
    SamePlace(v, w);
    BatchAlike(F, L, p, q, v, w);
  }

  lemma StepAlike<E(!new)>(F: Field<E>, L: Limits, p: Party<E>, q: Party<E>, v: Verifier<E>, w: Verifier<E>, a: Op<E>,
                           b: Op<E>)
    requires 1 <= L.k && 2 <= L.m && SameParty(p, q) && Alike(v, w) && Shaped(v) && Shaped(w)
    requires Like(a, b) && Fits(a, |v.prog|)
    ensures Fits(b, |w.prog|) && Alike(VStep(F, L, p, v, a), VStep(F, L, q, w, b))
  {
    SamePlace(v, w);
    if a.Flush? {
      FlushAlike(F, L, p, q, v, w);
    } else if a.Finalize? {
      FlushAlike(F, L, p, q, v, w);
      hide Alike, VFlush, VCheck, SameParty;
      SamePlace(VFlush(F, L, p, v), VFlush(F, L, q, w));
      CheckAlike(L, VFlush(F, L, p, v), VFlush(F, L, q, w));
    } else if a.Pub? || a.Lin? {
      hide VFlush, VCheck, VShare, SameParty;
    } else {
      hide Alike, SameParty;
      ShareAlike(F, L, p, q, v, w, a, b);
    }
  }

  lemma LastLike<E(!new)>(s: seq<Op<E>>, t: seq<Op<E>>)
    requires LikeAll(s, t) && s != []
    ensures |s| == |t| && LikeAll(s[..|s| - 1], t[..|s| - 1]) && Like(s[|s| - 1], t[|s| - 1])
  {
  }

  lemma {:induction false} RunAlike<E(!new)>(F: Field<E>, L: Limits, p: Party<E>, q: Party<E>, s: seq<Op<E>>,
                                             t: seq<Op<E>>)
    requires 1 <= L.k && 2 <= L.m && SameParty(p, q) && Legal(s) && Legal(t) && LikeAll(s, t)
    ensures Alike(VRun(F, L, p, s), VRun(F, L, q, t))
    decreases |s|
  {
    if s != [] {
      hide Alike, Like, LikeAll, VStep, SameParty;
      var n := |s| - 1;
      LastLike(s, t);
      RunAlike(F, L, p, q, s[..n], t[..n]);
      StepAlike(F, L, p, q, VRun(F, L, p, s[..n]), VRun(F, L, q, t[..n]), s[n], t[n]);
    }
  }

  // ---- the same shares without MACs ----

  function BareParties<E(!new)>(F: Field<E>, ps: seq<Party<E>>): (r: seq<Party<E>>)
    ensures |r| == |ps|
  {
    seq(|ps|, i requires 0 <= i < |ps| => BareParty(F, ps[i]))
  }

  function BareParty<E(!new)>(F: Field<E>, p: Party<E>): Party<E> {
    Party(p.id, F.zero, (at: Spot, j: nat) => Cell(F.zero, F.zero, p.arrive(at, j).val))
  }

  lemma BareArrives<E(!new)>(F: Field<E>, ps: seq<Party<E>>, at: Spot, j: nat)
    requires F.Laws()
    ensures Auth(F, Sum(F, Deltas(BareParties(F, ps))), Arrived(F, ps, at, j), Arriving(BareParties(F, ps), at, j))
  {
    var bare := BareParties(F, ps);
    var cs, u := Arriving(bare, at, j), Arrived(F, ps, at, j);
    assert Vals(cs) == Vals(Arriving(ps, at, j));
    assert Macs(cs) == Zeros(F, |ps|) == Keys(cs) && Deltas(bare) == Zeros(F, |ps|);
    SumZeros(F, |ps|);
    Zero(F, u);
    Zero(F, F.zero);
  }

  // Under the key 0, the effective program's packed sharings arrive.
  lemma EffectiveArrives<E(!new)>(F: Field<E>, L: Limits, ps: seq<Party<E>>, ops: seq<Op<E>>)
    requires F.Laws() && 1 <= L.k && 2 <= L.m && Legal(ops)
    ensures AllArrive(F, BareParties(F, ps), PRun(F, L, Effective(F, L, ps, ops)).sent)
  {
    EffectiveAddsUp(F, L, ps, ops);
    var sent := PRun(F, L, Effective(F, L, ps, ops)).sent;
    hide PRun, Arrived, Auth, Arriving, Effective, BareParties;
    forall b, j | 0 <= b < |sent| && 0 <= j < |sent[b].wires|
      ensures Auth(F, Sum(F, Deltas(BareParties(F, ps))), sent[b].wires[j],
                   Arriving(BareParties(F, ps), sent[b].at, j))
    {
      BareArrives(F, ps, sent[b].at, j);
    }
  }

  lemma {:induction false} EffectiveLike<E(!new)>(F: Field<E>, L: Limits, ps: seq<Party<E>>, ops: seq<Op<E>>)
    requires 1 <= L.k && 2 <= L.m && Legal(ops)
    ensures LikeAll(ops, Effective(F, L, ps, ops))
  {
    if ops != [] {
      hide PRun, Actual, LikeAll, Like;
      var n := |ops| - 1;
      var was := Effective(F, L, ps, ops[..n]);
      EffectiveLike(F, L, ps, ops[..n]);
      ActualLike(F, L, ps, PRun(F, L, was), ops[n]);
      LikeSnoc(ops[..n], was, ops[n], Actual(F, L, ps, PRun(F, L, was), ops[n]));
      assert ops == ops[..n] + [ops[n]];
    }
  }

  lemma ActualLike<E(!new)>(F: Field<E>, L: Limits, ps: seq<Party<E>>, p: Prover<E>, op: Op<E>)
    ensures Like(op, Actual(F, L, ps, p, op))
  {
  }

  lemma LikeSnoc<E(!new)>(s: seq<Op<E>>, t: seq<Op<E>>, a: Op<E>, b: Op<E>)
    requires LikeAll(s, t) && Like(a, b)
    ensures LikeAll(s + [a], t + [b])
  {
    hide Like;
  }

  lemma RunsAlike<E(!new)>(F: Field<E>, L: Limits, ps: seq<Party<E>>, ops: seq<Op<E>>, i: nat)
    requires 1 <= L.k && 2 <= L.m && Legal(ops) && i < |ps|
    ensures Alike(VRunAll(F, L, ps, ops)[i], VRunAll(F, L, BareParties(F, ps), Effective(F, L, ps, ops))[i])
  {
    EffectiveLike(F, L, ps, ops);
    hide Alike, LikeAll, Effective, VRun;
    RunAlike(F, L, ps[i], BareParty(F, ps[i]), ops, Effective(F, L, ps, ops));
  }

  // ---- the slots of a run ----

  lemma {:induction false} OneProgram<E(!new)>(F: Field<E>, L: Limits, p: Party<E>, q: Party<E>, ops: seq<Op<E>>)
    requires 1 <= L.k && 2 <= L.m && Legal(ops)
    ensures VRun(F, L, p, ops).prog == VRun(F, L, q, ops).prog
  {
    if ops != [] {
      hide VStep;
      OneProgram(F, L, p, q, ops[..|ops| - 1]);
    }
  }

  lemma AllOneProgram<E(!new)>(F: Field<E>, L: Limits, ps: seq<Party<E>>, ops: seq<Op<E>>)
    requires 1 <= L.k && 2 <= L.m && Parties(ps) && Legal(ops)
    ensures var vs := VRunAll(F, L, ps, ops);
            SameProgram(ps, vs[0].prog, vs) && |vs[0].prog| == Slots(ops)
  {
    var vs := VRunAll(F, L, ps, ops);
    hide VRun;
    forall i | 0 <= i < |vs| ensures vs[i].prog == vs[0].prog { OneProgram(F, L, ps[i], ps[0], ops); }
  }

  /** Whatever arrives, if any verifier can form its share of a slot, all can, and the shares add up to
      the value the slot has in the effective program; with nothing pending all slots can be formed. */
  lemma SlotAddsUp<E(!new)>(F: Field<E>, L: Limits, ps: seq<Party<E>>, ops: seq<Op<E>>, id: nat)
    requires F.Laws() && L.Good() && Parties(ps) && Legal(ops) && id < Slots(ops)
    ensures var vs, p := VRunAll(F, L, ps, ops), PRun(F, L, Effective(F, L, ps, ops));
            var prog := vs[0].prog;
            && SameProgram(ps, prog, vs) && |prog| == Slots(ops) == |p.vals|
            && ((exists i :: 0 <= i < |vs| && Meaning(F, ps[i], prog, vs[i].cells, id).Some?) || p.pending == [] ==>
                  && (forall i :: 0 <= i < |vs| ==> Meaning(F, ps[i], prog, vs[i].cells, id).Some?)
                  && Sum(F, Vals(Meanings(F, ps, prog, vs, id))) == p.vals[id])
  {
    var bare, es := BareParties(F, ps), Effective(F, L, ps, ops);
    var vs, ws, p := VRunAll(F, L, ps, ops), VRunAll(F, L, bare, es), PRun(F, L, es);
    AllOneProgram(F, L, ps, ops);
    EffectiveArrives(F, L, ps, ops);
    assert Parties(bare);
    SlotsAuthentic(F, L, bare, es, id);
    hide PRun, VRunAll, Effective, Meaning, BareParties, AllArrive, Legal, Program, Formed, Meanings, SameProgram;
    forall i | 0 <= i < |vs|
      ensures SameCell(Meaning(F, ps[i], vs[0].prog, vs[i].cells, id), Meaning(F, bare[i], ws[0].prog, ws[i].cells, id))
    {
      SlotAlike(F, L, ps, ops, id, i);
    }
    if (exists i :: 0 <= i < |vs| && Meaning(F, ps[i], vs[0].prog, vs[i].cells, id).Some?) || p.pending == [] {
      if i :| 0 <= i < |vs| && Meaning(F, ps[i], vs[0].prog, vs[i].cells, id).Some? {
        assert Meaning(F, bare[i], ws[0].prog, ws[i].cells, id).Some?;
      }
      FormedAlike(F, ps, bare, vs, ws, p.vals, id);
    }
  }

  lemma FormedAlike<E(!new)>(F: Field<E>, ps: seq<Party<E>>, bare: seq<Party<E>>, vs: seq<Verifier<E>>,
                             ws: seq<Verifier<E>>, vals: seq<E>, id: nat)
    requires |vs| == |ws| >= 1 && SameProgram(ps, vs[0].prog, vs) && SameProgram(bare, ws[0].prog, ws)
    requires id < |vs[0].prog| && id < |ws[0].prog| == |vals|
    requires forall i :: 0 <= i < |vs| ==>
               SameCell(Meaning(F, ps[i], vs[0].prog, vs[i].cells, id),
                        Meaning(F, bare[i], ws[0].prog, ws[i].cells, id))
    requires Formed(F, bare, ws[0].prog, vals, ws, id)
    ensures forall i :: 0 <= i < |vs| ==> Meaning(F, ps[i], vs[0].prog, vs[i].cells, id).Some?
    ensures Sum(F, Vals(Meanings(F, ps, vs[0].prog, vs, id))) == vals[id]
  {
    hide Meaning, Program;
    assert Vals(Meanings(F, ps, vs[0].prog, vs, id)) == Vals(Meanings(F, bare, ws[0].prog, ws, id));
  }

  lemma SlotAlike<E(!new)>(F: Field<E>, L: Limits, ps: seq<Party<E>>, ops: seq<Op<E>>, id: nat, i: nat)
    requires 1 <= L.k && 2 <= L.m && Parties(ps) && Legal(ops) && id < Slots(ops) && i < |ps|
    ensures var vs, bare := VRunAll(F, L, ps, ops), BareParties(F, ps);
            var ws := VRunAll(F, L, bare, Effective(F, L, ps, ops));
            && Parties(bare) && SameProgram(ps, vs[0].prog, vs) && SameProgram(bare, ws[0].prog, ws)
            && id < |vs[0].prog| && id < |ws[0].prog|
            && SameCell(Meaning(F, ps[i], vs[0].prog, vs[i].cells, id),
                        Meaning(F, bare[i], ws[0].prog, ws[i].cells, id))
  {
    var bare, es := BareParties(F, ps), Effective(F, L, ps, ops);
    assert Parties(bare);
    AllOneProgram(F, L, ps, ops);
    AllOneProgram(F, L, bare, es);
    RunsAlike(F, L, ps, ops, i);
    var vs, ws := VRunAll(F, L, ps, ops), VRunAll(F, L, bare, es);
    hide VRunAll, Effective, Meaning, Program, Legal;
    MeaningAlike(F, ps[i], bare[i], vs[0].prog, ws[0].prog, vs[i].cells, ws[i].cells, id);
  }

  // ---- the checks of a run ----

  // A run of a legal program, whatever arrives, and one of its checks.
  ghost predicate AnyCheck<E(!new)>(F: Field<E>, L: Limits, P: Compression.Params<E>, ps: seq<Party<E>>,
                                    ops: seq<Op<E>>, c: nat) {
    && F.Laws() && L.Good() && P.Good() && P.m == L.m && Parties(ps) && Legal(ops)
    && c < |PRun(F, L, Effective(F, L, ps, ops)).checked|
  }

  lemma BareCheck<E(!new)>(F: Field<E>, L: Limits, P: Compression.Params<E>, ps: seq<Party<E>>, ops: seq<Op<E>>,
                           c: nat)
    requires AnyCheck(F, L, P, ps, ops, c)
    ensures 1 <= L.k && 2 <= L.m && Legal(ops) && c < |PRun(F, L, Effective(F, L, ps, ops)).checked|
    ensures CheckOf(F, L, P, BareParties(F, ps), Effective(F, L, ps, ops), c)
  {
    EffectiveArrives(F, L, ps, ops);
    hide PRun, Effective, AllArrive;
    assert Parties(BareParties(F, ps));
  }

  lemma SameBuffers<E(!new)>(vts: seq<seq<Cells<E>>>, wts: seq<seq<Cells<E>>>)
    requires |vts| == |wts| && forall i :: 0 <= i < |vts| ==> SameTriples(vts[i], wts[i])
    ensures ValRows(MultCheck.Lefts(Buffers(vts))) == ValRows(MultCheck.Lefts(Buffers(wts)))
    ensures ValRows(MultCheck.Rights(Buffers(vts))) == ValRows(MultCheck.Rights(Buffers(wts)))
    ensures ValRows(MultCheck.Outs(Buffers(vts))) == ValRows(MultCheck.Outs(Buffers(wts)))
  {
    forall i | 0 <= i < |vts|
      ensures Vals(Part(vts[i], 0)) == Vals(Part(wts[i], 0))
      ensures Vals(Part(vts[i], 1)) == Vals(Part(wts[i], 1))
      ensures Vals(Part(vts[i], 2)) == Vals(Part(wts[i], 2))
    {
      assert SameTriples(vts[i], wts[i]);
    }
    hide SameTriples;
  }

  lemma SameCheck<E(!new)>(v: Verifier<E>, w: Verifier<E>, c: nat)
    requires Alike(v, w) && c < |w.checked|
    ensures c < |v.checked| && SameTriples(v.checked[c], w.checked[c])
  {
  }

  /** Whatever arrives, the shares in every check add up to the triples of the effective program. */
  lemma CheckAddsUp<E(!new)>(F: Field<E>, L: Limits, P: Compression.Params<E>, ps: seq<Party<E>>, ops: seq<Op<E>>,
                             c: nat)
    requires AnyCheck(F, L, P, ps, ops, c)
    ensures forall i :: 0 <= i < |ps| ==> c < |VRunAll(F, L, ps, ops)[i].checked|
    ensures var ts := PRun(F, L, Effective(F, L, ps, ops)).checked[c];
            |ts| >= 1 && RecordedValues(F, Lefts(ts), Rights(ts), Outs(ts), BuffersAt(F, L, ps, ops, c))
  {
    hide *;
    BareCheck(F, L, P, ps, ops, c);
    var bare, es := BareParties(F, ps), Effective(F, L, ps, ops);
    CheckRecorded(F, L, P, bare, es, c);
    var vs, ws, ts := VRunAll(F, L, ps, ops), VRunAll(F, L, bare, es), PRun(F, L, es).checked[c];
    forall i | 0 <= i < |ps| ensures c < |vs[i].checked| && SameTriples(vs[i].checked[c], ws[i].checked[c]) {
      RunsAlike(F, L, ps, ops, i);
      SameCheck(vs[i], ws[i], c);
    }
    AtChecks(F, L, ps, ops, c);
    AtChecks(F, L, bare, es, c);
    CheckedPairs(vs, ws, c);
    SameBuffers(CheckedAt(vs, c), CheckedAt(ws, c));
    FromRecorded(F, Sum(F, Deltas(bare)), Lefts(ts), Rights(ts), Outs(ts), BuffersAt(F, L, ps, ops, c),
                 BuffersAt(F, L, bare, es, c));
  }

  lemma AtChecks<E(!new)>(F: Field<E>, L: Limits, ps: seq<Party<E>>, ops: seq<Op<E>>, c: nat)
    requires 1 <= L.k && 2 <= L.m && Legal(ops)
             && forall i :: 0 <= i < |ps| ==> c < |VRunAll(F, L, ps, ops)[i].checked|
    ensures BuffersAt(F, L, ps, ops, c) == Buffers(CheckedAt(VRunAll(F, L, ps, ops), c))
  {
  }

  lemma CheckedPairs<E(!new)>(vs: seq<Verifier<E>>, ws: seq<Verifier<E>>, c: nat)
    requires |vs| == |ws| && forall i :: 0 <= i < |vs| ==> c < |vs[i].checked| && c < |ws[i].checked|
    requires forall i :: 0 <= i < |vs| ==> SameTriples(vs[i].checked[c], ws[i].checked[c])
    ensures forall i :: 0 <= i < |vs| ==> SameTriples(CheckedAt(vs, c)[i], CheckedAt(ws, c)[i])
  {
    hide SameTriples;
  }

  lemma FromRecorded<E(!new)>(F: Field<E>, delta: E, left: seq<E>, right: seq<E>, out: seq<E>,
                              ts: seq<MultCheck.Triples<E>>, us: seq<MultCheck.Triples<E>>)
    requires MultCheck.Recorded(F, delta, left, right, out, us)
    requires ValRows(MultCheck.Lefts(ts)) == ValRows(MultCheck.Lefts(us))
    requires ValRows(MultCheck.Rights(ts)) == ValRows(MultCheck.Rights(us))
    requires ValRows(MultCheck.Outs(ts)) == ValRows(MultCheck.Outs(us))
    ensures RecordedValues(F, left, right, out, ts)
  {
  }

  /** Whatever the prover sends as packed sharings, before a check and in it: if the verifiers accept
      a check, the strategy that the messages add up to passes for the effective program. */
  lemma AcceptedPasses<E(!new)>(F: Field<E>, L: Limits, P: Compression.Params<E>, ps: seq<Party<E>>, ops: seq<Op<E>>,
                                c: nat, chi: seq<E>, S: Sound.Strategy<E>, recs: seq<seq<Lanes<E>>>, rs: seq<E>)
    requires AnyCheck(F, L, P, ps, ops, c)
    requires |chi| == |PRun(F, L, Effective(F, L, ps, ops)).checked[c]| >= 1
    requires forall i :: 0 <= i < |ps| ==> c < |VRunAll(F, L, ps, ops)[i].checked|
    requires var st := StateAt(F, P, PRun(F, L, Effective(F, L, ps, ops)).checked[c], chi);
             && Compression.Rounds(P.m, st.len) <= |rs| && Compression.Rounds(P.m, st.len) <= |recs|
             && DeliveredValues(F, |ps|, Sound.MessagesOf(F, P, st.len, S, rs), recs)
             && MultCheck.Accepted(F, Deltas(ps),
                                   VerifierRun.Finals(F, P, MultCheck.InitShares(F, P.m, BuffersAt(F, L, ps, ops, c),
                                       chi),
                                                      st.len, recs, rs))
    ensures Sound.Passes(F, P, StateAt(F, P, PRun(F, L, Effective(F, L, ps, ops)).checked[c], chi), S, rs)
  {
    CheckAddsUp(F, L, P, ps, ops, c);
    var ts := PRun(F, L, Effective(F, L, ps, ops)).checked[c];
    var st := StateAt(F, P, ts, chi);
    hide PRun, VRunAll, Effective, RecordedValues, MultCheck.Accepted, BuffersAt, DeliveredValues, Sound.Passes,
        Sound.MessagesOf;
    Sound.PassesIsOutcome(F, P, st, S, rs);
    AcceptedIsProduct(F, P, Deltas(ps), Lefts(ts), Rights(ts), Outs(ts), chi, BuffersAt(F, L, ps, ops, c),
                      Sound.MessagesOf(F, P, st.len, S, rs), recs, rs);
  }

  /** Soundness against every prover: if what arrives adds up to a program with a false claim, then in
      some check at most the fraction (1 + 2 m rounds) / |C| of all coefficients and challenges lets
      any strategy pass, and so lets the verifiers accept. */
  lemma FalseProgramIsCaught<E(!new)>(F: Field<E>, L: Limits, P: Compression.Params<E>, ps: seq<Party<E>>,
                                      ops: seq<Op<E>>, S: Sound.Strategy<E>, C: seq<E>)
    returns (c: nat)
    requires F.Laws() && L.Good() && P.Good() && P.m == L.m && Parties(ps) && Legal(ops)
             && ops != [] && ops[|ops| - 1].Finalize?
    requires !NoFalseClaim(F, L, Effective(F, L, ps, ops)) && Interpolation.Distinct(C)
    ensures AnyCheck(F, L, P, ps, ops, c) && |PRun(F, L, Effective(F, L, ps, ops)).checked[c]| >= 1
    ensures var ts := PRun(F, L, Effective(F, L, ps, ops)).checked[c];
            var R := Sound.CheckRounds(P.m, |ts|);
            Sound.AtMostFraction(Sound.Cheats(F, P, Lefts(ts), Rights(ts), Outs(ts), [], S, C),
                                 Sound.NPow(|C|, |ts| + R), Sound.Odds(P.m, R), |C|)
  {
    EffectiveLike(F, L, ps, ops);
    assert Like(ops[|ops| - 1], Effective(F, L, ps, ops)[|ops| - 1]);
    hide PRun, Effective, NoFalseClaim, Sound.Cheats, Sound.AtMostFraction, Sound.NPow, Sound.Odds, Sound.CheckRounds;
    c := FalseClaimIsCaught(F, L, P, Effective(F, L, ps, ops), S, C);
  }
}
