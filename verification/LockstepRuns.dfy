/** The lockstep between prover and verifiers is kept by every operation, and so by every program. */
module LockstepRuns {
  import opened Options
  import opened Algebra
  import opened Wires
  import opened Lockstep

  function CreatedValue<E(!new)>(F: Field<E>, p: Prover<E>, op: Op<E>): E
    requires !op.Flush? && !op.Finalize? && Fits(op, |p.vals|)
  {
    match op
    case Feed(v) => v
    case Pub(c) => c
    case Lin(terms, c) => Combine(F, p.vals, terms, c)
    case Mult(a, b, claim) => Claimed(F, p.vals[a], p.vals[b], claim)
  }

  // The prover with one more slot, before any packed sharing is sent.
  function PCreate<E(!new)>(F: Field<E>, p: Prover<E>, op: Op<E>): Prover<E>
    requires !op.Flush? && !op.Finalize? && Fits(op, |p.vals|)
  {
    var v := CreatedValue(F, p, op);
    p.(vals := p.vals + [v],
       pending := if Shared(op) then p.pending + [v] else p.pending,
       triples := if op.Mult? then p.triples + [(p.vals[op.a], p.vals[op.b], v)] else p.triples)
  }

  lemma ProgramExt<E(!new)>(prog: seq<Op<E>>, op: Op<E>)
    requires Program(prog) && !op.Flush? && !op.Finalize? && Fits(op, |prog|)
    ensures Program(prog + [op])
  {
  }

  lemma LastPending<E(!new)>(prog: seq<Op<E>>, vals: seq<E>, pend: seq<nat>, id: nat)
    requires Program(prog) && |vals| == |prog| && id < |prog| && (forall j :: 0 <= j < |pend| ==> pend[j] < |prog|)
    ensures PendingTriples(prog, vals, pend + [id])
         == PendingTriples(prog, vals, pend) + if prog[id].Mult? then [TripleOf(prog, vals, id)] else []
  {
    assert (pend + [id])[..|pend|] == pend;
    hide Program;
  }

  lemma CreatedTriples<E(!new)>(F: Field<E>, prog: seq<Op<E>>, p: Prover<E>, pend: seq<nat>, op: Op<E>, pend': seq<nat>)
    requires Program(prog) && |p.vals| == |prog| && (forall j :: 0 <= j < |pend| ==> pend[j] < |prog|)
    requires !op.Flush? && !op.Finalize? && Fits(op, |prog|) && Program(prog + [op])
    requires pend' == if Shared(op) then pend + [|prog|] else pend
    ensures PendingTriples(prog + [op], PCreate(F, p, op).vals, pend')
         == PendingTriples(prog, p.vals, pend)
            + if op.Mult? then [(p.vals[op.a], p.vals[op.b], CreatedValue(F, p, op))] else []
  {
    var v := CreatedValue(F, p, op);
    PendingExt(prog, p.vals, op, v, pend);
    assert (prog + [op])[|prog|] == op;
    hide PendingTriples, Program, CreatedValue;
    if Shared(op) { LastPending(prog + [op], p.vals + [v], pend, |prog|); }
  }

  lemma CreatedMatches<E(!new)>(F: Field<E>, p: Prover<E>, vs: seq<Verifier<E>>, prog: seq<Op<E>>, pend: seq<nat>,
                                op: Op<E>, pend': seq<nat>)
    requires |p.vals| == |prog|
             && (forall j :: 0 <= j < |pend| ==> pend[j] < |prog|) && p.pending == ValuesAt(p.vals, pend)
    requires !op.Flush? && !op.Finalize? && Fits(op, |prog|) && pend' == if Shared(op) then pend + [|prog|] else pend
    requires forall i :: 0 <= i < |vs| ==> vs[i].clock == p.clock
    ensures PCreate(F, p, op).pending == ValuesAt(PCreate(F, p, op).vals, pend')
    ensures forall i :: 0 <= i < |vs| ==>
      Created(vs, op)[i].clock == p.clock && Created(vs, op)[i].checked == vs[i].checked
  {
    hide CreatedValue, Fits;
  }

  lemma MatchedParts<E(!new)>(F: Field<E>, L: Limits, ps: seq<Party<E>>, p: Prover<E>, vs: seq<Verifier<E>>,
                              prog: seq<Op<E>>, pend: seq<nat>, rec: seq<(E, E, E)>)
    requires Matched(F, L, ps, p, vs, prog, pend, rec)
    ensures Evaluated(F, prog, p.vals) && Program(prog) && |p.vals| == |prog| && L.Good() && |p.sent| == p.clock.batches
    ensures Filled(F, ps, prog, p.vals, rec, vs, pend, 0) && |vs| == |ps|
    ensures (forall j :: 0 <= j < |pend| ==> pend[j] < |prog|) && p.pending == ValuesAt(p.vals, pend)
    ensures p.triples == rec + PendingTriples(prog, p.vals, pend)
    ensures forall i :: 0 <= i < |vs| ==>
      vs[i].clock == p.clock && vs[i].pending == pend && Shaped(vs[i]) && vs[i].prog == prog
    ensures ChecksAuth(F, Sum(F, Deltas(ps)), p.checked, vs)
  {
  }

  lemma CreatedFields<E(!new)>(F: Field<E>, p: Prover<E>, op: Op<E>)
    requires !op.Flush? && !op.Finalize? && Fits(op, |p.vals|)
    ensures var q := PCreate(F, p, op);
            && q.vals == p.vals + [CreatedValue(F, p, op)]
            && q.clock == p.clock && q.sent == p.sent && q.checked == p.checked
            && q.triples == p.triples + if op.Mult? then [(p.vals[op.a], p.vals[op.b], CreatedValue(F, p, op))] else []
  {
    hide CreatedValue;
  }

  lemma CreateMatched<E(!new)>(F: Field<E>, L: Limits, ps: seq<Party<E>>, p: Prover<E>, vs: seq<Verifier<E>>,
                               prog: seq<Op<E>>, pend: seq<nat>, rec: seq<(E, E, E)>, op: Op<E>, pend': seq<nat>)
    requires Matched(F, L, ps, p, vs, prog, pend, rec) && |p.vals| == |prog|
    requires !op.Flush? && !op.Finalize? && Fits(op, |prog|) && pend' == if Shared(op) then pend + [|prog|] else pend
    ensures Matched(F, L, ps, PCreate(F, p, op), Created(vs, op), prog + [op], pend', rec)
  {
    hide *;
    MatchedParts(F, L, ps, p, vs, prog, pend, rec);
    CreatedFields(F, p, op);
    ProgramExt(prog, op);
    CreatedEval(F, prog, p, op);
    CreatedFilled(F, ps, prog, p.vals, rec, vs, pend, op, CreatedValue(F, p, op));
    CreatedMatches(F, p, vs, prog, pend, op, pend');
    CreatedTriples(F, prog, p, pend, op, pend');
    ChecksSame(F, Sum(F, Deltas(ps)), p.checked, vs, Created(vs, op));
    Match(F, L, ps, PCreate(F, p, op), Created(vs, op), prog + [op], pend', rec);
  }

  lemma CreateKeeps<E(!new)>(F: Field<E>, L: Limits, ps: seq<Party<E>>, p: Prover<E>, vs: seq<Verifier<E>>,
                             prog: seq<Op<E>>, pend: seq<nat>, rec: seq<(E, E, E)>, op: Op<E>, pend': seq<nat>)
    requires Lock(F, L, ps, p, vs, prog, pend, rec) && |pend| < L.k && |p.vals| == |prog|
    requires !op.Flush? && !op.Finalize? && Fits(op, |prog|) && pend' == if Shared(op) then pend + [|prog|] else pend
    ensures Lock(F, L, ps, PCreate(F, p, op), Created(vs, op), prog + [op], pend', rec)
  {
    hide Matched, PCreate, Created, Fits;
    CreateMatched(F, L, ps, p, vs, prog, pend, rec, op, pend');
  }

  lemma Match<E(!new)>(F: Field<E>, L: Limits, ps: seq<Party<E>>, p: Prover<E>, vs: seq<Verifier<E>>,
                       prog: seq<Op<E>>, pend: seq<nat>, rec: seq<(E, E, E)>)
    requires Evaluated(F, prog, p.vals) && Program(prog) && |p.vals| == |prog| && L.Good()
             && |p.sent| == p.clock.batches
    requires Filled(F, ps, prog, p.vals, rec, vs, pend, 0)
    requires (forall j :: 0 <= j < |pend| ==> pend[j] < |prog|) && p.pending == ValuesAt(p.vals, pend)
    requires p.triples == rec + PendingTriples(prog, p.vals, pend)
    requires forall i :: 0 <= i < |vs| ==> vs[i].clock == p.clock
    requires ChecksAuth(F, Sum(F, Deltas(ps)), p.checked, vs)
    ensures Matched(F, L, ps, p, vs, prog, pend, rec)
  {
  }

  lemma CreatedEval<E(!new)>(F: Field<E>, prog: seq<Op<E>>, p: Prover<E>, op: Op<E>)
    requires Evaluated(F, prog, p.vals) && !op.Flush? && !op.Finalize? && Fits(op, |prog|)
    ensures Evaluated(F, prog + [op], PCreate(F, p, op).vals)
  {
    var v := CreatedValue(F, p, op);
    if op.Lin? { CombineExt(F, p.vals, v, op.terms, op.c); }
    EvaluatedExt(F, prog, p.vals, op, v);
  }

  // ---- packed sharings and checks ----

  function Emptied<E(!new)>(vs: seq<Verifier<E>>, cl: Clock): (r: seq<Verifier<E>>)
    ensures |r| == |vs|
  {
    seq(|vs|, i requires 0 <= i < |vs| => vs[i].(clock := cl, pending := []))
  }

  lemma EmptiedFilled<E(!new)>(F: Field<E>, ps: seq<Party<E>>, prog: seq<Op<E>>, vals: seq<E>, ts: seq<(E, E, E)>,
                               ws: seq<Verifier<E>>, pend: seq<nat>, cl: Clock)
    requires |vals| == |prog| && Filled(F, ps, prog, vals, ts, ws, pend, |pend|)
    ensures Program(prog) && forall j :: 0 <= j < |pend| ==> pend[j] < |prog|
    ensures Filled(F, ps, prog, vals, ts + PendingTriples(prog, vals, pend), Emptied(ws, cl), [], 0)
  {
    var us, all := Emptied(ws, cl), ts + PendingTriples(prog, vals, pend);
    assert pend[..|pend|] == pend && pend[|pend|..] == [];
    assert TripleLists(us) == TripleLists(ws);
    EmptiedArrived(F, ps, prog, vals, ws, pend, cl);
    var none: seq<nat> := [];
    assert none[..0] == none && PendingTriples(prog, vals, none) == [] && all + [] == all;
  }

  lemma EmptiedArrived<E(!new)>(F: Field<E>, ps: seq<Party<E>>, prog: seq<Op<E>>, vals: seq<E>, ws: seq<Verifier<E>>,
                                pend: seq<nat>, cl: Clock)
    requires SameProgram(ps, prog, ws) && |vals| == |prog| && ArrivedBut(F, ps, prog, vals, ws, pend, |pend|)
    ensures SameProgram(ps, prog, Emptied(ws, cl)) && ArrivedBut(F, ps, prog, vals, Emptied(ws, cl), [], 0)
  {
    var us, none: seq<nat> := Emptied(ws, cl), [];
    forall id | 0 <= id < |prog| && Shared(prog[id]) ensures SlotState(F, ps, prog, vals, us, id, id in none[0..]) {
      assert SlotState(F, ps, prog, vals, ws, id, id in pend[|pend|..]);
      assert seq(|us|, i requires 0 <= i < |us| => Get(F, us[i].cells[id])) == seq(|ws|,
          i requires 0 <= i < |ws| => Get(F, ws[i].cells[id]));
    }
  }

  function VCheckAll<E(!new)>(L: Limits, vs: seq<Verifier<E>>): (r: seq<Verifier<E>>)
    requires 1 <= L.k && 2 <= L.m
    ensures |r| == |vs|
  {
    seq(|vs|, i requires 0 <= i < |vs| => VCheck(L, vs[i]))
  }

  /** A check at a moment with nothing pending runs on the same triples at all parties, and leaves
      them in lockstep. */
  lemma CheckKeeps<E(!new)>(F: Field<E>, L: Limits, ps: seq<Party<E>>, p: Prover<E>, vs: seq<Verifier<E>>,
                            prog: seq<Op<E>>, rec: seq<(E, E, E)>)
    requires Matched(F, L, ps, p, vs, prog, [], rec) && 1 <= L.k && 2 <= L.m
    ensures Matched(F, L, ps, PCheck(L, p), VCheckAll(L, vs), prog, [], [])
  {
    MatchedParts(F, L, ps, p, vs, prog, [], rec);
    var q, ws, none: seq<nat> := PCheck(L, p), VCheckAll(L, vs), [];
    assert p.triples == rec + [] == rec;
    CheckLists(F, ps, prog, p, vs, rec);
    CheckFilled(F, L, ps, prog, p.vals, rec, vs);
    hide Matched, Filled, TriplesAuth, ChecksAuth, Evaluated, Deltas, Program, CheckClock;
    assert forall i :: 0 <= i < |vs| ==> ws[i].clock == q.clock;
    ChecksSnoc(F, Sum(F, Deltas(ps)), p.checked, vs, p.triples, ws);
    Match(F, L, ps, q, ws, prog, none, []);
  }

  lemma CheckLists<E(!new)>(F: Field<E>, ps: seq<Party<E>>, prog: seq<Op<E>>, p: Prover<E>, vs: seq<Verifier<E>>,
                            rec: seq<(E, E, E)>)
    requires |p.vals| == |prog| && Filled(F, ps, prog, p.vals, rec, vs, [], 0) && p.triples == rec
    ensures TriplesAuth(F, Sum(F, Deltas(ps)), p.triples, TripleLists(vs))
    ensures forall i :: 0 <= i < |vs| ==> |vs[i].triples| == |p.triples|
  {
    var none: seq<nat> := [];
    assert none[..0] == none && rec + [] == rec;
    assert forall i :: 0 <= i < |vs| ==> TripleLists(vs)[i] == vs[i].triples;
  }

  lemma CheckFilled<E(!new)>(F: Field<E>, L: Limits, ps: seq<Party<E>>, prog: seq<Op<E>>, vals: seq<E>,
                             rec: seq<(E, E, E)>, vs: seq<Verifier<E>>)
    requires 1 <= L.k && 2 <= L.m && |vals| == |prog| && Filled(F, ps, prog, vals, rec, vs, [], 0)
    ensures Filled(F, ps, prog, vals, [], VCheckAll(L, vs), [], 0)
  {
    var ws, none: seq<nat> := VCheckAll(L, vs), [];
    forall id | 0 <= id < |prog| && Shared(prog[id]) ensures SlotState(F, ps, prog, vals, ws, id, id in none[0..]) {
      assert SlotState(F, ps, prog, vals, vs, id, id in none[0..]);
      assert seq(|ws|, i requires 0 <= i < |ws| => Get(F, ws[i].cells[id])) == seq(|vs|,
          i requires 0 <= i < |vs| => Get(F, vs[i].cells[id]));
    }
    assert none[..0] == none;
  }

  function VBatchAll<E(!new)>(F: Field<E>, L: Limits, ps: seq<Party<E>>, vs: seq<Verifier<E>>): (r: seq<Verifier<E>>)
    requires 1 <= L.k && 2 <= L.m && |ps| == |vs| && forall i :: 0 <= i < |vs| ==> Shaped(vs[i])
    ensures |r| == |vs|
  {
    seq(|vs|, i requires 0 <= i < |vs| => assert Shaped(vs[i]); VBatch(F, L, ps[i], vs[i]))
  }

  // The packed sharing is sent and filled; no check yet.
  function PSent<E>(L: Limits, p: Prover<E>): Prover<E> {
    p.(clock := BatchClock(L, p.clock), sent := p.sent + [Sharing(NextSpot(L, p.clock), p.pending)],
       pending := [])
  }

  lemma SentMatched<E(!new)>(F: Field<E>, L: Limits, ps: seq<Party<E>>, p: Prover<E>, vs: seq<Verifier<E>>,
                             prog: seq<Op<E>>, pend: seq<nat>, rec: seq<(E, E, E)>)
    requires F.Laws() && Matched(F, L, ps, p, vs, prog, pend, rec)
    requires Arrives(F, ps, Sharing(NextSpot(L, p.clock), p.pending))
    requires |vs| == |ps| && forall i :: 0 <= i < |vs| ==> Shaped(vs[i]) && vs[i].pending == pend
    ensures Matched(F, L, ps, PSent(L, p),
                    Emptied(FillAll(F, ps, vs, NextSpot(L, p.clock), |pend|), BatchClock(L, p.clock)), prog, [],
                    p.triples)
  {
    var cl, at, n := BatchClock(L, p.clock), NextSpot(L, p.clock), |pend|;
    var ws := FillAll(F, ps, vs, at, n);
    MatchedParts(F, L, ps, p, vs, prog, pend, rec);
    FillChecked(F, ps, vs, at, n);
    hide Matched, Filled, TriplesAuth, ChecksAuth, Evaluated, Deltas, Program, PendingTriples, FillAll, Emptied,
        Arrives, ValuesAt, Shaped;
    FillsAuth(F, ps, prog, p.vals, rec, vs, pend, at, n);
    EmptiedFilled(F, ps, prog, p.vals, rec, ws, pend, cl);
    var us := Emptied(ws, cl);
    EmptiedSame(ws, cl);
    ChecksSame(F, Sum(F, Deltas(ps)), p.checked, vs, us);
    NothingPending(prog, p.vals);
    Match(F, L, ps, PSent(L, p), us, prog, [], p.triples);
  }

  lemma FillChecked<E(!new)>(F: Field<E>, ps: seq<Party<E>>, vs: seq<Verifier<E>>, at: Spot, j: nat)
    requires |ps| == |vs| && forall i :: 0 <= i < |vs| ==> Shaped(vs[i]) && j <= |vs[i].pending|
    ensures forall i :: 0 <= i < |vs| ==> FillAll(F, ps, vs, at, j)[i].checked == vs[i].checked
  {
  }

  lemma EmptiedSame<E(!new)>(ws: seq<Verifier<E>>, cl: Clock)
    ensures forall i :: 0 <= i < |ws| ==> Emptied(ws, cl)[i].checked == ws[i].checked && Emptied(ws, cl)[i].clock == cl
  {
  }

  lemma NothingPending<E(!new)>(prog: seq<Op<E>>, vals: seq<E>)
    requires Program(prog) && |vals| == |prog|
    ensures PendingTriples(prog, vals, []) == [] && ValuesAt(vals, []) == []
  {
  }

  // The triples both sides have recorded after a packed sharing.
  function Recorded<E>(L: Limits, p: Prover<E>): seq<(E, E, E)> {
    if |p.triples| >= L.bufSz then [] else p.triples
  }

  /** Sending a packed sharing, with the check it may trigger, keeps the lockstep. */
  lemma BatchKeeps<E(!new)>(F: Field<E>, L: Limits, ps: seq<Party<E>>, p: Prover<E>, vs: seq<Verifier<E>>,
                            prog: seq<Op<E>>, pend: seq<nat>, rec: seq<(E, E, E)>)
    requires F.Laws() && Lock(F, L, ps, p, vs, prog, pend, rec)
    requires Arrives(F, ps, Sharing(NextSpot(L, p.clock), p.pending))
    requires 1 <= L.k && 2 <= L.m && |ps| == |vs|
             && forall i :: 0 <= i < |vs| ==> Shaped(vs[i]) && vs[i].pending == pend
    ensures Lock(F, L, ps, PBatch(L, p), VBatchAll(F, L, ps, vs), prog, [], Recorded(L, p))
  {
    MatchedParts(F, L, ps, p, vs, prog, pend, rec);
    SentMatched(F, L, ps, p, vs, prog, pend, rec);
    var us := Emptied(FillAll(F, ps, vs, NextSpot(L, p.clock), |pend|), BatchClock(L, p.clock));
    MatchedParts(F, L, ps, PSent(L, p), us, prog, [], p.triples);
    CheckLists(F, ps, prog, PSent(L, p), us, p.triples);
    BatchesAre(F, L, ps, p, vs, pend, us);
    hide Matched, Filled, VBatchAll, Emptied, FillAll, TriplesAuth;
    if |p.triples| >= L.bufSz { CheckKeeps(F, L, ps, PSent(L, p), us, prog, p.triples); }
  }

  lemma BatchesAre<E(!new)>(F: Field<E>, L: Limits, ps: seq<Party<E>>, p: Prover<E>, vs: seq<Verifier<E>>,
                            pend: seq<nat>, us: seq<Verifier<E>>)
    requires 1 <= L.k && 2 <= L.m && |ps| == |vs|
    requires forall i :: 0 <= i < |vs| ==> Shaped(vs[i]) && vs[i].pending == pend && vs[i].clock == p.clock
    requires us == Emptied(FillAll(F, ps, vs, NextSpot(L, p.clock), |pend|), BatchClock(L, p.clock))
    requires forall i :: 0 <= i < |us| ==> |us[i].triples| == |p.triples|
    ensures VBatchAll(F, L, ps, vs) == if |p.triples| >= L.bufSz then VCheckAll(L, us) else us
  {
  }

  // ---- operations ----

  function VStepAll<E(!new)>(F: Field<E>, L: Limits, ps: seq<Party<E>>, vs: seq<Verifier<E>>,
                             op: Op<E>): (r: seq<Verifier<E>>)
    requires 1 <= L.k && 2 <= L.m && |ps| == |vs|
             && forall i :: 0 <= i < |vs| ==> Shaped(vs[i]) && Fits(op, |vs[i].prog|)
    ensures |r| == |vs|
  {
    seq(|vs|, i requires 0 <= i < |vs| => assert Shaped(vs[i]) && Fits(op, |vs[i].prog|); VStep(F, L, ps[i], vs[i], op))
  }

  // Between operations fewer than k slots are pending.
  ghost predicate InStep<E(!new)>(F: Field<E>, L: Limits, ps: seq<Party<E>>, p: Prover<E>, vs: seq<Verifier<E>>,
                                  prog: seq<Op<E>>, pend: seq<nat>, rec: seq<(E, E, E)>) {
    && Lock(F, L, ps, p, vs, prog, pend, rec) && |pend| < L.k
    && 1 <= L.k && 2 <= L.m && |ps| == |vs|
    && forall i :: 0 <= i < |vs| ==> Shaped(vs[i]) && vs[i].pending == pend && vs[i].prog == prog
  }

  lemma StartInStep<E(!new)>(F: Field<E>, L: Limits, ps: seq<Party<E>>, p: Prover<E>, vs: seq<Verifier<E>>,
                             prog: seq<Op<E>>, pend: seq<nat>, rec: seq<(E, E, E)>)
    requires Lock(F, L, ps, p, vs, prog, pend, rec) && |pend| < L.k
    ensures InStep(F, L, ps, p, vs, prog, pend, rec)
  {
    MatchedParts(F, L, ps, p, vs, prog, pend, rec);
    hide Matched, Filled;
  }

  lemma FlushKeeps<E(!new)>(F: Field<E>, L: Limits, ps: seq<Party<E>>, p: Prover<E>, vs: seq<Verifier<E>>,
                            prog: seq<Op<E>>, pend: seq<nat>, rec: seq<(E, E, E)>, p': Prover<E>, vs': seq<Verifier<E>>)
    returns (rec': seq<(E, E, E)>)
    requires F.Laws() && InStep(F, L, ps, p, vs, prog, pend, rec) && p' == PFlush(L, p) && |vs'| == |vs|
    requires forall i :: 0 <= i < |vs| ==> vs'[i] == VFlush(F, L, ps[i], vs[i])
    requires forall b :: |p.sent| <= b < |p'.sent| ==> Arrives(F, ps, p'.sent[b])
    ensures InStep(F, L, ps, p', vs', prog, [], rec')
  {
    MatchedParts(F, L, ps, p, vs, prog, pend, rec);
    if pend == [] {
      assert vs' == vs;
      rec' := rec;
    } else {
      rec' := Recorded(L, p);
      BatchSends(L, p);
      assert Arrives(F, ps, p'.sent[|p.sent|]);
      BatchKeeps(F, L, ps, p, vs, prog, pend, rec);
      assert vs' == VBatchAll(F, L, ps, vs);
      StartInStep(F, L, ps, p', vs', prog, [], rec');
    }
  }

  lemma BatchSends<E>(L: Limits, p: Prover<E>)
    requires 1 <= L.k && 2 <= L.m
    ensures PBatch(L, p).sent == p.sent + [Sharing(NextSpot(L, p.clock), p.pending)]
  {
  }

  lemma FinalizeKeeps<E(!new)>(F: Field<E>, L: Limits, ps: seq<Party<E>>, p: Prover<E>, vs: seq<Verifier<E>>,
                               prog: seq<Op<E>>, rec: seq<(E, E, E)>, vs': seq<Verifier<E>>)
    returns (rec': seq<(E, E, E)>)
    requires InStep(F, L, ps, p, vs, prog, [], rec) && |vs'| == |vs|
    requires forall i :: 0 <= i < |vs| ==> vs'[i] == if vs[i].triples != [] then VCheck(L, vs[i]) else vs[i]
    ensures InStep(F, L, ps, if p.triples != [] then PCheck(L, p) else p, vs', prog, [], rec')
  {
    MatchedParts(F, L, ps, p, vs, prog, [], rec);
    CheckLists(F, ps, prog, p, vs, rec);
    if p.triples == [] {
      assert vs' == vs;
      rec' := rec;
    } else {
      rec' := [];
      CheckKeeps(F, L, ps, p, vs, prog, rec);
      assert vs' == VCheckAll(L, vs);
      StartInStep(F, L, ps, PCheck(L, p), vs', prog, [], []);
    }
  }

  lemma CreateStep<E(!new)>(F: Field<E>, L: Limits, ps: seq<Party<E>>, p: Prover<E>, vs: seq<Verifier<E>>,
                            prog: seq<Op<E>>, pend: seq<nat>, rec: seq<(E, E, E)>, op: Op<E>, p': Prover<E>,
                            vs': seq<Verifier<E>>)
    returns (pend': seq<nat>, rec': seq<(E, E, E)>)
    requires F.Laws() && InStep(F, L, ps, p, vs, prog, pend, rec) && |p.vals| == |prog| && !op.Flush? && !op.Finalize?
             && Fits(op, |prog|)
    requires p' == PStep(F, L, p, op) && vs' == VStepAll(F, L, ps, vs, op)
    requires forall b :: |p.sent| <= b < |p'.sent| ==> Arrives(F, ps, p'.sent[b])
    ensures InStep(F, L, ps, p', vs', prog + [op], pend', rec')
  {
    var q, ws := PCreate(F, p, op), Created(vs, op);
    pend' := if Shared(op) then pend + [|prog|] else pend;
    rec' := rec;
    CreateKeeps(F, L, ps, p, vs, prog, pend, rec, op, pend');
    MatchedParts(F, L, ps, q, ws, prog + [op], pend', rec);
    StepsAre(F, L, ps, p, vs, prog, pend, op);
    hide Matched, Filled, PCreate, Created, PStep, VStepAll, VBatchAll, PBatch;
    if Shared(op) && |pend'| == L.k {
      BatchSends(L, q);
      CreatedFields(F, p, op);
      assert Arrives(F, ps, p'.sent[|p.sent|]);
      BatchKeeps(F, L, ps, q, ws, prog + [op], pend', rec);
      pend', rec' := [], Recorded(L, q);
    }
    StartInStep(F, L, ps, p', vs', prog + [op], pend', rec');
  }

  lemma PStepIs<E(!new)>(F: Field<E>, L: Limits, p: Prover<E>, op: Op<E>)
    requires 1 <= L.k && 2 <= L.m && !op.Flush? && !op.Finalize? && Fits(op, |p.vals|)
    ensures PStep(F, L, p, op)
         == if Shared(op) && |p.pending| + 1 == L.k then PBatch(L, PCreate(F, p, op)) else PCreate(F, p, op)
  {
    hide Combine, PBatch;
  }

  lemma VStepIs<E(!new)>(F: Field<E>, L: Limits, party: Party<E>, v: Verifier<E>, op: Op<E>, w: Verifier<E>)
    requires 1 <= L.k && 2 <= L.m && Shaped(v) && !op.Flush? && !op.Finalize? && Fits(op, |v.prog|) && Shaped(w)
    requires w == v.(prog := v.prog + [op], cells := v.cells + [None],
                     pending := if Shared(op) then v.pending + [|v.prog|] else v.pending)
    ensures VStep(F, L, party, v, op) == if Shared(op) && |v.pending| + 1 == L.k then VBatch(F, L, party, w) else w
  {
    hide VBatch, Shaped;
  }

  // An operation that creates a slot is the creation and, at the k-th pending slot, a batch.
  lemma StepsAre<E(!new)>(F: Field<E>, L: Limits, ps: seq<Party<E>>, p: Prover<E>, vs: seq<Verifier<E>>,
                          prog: seq<Op<E>>, pend: seq<nat>, op: Op<E>)
    requires 1 <= L.k && 2 <= L.m && |ps| == |vs| && |pend| < L.k && |p.pending| == |pend| && |p.vals| == |prog|
    requires !op.Flush? && !op.Finalize? && Fits(op, |prog|)
    requires forall i :: 0 <= i < |vs| ==> Shaped(vs[i]) && vs[i].pending == pend && vs[i].prog == prog
    requires forall i :: 0 <= i < |vs| ==> Shaped(Created(vs, op)[i])
    ensures var batch := Shared(op) && |pend| + 1 == L.k;
            && PStep(F, L, p, op) == (if batch then PBatch(L, PCreate(F, p, op)) else PCreate(F, p, op))
            && VStepAll(F, L, ps, vs, op) == (if batch then VBatchAll(F, L, ps, Created(vs, op)) else Created(vs, op))
  {
    var ws, batch := Created(vs, op), Shared(op) && |pend| + 1 == L.k;
    PStepIs(F, L, p, op);
    var r, r' := VStepAll(F, L, ps, vs, op), if batch then VBatchAll(F, L, ps, ws) else ws;
    forall i | 0 <= i < |vs| ensures r[i] == r'[i] {
      VStepIs(F, L, ps[i], vs[i], op, ws[i]);
      hide VStep, VBatch, Shaped, Fits, PStep, PBatch;
    }
    hide VStep, VBatch, Shaped, Fits, PStep, PBatch, VStepAll, VBatchAll, Created;
  }

  // ---- programs ----

  // How many slots the operations create.
  function Slots<E>(ops: seq<Op<E>>): nat {
    if ops == [] then 0
    else
      var op := ops[|ops| - 1];
      Slots(ops[..|ops| - 1]) + if op.Flush? || op.Finalize? then 0 else 1
  }

  // Every operation refers to slots created before it.
  ghost predicate Legal<E>(ops: seq<Op<E>>) {
    ops == [] || (Legal(ops[..|ops| - 1]) && Fits(ops[|ops| - 1], Slots(ops[..|ops| - 1])))
  }

  // Nothing preprocessed yet: the first packed sharing refills.
  function PStart<E>(L: Limits): Prover<E> {
    Prover([], [], [], Clock(PreAuth(L.cap, 0), 0, 0), [], [])
  }

  function VStart<E>(L: Limits): Verifier<E> {
    Verifier([], [], [], [], Clock(PreAuth(L.cap, 0), 0, 0), [])
  }

  function PRun<E(!new)>(F: Field<E>, L: Limits, ops: seq<Op<E>>): (p: Prover<E>)
    requires 1 <= L.k && 2 <= L.m && Legal(ops)
    ensures |p.vals| == Slots(ops)
  {
    if ops == [] then PStart(L) else PStep(F, L, PRun(F, L, ops[..|ops| - 1]), ops[|ops| - 1])
  }

  function VRun<E(!new)>(F: Field<E>, L: Limits, party: Party<E>, ops: seq<Op<E>>): (v: Verifier<E>)
    requires 1 <= L.k && 2 <= L.m && Legal(ops)
    ensures Shaped(v) && |v.prog| == Slots(ops)
  {
    if ops == [] then VStart(L) else VStep(F, L, party, VRun(F, L, party, ops[..|ops| - 1]), ops[|ops| - 1])
  }

  function VRunAll<E(!new)>(F: Field<E>, L: Limits, ps: seq<Party<E>>, ops: seq<Op<E>>): (r: seq<Verifier<E>>)
    requires 1 <= L.k && 2 <= L.m && Legal(ops)
    ensures |r| == |ps|
  {
    seq(|ps|, i requires 0 <= i < |ps| => VRun(F, L, ps[i], ops))
  }

  // Every packed sharing of the run reached the verifiers as authentic shares of what was sent.
  ghost predicate AllArrive<E(!new)>(F: Field<E>, ps: seq<Party<E>>, sent: seq<Sharing<E>>) {
    forall b :: 0 <= b < |sent| ==> Arrives(F, ps, sent[b])
  }

  lemma SentGrows<E(!new)>(F: Field<E>, L: Limits, p: Prover<E>, op: Op<E>)
    requires 1 <= L.k && 2 <= L.m && Fits(op, |p.vals|)
    ensures p.sent <= PStep(F, L, p, op).sent
  {
  }

  lemma StartsInStep<E(!new)>(F: Field<E>, L: Limits, ps: seq<Party<E>>)
    requires F.Laws() && L.Good() && Parties(ps)
    ensures Legal<E>([]) && InStep(F, L, ps, PRun(F, L, []), VRunAll(F, L, ps, []), [], [], [])
  {
    var vs, prog: seq<Op<E>>, none: seq<nat> := VRunAll(F, L, ps, []), [], [];
    assert forall i :: 0 <= i < |vs| ==> vs[i] == VStart(L);
    StartFilled(F, L, ps, vs);
    hide Filled, PRun, VRun, VRunAll, Deltas, L.Good;
    assert Matched(F, L, ps, PRun(F, L, []), vs, prog, none, []);
  }

  lemma StartFilled<E(!new)>(F: Field<E>, L: Limits, ps: seq<Party<E>>, vs: seq<Verifier<E>>)
    requires Parties(ps) && |vs| == |ps| && 1 <= L.k && 2 <= L.m && forall i :: 0 <= i < |vs| ==> vs[i] == VStart(L)
    ensures Legal<E>([]) && PRun(F, L, []) == PStart(L)
    ensures Program<E>([]) && PendingTriples<E>([], [], []) == [] && ValuesAt<E>([], []) == [] && Evaluated(F, [], [])
    ensures Filled(F, ps, [], [], [], vs, [], 0)
  {
    hide Deltas, ArrivedBut, TriplesAuth;
    var none: seq<nat> := [];
    assert none[..0] == none && none[0..] == none;
    NoneArrived(F, ps, vs);
    NoneRecorded(F, Sum(F, Deltas(ps)), TripleLists(vs));
    var ts: seq<(E, E, E)> := [];
    assert ts + PendingTriples<E>([], [], none[..0]) == ts;
  }

  lemma NoneRecorded<E(!new)>(F: Field<E>, delta: E, lists: seq<seq<(Cell<E>, Cell<E>, Cell<E>)>>)
    requires forall i :: 0 <= i < |lists| ==> lists[i] == []
    ensures TriplesAuth(F, delta, [], lists)
  {
  }

  lemma NoneArrived<E(!new)>(F: Field<E>, ps: seq<Party<E>>, vs: seq<Verifier<E>>)
    requires SameProgram(ps, [], vs) && Waiting(ps, [], vs, [])
    ensures ArrivedBut(F, ps, [], [], vs, [], 0)
  {
  }

  lemma FinalizeStep<E(!new)>(F: Field<E>, L: Limits, ps: seq<Party<E>>, p: Prover<E>, vs: seq<Verifier<E>>,
                              prog: seq<Op<E>>, pend: seq<nat>, rec: seq<(E, E, E)>)
    returns (rec': seq<(E, E, E)>)
    requires F.Laws() && InStep(F, L, ps, p, vs, prog, pend, rec)
    requires forall b :: |p.sent| <= b < |PStep(F, L, p, Finalize).sent| ==>
               Arrives(F, ps, PStep(F, L, p, Finalize).sent[b])
    ensures InStep(F, L, ps, PStep(F, L, p, Finalize), VStepAll(F, L, ps, vs, Finalize), prog, [], rec')
  {
    var q, ws := PFlush(L, p), seq(|vs|, i requires 0 <= i < |vs| => assert Shaped(vs[i]); VFlush(F, L, ps[i], vs[i]));
    assert PStep(F, L, p, Finalize).sent == q.sent;
    var rec1 := FlushKeeps(F, L, ps, p, vs, prog, pend, rec, q, ws);
    rec' := FinalizeKeeps(F, L, ps, q, ws, prog, rec1, VStepAll(F, L, ps, vs, Finalize));
  }

  lemma StepKeeps<E(!new)>(F: Field<E>, L: Limits, ps: seq<Party<E>>, p: Prover<E>, vs: seq<Verifier<E>>,
                           prog: seq<Op<E>>, pend: seq<nat>, rec: seq<(E, E, E)>, op: Op<E>)
    returns (prog': seq<Op<E>>, pend': seq<nat>, rec': seq<(E, E, E)>)
    requires F.Laws() && InStep(F, L, ps, p, vs, prog, pend, rec) && |p.vals| == |prog| && Fits(op, |prog|)
    requires forall b :: |p.sent| <= b < |PStep(F, L, p, op).sent| ==> Arrives(F, ps, PStep(F, L, p, op).sent[b])
    ensures InStep(F, L, ps, PStep(F, L, p, op), VStepAll(F, L, ps, vs, op), prog', pend', rec')
  {
    hide Lock, Shaped, Arrives;
    prog', pend' := prog, [];
    if op.Flush? {
      rec' := FlushKeeps(F, L, ps, p, vs, prog, pend, rec, PStep(F, L, p, op), VStepAll(F, L, ps, vs, op));
    } else if op.Finalize? {
      rec' := FinalizeStep(F, L, ps, p, vs, prog, pend, rec);
    } else {
      prog' := prog + [op];
      pend', rec' := CreateStep(F, L, ps, p, vs, prog, pend, rec, op, PStep(F, L, p, op), VStepAll(F, L, ps, vs, op));
    }
  }

  /** Over every legal program and every flush pattern, prover and verifiers end each operation in
      lockstep, given that each packed sharing arrives as authentic shares. */
  lemma {:induction false} RunsInStep<E(!new)>(F: Field<E>, L: Limits, ps: seq<Party<E>>, ops: seq<Op<E>>)
    returns (prog: seq<Op<E>>, pend: seq<nat>, rec: seq<(E, E, E)>)
    requires F.Laws() && L.Good() && Parties(ps) && Legal(ops) && AllArrive(F, ps, PRun(F, L, ops).sent)
    ensures InStep(F, L, ps, PRun(F, L, ops), VRunAll(F, L, ps, ops), prog, pend, rec)
  {
    if ops == [] {
      StartsInStep(F, L, ps);
      prog, pend, rec := [], [], [];
    } else {
      var n := |ops| - 1;
      var was, op, p := ops[..n], ops[n], PRun(F, L, ops[..n]);
      SentGrows(F, L, p, op);
      EarlierArrive(F, ps, p.sent, PRun(F, L, ops).sent);
      prog, pend, rec := RunsInStep(F, L, ps, was);
      RunUnfolds(F, L, ps, ops);
      MatchedParts(F, L, ps, p, VRunAll(F, L, ps, was), prog, pend, rec);
      prog, pend, rec := StepKeeps(F, L, ps, p, VRunAll(F, L, ps, was), prog, pend, rec, op);
    }
  }

  lemma EarlierArrive<E(!new)>(F: Field<E>, ps: seq<Party<E>>, sent: seq<Sharing<E>>, later: seq<Sharing<E>>)
    requires AllArrive(F, ps, later) && sent <= later
    ensures AllArrive(F, ps, sent) && forall b :: |sent| <= b < |later| ==> Arrives(F, ps, later[b])
  {
    hide Arrives;
    forall b | 0 <= b < |sent| ensures Arrives(F, ps, sent[b]) { assert Arrives(F, ps, later[b]); }
  }

  lemma RunUnfolds<E(!new)>(F: Field<E>, L: Limits, ps: seq<Party<E>>, ops: seq<Op<E>>)
    requires 1 <= L.k && 2 <= L.m && Legal(ops) && ops != []
    ensures var was := VRunAll(F, L, ps, ops[..|ops| - 1]);
            && (forall i :: 0 <= i < |was| ==> Shaped(was[i]) && Fits(ops[|ops| - 1], |was[i].prog|))
            && VRunAll(F, L, ps, ops) == VStepAll(F, L, ps, was, ops[|ops| - 1])
  {
  }

  /** What lockstep means for a reader of the final states. */
  lemma LockstepHolds<E(!new)>(F: Field<E>, L: Limits, ps: seq<Party<E>>, ops: seq<Op<E>>)
    requires F.Laws() && L.Good() && Parties(ps) && Legal(ops) && AllArrive(F, ps, PRun(F, L, ops).sent)
    ensures var p, vs := PRun(F, L, ops), VRunAll(F, L, ps, ops);
            // the same refills, packed sharings and checks
            && (forall i :: 0 <= i < |vs| ==> vs[i].clock == p.clock && |vs[i].pending| == |p.pending| < L.k)
            // buffers of bufSz + k entries suffice
            && |p.triples| < L.bufSz + L.k && (forall i :: 0 <= i < |vs| ==> |vs[i].triples| <= |p.triples|)
            // each check so far ran on authentic shares of the prover's triples, in the same order
            && ChecksAuth(F, Sum(F, Deltas(ps)), p.checked, vs)
  {
    var prog, pend, rec := RunsInStep(F, L, ps, ops);
    TriplesBounded(F, L, ps, PRun(F, L, ops), VRunAll(F, L, ps, ops), prog, pend, rec);
    MatchedParts(F, L, ps, PRun(F, L, ops), VRunAll(F, L, ps, ops), prog, pend, rec);
  }

  /** If any verifier can form its share of a slot, all can, and together the shares are authentic
      for the prover's value; with nothing pending every slot can be formed. */
  lemma SlotsAuthentic<E(!new)>(F: Field<E>, L: Limits, ps: seq<Party<E>>, ops: seq<Op<E>>, id: nat)
    requires F.Laws() && L.Good() && Parties(ps) && Legal(ops) && AllArrive(F, ps, PRun(F, L, ops).sent)
             && id < Slots(ops)
    ensures var p, vs := PRun(F, L, ops), VRunAll(F, L, ps, ops);
            var prog := vs[0].prog;
            && SameProgram(ps, prog, vs) && |prog| == Slots(ops) == |p.vals|
            && ((exists i :: 0 <= i < |vs| && Meaning(F, ps[i], prog, vs[i].cells, id).Some?) || p.pending == [] ==>
                  Formed(F, ps, prog, p.vals, vs, id))
  {
    var p, vs := PRun(F, L, ops), VRunAll(F, L, ps, ops);
    var prog, pend, rec := RunsInStep(F, L, ps, ops);
    MatchedParts(F, L, ps, p, vs, prog, pend, rec);
    if p.pending == [] {
      AllBelow(F, ps, prog, p.vals, vs, pend);
      SlotFormed(F, ps, prog, p.vals, vs, |prog|, id);
    } else if exists i :: 0 <= i < |vs| && Meaning(F, ps[i], prog, vs[i].cells, id).Some? {
      var i :| 0 <= i < |vs| && Meaning(F, ps[i], prog, vs[i].cells, id).Some?;
      FormedIfAny(F, ps, prog, p.vals, vs, pend, i, id);
    }
  }
}
