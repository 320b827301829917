/** Programs and their multiplication checks together: every check of every run is over shares that
    the wires left behind. Programs without false claims pass all of them; a false claim is in some
    check, and few challenges let any prover pass that one. */
module ProgramChecks {
  import opened Algebra
  import opened AuthShares
  import Compression
  import opened Lockstep
  import opened LockstepRuns
  import VerifierRun
  import Wires
  import MultCheck
  import Sound = CheckSoundness
  import Interpolation

  type Triple<E> = (E, E, E)
  type Cells<E> = (Wires.Cell<E>, Wires.Cell<E>, Wires.Cell<E>)

  // ---- recorded triples, lane by lane ----

  function Lefts<E>(ts: seq<Triple<E>>): (r: seq<E>) ensures |r| == |ts| {
    seq(|ts|, i requires 0 <= i < |ts| => ts[i].0)
  }

  function Rights<E>(ts: seq<Triple<E>>): (r: seq<E>) ensures |r| == |ts| {
    seq(|ts|, i requires 0 <= i < |ts| => ts[i].1)
  }

  function Outs<E>(ts: seq<Triple<E>>): (r: seq<E>) ensures |r| == |ts| {
    seq(|ts|, i requires 0 <= i < |ts| => ts[i].2)
  }

  function LanesOf<E>(cs: seq<Wires.Cell<E>>): Lanes<E> {
    Lanes(Macs(cs), Keys(cs), Vals(cs))
  }

  function Part<E>(cs: seq<Cells<E>>, which: nat): (r: seq<Wires.Cell<E>>)
    requires which < 3
    ensures |r| == |cs|
  {
    seq(|cs|, i requires 0 <= i < |cs| => if which == 0 then cs[i].0 else if which == 1 then cs[i].1 else cs[i].2)
  }

  // One verifier's buffers, and those of all.
  function BufferOf<E>(cs: seq<Cells<E>>): MultCheck.Triples<E> {
    MultCheck.Triples(LanesOf(Part(cs, 0)), LanesOf(Part(cs, 1)), LanesOf(Part(cs, 2)))
  }

  function Buffers<E>(vts: seq<seq<Cells<E>>>): (r: seq<MultCheck.Triples<E>>)
    ensures |r| == |vts|
  {
    seq(|vts|, i requires 0 <= i < |vts| => BufferOf(vts[i]))
  }

  // One part of every verifier's triples.
  function Parts<E>(vts: seq<seq<Cells<E>>>, which: nat): (r: seq<seq<Wires.Cell<E>>>)
    requires which < 3
    ensures |r| == |vts|
  {
    seq(|vts|, i requires 0 <= i < |vts| => Part(vts[i], which))
  }

  function LanesOfAll<E>(rows: seq<seq<Wires.Cell<E>>>): (r: seq<Lanes<E>>)
    ensures |r| == |rows|
  {
    seq(|rows|, i requires 0 <= i < |rows| => LanesOf(rows[i]))
  }

  // Authentic entry by entry is authentic as a vector.
  lemma RowsAuthentic<E(!new)>(F: Field<E>, delta: E, v: seq<E>, rows: seq<seq<Wires.Cell<E>>>)
    requires forall i :: 0 <= i < |rows| ==> |rows[i]| == |v|
    requires forall t :: 0 <= t < |v| ==> Auth(F, delta, v[t], Row(rows, t))
    ensures Authentic(F, delta, v, LanesOfAll(rows))
  {
    var shs := LanesOfAll(rows);
    forall t | 0 <= t < |v|
      ensures Total(F, |v|, ValRows(shs))[t] == v[t]
      ensures Total(F, |v|, MacRows(shs))[t] == F.Add(Total(F, |v|, KeyRows(shs))[t], F.Mul(delta, v[t]))
    {
      var cs := Row(rows, t);
      assert Auth(F, delta, v[t], cs);
      TotalColumn(F, |v|, ValRows(shs), t);
      TotalColumn(F, |v|, MacRows(shs), t);
      TotalColumn(F, |v|, KeyRows(shs), t);
      assert Column(ValRows(shs), t) == Vals(cs) && Column(MacRows(shs), t) == Macs(cs);
      assert Column(KeyRows(shs), t) == Keys(cs);
    }
    hide Total;
  }

  /** What the wires recorded is what the check works on. */
  lemma RecordedForCheck<E(!new)>(F: Field<E>, delta: E, ts: seq<Triple<E>>, vts: seq<seq<Cells<E>>>)
    requires TriplesAuth(F, delta, ts, vts)
    ensures MultCheck.Recorded(F, delta, Lefts(ts), Rights(ts), Outs(ts), Buffers(vts))
  {
    forall t | 0 <= t < |ts|
      ensures Auth(F, delta, Lefts(ts)[t], Row(Parts(vts, 0), t))
      ensures Auth(F, delta, Rights(ts)[t], Row(Parts(vts, 1), t))
      ensures Auth(F, delta, Outs(ts)[t], Row(Parts(vts, 2), t))
    {
      var cs := Row(vts, t);
      assert TripleAuth(F, delta, ts[t], cs);
      assert Row(Parts(vts, 0), t) == seq(|cs|, i requires 0 <= i < |cs| => cs[i].0);
      assert Row(Parts(vts, 1), t) == seq(|cs|, i requires 0 <= i < |cs| => cs[i].1);
      assert Row(Parts(vts, 2), t) == seq(|cs|, i requires 0 <= i < |cs| => cs[i].2);
    }
    hide Auth, Authentic;
    RowsAuthentic(F, delta, Lefts(ts), Parts(vts, 0));
    RowsAuthentic(F, delta, Rights(ts), Parts(vts, 1));
    RowsAuthentic(F, delta, Outs(ts), Parts(vts, 2));
    assert MultCheck.Lefts(Buffers(vts)) == LanesOfAll(Parts(vts, 0));
    assert MultCheck.Rights(Buffers(vts)) == LanesOfAll(Parts(vts, 1));
    assert MultCheck.Outs(Buffers(vts)) == LanesOfAll(Parts(vts, 2));
  }

  // ---- which triples are right ----

  ghost predicate RightTriples<E(!new)>(F: Field<E>, ts: seq<Triple<E>>) {
    forall t :: 0 <= t < |ts| ==> ts[t].2 == F.Mul(ts[t].0, ts[t].1)
  }

  // Every triple recorded so far, checked or not, is right, and no check was empty.
  ghost predicate AllRight<E(!new)>(F: Field<E>, p: Wires.Prover<E>) {
    RightTriples(F, p.triples) && forall c :: 0 <= c < |p.checked| ==> RightTriples(F, p.checked[c])
  }

  ghost predicate NoneEmpty<E>(p: Wires.Prover<E>) {
    forall c :: 0 <= c < |p.checked| ==> p.checked[c] != []
  }

  // The operation claims nothing but the product.
  ghost predicate Truthful<E(!new)>(F: Field<E>, op: Wires.Op<E>, vals: seq<E>)
    requires Wires.Fits(op, |vals|)
  {
    op.Mult? ==> Wires.Claimed(F, vals[op.a], vals[op.b], op.claim) == F.Mul(vals[op.a], vals[op.b])
  }

  // So do all operations of the program.
  ghost predicate NoFalseClaim<E(!new)>(F: Field<E>, L: Wires.Limits, ops: seq<Wires.Op<E>>)
    requires 1 <= L.k && 2 <= L.m && Legal(ops)
  {
    ops == [] ||
    var n := |ops| - 1;
    NoFalseClaim(F, L, ops[..n]) && Truthful(F, ops[n], PRun(F, L, ops[..n]).vals)
  }

  lemma CheckRight<E(!new)>(F: Field<E>, L: Wires.Limits, p: Wires.Prover<E>)
    requires 1 <= L.k && 2 <= L.m
    ensures AllRight(F, Wires.PCheck(L, p)) <==> AllRight(F, p)
    ensures p.triples != [] ==> (NoneEmpty(Wires.PCheck(L, p)) <==> NoneEmpty(p))
  {
    hide RightTriples, Wires.CheckClock;
    var q := Wires.PCheck(L, p);
    assert q.checked[|p.checked|] == p.triples;
    assert forall c :: 0 <= c < |p.checked| ==> q.checked[c] == p.checked[c];
    assert RightTriples(F, []) by { EmptyRight(F); }
  }

  lemma EmptyRight<E(!new)>(F: Field<E>)
    ensures RightTriples(F, [])
  {
  }

  lemma BatchRight<E(!new)>(F: Field<E>, L: Wires.Limits, p: Wires.Prover<E>)
    requires L.Good()
    ensures AllRight(F, Wires.PBatch(L, p)) <==> AllRight(F, p)
    ensures NoneEmpty(Wires.PBatch(L, p)) <==> NoneEmpty(p)
  {
    var q := p.(clock := Wires.BatchClock(L, p.clock),
                sent := p.sent + [Wires.Sharing(Wires.NextSpot(L, p.clock), p.pending)], pending := []);
    CheckRight(F, L, q);
    hide RightTriples, Wires.BatchClock, Wires.PCheck;
  }

  lemma StepRight<E(!new)>(F: Field<E>, L: Wires.Limits, p: Wires.Prover<E>, op: Wires.Op<E>)
    requires L.Good() && Wires.Fits(op, |p.vals|)
    ensures AllRight(F, Wires.PStep(F, L, p, op)) <==> AllRight(F, p) && Truthful(F, op, p.vals)
    ensures NoneEmpty(Wires.PStep(F, L, p, op)) <==> NoneEmpty(p)
  {
    if op.Flush? || op.Finalize? {
      BatchRight(F, L, p);
      CheckRight(F, L, Wires.PFlush(L, p));
      hide AllRight, NoneEmpty, Wires.PBatch, Wires.PCheck;
    } else {
      PStepIs(F, L, p, op);
      CreatedRight(F, p, op);
      BatchRight(F, L, PCreate(F, p, op));
      hide AllRight, NoneEmpty, Truthful, Wires.PStep, Wires.PBatch, PCreate;
    }
  }

  lemma CreatedRight<E(!new)>(F: Field<E>, p: Wires.Prover<E>, op: Wires.Op<E>)
    requires !op.Flush? && !op.Finalize? && Wires.Fits(op, |p.vals|)
    ensures AllRight(F, PCreate(F, p, op)) <==> AllRight(F, p) && Truthful(F, op, p.vals)
    ensures NoneEmpty(PCreate(F, p, op)) <==> NoneEmpty(p)
  {
    if op.Mult? {
      var t := (p.vals[op.a], p.vals[op.b], CreatedValue(F, p, op));
      assert (p.triples + [t])[|p.triples|] == t;
      assert forall i :: 0 <= i < |p.triples| ==> (p.triples + [t])[i] == p.triples[i];
    }
  }

  /** All triples of a run are right exactly if the program makes no false claim. */
  lemma {:induction false} RunRight<E(!new)>(F: Field<E>, L: Wires.Limits, ops: seq<Wires.Op<E>>)
    requires L.Good() && Legal(ops)
    ensures AllRight(F, PRun(F, L, ops)) <==> NoFalseClaim(F, L, ops)
    ensures NoneEmpty(PRun(F, L, ops))
  {
    if ops != [] {
      hide AllRight, NoneEmpty, Truthful, Wires.PStep;
      var n := |ops| - 1;
      RunRight(F, L, ops[..n]);
      StepRight(F, L, PRun(F, L, ops[..n]), ops[n]);
    }
  }

  // ---- the checks of a run ----

  // The shares all verifiers bring into the c-th check of a run.
  ghost function BuffersAt<E(!new)>(F: Field<E>, L: Wires.Limits, ps: seq<Wires.Party<E>>, ops: seq<Wires.Op<E>>,
                                    c: nat): (r: seq<MultCheck.Triples<E>>)
    requires 1 <= L.k && 2 <= L.m && Legal(ops)
    requires forall i :: 0 <= i < |ps| ==> c < |VRunAll(F, L, ps, ops)[i].checked|
    ensures |r| == |ps|
  {
    Buffers(CheckedAt(VRunAll(F, L, ps, ops), c))
  }

  // A run of a legal program whose packed sharings all arrive, and one of its checks.
  ghost predicate CheckOf<E(!new)>(F: Field<E>, L: Wires.Limits, P: Compression.Params<E>, ps: seq<Wires.Party<E>>,
                                   ops: seq<Wires.Op<E>>, c: nat) {
    && F.Laws() && L.Good() && P.Good() && P.m == L.m && Parties(ps) && Legal(ops)
    && AllArrive(F, ps, PRun(F, L, ops).sent) && c < |PRun(F, L, ops).checked|
  }

  /** Every check of every run works on authentic shares of the prover's triples, at least one. */
  lemma CheckRecorded<E(!new)>(F: Field<E>, L: Wires.Limits, P: Compression.Params<E>, ps: seq<Wires.Party<E>>,
                               ops: seq<Wires.Op<E>>, c: nat)
    requires CheckOf(F, L, P, ps, ops, c)
    ensures forall i :: 0 <= i < |ps| ==> c < |VRunAll(F, L, ps, ops)[i].checked|
    ensures var ts := PRun(F, L, ops).checked[c];
            |ts| >= 1 && MultCheck.Recorded(F, Sum(F, Deltas(ps)), Lefts(ts), Rights(ts), Outs(ts),
                                            BuffersAt(F, L, ps, ops, c))
  {
    LockstepHolds(F, L, ps, ops);
    RunRight(F, L, ops);
    var vs := VRunAll(F, L, ps, ops);
    hide PRun, VRunAll, AllRight, TriplesAuth, MultCheck.Recorded;
    RecordedForCheck(F, Sum(F, Deltas(ps)), PRun(F, L, ops).checked[c], CheckedAt(vs, c));
  }

  // The state in which the c-th check starts folding, with coefficients chi.
  ghost function StateAt<E(!new)>(F: Field<E>, P: Compression.Params<E>, ts: seq<Triple<E>>,
                                  chi: seq<E>): Compression.State<E>
    requires P.m >= 1 && |chi| == |ts| >= 1
  {
    Compression.InitState(F, P.m, Lefts(ts), Rights(ts), Outs(ts), chi)
  }

  /** Completeness of whole programs: if the program makes no false claim, every check of the run is
      accepted, at every chi and all challenges off the interpolation points. */
  lemma EveryCheckAccepts<E(!new)>(F: Field<E>, L: Wires.Limits, P: Compression.Params<E>, ps: seq<Wires.Party<E>>,
                                   ops: seq<Wires.Op<E>>, c: nat, chi: seq<E>, recs: seq<seq<Lanes<E>>>, rs: seq<E>,
                                   mask: (E, E))
    requires CheckOf(F, L, P, ps, ops, c) && NoFalseClaim(F, L, ops) && |chi| == |PRun(F, L, ops).checked[c]| >= 1
    requires var st := StateAt(F, P, PRun(F, L, ops).checked[c], chi);
             && Compression.Rounds(P.m, st.len) <= |rs| && Compression.Rounds(P.m, st.len) <= |recs|
             && VerifierRun.Delivered(F, Sum(F, Deltas(ps)), |ps|, Compression.ProverRun(F, P, st, rs, mask).sent, recs)
    requires forall i :: 0 <= i < |rs| ==> rs[i] !in P.pts && rs[i] !in P.lastPts
    ensures forall i :: 0 <= i < |ps| ==> c < |VRunAll(F, L, ps, ops)[i].checked|
    ensures var st := StateAt(F, P, PRun(F, L, ops).checked[c], chi);
            MultCheck.Accepted(F, Deltas(ps),
                               VerifierRun.Finals(F, P, MultCheck.InitShares(F, P.m, BuffersAt(F, L, ps, ops, c), chi),
                                                  st.len, recs, rs))
  {
    CheckRecorded(F, L, P, ps, ops, c);
    RunRight(F, L, ops);
    var ts := PRun(F, L, ops).checked[c];
    assert RightTriples(F, ts);
    hide PRun, VRunAll, AllRight, MultCheck.Recorded, MultCheck.Accepted, BuffersAt, NoFalseClaim,
        VerifierRun.Delivered;
    MultCheck.CheckComplete(F, P, Deltas(ps), Lefts(ts), Rights(ts), Outs(ts), chi, BuffersAt(F, L, ps, ops, c), recs,
                            rs, mask);
  }

  /** A check that is run against any strategy of the prover accepts exactly where the strategy
      passes, which is what the soundness theorem counts. */
  lemma StrategyVerdict<E(!new)>(F: Field<E>, L: Wires.Limits, P: Compression.Params<E>, ps: seq<Wires.Party<E>>,
                                 ops: seq<Wires.Op<E>>, c: nat, chi: seq<E>, S: Sound.Strategy<E>,
                                 recs: seq<seq<Lanes<E>>>, rs: seq<E>)
    requires CheckOf(F, L, P, ps, ops, c) && |chi| == |PRun(F, L, ops).checked[c]| >= 1
    requires var st := StateAt(F, P, PRun(F, L, ops).checked[c], chi);
             && Compression.Rounds(P.m, st.len) <= |rs| && Compression.Rounds(P.m, st.len) <= |recs|
             && VerifierRun.Delivered(F, Sum(F, Deltas(ps)), |ps|, Sound.MessagesOf(F, P, st.len, S, rs), recs)
    ensures forall i :: 0 <= i < |ps| ==> c < |VRunAll(F, L, ps, ops)[i].checked|
    ensures var st := StateAt(F, P, PRun(F, L, ops).checked[c], chi);
            MultCheck.Accepted(F, Deltas(ps),
                               VerifierRun.Finals(F, P, MultCheck.InitShares(F, P.m, BuffersAt(F, L, ps, ops, c), chi),
                                                  st.len, recs, rs))
            <==> Sound.Passes(F, P, st, S, rs)
  {
    CheckRecorded(F, L, P, ps, ops, c);
    var ts := PRun(F, L, ops).checked[c];
    var st := StateAt(F, P, ts, chi);
    hide PRun, VRunAll, AllRight, MultCheck.Recorded, MultCheck.Accepted, BuffersAt, VerifierRun.Delivered,
        Sound.Passes, Sound.MessagesOf;
    Sound.PassesIsOutcome(F, P, st, S, rs);
    MultCheck.VerdictExact(F, P, Deltas(ps), Lefts(ts), Rights(ts), Outs(ts), chi, BuffersAt(F, L, ps, ops, c),
                           Sound.MessagesOf(F, P, st.len, S, rs), recs, rs);
  }

  /** Soundness of whole programs: if a finalized program makes a false claim, then in some check of
      the run, of all choices of coefficients and challenges from C at most the fraction
      (1 + 2 m rounds) / |C| lets any strategy pass. */
  lemma FalseClaimIsCaught<E(!new)>(F: Field<E>, L: Wires.Limits, P: Compression.Params<E>, ops: seq<Wires.Op<E>>,
                                    S: Sound.Strategy<E>, C: seq<E>)
    returns (c: nat)
    requires F.Laws() && L.Good() && P.Good() && Legal(ops) && ops != [] && ops[|ops| - 1].Finalize?
    requires !NoFalseClaim(F, L, ops) && Interpolation.Distinct(C)
    ensures c < |PRun(F, L, ops).checked| && |PRun(F, L, ops).checked[c]| >= 1
    ensures var ts := PRun(F, L, ops).checked[c];
            var R := Sound.CheckRounds(P.m, |ts|);
            Sound.AtMostFraction(Sound.Cheats(F, P, Lefts(ts), Rights(ts), Outs(ts), [], S, C),
                                 Sound.NPow(|C|, |ts| + R), Sound.Odds(P.m, R), |C|)
  {
    RunRight(F, L, ops);
    FinalizeEmpties(F, L, PRun(F, L, ops[..|ops| - 1]));
    EmptyRight(F);
    var p := PRun(F, L, ops);
    c :| c < |p.checked| && !RightTriples(F, p.checked[c]);
    var ts := p.checked[c];
    WrongEntry(F, ts);
    hide PRun, AllRight, NoFalseClaim, RightTriples, Sound.Cheats, Sound.AtMostFraction, Sound.NPow, Sound.Odds,
        Sound.CheckRounds;
    Sound.CheckIsSound(F, P, Lefts(ts), Rights(ts), Outs(ts), S, C);
  }

  lemma FinalizeEmpties<E(!new)>(F: Field<E>, L: Wires.Limits, p: Wires.Prover<E>)
    requires 1 <= L.k && 2 <= L.m
    ensures Wires.PStep(F, L, p, Wires.Op.Finalize).triples == []
  {
  }

  lemma WrongEntry<E(!new)>(F: Field<E>, ts: seq<Triple<E>>)
    requires !RightTriples(F, ts)
    ensures exists j :: 0 <= j < |Lefts(ts)| && Outs(ts)[j] != F.Mul(Lefts(ts)[j], Rights(ts)[j])
  {
    var j: nat :| j < |ts| && ts[j].2 != F.Mul(ts[j].0, ts[j].1);
    assert Outs(ts)[j] != F.Mul(Lefts(ts)[j], Rights(ts)[j]);
  }
}
