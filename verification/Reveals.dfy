/** Opening wires. After a flush any slots of a run are accepted for their values and, with a nonzero
    Delta, under few coefficients for others; what values that are no packing leave behind is
    accepted under few coefficients for any claim. */
module Reveals {
  import opened Algebra
  import opened AuthShares
  import opened OpenCheck
  import opened Lockstep
  import opened LockstepRuns
  import opened ProgramChecks
  import Wires
  import PackedPoly
  import Interpolation
  import PackedAuth
  import PackedExact

  // ---- slots of a run ----

  ghost predicate SlotsOf<E>(ops: seq<Wires.Op<E>>, ids: seq<nat>) {
    forall j :: 0 <= j < |ids| ==> ids[j] < Slots(ops)
  }

  // What verifier i opens: its meaning of each of the slots.
  function Resolved<E(!new)>(F: Field<E>, ps: seq<Wires.Party<E>>, prog: seq<Wires.Op<E>>, vs: seq<Wires.Verifier<E>>,
                             ids: seq<nat>, i: nat): (r: seq<Wires.Cell<E>>)
    requires SameProgram(ps, prog, vs) && i < |vs| && forall j :: 0 <= j < |ids| ==> ids[j] < |prog|
    ensures |r| == |ids|
  {
    seq(|ids|, j requires 0 <= j < |ids| => Meanings(F, ps, prog, vs, ids[j])[i])
  }

  function OpenedRows<E(!new)>(F: Field<E>, ps: seq<Wires.Party<E>>, prog: seq<Wires.Op<E>>,
                               vs: seq<Wires.Verifier<E>>, ids: seq<nat>): (r: seq<seq<Wires.Cell<E>>>)
    requires SameProgram(ps, prog, vs) && forall j :: 0 <= j < |ids| ==> ids[j] < |prog|
    ensures |r| == |vs| && forall i :: 0 <= i < |r| ==> |r[i]| == |ids|
  {
    seq(|vs|, i requires 0 <= i < |vs| => Resolved(F, ps, prog, vs, ids, i))
  }

  // The shares with which all verifiers enter the check of the slots.
  function OpenedShares<E(!new)>(F: Field<E>, ps: seq<Wires.Party<E>>, prog: seq<Wires.Op<E>>,
                                 vs: seq<Wires.Verifier<E>>, ids: seq<nat>): (r: seq<Lanes<E>>)
    requires SameProgram(ps, prog, vs) && forall j :: 0 <= j < |ids| ==> ids[j] < |prog|
    ensures |r| == |vs| && Sized(|ids|, r)
  {
    LanesOfAll(OpenedRows(F, ps, prog, vs, ids))
  }

  // With nothing pending, after a run with these operations.
  ghost predicate Flushed<E(!new)>(F: Field<E>, L: Wires.Limits, ps: seq<Wires.Party<E>>, ops: seq<Wires.Op<E>>) {
    && F.Laws() && L.Good() && Parties(ps) && Legal(ops) && AllArrive(F, ps, PRun(F, L, ops).sent)
    && PRun(F, L, ops).pending == []
  }

  /** The flush with which every opening starts leaves nothing pending. */
  lemma FlushFirst<E(!new)>(F: Field<E>, L: Wires.Limits, ps: seq<Wires.Party<E>>, ops: seq<Wires.Op<E>>)
    requires F.Laws() && L.Good() && Parties(ps) && Legal(ops)
    ensures var all := ops + [Wires.Op.Flush];
            && Legal(all) && Slots(all) == Slots(ops) && PRun(F, L, all).vals == PRun(F, L, ops).vals
            && (AllArrive(F, ps, PRun(F, L, all).sent) ==> Flushed(F, L, ps, all))
  {
    assert (ops + [Wires.Op.Flush])[..|ops|] == ops;
    hide AllArrive;
  }

  lemma RunProgram<E(!new)>(F: Field<E>, L: Wires.Limits, ps: seq<Wires.Party<E>>, ops: seq<Wires.Op<E>>)
    requires Flushed(F, L, ps, ops)
    ensures var vs := VRunAll(F, L, ps, ops);
            SameProgram(ps, vs[0].prog, vs) && |vs[0].prog| == Slots(ops) == |PRun(F, L, ops).vals|
  {
    hide PRun, VRunAll, AllArrive, Legal;
    var prog, pend, rec := RunsInStep(F, L, ps, ops);
    MatchedParts(F, L, ps, PRun(F, L, ops), VRunAll(F, L, ps, ops), prog, pend, rec);
  }

  // The share of one slot at every verifier.
  lemma OpenedSlot<E(!new)>(F: Field<E>, L: Wires.Limits, ps: seq<Wires.Party<E>>, ops: seq<Wires.Op<E>>, ids: seq<nat>,
                            j: nat)
    requires Flushed(F, L, ps, ops) && SlotsOf(ops, ids) && j < |ids|
    ensures var vs := VRunAll(F, L, ps, ops);
            var prog, vals := vs[0].prog, PRun(F, L, ops).vals;
            && SameProgram(ps, prog, vs) && |prog| == Slots(ops) == |vals|
            && Formed(F, ps, prog, vals, vs, ids[j])
            && Auth(F, Sum(F, Deltas(ps)), vals[ids[j]], Row(OpenedRows(F, ps, prog, vs, ids), j))
  {
    hide PRun, VRunAll, AllArrive, Legal, Auth;
    var vs := VRunAll(F, L, ps, ops);
    SlotsAuthentic(F, L, ps, ops, ids[j]);
    assert Row(OpenedRows(F, ps, vs[0].prog, vs, ids), j) == Meanings(F, ps, vs[0].prog, vs, ids[j]);
  }

  /** Every verifier can form every slot, and together their shares are authentic for the values. */
  lemma OpenedAuthentic<E(!new)>(F: Field<E>, L: Wires.Limits, ps: seq<Wires.Party<E>>, ops: seq<Wires.Op<E>>,
                                 ids: seq<nat>)
    requires Flushed(F, L, ps, ops) && SlotsOf(ops, ids)
    ensures var vs := VRunAll(F, L, ps, ops);
            var prog, vals := vs[0].prog, PRun(F, L, ops).vals;
            && SameProgram(ps, prog, vs) && |prog| == Slots(ops) == |vals|
            && (forall j :: 0 <= j < |ids| ==> Formed(F, ps, prog, vals, vs, ids[j]))
            && Authentic(F, Sum(F, Deltas(ps)), ValuesAt(vals, ids), OpenedShares(F, ps, prog, vs, ids))
  {
    RunProgram(F, L, ps, ops);
    var p, vs := PRun(F, L, ops), VRunAll(F, L, ps, ops);
    var prog := vs[0].prog;
    hide PRun, VRunAll, Flushed, Auth, Formed, OpenedRows, Authentic;
    forall j | 0 <= j < |ids|
      ensures Formed(F, ps, prog, p.vals, vs, ids[j])
      ensures Auth(F, Sum(F, Deltas(ps)), ValuesAt(p.vals, ids)[j], Row(OpenedRows(F, ps, prog, vs, ids), j))
    {
      OpenedSlot(F, L, ps, ops, ids, j);
    }
    RowsAuthentic(F, Sum(F, Deltas(ps)), ValuesAt(p.vals, ids), OpenedRows(F, ps, prog, vs, ids));
  }

  // The prover's values of the slots.
  function TrueValues<E(!new)>(F: Field<E>, L: Wires.Limits, ps: seq<Wires.Party<E>>, ops: seq<Wires.Op<E>>,
                               ids: seq<nat>): (r: seq<E>)
    requires Flushed(F, L, ps, ops) && SlotsOf(ops, ids)
    ensures |r| == |ids|
  {
    RunProgram(F, L, ps, ops);
    ValuesAt(PRun(F, L, ops).vals, ids)
  }

  // The verifiers of the run accept claimed values for the slots.
  ghost predicate RevealAccepts<E(!new)>(F: Field<E>, L: Wires.Limits, ps: seq<Wires.Party<E>>, ops: seq<Wires.Op<E>>,
                                         ids: seq<nat>, claimed: seq<E>, chi: seq<E>)
    requires Flushed(F, L, ps, ops) && SlotsOf(ops, ids) && |claimed| == |chi| == |ids|
  {
    RunProgram(F, L, ps, ops);
    var vs := VRunAll(F, L, ps, ops);
    PublicAccepts(F, Sum(F, Deltas(ps)), claimed, chi, OpenedShares(F, ps, vs[0].prog, vs, ids))
  }

  /** After a flush the true values of any slots of any run are accepted, at every chi. */
  lemma TrueRevealPasses<E(!new)>(F: Field<E>, L: Wires.Limits, ps: seq<Wires.Party<E>>, ops: seq<Wires.Op<E>>,
                                  ids: seq<nat>, chi: seq<E>)
    requires Flushed(F, L, ps, ops) && SlotsOf(ops, ids) && |chi| == |ids|
    ensures RevealAccepts(F, L, ps, ops, ids, TrueValues(F, L, ps, ops, ids), chi)
  {
    OpenedAuthentic(F, L, ps, ops, ids);
    var vs, v := VRunAll(F, L, ps, ops), ValuesAt(PRun(F, L, ops).vals, ids);
    var shs := OpenedShares(F, ps, vs[0].prog, vs, ids);
    hide PRun, VRunAll, OpenedShares, Authentic, PublicAccepts, AllArrive, Legal, Formed, ValuesAt;
    PublicCheckExact(F, Sum(F, Deltas(ps)), v, v, chi, shs);
  }

  /** A claim with a wrong value passes, Delta being nonzero and the other coefficients fixed, for at
      most one value of the coefficient of that slot. */
  lemma FalseRevealIsCaught<E(!new)>(F: Field<E>, L: Wires.Limits, ps: seq<Wires.Party<E>>, ops: seq<Wires.Op<E>>,
                                     ids: seq<nat>, claimed: seq<E>, chi: seq<E>, j: nat, a: E, b: E)
    requires Flushed(F, L, ps, ops) && SlotsOf(ops, ids) && |claimed| == |chi| == |ids| && j < |ids|
    requires Sum(F, Deltas(ps)) != F.zero && claimed[j] != TrueValues(F, L, ps, ops, ids)[j]
    requires RevealAccepts(F, L, ps, ops, ids, claimed, chi[j := a])
    requires RevealAccepts(F, L, ps, ops, ids, claimed, chi[j := b])
    ensures a == b
  {
    OpenedAuthentic(F, L, ps, ops, ids);
    var vs, v := VRunAll(F, L, ps, ops), ValuesAt(PRun(F, L, ops).vals, ids);
    var shs := OpenedShares(F, ps, vs[0].prog, vs, ids);
    hide PRun, VRunAll, OpenedShares, Authentic, PublicAccepts, AllArrive, Legal, Formed, ValuesAt, Gaps;
    AuthenticGaps(F, Sum(F, Deltas(ps)), v, claimed, shs, j);
    OneCoefficientOpens(F, Sum(F, Deltas(ps)), claimed, chi, shs, j, a, b);
  }

  // ---- values that are no packing ----

  /** Whatever n values the prover sends for a batch and whatever it claims: the MAC of a slot vouches
      for the claim exactly when the local products read off as the claimed difference times Delta. */
  lemma BatchGaps<E(!new)>(F: Field<E>, from: seq<E>, to: seq<E>, secrets: seq<E>, s: seq<E>, delta: E,
                           keyShares: seq<seq<E>>, base: seq<Lanes<E>>, claimed: seq<E>, m: nat)
    requires F.Laws() && |secrets| == |to| == |claimed| && |s| == |keyShares| == |base| == |from|
    requires Rows(|to|, keyShares) && Authentic(F, delta, secrets, base) && m < |to|
    ensures var shs := PackedAuth.GenShares(F, from, to, s, keyShares, base);
            && Sized(|to|, shs)
            && (Gaps(F, delta, claimed, shs)[m] == F.zero <==>
                Interpolation.ValueAt(F, from, Hadamard(F, s, Column(keyShares, m)), to[m])
                  == F.Mul(F.Sub(claimed[m], secrets[m]), delta))
  {
    var n, shs := |to|, PackedAuth.GenShares(F, from, to, s, keyShares, base);
    var part := Interpolation.ValueAt(F, from, Hadamard(F, s, Column(keyShares, m)), to[m]);
    PackedAuth.GenTotals(F, from, to, s, keyShares, base);
    PackedExact.MacPartsAre(F, from, to, s, keyShares, m);
    assert Total(F, n, MacRows(base))[m] == F.Add(Total(F, n, KeyRows(base))[m], F.Mul(delta, secrets[m]));
    hide Total, MacRows, KeyRows, ValRows, Authentic;
    BatchGap(F, Total(F, n, KeyRows(base))[m], delta, secrets[m], part, claimed[m]);
  }

  lemma BatchGap<E(!new)>(F: Field<E>, k: E, d: E, s: E, part: E, c: E)
    requires F.Laws()
    ensures F.Sub(F.Add(F.Add(k, F.Mul(d, s)), part), F.Add(k, F.Mul(c, d))) == F.zero
       <==> part == F.Mul(F.Sub(c, s), d)
  {
    var x, f := F.Add(k, F.Mul(d, s)), F.Sub(c, s);
    var q := F.Mul(f, d);
    SubLaws(F, c, s);
    assert F.Add(k, F.Mul(F.Add(f, s), d)) == F.Add(x, q) by { Ring(F); }
    SubLaws(F, F.Add(x, part), F.Add(x, q));
    assert At2(x, part) && At2(x, q);
    if F.Add(x, part) == F.Add(x, q) { Cancel(F, part, q, x); }
  }

  /** So the values the shares add up to, secret plus interpolant, are vouched for exactly in the
      slots whose MAC comes out right. */
  lemma ImproperGaps<E(!new)>(F: Field<E>, from: seq<E>, to: seq<E>, secrets: seq<E>, s: seq<E>, delta: E,
                              keyShares: seq<seq<E>>, base: seq<Lanes<E>>, m: nat)
    requires F.Laws() && |secrets| == |to| && |s| == |keyShares| == |base| == |from|
    requires Rows(|to|, keyShares) && Authentic(F, delta, secrets, base) && m < |to|
    ensures var shs := PackedAuth.GenShares(F, from, to, s, keyShares, base);
            var w := VAdd(F, secrets, PackedPoly.Convert(F, from, to, s));
            && Sized(|to|, shs)
            && (Gaps(F, delta, w, shs)[m] == F.zero <==>
                PackedExact.MacRight(F, from, to[m], s, delta, Column(keyShares, m)))
  {
    var diff := PackedPoly.Convert(F, from, to, s);
    var w := VAdd(F, secrets, diff);
    BatchGaps(F, from, to, secrets, s, delta, keyShares, base, w, m);
    assert At2(secrets[m], diff[m]) && At2(F.Sub(w[m], secrets[m]), secrets[m]);
    SubLaws(F, w[m], secrets[m]);
    Cancel(F, F.Sub(w[m], secrets[m]), diff[m], secrets[m]);
  }
}
