/** From packed sharings to wires: what the prover sends for a batch, each verifier's conversion of
    it, and that the result is what the lockstep of programs relies on. */
module Delivery {
  import opened Algebra
  import opened Interpolation
  import opened AuthShares
  import opened PackedPoly
  import opened PackedAuth
  import opened Wires
  import opened Lockstep

  // Verifier i's shares of the packed sharing at a spot are the entries of its lanes.
  ghost predicate Delivers<E(!new)>(ps: seq<Party<E>>, at: Spot, shs: seq<Lanes<E>>, n: nat) {
    && |shs| == |ps| && Sized(n, shs)
    && forall i, j :: 0 <= i < |ps| && 0 <= j < n ==>
         ps[i].arrive(at, j) == Cell(shs[i].mac[j], shs[i].key[j], shs[i].val[j])
  }

  lemma AuthAt<E(!new)>(F: Field<E>, delta: E, v: seq<E>, shs: seq<Lanes<E>>, j: nat, cs: seq<Cell<E>>)
    requires Authentic(F, delta, v, shs) && j < |v| && |cs| == |shs|
    requires forall i :: 0 <= i < |shs| ==> cs[i] == Cell(shs[i].mac[j], shs[i].key[j], shs[i].val[j])
    ensures Auth(F, delta, v[j], cs)
  {
    TotalColumn(F, |v|, ValRows(shs), j);
    TotalColumn(F, |v|, MacRows(shs), j);
    TotalColumn(F, |v|, KeyRows(shs), j);
    assert Column(ValRows(shs), j) == Vals(cs);
    assert Column(MacRows(shs), j) == Macs(cs);
    assert Column(KeyRows(shs), j) == Keys(cs);
  }

  /** The protocol of one batch delivers authentic shares of its wires: preprocessed shares and key
      sharings that are authentic, the prover's packed sharing of the differences, and every
      verifier's local conversion. */
  lemma BatchArrives<E(!new)>(F: Field<E>, ps: seq<Party<E>>, at: Spot, from: seq<E>, to: seq<E>, wires: seq<E>,
                              secrets: seq<E>, keyShares: seq<seq<E>>, base: seq<Lanes<E>>)
    requires F.Laws() && Distinct(from) && Distinct(to) && |wires| <= |to| == |secrets| <= |from|
    requires |keyShares| == |base| == |from| == |ps| && Rows(|to|, keyShares)
             && Authentic(F, Sum(F, Deltas(ps)), secrets, base)
    requires forall m :: 0 <= m < |to| ==>
               SharesKey(F, from, |from| - |to|, to[m], Sum(F, Deltas(ps)), Column(keyShares, m))
    requires Delivers(ps, at, GenShares(F, from, to, Convert(F, to, from, Differences(F, |to|, wires, secrets)),
                                       keyShares, base), |to|)
    ensures Arrives(F, ps, Sharing(at, wires))
  {
    var k, delta, diff := |to|, Sum(F, Deltas(ps)), Differences(F, |to|, wires, secrets);
    var shs := GenShares(F, from, to, Convert(F, to, from, diff), keyShares, base);
    GenSharesAuthentic(F, from, to, secrets, diff, delta, keyShares, base);
    assert VAdd(F, secrets, diff) == PaddedWires(F, k, wires) by {
      forall j | 0 <= j < k ensures F.Add(secrets[j], diff[j]) == PaddedWires(F, k, wires)[j] {
        SubLaws(F, PaddedWires(F, k, wires)[j], secrets[j]);
      }
    }
    hide GenShares, Authentic, SharesKey, Distinct, Convert, Auth;
    forall j | 0 <= j < |wires| ensures Auth(F, delta, wires[j], Arriving(ps, at, j)) {
      AuthAt(F, delta, PaddedWires(F, k, wires), shs, j, Arriving(ps, at, j));
    }
  }
}
