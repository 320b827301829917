/** Delivery over whole runs. The prover's and the verifiers' preprocessed sharings come from the same
    correlations, each party keeps its own buffers and its own pointer into them; then what the prover
    puts into its messages arrives as authentic shares of every wire of every program. */
module RunDelivery {
  import opened Algebra
  import opened Interpolation
  import opened AuthShares
  import opened PackedPoly
  import opened PackedAuth
  import opened Wires
  import opened Lockstep
  import opened LockstepRuns
  import opened Delivery
  import opened Draws
  import ProverExec

  // The correlations: of extend position g, one for each verifier.
  type Stream<!E> = nat -> seq<Corr<E>>

  // The stream position of a preprocessed sharing.
  function StreamNo(L: Limits, pre: PreAuth): nat
    requires 1 <= pre.refills
  {
    L.cap * (pre.refills - 1) + pre.ptr
  }

  ghost predicate Correlated<E(!new)>(F: Field<E>, deltas: seq<E>, cs: Stream<E>) {
    forall g: nat :: Pairwise(F, deltas, cs(g))
  }

  // The prover's buffer of each refill: the secrets of the next cap correlations, converted.
  ghost predicate ProverBuffers<E(!new)>(F: Field<E>, L: Limits, from: seq<E>, to: seq<E>, cs: Stream<E>,
                                         supply: nat -> seq<E>)
    requires |to| == L.k
  {
    && (forall r :: |supply(r)| == L.k * L.cap)
    && forall r: nat, l: nat :: 1 <= r && l < L.cap ==> BufferOf(F, L, from, to, cs, supply, r, l)
  }

  ghost predicate BufferOf<E(!new)>(F: Field<E>, L: Limits, from: seq<E>, to: seq<E>, cs: Stream<E>,
                                    supply: nat -> seq<E>, r: nat, l: nat)
    requires 1 <= r
  {
    && |Us(cs(StreamNo(L, PreAuth(l, r))))| == |from| && L.k * l + L.k <= |supply(r)|
    && Part(supply(r), L.k, l) == Convert(F, from, to, Us(cs(StreamNo(L, PreAuth(l, r)))))
  }

  // Verifier i's buffers of each refill: its conversions of the same correlations.
  ghost predicate VerifierBuffers<E(!new)>(F: Field<E>, L: Limits, from: seq<E>, to: seq<E>, cs: Stream<E>, i: nat,
                                           delta: E, bufs: nat -> Lanes<E>) {
    forall r: nat, l: nat :: 1 <= r && l < L.cap ==> LanesOf(F, L, from, to, cs, i, delta, bufs, r, l)
  }

  ghost predicate LanesOf<E(!new)>(F: Field<E>, L: Limits, from: seq<E>, to: seq<E>, cs: Stream<E>, i: nat, delta: E,
                                   bufs: nat -> Lanes<E>, r: nat, l: nat)
    requires 1 <= r
  {
    var c := cs(StreamNo(L, PreAuth(l, r)));
    && i < |c| && i < |from| == |c[i].keys| && LanesFit(bufs(r), L.k, l)
    && LanesPart(bufs(r), L.k, l) == RandShare(F, from, to, i, delta, c[i])
  }

  // A verifier's share of wire j of batch b: its own buffers at its own pointer, and the packed
  // share it received for the batch.
  ghost predicate Converts<E(!new)>(F: Field<E>, L: Limits, from: seq<E>, to: seq<E>, party: Party<E>, i: nat,
                                    keyShare: seq<E>, bufs: nat -> Lanes<E>, inbox: nat -> E, at: Spot) {
    && 1 <= at.pre.refills && LanesFit(bufs(at.pre.refills), L.k, at.pre.ptr)
    && i < |from| && |keyShare| == |to| == L.k
    && var sh := GenShare(F, from, to, i, inbox(at.batch), keyShare, LanesPart(bufs(at.pre.refills), L.k, at.pre.ptr));
       forall j :: 0 <= j < L.k ==>
         |sh.mac| == |sh.key| == |sh.val| == L.k && party.arrive(at, j) == Cell(sh.mac[j], sh.key[j], sh.val[j])
  }

  // Everything the parties set up, and what they do with it.
  datatype Setup<!E> = Setup(from: seq<E>, to: seq<E>, cs: Stream<E>, supply: nat -> seq<E>,
                             bufs: seq<nat -> Lanes<E>>, keyShares: seq<seq<E>>)

  ghost predicate SetUp<E(!new)>(F: Field<E>, L: Limits, ps: seq<Party<E>>, u: Setup<E>) {
    && Distinct(u.from) && Distinct(u.to) && |u.to| == L.k <= |u.from| == |ps| == |u.bufs| == |u.keyShares|
    && Rows(L.k, u.keyShares) && Correlated(F, Deltas(ps), u.cs)
    && ProverBuffers(F, L, u.from, u.to, u.cs, u.supply)
    && (forall i :: 0 <= i < |ps| ==> VerifierBuffers(F, L, u.from, u.to, u.cs, i, ps[i].delta, u.bufs[i]))
    && forall m :: 0 <= m < L.k ==>
         SharesKey(F, u.from, |u.from| - L.k, u.to[m], Sum(F, Deltas(ps)), Column(u.keyShares, m))
  }

  // The prover's outbox: batch b as differences to the secrets at its own spot.
  ghost predicate Mailed<E(!new)>(F: Field<E>, L: Limits, supply: nat -> seq<E>, sent: seq<Sharing<E>>,
                                  outbox: seq<seq<E>>) {
    && |outbox| == |sent|
    && forall b :: 0 <= b < |sent| ==>
         ProverExec.SentAt(F, L, supply, sent[b].wires, sent[b].at.pre, outbox[b])
  }

  // Verifier i receives its packed share of each batch of differences, and converts it.
  ghost predicate Received<E(!new)>(F: Field<E>, L: Limits, ps: seq<Party<E>>, u: Setup<E>, outbox: seq<seq<E>>,
                                    inboxes: seq<nat -> E>) {
    && |inboxes| == |ps| == |u.from| == |u.bufs| == |u.keyShares|
    && (forall b :: 0 <= b < |outbox| ==> |outbox[b]| == |u.to|)
    && (forall i, b :: 0 <= i < |ps| && 0 <= b < |outbox| ==>
          inboxes[i](b) == Convert(F, u.to, u.from, outbox[b])[i])
    && forall i, at: Spot :: 0 <= i < |ps| && 1 <= at.pre.refills && at.pre.ptr < L.cap ==>
         Converts(F, L, u.from, u.to, ps[i], i, u.keyShares[i], u.bufs[i], inboxes[i], at)
  }

  // ---- one batch ----

  function Bases<E(!new)>(F: Field<E>, L: Limits, ps: seq<Party<E>>, u: Setup<E>, pre: PreAuth): (r: seq<Lanes<E>>)
    requires |u.bufs| == |ps|
    requires forall i :: 0 <= i < |ps| ==> LanesFit(u.bufs[i](pre.refills), L.k, pre.ptr)
    ensures |r| == |ps|
  {
    seq(|ps|, i requires 0 <= i < |ps| => LanesPart(u.bufs[i](pre.refills), L.k, pre.ptr))
  }

  // The verifiers' buffers at a spot are authentic shares of the prover's secrets at it.
  lemma BasesAuthentic<E(!new)>(F: Field<E>, L: Limits, ps: seq<Party<E>>, u: Setup<E>, pre: PreAuth)
    requires F.Laws() && SetUp(F, L, ps, u) && 1 <= pre.refills && pre.ptr < L.cap
    ensures forall i :: 0 <= i < |ps| ==> LanesFit(u.bufs[i](pre.refills), L.k, pre.ptr)
    ensures |u.supply(pre.refills)| == L.k * L.cap
    ensures Authentic(F, Sum(F, Deltas(ps)), ProverExec.Secrets(L, u.supply, pre), Bases(F, L, ps, u, pre))
  {
    hide *;
    SecretsAt(F, L, ps, u, pre);
    BasesAt(F, L, ps, u, pre);
    RandSharesAuthentic(F, u.from, u.to, Deltas(ps), u.cs(StreamNo(L, pre)));
  }

  // The prover's secrets at a spot are the converted values of its correlation.
  lemma SecretsAt<E(!new)>(F: Field<E>, L: Limits, ps: seq<Party<E>>, u: Setup<E>, pre: PreAuth)
    requires SetUp(F, L, ps, u) && 1 <= pre.refills && pre.ptr < L.cap
    ensures |u.supply(pre.refills)| == L.k * L.cap
    ensures var c := u.cs(StreamNo(L, pre));
            && |c| == |u.from| && Pairwise(F, Deltas(ps), c)
            && ProverExec.Secrets(L, u.supply, pre) == Convert(F, u.from, u.to, Us(c))
  {
    assert PreAuth(pre.ptr, pre.refills) == pre;
    assert BufferOf(F, L, u.from, u.to, u.cs, u.supply, pre.refills, pre.ptr);
    hide Convert, Distinct, SharesKey, VerifierBuffers;
  }

  // The verifiers' entries at a spot are their conversions of it.
  lemma BasesAt<E(!new)>(F: Field<E>, L: Limits, ps: seq<Party<E>>, u: Setup<E>, pre: PreAuth)
    requires SetUp(F, L, ps, u) && 1 <= pre.refills && pre.ptr < L.cap
    ensures forall i :: 0 <= i < |ps| ==> LanesFit(u.bufs[i](pre.refills), L.k, pre.ptr)
    ensures var c := u.cs(StreamNo(L, pre));
            && |c| == |ps| == |u.from| && (forall i :: 0 <= i < |c| ==> |c[i].keys| == |c|)
            && Bases(F, L, ps, u, pre) == RandShares(F, u.from, u.to, Deltas(ps), c)
  {
    var c := u.cs(StreamNo(L, pre));
    assert PreAuth(pre.ptr, pre.refills) == pre;
    assert Pairwise(F, Deltas(ps), c);
    hide RandShare, LanesPart, Convert, Distinct, SharesKey, ProverBuffers, Correlated;
    forall i | 0 <= i < |ps|
      ensures LanesFit(u.bufs[i](pre.refills), L.k, pre.ptr)
      ensures |c[i].keys| == |u.from| && LanesPart(u.bufs[i](pre.refills), L.k, pre.ptr)
           == RandShare(F, u.from, u.to, i, Deltas(ps)[i], c[i])
    {
      assert LanesOf(F, L, u.from, u.to, u.cs, i, ps[i].delta, u.bufs[i], pre.refills, pre.ptr);
    }
  }

  lemma SharingArrives<E(!new)>(F: Field<E>, L: Limits, ps: seq<Party<E>>, u: Setup<E>, sh: Sharing<E>, diff: seq<E>,
                                inboxes: seq<nat -> E>)
    requires F.Laws() && SetUp(F, L, ps, u) && 1 <= sh.at.pre.refills && sh.at.pre.ptr < L.cap
    requires ProverExec.SentAt(F, L, u.supply, sh.wires, sh.at.pre, diff) && |inboxes| == |ps|
    requires forall i :: 0 <= i < |ps| ==> inboxes[i](sh.at.batch) == Convert(F, u.to, u.from, diff)[i]
    requires forall i :: 0 <= i < |ps| ==>
               Converts(F, L, u.from, u.to, ps[i], i, u.keyShares[i], u.bufs[i], inboxes[i], sh.at)
    ensures Arrives(F, ps, sh)
  {
    var pre := sh.at.pre;
    BasesAuthentic(F, L, ps, u, pre);
    var secrets, base := ProverExec.Secrets(L, u.supply, pre), Bases(F, L, ps, u, pre);
    SharesDelivered(F, L, ps, u, sh, diff, inboxes, base);
    hide Authentic, GenShares, SharesKey, Distinct, Converts, Delivers;
    BatchArrives(F, ps, sh.at, u.from, u.to, sh.wires, secrets, u.keyShares, base);
  }

  lemma SharesDelivered<E(!new)>(F: Field<E>, L: Limits, ps: seq<Party<E>>, u: Setup<E>, sh: Sharing<E>, diff: seq<E>,
                                 inboxes: seq<nat -> E>, base: seq<Lanes<E>>)
    requires |u.to| == L.k <= |u.from| == |ps| == |u.bufs| == |u.keyShares| == |inboxes| && Rows(L.k, u.keyShares)
    requires |diff| == L.k && Sized(L.k, base)
    requires forall i :: 0 <= i < |ps| ==> LanesFit(u.bufs[i](sh.at.pre.refills), L.k, sh.at.pre.ptr)
    requires base == Bases(F, L, ps, u, sh.at.pre)
    requires forall i :: 0 <= i < |ps| ==> inboxes[i](sh.at.batch) == Convert(F, u.to, u.from, diff)[i]
    requires forall i :: 0 <= i < |ps| ==>
               Converts(F, L, u.from, u.to, ps[i], i, u.keyShares[i], u.bufs[i], inboxes[i], sh.at)
    ensures Delivers(ps, sh.at, GenShares(F, u.from, u.to, Convert(F, u.to, u.from, diff), u.keyShares, base), L.k)
  {
    var s := Convert(F, u.to, u.from, diff);
    var shs := GenShares(F, u.from, u.to, s, u.keyShares, base);
    forall i | 0 <= i < |ps|
      ensures |shs[i].mac| == |shs[i].key| == |shs[i].val| == L.k
      ensures forall j :: 0 <= j < L.k ==>
                ps[i].arrive(sh.at, j) == Cell(shs[i].mac[j], shs[i].key[j], shs[i].val[j])
    {
      assert Converts(F, L, u.from, u.to, ps[i], i, u.keyShares[i], u.bufs[i], inboxes[i], sh.at);
      assert shs[i] == GenShare(F, u.from, u.to, i, s[i], u.keyShares[i], base[i]);
    }
  }

  // ---- whole runs ----

  lemma SpotInside<E(!new)>(F: Field<E>, L: Limits, ops: seq<Op<E>>, b: nat)
    requires L.Good() && Legal(ops) && b < |PRun(F, L, ops).sent|
    ensures var pre := PRun(F, L, ops).sent[b].at.pre; 1 <= pre.refills && pre.ptr < L.cap
    ensures PRun(F, L, ops).sent[b].at.batch == b
  {
    DrawsApart(F, L, ops);
    var p, ds := PRun(F, L, ops), RunDraws(F, L, ops);
    hide PRun, RunDraws;
    assert Draw(p.sent[b].at.pre, 1) in ds;
    var i :| 0 <= i < |ds| && ds[i] == Draw(p.sent[b].at.pre, 1);
    assert Between(L, ds[i], L.cap, Index(L, p.clock.pa));
  }

  /** For every program: if every batch in the prover's outbox was masked at its own spot, and every
      verifier converts what it receives on top of its own buffers at its own pointer, then all packed
      sharings of the run arrive as authentic shares of their wires. */
  lemma RunArrives<E(!new)>(F: Field<E>, L: Limits, ps: seq<Party<E>>, u: Setup<E>, ops: seq<Op<E>>,
                            outbox: seq<seq<E>>, inboxes: seq<nat -> E>)
    requires F.Laws() && L.Good() && Legal(ops) && SetUp(F, L, ps, u)
    requires Mailed(F, L, u.supply, PRun(F, L, ops).sent, outbox) && Received(F, L, ps, u, outbox, inboxes)
    ensures AllArrive(F, ps, PRun(F, L, ops).sent)
  {
    var sent := PRun(F, L, ops).sent;
    forall b | 0 <= b < |sent| ensures Arrives(F, ps, sent[b]) {
      SpotInside(F, L, ops, b);
      assert ProverExec.SentAt(F, L, u.supply, sent[b].wires, sent[b].at.pre, outbox[b]);
      hide PRun, SetUp, Converts, Convert, ProverExec.SentAt;
      SharingArrives(F, L, ps, u, sent[b], outbox[b], inboxes);
    }
  }

  /** So the outbox that the prover's object ends a program with arrives. */
  lemma OutboxArrives<E(!new)>(prover: ProverExec.Exec<E>, ps: seq<Party<E>>, u: Setup<E>, ops: seq<Op<E>>,
                               inboxes: seq<nat -> E>)
    requires prover.F.Laws() && prover.Valid() && Legal(ops) && prover.Abs() == PRun(prover.F, prover.L, ops)
    requires SetUp(prover.F, prover.L, ps, u) && u.supply == prover.supply
    requires Received(prover.F, prover.L, ps, u, prover.outbox, inboxes)
    ensures AllArrive(prover.F, ps, PRun(prover.F, prover.L, ops).sent)
  {
    hide PRun, Received, SetUp, ProverExec.SentAt;
    RunArrives(prover.F, prover.L, ps, u, ops, prover.outbox, inboxes);
  }
}
