/** The multiplication check from recorded triples to the verifiers' verdict. */
module MultCheck {
  import opened Options
  import opened Algebra
  import opened AuthShares
  import opened Compression
  import opened VerifierRun
  import opened OpenCheck

  // ---- the verifiers' first step ----

  function WeightMap<E(!new)>(F: Field<E>, chi: seq<E>, size: nat): seq<E> -> seq<E> {
    v => if |v| == |chi| <= size then Padded(F, Hadamard(F, v, chi), size) else []
  }

  function PadMap<E(!new)>(F: Field<E>, n: nat, size: nat): seq<E> -> seq<E> {
    v => if |v| == n <= size then Padded(F, v, size) else []
  }

  function CombineMap<E(!new)>(F: Field<E>, chi: seq<E>): seq<E> -> seq<E> {
    v => if |v| == |chi| then [Dot(F, v, chi)] else []
  }

  lemma WeightLinear<E(!new)>(F: Field<E>, chi: seq<E>, size: nat)
    requires F.Laws() && |chi| <= size
    ensures Linear(F, WeightMap(F, chi, size), |chi|, size)
  {
    var T, n := WeightMap(F, chi, size), |chi|;
    forall a: seq<E>, b: seq<E> | |a| == n && |b| == n ensures T(VAdd(F, a, b)) == VAdd(F, T(a), T(b)) {
      WeightParts(F, chi, a, b, F.zero);
      PaddedLinear(F, Hadamard(F, a, chi), Hadamard(F, b, chi), F.zero, size);
    }
    forall c: E, a: seq<E> | |a| == n ensures T(Scale(F, c, a)) == Scale(F, c, T(a)) {
      WeightParts(F, chi, a, a, c);
      PaddedLinear(F, Hadamard(F, a, chi), Hadamard(F, a, chi), c, size);
    }
  }

  lemma WeightParts<E(!new)>(F: Field<E>, chi: seq<E>, a: seq<E>, b: seq<E>, c: E)
    requires F.Laws() && |a| == |b| == |chi|
    ensures Hadamard(F, VAdd(F, a, b), chi) == VAdd(F, Hadamard(F, a, chi), Hadamard(F, b, chi))
    ensures Hadamard(F, Scale(F, c, a), chi) == Scale(F, c, Hadamard(F, a, chi))
  {
    forall i | 0 <= i < |chi|
      ensures F.Mul(F.Add(a[i], b[i]), chi[i]) == F.Add(F.Mul(a[i], chi[i]), F.Mul(b[i], chi[i]))
      ensures F.Mul(F.Mul(c, a[i]), chi[i]) == F.Mul(c, F.Mul(a[i], chi[i]))
    {
      Ring(F);
      assert At3(c, a[i], chi[i]);
    }
  }

  lemma PadLinear<E(!new)>(F: Field<E>, n: nat, size: nat)
    requires F.Laws() && n <= size
    ensures Linear(F, PadMap(F, n, size), n, size)
  {
    var T := PadMap(F, n, size);
    forall a: seq<E>, b: seq<E> | |a| == n && |b| == n ensures T(VAdd(F, a, b)) == VAdd(F, T(a), T(b)) {
      PaddedLinear(F, a, b, F.zero, size);
    }
    forall c: E, a: seq<E> | |a| == n ensures T(Scale(F, c, a)) == Scale(F, c, T(a)) { PaddedLinear(F, a, a, c, size); }
  }

  lemma CombineLinear<E(!new)>(F: Field<E>, chi: seq<E>)
    requires F.Laws()
    ensures Linear(F, CombineMap(F, chi), |chi|, 1)
  {
    var T, n := CombineMap(F, chi), |chi|;
    forall a: seq<E>, b: seq<E> | |a| == n && |b| == n ensures T(VAdd(F, a, b)) == VAdd(F, T(a), T(b)) {
      Folding.DotAddLeft(F, a, b, chi);
    }
    forall c: E, a: seq<E> | |a| == n
      ensures T(Scale(F, c, a)) == Scale(F, c, T(a))
    {
      Folding.DotScaleLeft(F, c, a, chi);
    }
  }

  // Verifier shares of the recorded triples, lane by lane.
  datatype Triples<E> = Triples(left: Lanes<E>, right: Lanes<E>, out: Lanes<E>)

  function InitShare<E(!new)>(F: Field<E>, m: nat, t: Triples<E>, chi: seq<E>): Share<E>
    requires m >= 1
  {
    var size := m * Chunks(m, |chi|);
    Share(MapLanes(WeightMap(F, chi, size), t.left), MapLanes(PadMap(F, |chi|, size), t.right),
          MapLanes(CombineMap(F, chi), t.out))
  }

  function InitShares<E(!new)>(F: Field<E>, m: nat, ts: seq<Triples<E>>, chi: seq<E>): (r: seq<Share<E>>)
    requires m >= 1
    ensures |r| == |ts|
  {
    seq(|ts|, i requires 0 <= i < |ts| => InitShare(F, m, ts[i], chi))
  }

  function Lefts<E>(ts: seq<Triples<E>>): (r: seq<Lanes<E>>) ensures |r| == |ts| {
    seq(|ts|, i requires 0 <= i < |ts| => ts[i].left)
  }

  function Rights<E>(ts: seq<Triples<E>>): (r: seq<Lanes<E>>) ensures |r| == |ts| {
    seq(|ts|, i requires 0 <= i < |ts| => ts[i].right)
  }

  function Outs<E>(ts: seq<Triples<E>>): (r: seq<Lanes<E>>) ensures |r| == |ts| {
    seq(|ts|, i requires 0 <= i < |ts| => ts[i].out)
  }

  // The verifiers' buffers hold authenticated shares of the prover's, triple by triple.
  ghost predicate Recorded<E(!new)>(F: Field<E>, delta: E, left: seq<E>, right: seq<E>, out: seq<E>,
                                    ts: seq<Triples<E>>) {
    Authentic(F, delta, left, Lefts(ts)) && Authentic(F, delta, right, Rights(ts)) && Authentic(F, delta, out, Outs(ts))
  }

  lemma InitMaps<E(!new)>(F: Field<E>, m: nat, ts: seq<Triples<E>>, chi: seq<E>)
    requires m >= 1
    ensures var shs, size := InitShares(F, m, ts, chi), m * Chunks(m, |chi|);
            && Xs(shs) == MapAll(WeightMap(F, chi, size), Lefts(ts))
            && Ys(shs) == MapAll(PadMap(F, |chi|, size), Rights(ts))
            && Zs(shs) == MapAll(CombineMap(F, chi), Outs(ts))
  {
    hide WeightMap, PadMap, CombineMap, MapLanes, Chunks;
  }

  /** The reduction to one inner product keeps every share authentic. */
  lemma InitSharesHold<E(!new)>(F: Field<E>, m: nat, delta: E, left: seq<E>, right: seq<E>, out: seq<E>, chi: seq<E>,
                                ts: seq<Triples<E>>)
    requires F.Laws() && m >= 1 && |left| == |right| == |out| == |chi| >= 1 && Recorded(F, delta, left, right, out, ts)
    ensures Shares(F, delta, InitState(F, m, left, right, out, chi), InitShares(F, m, ts, chi))
  {
    var n, size := |chi|, m * Chunks(m, |chi|);
    assert n <= size;
    InitMaps(F, m, ts, chi);
    hide Chunks, Authentic, MapAll, InitShares, Padded, Hadamard;
    WeightLinear(F, chi, size);
    AuthLinear(F, WeightMap(F, chi, size), size, delta, left, Lefts(ts));
    PadLinear(F, n, size);
    AuthLinear(F, PadMap(F, n, size), size, delta, right, Rights(ts));
    CombineLinear(F, chi);
    AuthLinear(F, CombineMap(F, chi), 1, delta, out, Outs(ts));
  }

  // ---- verdicts ----

  // What the final opening decides on the shares the verifiers end with.
  ghost predicate Accepted<E(!new)>(F: Field<E>, deltas: seq<E>, fin: seq<Option<Lanes<E>>>) {
    && |fin| == |deltas|
    && (forall i :: 0 <= i < |fin| ==> fin[i].Some?)
    && OpensProduct(F, deltas, seq(|fin|, i requires 0 <= i < |fin| => fin[i].value))
  }

  ghost predicate OpensProduct<E(!new)>(F: Field<E>, deltas: seq<E>, shs: seq<Lanes<E>>) {
    && Sized(3, shs)
    && var open := Total(F, 3, ValRows(shs));
       Vouched(F, Sum(F, deltas), open, shs) && open[2] == F.Mul(open[0], open[1])
  }

  /** For every list of messages, whoever sent them: the verifiers accept exactly if no challenge
      hit an interpolation point and the outcome (x, y, z) of the messages has z = x * y. */
  lemma VerdictExact<E(!new)>(F: Field<E>, P: Params<E>, deltas: seq<E>, left: seq<E>, right: seq<E>, out: seq<E>,
                              chi: seq<E>, ts: seq<Triples<E>>, msgs: seq<seq<E>>, recs: seq<seq<Lanes<E>>>, rs: seq<E>)
    requires F.Laws() && P.Good() && |left| == |right| == |out| == |chi| >= 1 && |ts| == |deltas| >= 1
    requires Recorded(F, Sum(F, deltas), left, right, out, ts)
    requires var st := InitState(F, P.m, left, right, out, chi);
             && Rounds(P.m, st.len) <= |rs| && Rounds(P.m, st.len) <= |recs| && Fits(P, st.len, msgs, rs)
             && Delivered(F, Sum(F, deltas), |ts|, msgs, recs)
    ensures var st := InitState(F, P.m, left, right, out, chi);
            var o := Outcome(F, P, st, msgs, rs);
            Accepted(F, deltas, Finals(F, P, InitShares(F, P.m, ts, chi), st.len, recs, rs)) <==>
            o.Some? && o.value.2 == F.Mul(o.value.0, o.value.1)
  {
    var st := InitState(F, P.m, left, right, out, chi);
    var shs := InitShares(F, P.m, ts, chi);
    InitSharesHold(F, P.m, Sum(F, deltas), left, right, out, chi, ts);
    hide *;
    VerdictFrom(F, P, deltas, st, shs, msgs, recs, rs);
  }

  lemma VerdictFrom<E(!new)>(F: Field<E>, P: Params<E>, deltas: seq<E>, st: State<E>, shs: seq<Share<E>>,
                             msgs: seq<seq<E>>, recs: seq<seq<Lanes<E>>>, rs: seq<E>)
    requires F.Laws() && P.Good() && Valid(P.m, st) && |shs| == |deltas| >= 1 && Shares(F, Sum(F, deltas), st, shs)
    requires Rounds(P.m, st.len) <= |rs| && Rounds(P.m, st.len) <= |recs| && Fits(P, st.len, msgs, rs)
    requires Delivered(F, Sum(F, deltas), |shs|, msgs, recs)
    ensures var o := Outcome(F, P, st, msgs, rs);
            Accepted(F, deltas, Finals(F, P, shs, st.len, recs, rs)) <==>
            o.Some? && o.value.2 == F.Mul(o.value.0, o.value.1)
  {
    hide Authentic, Shares, Rounds, Outcome, Follow, InStep, Accepted;
    VerifiersFollow(F, P, Sum(F, deltas), st, msgs, shs, recs, rs);
    VerdictOn(F, deltas, Outcome(F, P, st, msgs, rs), Finals(F, P, shs, st.len, recs, rs));
  }

  lemma VerdictOn<E(!new)>(F: Field<E>, deltas: seq<E>, o: Option<(E, E, E)>, fin: seq<Option<Lanes<E>>>)
    requires F.Laws() && |fin| == |deltas| >= 1 && InStep(F, Sum(F, deltas), o, fin)
    ensures Accepted(F, deltas, fin) <==> o.Some? && o.value.2 == F.Mul(o.value.0, o.value.1)
  {
    if o.Some? {
      var shs := seq(|fin|, i requires 0 <= i < |fin| => fin[i].value);
      AcceptsProduct(F, deltas, o.value.0, o.value.1, o.value.2, shs);
    } else {
      assert fin[0] == None;
    }
  }

  /** Completeness: for every list of correct triples, an honest prover is accepted at every list of
      challenges off the interpolation points, with any mask and any sharing of its messages. */
  lemma CheckComplete<E(!new)>(F: Field<E>, P: Params<E>, deltas: seq<E>, left: seq<E>, right: seq<E>, out: seq<E>,
                               chi: seq<E>, ts: seq<Triples<E>>, recs: seq<seq<Lanes<E>>>, rs: seq<E>, mask: (E, E))
    requires F.Laws() && P.Good() && |left| == |right| == |out| == |chi| >= 1 && |ts| == |deltas| >= 1
    requires Recorded(F, Sum(F, deltas), left, right, out, ts)
    requires forall i :: 0 <= i < |left| ==> out[i] == F.Mul(left[i], right[i])
    requires var st := InitState(F, P.m, left, right, out, chi);
             && Rounds(P.m, st.len) <= |rs| && Rounds(P.m, st.len) <= |recs|
             && Delivered(F, Sum(F, deltas), |ts|, ProverRun(F, P, st, rs, mask).sent, recs)
    requires forall i :: 0 <= i < |rs| ==> rs[i] !in P.pts && rs[i] !in P.lastPts
    ensures var st := InitState(F, P.m, left, right, out, chi);
            Accepted(F, deltas, Finals(F, P, InitShares(F, P.m, ts, chi), st.len, recs, rs))
  {
    var st := InitState(F, P.m, left, right, out, chi);
    var run := ProverRun(F, P, st, rs, mask);
    HonestOutcome(F, P, st, rs, mask);
    InitClaim(F, P.m, left, right, out, chi);
    RunComplete(F, P, st, rs, mask);
    NoAbort(F, P, st, rs, mask);
    VerdictExact(F, P, deltas, left, right, out, chi, ts, run.sent, recs, rs);
  }

  lemma {:induction false} NoAbort<E(!new)>(F: Field<E>, P: Params<E>, st: State<E>, rs: seq<E>, mask: (E, E))
    requires P.Good() && Valid(P.m, st) && Rounds(P.m, st.len) <= |rs|
    requires forall i :: 0 <= i < |rs| ==> rs[i] !in P.pts && rs[i] !in P.lastPts
    ensures ProverRun(F, P, st, rs, mask).triple.Some?
    decreases st.len
  {
    if st.len > 1 {
      var h := Report(F, P.pts, P.m, P.m, st.x, st.y, st.len, st.z);
      assert rs[0] !in P.pts;
      NoAbort(F, P, NextState(F, P, st, h, rs[0]), rs[1..], mask);
    } else {
      assert rs[0] !in P.pts && rs[0] !in P.lastPts;
    }
  }
}
