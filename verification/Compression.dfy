/** The multiplication check over whole runs: inner-product reduction, folding rounds until one
    chunk is left, the masked last round, and the opening among the verifiers. */
module Compression {
  import opened Options
  import opened Algebra
  import opened Interpolation
  import opened Folding

  // m chunks a round; m base points and m-1 further ones, and 2m+1 points for the last round.
  datatype Params<!E> = Params(m: nat, pts: seq<E>, lastPts: seq<E>) {
    ghost predicate Good() {
      && 2 <= m
      && |pts| == 2 * m - 1 && Distinct(pts)
      && |lastPts| == 2 * m + 1 && Distinct(lastPts)
    }
  }

  lemma DivisionBounds(a: nat, m: nat)
    requires m >= 1
    ensures var q := a / m; q * m <= a < q * m + m
  {
    assert a == m * (a / m) + a % m;
  }

  lemma ChunksShrink(n: nat, m: nat, len: nat)
    requires m >= 2 && len >= 2 && n * m <= len + m - 1
    ensures n < len
  {
    assert (len - 1) * (m - 1) >= 1;
    assert len * m == (len - 1) * (m - 1) + len + m - 1;
    assert n * m < len * m;
  }

  // How many chunks of m entries cover `len` entries.
  function Chunks(m: nat, len: nat): (n: nat)
    requires m >= 1
    ensures len <= n * m <= len + m - 1
    ensures m >= 2 && len >= 2 ==> n < len
    ensures len >= 1 ==> n >= 1
  {
    var n := (len + m - 1) / m;
    DivisionBounds(len + m - 1, m);
    if m >= 2 && len >= 2 then ChunksShrink(n, m, len); n else n
  }

  function Padded<E(!new)>(F: Field<E>, v: seq<E>, n: nat): (r: seq<E>)
    requires |v| <= n
    ensures |r| == n
  {
    v + Zeros(F, n - |v|)
  }

  datatype State<E> = State(x: seq<E>, y: seq<E>, z: E, len: nat)

  ghost predicate Valid<E>(m: nat, st: State<E>) {
    1 <= st.len && |st.x| == |st.y| == m * st.len
  }

  // The claim under proof.
  ghost predicate Holds<E(!new)>(F: Field<E>, st: State<E>)
    requires |st.x| == |st.y|
  {
    Dot(F, st.x, st.y) == st.z
  }

  // ---- the prover's report and what a verifier makes of it ----

  function Report<E(!new)>(F: Field<E>, pts: seq<E>, q: nat, m: nat, x: seq<E>, y: seq<E>, len: nat, z: E): (h: seq<E>)
    requires 1 <= m <= q <= |pts| && q * len == |x| == |y|
    ensures |h| == |pts|
  {
    seq(|pts|, i requires 0 <= i < |pts| =>
      if i == m - 1 then (InChunkCount(m - 1, q, len); F.Sub(z, Sum(F, ChunkDots(F, x, y, len, m - 1))))
      else if i < q then (InChunkCount(i + 1, q, len); Dot(F, Chunk(x, i, len), Chunk(y, i, len)))
      else FoldedDot(F, pts[..q], x, y, len, pts[i]))
  }

  // The first reported value is not sent: it is what the first m must still add to reach z.
  function Recovered<E(!new)>(F: Field<E>, m: nat, zr: seq<E>): (h: seq<E>)
    requires 1 <= m <= |zr|
    ensures |h| == |zr|
  {
    [F.Sub(zr[0], Sum(F, zr[1..m]))] + zr[1..]
  }

  lemma RecoveredSum<E(!new)>(F: Field<E>, m: nat, zr: seq<E>)
    requires F.Laws() && 1 <= m <= |zr|
    ensures Sum(F, Recovered(F, m, zr)[..m]) == zr[0]
  {
    var h, s := Recovered(F, m, zr), Sum(F, zr[1..m]);
    assert h[..m][1..] == zr[1..m];
    SubLaws(F, zr[0], s);
  }

  // The verifiers recover exactly the value the prover left out, whether or not z is right.
  lemma RecoversReport<E(!new)>(F: Field<E>, pts: seq<E>, q: nat, m: nat, x: seq<E>, y: seq<E>, len: nat, z: E)
    requires F.Laws() && 2 <= m <= q <= |pts| && q * len == |x| == |y|
    ensures Recovered(F, m, [z] + Report(F, pts, q, m, x, y, len, z)[1..]) == Report(F, pts, q, m, x, y, len, z)
  {
    InChunkCount(m - 1, q, len);
    var h, ds := Report(F, pts, q, m, x, y, len, z), ChunkDots(F, x, y, len, m - 1);
    var zr := [z] + h[1..];
    assert zr[1..m] == ds[1..] + [h[m - 1]] by {
      assert |zr[1..m]| == m - 1 == |ds[1..] + [h[m - 1]]|;
      forall i | 0 <= i < m - 1 ensures zr[1..m][i] == (ds[1..] + [h[m - 1]])[i] {
        assert zr[1..m][i] == zr[i + 1] == h[1..][i] == h[i + 1];
      }
    }
    SumSnoc(F, ds[1..], h[m - 1]);
    var a, t := Sum(F, ds[1..]), Sum(F, ds);
    assert h[0] == ds[0] && t == F.Add(h[0], a);
    SubLaws(F, z, t);
    assert At3(h[0], a, F.Sub(z, t));
    SubLaws(F, h[0], F.Add(a, F.Sub(z, t)));
    assert F.Sub(zr[0], Sum(F, zr[1..m])) == h[0];
  }

  lemma {:induction false} ReportIsTrue<E(!new)>(F: Field<E>, pts: seq<E>, q: nat, m: nat, x: seq<E>, y: seq<E>,
                                                 len: nat, z: E)
    requires F.Laws() && 1 <= m <= q <= |pts| && Distinct(pts) && q * len == |x| == |y| && m * len <= |x|
    requires Dot(F, x[..m * len], y[..m * len]) == z
    ensures Reports(F, pts, q, x, y, len, Report(F, pts, q, m, x, y, len, z))
  {
    InChunkCount(m - 1, q, len);
    forall i | 0 <= i < |pts|
      ensures Report(F, pts, q, m, x, y, len, z)[i] == FoldedDot(F, pts[..q], x, y, len, pts[i])
    {
      if i < q {
        InChunkCount(i + 1, q, len);
        ProductAtPoint(F, pts[..q], x, y, len, i);
      }
      if i == m - 1 { LastOfFirst(F, m, x, y, len, z); }
    }
  }

  lemma LastOfFirst<E(!new)>(F: Field<E>, m: nat, x: seq<E>, y: seq<E>, len: nat, z: E)
    requires F.Laws() && 1 <= m && |x| == |y| && m * len <= |x| && (m - 1) * len <= |x|
    requires Dot(F, x[..m * len], y[..m * len]) == z
    ensures (m - 1 + 1) * len <= |x|
    ensures F.Sub(z, Sum(F, ChunkDots(F, x, y, len, m - 1))) == Dot(F, Chunk(x, m - 1, len), Chunk(y, m - 1, len))
  {
    var d := Dot(F, Chunk(x, m - 1, len), Chunk(y, m - 1, len));
    var ds := ChunkDots(F, x, y, len, m - 1);
    assert ChunkDots(F, x, y, len, m) == ds + [d];
    SumSnoc(F, ds, d);
    ChunkDotsSum(F, x, y, len, m);
    assert At2(Sum(F, ds), d);
    SubLaws(F, d, Sum(F, ds));
  }

  // ---- rounds ----

  // Fold to one chunk at challenge r and cut that into chunks again.
  function FoldTo<E(!new)>(F: Field<E>, low: seq<E>, len: nat, size: nat, x: seq<E>): (r: seq<E>)
    requires |low| * len == |x| && len <= size
    ensures |r| == size
  {
    Padded(F, FoldVec(F, x, low, len), size)
  }

  function NextState<E(!new)>(F: Field<E>, P: Params<E>, st: State<E>, h: seq<E>, r: E): (st': State<E>)
    requires 2 <= P.m <= |P.pts| == |h| && |st.x| == |st.y| == P.m * st.len && 2 <= st.len
    ensures st'.len == Chunks(P.m, st.len) < st.len && 1 <= st'.len && |st'.x| == |st'.y| == P.m * st'.len
  {
    var low := LagrangeRow(F, P.pts[..P.m], r);
    var n := Chunks(P.m, st.len);
    State(FoldTo(F, low, st.len, P.m * n, st.x), FoldTo(F, low, st.len, P.m * n, st.y), ValueAt(F, P.pts, h, r), n)
  }

  // What is left to open after the last round, at challenge r.
  function Opening<E(!new)>(F: Field<E>, P: Params<E>, x: seq<E>, y: seq<E>, h: seq<E>, r: E): (E, E, E)
    requires P.m < |P.lastPts| == |h| && |x| == |y| == P.m + 1
  {
    var low := LagrangeRow(F, P.lastPts[..P.m + 1], r);
    (FoldVec(F, x, low, 1)[0], FoldVec(F, y, low, 1)[0], ValueAt(F, P.lastPts, h, r))
  }

  function Rounds(m: nat, len: nat): (n: nat)
    requires m >= 2
    ensures n >= 1
    decreases len
  {
    if len <= 1 then 1 else 1 + Rounds(m, Chunks(m, len))
  }

  // What the prover broadcasts in each round, and the triple left to open unless a challenge
  // fell on an interpolation point.
  datatype Run<E> = Run(sent: seq<seq<E>>, triple: Option<(E, E, E)>)

  function ProverRun<E(==, !new)>(F: Field<E>, P: Params<E>, st: State<E>, rs: seq<E>, mask: (E, E)): (run: Run<E>)
    requires 2 <= P.m && |P.pts| == 2 * P.m - 1 && |P.lastPts| == 2 * P.m + 1
    requires 1 <= st.len && |st.x| == |st.y| == P.m * st.len && Rounds(P.m, st.len) <= |rs|
    decreases st.len
  {
    if st.len > 1 then
      var h := Report(F, P.pts, P.m, P.m, st.x, st.y, st.len, st.z);
      if rs[0] in P.pts then Run([h[1..]], None)
      else
        var rest := ProverRun(F, P, NextState(F, P, st, h, rs[0]), rs[1..], mask);
        Run([h[1..]] + rest.sent, rest.triple)
    else
      var x, y := st.x + [mask.0], st.y + [mask.1];
      var h := Report(F, P.lastPts, P.m + 1, P.m, x, y, 1, st.z);
      var sent := h[1..] + [mask.0, mask.1];
      if rs[0] in P.pts || rs[0] in P.lastPts then Run([sent], None)
      else Run([sent], Some(Opening(F, P, x, y, h, rs[0])))
  }

  // ---- runs on arbitrary messages ----

  // As many messages of the right size as rounds until the run ends or a challenge aborts it.
  ghost predicate Fits<E(!new)>(P: Params<E>, len: nat, msgs: seq<seq<E>>, rs: seq<E>)
    requires 2 <= P.m && 1 <= len
    decreases len
  {
    && 1 <= |msgs| && 1 <= |rs|
    && if len > 1 then
         |msgs[0]| == 2 * P.m - 2 && (rs[0] !in P.pts ==> Fits(P, Chunks(P.m, len), msgs[1..], rs[1..]))
       else |msgs[0]| == 2 * P.m + 2
  }

  // The triple that the messages and challenges leave to open, whoever chose the messages.
  ghost function Outcome<E(!new)>(F: Field<E>, P: Params<E>, st: State<E>, msgs: seq<seq<E>>,
                                  rs: seq<E>): (o: Option<(E, E, E)>)
    requires 2 <= P.m && |P.pts| == 2 * P.m - 1 && |P.lastPts| == 2 * P.m + 1
    requires Valid(P.m, st) && Fits(P, st.len, msgs, rs)
    decreases st.len
  {
    if rs[0] in P.pts then None
    else if st.len > 1 then
      Outcome(F, P, NextState(F, P, st, Recovered(F, P.m, [st.z] + msgs[0]), rs[0]), msgs[1..], rs[1..])
    else if rs[0] in P.lastPts then None
    else Some(LastOpening(F, P, st, msgs[0], rs[0]))
  }

  // The opening from the last message: 2m reported values and the masking pair.
  function LastOpening<E(!new)>(F: Field<E>, P: Params<E>, st: State<E>, msg: seq<E>, r: E): (E, E, E)
    requires 2 <= P.m && |P.lastPts| == 2 * P.m + 1 && |st.x| == |st.y| == P.m && |msg| == 2 * P.m + 2
  {
    Opening(F, P, st.x + [msg[2 * P.m]], st.y + [msg[2 * P.m + 1]], Recovered(F, P.m, [st.z] + msg[..2 * P.m]), r)
  }

  // One of the challenges of a run of that many rounds is a point the polynomials are given at.
  ghost predicate HitsPoint<E(!new)>(P: Params<E>, rounds: nat, rs: seq<E>)
    requires rounds <= |rs|
  {
    exists i :: 0 <= i < rounds && HitAt(P, rounds, rs, i)
  }

  ghost predicate HitAt<E(!new)>(P: Params<E>, rounds: nat, rs: seq<E>, i: nat)
    requires i < rounds <= |rs|
  {
    rs[i] in P.pts || (i == rounds - 1 && rs[i] in P.lastPts)
  }

  lemma HitsLater<E(!new)>(P: Params<E>, rounds: nat, rs: seq<E>, later: seq<E>)
    requires 2 <= rounds <= |rs| && later == rs[1..]
    ensures HitsPoint(P, rounds, rs) <==> rs[0] in P.pts || HitsPoint(P, rounds - 1, later)
  {
    if HitsPoint(P, rounds, rs) {
      var i :| 0 <= i < rounds && HitAt(P, rounds, rs, i);
      if i > 0 { assert HitAt(P, rounds - 1, later, i - 1); }
    }
    if rs[0] in P.pts { assert HitAt(P, rounds, rs, 0); }
    if HitsPoint(P, rounds - 1, later) {
      var i :| 0 <= i < rounds - 1 && HitAt(P, rounds - 1, later, i);
      assert HitAt(P, rounds, rs, i + 1);
    }
  }

  /** Whatever is sent, a run is aborted exactly if one of its challenges is an interpolation point. */
  lemma {:induction false} AbortsExactly<E(!new)>(F: Field<E>, P: Params<E>, st: State<E>, msgs: seq<seq<E>>,
                                                  rs: seq<E>)
    requires 2 <= P.m && |P.pts| == 2 * P.m - 1 && |P.lastPts| == 2 * P.m + 1
    requires Valid(P.m, st) && Fits(P, st.len, msgs, rs) && Rounds(P.m, st.len) <= |rs|
    ensures Outcome(F, P, st, msgs, rs) == None <==> HitsPoint(P, Rounds(P.m, st.len), rs)
    decreases st.len
  {
    hide NextState, Recovered, LastOpening, HitsPoint;
    if st.len > 1 {
      assert Rounds(P.m, st.len) == 1 + Rounds(P.m, Chunks(P.m, st.len));
      HitsLater(P, Rounds(P.m, st.len), rs, rs[1..]);
      if rs[0] !in P.pts {
        var next := NextState(F, P, st, Recovered(F, P.m, [st.z] + msgs[0]), rs[0]);
        AbortsExactly(F, P, next, msgs[1..], rs[1..]);
      }
    } else {
      HitsOnce(P, rs);
    }
  }

  lemma HitsOnce<E(!new)>(P: Params<E>, rs: seq<E>)
    requires 1 <= |rs|
    ensures HitsPoint(P, 1, rs) <==> rs[0] in P.pts || rs[0] in P.lastPts
  {
    assert HitAt(P, 1, rs, 0) <==> rs[0] in P.pts || rs[0] in P.lastPts;
  }

  /** The honest prover's messages have the outcome the prover computes. */
  lemma {:induction false} HonestOutcome<E(!new)>(F: Field<E>, P: Params<E>, st: State<E>, rs: seq<E>, mask: (E, E))
    requires F.Laws() && P.Good() && Valid(P.m, st) && Rounds(P.m, st.len) <= |rs|
    ensures Fits(P, st.len, ProverRun(F, P, st, rs, mask).sent, rs)
    ensures Outcome(F, P, st, ProverRun(F, P, st, rs, mask).sent, rs) == ProverRun(F, P, st, rs, mask).triple
    decreases st.len
  {
    var run := ProverRun(F, P, st, rs, mask);
    if st.len > 1 {
      var h := Report(F, P.pts, P.m, P.m, st.x, st.y, st.len, st.z);
      RecoversReport(F, P.pts, P.m, P.m, st.x, st.y, st.len, st.z);
      if rs[0] !in P.pts {
        var next := NextState(F, P, st, h, rs[0]);
        HonestOutcome(F, P, next, rs[1..], mask);
        assert run.sent[1..] == ProverRun(F, P, next, rs[1..], mask).sent;
      }
    } else {
      HonestOpening(F, P, st, rs, mask);
    }
  }

  lemma HonestOpening<E(!new)>(F: Field<E>, P: Params<E>, st: State<E>, rs: seq<E>, mask: (E, E))
    requires F.Laws() && P.Good() && Valid(P.m, st) && st.len == 1 && 1 <= |rs|
    ensures Fits(P, st.len, ProverRun(F, P, st, rs, mask).sent, rs)
    ensures Outcome(F, P, st, ProverRun(F, P, st, rs, mask).sent, rs) == ProverRun(F, P, st, rs, mask).triple
  {
    var x, y := st.x + [mask.0], st.y + [mask.1];
    var h := Report(F, P.lastPts, P.m + 1, P.m, x, y, 1, st.z);
    RecoversReport(F, P.lastPts, P.m + 1, P.m, x, y, 1, st.z);
    hide Report, Opening, Recovered;
    var sent := h[1..] + [mask.0, mask.1];
    assert sent[..2 * P.m] == h[1..] && sent[2 * P.m] == mask.0 && sent[2 * P.m + 1] == mask.1;
  }

  /** Completeness of one fold: the claim survives, at every challenge. */
  lemma FoldKeepsClaim<E(!new)>(F: Field<E>, P: Params<E>, st: State<E>, r: E)
    requires F.Laws() && P.Good() && 2 <= st.len && Valid(P.m, st) && Holds(F, st)
    ensures Holds(F, NextState(F, P, st, Report(F, P.pts, P.m, P.m, st.x, st.y, st.len, st.z), r))
  {
    var h := Report(F, P.pts, P.m, P.m, st.x, st.y, st.len, st.z);
    assert st.x[..P.m * st.len] == st.x && st.y[..P.m * st.len] == st.y;
    ReportIsTrue(F, P.pts, P.m, P.m, st.x, st.y, st.len, st.z);
    ReportFolds(F, P.pts, P.m, st.x, st.y, st.len, h, r);
    var low := LagrangeRow(F, P.pts[..P.m], r);
    PaddedDot(F, FoldVec(F, st.x, low, st.len), FoldVec(F, st.y, low, st.len), P.m * Chunks(P.m, st.len));
  }

  lemma PaddedDot<E(!new)>(F: Field<E>, x: seq<E>, y: seq<E>, n: nat)
    requires F.Laws() && |x| == |y| <= n
    ensures Dot(F, Padded(F, x, n), Padded(F, y, n)) == Dot(F, x, y)
  {
    var z := Zeros(F, n - |x|);
    DotAppend(F, x, y, z, z);
    DotZeros(F, z);
    Zero(F, Dot(F, x, y));
  }

  lemma OpeningDot<E(!new)>(F: Field<E>, pts: seq<E>, x: seq<E>, y: seq<E>, r: E)
    requires F.Laws() && |pts| == |x| == |y|
    ensures var low := LagrangeRow(F, pts, r);
            F.Mul(FoldVec(F, x, low, 1)[0], FoldVec(F, y, low, 1)[0]) == FoldedDot(F, pts, x, y, 1, r)
  {
    var low := LagrangeRow(F, pts, r);
    var a, b := FoldVec(F, x, low, 1), FoldVec(F, y, low, 1);
    assert Dot(F, a, b) == F.Add(F.Mul(a[0], b[0]), Dot(F, a[1..], b[1..]));
    Zero(F, F.Mul(a[0], b[0]));
  }

  /** Completeness over whole runs: a true claim opens to z = x * y, for every list of
      challenges on which the run does not abort and every mask. */
  lemma {:induction false} RunComplete<E(!new)>(F: Field<E>, P: Params<E>, st: State<E>, rs: seq<E>, mask: (E, E))
    requires F.Laws() && P.Good() && Valid(P.m, st) && Rounds(P.m, st.len) <= |rs| && Holds(F, st)
    ensures var o := ProverRun(F, P, st, rs, mask).triple;
            o.Some? ==> o.value.2 == F.Mul(o.value.0, o.value.1)
    decreases st.len
  {
    if st.len > 1 {
      if rs[0] !in P.pts {
        FoldKeepsClaim(F, P, st, rs[0]);
        RunComplete(F, P, NextState(F, P, st, Report(F, P.pts, P.m, P.m, st.x, st.y, st.len, st.z), rs[0]), rs[1..],
                    mask);
      }
    } else {
      OpeningComplete(F, P, st, rs[0], mask);
    }
  }

  lemma OpeningComplete<E(!new)>(F: Field<E>, P: Params<E>, st: State<E>, r: E, mask: (E, E))
    requires F.Laws() && P.Good() && Valid(P.m, st) && st.len == 1 && Holds(F, st)
    ensures var x, y := st.x + [mask.0], st.y + [mask.1];
            var o := Opening(F, P, x, y, Report(F, P.lastPts, P.m + 1, P.m, x, y, 1, st.z), r);
            o.2 == F.Mul(o.0, o.1)
  {
    hide Report, FoldVec, FoldedDot, LagrangeRow, ValueAt, Dot, Distinct, Reports;
    var x, y := st.x + [mask.0], st.y + [mask.1];
    assert x[..P.m * 1] == st.x && y[..P.m * 1] == st.y;
    var h := Report(F, P.lastPts, P.m + 1, P.m, x, y, 1, st.z);
    ReportIsTrue(F, P.lastPts, P.m + 1, P.m, x, y, 1, st.z);
    ReportFolds(F, P.lastPts, P.m + 1, x, y, 1, h, r);
    OpeningDot(F, P.lastPts[..P.m + 1], x, y, r);
  }

  /** Soundness of one fold: of a false claim, whatever the prover sends, at most 2m-2 challenges
      make a true one. */
  lemma RoundSoundness<E(!new)>(F: Field<E>, P: Params<E>, st: State<E>, rec: seq<E>, lucky: set<E>)
    requires F.Laws() && P.Good() && 2 <= st.len && Valid(P.m, st) && |rec| == 2 * P.m - 2
    requires !Holds(F, st)
    requires forall r :: r in lucky ==> Holds(F, NextState(F, P, st, Recovered(F, P.m, [st.z] + rec), r))
    ensures |lucky| <= 2 * P.m - 2
  {
    var h := Recovered(F, P.m, [st.z] + rec);
    RecoveredSum(F, P.m, [st.z] + rec);
    assert st.x[..P.m * st.len] == st.x && st.y[..P.m * st.len] == st.y;
    forall r | r in lucky ensures ValueAt(F, P.pts, h, r) == FoldedDot(F, P.pts[..P.m], st.x, st.y, st.len, r) {
      var low := LagrangeRow(F, P.pts[..P.m], r);
      assert Holds(F, NextState(F, P, st, h, r));
      PaddedDot(F, FoldVec(F, st.x, low, st.len), FoldVec(F, st.y, low, st.len), P.m * Chunks(P.m, st.len));
    }
    FoldSoundness(F, P.pts, P.m, P.m, st.x, st.y, st.len, h, st.z, lucky);
  }

  // A challenge at which the opening is a product.
  lemma OpenedIsFolded<E(!new)>(F: Field<E>, P: Params<E>, x: seq<E>, y: seq<E>, h: seq<E>, r: E)
    requires F.Laws() && |P.lastPts| == 2 * P.m + 1 == |h| && |x| == |y| == P.m + 1
    requires var o := Opening(F, P, x, y, h, r); o.2 == F.Mul(o.0, o.1)
    ensures ValueAt(F, P.lastPts, h, r) == FoldedDot(F, P.lastPts[..P.m + 1], x, y, 1, r)
  {
    hide ValueAt, FoldedDot, FoldVec, LagrangeRow;
    OpeningDot(F, P.lastPts[..P.m + 1], x, y, r);
  }

  /** Soundness of the last round: of a false claim, whatever the prover sends and whatever pair
      masks the opening, at most 2m challenges open to z = x * y. */
  lemma LastRoundSoundness<E(!new)>(F: Field<E>, P: Params<E>, st: State<E>, rec: seq<E>, mask: (E, E), lucky: set<E>)
    requires F.Laws() && P.Good() && st.len == 1 && Valid(P.m, st) && |rec| == 2 * P.m
    requires !Holds(F, st)
    requires forall r :: r in lucky ==>
               var o := Opening(F, P, st.x + [mask.0], st.y + [mask.1], Recovered(F, P.m, [st.z] + rec), r);
               o.2 == F.Mul(o.0, o.1)
    ensures |lucky| <= 2 * P.m
  {
    var h, x, y := Recovered(F, P.m, [st.z] + rec), st.x + [mask.0], st.y + [mask.1];
    RecoveredSum(F, P.m, [st.z] + rec);
    assert x[..P.m * 1] == st.x && y[..P.m * 1] == st.y;
    assert Distinct(P.lastPts) && 2 <= P.m && |P.lastPts| == 2 * (P.m + 1) - 1 == |h|;
    assert Dot(F, x[..P.m * 1], y[..P.m * 1]) != st.z;
    hide *;
    forall r | r in lucky ensures ValueAt(F, P.lastPts, h, r) == FoldedDot(F, P.lastPts[..P.m + 1], x, y, 1, r) {
      OpenedIsFolded(F, P, x, y, h, r);
    }
    FoldSoundness(F, P.lastPts, P.m + 1, P.m, x, y, 1, h, st.z, lucky);
  }

  // ---- the inner-product reduction ----

  function InitState<E(!new)>(F: Field<E>, m: nat, left: seq<E>, right: seq<E>, out: seq<E>,
                              chi: seq<E>): (st: State<E>)
    requires m >= 1 && |left| == |right| == |out| == |chi| >= 1
    ensures Valid(m, st)
  {
    var n := Chunks(m, |left|);
    State(Padded(F, Hadamard(F, left, chi), m * n), Padded(F, right, m * n), Dot(F, out, chi), n)
  }

  // What is wrong with each triple.
  function Defects<E(!new)>(F: Field<E>, left: seq<E>, right: seq<E>, out: seq<E>): (r: seq<E>)
    requires |left| == |right| == |out|
    ensures |r| == |left|
  {
    seq(|left|, i requires 0 <= i < |left| => F.Sub(out[i], F.Mul(left[i], right[i])))
  }

  lemma {:induction false} DefectsDot<E(!new)>(F: Field<E>, left: seq<E>, right: seq<E>, out: seq<E>, chi: seq<E>)
    requires F.Laws() && |left| == |right| == |out| == |chi|
    ensures F.Add(Dot(F, Defects(F, left, right, out), chi), Dot(F, Hadamard(F, left, chi), right)) == Dot(F, out, chi)
  {
    if left == [] {
      Zero(F, F.zero);
    } else {
      DefectsDot(F, left[1..], right[1..], out[1..], chi[1..]);
      assert Defects(F, left, right, out)[1..] == Defects(F, left[1..], right[1..], out[1..]);
      assert Hadamard(F, left, chi)[1..] == Hadamard(F, left[1..], chi[1..]);
      var d, l, r, c := Defects(F, left, right, out)[0], left[0], right[0], chi[0];
      SubLaws(F, out[0], F.Mul(l, r));
      var s, t := Dot(F, Defects(F, left[1..], right[1..], out[1..]), chi[1..]), Dot(F,
          Hadamard(F, left[1..], chi[1..]), right[1..]);
      DefectStep(F, d, l, r, c, s, t);
    }
  }

  lemma DefectStep<E(!new)>(F: Field<E>, d: E, l: E, r: E, c: E, s: E, t: E)
    requires F.Laws()
    ensures F.Add(F.Add(F.Mul(d, c), s), F.Add(F.Mul(F.Mul(l, c), r), t))
         == F.Add(F.Mul(F.Add(d, F.Mul(l, r)), c), F.Add(s, t))
  {
    Ring(F);
  }

  /** The reduced claim holds exactly when the random combination of the triples' defects is zero;
      so it holds for every chi when every triple is right. */
  lemma InitClaim<E(!new)>(F: Field<E>, m: nat, left: seq<E>, right: seq<E>, out: seq<E>, chi: seq<E>)
    requires F.Laws() && m >= 1 && |left| == |right| == |out| == |chi| >= 1
    ensures Holds(F, InitState(F, m, left, right, out, chi)) <==> Dot(F, Defects(F, left, right, out), chi) == F.zero
    ensures (forall i :: 0 <= i < |left| ==> out[i] == F.Mul(left[i], right[i])) ==>
              Holds(F, InitState(F, m, left, right, out, chi))
  {
    var d := Dot(F, Defects(F, left, right, out), chi);
    var ip := Dot(F, Hadamard(F, left, chi), right);
    PaddedDot(F, Hadamard(F, left, chi), right, m * Chunks(m, |left|));
    DefectsDot(F, left, right, out, chi);
    Zero(F, ip);
    if ip == Dot(F, out, chi) { Cancel(F, d, F.zero, ip); }
    if forall i :: 0 <= i < |left| ==> out[i] == F.Mul(left[i], right[i]) {
      forall i | 0 <= i < |left| ensures Defects(F, left, right, out)[i] == F.zero {
        SubLaws(F, out[i], F.Mul(left[i], right[i]));
      }
      assert Defects(F, left, right, out) == Zeros(F, |left|);
      DotComm(F, Zeros(F, |left|), chi);
      DotZeros(F, chi);
    }
  }

  /** Soundness of the reduction: if triple j is wrong then, the other coefficients fixed, at most
      one value of chi_j makes the reduced claim hold. */
  lemma InitSoundness<E(!new)>(F: Field<E>, m: nat, left: seq<E>, right: seq<E>, out: seq<E>, chi: seq<E>, j: nat,
                               a: E, b: E)
    requires F.Laws() && m >= 1 && |left| == |right| == |out| == |chi| >= 1
    requires j < |left| && out[j] != F.Mul(left[j], right[j])
    requires Holds(F, InitState(F, m, left, right, out, chi[j := a]))
    requires Holds(F, InitState(F, m, left, right, out, chi[j := b]))
    ensures a == b
  {
    var d := Defects(F, left, right, out);
    InitClaim(F, m, left, right, out, chi[j := a]);
    InitClaim(F, m, left, right, out, chi[j := b]);
    SubLaws(F, out[j], F.Mul(left[j], right[j]));
    OneCoefficient(F, d, chi, j, a, b);
  }
}
