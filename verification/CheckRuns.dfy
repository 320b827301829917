/** The two sides of the multiplication check as the code runs them: the prover's fold loop with its
    last round, and a verifier's on its three lanes. */
module CheckRuns {
  import opened Options
  import opened Algebra
  import opened Interpolation
  import opened AuthShares
  import opened Compression
  import opened VerifierRun
  import opened PolyConversions
  import opened LagrangeTables
  import opened CompressionLoops

  // Precomputed tables of both sides.
  ghost predicate CheckTables<E(!new)>(F: Field<E>, P: Params<E>, lowDiv: seq<E>, highDiv: seq<E>, lastLowDiv: seq<E>,
                                       lastHighDiv: seq<E>) {
    && F.Laws() && P.Good()
    && lowDiv == Divisors(F, P.pts[..P.m]) && highDiv == Divisors(F, P.pts)
    && lastLowDiv == Divisors(F, P.lastPts[..P.m + 1]) && lastHighDiv == Divisors(F, P.lastPts)
  }

  // ---- prover ----

  method InitLoop<E(!new)>(F: Field<E>, m: nat, left: seq<E>, right: seq<E>, out: seq<E>, chi: seq<E>)
    returns (st: State<E>)
    requires F.Laws() && m >= 1 && |left| == |right| == |out| == |chi| >= 1
    ensures st == InitState(F, m, left, right, out, chi)
  {
    var x, y, z := [], [], F.zero;
    for i := 0 to |left|
      invariant x == Hadamard(F, left, chi)[..i] && y == right[..i] && z == Dot(F, out[..i], chi[..i])
    {
      DotTake(F, out, chi, i);
      x := x + [F.Mul(left[i], chi[i])];
      y := y + [right[i]];
      z := F.Add(z, F.Mul(out[i], chi[i]));
    }
    assert out[..|out|] == out && chi[..|out|] == chi && right[..|out|] == right;
    var n := Chunks(m, |left|);
    st := State(Padded(F, x, m * n), Padded(F, y, m * n), z, n);
  }

  method Fold<E(!new)>(F: Field<E>, P: Params<E>, lowDiv: seq<E>, highDiv: seq<E>, st: State<E>, h: seq<E>, r: E)
    returns (next: State<E>)
    requires F.Laws() && 2 <= P.m <= |P.pts| == |h| && |st.x| == |st.y| == P.m * st.len && 2 <= st.len
    requires lowDiv == Divisors(F, P.pts[..P.m]) && highDiv == Divisors(F, P.pts)
    ensures next == NextState(F, P, st, h, r)
  {
    var low := ComputeLagCoeff(F, P.pts[..P.m], lowDiv, r);
    var high := ComputeLagCoeff(F, P.pts, highDiv, r);
    var n := Chunks(P.m, st.len);
    var x := FoldToLoop(F, low, st.len, P.m * n, st.x);
    var y := FoldToLoop(F, low, st.len, P.m * n, st.y);
    var z := ValueLoop(F, high, h, P.pts, r);
    next := State(x, y, z, n);
  }

  method OpenLast<E(!new)>(F: Field<E>, P: Params<E>, lowDiv: seq<E>, highDiv: seq<E>, x: seq<E>, y: seq<E>, h: seq<E>,
                           r: E) returns (o: (E, E, E))
    requires F.Laws() && P.m < |P.lastPts| == |h| && |x| == |y| == P.m + 1
    requires lowDiv == Divisors(F, P.lastPts[..P.m + 1]) && highDiv == Divisors(F, P.lastPts)
    ensures o == Opening(F, P, x, y, h, r)
  {
    var low := ComputeLagCoeff(F, P.lastPts[..P.m + 1], lowDiv, r);
    var high := ComputeLagCoeff(F, P.lastPts, highDiv, r);
    var xs := FoldLoop(F, x, low, 1);
    var ys := FoldLoop(F, y, low, 1);
    var z := ValueLoop(F, high, h, P.lastPts, r);
    o := (xs[0], ys[0], z);
  }

  // After k rounds with `sent` broadcast, the state st is what is left of the run from st0.
  ghost predicate Midway<E(!new)>(F: Field<E>, P: Params<E>, st0: State<E>, rs: seq<E>, mask: (E, E),
                                  sent: seq<seq<E>>, st: State<E>, k: nat) {
    && 2 <= P.m && |P.pts| == 2 * P.m - 1 && |P.lastPts| == 2 * P.m + 1
    && Valid(P.m, st0) && Rounds(P.m, st0.len) <= |rs|
    && Valid(P.m, st) && k <= |rs| && Rounds(P.m, st.len) <= |rs| - k
    && var rest := ProverRun(F, P, st, rs[k..], mask);
       ProverRun(F, P, st0, rs, mask) == Run(sent + rest.sent, rest.triple)
  }

  lemma MidwayStart<E(!new)>(F: Field<E>, P: Params<E>, st: State<E>, rs: seq<E>, mask: (E, E))
    requires P.Good() && Valid(P.m, st) && Rounds(P.m, st.len) <= |rs|
    ensures Midway(F, P, st, rs, mask, [], st, 0)
  {
    assert rs[0..] == rs;
    var run := ProverRun(F, P, st, rs, mask);
    assert [] + run.sent == run.sent;
  }

  lemma MidwayStep<E(!new)>(F: Field<E>, P: Params<E>, st0: State<E>, rs: seq<E>, mask: (E, E), sent: seq<seq<E>>,
                            st: State<E>, k: nat, h: seq<E>)
    requires Midway(F, P, st0, rs, mask, sent, st, k) && 2 <= st.len
    requires h == Report(F, P.pts, P.m, P.m, st.x, st.y, st.len, st.z)
    ensures k < |rs|
    ensures rs[k] in P.pts ==> ProverRun(F, P, st0, rs, mask) == Run(sent + [h[1..]], None)
    ensures rs[k] !in P.pts ==> Midway(F, P, st0, rs, mask, sent + [h[1..]], NextState(F, P, st, h, rs[k]), k + 1)
  {
    hide Report, NextState, Chunks;
    assert rs[k..][0] == rs[k] && rs[k..][1..] == rs[k + 1..];
    if rs[k] !in P.pts {
      var rest := ProverRun(F, P, NextState(F, P, st, h, rs[k]), rs[k + 1..], mask);
      assert sent + ([h[1..]] + rest.sent) == (sent + [h[1..]]) + rest.sent;
    }
  }

  lemma MidwayEnd<E(!new)>(F: Field<E>, P: Params<E>, st0: State<E>, rs: seq<E>, mask: (E, E), sent: seq<seq<E>>,
                           st: State<E>, k: nat)
    requires Midway(F, P, st0, rs, mask, sent, st, k) && st.len == 1
    ensures k < |rs|
    ensures var x, y := st.x + [mask.0], st.y + [mask.1];
            var h := Report(F, P.lastPts, P.m + 1, P.m, x, y, 1, st.z);
            ProverRun(F, P, st0, rs, mask)
              == Run(sent + [h[1..] + [mask.0, mask.1]],
                     if rs[k] in P.pts || rs[k] in P.lastPts then None else Some(Opening(F, P, x, y, h, rs[k])))
  {
    hide Report, Opening, Rounds, Chunks;
    assert rs[k..][0] == rs[k];
  }

  lemma MidwayParts<E(!new)>(F: Field<E>, P: Params<E>, st0: State<E>, rs: seq<E>, mask: (E, E), sent: seq<seq<E>>,
                             st: State<E>, k: nat)
    requires Midway(F, P, st0, rs, mask, sent, st, k)
    ensures Valid(P.m, st) && 1 <= st.len && |st.x| == |st.y| == P.m * st.len
  {
  }

  // What either side is set up with.
  ghost predicate Equipped<E(!new)>(F: Field<E>, P: Params<E>, poly: Poly<E>, rows: seq<seq<E>>, tables: Tables<E>)
    reads poly, poly.nttN, poly.nttK
  {
    && CheckTables(F, P, tables.low, tables.high, tables.lastLow, tables.lastHigh)
    && poly.F == F && RoundPoints(P, poly) && LastTable(F, P, rows)
  }

  datatype Tables<E> = Tables(low: seq<E>, high: seq<E>, lastLow: seq<E>, lastHigh: seq<E>)

  method ProverRound<E(==, !new)>(F: Field<E>, P: Params<E>, poly: Poly<E>, ghost rows: seq<seq<E>>, tables: Tables<E>,
                                  ghost st0: State<E>, rs: seq<E>, ghost mask: (E, E), ghost sent: seq<seq<E>>,
                                  st: State<E>, k: nat)
    returns (msg: seq<E>, next: Option<State<E>>)
    requires Equipped(F, P, poly, rows, tables) && Midway(F, P, st0, rs, mask, sent, st, k) && 2 <= st.len
    ensures k < |rs|
    ensures next.None? ==> Ends(F, P, st0, rs, mask, Run(sent + [msg], None))
    ensures next.Some? ==> Midway(F, P, st0, rs, mask, sent + [msg], next.value, k + 1) && next.value.len < st.len
  {
    var h := RoundReport(P, poly, st.x, st.y, st.len, st.z);
    MidwayStep(F, P, st0, rs, mask, sent, st, k, h);
    msg := h[1..];
    if rs[k] in P.pts { return msg, None; }
    var st' := Fold(F, P, tables.low, tables.high, st, h, rs[k]);
    next := Some(st');
  }

  method ProverLast<E(==, !new)>(F: Field<E>, P: Params<E>, ghost poly: Poly<E>, rows: seq<seq<E>>, tables: Tables<E>,
                                 ghost st0: State<E>, rs: seq<E>, mask: (E, E), sent: seq<seq<E>>, st: State<E>,
                                 k: nat) returns (run: Run<E>)
    requires Equipped(F, P, poly, rows, tables) && Midway(F, P, st0, rs, mask, sent, st, k) && st.len == 1
    ensures Ends(F, P, st0, rs, mask, run)
  {
    MidwayEnd(F, P, st0, rs, mask, sent, st, k);
    assert F.Laws() && P.m >= 2 && |P.pts| == 2 * P.m - 1 && |P.lastPts| == 2 * P.m + 1 && LastTable(F, P, rows)
        && |st.x| == |st.y| == P.m && Valid(P.m, st0) && Rounds(P.m, st0.len) <= |rs|
        && tables.lastLow == Divisors(F, P.lastPts[..P.m + 1]) && tables.lastHigh == Divisors(F, P.lastPts);
    assert k < |rs|;
    hide *;
    var x, y := st.x + [mask.0], st.y + [mask.1];
    var h := LastReport(F, P, rows, x, y, st.z);
    var sent' := sent + [h[1..] + [mask.0, mask.1]];
    if rs[k] in P.pts || rs[k] in P.lastPts { return Run(sent', None); }
    var o := OpenLast(F, P, tables.lastLow, tables.lastHigh, x, y, h, rs[k]);
    run := Run(sent', Some(o));
  }

  ghost predicate Ends<E(!new)>(F: Field<E>, P: Params<E>, st0: State<E>, rs: seq<E>, mask: (E, E), run: Run<E>) {
    && 2 <= P.m && |P.pts| == 2 * P.m - 1 && |P.lastPts| == 2 * P.m + 1
    && Valid(P.m, st0) && Rounds(P.m, st0.len) <= |rs| && run == ProverRun(F, P, st0, rs, mask)
  }

  lemma EquippedParts<E(!new)>(F: Field<E>, P: Params<E>, poly: Poly<E>, rows: seq<seq<E>>, tables: Tables<E>)
    requires Equipped(F, P, poly, rows, tables)
    ensures F.Laws() && P.Good() && P.m >= 2
  {
  }

  /** The prover's part of a check: the messages and the opening of its run, for every list of
      challenges. */
  method ProverCheck<E(==, !new)>(F: Field<E>, P: Params<E>, poly: Poly<E>, rows: seq<seq<E>>, tables: Tables<E>,
                                  left: seq<E>, right: seq<E>, out: seq<E>, chi: seq<E>, rs: seq<E>,
                                  mask: (E, E)) returns (run: Run<E>)
    requires Equipped(F, P, poly, rows, tables) && |left| == |right| == |out| == |chi| >= 1
    requires P.m >= 2 && Rounds(P.m, InitState(F, P.m, left, right, out, chi).len) <= |rs|
    ensures Ends(F, P, InitState(F, P.m, left, right, out, chi), rs, mask, run)
  {
    hide *;
    EquippedParts(F, P, poly, rows, tables);
    var st := InitLoop(F, P.m, left, right, out, chi);
    ghost var st0 := st;
    var sent: seq<seq<E>>, k := [], 0;
    MidwayStart(F, P, st, rs, mask);
    MidwayParts(F, P, st0, rs, mask, sent, st, k);
    while st.len > 1
      invariant 0 <= k && 1 <= st.len && Midway(F, P, st0, rs, mask, sent, st, k)
      decreases st.len
    {
      var msg, next := ProverRound(F, P, poly, rows, tables, st0, rs, mask, sent, st, k);
      sent := sent + [msg];
      if next.None? { return Run(sent, None); }
      st, k := next.value, k + 1;
      MidwayParts(F, P, st0, rs, mask, sent, st, k);
    }
    run := ProverLast(F, P, poly, rows, tables, st0, rs, mask, sent, st, k);
  }

  // ---- verifier ----

  ghost predicate LaneSize<E>(n: nat, sh: Lanes<E>) {
    |sh.mac| == |sh.key| == |sh.val| == n
  }

  ghost predicate ShareSize<E>(m: nat, len: nat, sh: Share<E>) {
    LaneSize(m * len, sh.x) && LaneSize(m * len, sh.y) && LaneSize(1, sh.z)
  }

  // Messages of the sizes that a verifier reads, round by round.
  ghost predicate MessageSizes<E>(m: nat, len: nat, recs: seq<Lanes<E>>)
    requires 2 <= m && 1 <= len
    decreases len
  {
    && recs != []
    && if len > 1 then LaneSize(2 * m - 2, recs[0]) && MessageSizes(m, Chunks(m, len), recs[1..])
       else LaneSize(2 * m + 2, recs[0])
  }

  method FoldLanes<E(!new)>(F: Field<E>, low: seq<E>, len: nat, size: nat, sh: Lanes<E>) returns (r: Lanes<E>)
    requires F.Laws() && LaneSize(|low| * len, sh) && len <= size
    ensures r == MapLanes(FoldMap(F, low, len, size), sh) && LaneSize(size, r)
  {
    var mac := FoldToLoop(F, low, len, size, sh.mac);
    var key := FoldToLoop(F, low, len, size, sh.key);
    var val := FoldToLoop(F, low, len, size, sh.val);
    r := Lanes(mac, key, val);
  }

  // The first reported value from z and the next m - 1; the others as received.
  method RecoverLoop<E(!new)>(F: Field<E>, m: nat, z: E, rec: seq<E>) returns (h: seq<E>)
    requires F.Laws() && 1 <= m <= |rec| + 1
    ensures h == Recovered(F, m, [z] + rec)
  {
    var rest := z;
    SubZero(F, z);
    for i := 1 to m
      invariant rest == F.Sub(z, Sum(F, rec[..i - 1]))
    {
      SumTake(F, rec, i - 1);
      SubBoth(F, z, Sum(F, rec[..i - 1]), rec[i - 1]);
      rest := F.Sub(rest, rec[i - 1]);
    }
    assert ([z] + rec)[1..m] == rec[..m - 1] && ([z] + rec)[1..] == rec;
    h := [rest] + rec;
  }

  method ReportValue<E(!new)>(F: Field<E>, m: nat, high: seq<E>, z: seq<E>, rec: seq<E>) returns (r: seq<E>)
    requires F.Laws() && |z| == 1 && 1 <= m <= |rec| + 1 == |high|
    ensures r == ReportMap(F, m, high)(z + rec) && |r| == 1
  {
    var h := RecoverLoop(F, m, z[0], rec);
    var v := DotLoop(F, h, high);
    DotComm(F, h, high);
    assert z + rec == [z[0]] + rec;
    r := [v];
  }

  method ReportLanes<E(!new)>(F: Field<E>, m: nat, high: seq<E>, z: Lanes<E>, rec: Lanes<E>) returns (r: Lanes<E>)
    requires F.Laws() && LaneSize(1, z) && 1 <= m <= |high| && LaneSize(|high| - 1, rec)
    ensures r == MapLanes(ReportMap(F, m, high), JoinLanes(z, rec)) && LaneSize(1, r)
  {
    var mac := ReportValue(F, m, high, z.mac, rec.mac);
    var key := ReportValue(F, m, high, z.key, rec.key);
    var val := ReportValue(F, m, high, z.val, rec.val);
    r := Lanes(mac, key, val);
  }

  method VerifierFold<E(!new)>(F: Field<E>, P: Params<E>, tables: Tables<E>, sh: Share<E>, len: nat, rec: Lanes<E>,
                               r: E) returns (next: Share<E>)
    requires CheckTables(F, P, tables.low, tables.high, tables.lastLow, tables.lastHigh)
    requires 2 <= len && ShareSize(P.m, len, sh) && LaneSize(2 * P.m - 2, rec)
    ensures 2 <= P.m <= |P.pts| && next == NextShare(F, P, sh, len, rec, r) && ShareSize(P.m, Chunks(P.m, len), next)
  {
    var low := ComputeLagCoeff(F, P.pts[..P.m], tables.low, r);
    var high := ComputeLagCoeff(F, P.pts, tables.high, r);
    var n := Chunks(P.m, len);
    var x := FoldLanes(F, low, len, P.m * n, sh.x);
    var y := FoldLanes(F, low, len, P.m * n, sh.y);
    var z := ReportLanes(F, P.m, high, sh.z, rec);
    next := Share(x, y, z);
  }

  function LaneSlice<E>(sh: Lanes<E>, lo: nat, hi: nat): Lanes<E>
    requires lo <= hi <= |sh.mac| && hi <= |sh.key| && hi <= |sh.val|
  {
    Lanes(sh.mac[lo..hi], sh.key[lo..hi], sh.val[lo..hi])
  }

  lemma SliceIs<E>(sh: Lanes<E>, n: nat, lo: nat, hi: nat)
    requires LaneSize(n, sh) && lo <= hi <= n
    ensures LaneSlice(sh, lo, hi) == MapLanes(SliceMap(n, lo, hi), sh) && LaneSize(hi - lo, LaneSlice(sh, lo, hi))
  {
  }

  method OpenVec<E(!new)>(F: Field<E>, P: Params<E>, low: seq<E>, x: Lanes<E>, rec: Lanes<E>, at: nat, ghost r: E)
    returns (v: Lanes<E>)
    requires F.Laws() && P.m < |P.lastPts| && low == LagrangeRow(F, P.lastPts[..P.m + 1], r) && |low| == P.m + 1
    requires LaneSize(P.m, x) && LaneSize(2 * P.m + 2, rec) && at < 2 * P.m + 2
    ensures v == OpeningVec(F, P, x, rec, at, r)
  {
    SliceIs(rec, 2 * P.m + 2, at, at + 1);
    var joined := JoinLanes(x, LaneSlice(rec, at, at + 1));
    assert LaneSize((P.m + 1) * 1, joined);
    hide FoldMap, SliceMap, LaneSlice, LagrangeRow, MapLanes, JoinLanes;
    v := FoldLanes(F, low, 1, 1, joined);
  }

  method OpenValue<E(!new)>(F: Field<E>, P: Params<E>, high: seq<E>, z: Lanes<E>, rec: Lanes<E>, ghost r: E)
    returns (v: Lanes<E>)
    requires F.Laws() && 1 <= P.m && high == LagrangeRow(F, P.lastPts, r) && |high| == 2 * P.m + 1
    requires LaneSize(1, z) && LaneSize(2 * P.m + 2, rec)
    ensures v == OpeningValue(F, P, z, rec, r)
  {
    SliceIs(rec, 2 * P.m + 2, 0, 2 * P.m);
    hide ReportMap, SliceMap, LaneSlice, LagrangeRow, MapLanes, JoinLanes;
    v := ReportLanes(F, P.m, high, z, LaneSlice(rec, 0, 2 * P.m));
  }

  lemma ShareParts<E>(m: nat, sh: Share<E>)
    requires ShareSize(m, 1, sh)
    ensures LaneSize(m, sh.x) && LaneSize(m, sh.y) && LaneSize(1, sh.z)
  {
  }

  method VerifierOpen<E(!new)>(F: Field<E>, P: Params<E>, tables: Tables<E>, sh: Share<E>, rec: Lanes<E>, r: E)
    returns (o: Lanes<E>)
    requires CheckTables(F, P, tables.low, tables.high, tables.lastLow, tables.lastHigh)
    requires ShareSize(P.m, 1, sh) && LaneSize(2 * P.m + 2, rec)
    ensures P.m < |P.lastPts| && o == OpeningShare(F, P, sh, rec, r)
  {
    var low := ComputeLagCoeff(F, P.lastPts[..P.m + 1], tables.lastLow, r);
    var high := ComputeLagCoeff(F, P.lastPts, tables.lastHigh, r);
    ShareParts(P.m, sh);
    assert F.Laws() && 1 <= P.m && |P.lastPts| == 2 * P.m + 1;
    hide OpeningVec, OpeningValue, CheckTables, ShareSize, LaneSize;
    var xs := OpenVec(F, P, low, sh.x, rec, 2 * P.m, r);
    var ys := OpenVec(F, P, low, sh.y, rec, 2 * P.m + 1, r);
    var z := OpenValue(F, P, high, sh.z, rec, r);
    o := JoinLanes(JoinLanes(xs, ys), z);
  }

  // From round k on, the verifier's share sh leads where sh0 led from the start.
  ghost predicate OnTrack<E(!new)>(F: Field<E>, P: Params<E>, sh0: Share<E>, len0: nat, recs: seq<Lanes<E>>,
                                   rs: seq<E>, sh: Share<E>, len: nat, k: nat) {
    && 2 <= P.m && |P.pts| == 2 * P.m - 1 && |P.lastPts| == 2 * P.m + 1
    && 1 <= len0 && Rounds(P.m, len0) <= |rs| && Rounds(P.m, len0) <= |recs|
    && 1 <= len && k <= |rs| && k <= |recs| && Rounds(P.m, len) <= |rs| - k && Rounds(P.m, len) <= |recs| - k
    && ShareSize(P.m, len, sh) && MessageSizes(P.m, len, recs[k..])
    && Follow(F, P, sh, len, recs[k..], rs[k..]) == Follow(F, P, sh0, len0, recs, rs)
  }

  lemma OnTrackStart<E(!new)>(F: Field<E>, P: Params<E>, sh: Share<E>, len: nat, recs: seq<Lanes<E>>, rs: seq<E>)
    requires P.Good() && 1 <= len && ShareSize(P.m, len, sh) && MessageSizes(P.m, len, recs)
    requires Rounds(P.m, len) <= |rs| && Rounds(P.m, len) <= |recs|
    ensures OnTrack(F, P, sh, len, recs, rs, sh, len, 0)
  {
    assert recs[0..] == recs && rs[0..] == rs;
  }

  lemma OnTrackParts<E(!new)>(F: Field<E>, P: Params<E>, sh0: Share<E>, len0: nat, recs: seq<Lanes<E>>, rs: seq<E>,
                              sh: Share<E>, len: nat, k: nat)
    requires OnTrack(F, P, sh0, len0, recs, rs, sh, len, k)
    ensures 1 <= len && ShareSize(P.m, len, sh) && k < |recs| && k < |rs|
    ensures LaneSize(if len > 1 then 2 * P.m - 2 else 2 * P.m + 2, recs[k])
    ensures 2 <= P.m && |P.pts| == 2 * P.m - 1 && |P.lastPts| == 2 * P.m + 1
  {
  }

  lemma OnTrackStep<E(!new)>(F: Field<E>, P: Params<E>, sh0: Share<E>, len0: nat, recs: seq<Lanes<E>>, rs: seq<E>,
                             sh: Share<E>, len: nat, k: nat, next: Share<E>)
    requires OnTrack(F, P, sh0, len0, recs, rs, sh, len, k) && 2 <= len
    requires k < |recs| && k < |rs| && 2 <= P.m <= |P.pts|
    ensures rs[k] in P.pts ==> Ended(F, P, sh0, len0, recs, rs, None)
    ensures rs[k] !in P.pts && next == NextShare(F, P, sh, len, recs[k], rs[k])
            && ShareSize(P.m, Chunks(P.m, len), next) ==>
              OnTrack(F, P, sh0, len0, recs, rs, next, Chunks(P.m, len), k + 1) && Chunks(P.m, len) < len
  {
    hide NextShare, ShareSize;
    assert recs[k..][0] == recs[k] && recs[k..][1..] == recs[k + 1..];
    assert rs[k..][0] == rs[k] && rs[k..][1..] == rs[k + 1..];
  }

  lemma OnTrackEnd<E(!new)>(F: Field<E>, P: Params<E>, sh0: Share<E>, len0: nat, recs: seq<Lanes<E>>, rs: seq<E>,
                            sh: Share<E>, k: nat)
    requires OnTrack(F, P, sh0, len0, recs, rs, sh, 1, k) && k < |recs| && k < |rs| && P.m < |P.lastPts|
    ensures Ended(F, P, sh0, len0, recs, rs,
                  if rs[k] in P.pts || rs[k] in P.lastPts then None else Some(OpeningShare(F, P, sh, recs[k], rs[k])))
  {
    hide OpeningShare;
    assert recs[k..][0] == recs[k] && rs[k..][0] == rs[k];
  }

  ghost predicate Ended<E(!new)>(F: Field<E>, P: Params<E>, sh0: Share<E>, len0: nat, recs: seq<Lanes<E>>, rs: seq<E>,
                                 fin: Option<Lanes<E>>) {
    && 2 <= P.m && |P.pts| == 2 * P.m - 1 && |P.lastPts| == 2 * P.m + 1
    && 1 <= len0 && Rounds(P.m, len0) <= |rs| && Rounds(P.m, len0) <= |recs|
    && fin == Follow(F, P, sh0, len0, recs, rs)
  }

  method VerifierRound<E(==, !new)>(F: Field<E>, P: Params<E>, tables: Tables<E>, ghost sh0: Share<E>, ghost len0: nat,
                                    recs: seq<Lanes<E>>, rs: seq<E>, sh: Share<E>, len: nat,
                                    k: nat) returns (next: Option<Share<E>>)
    requires CheckTables(F, P, tables.low, tables.high, tables.lastLow, tables.lastHigh)
    requires OnTrack(F, P, sh0, len0, recs, rs, sh, len, k) && 2 <= len
    ensures P.m >= 1 && Chunks(P.m, len) < len
    ensures next.None? ==> Ended(F, P, sh0, len0, recs, rs, None)
    ensures next.Some? ==> OnTrack(F, P, sh0, len0, recs, rs, next.value, Chunks(P.m, len), k + 1)
  {
    OnTrackParts(F, P, sh0, len0, recs, rs, sh, len, k);
    hide OnTrack, CheckTables, Ended, NextShare, ShareSize;
    if rs[k] in P.pts {
      OnTrackStep(F, P, sh0, len0, recs, rs, sh, len, k, sh);
      return None;
    }
    var s := VerifierFold(F, P, tables, sh, len, recs[k], rs[k]);
    OnTrackStep(F, P, sh0, len0, recs, rs, sh, len, k, s);
    next := Some(s);
  }

  /** A verifier's part of a check, ending with its shares of the triple to open or an abort. */
  method VerifierCheck<E(==, !new)>(F: Field<E>, P: Params<E>, tables: Tables<E>, sh0: Share<E>, len0: nat,
                                    recs: seq<Lanes<E>>, rs: seq<E>)
    returns (fin: Option<Lanes<E>>)
    requires CheckTables(F, P, tables.low, tables.high, tables.lastLow, tables.lastHigh)
    requires 1 <= len0 && ShareSize(P.m, len0, sh0) && P.m >= 2 && MessageSizes(P.m, len0, recs)
    requires Rounds(P.m, len0) <= |rs| && Rounds(P.m, len0) <= |recs|
    ensures Ended(F, P, sh0, len0, recs, rs, fin)
  {
    OnTrackStart(F, P, sh0, len0, recs, rs);
    hide OnTrack, CheckTables, Ended;
    var sh, len, k := sh0, len0, 0;
    while len > 1
      invariant 0 <= k && 1 <= len && OnTrack(F, P, sh0, len0, recs, rs, sh, len, k)
      decreases len
    {
      var next := VerifierRound(F, P, tables, sh0, len0, recs, rs, sh, len, k);
      if next.None? { return None; }
      sh, len, k := next.value, Chunks(P.m, len), k + 1;
      OnTrackParts(F, P, sh0, len0, recs, rs, sh, len, k);
    }
    OnTrackParts(F, P, sh0, len0, recs, rs, sh, len, k);
    OnTrackEnd(F, P, sh0, len0, recs, rs, sh, k);
    if rs[k] in P.pts || rs[k] in P.lastPts { return None; }
    var o := VerifierOpen(F, P, tables, sh, recs[k], rs[k]);
    fin := Some(o);
  }
}
