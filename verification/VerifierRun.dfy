/** The verifiers' side of the multiplication check: the same rounds carried out on shares, with
    messages that are shares of what the prover broadcast, and the opening at the end. */
module VerifierRun {
  import opened Options
  import opened Algebra
  import opened Interpolation
  import opened Folding
  import opened AuthShares
  import opened Compression

  // The linear maps a verifier applies to each of its lanes.
  function FoldMap<E(!new)>(F: Field<E>, low: seq<E>, len: nat, size: nat): seq<E> -> seq<E> {
    v => if |low| * len == |v| && len <= size then FoldTo(F, low, len, size, v) else []
  }

  function ReportMap<E(!new)>(F: Field<E>, m: nat, high: seq<E>): seq<E> -> seq<E> {
    zr => if 1 <= m <= |zr| == |high| then [Dot(F, high, Recovered(F, m, zr))] else []
  }

  function SliceMap<E>(n: nat, lo: nat, hi: nat): seq<E> -> seq<E> {
    v => if |v| == n && lo <= hi <= n then v[lo..hi] else []
  }

  lemma PaddedLinear<E(!new)>(F: Field<E>, a: seq<E>, b: seq<E>, c: E, n: nat)
    requires F.Laws() && |a| == |b| <= n
    ensures Padded(F, VAdd(F, a, b), n) == VAdd(F, Padded(F, a, n), Padded(F, b, n))
    ensures Padded(F, Scale(F, c, a), n) == Scale(F, c, Padded(F, a, n))
  {
    Zero(F, c);
    Zero(F, F.zero);
  }

  lemma FoldIsLinear<E(!new)>(F: Field<E>, low: seq<E>, len: nat, size: nat)
    requires F.Laws() && len <= size
    ensures Linear(F, FoldMap(F, low, len, size), |low| * len, size)
  {
    var T, n := FoldMap(F, low, len, size), |low| * len;
    forall a: seq<E>, b: seq<E> | |a| == n && |b| == n ensures T(VAdd(F, a, b)) == VAdd(F, T(a), T(b)) {
      FoldAdd(F, a, b, low, len);
      PaddedLinear(F, FoldVec(F, a, low, len), FoldVec(F, b, low, len), F.zero, size);
    }
    forall c: E, a: seq<E> | |a| == n ensures T(Scale(F, c, a)) == Scale(F, c, T(a)) {
      FoldScale(F, c, a, low, len);
      PaddedLinear(F, FoldVec(F, a, low, len), FoldVec(F, a, low, len), c, size);
    }
  }

  lemma RecoveredLinear<E(!new)>(F: Field<E>, m: nat, a: seq<E>, b: seq<E>, c: E)
    requires F.Laws() && 1 <= m <= |a| == |b|
    ensures Recovered(F, m, VAdd(F, a, b)) == VAdd(F, Recovered(F, m, a), Recovered(F, m, b))
    ensures Recovered(F, m, Scale(F, c, a)) == Scale(F, c, Recovered(F, m, a))
  {
    var s, t := Sum(F, a[1..m]), Sum(F, b[1..m]);
    assert VAdd(F, a, b)[1..m] == VAdd(F, a[1..m], b[1..m]) && Scale(F, c, a)[1..m] == Scale(F, c, a[1..m]);
    SumAdd(F, a[1..m], b[1..m]);
    SumScale(F, c, a[1..m]);
    NegLaws(F, s, t);
    NegLaws(F, c, s);
    assert F.Add(F.Add(a[0], b[0]), F.Add(F.Neg(s), F.Neg(t))) == F.Add(F.Add(a[0], F.Neg(s)), F.Add(b[0], F.Neg(t)))
      by { AddLaws(F); }
    assert At3(c, a[0], F.Neg(s));
  }

  lemma ReportAdd<E(!new)>(F: Field<E>, m: nat, high: seq<E>, a: seq<E>, b: seq<E>)
    requires F.Laws() && 1 <= m <= |high| == |a| == |b|
    ensures [Dot(F, high, Recovered(F, m, VAdd(F, a, b)))]
         == VAdd(F, [Dot(F, high, Recovered(F, m, a))], [Dot(F, high, Recovered(F, m, b))])
  {
    RecoveredLinear(F, m, a, b, F.zero);
    DotAddRight(F, high, Recovered(F, m, a), Recovered(F, m, b));
  }

  lemma ReportScale<E(!new)>(F: Field<E>, m: nat, high: seq<E>, c: E, a: seq<E>)
    requires F.Laws() && 1 <= m <= |high| == |a|
    ensures [Dot(F, high, Recovered(F, m, Scale(F, c, a)))] == Scale(F, c, [Dot(F, high, Recovered(F, m, a))])
  {
    RecoveredLinear(F, m, a, a, c);
    DotScaleRight(F, high, c, Recovered(F, m, a));
  }

  lemma ReportIsLinear<E(!new)>(F: Field<E>, m: nat, high: seq<E>)
    requires F.Laws() && 1 <= m <= |high|
    ensures Linear(F, ReportMap(F, m, high), |high|, 1)
  {
    var T, n := ReportMap(F, m, high), |high|;
    forall a: seq<E>, b: seq<E> | |a| == n && |b| == n ensures T(VAdd(F, a, b)) == VAdd(F, T(a), T(b)) {
      ReportAdd(F, m, high, a, b);
    }
    forall c: E, a: seq<E> | |a| == n ensures T(Scale(F, c, a)) == Scale(F, c, T(a)) {
      ReportScale(F, m, high, c, a);
    }
  }

  lemma SliceParts<E(!new)>(F: Field<E>, a: seq<E>, b: seq<E>, c: E, lo: nat, hi: nat)
    requires |a| == |b| && lo <= hi <= |a|
    ensures VAdd(F, a, b)[lo..hi] == VAdd(F, a[lo..hi], b[lo..hi])
    ensures Scale(F, c, a)[lo..hi] == Scale(F, c, a[lo..hi])
  {
  }

  lemma SliceIsLinear<E(!new)>(F: Field<E>, n: nat, lo: nat, hi: nat)
    requires F.Laws() && lo <= hi <= n
    ensures Linear(F, SliceMap(n, lo, hi), n, hi - lo)
  {
    var T := SliceMap(n, lo, hi);
    hide VAdd, Scale, F.Laws;
    forall a: seq<E>, b: seq<E> | |a| == n && |b| == n ensures T(VAdd(F, a, b)) == VAdd(F, T(a), T(b)) {
      SliceParts(F, a, b, F.zero, lo, hi);
    }
    forall c: E, a: seq<E> | |a| == n ensures T(Scale(F, c, a)) == Scale(F, c, T(a)) {
      SliceParts(F, a, a, c, lo, hi);
    }
  }

  // ---- one verifier ----

  datatype Share<E> = Share(x: Lanes<E>, y: Lanes<E>, z: Lanes<E>)

  function NextShare<E(!new)>(F: Field<E>, P: Params<E>, sh: Share<E>, len: nat, rec: Lanes<E>, r: E): Share<E>
    requires 2 <= P.m <= |P.pts| && 2 <= len
  {
    var low := LagrangeRow(F, P.pts[..P.m], r);
    var T := FoldMap(F, low, len, P.m * Chunks(P.m, len));
    Share(MapLanes(T, sh.x), MapLanes(T, sh.y),
          MapLanes(ReportMap(F, P.m, LagrangeRow(F, P.pts, r)), JoinLanes(sh.z, rec)))
  }

  // A verifier's shares of the opening (x, y, z); the last message carries the reported values
  // and then the masking pair.
  function OpeningVec<E(!new)>(F: Field<E>, P: Params<E>, x: Lanes<E>, rec: Lanes<E>, at: nat, r: E): Lanes<E>
    requires P.m < |P.lastPts|
  {
    MapLanes(FoldMap(F, LagrangeRow(F, P.lastPts[..P.m + 1], r), 1, 1),
             JoinLanes(x, MapLanes(SliceMap(2 * P.m + 2, at, at + 1), rec)))
  }

  function OpeningValue<E(!new)>(F: Field<E>, P: Params<E>, z: Lanes<E>, rec: Lanes<E>, r: E): Lanes<E> {
    MapLanes(ReportMap(F, P.m, LagrangeRow(F, P.lastPts, r)),
             JoinLanes(z, MapLanes(SliceMap(2 * P.m + 2, 0, 2 * P.m), rec)))
  }

  function OpeningShare<E(!new)>(F: Field<E>, P: Params<E>, sh: Share<E>, rec: Lanes<E>, r: E): Lanes<E>
    requires P.m < |P.lastPts|
  {
    JoinLanes(JoinLanes(OpeningVec(F, P, sh.x, rec, 2 * P.m, r), OpeningVec(F, P, sh.y, rec, 2 * P.m + 1, r)),
              OpeningValue(F, P, sh.z, rec, r))
  }

  function Follow<E(==, !new)>(F: Field<E>, P: Params<E>, sh: Share<E>, len: nat, recs: seq<Lanes<E>>,
                               rs: seq<E>): Option<Lanes<E>>
    requires 2 <= P.m && |P.pts| == 2 * P.m - 1 && |P.lastPts| == 2 * P.m + 1
    requires 1 <= len && Rounds(P.m, len) <= |rs| && Rounds(P.m, len) <= |recs|
    decreases len
  {
    if len > 1 then
      if rs[0] in P.pts then None
      else Follow(F, P, NextShare(F, P, sh, len, recs[0], rs[0]), Chunks(P.m, len), recs[1..], rs[1..])
    else if rs[0] in P.pts || rs[0] in P.lastPts then None
    else Some(OpeningShare(F, P, sh, recs[0], rs[0]))
  }

  // ---- all verifiers ----

  function Xs<E>(shs: seq<Share<E>>): (r: seq<Lanes<E>>)
    ensures |r| == |shs|
  {
    seq(|shs|, i requires 0 <= i < |shs| => shs[i].x)
  }

  function Ys<E>(shs: seq<Share<E>>): (r: seq<Lanes<E>>)
    ensures |r| == |shs|
  {
    seq(|shs|, i requires 0 <= i < |shs| => shs[i].y)
  }

  function Zs<E>(shs: seq<Share<E>>): (r: seq<Lanes<E>>)
    ensures |r| == |shs|
  {
    seq(|shs|, i requires 0 <= i < |shs| => shs[i].z)
  }

  // The verifiers together hold the prover's x, y and z.
  ghost predicate Shares<E(!new)>(F: Field<E>, delta: E, st: State<E>, shs: seq<Share<E>>) {
    && Authentic(F, delta, st.x, Xs(shs))
    && Authentic(F, delta, st.y, Ys(shs))
    && Authentic(F, delta, [st.z], Zs(shs))
  }

  function NextShares<E(!new)>(F: Field<E>, P: Params<E>, shs: seq<Share<E>>, len: nat, rec: seq<Lanes<E>>,
                               r: E): (r': seq<Share<E>>)
    requires 2 <= P.m <= |P.pts| && 2 <= len && |rec| == |shs|
    ensures |r'| == |shs|
  {
    seq(|shs|, i requires 0 <= i < |shs| => NextShare(F, P, shs[i], len, rec[i], r))
  }

  lemma FoldShares<E(!new)>(F: Field<E>, delta: E, low: seq<E>, len: nat, size: nat, v: seq<E>, shs: seq<Lanes<E>>)
    requires F.Laws() && |low| * len == |v| && len <= size && Authentic(F, delta, v, shs)
    ensures Authentic(F, delta, FoldTo(F, low, len, size, v), MapAll(FoldMap(F, low, len, size), shs))
  {
    FoldIsLinear(F, low, len, size);
    AuthLinear(F, FoldMap(F, low, len, size), size, delta, v, shs);
  }

  lemma ReportShares<E(!new)>(F: Field<E>, delta: E, m: nat, high: seq<E>, z: E, rest: seq<E>, zs: seq<Lanes<E>>,
                              rec: seq<Lanes<E>>)
    requires F.Laws() && 1 <= m <= |high| == 1 + |rest| && |zs| == |rec|
    requires Authentic(F, delta, [z], zs) && Authentic(F, delta, rest, rec)
    ensures Authentic(F, delta, [Dot(F, high, Recovered(F, m, [z] + rest))],
                      MapAll(ReportMap(F, m, high), JoinAll(zs, rec)))
  {
    AuthJoin(F, delta, [z], rest, zs, rec);
    ReportIsLinear(F, m, high);
    AuthLinear(F, ReportMap(F, m, high), 1, delta, [z] + rest, JoinAll(zs, rec));
  }

  lemma NextSharesLanes<E(!new)>(F: Field<E>, P: Params<E>, shs: seq<Share<E>>, len: nat, rec: seq<Lanes<E>>, r: E)
    requires 2 <= P.m <= |P.pts| && 2 <= len && |rec| == |shs|
    ensures var T := FoldMap(F, LagrangeRow(F, P.pts[..P.m], r), len, P.m * Chunks(P.m, len));
            var next := NextShares(F, P, shs, len, rec, r);
            && Xs(next) == MapAll(T, Xs(shs))
            && Ys(next) == MapAll(T, Ys(shs))
            && Zs(next) == MapAll(ReportMap(F, P.m, LagrangeRow(F, P.pts, r)), JoinAll(Zs(shs), rec))
  {
  }

  /** One round keeps the verifiers in step with the prover, whether or not the claim is true. */
  lemma NextSharesHold<E(!new)>(F: Field<E>, P: Params<E>, delta: E, st: State<E>, h: seq<E>, shs: seq<Share<E>>,
                                rec: seq<Lanes<E>>, r: E)
    requires F.Laws() && P.Good() && 2 <= st.len && Valid(P.m, st) && |h| == 2 * P.m - 1
    requires Recovered(F, P.m, [st.z] + h[1..]) == h
    requires Shares(F, delta, st, shs) && |rec| == |shs| && Authentic(F, delta, h[1..], rec)
    ensures Shares(F, delta, NextState(F, P, st, h, r), NextShares(F, P, shs, st.len, rec, r))
  {
    var low, size := LagrangeRow(F, P.pts[..P.m], r), P.m * Chunks(P.m, st.len);
    NextSharesLanes(F, P, shs, st.len, rec, r);
    FoldShares(F, delta, low, st.len, size, st.x, Xs(shs));
    FoldShares(F, delta, low, st.len, size, st.y, Ys(shs));
    ReportShares(F, delta, P.m, LagrangeRow(F, P.pts, r), st.z, h[1..], Zs(shs), rec);
  }

  function OpeningShares<E(!new)>(F: Field<E>, P: Params<E>, shs: seq<Share<E>>, rec: seq<Lanes<E>>,
                                  r: E): (r': seq<Lanes<E>>)
    requires P.m < |P.lastPts| && |rec| == |shs|
    ensures |r'| == |shs|
  {
    seq(|shs|, i requires 0 <= i < |shs| => OpeningShare(F, P, shs[i], rec[i], r))
  }

  lemma SliceAuth<E(!new)>(F: Field<E>, delta: E, v: seq<E>, lo: nat, hi: nat, shs: seq<Lanes<E>>)
    requires F.Laws() && Authentic(F, delta, v, shs) && lo <= hi <= |v|
    ensures Authentic(F, delta, v[lo..hi], MapAll(SliceMap(|v|, lo, hi), shs))
  {
    SliceIsLinear(F, |v|, lo, hi);
    AuthLinear(F, SliceMap(|v|, lo, hi), hi - lo, delta, v, shs);
  }

  // The last message taken apart: reported values, and the masking pair.
  lemma SplitLast<E(!new)>(F: Field<E>, delta: E, rest: seq<E>, a: E, b: E, rec: seq<Lanes<E>>)
    requires F.Laws() && Authentic(F, delta, rest + [a, b], rec)
    ensures Authentic(F, delta, rest, MapAll(SliceMap(|rest| + 2, 0, |rest|), rec))
    ensures Authentic(F, delta, [a], MapAll(SliceMap(|rest| + 2, |rest|, |rest| + 1), rec))
    ensures Authentic(F, delta, [b], MapAll(SliceMap(|rest| + 2, |rest| + 1, |rest| + 2), rec))
  {
    hide Authentic, SliceMap, MapAll;
    var v, k := rest + [a, b], |rest|;
    SliceAuth(F, delta, v, 0, k, rec);
    SliceAuth(F, delta, v, k, k + 1, rec);
    SliceAuth(F, delta, v, k + 1, k + 2, rec);
    assert v[0..k] == rest && v[k..k + 1] == [a] && v[k + 1..k + 2] == [b];
  }

  lemma JoinThree<E(!new)>(F: Field<E>, delta: E, x: E, y: E, z: E, a: seq<Lanes<E>>, b: seq<Lanes<E>>,
                           c: seq<Lanes<E>>)
    requires |a| == |b| == |c|
    requires Authentic(F, delta, [x], a) && Authentic(F, delta, [y], b) && Authentic(F, delta, [z], c)
    ensures Authentic(F, delta, [x, y, z], JoinAll(JoinAll(a, b), c))
  {
    AuthJoin(F, delta, [x], [y], a, b);
    AuthJoin(F, delta, [x] + [y], [z], JoinAll(a, b), c);
    assert [x] + [y] + [z] == [x, y, z];
  }

  function OpeningVecs<E(!new)>(F: Field<E>, P: Params<E>, xs: seq<Lanes<E>>, rec: seq<Lanes<E>>, at: nat,
                                r: E): (r': seq<Lanes<E>>)
    requires P.m < |P.lastPts| && |rec| == |xs|
    ensures |r'| == |xs|
  {
    seq(|xs|, i requires 0 <= i < |xs| => OpeningVec(F, P, xs[i], rec[i], at, r))
  }

  function OpeningValues<E(!new)>(F: Field<E>, P: Params<E>, zs: seq<Lanes<E>>, rec: seq<Lanes<E>>,
                                  r: E): (r': seq<Lanes<E>>)
    requires |rec| == |zs|
    ensures |r'| == |zs|
  {
    seq(|zs|, i requires 0 <= i < |zs| => OpeningValue(F, P, zs[i], rec[i], r))
  }

  lemma OpeningVecsHold<E(!new)>(F: Field<E>, P: Params<E>, delta: E, v: seq<E>, a: E, xs: seq<Lanes<E>>,
                                 rec: seq<Lanes<E>>, at: nat, r: E)
    requires F.Laws() && P.m < |P.lastPts| && |v| == P.m && |rec| == |xs| && Authentic(F, delta, v, xs)
    requires Authentic(F, delta, [a], MapAll(SliceMap(2 * P.m + 2, at, at + 1), rec))
    ensures Authentic(F, delta, [FoldVec(F, v + [a], LagrangeRow(F, P.lastPts[..P.m + 1], r), 1)[0]],
                      OpeningVecs(F, P, xs, rec, at, r))
  {
    var low, masks := LagrangeRow(F, P.lastPts[..P.m + 1], r), MapAll(SliceMap(2 * P.m + 2, at, at + 1), rec);
    AuthJoin(F, delta, v, [a], xs, masks);
    FoldShares(F, delta, low, 1, 1, v + [a], JoinAll(xs, masks));
    assert FoldTo(F, low, 1, 1, v + [a]) == [FoldVec(F, v + [a], low, 1)[0]];
    assert OpeningVecs(F, P, xs, rec, at, r) == MapAll(FoldMap(F, low, 1, 1), JoinAll(xs, masks));
  }

  lemma OpeningValuesHold<E(!new)>(F: Field<E>, P: Params<E>, delta: E, z: E, rest: seq<E>, zs: seq<Lanes<E>>,
                                   rec: seq<Lanes<E>>, r: E)
    requires F.Laws() && P.Good() && |rest| == 2 * P.m && |rec| == |zs| && Authentic(F, delta, [z], zs)
    requires Authentic(F, delta, rest, MapAll(SliceMap(2 * P.m + 2, 0, 2 * P.m), rec))
    ensures Authentic(F, delta, [ValueAt(F, P.lastPts, Recovered(F, P.m, [z] + rest), r)],
                      OpeningValues(F, P, zs, rec, r))
  {
    hide Authentic, Recovered, LagrangeRow, SliceMap, Distinct, MapAll, JoinAll, OpeningValues;
    var high, hs := LagrangeRow(F, P.lastPts, r), MapAll(SliceMap(2 * P.m + 2, 0, 2 * P.m), rec);
    ReportShares(F, delta, P.m, high, z, rest, zs, hs);
    OpeningValuesMap(F, P, zs, rec, r);
  }

  lemma OpeningValuesMap<E(!new)>(F: Field<E>, P: Params<E>, zs: seq<Lanes<E>>, rec: seq<Lanes<E>>, r: E)
    requires |rec| == |zs|
    ensures OpeningValues(F, P, zs, rec, r)
         == MapAll(ReportMap(F, P.m, LagrangeRow(F, P.lastPts, r)),
                   JoinAll(zs, MapAll(SliceMap(2 * P.m + 2, 0, 2 * P.m), rec)))
  {
    hide MapLanes, JoinLanes, ReportMap, SliceMap, LagrangeRow;
  }

  lemma OpeningLanes<E(!new)>(F: Field<E>, P: Params<E>, shs: seq<Share<E>>, rec: seq<Lanes<E>>, r: E)
    requires P.m < |P.lastPts| && |rec| == |shs|
    ensures OpeningShares(F, P, shs, rec, r)
         == JoinAll(JoinAll(OpeningVecs(F, P, Xs(shs), rec, 2 * P.m, r),
                            OpeningVecs(F, P, Ys(shs), rec, 2 * P.m + 1, r)),
                    OpeningValues(F, P, Zs(shs), rec, r))
  {
    hide OpeningVec, OpeningValue, JoinLanes;
  }

  /** The last round: the verifiers hold shares of exactly the triple the prover would open. */
  lemma OpeningSharesHold<E(!new)>(F: Field<E>, P: Params<E>, delta: E, st: State<E>, h: seq<E>, mask: (E, E),
                                   shs: seq<Share<E>>, rec: seq<Lanes<E>>, r: E)
    requires F.Laws() && P.Good() && st.len == 1 && Valid(P.m, st) && |h| == 2 * P.m + 1
    requires Recovered(F, P.m, [st.z] + h[1..]) == h
    requires Shares(F, delta, st, shs) && |rec| == |shs| && Authentic(F, delta, h[1..] + [mask.0, mask.1], rec)
    ensures var o := Opening(F, P, st.x + [mask.0], st.y + [mask.1], h, r);
            Authentic(F, delta, [o.0, o.1, o.2], OpeningShares(F, P, shs, rec, r))
  {
    hide Authentic, Recovered, LagrangeRow, SliceMap, FoldVec, OpeningVecs, OpeningValues, OpeningShares, Distinct;
    SplitLast(F, delta, h[1..], mask.0, mask.1, rec);
    OpeningVecsHold(F, P, delta, st.x, mask.0, Xs(shs), rec, 2 * P.m, r);
    OpeningVecsHold(F, P, delta, st.y, mask.1, Ys(shs), rec, 2 * P.m + 1, r);
    OpeningValuesHold(F, P, delta, st.z, h[1..], Zs(shs), rec, r);
    var o := Opening(F, P, st.x + [mask.0], st.y + [mask.1], h, r);
    JoinThree(F, delta, o.0, o.1, o.2, OpeningVecs(F, P, Xs(shs), rec, 2 * P.m, r),
              OpeningVecs(F, P, Ys(shs), rec, 2 * P.m + 1, r), OpeningValues(F, P, Zs(shs), rec, r));
    OpeningLanes(F, P, shs, rec, r);
  }

  // Verifier i's shares of every message.
  function Received<E>(recs: seq<seq<Lanes<E>>>, i: nat): (r: seq<Lanes<E>>)
    requires forall k :: 0 <= k < |recs| ==> i < |recs[k]|
    ensures |r| == |recs|
  {
    seq(|recs|, k requires 0 <= k < |recs| => recs[k][i])
  }

  ghost predicate Delivered<E(!new)>(F: Field<E>, delta: E, n: nat, sent: seq<seq<E>>, recs: seq<seq<Lanes<E>>>) {
    && |sent| <= |recs|
    && (forall k :: 0 <= k < |recs| ==> |recs[k]| == n)
    && (forall k :: 0 <= k < |sent| ==> Authentic(F, delta, sent[k], recs[k]))
  }

  // The shares each verifier ends with, if it does not abort.
  function Finals<E(==, !new)>(F: Field<E>, P: Params<E>, shs: seq<Share<E>>, len: nat, recs: seq<seq<Lanes<E>>>,
                               rs: seq<E>): (fin: seq<Option<Lanes<E>>>)
    requires 2 <= P.m && |P.pts| == 2 * P.m - 1 && |P.lastPts| == 2 * P.m + 1
    requires 1 <= len && Rounds(P.m, len) <= |rs| && Rounds(P.m, len) <= |recs|
    requires forall k :: 0 <= k < |recs| ==> |recs[k]| == |shs|
    ensures |fin| == |shs|
  {
    seq(|shs|, i requires 0 <= i < |shs| => Follow(F, P, shs[i], len, Received(recs, i), rs))
  }

  // The verifiers aborted exactly if the prover did, and otherwise share the prover's triple.
  ghost predicate InStep<E(!new)>(F: Field<E>, delta: E, triple: Option<(E, E, E)>, fin: seq<Option<Lanes<E>>>) {
    match triple
    case None => forall i :: 0 <= i < |fin| ==> fin[i] == None
    case Some(o) =>
      && (forall i :: 0 <= i < |fin| ==> fin[i].Some?)
      && Authentic(F, delta, [o.0, o.1, o.2], seq(|fin|, i requires 0 <= i < |fin| => fin[i].value))
  }

  lemma ReceivedRest<E>(recs: seq<seq<Lanes<E>>>, i: nat)
    requires recs != [] && forall k :: 0 <= k < |recs| ==> i < |recs[k]|
    ensures Received(recs, i)[0] == recs[0][i] && Received(recs, i)[1..] == Received(recs[1..], i)
  {
  }

  lemma FollowStep<E(!new)>(F: Field<E>, P: Params<E>, sh: Share<E>, len: nat, rec: seq<Lanes<E>>, rs: seq<E>)
    requires 2 <= P.m && |P.pts| == 2 * P.m - 1 && |P.lastPts| == 2 * P.m + 1
    requires 2 <= len && Rounds(P.m, len) <= |rs| && Rounds(P.m, len) <= |rec|
    requires rs[0] !in P.pts
    ensures Follow(F, P, sh, len, rec, rs)
         == Follow(F, P, NextShare(F, P, sh, len, rec[0], rs[0]), Chunks(P.m, len), rec[1..], rs[1..])
  {
  }

  lemma FinalsStep<E(!new)>(F: Field<E>, P: Params<E>, shs: seq<Share<E>>, len: nat, recs: seq<seq<Lanes<E>>>,
                            rs: seq<E>)
    requires 2 <= P.m && |P.pts| == 2 * P.m - 1 && |P.lastPts| == 2 * P.m + 1
    requires 2 <= len && Rounds(P.m, len) <= |rs| && Rounds(P.m, len) <= |recs|
    requires forall k :: 0 <= k < |recs| ==> |recs[k]| == |shs|
    requires rs[0] !in P.pts
    ensures Finals(F, P, shs, len, recs, rs)
         == Finals(F, P, NextShares(F, P, shs, len, recs[0], rs[0]), Chunks(P.m, len), recs[1..], rs[1..])
  {
    RoundsLeft(P.m, len);
    var next, n := NextShares(F, P, shs, len, recs[0], rs[0]), Chunks(P.m, len);
    var l, r := Finals(F, P, shs, len, recs, rs), Finals(F, P, next, n, recs[1..], rs[1..]);
    hide *;
    forall i | 0 <= i < |shs| ensures l[i] == r[i] { FinalsStepAt(F, P, shs, len, recs, rs, i); }
  }

  lemma RoundsLeft(m: nat, len: nat)
    requires 2 <= m && 2 <= len
    ensures 1 <= Chunks(m, len) && Rounds(m, len) == 1 + Rounds(m, Chunks(m, len))
  {
  }

  lemma FinalsStepAt<E(!new)>(F: Field<E>, P: Params<E>, shs: seq<Share<E>>, len: nat, recs: seq<seq<Lanes<E>>>,
                              rs: seq<E>, i: nat)
    requires 2 <= P.m && |P.pts| == 2 * P.m - 1 && |P.lastPts| == 2 * P.m + 1 && i < |shs|
    requires 2 <= len && Rounds(P.m, len) <= |rs| && Rounds(P.m, len) <= |recs|
    requires 1 <= Chunks(P.m, len) && Rounds(P.m, len) == 1 + Rounds(P.m, Chunks(P.m, len))
    requires forall k :: 0 <= k < |recs| ==> |recs[k]| == |shs|
    requires rs[0] !in P.pts
    ensures Finals(F, P, shs, len, recs, rs)[i]
         == Finals(F, P, NextShares(F, P, shs, len, recs[0], rs[0]), Chunks(P.m, len), recs[1..], rs[1..])[i]
  {
    hide Follow, NextShare, Received, Chunks, Rounds;
    FollowStep(F, P, shs[i], len, Received(recs, i), rs);
    ReceivedRest(recs, i);
  }

  lemma FinalsBase<E(!new)>(F: Field<E>, P: Params<E>, shs: seq<Share<E>>, recs: seq<seq<Lanes<E>>>, rs: seq<E>)
    requires 2 <= P.m && |P.pts| == 2 * P.m - 1 && |P.lastPts| == 2 * P.m + 1
    requires 1 <= |rs| && 1 <= |recs|
    requires forall k :: 0 <= k < |recs| ==> |recs[k]| == |shs|
    requires rs[0] !in P.pts && rs[0] !in P.lastPts
    ensures var fin, os := Finals(F, P, shs, 1, recs, rs), OpeningShares(F, P, shs, recs[0], rs[0]);
            && (forall i :: 0 <= i < |fin| ==> fin[i].Some?)
            && seq(|fin|, i requires 0 <= i < |fin| => fin[i].value) == os
  {
  }

  /** Whole runs: for whatever messages the verifiers hold shares of, they abort together at a
      challenge on an interpolation point, or end with valid shares of the messages' outcome. */
  lemma {:induction false} VerifiersFollow<E(!new)>(F: Field<E>, P: Params<E>, delta: E, st: State<E>,
                                                    msgs: seq<seq<E>>, shs: seq<Share<E>>, recs: seq<seq<Lanes<E>>>,
                                                    rs: seq<E>)
    requires F.Laws() && P.Good() && Valid(P.m, st) && Shares(F, delta, st, shs)
    requires Rounds(P.m, st.len) <= |rs| && Rounds(P.m, st.len) <= |recs|
    requires Fits(P, st.len, msgs, rs) && Delivered(F, delta, |shs|, msgs, recs)
    ensures InStep(F, delta, Outcome(F, P, st, msgs, rs), Finals(F, P, shs, st.len, recs, rs))
    decreases st.len
  {
    hide Authentic, NextState, NextShares, Shares, Distinct, Recovered, LastOpening, Opening, OpeningShares;
    if st.len > 1 {
      if rs[0] !in P.pts {
        var h := Recovered(F, P.m, [st.z] + msgs[0]);
        var next := NextState(F, P, st, h, rs[0]);
        FoldStep(F, P, delta, st, msgs[0], h, shs, recs[0], rs[0]);
        DeliveredRest(F, delta, |shs|, msgs, recs);
        VerifiersFollow(F, P, delta, next, msgs[1..], NextShares(F, P, shs, st.len, recs[0], rs[0]), recs[1..],
                        rs[1..]);
        FinalsStep(F, P, shs, st.len, recs, rs);
      }
    } else if rs[0] !in P.pts && rs[0] !in P.lastPts {
      LastStep(F, P, delta, st, msgs[0], shs, recs[0], rs[0]);
      FinalsBase(F, P, shs, recs, rs);
    }
  }

  lemma FoldStep<E(!new)>(F: Field<E>, P: Params<E>, delta: E, st: State<E>, msg: seq<E>, h: seq<E>, shs: seq<Share<E>>,
                          rec: seq<Lanes<E>>, r: E)
    requires F.Laws() && P.Good() && 2 <= st.len && Valid(P.m, st) && |rec| == |shs|
    requires |msg| == 2 * P.m - 2 && h == Recovered(F, P.m, [st.z] + msg)
    requires Shares(F, delta, st, shs) && Authentic(F, delta, msg, rec)
    ensures Shares(F, delta, NextState(F, P, st, h, r), NextShares(F, P, shs, st.len, rec, r))
  {
    assert h[1..] == msg;
    NextSharesHold(F, P, delta, st, h, shs, rec, r);
  }

  lemma LastStep<E(!new)>(F: Field<E>, P: Params<E>, delta: E, st: State<E>, msg: seq<E>, shs: seq<Share<E>>,
                          rec: seq<Lanes<E>>, r: E)
    requires F.Laws() && P.Good() && Valid(P.m, st) && st.len == 1 && Shares(F, delta, st, shs)
    requires |rec| == |shs| && |msg| == 2 * P.m + 2 && Authentic(F, delta, msg, rec)
    ensures var o := LastOpening(F, P, st, msg, r);
            Authentic(F, delta, [o.0, o.1, o.2], OpeningShares(F, P, shs, rec, r))
  {
    hide Authentic, OpeningShares, Opening, Distinct;
    var h, mask := Recovered(F, P.m, [st.z] + msg[..2 * P.m]), (msg[2 * P.m], msg[2 * P.m + 1]);
    assert h[1..] == msg[..2 * P.m] && msg == h[1..] + [mask.0, mask.1];
    OpeningSharesHold(F, P, delta, st, h, mask, shs, rec, r);
  }

  lemma DeliveredRest<E(!new)>(F: Field<E>, delta: E, n: nat, sent: seq<seq<E>>, recs: seq<seq<Lanes<E>>>)
    requires Delivered(F, delta, n, sent, recs) && sent != []
    ensures Delivered(F, delta, n, sent[1..], recs[1..])
  {
    forall k | 0 <= k < |sent| - 1 ensures Authentic(F, delta, sent[1..][k], recs[1..][k]) {
      assert Authentic(F, delta, sent[k + 1], recs[k + 1]);
    }
  }
}
