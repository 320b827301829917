/** The multiplication check on shares whose MACs may be anything. What a verifier does to its value
    lane depends on value lanes only; so whatever the MACs are, acceptance means that the outcome of
    the values the shares and messages add up to is a product. */
module ValueLanes {
  import opened Options
  import opened Algebra
  import opened AuthShares
  import opened Compression
  import opened VerifierRun
  import opened MultCheck

  // The value lanes add up to v.
  ghost predicate AddsUp<E(!new)>(F: Field<E>, v: seq<E>, shs: seq<Lanes<E>>) {
    Rows(|v|, ValRows(shs)) && Total(F, |v|, ValRows(shs)) == v
  }

  ghost predicate RecordedValues<E(!new)>(F: Field<E>, left: seq<E>, right: seq<E>, out: seq<E>,
                                          ts: seq<Triples<E>>) {
    AddsUp(F, left, Lefts(ts)) && AddsUp(F, right, Rights(ts)) && AddsUp(F, out, Outs(ts))
  }

  ghost predicate DeliveredValues<E(!new)>(F: Field<E>, n: nat, sent: seq<seq<E>>, recs: seq<seq<Lanes<E>>>) {
    && |sent| <= |recs|
    && (forall k :: 0 <= k < |recs| ==> |recs[k]| == n)
    && (forall k :: 0 <= k < |sent| ==> AddsUp(F, sent[k], recs[k]))
  }

  // ---- shares without MACs ----

  function Bare<E(!new)>(F: Field<E>, l: Lanes<E>): Lanes<E> { Lanes(Zeros(F, |l.val|), Zeros(F, |l.val|), l.val) }

  function BareAll<E(!new)>(F: Field<E>, shs: seq<Lanes<E>>): (r: seq<Lanes<E>>)
    ensures |r| == |shs|
  {
    seq(|shs|, i requires 0 <= i < |shs| => Bare(F, shs[i]))
  }

  lemma {:induction false} ZeroTotal<E(!new)>(F: Field<E>, n: nat, rows: seq<seq<E>>)
    requires F.Laws() && forall i :: 0 <= i < |rows| ==> rows[i] == Zeros(F, n)
    ensures Rows(n, rows) && Total(F, n, rows) == Zeros(F, n)
  {
    if rows != [] {
      ZeroTotal(F, n, rows[1..]);
      Zero(F, F.zero);
    }
  }

  // Under the key 0 they are authentic for what they add up to.
  lemma BareAuthentic<E(!new)>(F: Field<E>, v: seq<E>, shs: seq<Lanes<E>>)
    requires F.Laws() && AddsUp(F, v, shs)
    ensures Authentic(F, F.zero, v, BareAll(F, shs))
  {
    var n, bare := |v|, BareAll(F, shs);
    assert ValRows(bare) == ValRows(shs);
    forall i | 0 <= i < |shs| ensures |shs[i].val| == n { assert ValRows(shs)[i] == shs[i].val; }
    ZeroTotal(F, n, MacRows(bare));
    ZeroTotal(F, n, KeyRows(bare));
    forall i | 0 <= i < n ensures VAdd(F, Zeros(F, n), Scale(F, F.zero, v))[i] == F.zero {
      Zero(F, v[i]);
      Zero(F, F.zero);
    }
    assert VAdd(F, Zeros(F, n), Scale(F, F.zero, v)) == Zeros(F, n);
  }

  function BareTriples<E(!new)>(F: Field<E>, ts: seq<Triples<E>>): (r: seq<Triples<E>>)
    ensures |r| == |ts|
  {
    seq(|ts|, i requires 0 <= i < |ts| => Triples(Bare(F, ts[i].left), Bare(F, ts[i].right), Bare(F, ts[i].out)))
  }

  function BareRecs<E(!new)>(F: Field<E>, recs: seq<seq<Lanes<E>>>): (r: seq<seq<Lanes<E>>>)
    ensures |r| == |recs|
  {
    seq(|recs|, k requires 0 <= k < |recs| => BareAll(F, recs[k]))
  }

  lemma BareRecorded<E(!new)>(F: Field<E>, left: seq<E>, right: seq<E>, out: seq<E>, ts: seq<Triples<E>>)
    requires F.Laws() && RecordedValues(F, left, right, out, ts)
    ensures Recorded(F, F.zero, left, right, out, BareTriples(F, ts))
  {
    BareAuthentic(F, left, Lefts(ts));
    BareAuthentic(F, right, Rights(ts));
    BareAuthentic(F, out, Outs(ts));
    hide Authentic;
    var bare := BareTriples(F, ts);
    assert Lefts(bare) == BareAll(F, Lefts(ts)) && Rights(bare) == BareAll(F, Rights(ts));
    assert Outs(bare) == BareAll(F, Outs(ts));
  }

  lemma BareDelivered<E(!new)>(F: Field<E>, n: nat, sent: seq<seq<E>>, recs: seq<seq<Lanes<E>>>)
    requires F.Laws() && DeliveredValues(F, n, sent, recs)
    ensures Delivered(F, F.zero, n, sent, BareRecs(F, recs))
  {
    hide Authentic, AddsUp;
    forall k | 0 <= k < |sent| ensures Authentic(F, F.zero, sent[k], BareRecs(F, recs)[k]) {
      BareAuthentic(F, sent[k], recs[k]);
    }
  }

  // ---- value lanes depend on value lanes only ----

  ghost predicate SameValues<E>(a: Share<E>, b: Share<E>) {
    a.x.val == b.x.val && a.y.val == b.y.val && a.z.val == b.z.val
  }

  ghost predicate SameRecs<E>(a: seq<Lanes<E>>, b: seq<Lanes<E>>) {
    |a| == |b| && forall k :: 0 <= k < |a| ==> a[k].val == b[k].val
  }

  ghost predicate SameEnd<E>(a: Option<Lanes<E>>, b: Option<Lanes<E>>) {
    a.Some? == b.Some? && (a.Some? ==> a.value.val == b.value.val)
  }

  lemma NextSame<E(!new)>(F: Field<E>, P: Params<E>, a: Share<E>, b: Share<E>, len: nat, s: Lanes<E>, t: Lanes<E>, r: E)
    requires 2 <= P.m <= |P.pts| && 2 <= len && SameValues(a, b) && s.val == t.val
    ensures SameValues(NextShare(F, P, a, len, s, r), NextShare(F, P, b, len, t, r))
  {
  }

  lemma OpeningSame<E(!new)>(F: Field<E>, P: Params<E>, a: Share<E>, b: Share<E>, s: Lanes<E>, t: Lanes<E>, r: E)
    requires P.m < |P.lastPts| && SameValues(a, b) && s.val == t.val
    ensures OpeningShare(F, P, a, s, r).val == OpeningShare(F, P, b, t, r).val
  {
  }

  lemma {:induction false} FollowSame<E(!new)>(F: Field<E>, P: Params<E>, a: Share<E>, b: Share<E>, len: nat,
                                               s: seq<Lanes<E>>, t: seq<Lanes<E>>, rs: seq<E>)
    requires 2 <= P.m && |P.pts| == 2 * P.m - 1 && |P.lastPts| == 2 * P.m + 1
    requires 1 <= len && Rounds(P.m, len) <= |rs| && Rounds(P.m, len) <= |s|
    requires SameValues(a, b) && SameRecs(s, t)
    ensures SameEnd(Follow(F, P, a, len, s, rs), Follow(F, P, b, len, t, rs))
    decreases len
  {
    hide NextShare, OpeningShare;
    if len > 1 {
      if rs[0] !in P.pts {
        NextSame(F, P, a, b, len, s[0], t[0], rs[0]);
        FollowSame(F, P, NextShare(F, P, a, len, s[0], rs[0]), NextShare(F, P, b, len, t[0], rs[0]),
                   Chunks(P.m, len), s[1..], t[1..], rs[1..]);
      }
    } else {
      OpeningSame(F, P, a, b, s[0], t[0], rs[0]);
    }
  }

  lemma FinalsSame<E(!new)>(F: Field<E>, P: Params<E>, ts: seq<Triples<E>>, chi: seq<E>, len: nat,
                            recs: seq<seq<Lanes<E>>>, rs: seq<E>, i: nat)
    requires 2 <= P.m && |P.pts| == 2 * P.m - 1 && |P.lastPts| == 2 * P.m + 1
    requires 1 <= len && Rounds(P.m, len) <= |rs| && Rounds(P.m, len) <= |recs|
    requires (forall k :: 0 <= k < |recs| ==> |recs[k]| == |ts|) && i < |ts|
    ensures SameEnd(Finals(F, P, InitShares(F, P.m, ts, chi), len, recs, rs)[i],
                    Finals(F, P, InitShares(F, P.m, BareTriples(F, ts), chi), len, BareRecs(F, recs), rs)[i])
  {
    var a, b := InitShares(F, P.m, ts, chi)[i], InitShares(F, P.m, BareTriples(F, ts), chi)[i];
    assert SameValues(a, b);
    hide InitShares, Rounds, Follow;
    FollowSame(F, P, a, b, len, Received(recs, i), Received(BareRecs(F, recs), i), rs);
  }

  /** Acceptance on any shares, MACs right or wrong: no challenge hit an interpolation point, and the
      outcome (x, y, z) of the messages, for the values the shares add up to, has z = x * y. */
  lemma AcceptedIsProduct<E(!new)>(F: Field<E>, P: Params<E>, deltas: seq<E>, left: seq<E>, right: seq<E>, out: seq<E>,
                                   chi: seq<E>, ts: seq<Triples<E>>, msgs: seq<seq<E>>, recs: seq<seq<Lanes<E>>>,
                                   rs: seq<E>)
    requires F.Laws() && P.Good() && |left| == |right| == |out| == |chi| >= 1 && |ts| == |deltas| >= 1
    requires RecordedValues(F, left, right, out, ts)
    requires var st := InitState(F, P.m, left, right, out, chi);
             && Rounds(P.m, st.len) <= |rs| && Rounds(P.m, st.len) <= |recs| && Fits(P, st.len, msgs, rs)
             && DeliveredValues(F, |ts|, msgs, recs)
             && Accepted(F, deltas, Finals(F, P, InitShares(F, P.m, ts, chi), st.len, recs, rs))
    ensures var o := Outcome(F, P, InitState(F, P.m, left, right, out, chi), msgs, rs);
            o.Some? && o.value.2 == F.Mul(o.value.0, o.value.1)
  {
    var st, bare := InitState(F, P.m, left, right, out, chi), BareTriples(F, ts);
    BareRecorded(F, left, right, out, ts);
    BareDelivered(F, |ts|, msgs, recs);
    InitSharesHold(F, P.m, F.zero, left, right, out, chi, bare);
    VerifiersFollow(F, P, F.zero, st, msgs, InitShares(F, P.m, bare, chi), BareRecs(F, recs), rs);
    var fin := Finals(F, P, InitShares(F, P.m, ts, chi), st.len, recs, rs);
    var fin0 := Finals(F, P, InitShares(F, P.m, bare, chi), st.len, BareRecs(F, recs), rs);
    forall i | 0 <= i < |ts| ensures SameEnd(fin[i], fin0[i]) { FinalsSame(F, P, ts, chi, st.len, recs, rs, i); }
    hide Finals, InitShares, Outcome, InitState, BareTriples, BareRecs;
    SameVerdict(F, deltas, Outcome(F, P, st, msgs, rs), fin, fin0);
  }

  lemma SameVerdict<E(!new)>(F: Field<E>, deltas: seq<E>, o: Option<(E, E, E)>, fin: seq<Option<Lanes<E>>>,
                             fin0: seq<Option<Lanes<E>>>)
    requires |fin| == |fin0| >= 1 && Accepted(F, deltas, fin) && InStep(F, F.zero, o, fin0)
    requires forall i :: 0 <= i < |fin| ==> SameEnd(fin[i], fin0[i])
    ensures o.Some? && o.value.2 == F.Mul(o.value.0, o.value.1)
  {
    assert fin[0].Some? && SameEnd(fin[0], fin0[0]);
    var shs := seq(|fin|, i requires 0 <= i < |fin| => fin[i].value);
    var shs0 := seq(|fin0|, i requires 0 <= i < |fin0| => fin0[i].value);
    forall i | 0 <= i < |fin| ensures shs[i].val == shs0[i].val { assert SameEnd(fin[i], fin0[i]); }
    assert ValRows(shs) == ValRows(shs0);
  }
}
