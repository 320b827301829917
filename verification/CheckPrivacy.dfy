/** What the verifiers see of a multiplication check. Off the interpolation points every pair is the
    opening of exactly one masking pair, whatever the triples, and for right triples the third value is
    the product; the messages are differences to secrets. So runs on any right triples look alike. */
module CheckPrivacy {
  import opened Options
  import opened Algebra
  import opened Polynomials
  import opened Interpolation
  import opened Folding
  import opened AuthShares
  import opened Compression

  // ---- the masks' part of the opening ----

  lemma InvNonzero<E(!new)>(F: Field<E>, x: E)
    requires F.Laws() && x != F.zero
    ensures F.Inv(x) != F.zero
  {
    assert At1(x);
    Zero(F, x);
  }

  // Off the points every Lagrange coefficient is nonzero.
  lemma CoeffNonzero<E(!new)>(F: Field<E>, pts: seq<E>, j: nat, r: E)
    requires F.Laws() && Distinct(pts) && j < |pts| && r !in pts
    ensures LagrangeCoeff(F, pts, j, r) != F.zero
  {
    var others := Others(pts, j);
    OthersHas(pts, j);
    RootProdZero(F, others, r);
    RootProdZero(F, others, pts[j]);
    var p, q := RootProd(F, others, r), RootProd(F, others, pts[j]);
    InvNonzero(F, q);
    if F.Mul(p, F.Inv(q)) == F.zero { NoZeroDivisors(F, p, F.Inv(q)); }
  }

  // The folded vector without its mask.
  function Unmasked<E(!new)>(F: Field<E>, x: seq<E>, low: seq<E>): E
    requires |low| == |x| + 1
  {
    Dot(F, x, low[..|x|])
  }

  lemma MaskAdds<E(!new)>(F: Field<E>, x: seq<E>, mask: E, low: seq<E>)
    requires F.Laws() && |low| == |x| + 1
    ensures FoldVec(F, x + [mask], low, 1)[0] == F.Add(Unmasked(F, x, low), F.Mul(mask, low[|x|]))
  {
    var n := |x|;
    assert Strided(x + [mask], 0, 1, n + 1) == x + [mask];
    assert low == low[..n] + [low[n]];
    DotAppend(F, x, low[..n], [mask], [low[n]]);
    assert Dot(F, [mask], [low[n]]) == F.Mul(mask, low[n]) by { OneProduct(F, mask, low[n]); }
  }

  lemma OneProduct<E(!new)>(F: Field<E>, a: E, b: E)
    requires F.Laws()
    ensures Dot(F, [a], [b]) == F.Mul(a, b)
  {
    Zero(F, F.Mul(a, b));
    assert [a][1..] == [] && [b][1..] == [];
  }

  // The mask with which the vector opens to a.
  function MaskFor<E(!new)>(F: Field<E>, x: seq<E>, low: seq<E>, a: E): E
    requires |low| == |x| + 1
  {
    F.Mul(F.Sub(a, Unmasked(F, x, low)), F.Inv(low[|x|]))
  }

  lemma OneMask<E(!new)>(F: Field<E>, x: seq<E>, low: seq<E>, a: E, mask: E)
    requires F.Laws() && |low| == |x| + 1 && low[|x|] != F.zero
    ensures FoldVec(F, x + [mask], low, 1)[0] == a <==> mask == MaskFor(F, x, low, a)
  {
    var u, l := Unmasked(F, x, low), low[|x|];
    MaskAdds(F, x, mask, low);
    hide FoldVec, Unmasked;
    Solves(F, u, l, a, mask);
  }

  lemma Solves<E(!new)>(F: Field<E>, u: E, l: E, a: E, m: E)
    requires F.Laws() && l != F.zero
    ensures F.Add(u, F.Mul(m, l)) == a <==> m == F.Mul(F.Sub(a, u), F.Inv(l))
  {
    var d := F.Sub(a, u);
    var s := F.Mul(d, F.Inv(l));
    SubLaws(F, a, u);
    assert At3(d, F.Inv(l), l) && At2(F.Inv(l), l) && At1(l) && At1(d);
    assert F.Mul(s, l) == d;
    if F.Add(u, F.Mul(m, l)) == a {
      assert At2(u, F.Mul(m, l)) && At2(u, d);
      Cancel(F, F.Mul(m, l), d, u);
      MulCancel(F, m, s, l);
    }
  }

  // ---- whole runs ----

  ghost predicate OpensTo<E(!new)>(o: Option<(E, E, E)>, a: E, b: E) {
    o.Some? && o.value.0 == a && o.value.1 == b
  }

  lemma LastOpens<E(!new)>(F: Field<E>, P: Params<E>, st: State<E>, r: E, a: E, b: E) returns (mask: (E, E))
    requires F.Laws() && P.Good() && Valid(P.m, st) && st.len == 1 && r !in P.lastPts
    ensures forall other: (E, E) ::
              var x, y := st.x + [other.0], st.y + [other.1];
              var o := Opening(F, P, x, y, Report(F, P.lastPts, P.m + 1, P.m, x, y, 1, st.z), r);
              o.0 == a && o.1 == b <==> other == mask
  {
    var low := LagrangeRow(F, P.lastPts[..P.m + 1], r);
    assert Distinct(P.lastPts[..P.m + 1]);
    CoeffNonzero(F, P.lastPts[..P.m + 1], P.m, r);
    mask := (MaskFor(F, st.x, low, a), MaskFor(F, st.y, low, b));
    hide Report, LagrangeCoeff, MaskFor, FoldVec, ValueAt, Distinct;
    forall other: (E, E)
      ensures var x, y := st.x + [other.0], st.y + [other.1];
              var o := Opening(F, P, x, y, Report(F, P.lastPts, P.m + 1, P.m, x, y, 1, st.z), r);
              o.0 == a && o.1 == b <==> other == mask
    {
      OneMask(F, st.x, low, a, other.0);
      OneMask(F, st.y, low, b, other.1);
    }
  }

  /** Whatever the claim and the challenges, hitting no interpolation point: every pair (a, b) is
      opened under exactly one masking pair. */
  lemma {:induction false} OneMaskOpens<E(!new)>(F: Field<E>, P: Params<E>, st: State<E>, rs: seq<E>, a: E, b: E)
    returns (mask: (E, E))
    requires F.Laws() && P.Good() && Valid(P.m, st) && Rounds(P.m, st.len) <= |rs|
    requires !HitsPoint(P, Rounds(P.m, st.len), rs)
    ensures forall other: (E, E) :: OpensTo(ProverRun(F, P, st, rs, other).triple, a, b) <==> other == mask
    decreases st.len
  {
    hide NextState, Report, Opening, HitsPoint, Chunks, Distinct;
    if st.len > 1 {
      HitsLater(P, Rounds(P.m, st.len), rs, rs[1..]);
      var h := Report(F, P.pts, P.m, P.m, st.x, st.y, st.len, st.z);
      mask := OneMaskOpens(F, P, NextState(F, P, st, h, rs[0]), rs[1..], a, b);
    } else {
      HitsOnce(P, rs);
      mask := LastOpens(F, P, st, rs[0], a, b);
    }
  }

  /** So for right triples the opening tells nothing: runs on any two of them, with one masking pair
      each, open to (a, b, a * b). */
  lemma OpeningsAlike<E(!new)>(F: Field<E>, P: Params<E>, st: State<E>, st': State<E>, rs: seq<E>, mask: (E, E))
    returns (mask': (E, E))
    requires F.Laws() && P.Good() && Valid(P.m, st) && Valid(P.m, st') && st.len == st'.len
    requires Rounds(P.m, st.len) <= |rs| && !HitsPoint(P, Rounds(P.m, st.len), rs) && Holds(F, st) && Holds(F, st')
    ensures ProverRun(F, P, st, rs, mask).triple.Some?
    ensures ProverRun(F, P, st', rs, mask').triple == ProverRun(F, P, st, rs, mask).triple
  {
    hide HitsPoint, ProverRun, Holds;
    HonestOutcome(F, P, st, rs, mask);
    AbortsExactly(F, P, st, ProverRun(F, P, st, rs, mask).sent, rs);
    var o := ProverRun(F, P, st, rs, mask).triple.value;
    mask' := OneMaskOpens(F, P, st', rs, o.0, o.1);
    RunComplete(F, P, st, rs, mask);
    RunComplete(F, P, st', rs, mask');
  }

  // ---- transcripts ----

  // As many secrets as the messages have values.
  ghost predicate Fitting<E>(msgs: seq<seq<E>>, secrets: seq<seq<E>>) {
    |msgs| == |secrets| && forall k :: 0 <= k < |msgs| ==> |msgs[k]| == |secrets[k]|
  }

  // What is broadcast in the rounds of a run.
  function Broadcast<E(!new)>(F: Field<E>, msgs: seq<seq<E>>, secrets: seq<seq<E>>): (r: seq<seq<E>>)
    requires Fitting(msgs, secrets)
    ensures |r| == |msgs| && Fitting(msgs, r)
  {
    seq(|msgs|, k requires 0 <= k < |msgs| => DiffTo(F, msgs[k], secrets[k]))
  }

  lemma {:induction false} SameSizes<E(!new)>(F: Field<E>, P: Params<E>, st: State<E>, st': State<E>, rs: seq<E>,
                                              mask: (E, E), mask': (E, E))
    requires P.Good() && Valid(P.m, st) && Valid(P.m, st') && st.len == st'.len && Rounds(P.m, st.len) <= |rs|
    ensures Fitting(ProverRun(F, P, st, rs, mask).sent, ProverRun(F, P, st', rs, mask').sent)
    decreases st.len
  {
    hide NextState, Report, Opening, Chunks, Distinct;
    if st.len > 1 && rs[0] !in P.pts {
      var h := Report(F, P.pts, P.m, P.m, st.x, st.y, st.len, st.z);
      var h' := Report(F, P.pts, P.m, P.m, st'.x, st'.y, st'.len, st'.z);
      SameSizes(F, P, NextState(F, P, st, h, rs[0]), NextState(F, P, st', h', rs[0]), rs[1..], mask, mask');
    }
  }

  // The secrets under which other messages look the same.
  lemma OneChoiceOfSecrets<E(!new)>(F: Field<E>, msgs: seq<seq<E>>, diffs: seq<seq<E>>) returns (secrets: seq<seq<E>>)
    requires F.Laws() && Fitting(msgs, diffs)
    ensures Fitting(msgs, secrets)
    ensures forall other :: Fitting(msgs, other) ==> (Broadcast(F, msgs, other) == diffs <==> other == secrets)
  {
    secrets := Broadcast(F, msgs, diffs);
    forall other | Fitting(msgs, other) ensures Broadcast(F, msgs, other) == diffs <==> other == secrets {
      var b := Broadcast(F, msgs, other);
      forall k | 0 <= k < |msgs| ensures b[k] == diffs[k] <==> other[k] == secrets[k] {
        TakenAway(F, msgs[k], other[k], diffs[k]);
      }
    }
  }

  lemma TakenAway<E(!new)>(F: Field<E>, m: seq<E>, s: seq<E>, d: seq<E>)
    requires F.Laws() && |m| == |s| == |d|
    ensures DiffTo(F, m, s) == d <==> s == DiffTo(F, m, d)
  {
    var a, b := DiffTo(F, m, s), DiffTo(F, m, d);
    forall i | 0 <= i < |m| ensures a[i] == d[i] <==> s[i] == b[i] {
      SubLaws(F, m[i], s[i]);
      SubLaws(F, m[i], d[i]);
      assert At2(s[i], d[i]);
      if a[i] == d[i] { Cancel(F, s[i], b[i], d[i]); }
      if s[i] == b[i] { Cancel(F, a[i], d[i], s[i]); }
    }
  }

  /** Zero knowledge of the check: for right triples, what is broadcast and opened in a run is broadcast
      and opened in a run on any others of the same number, under one masking pair and one choice of the
      preprocessed secrets. */
  lemma TranscriptsAlike<E(!new)>(F: Field<E>, P: Params<E>, st: State<E>, st': State<E>, rs: seq<E>, mask: (E, E),
                                  secrets: seq<seq<E>>) returns (mask': (E, E), secrets': seq<seq<E>>)
    requires F.Laws() && P.Good() && Valid(P.m, st) && Valid(P.m, st') && st.len == st'.len
    requires Rounds(P.m, st.len) <= |rs| && !HitsPoint(P, Rounds(P.m, st.len), rs) && Holds(F, st) && Holds(F, st')
    requires Fitting(ProverRun(F, P, st, rs, mask).sent, secrets)
    ensures var run, run' := ProverRun(F, P, st, rs, mask), ProverRun(F, P, st', rs, mask');
            && run'.triple == run.triple && Fitting(run'.sent, secrets')
            && Broadcast(F, run'.sent, secrets') == Broadcast(F, run.sent, secrets)
  {
    hide ProverRun, Holds, HitsPoint, Distinct;
    mask' := OpeningsAlike(F, P, st, st', rs, mask);
    SameSizes(F, P, st, st', rs, mask, mask');
    var diffs := Broadcast(F, ProverRun(F, P, st, rs, mask).sent, secrets);
    secrets' := OneChoiceOfSecrets(F, ProverRun(F, P, st', rs, mask').sent, diffs);
  }
}
