/** The fixed-degree transform: from the bit-reversed coefficients of a short polynomial to its
    values at all the odd powers of psi, in natural order, merging even and odd parts. */
module NttFixed {
  import opened Bits
  import opened Algebra
  import opened Polynomials
  import opened Ntt
  import opened NttCorrect

  // ---- one stage, as a function of the whole vector ----

  // A butterfly over a block of 2t entries, with one twiddle factor per pair.
  function Join<E(!new)>(F: Field<E>, b: seq<E>, ws: seq<E>): (r: seq<E>)
    requires |b| == 2 * |ws|
    ensures |r| == |b|
  {
    var t := |ws|;
    seq(2 * t, j requires 0 <= j < 2 * t =>
      if j < t then F.Add(b[j], F.Mul(b[j + t], ws[j])) else F.Sub(b[j - t], F.Mul(b[j], ws[j - t])))
  }

  function JoinStage<E(!new)>(F: Field<E>, ws: seq<E>, m: nat, v: seq<E>): (r: seq<E>)
    requires |v| == Span(|ws|, m)
    ensures |r| == |v|
    decreases m
  {
    if m == 0 then [] else Join(F, v[..2 * |ws|], ws) + JoinStage(F, ws, m - 1, v[2 * |ws|..])
  }

  lemma {:induction false} JoinSnoc<E(!new)>(F: Field<E>, ws: seq<E>, m: nat, v: seq<E>, b: seq<E>)
    requires |v| == Span(|ws|, m) && |b| == 2 * |ws|
    ensures |v + b| == Span(|ws|, m + 1)
    ensures JoinStage(F, ws, m + 1, v + b) == JoinStage(F, ws, m, v) + Join(F, b, ws)
    decreases m
  {
    hide Join;
    var t, v' := 2 * |ws|, v + b;
    if m == 0 {
      assert v' == b && b[..t] == b && b[t..] == [];
    } else {
      assert v'[..t] == v[..t] && v'[t..] == v[t..] + b;
      JoinSnoc(F, ws, m - 1, v[t..], b);
      var d, d', r := Join(F, v[..t], ws), Join(F, b, ws), JoinStage(F, ws, m - 1, v[t..]);
      assert JoinStage(F, ws, m + 1, v') == d + (r + d') == (d + r) + d';
    }
  }

  // ---- the loops ----

  function Twiddles<E(!new)>(powers: seq<E>, L: nat, m: nat, t: nat): (ws: seq<E>)
    requires |powers| == Pow2(L)
    ensures |ws| == t
  {
    seq(t, j requires 0 <= j < t => powers[RevBits(m * (2 * j + 1), L)])
  }

  lemma JoinDone<E(!new)>(F: Field<E>, was: seq<E>, l: nat, ws: seq<E>, r: seq<E>, j: nat, cur: seq<E>)
    requires l + 2 * |ws| <= |was| && j < |ws|
    requires r == Join(F, was[l..l + 2 * |ws|], ws) && HalfDone(was, l, |ws|, r, j, cur)
    ensures |cur| == |was| && HalfDone(was, l, |ws|, r, j + 1, Butterflied(F, cur, l + j, |ws|, ws[j]))
  {
  }

  method TwiddleAt<E(!new)>(powers: seq<E>, L: nat, m: nat, t: nat, jj: nat) returns (w: E)
    requires |powers| == Pow2(L) && jj < t
    ensures w == Twiddles(powers, L, m, t)[jj]
  {
    var idx := ReverseBits(m * (2 * jj + 1), L);
    w := powers[idx];
  }

  method JoinBlock<E(!new)>(F: Field<E>, a: array<E>, powers: seq<E>, L: nat, m: nat, ghost ws: seq<E>, l: nat, t: nat)
    requires |powers| == Pow2(L) && ws == Twiddles(powers, L, m, t) && l + 2 * t <= a.Length
    modifies a
    ensures a[..] == Patch(old(a[..]), l, Join(F, old(a[..])[l..l + 2 * t], ws))
  {
    hide *;
    ghost var was := a[..];
    ghost var r := Join(F, was[l..l + 2 * t], ws);
    var j, jj := l, 0;
    Rebuild(was, l, t, r, was);
    while j < l + t
      invariant l <= j <= l + t && jj == j - l
      invariant HalfDone(was, l, t, r, jj, a[..])
    {
      JoinDone(F, was, l, ws, r, jj, a[..]);
      var w := TwiddleAt(powers, L, m, t, jj);
      Butterfly(F, a, j, t, w);
      j, jj := j + 1, jj + 1;
    }
    Rebuild(was, l, t, r, a[..]);
  }

  // v with the stage done on its first i blocks.
  ghost function Joined<E(!new)>(F: Field<E>, ws: seq<E>, m: nat, v: seq<E>, i: nat): seq<E>
    requires i <= m && |v| == Span(|ws|, m) && Span(|ws|, i) <= |v|
  {
    JoinStage(F, ws, i, v[..Span(|ws|, i)]) + v[Span(|ws|, i)..]
  }

  lemma JoinedEnds<E(!new)>(F: Field<E>, ws: seq<E>, m: nat, v: seq<E>)
    requires |v| == Span(|ws|, m)
    ensures Span(|ws|, 0) == 0 && Joined(F, ws, m, v, 0) == v && Joined(F, ws, m, v, m) == JoinStage(F, ws, m, v)
  {
    assert v[..|v|] == v;
  }

  lemma JoinedNext<E(!new)>(F: Field<E>, ws: seq<E>, m: nat, v: seq<E>, i: nat, l: nat, cur: seq<E>)
    requires i < m && |v| == Span(|ws|, m) && l == Span(|ws|, i) && l + 2 * |ws| == Span(|ws|, i + 1) <= |v|
    requires cur == Joined(F, ws, m, v, i) && |cur| == |v|
    ensures Patch(cur, l, Join(F, cur[l..l + 2 * |ws|], ws)) == Joined(F, ws, m, v, i + 1)
  {
    hide Span, JoinStage, Join;
    var b, n := v[l..l + 2 * |ws|], l + 2 * |ws|;
    assert cur[..l] == JoinStage(F, ws, i, v[..l]) && cur[l..n] == b && cur[n..] == v[n..];
    JoinSnoc(F, ws, i, v[..l], b);
    assert v[..n] == v[..l] + b;
  }

  method JoinNext<E(!new)>(F: Field<E>, a: array<E>, powers: seq<E>, L: nat, m: nat, t: nat, ghost ws: seq<E>,
                           ghost v: seq<E>, ghost i: nat, l: nat)
    requires |powers| == Pow2(L) && ws == Twiddles(powers, L, m, t) && |ws| == t
    requires i < m && |v| == a.Length == Span(t, m) && l == Span(t, i) <= a.Length
    requires a[..] == Joined(F, ws, m, v, i)
    modifies a
    ensures l + 2 * t == Span(t, i + 1) <= a.Length
    ensures a[..] == Joined(F, ws, m, v, i + 1)
  {
    hide *;
    SpanGrows(t, i, m);
    JoinedNext(F, ws, m, v, i, l, a[..]);
    JoinBlock(F, a, powers, L, m, ws, l, t);
  }

  method JoinLoop<E(!new)>(F: Field<E>, a: array<E>, powers: seq<E>, L: nat, m: nat, t: nat)
    requires |powers| == Pow2(L) && a.Length == Span(t, m)
    modifies a
    ensures a[..] == JoinStage(F, Twiddles(powers, L, m, t), m, old(a[..]))
  {
    hide *;
    ghost var v, ws := a[..], Twiddles(powers, L, m, t);
    JoinedEnds(F, ws, m, v);
    var i, l := 0, 0;
    while i < m
      invariant 0 <= i <= m && l == Span(t, i) <= a.Length
      invariant a[..] == Joined(F, ws, m, v, i)
    {
      JoinNext(F, a, powers, L, m, t, ws, v, i, l);
      l := l + 2 * t;
      i := i + 1;
    }
  }

  // ---- whole transforms ----

  function Spread<E(!new)>(inn: seq<E>, dup: nat): (r: seq<E>)
  {
    if inn == [] then [] else seq(dup, _ => inn[0]) + Spread(inn[1..], dup)
  }

  lemma MergeHalves(L: nat, j: nat)
    requires 1 <= j <= L
    ensures Span(Pow2(L - j), Pow2(j - 1)) == Pow2(L) && Pow2(j) == 2 * Pow2(j - 1)
             && 2 * Pow2(L - j) == Pow2(L - j + 1)
  {
    Halves(L, L - j + 1);
  }

  // The last j stages: t = 2^(L-j), ..., 2^(L-1).
  function Merge<E(!new)>(F: Field<E>, powers: seq<E>, L: nat, j: nat, v: seq<E>): (r: seq<E>)
    requires |v| == |powers| == Pow2(L) && j <= L
    ensures |r| == |v|
    decreases j
  {
    if j == 0 then v
    else
      MergeHalves(L, j);
      var m, t := Pow2(j - 1), Pow2(L - j);
      Merge(F, powers, L, j - 1, JoinStage(F, Twiddles(powers, L, m, t), m, v))
  }

  lemma {:induction false} SpreadSnoc<E(!new)>(inn: seq<E>, x: E, dup: nat)
    ensures Spread(inn + [x], dup) == Spread(inn, dup) + seq(dup, _ => x)
  {
    if inn == [] {
      assert [x][1..] == [];
    } else {
      assert (inn + [x])[1..] == inn[1..] + [x];
      SpreadSnoc(inn[1..], x, dup);
    }
  }

  lemma {:induction false} SpreadSize<E(!new)>(inn: seq<E>, dup: nat)
    ensures |Spread(inn, dup)| == |inn| * dup
  {
    if inn != [] {
      SpreadSize(inn[1..], dup);
      assert |inn| * dup == dup + |inn[1..]| * dup;
    }
  }

  function Copies<E(!new)>(s: seq<E>, x: E, dup: nat): (r: seq<E>)
    ensures |r| == |s| + dup
  {
    s + seq(dup, _ => x)
  }

  lemma SpreadNext<E(!new)>(inn: seq<E>, dup: nat, l: nat)
    requires l < |inn|
    ensures Copies(Spread(inn[..l], dup), inn[l], dup) == Spread(inn[..l + 1], dup)
    ensures (l + 1) * dup == l * dup + dup <= |inn| * dup
  {
    assert inn[..l + 1] == inn[..l] + [inn[l]];
    SpreadSnoc(inn[..l], inn[l], dup);
    MoreCopies(l, |inn|, dup);
  }

  lemma MoreCopies(l: nat, n: nat, dup: nat)
    requires l < n
    ensures (l + 1) * dup == l * dup + dup <= n * dup
  {
  }

  lemma SpreadEnd<E(!new)>(inn: seq<E>, dup: nat, l: nat)
    requires l <= |inn| && 1 <= dup
    ensures l * dup < |inn| * dup <==> l < |inn|
    ensures Spread(inn[..0], dup) == [] && Spread(inn[..|inn|], dup) == Spread(inn, dup)
  {
    assert inn[..|inn|] == inn;
    if l < |inn| { MoreCopies(l, |inn|, dup); }
  }

  // Copies every input `dup` times.
  method SpreadLoop<E(!new)>(F: Field<E>, inn: seq<E>, dup: nat, dim: nat) returns (res: array<E>)
    requires dup >= 1 && dim == |inn| * dup
    ensures fresh(res) && res.Length == dim && res[..] == Spread(inn, dup)
  {
    hide *;
    res := new E[dim](_ => F.zero);
    var i, l := 0, 0;
    SpreadEnd(inn, dup, 0);
    while i < dim
      invariant 0 <= l <= |inn| && i == l * dup <= dim
      invariant res[..i] == Spread(inn[..l], dup)
    {
      SpreadEnd(inn, dup, l);
      SpreadNext(inn, dup, l);
      CopyLoop(res, i, dup, inn[l]);
      i, l := i + dup, l + 1;
    }
    SpreadEnd(inn, dup, l);
    assert res[..i] == res[..];
  }

  method CopyLoop<E(!new)>(a: array<E>, i: nat, dup: nat, x: E)
    requires i + dup <= a.Length
    modifies a
    ensures a[..i + dup] == Copies(old(a[..i]), x, dup)
  {
    var j := 0;
    while j < dup
      invariant 0 <= j <= dup && a[..i] == old(a[..i])
      invariant forall k :: i <= k < i + j ==> a[k] == x
    {
      a[i + j] := x;
      j := j + 1;
    }
  }

  method FixDegreeInplace<E(!new)>(F: Field<E>, powers: seq<E>, L: nat, inn: seq<E>, li: nat) returns (res: array<E>)
    requires |powers| == Pow2(L) && li <= L && |inn| == Pow2(li)
    ensures fresh(res) && |Spread(inn, Pow2(L - li))| == Pow2(L)
    ensures res[..] == Merge(F, powers, L, li, Spread(inn, Pow2(L - li)))
  {
    hide *;
    var dup := Pow2(L - li);
    Pow2Add(li, L - li);
    SpreadSize(inn, dup);
    res := SpreadLoop(F, inn, dup, Pow2(L));
    MergeLoop(F, res, powers, L, li, |inn|, dup);
  }

  method MergeLoop<E(!new)>(F: Field<E>, a: array<E>, powers: seq<E>, L: nat, li: nat, dimIn: nat, dup: nat)
    requires a.Length == |powers| == Pow2(L) && li <= L && dimIn == Pow2(li) && dup == Pow2(L - li)
    modifies a
    ensures a[..] == Merge(F, powers, L, li, old(a[..]))
  {
    ghost var want := Merge(F, powers, L, li, a[..]);
    var m, t := dimIn / 2, dup;
    assert MergeDims(L, li, m, t);
    hide *;
    var j := li;
    while j > 0
      invariant 0 <= j <= li && 0 <= m && 0 <= t && MergeDims(L, j, m, t)
      invariant Merge(F, powers, L, j, a[..]) == want
      decreases j
    {
      MergeOnce(F, a, powers, L, j, m, t);
      t := 2 * t;
      m := m / 2;
      j := j - 1;
    }
    MergeNone(F, powers, L, a[..]);
  }

  lemma MergeNone<E(!new)>(F: Field<E>, powers: seq<E>, L: nat, v: seq<E>)
    requires |v| == |powers| == Pow2(L)
    ensures Merge(F, powers, L, 0, v) == v
  {
  }

  // Block count and half block size when j stages remain.
  ghost predicate MergeDims(L: nat, j: nat, m: nat, t: nat)
    requires j <= L
  {
    t == Pow2(L - j) && (j > 0 ==> m == Pow2(j - 1))
  }

  method MergeOnce<E(!new)>(F: Field<E>, a: array<E>, powers: seq<E>, L: nat, ghost j: nat, m: nat, t: nat)
    requires a.Length == |powers| == Pow2(L) && 1 <= j <= L && MergeDims(L, j, m, t)
    modifies a
    ensures Merge(F, powers, L, j - 1, a[..]) == old(Merge(F, powers, L, j, a[..]))
    ensures MergeDims(L, j - 1, m / 2, 2 * t)
  {
    MergeHalves(L, j);
    JoinLoop(F, a, powers, L, m, t);
  }

  // ---- what it computes ----

  // The polynomial with even part a and odd part b: a(X^2) + X * b(X^2).
  function Interleave<E(!new)>(a: seq<E>, b: seq<E>): (r: seq<E>)
    requires |a| == |b|
    ensures |r| == 2 * |a|
  {
    seq(2 * |a|, i requires 0 <= i < 2 * |a| => if i % 2 == 0 then a[i / 2] else b[i / 2])
  }

  lemma {:induction false} EvalInterleave<E(!new)>(F: Field<E>, a: seq<E>, b: seq<E>, x: E, xx: E)
    requires F.Laws() && |a| == |b| && xx == F.Mul(x, x)
    ensures Eval(F, Interleave(a, b), x) == F.Add(Eval(F, a, xx), F.Mul(x, Eval(F, b, xx)))
  {
    if a == [] {
      Zero(F, x);
      Zero(F, F.zero);
    } else {
      var rest := Interleave(a[1..], b[1..]);
      assert Interleave(a, b) == [a[0]] + ([b[0]] + rest);
      EvalInterleave(F, a[1..], b[1..], x, xx);
      EvalCons(F, b[0], rest, x);
      EvalCons(F, a[0], [b[0]] + rest, x);
      InterleaveParts(F, a[0], b[0], x, Eval(F, a[1..], xx), Eval(F, b[1..], xx));
    }
  }

  lemma InterleaveParts<E(!new)>(F: Field<E>, a: E, b: E, x: E, s: E, u: E)
    requires F.Laws()
    ensures F.Add(a, F.Mul(x, F.Add(b, F.Mul(x, F.Add(s, F.Mul(x, u))))))
         == F.Add(F.Add(a, F.Mul(F.Mul(x, x), s)), F.Mul(x, F.Add(b, F.Mul(F.Mul(x, x), u))))
  {
    Ring(F);
  }

  // psi^M, psi^3M, psi^5M, ...
  function OddPowers<E(!new)>(F: Field<E>, psi: E, M: nat, t: nat): (r: seq<E>)
    ensures |r| == t
  {
    seq(t, i requires 0 <= i < t => Pow(F, psi, M * (2 * i + 1)))
  }

  // Consecutive blocks of |pts| entries hold the values of the polynomials cs at pts.
  ghost predicate Valued<E(!new)>(F: Field<E>, v: seq<E>, cs: seq<seq<E>>, pts: seq<E>)
    decreases |cs|
  {
    if cs == [] then v == []
    else |pts| <= |v| && v[..|pts|] == Evals(F, cs[0], pts) && Valued(F, v[|pts|..], cs[1..], pts)
  }

  function Pairs<E(!new)>(cs: seq<seq<E>>, n: nat): (r: seq<seq<E>>)
    requires Rows(n, cs)
    ensures |r| == |cs| / 2 && Rows(2 * n, r)
  {
    seq(|cs| / 2, i requires 0 <= i < |cs| / 2 => Interleave(cs[2 * i], cs[2 * i + 1]))
  }

  // ws squares to pts; pts2 is ws followed by its negatives.
  ghost predicate Doubling<E(!new)>(F: Field<E>, ws: seq<E>, pts: seq<E>, pts2: seq<E>) {
    && |ws| == |pts| && |pts2| == 2 * |pts|
    && (forall i :: 0 <= i < |ws| ==> F.Mul(ws[i], ws[i]) == pts[i] && pts2[i] == ws[i])
    && (forall i :: 0 <= i < |ws| ==> pts2[i + |ws|] == F.Neg(ws[i]))
  }

  lemma JoinValue<E(!new)>(F: Field<E>, a: seq<E>, b: seq<E>, ws: seq<E>, pts: seq<E>, pts2: seq<E>, j: nat)
    requires F.Laws() && |a| == |b| && Doubling(F, ws, pts, pts2) && j < 2 * |ws|
    ensures Join(F, Evals(F, a, pts) + Evals(F, b, pts), ws)[j] == Eval(F, Interleave(a, b), pts2[j])
  {
    var t := |ws|;
    var i := if j < t then j else j - t;
    JoinEntry(F, a, b, ws, pts, i);
    var w, u, s := ws[i], Eval(F, a, pts[i]), Eval(F, b, pts[i]);
    assert F.Mul(w, w) == pts[i] && pts2[i] == w && pts2[i + t] == F.Neg(w);
    NegLaws(F, w, w);
    NegLaws(F, w, s);
    hide Join, Doubling, Eval, Interleave;
    assert At2(w, s);
    EvalInterleave(F, a, b, pts2[j], pts[i]);
  }

  lemma JoinEntry<E(!new)>(F: Field<E>, a: seq<E>, b: seq<E>, ws: seq<E>, pts: seq<E>, i: nat)
    requires |ws| == |pts| && i < |ws|
    ensures var r, u, s := Join(F, Evals(F, a, pts) + Evals(F, b, pts), ws), Eval(F, a, pts[i]), Eval(F, b, pts[i]);
            r[i] == F.Add(u, F.Mul(s, ws[i])) && r[i + |ws|] == F.Sub(u, F.Mul(s, ws[i]))
  {
    hide Eval;
  }

  lemma JoinValues<E(!new)>(F: Field<E>, a: seq<E>, b: seq<E>, ws: seq<E>, pts: seq<E>, pts2: seq<E>)
    requires F.Laws() && |a| == |b| && Doubling(F, ws, pts, pts2)
    ensures Join(F, Evals(F, a, pts) + Evals(F, b, pts), ws) == Evals(F, Interleave(a, b), pts2)
  {
    forall j | 0 <= j < 2 * |ws|
      ensures Join(F, Evals(F, a, pts) + Evals(F, b, pts), ws)[j] == Evals(F, Interleave(a, b), pts2)[j]
    {
      JoinValue(F, a, b, ws, pts, pts2, j);
    }
  }

  lemma FirstTwo<E(!new)>(F: Field<E>, v: seq<E>, cs: seq<seq<E>>, pts: seq<E>)
    requires Valued(F, v, cs, pts) && |cs| >= 2 && 2 * |pts| <= |v|
    ensures v[..2 * |pts|] == Evals(F, cs[0], pts) + Evals(F, cs[1], pts)
    ensures Valued(F, v[2 * |pts|..], cs[2..], pts)
  {
    hide Evals;
    var t := |pts|;
    assert v[..2 * t] == v[..t] + v[t..][..t] && v[t..][t..] == v[2 * t..];
    assert cs[1..][1..] == cs[2..] && cs[1..][0] == cs[1];
    assert Valued(F, v[t..], cs[1..], pts);
  }

  // A stage turns the values of the polynomials into values of their pairwise merges.
  lemma {:induction false} JoinStageValues<E(!new)>(
      F: Field<E>, ws: seq<E>, m: nat, v: seq<E>, cs: seq<seq<E>>, n: nat, pts: seq<E>, pts2: seq<E>)
    requires F.Laws() && Doubling(F, ws, pts, pts2) && |v| == Span(|ws|, m)
    requires |cs| == 2 * m && Rows(n, cs) && Valued(F, v, cs, pts)
    ensures Valued(F, JoinStage(F, ws, m, v), Pairs(cs, n), pts2)
    decreases m
  {
    if m != 0 {
      hide Join, Doubling, Evals, Interleave, Pairs;
      var t := |ws|;
      var b, rest := v[..2 * t], v[2 * t..];
      FirstTwo(F, v, cs, pts);
      assert |pts| == t by { assert Doubling(F, ws, pts, pts2); }
      JoinValues(F, cs[0], cs[1], ws, pts, pts2);
      JoinStageValues(F, ws, m - 1, rest, cs[2..], n, pts, pts2);
      PairsCons(cs, n);
      var x, y, d, ds := Join(F, b, ws), JoinStage(F, ws, m - 1, rest), Interleave(cs[0], cs[1]), Pairs(cs[2..], n);
      assert (x + y)[..2 * t] == x && (x + y)[2 * t..] == y;
      assert ([d] + ds)[0] == d && ([d] + ds)[1..] == ds;
    }
  }

  lemma PairsCons<E(!new)>(cs: seq<seq<E>>, n: nat)
    requires Rows(n, cs) && |cs| >= 2
    ensures Pairs(cs, n) == [Interleave(cs[0], cs[1])] + Pairs(cs[2..], n)
  {
    var r, q := Pairs(cs, n), Pairs(cs[2..], n);
    forall i | 0 <= i < |cs| / 2 ensures r[i] == ([Interleave(cs[0], cs[1])] + q)[i] {
      if i > 0 { assert cs[2..][2 * (i - 1)] == cs[2 * i] && cs[2..][2 * (i - 1) + 1] == cs[2 * i + 1]; }
    }
  }

  // ---- all stages together ----

  // The polynomials of 2^j values merged pair by pair until one is left.
  function MergeAll<E(!new)>(cs: seq<seq<E>>, n: nat, j: nat): seq<E>
    requires Rows(n, cs) && |cs| == Pow2(j)
    decreases j
  {
    if j == 0 then cs[0] else MergeAll(Pairs(cs, n), 2 * n, j - 1)
  }

  lemma TwiddlesDouble<E(!new)>(F: Field<E>, psi: E, L: nat, powers: seq<E>, j: nat, m: nat, t: nat)
    requires F.Laws() && Root(F, psi, L) && IsTable(F, psi, L, powers) && |powers| == Pow2(L)
    requires 1 <= j <= L && m == Pow2(j - 1) && t == Pow2(L - j)
    ensures Doubling(F, Twiddles(powers, L, m, t), OddPowers(F, psi, 2 * m, t), OddPowers(F, psi, m, 2 * t))
  {
    var ws, pts, pts2 := Twiddles(powers, L, m, t), OddPowers(F, psi, 2 * m, t), OddPowers(F, psi, m, 2 * t);
    assert m * (2 * t) == Pow2(L) by { SpanIs(t, m); MergeHalves(L, j); }
    hide Pow2, RevBits, Root, IsTable, Pow, Twiddles, OddPowers;
    forall i | 0 <= i < t
      ensures F.Mul(ws[i], ws[i]) == pts[i] && pts2[i] == ws[i] && pts2[i + t] == F.Neg(ws[i])
    {
      TwiddleDoubles(F, psi, L, powers, m, t, i);
    }
  }

  lemma TwiddleDoubles<E(!new)>(F: Field<E>, psi: E, L: nat, powers: seq<E>, m: nat, t: nat, i: nat)
    requires F.Laws() && Root(F, psi, L) && IsTable(F, psi, L, powers) && |powers| == Pow2(L)
    requires m * (2 * t) == Pow2(L) && i < t
    ensures var ws, pts, pts2 := Twiddles(powers, L, m, t), OddPowers(F, psi, 2 * m, t), OddPowers(F, psi, m, 2 * t);
            F.Mul(ws[i], ws[i]) == pts[i] && pts2[i] == ws[i] && pts2[i + t] == F.Neg(ws[i])
  {
    hide Pow2, RevBits, Root, IsTable, Pow;
    OddTwiddle(F, psi, L, powers, m, t, i);
  }

  lemma OddTwiddle<E(!new)>(F: Field<E>, psi: E, L: nat, powers: seq<E>, m: nat, t: nat, i: nat)
    requires F.Laws() && Root(F, psi, L) && IsTable(F, psi, L, powers) && m * (2 * t) == Pow2(L) && i < t
    ensures var w := powers[RevBits(m * (2 * i + 1), L)];
            && w == Pow(F, psi, m * (2 * i + 1))
            && F.Mul(w, w) == Pow(F, psi, (2 * m) * (2 * i + 1))
            && Pow(F, psi, m * (2 * (i + t) + 1)) == F.Neg(w)
  {
    var e := m * (2 * i + 1);
    OddIndices(m, t, i);
    RevTwice(e, L);
    hide *;
    PowAdd(F, psi, e, e);
    NegPow(F, psi, L, e);
  }

  lemma OddIndices(m: nat, t: nat, i: nat)
    requires i < t && m * (2 * t) >= 1
    ensures var e := m * (2 * i + 1);
            e < m * (2 * t) && (2 * m) * (2 * i + 1) == e + e && m * (2 * (i + t) + 1) == m * (2 * t) + e
  {
    assert m >= 1 && m * (2 * t) == m * (2 * i + 1) + m * (2 * t - 2 * i - 1);
  }

  lemma MergeStep<E(!new)>(F: Field<E>, powers: seq<E>, L: nat, j: nat, m: nat, t: nat, v: seq<E>)
    requires |v| == |powers| == Pow2(L) && 1 <= j <= L && m == Pow2(j - 1) && t == Pow2(L - j)
    ensures Span(t, m) == Pow2(L) && Pow2(j) == 2 * m && Pow2(L - j + 1) == 2 * t
    ensures Merge(F, powers, L, j, v) == Merge(F, powers, L, j - 1, JoinStage(F, Twiddles(powers, L, m, t), m, v))
  {
    MergeHalves(L, j);
  }

  lemma {:induction false} MergeEvaluates<E(!new)>(
      F: Field<E>, psi: E, L: nat, powers: seq<E>, j: nat, v: seq<E>, cs: seq<seq<E>>, n: nat)
    requires F.Laws() && Root(F, psi, L) && IsTable(F, psi, L, powers) && j <= L && |v| == Pow2(L)
    requires |cs| == Pow2(j) && Rows(n, cs) && Valued(F, v, cs, OddPowers(F, psi, Pow2(j), Pow2(L - j)))
    ensures Merge(F, powers, L, j, v) == Evals(F, MergeAll(cs, n, j), OddPowers(F, psi, 1, Pow2(L)))
    decreases j
  {
    if j == 0 {
      LastValue(F, v, cs, OddPowers(F, psi, 1, Pow2(L)));
    } else {
      MergeEvaluatesStep(F, psi, L, powers, j, Pow2(j - 1), Pow2(L - j), v, cs, n);
    }
  }

  lemma {:induction false} MergeEvaluatesStep<E(!new)>(
      F: Field<E>, psi: E, L: nat, powers: seq<E>, j: nat, m: nat, t: nat, v: seq<E>, cs: seq<seq<E>>, n: nat)
    requires F.Laws() && Root(F, psi, L) && IsTable(F, psi, L, powers) && 1 <= j <= L && |v| == |powers| == Pow2(L)
    requires m == Pow2(j - 1) && t == Pow2(L - j) && Pow2(j) == 2 * m
    requires |cs| == Pow2(j) && Rows(n, cs) && Valued(F, v, cs, OddPowers(F, psi, Pow2(j), t))
    ensures Merge(F, powers, L, j, v) == Evals(F, MergeAll(Pairs(cs, n), 2 * n, j - 1), OddPowers(F, psi, 1, Pow2(L)))
    decreases j, 0
  {
    hide *;
    MergeStep(F, powers, L, j, m, t, v);
    var ws := Twiddles(powers, L, m, t);
    TwiddlesDouble(F, psi, L, powers, j, m, t);
    JoinStageValues(F, ws, m, v, cs, n, OddPowers(F, psi, 2 * m, t), OddPowers(F, psi, m, 2 * t));
    MergeEvaluates(F, psi, L, powers, j - 1, JoinStage(F, ws, m, v), Pairs(cs, n), 2 * n);
  }

  lemma LastValue<E(!new)>(F: Field<E>, v: seq<E>, cs: seq<seq<E>>, pts: seq<E>)
    requires |cs| == 1 && Valued(F, v, cs, pts)
    ensures v == Evals(F, cs[0], pts)
  {
    assert v == v[..|pts|] + v[|pts|..];
  }

  // Every input as a constant polynomial.
  function Singles<E(!new)>(inn: seq<E>): (r: seq<seq<E>>)
    ensures |r| == |inn| && Rows(1, r)
  {
    seq(|inn|, i requires 0 <= i < |inn| => [inn[i]])
  }

  lemma {:induction false} SpreadValued<E(!new)>(F: Field<E>, inn: seq<E>, pts: seq<E>)
    requires F.Laws()
    ensures Valued(F, Spread(inn, |pts|), Singles(inn), pts)
  {
    if inn != [] {
      SpreadValued(F, inn[1..], pts);
      var c, rest := seq(|pts|, _ => inn[0]), Spread(inn[1..], |pts|);
      assert (c + rest)[..|pts|] == c && (c + rest)[|pts|..] == rest;
      assert Singles(inn)[1..] == Singles(inn[1..]);
      assert c == Evals(F, [inn[0]], pts) by {
        forall i | 0 <= i < |pts| ensures Eval(F, [inn[0]], pts[i]) == inn[0] { EvalConst(F, inn[0], pts[i]); }
      }
    }
  }

  // Merging all is merging the halves and interleaving.
  lemma {:induction false} MergeHalved<E(!new)>(cs: seq<seq<E>>, lo: seq<seq<E>>, hi: seq<seq<E>>, n: nat, j: nat)
    requires 1 <= j && |lo| == |hi| == Pow2(j - 1) && cs == lo + hi && Rows(n, lo) && Rows(n, hi)
    ensures |MergeAll(lo, n, j - 1)| == |MergeAll(hi, n, j - 1)|
    ensures MergeAll(cs, n, j) == Interleave(MergeAll(lo, n, j - 1), MergeAll(hi, n, j - 1))
    decreases j
  {
    if j > 1 {
      PairsHalves(lo, hi, n, Pow2(j - 2));
      MergeHalved(Pairs(cs, n), Pairs(lo, n), Pairs(hi, n), 2 * n, j - 1);
    } else {
      assert Pairs(cs, n)[0] == Interleave(cs[0], cs[1]);
    }
  }

  lemma PairsHalves<E(!new)>(lo: seq<seq<E>>, hi: seq<seq<E>>, n: nat, k: nat)
    requires Rows(n, lo) && Rows(n, hi) && |lo| == |hi| == 2 * k
    ensures Pairs(lo + hi, n) == Pairs(lo, n) + Pairs(hi, n)
  {
    var cs := lo + hi;
    var r, r' := Pairs(cs, n), Pairs(lo, n) + Pairs(hi, n);
    forall i | 0 <= i < 2 * k ensures r[i] == r'[i] {
      if i < k {
        assert cs[2 * i] == lo[2 * i] && cs[2 * i + 1] == lo[2 * i + 1];
      } else {
        assert cs[2 * i] == hi[2 * (i - k)] && cs[2 * i + 1] == hi[2 * (i - k) + 1];
      }
    }
  }

  function Merged<E(!new)>(inn: seq<E>, j: nat): seq<E>
    requires |inn| == Pow2(j)
  {
    MergeAll(Singles(inn), 1, j)
  }

  lemma MergedHalved<E(!new)>(lo: seq<E>, hi: seq<E>, j: nat)
    requires 1 <= j && |lo| == |hi| == Pow2(j - 1)
    ensures |Merged(lo, j - 1)| == |Merged(hi, j - 1)|
             && Merged(lo + hi, j) == Interleave(Merged(lo, j - 1), Merged(hi, j - 1))
  {
    assert Singles(lo + hi) == Singles(lo) + Singles(hi);
    MergeHalved(Singles(lo + hi), Singles(lo), Singles(hi), 1, j);
  }

  lemma {:induction false} MergedIndex<E(!new)>(inn: seq<E>, j: nat, i: nat)
    requires |inn| == Pow2(j)
    ensures |Merged(inn, j)| == Pow2(j)
    ensures i < Pow2(j) ==> Merged(inn, j)[i] == inn[RevBits(i, j)]
    decreases j
  {
    if j != 0 {
      var h := Pow2(j - 1);
      assert inn == inn[..h] + inn[h..];
      MergedIndexStep(inn, inn[..h], inn[h..], j, i);
    }
  }

  lemma {:induction false} MergedIndexStep<E(!new)>(inn: seq<E>, lo: seq<E>, hi: seq<E>, j: nat, i: nat)
    requires 1 <= j && inn == lo + hi && |lo| == |hi| == Pow2(j - 1) && Pow2(j) == 2 * Pow2(j - 1)
    ensures |Merged(inn, j)| == Pow2(j)
    ensures i < Pow2(j) ==> Merged(inn, j)[i] == inn[RevBits(i, j)]
    decreases j, 0
  {
    hide *;
    MergedHalved(lo, hi, j);
    MergedIndex(lo, j - 1, i / 2);
    MergedIndex(hi, j - 1, i / 2);
    InterleavedIndex(lo, hi, j, Merged(lo, j - 1), Merged(hi, j - 1), i);
  }

  lemma InterleavedIndex<E(!new)>(lo: seq<E>, hi: seq<E>, j: nat, a: seq<E>, b: seq<E>, i: nat)
    requires 1 <= j && |lo| == |hi| == |a| == |b| == Pow2(j - 1) && |lo + hi| == Pow2(j)
    requires i / 2 < Pow2(j - 1) ==> a[i / 2] == lo[RevBits(i / 2, j - 1)] && b[i / 2] == hi[RevBits(i / 2, j - 1)]
    ensures i < Pow2(j) ==> Interleave(a, b)[i] == (lo + hi)[RevBits(i, j)]
  {
    RevDouble(i / 2, j - 1);
    assert i == 2 * (i / 2) || i == 2 * (i / 2) + 1;
  }

  // f with entry i at position rev(i).
  function Reversed<E>(f: seq<E>, w: nat): (r: seq<E>)
    requires |f| == Pow2(w)
    ensures |r| == |f|
  {
    seq(|f|, i requires 0 <= i < |f| => f[RevBits(i, w)])
  }

  lemma ReversedTwice<E>(f: seq<E>, w: nat)
    requires |f| == Pow2(w)
    ensures Reversed(Reversed(f, w), w) == f
  {
    forall i | 0 <= i < |f| ensures Reversed(Reversed(f, w), w)[i] == f[i] { RevTwice(i, w); }
  }

  /** From the bit-reversed coefficients of f, the fixed-degree transform leaves f(psi^(2i+1)) at
      index i, in natural order and for every number of coefficients 2^li up to the dimension. */
  lemma FixDegreeEvaluates<E(!new)>(F: Field<E>, psi: E, L: nat, powers: seq<E>, f: seq<E>, li: nat)
    requires F.Laws() && Root(F, psi, L) && IsTable(F, psi, L, powers) && li <= L && |f| == Pow2(li)
    ensures |Spread(Reversed(f, li), Pow2(L - li))| == Pow2(L)
    ensures Merge(F, powers, L, li, Spread(Reversed(f, li), Pow2(L - li))) == Evals(F, f, OddPowers(F, psi, 1, Pow2(L)))
  {
    var inn, dup := Reversed(f, li), Pow2(L - li);
    var cs := Singles(inn);
    Pow2Add(li, L - li);
    SpreadSize(inn, dup);
    SpreadValued(F, inn, OddPowers(F, psi, Pow2(li), dup));
    MergeEvaluates(F, psi, L, powers, li, Spread(inn, dup), cs, 1);
    MergedIndex(inn, li, 0);
    forall i | 0 <= i < |f| ensures Merged(inn, li)[i] == f[i] {
      MergedIndex(inn, li, i);
      RevTwice(i, li);
    }
    assert Merged(inn, li) == f;
  }
}
