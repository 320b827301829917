/** The radix-2 number-theoretic transform, in place over an array: what each stage of butterflies
    leaves, that the whole forward transform evaluates at the odd powers of a 2N-th root of unity
    in bit-reversed order, and that the inverse undoes it stage by stage. */
module Ntt {
  import opened Bits
  import opened Algebra

  // ---- one stage, as a function of the whole vector ----

  // A butterfly over a block of 2t entries.
  function Bfly<E(!new)>(F: Field<E>, b: seq<E>, t: nat, w: E): (r: seq<E>)
    requires |b| == 2 * t
    ensures |r| == |b|
  {
    seq(2 * t, j requires 0 <= j < 2 * t =>
      if j < t then F.Add(b[j], F.Mul(b[j + t], w)) else F.Sub(b[j - t], F.Mul(b[j], w)))
  }

  function InvBfly<E(!new)>(F: Field<E>, b: seq<E>, t: nat, w: E): (r: seq<E>)
    requires |b| == 2 * t
    ensures |r| == |b|
  {
    seq(2 * t, j requires 0 <= j < 2 * t =>
      if j < t then F.Add(b[j], b[j + t]) else F.Mul(F.Sub(b[j - t], b[j]), w))
  }

  // n blocks of 2t entries.
  function Span(t: nat, n: nat): nat {
    if n == 0 then 0 else 2 * t + Span(t, n - 1)
  }

  lemma {:induction false} SpanIs(t: nat, n: nat)
    ensures Span(t, n) == 2 * t * n
  {
    if n != 0 { SpanIs(t, n - 1); }
  }

  lemma {:induction false} SpanGrows(t: nat, i: nat, n: nat)
    requires i < n
    ensures Span(t, i) + 2 * t == Span(t, i + 1) <= Span(t, n)
    decreases n
  {
    if i < n - 1 { SpanGrows(t, i, n - 1); }
  }

  // One stage: consecutive blocks of 2t entries, each with its own twiddle factor.
  function Stage<E(!new)>(F: Field<E>, ws: seq<E>, t: nat, v: seq<E>): (r: seq<E>)
    requires |v| == Span(t, |ws|)
    ensures |r| == |v|
    decreases |ws|
  {
    if ws == [] then [] else Bfly(F, v[..2 * t], t, ws[0]) + Stage(F, ws[1..], t, v[2 * t..])
  }

  function InvStage<E(!new)>(F: Field<E>, ws: seq<E>, t: nat, v: seq<E>): (r: seq<E>)
    requires |v| == Span(t, |ws|)
    ensures |r| == |v|
    decreases |ws|
  {
    if ws == [] then [] else InvBfly(F, v[..2 * t], t, ws[0]) + InvStage(F, ws[1..], t, v[2 * t..])
  }

  lemma {:induction false} StageSnoc<E(!new)>(F: Field<E>, ws: seq<E>, w: E, t: nat, v: seq<E>, b: seq<E>)
    requires |v| == Span(t, |ws|) && |b| == 2 * t
    ensures |v + b| == Span(t, |ws + [w]|)
    ensures Stage(F, ws + [w], t, v + b) == Stage(F, ws, t, v) + Bfly(F, b, t, w)
    decreases |ws|
  {
    hide Bfly;
    if ws == [] {
      assert v + b == b && ([w] + []) == [w] && b[..2 * t] == b && b[2 * t..] == [];
    } else {
      var ws', v', d, d' := ws + [w], v + b, Bfly(F, v[..2 * t], t, ws[0]), Bfly(F, b, t, w);
      assert ws'[1..] == ws[1..] + [w] && ws'[0] == ws[0];
      assert v'[..2 * t] == v[..2 * t] && v'[2 * t..] == v[2 * t..] + b;
      StageSnoc(F, ws[1..], w, t, v[2 * t..], b);
      var r := Stage(F, ws[1..], t, v[2 * t..]);
      assert Stage(F, ws', t, v') == d + (r + d') == (d + r) + d';
    }
  }

  lemma {:induction false} InvStageSnoc<E(!new)>(F: Field<E>, ws: seq<E>, w: E, t: nat, v: seq<E>, b: seq<E>)
    requires |v| == Span(t, |ws|) && |b| == 2 * t
    ensures |v + b| == Span(t, |ws + [w]|)
    ensures InvStage(F, ws + [w], t, v + b) == InvStage(F, ws, t, v) + InvBfly(F, b, t, w)
    decreases |ws|
  {
    hide InvBfly;
    if ws == [] {
      assert v + b == b && ([w] + []) == [w] && b[..2 * t] == b && b[2 * t..] == [];
    } else {
      var ws', v', d, d' := ws + [w], v + b, InvBfly(F, v[..2 * t], t, ws[0]), InvBfly(F, b, t, w);
      assert ws'[1..] == ws[1..] + [w] && ws'[0] == ws[0];
      assert v'[..2 * t] == v[..2 * t] && v'[2 * t..] == v[2 * t..] + b;
      InvStageSnoc(F, ws[1..], w, t, v[2 * t..], b);
      var r := InvStage(F, ws[1..], t, v[2 * t..]);
      assert InvStage(F, ws', t, v') == d + (r + d') == (d + r) + d';
    }
  }

  // ---- the loops ----

  // `now` is `was` with the first j pairs of the block of 2t entries at l replaced by those of r.
  ghost predicate HalfDone<E(!new)>(was: seq<E>, l: nat, t: nat, r: seq<E>, j: nat, now: seq<E>)
    requires |r| == 2 * t && l + 2 * t <= |was| && j <= t
  {
    && |now| == |was|
    && forall i :: 0 <= i < |was| ==> now[i] == if l <= i < l + j || l + t <= i < l + t + j then r[i - l] else was[i]
  }

  // `was` with the block at l replaced by r.
  function Patch<E>(was: seq<E>, l: nat, r: seq<E>): seq<E>
    requires l + |r| <= |was|
  {
    was[..l] + r + was[l + |r|..]
  }

  lemma Rebuild<E(!new)>(was: seq<E>, l: nat, t: nat, r: seq<E>, now: seq<E>)
    requires |r| == 2 * t && l + 2 * t <= |was|
    ensures HalfDone(was, l, t, r, 0, was)
    ensures HalfDone(was, l, t, r, t, now) ==> now == Patch(was, l, r)
  {
  }

  method Butterfly<E(!new)>(F: Field<E>, a: array<E>, j: nat, t: nat, w: E)
    requires 1 <= t && j + t < a.Length
    modifies a
    ensures a[..] == Butterflied(F, old(a[..]), j, t, w)
  {
    var u := a[j];
    var v := F.Mul(a[j + t], w);
    a[j] := F.Add(u, v);
    a[j + t] := F.Sub(u, v);
  }

  function Butterflied<E(!new)>(F: Field<E>, s: seq<E>, j: nat, t: nat, w: E): (r: seq<E>)
    requires 1 <= t && j + t < |s|
    ensures |r| == |s|
  {
    s[j := F.Add(s[j], F.Mul(s[j + t], w))][j + t := F.Sub(s[j], F.Mul(s[j + t], w))]
  }

  lemma ButterflyDone<E(!new)>(F: Field<E>, was: seq<E>, l: nat, t: nat, w: E, r: seq<E>, j: nat, cur: seq<E>)
    requires l + 2 * t <= |was| && j < t && r == Bfly(F, was[l..l + 2 * t], t, w) && HalfDone(was, l, t, r, j, cur)
    ensures |cur| == |was| && HalfDone(was, l, t, r, j + 1, Butterflied(F, cur, l + j, t, w))
  {
  }

  method ButterflyBlock<E(!new)>(F: Field<E>, a: array<E>, l: nat, t: nat, w: E)
    requires l + 2 * t <= a.Length
    modifies a
    ensures a[..] == Patch(old(a[..]), l, Bfly(F, old(a[..])[l..l + 2 * t], t, w))
  {
    hide *;
    ghost var was := a[..];
    ghost var r := Bfly(F, was[l..l + 2 * t], t, w);
    var j := l;
    Rebuild(was, l, t, r, was);
    while j < l + t
      invariant l <= j <= l + t
      invariant HalfDone(was, l, t, r, j - l, a[..])
    {
      ButterflyDone(F, was, l, t, w, r, j - l, a[..]);
      Butterfly(F, a, j, t, w);
      j := j + 1;
    }
    Rebuild(was, l, t, r, a[..]);
  }

  method InvButterfly<E(!new)>(F: Field<E>, a: array<E>, j: nat, t: nat, w: E)
    requires 1 <= t && j + t < a.Length
    modifies a
    ensures a[..] == InvButterflied(F, old(a[..]), j, t, w)
  {
    var u := a[j];
    var v := a[j + t];
    a[j] := F.Add(u, v);
    v := F.Sub(u, v);
    a[j + t] := F.Mul(v, w);
  }

  function InvButterflied<E(!new)>(F: Field<E>, s: seq<E>, j: nat, t: nat, w: E): (r: seq<E>)
    requires 1 <= t && j + t < |s|
    ensures |r| == |s|
  {
    s[j := F.Add(s[j], s[j + t])][j + t := F.Mul(F.Sub(s[j], s[j + t]), w)]
  }

  lemma InvButterflyDone<E(!new)>(F: Field<E>, was: seq<E>, l: nat, t: nat, w: E, r: seq<E>, j: nat, cur: seq<E>)
    requires l + 2 * t <= |was| && j < t && r == InvBfly(F, was[l..l + 2 * t], t, w) && HalfDone(was, l, t, r, j, cur)
    ensures |cur| == |was| && HalfDone(was, l, t, r, j + 1, InvButterflied(F, cur, l + j, t, w))
  {
  }

  method InvButterflyBlock<E(!new)>(F: Field<E>, a: array<E>, l: nat, t: nat, w: E)
    requires l + 2 * t <= a.Length
    modifies a
    ensures a[..] == Patch(old(a[..]), l, InvBfly(F, old(a[..])[l..l + 2 * t], t, w))
  {
    hide *;
    ghost var was := a[..];
    ghost var r := InvBfly(F, was[l..l + 2 * t], t, w);
    var j := l;
    Rebuild(was, l, t, r, was);
    while j < l + t
      invariant l <= j <= l + t
      invariant HalfDone(was, l, t, r, j - l, a[..])
    {
      InvButterflyDone(F, was, l, t, w, r, j - l, a[..]);
      InvButterfly(F, a, j, t, w);
      j := j + 1;
    }
    Rebuild(was, l, t, r, a[..]);
  }

  // v with the stage done on its first i blocks.
  ghost function Staged<E(!new)>(F: Field<E>, ws: seq<E>, t: nat, v: seq<E>, i: nat): seq<E>
    requires i <= |ws| && |v| == Span(t, |ws|) && Span(t, i) <= |v|
  {
    Stage(F, ws[..i], t, v[..Span(t, i)]) + v[Span(t, i)..]
  }

  lemma StagedEnds<E(!new)>(F: Field<E>, ws: seq<E>, t: nat, v: seq<E>)
    requires |v| == Span(t, |ws|)
    ensures Span(t, 0) == 0 && Staged(F, ws, t, v, 0) == v && Staged(F, ws, t, v, |ws|) == Stage(F, ws, t, v)
  {
    assert ws[..|ws|] == ws && v[..|v|] == v;
  }

  method StageLoop<E(!new)>(F: Field<E>, a: array<E>, powers: seq<E>, m: nat, t: nat)
    requires 2 * m <= |powers| && a.Length == Span(t, m)
    modifies a
    ensures a[..] == Stage(F, powers[m..2 * m], t, old(a[..]))
  {
    hide *;
    ghost var v, ws := a[..], powers[m..2 * m];
    StagedEnds(F, ws, t, v);
    var i, l := 0, 0;
    while i < m
      invariant 0 <= i <= m && l == Span(t, i) <= a.Length
      invariant a[..] == Staged(F, ws, t, v, i)
    {
      StageBlock(F, a, ws, t, v, i, l, powers[m + i]);
      l := l + 2 * t;
      i := i + 1;
    }
  }

  method StageBlock<E(!new)>(F: Field<E>, a: array<E>, ghost ws: seq<E>, t: nat, ghost v: seq<E>, ghost i: nat, l: nat,
                             w: E)
    requires i < |ws| && |v| == a.Length == Span(t, |ws|) && l == Span(t, i) <= a.Length && w == ws[i]
    requires a[..] == Staged(F, ws, t, v, i)
    modifies a
    ensures l + 2 * t == Span(t, i + 1) <= a.Length
    ensures a[..] == Staged(F, ws, t, v, i + 1)
  {
    hide *;
    SpanGrows(t, i, |ws|);
    ghost var cur := a[..];
    ButterflyBlock(F, a, l, t, w);
    StageNext(F, ws, t, v, i, l, cur, a[..]);
  }

  lemma StageNext<E(!new)>(F: Field<E>, ws: seq<E>, t: nat, v: seq<E>, i: nat, l: nat, cur: seq<E>, next: seq<E>)
    requires i < |ws| && |v| == Span(t, |ws|) && l == Span(t, i) && l + 2 * t == Span(t, i + 1) <= |v|
    requires cur == Staged(F, ws, t, v, i)
    requires |cur| == |v| && next == Patch(cur, l, Bfly(F, cur[l..l + 2 * t], t, ws[i]))
    ensures next == Staged(F, ws, t, v, i + 1)
  {
    hide Span, Stage, Bfly;
    var b := v[l..l + 2 * t];
    assert cur[..l] == Stage(F, ws[..i], t, v[..l]) && cur[l..l + 2 * t] == b && cur[l + 2 * t..] == v[l + 2 * t..];
    StageSnoc(F, ws[..i], ws[i], t, v[..l], b);
    assert ws[..i + 1] == ws[..i] + [ws[i]] && v[..l + 2 * t] == v[..l] + b;
  }

  // v with the stage done on its first i blocks.
  ghost function InvStaged<E(!new)>(F: Field<E>, ws: seq<E>, t: nat, v: seq<E>, i: nat): seq<E>
    requires i <= |ws| && |v| == Span(t, |ws|) && Span(t, i) <= |v|
  {
    InvStage(F, ws[..i], t, v[..Span(t, i)]) + v[Span(t, i)..]
  }

  lemma InvStagedEnds<E(!new)>(F: Field<E>, ws: seq<E>, t: nat, v: seq<E>)
    requires |v| == Span(t, |ws|)
    ensures Span(t, 0) == 0 && InvStaged(F, ws, t, v, 0) == v && InvStaged(F, ws, t, v, |ws|) == InvStage(F, ws, t, v)
  {
    assert ws[..|ws|] == ws && v[..|v|] == v;
  }

  method InvStageLoop<E(!new)>(F: Field<E>, a: array<E>, powers: seq<E>, m: nat, t: nat)
    requires 2 * m <= |powers| && a.Length == Span(t, m)
    modifies a
    ensures a[..] == InvStage(F, powers[m..2 * m], t, old(a[..]))
  {
    hide *;
    ghost var v, ws := a[..], powers[m..2 * m];
    InvStagedEnds(F, ws, t, v);
    var i, l := 0, 0;
    while i < m
      invariant 0 <= i <= m && l == Span(t, i) <= a.Length
      invariant a[..] == InvStaged(F, ws, t, v, i)
    {
      InvStageBlock(F, a, ws, t, v, i, l, powers[m + i]);
      l := l + 2 * t;
      i := i + 1;
    }
  }

  method InvStageBlock<E(!new)>(F: Field<E>, a: array<E>, ghost ws: seq<E>, t: nat, ghost v: seq<E>, ghost i: nat,
                                l: nat, w: E)
    requires i < |ws| && |v| == a.Length == Span(t, |ws|) && l == Span(t, i) <= a.Length && w == ws[i]
    requires a[..] == InvStaged(F, ws, t, v, i)
    modifies a
    ensures l + 2 * t == Span(t, i + 1) <= a.Length
    ensures a[..] == InvStaged(F, ws, t, v, i + 1)
  {
    hide *;
    SpanGrows(t, i, |ws|);
    ghost var cur := a[..];
    InvButterflyBlock(F, a, l, t, w);
    InvStageNext(F, ws, t, v, i, l, cur, a[..]);
  }

  lemma InvStageNext<E(!new)>(F: Field<E>, ws: seq<E>, t: nat, v: seq<E>, i: nat, l: nat, cur: seq<E>, next: seq<E>)
    requires i < |ws| && |v| == Span(t, |ws|) && l == Span(t, i) && l + 2 * t == Span(t, i + 1) <= |v|
    requires cur == InvStaged(F, ws, t, v, i)
    requires |cur| == |v| && next == Patch(cur, l, InvBfly(F, cur[l..l + 2 * t], t, ws[i]))
    ensures next == InvStaged(F, ws, t, v, i + 1)
  {
    hide Span, InvStage, InvBfly;
    var b := v[l..l + 2 * t];
    assert cur[..l] == InvStage(F, ws[..i], t, v[..l]) && cur[l..l + 2 * t] == b && cur[l + 2 * t..] == v[l + 2 * t..];
    InvStageSnoc(F, ws[..i], ws[i], t, v[..l], b);
    assert ws[..i + 1] == ws[..i] + [ws[i]] && v[..l + 2 * t] == v[..l] + b;
  }

  // ---- whole transforms ----

  lemma Halves(L: nat, k: nat)
    requires 1 <= k <= L
    ensures Span(Pow2(k - 1), Pow2(L - k)) == Pow2(L) && 2 * Pow2(L - k) <= Pow2(L)
    ensures Pow2(k) == 2 * Pow2(k - 1) && (k < L ==> Pow2(L - k) == 2 * Pow2(L - k - 1))
  {
    SpanIs(Pow2(k - 1), Pow2(L - k));
    Pow2Add(k, L - k);
    assert 2 * Pow2(k - 1) * Pow2(L - k) == Pow2(k) * Pow2(L - k);
    Pow2Monotone(L - k + 1, L);
  }

  // The last k stages of the forward transform: t = 2^(k-1), ..., 2, 1.
  function Forward<E(!new)>(F: Field<E>, powers: seq<E>, L: nat, k: nat, v: seq<E>): (r: seq<E>)
    requires |v| == |powers| == Pow2(L) && k <= L
    ensures |r| == |v|
    decreases k
  {
    if k == 0 then v
    else
      Halves(L, k);
      var m := Pow2(L - k);
      Forward(F, powers, L, k - 1, Stage(F, powers[m..2 * m], Pow2(k - 1), v))
  }

  // The first k stages of the inverse transform: t = 1, 2, ..., 2^(k-1).
  function Backward<E(!new)>(F: Field<E>, powers: seq<E>, L: nat, k: nat, v: seq<E>): (r: seq<E>)
    requires |v| == |powers| == Pow2(L) && k <= L
    ensures |r| == |v|
    decreases k
  {
    if k == 0 then v
    else
      Halves(L, k);
      var m := Pow2(L - k);
      InvStage(F, powers[m..2 * m], Pow2(k - 1), Backward(F, powers, L, k - 1, v))
  }

  lemma ForwardStep<E(!new)>(F: Field<E>, powers: seq<E>, L: nat, k: nat, v: seq<E>)
    requires |v| == |powers| == Pow2(L) && 1 <= k <= L
    ensures Span(Pow2(k - 1), Pow2(L - k)) == Pow2(L) && 2 * Pow2(L - k) <= Pow2(L)
    ensures Forward(F, powers, L, k, v)
         == Forward(F, powers, L, k - 1, Stage(F, powers[Pow2(L - k)..2 * Pow2(L - k)], Pow2(k - 1), v))
  {
    Halves(L, k);
  }

  lemma BackwardStep<E(!new)>(F: Field<E>, powers: seq<E>, L: nat, k: nat, v: seq<E>)
    requires |v| == |powers| == Pow2(L) && 1 <= k <= L
    ensures Span(Pow2(k - 1), Pow2(L - k)) == Pow2(L) && 2 * Pow2(L - k) <= Pow2(L)
    ensures Backward(F, powers, L, k, v)
         == InvStage(F, powers[Pow2(L - k)..2 * Pow2(L - k)], Pow2(k - 1), Backward(F, powers, L, k - 1, v))
  {
    Halves(L, k);
  }

  // Block count and half block size in front of stage k of a transform.
  ghost predicate Dims(L: nat, k: nat, m: nat, t: nat) {
    1 <= k <= L ==> m == Pow2(L - k) && t == Pow2(k - 1)
  }

  // The stage that leaves k - 1 more to do.
  method OneStage<E(!new)>(F: Field<E>, a: array<E>, powers: seq<E>, L: nat, ghost k: nat, m: nat, t: nat)
    requires a.Length == |powers| == Pow2(L) && 1 <= k <= L && Dims(L, k, m, t)
    modifies a
    ensures Forward(F, powers, L, k - 1, a[..]) == old(Forward(F, powers, L, k, a[..]))
    ensures Dims(L, k - 1, 2 * m, t / 2)
  {
    ForwardStep(F, powers, L, k, a[..]);
    StageLoop(F, a, powers, m, t);
  }

  method OneInvStage<E(!new)>(F: Field<E>, a: array<E>, powers: seq<E>, L: nat, ghost k: nat, m: nat, t: nat,
                              ghost v: seq<E>)
    requires a.Length == |v| == |powers| == Pow2(L) && 1 <= k <= L && Dims(L, k, m, t)
    requires a[..] == Backward(F, powers, L, k - 1, v)
    modifies a
    ensures a[..] == Backward(F, powers, L, k, v)
    ensures Dims(L, k + 1, m / 2, 2 * t)
  {
    BackwardStep(F, powers, L, k, v);
    InvStageLoop(F, a, powers, m, t);
    if k < L { Halves(L, k); }
  }

  lemma NoStages<E(!new)>(F: Field<E>, powers: seq<E>, L: nat, v: seq<E>)
    requires |v| == |powers| == Pow2(L)
    ensures Forward(F, powers, L, 0, v) == v == Backward(F, powers, L, 0, v)
    ensures Dims(L, L, 1, |v| / 2) && Dims(L, 1, |v| / 2, 1)
  {
  }

  method NttInplace<E(!new)>(F: Field<E>, a: array<E>, powers: seq<E>, L: nat)
    requires a.Length == |powers| == Pow2(L)
    modifies a
    ensures a[..] == Forward(F, powers, L, L, old(a[..]))
  {
    hide *;
    ghost var want := Forward(F, powers, L, L, a[..]);
    var k := L;
    var m, t := 1, a.Length / 2;
    NoStages(F, powers, L, a[..]);
    while k > 0
      invariant 0 <= k <= L && 0 <= m && 0 <= t && Dims(L, k, m, t)
      invariant Forward(F, powers, L, k, a[..]) == want
      decreases k
    {
      OneStage(F, a, powers, L, k, m, t);
      t := t / 2;
      m := 2 * m;
      k := k - 1;
    }
    NoStages(F, powers, L, a[..]);
  }

  method InttInplace<E(!new)>(F: Field<E>, a: array<E>, powers: seq<E>, L: nat, invDim: E)
    requires F.Laws() && a.Length == |powers| == Pow2(L)
    modifies a
    ensures a[..] == Scale(F, invDim, Backward(F, powers, L, L, old(a[..])))
  {
    hide *;
    ghost var v := a[..];
    var m, t := a.Length / 2, 1;
    var k := 0;
    NoStages(F, powers, L, v);
    while k < L
      invariant 0 <= k <= L && 0 <= m && 0 <= t && Dims(L, k + 1, m, t)
      invariant a[..] == Backward(F, powers, L, k, v)
    {
      OneInvStage(F, a, powers, L, k + 1, m, t, v);
      t := 2 * t;
      m := m / 2;
      k := k + 1;
    }
    ScaleLoop(F, a, invDim);
  }

  method ScaleLoop<E(!new)>(F: Field<E>, a: array<E>, c: E)
    requires F.Laws()
    modifies a
    ensures a[..] == Scale(F, c, old(a[..]))
  {
    var i := 0;
    while i < a.Length
      invariant 0 <= i <= a.Length
      invariant forall j :: 0 <= j < a.Length ==> a[j] == if j < i then F.Mul(c, old(a[j])) else old(a[j])
    {
      assert At2(a[i], c);
      a[i] := F.Mul(a[i], c);
      i := i + 1;
    }
  }
}
