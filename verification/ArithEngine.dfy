/** The arithmetic engine of one party: a stream of correlations, a fixed buffer of multiplication
    gates between checks, and the scalar and the vectorized multiply. For any number of gates, any
    fill level and any split over workers in any order, the vectorized form leaves what the scalar
    form leaves. */
module ArithEngine {
  import opened Algebra
  import Primes

  // A wire of one party: the prover holds value and MAC, the verifier 0 and its key.
  datatype Wire<E> = Wire(val: E, mac: E)

  // The two roles of the code, and what an arbitrary prover is bound to by the messages it sends.
  datatype Role = Alice | Bob | Bound

  // The party's correlation stream, its key if it is the verifier, and the messages it does not compute.
  datatype Env<!E> = Env(role: Role, delta: E, vole: nat -> Wire<E>, inbox: nat -> E)

  // The gates of one check, and the position of the correlation that masks it.
  datatype Batch<E> = Batch(left: seq<Wire<E>>, right: seq<Wire<E>>, out: seq<Wire<E>>, mask: nat)

  // cnt gates are buffered; out holds their outputs and, behind them, fresh correlations.
  datatype Engine<E> = Engine(
    cnt: nat, left: seq<Wire<E>>, right: seq<Wire<E>>, out: seq<Wire<E>>, pos: nat, msgs: seq<E>,
        checked: seq<Batch<E>>)

  ghost predicate Sized<E>(N: nat, st: Engine<E>) {
    1 <= N && st.cnt <= N && |st.left| == |st.right| == |st.out| == N
  }

  // The value sent, or received, for the k-th gate message.
  function Correction<E(!new)>(F: Field<E>, env: Env<E>, drawn: Wire<E>, a: Wire<E>, b: Wire<E>, k: nat): E {
    if env.role.Alice? then F.Sub(drawn.val, F.Mul(a.val, b.val)) else env.inbox(k)
  }

  function OutWire<E(!new)>(F: Field<E>, env: Env<E>, drawn: Wire<E>, a: Wire<E>, b: Wire<E>, s: E): Wire<E> {
    match env.role
    case Alice => Wire(F.Mul(a.val, b.val), drawn.mac)
    case Bob => Wire(F.zero, F.Add(drawn.mac, F.Mul(s, env.delta)))
    case Bound => Wire(F.Sub(drawn.val, s), drawn.mac)
  }

  function Fresh<E>(env: Env<E>, pos: nat, n: nat): (r: seq<Wire<E>>)
    ensures |r| == n
  {
    seq(n, i requires 0 <= i < n => env.vole(pos + i))
  }

  // A full buffer is checked and refilled.
  function Refill<E>(env: Env<E>, N: nat, st: Engine<E>): (r: Engine<E>)
    requires Sized(N, st)
    ensures Sized(N, r) && r.cnt < N
  {
    if st.cnt == N then
      Engine(0, st.left, st.right, Fresh(env, st.pos + 1, N), st.pos + 1 + N, st.msgs,
             st.checked + [Batch(st.left, st.right, st.out, st.pos)])
    else st
  }

  // ---- the scalar form ----

  function Gate<E(!new)>(F: Field<E>, env: Env<E>, st: Engine<E>, a: Wire<E>, b: Wire<E>): (r: (Engine<E>, Wire<E>))
    requires st.cnt < |st.out| == |st.left| == |st.right|
  {
    var drawn := st.out[st.cnt];
    var s := Correction(F, env, drawn, a, b, |st.msgs|);
    var w := OutWire(F, env, drawn, a, b, s);
    (st.(cnt := st.cnt + 1, left := st.left[st.cnt := a], right := st.right[st.cnt := b], out := st.out[st.cnt := w],
         msgs := st.msgs + [s]), w)
  }

  function ScalarMul<E(!new)>(F: Field<E>, env: Env<E>, N: nat, st: Engine<E>, a: Wire<E>,
                              b: Wire<E>): (r: (Engine<E>, Wire<E>))
    requires Sized(N, st)
    ensures Sized(N, r.0)
  {
    Gate(F, env, Refill(env, N, st), a, b)
  }

  // One gate after another.
  function Many<E(!new)>(F: Field<E>, env: Env<E>, N: nat, st: Engine<E>, xs: seq<Wire<E>>,
                         ys: seq<Wire<E>>): (r: (Engine<E>, seq<Wire<E>>))
    requires Sized(N, st) && |xs| == |ys|
    ensures Sized(N, r.0) && |r.1| == |xs|
    decreases |xs|
  {
    if xs == [] then (st, [])
    else
      var n := |xs| - 1;
      var r := Many(F, env, N, st, xs[..n], ys[..n]);
      var s := ScalarMul(F, env, N, r.0, xs[n], ys[n]);
      (s.0, r.1 + [s.1])
  }

  lemma {:induction false} ManyAppend<E(!new)>(F: Field<E>, env: Env<E>, N: nat, st: Engine<E>, xs: seq<Wire<E>>,
                                               ys: seq<Wire<E>>, xs': seq<Wire<E>>, ys': seq<Wire<E>>)
    requires Sized(N, st) && |xs| == |ys| && |xs'| == |ys'|
    ensures var r, all := Many(F, env, N, st, xs, ys), Many(F, env, N, st, xs + xs', ys + ys');
            var r' := Many(F, env, N, r.0, xs', ys');
            all == (r'.0, r.1 + r'.1)
    decreases |xs'|
  {
    hide ScalarMul;
    if xs' == [] {
      assert xs + xs' == xs && ys + ys' == ys;
      var r := Many(F, env, N, st, xs, ys);
      var r' := Many(F, env, N, r.0, xs', ys');
      assert r'.0 == r.0 && r.1 + r'.1 == r.1;
    } else {
      var n := |xs'| - 1;
      assert (xs + xs')[..|xs| + n] == xs + xs'[..n] && (ys + ys')[..|xs| + n] == ys + ys'[..n];
      ManyAppend(F, env, N, st, xs, ys, xs'[..n], ys'[..n]);
      var r := Many(F, env, N, st, xs, ys);
      var q := Many(F, env, N, r.0, xs'[..n], ys'[..n]);
      var last := ScalarMul(F, env, N, q.0, xs'[n], ys'[n]);
      assert (xs + xs')[|xs| + n] == xs'[n] && (ys + ys')[|xs| + n] == ys'[n];
      assert r.1 + (q.1 + [last.1]) == (r.1 + q.1) + [last.1];
    }
  }

  // Refilling early is what the next gate would have done.
  lemma {:induction false} ManyAfterRefill<E(!new)>(F: Field<E>, env: Env<E>, N: nat, st: Engine<E>, xs: seq<Wire<E>>,
                                                    ys: seq<Wire<E>>)
    requires Sized(N, st) && |xs| == |ys| && xs != []
    ensures Many(F, env, N, Refill(env, N, st), xs, ys) == Many(F, env, N, st, xs, ys)
    decreases |xs|
  {
    var n := |xs| - 1;
    if n == 0 {
      assert xs[..n] == [] && ys[..n] == [];
    } else {
      ManyAfterRefill(F, env, N, st, xs[..n], ys[..n]);
    }
  }

  // ---- a block of gates at once ----

  function Overlay<T>(s: seq<T>, at: nat, t: seq<T>): (r: seq<T>)
    requires at + |t| <= |s|
    ensures |r| == |s|
  {
    s[..at] + t + s[at + |t|..]
  }

  function Corrections<E(!new)>(F: Field<E>, env: Env<E>, st: Engine<E>, xs: seq<Wire<E>>,
                                ys: seq<Wire<E>>): (r: seq<E>)
    requires |xs| == |ys| && st.cnt + |xs| <= |st.out|
    ensures |r| == |xs|
  {
    seq(|xs|, i requires 0 <= i < |xs| => Correction(F, env, st.out[st.cnt + i], xs[i], ys[i], |st.msgs| + i))
  }

  function OutWires<E(!new)>(F: Field<E>, env: Env<E>, st: Engine<E>, xs: seq<Wire<E>>,
                             ys: seq<Wire<E>>): (r: seq<Wire<E>>)
    requires |xs| == |ys| && st.cnt + |xs| <= |st.out|
    ensures |r| == |xs|
  {
    seq(|xs|, i requires 0 <= i < |xs| => OutWire(F, env, st.out[st.cnt + i], xs[i], ys[i],
                                                  Corrections(F, env, st, xs, ys)[i]))
  }

  function Block<E(!new)>(F: Field<E>, env: Env<E>, st: Engine<E>, xs: seq<Wire<E>>, ys: seq<Wire<E>>): Engine<E>
    requires |xs| == |ys| && st.cnt + |xs| <= |st.out| == |st.left| == |st.right|
  {
    st.(cnt := st.cnt + |xs|, left := Overlay(st.left, st.cnt, xs), right := Overlay(st.right, st.cnt, ys),
        out := Overlay(st.out, st.cnt, OutWires(F, env, st, xs, ys)), msgs := st.msgs + Corrections(F, env, st, xs, ys))
  }

  lemma OverlayNext<T>(s: seq<T>, at: nat, t: seq<T>, x: T)
    requires at + |t| < |s|
    ensures Overlay(s, at, t)[at + |t| := x] == Overlay(s, at, t + [x]) && Overlay(s, at, t)[at + |t|] == s[at + |t|]
  {
  }

  /** Without a check in between, gates one after another are the block. */
  lemma {:induction false} BlockIsMany<E(!new)>(F: Field<E>, env: Env<E>, N: nat, st: Engine<E>, xs: seq<Wire<E>>,
                                                ys: seq<Wire<E>>)
    requires Sized(N, st) && |xs| == |ys| && st.cnt + |xs| <= N
    ensures Many(F, env, N, st, xs, ys) == (Block(F, env, st, xs, ys), OutWires(F, env, st, xs, ys))
    decreases |xs|
  {
    if xs == [] {
      assert ys == [] && Overlay(st.left, st.cnt, xs) == st.left && Overlay(st.right, st.cnt, ys) == st.right;
      assert Overlay(st.out, st.cnt, OutWires(F, env, st, xs, ys)) == st.out;
      assert st.msgs + Corrections(F, env, st, xs, ys) == st.msgs;
    } else {
      hide Block, OutWires, ScalarMul;
      var n := |xs| - 1;
      BlockIsMany(F, env, N, st, xs[..n], ys[..n]);
      BlockNext(F, env, N, st, xs[..n], ys[..n], xs[n], ys[n]);
      assert xs == xs[..n] + [xs[n]] && ys == ys[..n] + [ys[n]];
    }
  }

  lemma BlockNext<E(!new)>(F: Field<E>, env: Env<E>, N: nat, st: Engine<E>, xs: seq<Wire<E>>, ys: seq<Wire<E>>,
                           x: Wire<E>, y: Wire<E>)
    requires Sized(N, st) && |xs| == |ys| && st.cnt + |xs| < N
    ensures Sized(N, Block(F, env, st, xs, ys))
    ensures var s := ScalarMul(F, env, N, Block(F, env, st, xs, ys), x, y);
            s.0 == Block(F, env, st, xs + [x], ys + [y]) && OutWires(F, env, st, xs, ys) + [s.1] == OutWires(F, env,
                st, xs + [x], ys + [y])
  {
    var at := st.cnt;
    var cs, ws := Corrections(F, env, st, xs, ys), OutWires(F, env, st, xs, ys);
    var c := Correction(F, env, st.out[at + |xs|], x, y, |st.msgs| + |xs|);
    var w := OutWire(F, env, st.out[at + |xs|], x, y, c);
    assert Corrections(F, env, st, xs + [x], ys + [y]) == cs + [c];
    assert OutWires(F, env, st, xs + [x], ys + [y]) == ws + [w];
    OverlayNext(st.left, at, xs, x);
    OverlayNext(st.right, at, ys, y);
    OverlayNext(st.out, at, ws, w);
  }

  // ---- workers ----

  // Index ranges that together visit every index below cnt exactly once, in any order.
  ghost predicate Covers(ranges: seq<(nat, nat)>, cnt: nat) {
    && (forall r :: 0 <= r < |ranges| ==> ranges[r].0 <= ranges[r].1 <= cnt)
    && (forall i :: 0 <= i < cnt ==> Visited(ranges, i))
    && forall r, q :: 0 <= r < q < |ranges| ==> ranges[r].1 <= ranges[q].0 || ranges[q].1 <= ranges[r].0
  }

  ghost predicate Visited(ranges: seq<(nat, nat)>, i: nat) {
    exists r :: 0 <= r < |ranges| && ranges[r].0 <= i < ranges[r].1
  }

  // The code's split: equal ranges for all workers but the last, which takes the rest.
  function Split(cnt: nat, threads: nat): (ranges: seq<(nat, nat)>)
    requires threads >= 1
    ensures |ranges| == threads
  {
    var per := cnt / threads;
    seq(threads, t requires 0 <= t < threads =>
      (WorkerStart(t, per), if t < threads - 1 then WorkerStart(t + 1, per) else cnt))
  }

  function WorkerStart(t: nat, per: nat): nat { t * per }

  lemma SplitBound(cnt: nat, threads: nat, per: nat, t: nat)
    requires t < threads && per == cnt / threads
    ensures t * per <= (t + 1) * per <= cnt
  {
    Primes.DivFacts(cnt, threads);
    Primes.AtLeast(per, threads, t + 1);
    Primes.AtLeast(per, t + 1, t);
    Primes.Commute(per, threads);
    Primes.Commute(per, t);
    Primes.Commute(per, t + 1);
  }

  lemma SplitOrdered(t: nat, u: nat, per: nat)
    requires t < u
    ensures (t + 1) * per <= u * per
  {
  }

  lemma SplitVisits(cnt: nat, threads: nat, i: nat)
    requires threads >= 1 && i < cnt
    ensures Visited(Split(cnt, threads), i)
  {
    var per, ranges := cnt / threads, Split(cnt, threads);
    SplitBound(cnt, threads, per, threads - 1);
    if (threads - 1) * per <= i {
      assert ranges[threads - 1].0 <= i < ranges[threads - 1].1;
    } else {
      var t := i / per;
      SplitIndex(i, per, threads, t);
      assert ranges[t].0 <= i < ranges[t].1;
    }
  }

  lemma SplitIndex(i: nat, per: nat, threads: nat, t: nat)
    requires threads >= 1 && i < (threads - 1) * per && per >= 1 && t == i / per
    ensures t < threads - 1 && t * per <= i < (t + 1) * per
  {
    Primes.DivFacts(i, per);
    Primes.Commute(per, t);
    if t >= threads - 1 {
      Primes.AtLeast(per, t, threads - 1);
      Primes.Commute(per, threads - 1);
    }
  }

  lemma SplitCovers(cnt: nat, threads: nat)
    requires threads >= 1
    ensures Covers(Split(cnt, threads), cnt)
  {
    var per, ranges := cnt / threads, Split(cnt, threads);
    forall t | 0 <= t < threads ensures ranges[t].0 <= ranges[t].1 <= cnt { SplitBound(cnt, threads, per, t); }
    forall i | 0 <= i < cnt ensures Visited(ranges, i) { SplitVisits(cnt, threads, i); }
    forall r, q | 0 <= r < q < |ranges|
      ensures ranges[r].1 <= ranges[q].0 || ranges[q].1 <= ranges[r].0
    {
      SplitOrdered(r, q, per);
    }
  }

  // ---- what the workers write ----

  datatype Bufs<E> = Bufs(left: seq<Wire<E>>, right: seq<Wire<E>>, out: seq<Wire<E>>, scratch: seq<E>,
                          wires: seq<Wire<E>>)

  ghost predicate Fits<E>(b: Bufs<E>, base: nat, n: nat) {
    base + n <= |b.left| == |b.right| == |b.out| && n <= |b.scratch| && |b.wires| == n
  }

  // One worker step: gate i of a block that starts at base.
  function GateInto<E(!new)>(F: Field<E>, env: Env<E>, b: Bufs<E>, base: nat, i: nat, x: Wire<E>, y: Wire<E>): Bufs<E>
    requires Fits(b, base, |b.wires|) && i < |b.wires|
  {
    var drawn := b.out[base + i];
    var s := if env.role.Alice? then F.Sub(drawn.val, F.Mul(x.val, y.val)) else b.scratch[i];
    var w := OutWire(F, env, drawn, x, y, s);
    Bufs(b.left[base + i := x], b.right[base + i := y], b.out[base + i := w], b.scratch[i := s], b.wires[i := w])
  }

  // The gates in `done` have been carried out and nothing else has changed.
  ghost predicate Worked<E(!new)>(F: Field<E>, env: Env<E>, st: Engine<E>, xs: seq<Wire<E>>, ys: seq<Wire<E>>,
                                  done: set<nat>, b: Bufs<E>) {
    && |xs| == |ys| && Fits(b, st.cnt, |xs|) && |b.left| == |st.left| == |st.right| == |st.out|
    && (forall j :: 0 <= j < |b.left| && (j < st.cnt || st.cnt + |xs| <= j) ==>
          b.left[j] == st.left[j] && b.right[j] == st.right[j] && b.out[j] == st.out[j])
    && forall i :: 0 <= i < |xs| ==> WorkedAt(F, env, st, xs, ys, i in done, b, i)
  }

  ghost predicate WorkedAt<E(!new)>(F: Field<E>, env: Env<E>, st: Engine<E>, xs: seq<Wire<E>>, ys: seq<Wire<E>>,
                                    done: bool, b: Bufs<E>, i: nat)
    requires i < |xs| == |ys| && Fits(b, st.cnt, |xs|) && |b.left| == |st.left| == |st.right| == |st.out|
  {
    var at := st.cnt + i;
    var s := Correction(F, env, st.out[at], xs[i], ys[i], |st.msgs| + i);
    var w := OutWire(F, env, st.out[at], xs[i], ys[i], s);
    if done then b.left[at] == xs[i] && b.right[at] == ys[i] && b.out[at] == w && b.wires[i] == w && b.scratch[i] == s
    else
      && b.left[at] == st.left[at] && b.right[at] == st.right[at] && b.out[at] == st.out[at]
      && (!env.role.Alice? ==> b.scratch[i] == s)
  }

  lemma WorkedNext<E(!new)>(F: Field<E>, env: Env<E>, st: Engine<E>, xs: seq<Wire<E>>, ys: seq<Wire<E>>,
                            done: set<nat>, b: Bufs<E>, i: nat)
    requires Worked(F, env, st, xs, ys, done, b) && i < |xs| && i !in done
    ensures Worked(F, env, st, xs, ys, done + {i}, GateInto(F, env, b, st.cnt, i, xs[i], ys[i]))
  {
    var b' := GateInto(F, env, b, st.cnt, i, xs[i], ys[i]);
    assert WorkedAt(F, env, st, xs, ys, i in done, b, i);
    hide OutWire;
    forall k | 0 <= k < |xs| ensures WorkedAt(F, env, st, xs, ys, k in done + {i}, b', k) {
      assert WorkedAt(F, env, st, xs, ys, k in done, b, k);
    }
  }

  lemma WorkedAll<E(!new)>(F: Field<E>, env: Env<E>, st: Engine<E>, xs: seq<Wire<E>>, ys: seq<Wire<E>>, done: set<nat>,
                           b: Bufs<E>)
    requires Worked(F, env, st, xs, ys, done, b) && forall i :: 0 <= i < |xs| ==> i in done
    ensures st.cnt + |xs| <= |st.out|
    ensures st.(cnt := st.cnt + |xs|, left := b.left, right := b.right, out := b.out,
                msgs := st.msgs + b.scratch[..|xs|])
         == Block(F, env, st, xs, ys)
    ensures b.wires == OutWires(F, env, st, xs, ys)
  {
    var n, at := |xs|, st.cnt;
    forall i | 0 <= i < n
      ensures b.left[at + i] == xs[i] && b.right[at + i] == ys[i] && b.out[at + i] == OutWires(F, env, st, xs, ys)[i]
      ensures b.wires[i] == OutWires(F, env, st, xs, ys)[i] && b.scratch[i] == Corrections(F, env, st, xs, ys)[i]
    {
      assert WorkedAt(F, env, st, xs, ys, i in done, b, i);
    }
    hide OutWires, Corrections, WorkedAt;
    OverlayIs(st.left, at, xs, b.left);
    OverlayIs(st.right, at, ys, b.right);
    OverlayIs(st.out, at, OutWires(F, env, st, xs, ys), b.out);
    assert b.scratch[..n] == Corrections(F, env, st, xs, ys);
  }

  lemma OverlayIs<T>(s: seq<T>, at: nat, t: seq<T>, b: seq<T>)
    requires at + |t| <= |s| == |b|
    requires forall j :: 0 <= j < |s| && (j < at || at + |t| <= j) ==> b[j] == s[j]
    requires forall i :: 0 <= i < |t| ==> b[at + i] == t[i]
    ensures b == Overlay(s, at, t)
  {
    forall j | 0 <= j < |s| ensures b[j] == Overlay(s, at, t)[j] {
      if at <= j < at + |t| { assert b[at + (j - at)] == t[j - at]; }
    }
  }

  function Range(lo: nat, hi: nat): (r: set<nat>)
    requires lo <= hi
    ensures forall i: nat :: i in r <==> lo <= i < hi
    decreases hi - lo
  {
    if lo == hi then {} else Range(lo, hi - 1) + {hi - 1}
  }

  // ---- the object ----

  class Triples<E(!new)> {
    const F: Field<E>
    const env: Env<E>
    const N: nat
    const left: array<Wire<E>>
    const right: array<Wire<E>>
    const out: array<Wire<E>>
    const scratch: array<E>
    var cnt: nat
    var pos: nat
    var msgs: seq<E>
    var checked: seq<Batch<E>>

    ghost predicate Valid() reads this {
      && 1 <= N && left.Length == right.Length == out.Length == scratch.Length == N && cnt <= N
      && left != right && left != out && right != out
      && (scratch as object) != left && (scratch as object) != right && (scratch as object) != out
    }

    ghost function Abs(): Engine<E> reads this, left, right, out {
      Engine(cnt, left[..], right[..], out[..], pos, msgs, checked)
    }

    // Two draws as the constructor makes them: one correlation, then a full buffer.
    constructor (F: Field<E>, env: Env<E>, N: nat, blank: Wire<E>)
      requires 1 <= N
      ensures Valid() && this.F == F && this.env == env && this.N == N
      ensures Abs() == Engine(0, seq(N, _ => blank), seq(N, _ => blank), Fresh(env, 1, N), 1 + N, [], [])
      ensures fresh(left) && fresh(right) && fresh(out) && fresh(scratch)
    {
      this.F, this.env, this.N := F, env, N;
      left := new Wire<E>[N](_ => blank);
      right := new Wire<E>[N](_ => blank);
      out := new Wire<E>[N](i => env.vole(1 + i));
      scratch := new E[N](_ => F.zero);
      cnt, pos, msgs, checked := 0, 1 + N, [], [];
      new;
      assert left[..] == seq(N, _ => blank) && right[..] == seq(N, _ => blank) && out[..] == Fresh(env, 1, N);
    }

    // A check of the buffered gates, which draws its mask, and a new buffer.
    method CheckAndRefill()
      requires Valid() && cnt == N
      modifies this, out
      ensures Valid() && Abs() == Refill(env, N, old(Abs()))
    {
      checked := checked + [Batch(left[..], right[..], out[..], pos)];
      pos := pos + 1;
      cnt := 0;
      Fill();
      pos := pos + N;
    }

    method Fill()
      requires Valid()
      modifies out
      ensures out[..] == Fresh(env, pos, N)
    {
      var i := 0;
      while i < N
        invariant 0 <= i <= N
        invariant forall j :: 0 <= j < i ==> out[j] == env.vole(pos + j)
      {
        out[i] := env.vole(pos + i);
        i := i + 1;
      }
    }

    method MulOne(a: Wire<E>, b: Wire<E>) returns (w: Wire<E>)
      requires Valid()
      modifies this, left, right, out
      ensures Valid() && Sized(N, old(Abs())) && (Abs(), w) == ScalarMul(F, env, N, old(Abs()), a, b)
    {
      if cnt == N { CheckAndRefill(); }
      var drawn := out[cnt];
      left[cnt] := a;
      right[cnt] := b;
      var s := if env.role.Alice? then F.Sub(drawn.val, F.Mul(a.val, b.val)) else env.inbox(|msgs|);
      w := OutWire(F, env, drawn, a, b, s);
      msgs := msgs + [s];
      out[cnt] := w;
      cnt := cnt + 1;
    }

    // ---- the vectorized form ----

    ghost function Held(outs: array<Wire<E>>): Bufs<E> reads this, left, right, out, scratch, outs {
      Bufs(left[..], right[..], out[..], scratch[..], outs[..])
    }

    ghost predicate Apart(outs: array<Wire<E>>) {
      outs != left && outs != right && outs != out && (outs as object) != scratch
    }

    // Gate i of the block at `base`.
    method GateAt(outs: array<Wire<E>>, base: nat, i: nat, x: Wire<E>, y: Wire<E>)
      requires Valid() && Apart(outs) && Wide(base, outs.Length) && i < outs.Length
      modifies left, right, out, scratch, outs
      ensures Fits(old(Held(outs)), base, outs.Length) && Held(outs) == GateInto(F, env, old(Held(outs)), base, i, x, y)
    {
      var drawn := out[base + i];
      left[base + i] := x;
      right[base + i] := y;
      if env.role.Alice? { scratch[i] := F.Sub(drawn.val, F.Mul(x.val, y.val)); }
      var w := OutWire(F, env, drawn, x, y, scratch[i]);
      out[base + i] := w;
      outs[i] := w;
    }

    ghost predicate Wide(base: nat, n: nat) reads this {
      base + n <= N
    }

    // One worker's range.
    method Work(outs: array<Wire<E>>, ghost st: Engine<E>, xs: seq<Wire<E>>, ys: seq<Wire<E>>, ghost done: set<nat>,
                lo: nat, hi: nat)
      requires Valid() && Apart(outs) && Wide(st.cnt, outs.Length) && st.cnt == cnt && outs.Length == |xs| == |ys|
               && lo <= hi <= |xs|
      requires Worked(F, env, st, xs, ys, done, Held(outs)) && forall i :: lo <= i < hi ==> i !in done
      modifies left, right, out, scratch, outs
      ensures Worked(F, env, st, xs, ys, done + Range(lo, hi), Held(outs))
    {
      hide *;
      ghost var now := done;
      RangeStart(done, lo);
      for i := lo to hi
        invariant Worked(F, env, st, xs, ys, now, Held(outs)) && now == done + Range(lo, i)
      {
        RangeNext(done, lo, i, hi);
        WorkedNext(F, env, st, xs, ys, now, Held(outs), i);
        GateAt(outs, cnt, i, xs[i], ys[i]);
        now := now + {i};
      }
    }

    // All workers, in the order in which they happen to run.
    method RunRanges(outs: array<Wire<E>>, ghost st: Engine<E>, xs: seq<Wire<E>>, ys: seq<Wire<E>>,
                     ranges: seq<(nat, nat)>)
      returns (ghost done: set<nat>)
      requires Valid() && Apart(outs) && Wide(st.cnt, outs.Length) && st.cnt == cnt && outs.Length == |xs| == |ys|
      requires Covers(ranges, |xs|) && Worked(F, env, st, xs, ys, {}, Held(outs))
      modifies left, right, out, scratch, outs
      ensures Worked(F, env, st, xs, ys, done, Held(outs)) && forall i :: 0 <= i < |xs| ==> i in done
    {
      hide *;
      done := {};
      RangesWithin(ranges, |xs|);
      NoVisits(ranges);
      for r := 0 to |ranges|
        invariant Worked(F, env, st, xs, ys, done, Held(outs)) && done == Visits(ranges, r)
      {
        NotYet(ranges, |xs|, r);
        Work(outs, st, xs, ys, done, ranges[r].0, ranges[r].1);
        done := done + Range(ranges[r].0, ranges[r].1);
        NextVisits(ranges, r);
      }
      EverythingVisited(ranges, |xs|);
    }

    method RunParallel(outs: array<Wire<E>>, ghost st: Engine<E>, xs: seq<Wire<E>>, ys: seq<Wire<E>>,
                       ranges: seq<(nat, nat)>)
      requires Valid() && Apart(outs) && Wide(st.cnt, outs.Length) && st.cnt == cnt && outs.Length == |xs| == |ys|
      requires Covers(ranges, |xs|) && Worked(F, env, st, xs, ys, {}, Held(outs))
      modifies left, right, out, scratch, outs
      ensures st.cnt + |xs| <= |st.out| == |st.left| == |st.right| && |xs| <= scratch.Length
      ensures st.(cnt := st.cnt + |xs|, left := left[..], right := right[..], out := out[..],
                  msgs := st.msgs + scratch[..|xs|])
           == Block(F, env, st, xs, ys)
      ensures outs[..] == OutWires(F, env, st, xs, ys)
    {
      hide Worked, Block, OutWires, Covers, Valid, Apart;
      ghost var done := RunRanges(outs, st, xs, ys, ranges);
      WorkedFits(F, env, st, xs, ys, done, Held(outs));
      WorkedAll(F, env, st, xs, ys, done, Held(outs));
    }

    /** A block of gates up to the end of the buffer: messages received first by the verifier, all
        sent at once by the prover. */
    method MulBlock(outs: array<Wire<E>>, xs: seq<Wire<E>>, ys: seq<Wire<E>>, ranges: seq<(nat, nat)>)
      requires Valid() && Apart(outs) && outs.Length == |xs| == |ys| && cnt + |xs| <= N && Covers(ranges, |xs|)
      modifies this, left, right, out, scratch, outs
      ensures Valid() && Sized(N, old(Abs())) && (Abs(), outs[..]) == Many(F, env, N, old(Abs()), xs, ys)
    {
      ghost var st := Abs();
      hide Worked, Block, OutWires, Covers, Many, Apart;
      Prepare(outs, xs, ys);
      BlockIsMany(F, env, N, st, xs, ys);
      RunParallel(outs, st, xs, ys, ranges);
      msgs := msgs + scratch[..|xs|];
      cnt := cnt + |xs|;
    }

    method Prepare(outs: array<Wire<E>>, xs: seq<Wire<E>>, ys: seq<Wire<E>>)
      requires Valid() && Apart(outs) && outs.Length == |xs| == |ys| && cnt + |xs| <= N
      modifies scratch
      ensures Abs() == old(Abs()) && Worked(F, env, Abs(), xs, ys, {}, Held(outs))
    {
      if !env.role.Alice? { ReceiveAll(|xs|); }
      StartWorked(F, env, Abs(), xs, ys, Held(outs));
    }

    method ReceiveAll(n: nat)
      requires Valid() && n <= N
      modifies scratch
      ensures forall i :: 0 <= i < n ==> scratch[i] == env.inbox(|msgs| + i)
    {
      var i := 0;
      while i < n
        invariant 0 <= i <= n && forall j :: 0 <= j < i ==> scratch[j] == env.inbox(|msgs| + j)
      {
        scratch[i] := env.inbox(|msgs| + i);
        i := i + 1;
      }
    }

    // As many of the remaining gates as fit before the next check.
    method NextBlock(xs: seq<Wire<E>>, ys: seq<Wire<E>>, done: nat, split: nat -> seq<(nat, nat)>, blank: Wire<E>)
      returns (ws: seq<Wire<E>>, take: nat)
      requires Valid() && |xs| == |ys| && done < |xs| && Splits(split)
      modifies this, left, right, out, scratch
      ensures Valid() && 1 <= take && done + take <= |xs|
      ensures IsMany(F, env, N, old(Abs()), xs[done..done + take], ys[done..done + take], Abs(), ws)
    {
      hide Covers, Many, Refill;
      ghost var st := Abs();
      if cnt == N { CheckAndRefill(); } else { NoRefill(env, N, st); }
      take := if N - cnt <= |xs| - done then N - cnt else |xs| - done;
      assert Covers(split(take), take);
      var outs := new Wire<E>[take](_ => blank);
      MulBlock(outs, xs[done..done + take], ys[done..done + take], split(take));
      ws := outs[..];
      ManyAfterRefill(F, env, N, st, xs[done..done + take], ys[done..done + take]);
    }

    /** n multiplications at once: the same buffers, counters, outputs, messages, checks and refills
        as n scalar calls, across any number of buffer boundaries. */
    method MulMany(xs: seq<Wire<E>>, ys: seq<Wire<E>>, split: nat -> seq<(nat, nat)>, blank: Wire<E>)
      returns (ws: seq<Wire<E>>)
      requires Valid() && |xs| == |ys| && Splits(split)
      modifies this, left, right, out, scratch
      ensures Valid() && IsMany(F, env, N, old(Abs()), xs, ys, Abs(), ws)
    {
      ghost var st := Abs();
      var done := 0;
      ws := [];
      assert Sized(N, st);
      hide *;
      NothingDone(F, env, N, st, xs, ys);
      while done < |xs|
        invariant 0 <= done <= |xs| && Valid() && Reached(F, env, N, st, xs, ys, done, Abs(), ws)
      {
        ghost var now := Abs();
        var part, take := NextBlock(xs, ys, done, split, blank);
        BlockDone(F, env, N, st, xs, ys, done, take, now, ws, Abs(), part);
        ws := ws + part;
        done := done + take;
      }
      AllDone(F, env, N, st, xs, ys, Abs(), ws);
    }
  }

  // The engine and wires that the scalar form leaves, gate after gate.
  ghost predicate IsMany<E(!new)>(F: Field<E>, env: Env<E>, N: nat, st: Engine<E>, xs: seq<Wire<E>>, ys: seq<Wire<E>>,
                                  now: Engine<E>, ws: seq<Wire<E>>) {
    Sized(N, st) && |xs| == |ys| && (now, ws) == Many(F, env, N, st, xs, ys)
  }

  ghost predicate Splits(split: nat -> seq<(nat, nat)>) {
    forall c :: Covers(split(c), c)
  }

  ghost predicate Reached<E(!new)>(F: Field<E>, env: Env<E>, N: nat, st: Engine<E>, xs: seq<Wire<E>>, ys: seq<Wire<E>>,
                                   done: nat, now: Engine<E>, ws: seq<Wire<E>>) {
    |xs| == |ys| && done <= |xs| && IsMany(F, env, N, st, xs[..done], ys[..done], now, ws)
  }

  lemma AllDone<E(!new)>(F: Field<E>, env: Env<E>, N: nat, st: Engine<E>, xs: seq<Wire<E>>, ys: seq<Wire<E>>,
                         now: Engine<E>, ws: seq<Wire<E>>)
    requires Reached(F, env, N, st, xs, ys, |xs|, now, ws)
    ensures IsMany(F, env, N, st, xs, ys, now, ws)
  {
    assert xs[..|xs|] == xs && ys[..|ys|] == ys;
  }

  lemma NoRefill<E>(env: Env<E>, N: nat, st: Engine<E>)
    requires Sized(N, st) && st.cnt < N
    ensures Refill(env, N, st) == st
  {
  }

  lemma NothingDone<E(!new)>(F: Field<E>, env: Env<E>, N: nat, st: Engine<E>, xs: seq<Wire<E>>, ys: seq<Wire<E>>)
    requires Sized(N, st) && |xs| == |ys|
    ensures Reached(F, env, N, st, xs, ys, 0, st, [])
  {
  }

  lemma BlockDone<E(!new)>(F: Field<E>, env: Env<E>, N: nat, st: Engine<E>, xs: seq<Wire<E>>, ys: seq<Wire<E>>,
                           done: nat, take: nat, now: Engine<E>, ws: seq<Wire<E>>, next: Engine<E>, part: seq<Wire<E>>)
    requires Reached(F, env, N, st, xs, ys, done, now, ws) && done + take <= |xs|
    requires IsMany(F, env, N, now, xs[done..done + take], ys[done..done + take], next, part)
    ensures Reached(F, env, N, st, xs, ys, done + take, next, ws + part)
  {
    hide Many;
    ManyAppend(F, env, N, st, xs[..done], ys[..done], xs[done..done + take], ys[done..done + take]);
    assert xs[..done] + xs[done..done + take] == xs[..done + take]
      && ys[..done] + ys[done..done + take] == ys[..done + take];
  }

  lemma StartWorked<E(!new)>(F: Field<E>, env: Env<E>, st: Engine<E>, xs: seq<Wire<E>>, ys: seq<Wire<E>>, b: Bufs<E>)
    requires |xs| == |ys| && Fits(b, st.cnt, |xs|) && b.left == st.left && b.right == st.right && b.out == st.out
    requires !env.role.Alice? ==> forall i :: 0 <= i < |xs| ==> b.scratch[i] == env.inbox(|st.msgs| + i)
    ensures Worked(F, env, st, xs, ys, {}, b)
  {
    forall i | 0 <= i < |xs| ensures WorkedAt(F, env, st, xs, ys, false, b, i) {}
  }

  lemma RangesWithin(ranges: seq<(nat, nat)>, cnt: nat)
    requires Covers(ranges, cnt)
    ensures forall r :: 0 <= r < |ranges| ==> ranges[r].0 <= ranges[r].1 <= cnt
  {
  }

  lemma NoVisits(ranges: seq<(nat, nat)>)
    requires forall q :: 0 <= q < |ranges| ==> ranges[q].0 <= ranges[q].1
    ensures Visits(ranges, 0) == {}
  {
  }

  lemma NextVisits(ranges: seq<(nat, nat)>, r: nat)
    requires r < |ranges| && forall q :: 0 <= q < |ranges| ==> ranges[q].0 <= ranges[q].1
    ensures Visits(ranges, r + 1) == Visits(ranges, r) + Range(ranges[r].0, ranges[r].1)
  {
  }

  lemma RangeStart(done: set<nat>, lo: nat)
    ensures done == done + Range(lo, lo)
  {
  }

  lemma RangeNext(done: set<nat>, lo: nat, i: nat, hi: nat)
    requires lo <= i < hi && forall j :: lo <= j < hi ==> j !in done
    ensures done + Range(lo, i) + {i} == done + Range(lo, i + 1) && i !in done + Range(lo, i)
  {
  }

  // What the first r ranges visit.
  ghost function Visits(ranges: seq<(nat, nat)>, r: nat): set<nat>
    requires r <= |ranges| && forall q :: 0 <= q < |ranges| ==> ranges[q].0 <= ranges[q].1
  {
    if r == 0 then {} else Visits(ranges, r - 1) + Range(ranges[r - 1].0, ranges[r - 1].1)
  }

  lemma {:induction false} VisitsAre(ranges: seq<(nat, nat)>, r: nat, i: nat)
    requires r <= |ranges| && forall q :: 0 <= q < |ranges| ==> ranges[q].0 <= ranges[q].1
    ensures i in Visits(ranges, r) <==> exists q :: 0 <= q < r && ranges[q].0 <= i < ranges[q].1
  {
    if r != 0 { VisitsAre(ranges, r - 1, i); }
  }

  lemma NotYet(ranges: seq<(nat, nat)>, cnt: nat, r: nat)
    requires Covers(ranges, cnt) && r < |ranges|
    ensures forall i :: ranges[r].0 <= i < ranges[r].1 ==> i !in Visits(ranges, r)
  {
    forall i | ranges[r].0 <= i < ranges[r].1 ensures i !in Visits(ranges, r) { VisitsAre(ranges, r, i); }
  }

  lemma EverythingVisited(ranges: seq<(nat, nat)>, cnt: nat)
    requires Covers(ranges, cnt)
    ensures forall i :: 0 <= i < cnt ==> i in Visits(ranges, |ranges|)
  {
    forall i | 0 <= i < cnt ensures i in Visits(ranges, |ranges|) {
      assert Visited(ranges, i);
      VisitsAre(ranges, |ranges|, i);
    }
  }

  lemma WorkedFits<E(!new)>(F: Field<E>, env: Env<E>, st: Engine<E>, xs: seq<Wire<E>>, ys: seq<Wire<E>>,
                            done: set<nat>, b: Bufs<E>)
    requires Worked(F, env, st, xs, ys, done, b)
    ensures |xs| == |ys| && Fits(b, st.cnt, |xs|) && |b.left| == |st.left| == |st.right| == |st.out|
  {
  }
}
