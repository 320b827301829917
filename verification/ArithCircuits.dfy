/** Whole circuits on two engines: the prover's and the verifier's wires stay tied by the MAC
    relation through every gate, the buffered gates too, and every check passes. */
module ArithCircuits {
  import opened Algebra
  import opened ArithEngine
  import opened ArithCheck

  datatype Step<E> =
    | Input(w: E)
    | Public(c: E)
    | AddGate(a: nat, b: nat)
    | SubGate(a: nat, b: nat)
    | NegGate(a: nat)
    | Scaled(a: nat, c: E)
    | MulGate(a: nat, b: nat)
    | MulGates(ls: seq<nat>, rs: seq<nat>)

  ghost predicate Refers<E>(g: Step<E>, n: nat) {
    match g
    case Input(_) => true
    case Public(_) => true
    case AddGate(a, b) => a < n && b < n
    case SubGate(a, b) => a < n && b < n
    case NegGate(a) => a < n
    case Scaled(a, _) => a < n
    case MulGate(a, b) => a < n && b < n
    case MulGates(ls, rs) => |ls| == |rs| && (forall i :: 0 <= i < |ls| ==> ls[i] < n && rs[i] < n)
  }

  datatype Party<E> = Party(engine: Engine<E>, wires: seq<Wire<E>>)

  function Pick<E(!new)>(wires: seq<Wire<E>>, ids: seq<nat>): (r: seq<Wire<E>>)
    requires forall i :: 0 <= i < |ids| ==> ids[i] < |wires|
    ensures |r| == |ids|
  {
    seq(|ids|, i requires 0 <= i < |ids| => wires[ids[i]])
  }

  // An input takes a correlation straight from the stream and one message.
  function InputGate<E(!new)>(F: Field<E>, env: Env<E>, st: Engine<E>, w: E): (Engine<E>, Wire<E>) {
    var drawn := env.vole(st.pos);
    var lam := if env.role.Alice? then F.Sub(drawn.val, w) else env.inbox(|st.msgs|);
    (st.(pos := st.pos + 1, msgs := st.msgs + [lam]),
     match env.role
     case Alice => Wire(w, drawn.mac)
     case Bob => Wire(F.zero, F.Add(drawn.mac, F.Mul(lam, env.delta)))
     case Bound => Wire(F.Sub(drawn.val, lam), drawn.mac))
  }

  // A public constant under the fixed public MAC.
  function PublicWire<E(!new)>(F: Field<E>, env: Env<E>, pubMac: E, c: E): Wire<E> {
    if env.role.Bob? then Wire(F.zero, F.Add(F.Neg(F.Mul(env.delta, c)), pubMac)) else Wire(c, pubMac)
  }

  function LocalWire<E(!new)>(F: Field<E>, env: Env<E>, pubMac: E, wires: seq<Wire<E>>, g: Step<E>): Wire<E>
    requires Refers(g, |wires|) && !g.Input? && !g.MulGate? && !g.MulGates?
  {
    match g
    case Public(c) => PublicWire(F, env, pubMac, c)
    case AddGate(a, b) => Wire(F.Add(wires[a].val, wires[b].val), F.Add(wires[a].mac, wires[b].mac))
    case SubGate(a, b) => Wire(F.Sub(wires[a].val, wires[b].val), F.Sub(wires[a].mac, wires[b].mac))
    case NegGate(a) => Wire(F.Neg(wires[a].val), F.Neg(wires[a].mac))
    case Scaled(a, c) => Wire(F.Mul(wires[a].val, c), F.Mul(wires[a].mac, c))
  }

  function Do<E(!new)>(F: Field<E>, env: Env<E>, N: nat, pubMac: E, p: Party<E>, g: Step<E>): (q: Party<E>)
    requires Sized(N, p.engine) && Refers(g, |p.wires|)
    ensures Sized(N, q.engine) && |q.wires| == |p.wires| + if g.MulGates? then |g.ls| else 1
  {
    match g
    case Input(w) =>
      var r := InputGate(F, env, p.engine, w);
      Party(r.0, p.wires + [r.1])
    case MulGate(a, b) =>
      var r := ScalarMul(F, env, N, p.engine, p.wires[a], p.wires[b]);
      Party(r.0, p.wires + [r.1])
    case MulGates(ls, rs) =>
      var r := Many(F, env, N, p.engine, Pick(p.wires, ls), Pick(p.wires, rs));
      Party(r.0, p.wires + r.1)
    case _ => Party(p.engine, p.wires + [LocalWire(F, env, pubMac, p.wires, g)])
  }

  // The cleartext values the gate appends.
  function Clear<E(!new)>(F: Field<E>, vals: seq<E>, g: Step<E>): (r: seq<E>)
    requires Refers(g, |vals|)
    ensures |r| == if g.MulGates? then |g.ls| else 1
  {
    match g
    case Input(w) => [w]
    case Public(c) => [c]
    case AddGate(a, b) => [F.Add(vals[a], vals[b])]
    case SubGate(a, b) => [F.Sub(vals[a], vals[b])]
    case NegGate(a) => [F.Neg(vals[a])]
    case Scaled(a, c) => [F.Mul(vals[a], c)]
    case MulGate(a, b) => [F.Mul(vals[a], vals[b])]
    case MulGates(ls, rs) => seq(|ls|, i requires 0 <= i < |ls| => F.Mul(vals[ls[i]], vals[rs[i]]))
  }

  // ---- the relation between the parties ----

  // The two streams are correlated.
  ghost predicate Correlated<E(!new)>(F: Field<E>, A: Env<E>, V: Env<E>) {
    && !A.role.Bob? && V.role.Bob?
    && forall i: nat :: Tagged(F, V.delta, A.vole(i), V.vole(i))
  }

  // The verifier has received what the prover sent, by the code or arbitrarily.
  ghost predicate Received<E(!new)>(A: Env<E>, V: Env<E>, msgs: seq<E>) {
    if A.role.Alice? then forall k :: 0 <= k < |msgs| ==> V.inbox(k) == msgs[k]
    else forall k: nat :: V.inbox(k) == A.inbox(k)
  }

  // A batch of authenticated gates with the same mask on both sides; right, if the prover follows
  // the code (h).
  ghost predicate BatchOk<E(!new)>(F: Field<E>, delta: E, h: bool, a: Batch<E>, v: Batch<E>) {
    && |a.left| == |a.right| == |a.out| && a.mask == v.mask
    && AllTagged(F, delta, a.left, v.left) && AllTagged(F, delta, a.right, v.right) && AllTagged(F, delta, a.out, v.out)
    && (h ==> forall i :: 0 <= i < |a.left| ==> a.out[i].val == F.Mul(a.left[i].val, a.right[i].val))
  }

  ghost predicate Tied<E(!new)>(F: Field<E>, delta: E, N: nat, h: bool, a: Engine<E>, v: Engine<E>) {
    && Sized(N, a) && Sized(N, v) && a.cnt == v.cnt && a.pos == v.pos && a.msgs == v.msgs
    && AllTagged(F, delta, a.left[..a.cnt], v.left[..a.cnt]) && AllTagged(F, delta, a.right[..a.cnt], v.right[..a.cnt])
    && AllTagged(F, delta, a.out, v.out)
    && (h ==> forall i :: 0 <= i < a.cnt ==> a.out[i].val == F.Mul(a.left[i].val, a.right[i].val))
    && |a.checked| == |v.checked| && forall c :: 0 <= c < |a.checked| ==> BatchOk(F, delta, h, a.checked[c],
        v.checked[c])
  }

  ghost predicate InStep<E(!new)>(F: Field<E>, delta: E, N: nat, h: bool, vals: seq<E>, a: Party<E>, v: Party<E>) {
    && Tied(F, delta, N, h, a.engine, v.engine) && AllTagged(F, delta, a.wires, v.wires)
    && |vals| == |a.wires| && (h ==> forall i :: 0 <= i < |vals| ==> a.wires[i].val == vals[i])
  }

  lemma RefillTied<E(!new)>(F: Field<E>, A: Env<E>, V: Env<E>, N: nat, a: Engine<E>, v: Engine<E>)
    requires Correlated(F, A, V) && Tied(F, V.delta, N, A.role.Alice?, a, v)
    ensures Tied(F, V.delta, N, A.role.Alice?, Refill(A, N, a), Refill(V, N, v))
  {
    if a.cnt == N {
      assert a.left[..N] == a.left && v.left[..N] == v.left && a.right[..N] == a.right && v.right[..N] == v.right;
      hide Tagged;
      var a', v' := Refill(A, N, a), Refill(V, N, v);
      forall i | 0 <= i < N ensures Tagged(F, V.delta, a'.out[i], v'.out[i]) {
        assert Tagged(F, V.delta, A.vole(a.pos + 1 + i), V.vole(a.pos + 1 + i));
      }
      assert BatchOk(F, V.delta, A.role.Alice?, Batch(a.left, a.right, a.out, a.pos),
                     Batch(v.left, v.right, v.out, v.pos));
    }
  }

  // The verifier's correction of its key by the received difference gives the prover's value a MAC.
  lemma Corrected<E(!new)>(F: Field<E>, delta: E, a: Wire<E>, k: Wire<E>, x: E)
    requires F.Laws() && Tagged(F, delta, a, k)
    ensures Tagged(F, delta, Wire(x, a.mac), Wire(F.zero, F.Add(k.mac, F.Mul(F.Sub(a.val, x), delta))))
  {
    SubLaws(F, a.val, x);
    var d := F.Sub(a.val, x);
    assert F.Add(F.Add(k.mac, F.Mul(d, delta)), F.Mul(x, delta)) == F.Add(k.mac,
        F.Mul(F.Add(d, x), delta)) by { Ring(F); }
  }

  lemma SubTwice<E(!new)>(F: Field<E>, a: E, s: E)
    requires F.Laws()
    ensures F.Sub(a, F.Sub(a, s)) == s
  {
    var d := F.Sub(a, s);
    SubLaws(F, a, s);
    SubLaws(F, s, d);
  }

  lemma GateTied<E(!new)>(F: Field<E>, A: Env<E>, V: Env<E>, N: nat, a: Engine<E>, v: Engine<E>, x: Wire<E>,
                          y: Wire<E>, kx: Wire<E>, ky: Wire<E>)
    requires F.Laws() && Correlated(F, A, V) && Tied(F, V.delta, N, A.role.Alice?, a, v) && a.cnt < N
    requires Tagged(F, V.delta, x, kx) && Tagged(F, V.delta, y, ky)
    requires Received(A, V, Gate(F, A, a, x, y).0.msgs)
    ensures var r, q := Gate(F, A, a, x, y), Gate(F, V, v, kx, ky);
            && Tied(F, V.delta, N, A.role.Alice?, r.0, q.0) && Tagged(F, V.delta, r.1, q.1)
            && (A.role.Alice? ==> r.1.val == F.Mul(x.val, y.val))
  {
    var c := a.cnt;
    var r, q := Gate(F, A, a, x, y), Gate(F, V, v, kx, ky);
    assert Tagged(F, V.delta, a.out[c], v.out[c]);
    var s := Correction(F, A, a.out[c], x, y, |a.msgs|);
    assert r.0.msgs == a.msgs + [s];
    assert V.inbox(|a.msgs|) == r.0.msgs[|a.msgs|] == s;
    SubTwice(F, a.out[c].val, s);
    Corrected(F, V.delta, a.out[c], v.out[c], r.1.val);
    hide Tagged;
    GateKeeps(F, V.delta, N, A.role.Alice?, a, v, r.0, q.0, x, y, kx, ky, r.1, q.1, s);
  }

  lemma GateKeeps<E(!new)>(F: Field<E>, delta: E, N: nat, h: bool, a: Engine<E>, v: Engine<E>, a': Engine<E>,
                           v': Engine<E>, x: Wire<E>, y: Wire<E>, kx: Wire<E>, ky: Wire<E>, w: Wire<E>, kw: Wire<E>,
                           s: E)
    requires Tied(F, delta, N, h, a, v) && a.cnt < N && Tagged(F, delta, x, kx) && Tagged(F, delta, y, ky)
             && Tagged(F, delta, w, kw)
    requires h ==> w.val == F.Mul(x.val, y.val)
    requires a' == a.(cnt := a.cnt + 1, left := a.left[a.cnt := x], right := a.right[a.cnt := y],
                      out := a.out[a.cnt := w], msgs := a.msgs + [s])
    requires v' == v.(cnt := v.cnt + 1, left := v.left[v.cnt := kx], right := v.right[v.cnt := ky],
                      out := v.out[v.cnt := kw], msgs := v.msgs + [s])
    ensures Tied(F, delta, N, h, a', v')
  {
    hide Tagged, BatchOk;
    PrefixTagged(F, delta, a.left, v.left, a.cnt, x, kx);
    PrefixTagged(F, delta, a.right, v.right, a.cnt, y, ky);
  }

  lemma PrefixTagged<E(!new)>(F: Field<E>, delta: E, s: seq<Wire<E>>, t: seq<Wire<E>>, n: nat, x: Wire<E>, kx: Wire<E>)
    requires n < |s| == |t| && AllTagged(F, delta, s[..n], t[..n]) && Tagged(F, delta, x, kx)
    ensures AllTagged(F, delta, s[n := x][..n + 1], t[n := kx][..n + 1])
  {
    hide Tagged;
    var u, k := s[n := x][..n + 1], t[n := kx][..n + 1];
    forall i | 0 <= i < n + 1 ensures Tagged(F, delta, u[i], k[i]) {
      if i < n { assert Tagged(F, delta, s[..n][i], t[..n][i]); }
    }
  }

  lemma MulTied<E(!new)>(F: Field<E>, A: Env<E>, V: Env<E>, N: nat, a: Engine<E>, v: Engine<E>, x: Wire<E>, y: Wire<E>,
                         kx: Wire<E>, ky: Wire<E>)
    requires F.Laws() && Correlated(F, A, V) && Tied(F, V.delta, N, A.role.Alice?, a, v)
    requires Tagged(F, V.delta, x, kx) && Tagged(F, V.delta, y, ky)
             && Received(A, V, ScalarMul(F, A, N, a, x, y).0.msgs)
    ensures var r, q := ScalarMul(F, A, N, a, x, y), ScalarMul(F, V, N, v, kx, ky);
            && Tied(F, V.delta, N, A.role.Alice?, r.0, q.0) && Tagged(F, V.delta, r.1, q.1)
            && (A.role.Alice? ==> r.1.val == F.Mul(x.val, y.val))
  {
    RefillTied(F, A, V, N, a, v);
    hide Tied, Tagged, Gate, Refill, Correlated;
    GateTied(F, A, V, N, Refill(A, N, a), Refill(V, N, v), x, y, kx, ky);
  }

  lemma ReceivedPrefix<E(!new)>(A: Env<E>, V: Env<E>, msgs: seq<E>, more: seq<E>)
    requires Received(A, V, more) && msgs <= more
    ensures Received(A, V, msgs)
  {
  }

  // One more gate after `n` gates of a vectorized call.
  lemma OneMore<E(!new)>(F: Field<E>, A: Env<E>, V: Env<E>, N: nat, r: (Engine<E>, seq<Wire<E>>),
                         q: (Engine<E>, seq<Wire<E>>), vals: seq<E>, x: Wire<E>, y: Wire<E>, kx: Wire<E>, ky: Wire<E>)
    requires F.Laws() && Correlated(F, A, V) && OutputsTied(F, V.delta, N, A.role.Alice?, r, q, vals)
    requires Tagged(F, V.delta, x, kx) && Tagged(F, V.delta, y, ky)
             && Received(A, V, ScalarMul(F, A, N, r.0, x, y).0.msgs)
    ensures var s, t := ScalarMul(F, A, N, r.0, x, y), ScalarMul(F, V, N, q.0, kx, ky);
            OutputsTied(F, V.delta, N, A.role.Alice?, (s.0, r.1 + [s.1]), (t.0, q.1 + [t.1]),
                        vals + [F.Mul(x.val, y.val)])
  {
    hide Tied, Tagged, ScalarMul, Correlated;
    MulTied(F, A, V, N, r.0, q.0, x, y, kx, ky);
  }

  ghost predicate OutputsTied<E(!new)>(F: Field<E>, delta: E, N: nat, h: bool, r: (Engine<E>, seq<Wire<E>>),
                                       q: (Engine<E>, seq<Wire<E>>), vals: seq<E>) {
    && Tied(F, delta, N, h, r.0, q.0) && AllTagged(F, delta, r.1, q.1)
    && |vals| == |r.1| && (h ==> forall i :: 0 <= i < |vals| ==> r.1[i].val == vals[i])
  }

  function ProductsOf<E(!new)>(F: Field<E>, xs: seq<Wire<E>>, ys: seq<Wire<E>>): (r: seq<E>)
    requires |xs| == |ys|
    ensures |r| == |xs|
  {
    seq(|xs|, i requires 0 <= i < |xs| => F.Mul(xs[i].val, ys[i].val))
  }

  lemma TaggedSplit<E(!new)>(F: Field<E>, delta: E, xs: seq<Wire<E>>, ks: seq<Wire<E>>, n: nat)
    requires AllTagged(F, delta, xs, ks) && n < |xs|
    ensures |xs| == |ks| && AllTagged(F, delta, xs[..n], ks[..n]) && Tagged(F, delta, xs[n], ks[n])
  {
    hide Tagged;
  }

  // Any number of gates, across any number of checks.
  lemma {:induction false} ManyTied<E(!new)>(F: Field<E>, A: Env<E>, V: Env<E>, N: nat, a: Engine<E>, v: Engine<E>,
                                             xs: seq<Wire<E>>, ys: seq<Wire<E>>, kxs: seq<Wire<E>>, kys: seq<Wire<E>>)
    requires F.Laws() && Correlated(F, A, V) && Tied(F, V.delta, N, A.role.Alice?, a, v) && |xs| == |ys|
    requires AllTagged(F, V.delta, xs, kxs) && AllTagged(F, V.delta, ys, kys)
             && Received(A, V, Many(F, A, N, a, xs, ys).0.msgs)
    ensures OutputsTied(F, V.delta, N, A.role.Alice?, Many(F, A, N, a, xs, ys), Many(F, V, N, v, kxs, kys),
                        ProductsOf(F, xs, ys))
    decreases |xs|
  {
    if xs != [] {
      hide *;
      var n := |xs| - 1;
      ManyHead(F, A, V, N, a, xs, ys, kxs, kys);
      ManyTied(F, A, V, N, a, v, xs[..n], ys[..n], kxs[..n], kys[..n]);
      ManySnoc(F, A, N, a, xs, ys);
      ManySnoc(F, V, N, v, kxs, kys);
      OneMore(F, A, V, N, Many(F, A, N, a, xs[..n], ys[..n]), Many(F, V, N, v, kxs[..n], kys[..n]),
              ProductsOf(F, xs[..n], ys[..n]), xs[n], ys[n], kxs[n], kys[n]);
    }
  }

  // What the gates before the last one need.
  lemma ManyHead<E(!new)>(F: Field<E>, A: Env<E>, V: Env<E>, N: nat, a: Engine<E>, xs: seq<Wire<E>>, ys: seq<Wire<E>>,
                          kxs: seq<Wire<E>>, kys: seq<Wire<E>>)
    requires Sized(N, a) && |xs| == |ys| && xs != []
    requires AllTagged(F, V.delta, xs, kxs) && AllTagged(F, V.delta, ys, kys)
             && Received(A, V, Many(F, A, N, a, xs, ys).0.msgs)
    ensures var n := |xs| - 1;
            && |kxs| == |kys| == |xs| && Tagged(F, V.delta, xs[n], kxs[n]) && Tagged(F, V.delta, ys[n], kys[n])
            && AllTagged(F, V.delta, xs[..n], kxs[..n]) && AllTagged(F, V.delta, ys[..n], kys[..n])
            && Received(A, V, Many(F, A, N, a, xs[..n], ys[..n]).0.msgs)
  {
    hide Tagged, AllTagged, ScalarMul, Received;
    var n := |xs| - 1;
    TaggedSplit(F, V.delta, xs, kxs, n);
    TaggedSplit(F, V.delta, ys, kys, n);
    var r := Many(F, A, N, a, xs[..n], ys[..n]);
    MessagesGrow(F, A, N, r.0, xs[n], ys[n]);
    ReceivedPrefix(A, V, r.0.msgs, ScalarMul(F, A, N, r.0, xs[n], ys[n]).0.msgs);
  }

  lemma ManySnoc<E(!new)>(F: Field<E>, A: Env<E>, N: nat, a: Engine<E>, xs: seq<Wire<E>>, ys: seq<Wire<E>>)
    requires Sized(N, a) && |xs| == |ys| && xs != []
    ensures var n := |xs| - 1;
            var r := Many(F, A, N, a, xs[..n], ys[..n]);
            var s := ScalarMul(F, A, N, r.0, xs[n], ys[n]);
            && Many(F, A, N, a, xs, ys) == (s.0, r.1 + [s.1])
            && ProductsOf(F, xs, ys) == ProductsOf(F, xs[..n], ys[..n]) + [F.Mul(xs[n].val, ys[n].val)]
  {
    hide ScalarMul;
  }

  lemma MessagesGrow<E(!new)>(F: Field<E>, A: Env<E>, N: nat, a: Engine<E>, x: Wire<E>, y: Wire<E>)
    requires Sized(N, a)
    ensures a.msgs <= ScalarMul(F, A, N, a, x, y).0.msgs
  {
  }

  lemma {:induction false} ManyGrow<E(!new)>(F: Field<E>, A: Env<E>, N: nat, a: Engine<E>, xs: seq<Wire<E>>,
                                             ys: seq<Wire<E>>)
    requires Sized(N, a) && |xs| == |ys|
    ensures a.msgs <= Many(F, A, N, a, xs, ys).0.msgs
    decreases |xs|
  {
    if xs != [] {
      hide ScalarMul;
      var n := |xs| - 1;
      ManyGrow(F, A, N, a, xs[..n], ys[..n]);
      MessagesGrow(F, A, N, Many(F, A, N, a, xs[..n], ys[..n]).0, xs[n], ys[n]);
    }
  }

  // ---- the other gates ----

  lemma InputTied<E(!new)>(F: Field<E>, A: Env<E>, V: Env<E>, N: nat, a: Engine<E>, v: Engine<E>, w: E)
    requires F.Laws() && Correlated(F, A, V) && Tied(F, V.delta, N, A.role.Alice?, a, v)
             && Received(A, V, InputGate(F, A, a, w).0.msgs)
    ensures var r, q := InputGate(F, A, a, w), InputGate(F, V, v, w);
            && Tied(F, V.delta, N, A.role.Alice?, r.0, q.0) && Tagged(F, V.delta, r.1, q.1)
            && (A.role.Alice? ==> r.1.val == w)
  {
    var r := InputGate(F, A, a, w);
    var lam := if A.role.Alice? then F.Sub(A.vole(a.pos).val, w) else A.inbox(|a.msgs|);
    assert r.0.msgs == a.msgs + [lam];
    assert V.inbox(|a.msgs|) == r.0.msgs[|a.msgs|] == lam;
    assert Tagged(F, V.delta, A.vole(a.pos), V.vole(v.pos));
    SubTwice(F, A.vole(a.pos).val, lam);
    Corrected(F, V.delta, A.vole(a.pos), V.vole(v.pos), r.1.val);
  }

  // The public MAC cancels: the verifier's key absorbs -Delta*c.
  lemma PublicTied<E(!new)>(F: Field<E>, A: Env<E>, V: Env<E>, pubMac: E, c: E)
    requires F.Laws() && !A.role.Bob? && V.role.Bob?
    ensures Tagged(F, V.delta, PublicWire(F, A, pubMac, c), PublicWire(F, V, pubMac, c))
  {
    var t := F.Mul(V.delta, c);
    assert At2(c, V.delta) && At1(t);
    assert F.Add(F.Add(F.Neg(t), pubMac), t) == F.Add(pubMac, F.Add(t, F.Neg(t))) by { AddLaws(F); }
    Zero(F, pubMac);
  }

  lemma AddTied<E(!new)>(F: Field<E>, delta: E, a: Wire<E>, b: Wire<E>, ka: Wire<E>, kb: Wire<E>)
    requires F.Laws() && Tagged(F, delta, a, ka) && Tagged(F, delta, b, kb)
    ensures Tagged(F, delta, Wire(F.Add(a.val, b.val), F.Add(a.mac, b.mac)),
                   Wire(F.Add(ka.val, kb.val), F.Add(ka.mac, kb.mac)))
  {
    Ring(F);
  }

  lemma NegTied<E(!new)>(F: Field<E>, delta: E, a: Wire<E>, ka: Wire<E>)
    requires F.Laws() && Tagged(F, delta, a, ka)
    ensures Tagged(F, delta, Wire(F.Neg(a.val), F.Neg(a.mac)), Wire(F.Neg(ka.val), F.Neg(ka.mac)))
  {
    NegLaws(F, ka.mac, F.Mul(a.val, delta));
    NegLaws(F, delta, a.val);
    assert At2(a.val, delta) && At2(F.Neg(a.val), delta);
  }

  lemma ScaledTied<E(!new)>(F: Field<E>, delta: E, a: Wire<E>, ka: Wire<E>, c: E)
    requires F.Laws() && Tagged(F, delta, a, ka)
    ensures Tagged(F, delta, Wire(F.Mul(a.val, c), F.Mul(a.mac, c)), Wire(F.Mul(ka.val, c), F.Mul(ka.mac, c)))
  {
    Ring(F);
  }

  lemma LocalTied<E(!new)>(F: Field<E>, A: Env<E>, V: Env<E>, pubMac: E, vals: seq<E>, wires: seq<Wire<E>>,
                           keys: seq<Wire<E>>, g: Step<E>)
    requires F.Laws() && !A.role.Bob? && V.role.Bob? && AllTagged(F, V.delta, wires, keys)
    requires |vals| == |wires| && (A.role.Alice? ==> forall i :: 0 <= i < |vals| ==> wires[i].val == vals[i])
    requires Refers(g, |vals|) && !g.Input? && !g.MulGate? && !g.MulGates?
    ensures var w, k := LocalWire(F, A, pubMac, wires, g), LocalWire(F, V, pubMac, keys, g);
            Tagged(F, V.delta, w, k) && (A.role.Alice? ==> [w.val] == Clear(F, vals, g))
  {
    hide Tagged;
    match g
    case Public(c) => PublicTied(F, A, V, pubMac, c);
    case AddGate(a, b) => AddTied(F, V.delta, wires[a], wires[b], keys[a], keys[b]);
    case SubGate(a, b) =>
      NegTied(F, V.delta, wires[b], keys[b]);
      AddTied(F, V.delta, wires[a], Wire(F.Neg(wires[b].val), F.Neg(wires[b].mac)), keys[a],
              Wire(F.Neg(keys[b].val), F.Neg(keys[b].mac)));
    case NegGate(a) => NegTied(F, V.delta, wires[a], keys[a]);
    case Scaled(a, c) => ScaledTied(F, V.delta, wires[a], keys[a], c);
  }

  // ---- whole circuits ----

  lemma Appended<E(!new)>(F: Field<E>, delta: E, N: nat, h: bool, vals: seq<E>, a: Party<E>, v: Party<E>,
                          r: (Engine<E>, seq<Wire<E>>), q: (Engine<E>, seq<Wire<E>>), more: seq<E>)
    requires InStep(F, delta, N, h, vals, a, v) && OutputsTied(F, delta, N, h, r, q, more)
    ensures InStep(F, delta, N, h, vals + more, Party(r.0, a.wires + r.1), Party(q.0, v.wires + q.1))
  {
    hide Tied, Tagged;
  }

  lemma PickTied<E(!new)>(F: Field<E>, delta: E, wires: seq<Wire<E>>, keys: seq<Wire<E>>, ids: seq<nat>)
    requires AllTagged(F, delta, wires, keys) && forall i :: 0 <= i < |ids| ==> ids[i] < |wires|
    ensures AllTagged(F, delta, Pick(wires, ids), Pick(keys, ids))
  {
    hide Tagged;
  }

  // What the step adds: the outputs of the two parties.
  function Output<E(!new)>(F: Field<E>, env: Env<E>, N: nat, pubMac: E, p: Party<E>,
                           g: Step<E>): (r: (Engine<E>, seq<Wire<E>>))
    requires Sized(N, p.engine) && Refers(g, |p.wires|)
    ensures Do(F, env, N, pubMac, p, g) == Party(r.0, p.wires + r.1)
  {
    match g
    case Input(w) => var r := InputGate(F, env, p.engine, w); (r.0, [r.1])
    case MulGate(a, b) => var r := ScalarMul(F, env, N, p.engine, p.wires[a], p.wires[b]); (r.0, [r.1])
    case MulGates(ls, rs) => Many(F, env, N, p.engine, Pick(p.wires, ls), Pick(p.wires, rs))
    case _ => (p.engine, [LocalWire(F, env, pubMac, p.wires, g)])
  }

  lemma OutputTied<E(!new)>(F: Field<E>, A: Env<E>, V: Env<E>, N: nat, pubMac: E, vals: seq<E>, a: Party<E>,
                            v: Party<E>, g: Step<E>)
    requires F.Laws() && Correlated(F, A, V) && InStep(F, V.delta, N, A.role.Alice?, vals, a, v) && Refers(g, |vals|)
    requires Received(A, V, Output(F, A, N, pubMac, a, g).0.msgs)
    ensures OutputsTied(F, V.delta, N, A.role.Alice?, Output(F, A, N, pubMac, a, g), Output(F, V, N, pubMac, v, g),
                        Clear(F, vals, g))
  {
    hide Tied, Tagged, ScalarMul, Many, InputGate, LocalWire;
    match g
    case Input(w) => InputTied(F, A, V, N, a.engine, v.engine, w);
    case MulGate(x, y) => MulTied(F, A, V, N, a.engine, v.engine, a.wires[x], a.wires[y], v.wires[x], v.wires[y]);
    case MulGates(ls, rs) =>
      PickTied(F, V.delta, a.wires, v.wires, ls);
      PickTied(F, V.delta, a.wires, v.wires, rs);
      ManyTied(F, A, V, N, a.engine, v.engine, Pick(a.wires, ls), Pick(a.wires, rs), Pick(v.wires, ls),
               Pick(v.wires, rs));
      if A.role.Alice? { assert ProductsOf(F, Pick(a.wires, ls), Pick(a.wires, rs)) == Clear(F, vals, g); }
    case _ => LocalTied(F, A, V, pubMac, vals, a.wires, v.wires, g);
  }

  /** Every gate keeps the two parties in step. */
  lemma GateStepKeeps<E(!new)>(F: Field<E>, A: Env<E>, V: Env<E>, N: nat, pubMac: E, vals: seq<E>, a: Party<E>,
                               v: Party<E>, g: Step<E>)
    requires F.Laws() && Correlated(F, A, V) && InStep(F, V.delta, N, A.role.Alice?, vals, a, v) && Refers(g, |vals|)
    requires Received(A, V, Do(F, A, N, pubMac, a, g).engine.msgs)
    ensures InStep(F, V.delta, N, A.role.Alice?, vals + Clear(F, vals, g), Do(F, A, N, pubMac, a, g),
                   Do(F, V, N, pubMac, v, g))
  {
    var r, q := Output(F, A, N, pubMac, a, g), Output(F, V, N, pubMac, v, g);
    hide Output, Do, OutputsTied, Clear;
    OutputTied(F, A, V, N, pubMac, vals, a, v, g);
    Appended(F, V.delta, N, A.role.Alice?, vals, a, v, r, q, Clear(F, vals, g));
  }

  // How many wires the gates produce, in order.
  function Width<E>(circuit: seq<Step<E>>): nat {
    if circuit == [] then 0
    else var g := circuit[|circuit| - 1]; Width(circuit[..|circuit| - 1]) + if g.MulGates? then |g.ls| else 1
  }

  // Gates refer to earlier wires.
  ghost predicate Ordered<E>(circuit: seq<Step<E>>) {
    forall i :: 0 <= i < |circuit| ==> Refers(circuit[i], Width(circuit[..i]))
  }

  lemma OrderedPrefix<E>(circuit: seq<Step<E>>, n: nat)
    requires Ordered(circuit) && n <= |circuit|
    ensures Ordered(circuit[..n])
  {
    forall i | 0 <= i < n ensures Refers(circuit[..n][i], Width(circuit[..n][..i])) {
      assert circuit[..n][..i] == circuit[..i];
      assert Refers(circuit[i], Width(circuit[..i]));
    }
  }

  /** The meaning of a circuit: the cleartext of every wire. */
  ghost function Values<E(!new)>(F: Field<E>, circuit: seq<Step<E>>): (r: seq<E>)
    requires Ordered(circuit)
    ensures |r| == Width(circuit)
    decreases |circuit|
  {
    if circuit == [] then []
    else
      var n := |circuit| - 1;
      OrderedPrefix(circuit, n);
      Values(F, circuit[..n]) + Clear(F, Values(F, circuit[..n]), circuit[n])
  }

  // A fresh engine: one correlation drawn, then a full buffer.
  function Start<E(!new)>(env: Env<E>, N: nat, blank: Wire<E>): Engine<E> {
    Engine(0, seq(N, _ => blank), seq(N, _ => blank), Fresh(env, 1, N), 1 + N, [], [])
  }

  ghost function Execute<E(!new)>(F: Field<E>, env: Env<E>, N: nat, blank: Wire<E>, pubMac: E,
                                  circuit: seq<Step<E>>): (r: Party<E>)
    requires 1 <= N && Ordered(circuit)
    ensures Sized(N, r.engine) && |r.wires| == Width(circuit)
    decreases |circuit|
  {
    if circuit == [] then Party(Start(env, N, blank), [])
    else
      var n := |circuit| - 1;
      OrderedPrefix(circuit, n);
      Do(F, env, N, pubMac, Execute(F, env, N, blank, pubMac, circuit[..n]), circuit[n])
  }

  lemma StepGrows<E(!new)>(F: Field<E>, env: Env<E>, N: nat, pubMac: E, p: Party<E>, g: Step<E>)
    requires Sized(N, p.engine) && Refers(g, |p.wires|)
    ensures p.engine.msgs <= Do(F, env, N, pubMac, p, g).engine.msgs
  {
    hide ScalarMul, Many;
    match g
    case MulGate(a, b) => MessagesGrow(F, env, N, p.engine, p.wires[a], p.wires[b]);
    case MulGates(ls, rs) => ManyGrow(F, env, N, p.engine, Pick(p.wires, ls), Pick(p.wires, rs));
    case _ =>
  }

  lemma StartTied<E(!new)>(F: Field<E>, A: Env<E>, V: Env<E>, N: nat, blank: Wire<E>)
    requires Correlated(F, A, V) && 1 <= N
    ensures InStep(F, V.delta, N, A.role.Alice?, [], Party(Start(A, N, blank), []), Party(Start(V, N, blank), []))
  {
    hide Tagged;
  }

  /** Whole circuits: for every circuit and every size of the gate buffer, once the verifier has the
      prover's messages the MAC of every wire is the verifier's key plus Delta times a value, and so
      in every batch that was checked on the way. For a prover that follows the code the value is
      the wire's cleartext and the batches are right; for any other it is what the messages bind. */
  lemma {:induction false} CircuitHolds<E(!new)>(F: Field<E>, A: Env<E>, V: Env<E>, N: nat, blank: Wire<E>, pubMac: E,
                                                 circuit: seq<Step<E>>)
    requires F.Laws() && Correlated(F, A, V) && 1 <= N && Ordered(circuit)
    requires Received(A, V, Execute(F, A, N, blank, pubMac, circuit).engine.msgs)
    ensures InStep(F, V.delta, N, A.role.Alice?, Values(F, circuit), Execute(F, A, N, blank, pubMac, circuit),
                   Execute(F, V, N, blank, pubMac, circuit))
    decreases |circuit|
  {
    hide Correlated, InStep, Do, Clear, Ordered;
    if circuit == [] {
      StartTied(F, A, V, N, blank);
    } else {
      var n := |circuit| - 1;
      OrderedPrefix(circuit, n);
      var a := Execute(F, A, N, blank, pubMac, circuit[..n]);
      var v := Execute(F, V, N, blank, pubMac, circuit[..n]);
      LastRefers(circuit);
      StepGrows(F, A, N, pubMac, a, circuit[n]);
      CircuitHolds(F, A, V, N, blank, pubMac, circuit[..n]);
      GateStepKeeps(F, A, V, N, pubMac, Values(F, circuit[..n]), a, v, circuit[n]);
    }
  }

  lemma LastRefers<E>(circuit: seq<Step<E>>)
    requires Ordered(circuit) && circuit != []
    ensures Refers(circuit[|circuit| - 1], Width(circuit[..|circuit| - 1]))
  {
  }

  // The gates that no check has seen yet: the teardown checks them.
  function Pending<E(!new)>(st: Engine<E>): Batch<E>
    requires st.cnt <= |st.left| && st.cnt <= |st.right| && st.cnt <= |st.out|
  {
    Batch(st.left[..st.cnt], st.right[..st.cnt], st.out[..st.cnt], st.pos)
  }

  lemma BatchPasses<E(!new)>(F: Field<E>, A: Env<E>, V: Env<E>, a: Batch<E>, v: Batch<E>, chi: seq<E>)
    requires A.role.Alice?
    requires F.Laws() && Correlated(F, A, V) && BatchOk(F, V.delta, A.role.Alice?, a, v) && |chi| == |a.left|
    ensures var p := Proof(F, a.left, a.right, a.out, chi, A.vole(a.mask));
            p.0 == Expected(F, V.delta, v.left, v.right, v.out, chi, V.vole(v.mask), p.1)
  {
    hide Tagged, Proof, Expected;
    assert Tagged(F, V.delta, A.vole(a.mask), V.vole(v.mask));
    CheckPasses(F, V.delta, a.left, a.right, a.out, v.left, v.right, v.out, chi, A.vole(a.mask), V.vole(v.mask));
  }

  lemma PendingOk<E(!new)>(F: Field<E>, delta: E, N: nat, h: bool, a: Engine<E>, v: Engine<E>)
    requires Tied(F, delta, N, h, a, v)
    ensures BatchOk(F, delta, h, Pending(a), Pending(v))
  {
    hide Tagged;
  }

  /** Completeness: every check of the run, and the one at teardown, accepts at every chi. */
  lemma CircuitPasses<E(!new)>(F: Field<E>, A: Env<E>, V: Env<E>, N: nat, blank: Wire<E>, pubMac: E,
                               circuit: seq<Step<E>>, chi: seq<E>)
    requires A.role.Alice?
    requires F.Laws() && Correlated(F, A, V) && 1 <= N && Ordered(circuit)
    requires Received(A, V, Execute(F, A, N, blank, pubMac, circuit).engine.msgs)
    ensures var a, v := Execute(F, A, N, blank, pubMac, circuit).engine, Execute(F, V, N, blank, pubMac,
        circuit).engine;
            && |a.checked| == |v.checked|
            && (forall c :: 0 <= c < |a.checked| && |chi| == |a.checked[c].left| ==> Accepts(F, A, V, a.checked[c],
                v.checked[c], chi))
            && (|chi| == a.cnt ==> Accepts(F, A, V, Pending(a), Pending(v), chi))
  {
    CircuitHolds(F, A, V, N, blank, pubMac, circuit);
    hide Execute, Values, AllTagged, Received, Ordered, Correlated;
    var a, v := Execute(F, A, N, blank, pubMac, circuit).engine, Execute(F, V, N, blank, pubMac, circuit).engine;
    forall c | 0 <= c < |a.checked| && |chi| == |a.checked[c].left|
      ensures Accepts(F, A, V, a.checked[c], v.checked[c], chi)
    {
      BatchPasses(F, A, V, a.checked[c], v.checked[c], chi);
    }
    PendingOk(F, V.delta, N, A.role.Alice?, a, v);
    if |chi| == a.cnt { BatchPasses(F, A, V, Pending(a), Pending(v), chi); }
  }

  // The verifier's comparison for one batch.
  ghost predicate Accepts<E(!new)>(F: Field<E>, A: Env<E>, V: Env<E>, a: Batch<E>, v: Batch<E>, chi: seq<E>) {
    && |a.left| == |a.right| == |a.out| == |v.left| == |v.right| == |v.out| == |chi|
    && var p := Proof(F, a.left, a.right, a.out, chi, A.vole(a.mask));
       p.0 == Expected(F, V.delta, v.left, v.right, v.out, chi, V.vole(v.mask), p.1)
  }
}
