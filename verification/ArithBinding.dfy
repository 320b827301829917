/** What an arbitrary prover is bound to. Whatever it sends, its messages determine a value for every
    wire, authenticated under every key; a checked batch with a wrong gate, or a wire opened to
    another value, is then accepted under at most two keys, or one. */
module ArithBinding {
  import opened Algebra
  import opened ArithEngine
  import opened ArithCheck
  import opened ArithCircuits
  import opened ArithLedger

  // The prover's correlations, the gate buffer and everything the prover sends.
  datatype World<!E> = World(vole: nat -> Wire<E>, inbox: nat -> E, N: nat, blank: Wire<E>, pubMac: E)

  function BoundEnv<E(!new)>(F: Field<E>, w: World<E>): Env<E> {
    Env(Bound, F.zero, w.vole, w.inbox)
  }

  // The verifier that holds this key.
  function KeyEnv<E(!new)>(F: Field<E>, w: World<E>, delta: E): Env<E> {
    Env(Bob, delta, (i: nat) => KeyFor(F, delta, w.vole(i)), w.inbox)
  }

  // The values that the messages bind the prover to, and what the verifier makes of them.
  ghost function BoundRun<E(!new)>(F: Field<E>, w: World<E>, circuit: seq<Step<E>>): (r: Party<E>)
    requires 1 <= w.N && Ordered(circuit)
    ensures Sized(w.N, r.engine) && |r.wires| == Width(circuit)
  {
    Execute(F, BoundEnv(F, w), w.N, w.blank, w.pubMac, circuit)
  }

  ghost function KeyRun<E(!new)>(F: Field<E>, w: World<E>, circuit: seq<Step<E>>, delta: E): (r: Party<E>)
    requires 1 <= w.N && Ordered(circuit)
    ensures Sized(w.N, r.engine) && |r.wires| == Width(circuit)
  {
    Execute(F, KeyEnv(F, w, delta), w.N, w.blank, w.pubMac, circuit)
  }

  lemma BoundTied<E(!new)>(F: Field<E>, w: World<E>, circuit: seq<Step<E>>, delta: E)
    requires F.Laws() && 1 <= w.N && Ordered(circuit)
    ensures var b, v := BoundRun(F, w, circuit), KeyRun(F, w, circuit, delta);
            Tied(F, delta, w.N, false, b.engine, v.engine) && AllTagged(F, delta, b.wires, v.wires)
  {
    var A, V := BoundEnv(F, w), KeyEnv(F, w, delta);
    assert Correlated(F, A, V) by {
      forall i: nat ensures Tagged(F, delta, A.vole(i), V.vole(i)) { KeyTags(F, delta, w.vole(i)); }
    }
    CircuitHolds(F, A, V, w.N, w.blank, w.pubMac, circuit);
    hide Execute, Tied, AllTagged;
  }

  lemma SameKey<E(!new)>(F: Field<E>, delta: E, a: Wire<E>, k: Wire<E>)
    requires F.Laws() && Tagged(F, delta, a, k)
    ensures k.mac == KeyFor(F, delta, a).mac
  {
    SubLaws(F, k.mac, F.Mul(a.val, delta));
  }

  // The verifier's comparison of a batch depends on its keys only, and these on the bound values.
  lemma SameExpected<E(!new)>(F: Field<E>, delta: E, a: Batch<E>, v: Batch<E>, chi: seq<E>, mask: Wire<E>, sum1: E)
    requires F.Laws() && BatchOk(F, delta, false, a, v) && |chi| == |a.left|
    ensures Expected(F, delta, v.left, v.right, v.out, chi, KeyFor(F, delta, mask), sum1)
         == Expected(F, delta, KeysFor(F, delta, a.left), KeysFor(F, delta, a.right), KeysFor(F, delta, a.out), chi,
                     KeyFor(F, delta, mask), sum1)
  {
    var kl, kr, ko := KeysFor(F, delta, a.left), KeysFor(F, delta, a.right), KeysFor(F, delta, a.out);
    forall i | 0 <= i < |a.left| ensures Bs(F, delta, v.left, v.right, v.out)[i] == Bs(F, delta, kl, kr, ko)[i] {
      assert Tagged(F, delta, a.left[i], v.left[i]) && Tagged(F, delta, a.right[i], v.right[i]) && Tagged(F, delta,
          a.out[i], v.out[i]);
      assert Tagged(F, delta, a.left[i], kl[i]) && Tagged(F, delta, a.right[i], kr[i]) && Tagged(F, delta, a.out[i],
          ko[i]);
      SameKey(F, delta, a.left[i], v.left[i]);
      SameKey(F, delta, a.left[i], kl[i]);
      SameKey(F, delta, a.right[i], v.right[i]);
      SameKey(F, delta, a.right[i], kr[i]);
      SameKey(F, delta, a.out[i], v.out[i]);
      SameKey(F, delta, a.out[i], ko[i]);
    }
    assert Bs(F, delta, v.left, v.right, v.out) == Bs(F, delta, kl, kr, ko);
  }

  // The verifier that holds this key accepts the two numbers sent for that check.
  ghost predicate KeyAccepts<E(!new)>(F: Field<E>, w: World<E>, circuit: seq<Step<E>>, c: nat, chi: seq<E>, sum0: E,
                                      sum1: E, delta: E)
    requires 1 <= w.N && Ordered(circuit)
  {
    var v := CheckOf(KeyRun(F, w, circuit, delta), c);
    && |v.left| == |v.right| == |v.out| == |chi|
    && sum0 == Expected(F, delta, v.left, v.right, v.out, chi, KeyFor(F, delta, w.vole(v.mask)), sum1)
  }

  lemma AcceptedUnder<E(!new)>(F: Field<E>, w: World<E>, circuit: seq<Step<E>>, c: nat, chi: seq<E>, sum0: E, sum1: E,
                               delta: E)
    requires F.Laws() && 1 <= w.N && Ordered(circuit) && KeyAccepts(F, w, circuit, c, chi, sum0, sum1, delta)
    ensures var b := CheckOf(BoundRun(F, w, circuit), c);
            |b.left| == |b.right| == |b.out| == |chi| && AcceptsUnder(F, delta, b.left, b.right, b.out, chi,
                                                                      w.vole(b.mask), sum0, sum1)
  {
    BoundTied(F, w, circuit, delta);
    hide BoundRun, KeyRun, Expected, AllTagged, Ordered;
    var p, q := BoundRun(F, w, circuit), KeyRun(F, w, circuit, delta);
    PendingOk(F, delta, w.N, false, p.engine, q.engine);
    var b, v := CheckOf(p, c), CheckOf(q, c);
    assert BatchOk(F, delta, false, b, v);
    BatchSizes(F, delta, b, v);
    SameExpected(F, delta, b, v, chi, w.vole(b.mask), sum1);
  }

  lemma BatchSizes<E(!new)>(F: Field<E>, delta: E, a: Batch<E>, v: Batch<E>)
    requires BatchOk(F, delta, false, a, v)
    ensures |a.left| == |a.right| == |a.out| == |v.left| == |v.right| == |v.out| && a.mask == v.mask
  {
  }

  /** Soundness over whole circuits and every prover: if in some check the gates that the messages
      bind are not all right and chi does not hide it, then whatever two numbers the prover sends
      for the check, at most two keys make the verifier accept. */
  lemma FewKeysAccept<E(!new)>(F: Field<E>, w: World<E>, circuit: seq<Step<E>>, c: nat, chi: seq<E>, sum0: E, sum1: E,
                               deltas: set<E>)
    requires F.Laws() && 1 <= w.N && Ordered(circuit)
    requires var b := CheckOf(BoundRun(F, w, circuit), c);
             |b.left| == |b.right| == |b.out| == |chi| && Dot(F, Defects(F, b.left, b.right, b.out), chi) != F.zero
    requires forall d :: d in deltas ==> KeyAccepts(F, w, circuit, c, chi, sum0, sum1, d)
    ensures |deltas| <= 2
  {
    hide BoundRun, KeyAccepts, AcceptsUnder, Defects, Ordered;
    var b := CheckOf(BoundRun(F, w, circuit), c);
    forall d | d in deltas ensures AcceptsUnder(F, d, b.left, b.right, b.out, chi, w.vole(b.mask), sum0, sum1) {
      AcceptedUnder(F, w, circuit, c, chi, sum0, sum1, d);
    }
    FewDeltas(F, b.left, b.right, b.out, chi, w.vole(b.mask), sum0, sum1, deltas);
  }

  // The prover follows the code: it sends what it computes.
  ghost predicate Follows<E(!new)>(F: Field<E>, w: World<E>, circuit: seq<Step<E>>, p: Party<E>)
    requires 1 <= w.N && Ordered(circuit)
  {
    && p == Execute(F, Env(Alice, F.zero, w.vole, w.inbox), w.N, w.blank, w.pubMac, circuit)
    && forall k :: 0 <= k < |p.engine.msgs| ==> w.inbox(k) == p.engine.msgs[k]
  }

  /** Such a prover is accepted in every check, under every key and at every chi. */
  lemma HonestIsAccepted<E(!new)>(F: Field<E>, w: World<E>, circuit: seq<Step<E>>, p: Party<E>, c: nat, chi: seq<E>,
                                  delta: E)
    requires F.Laws() && 1 <= w.N && Ordered(circuit) && Follows(F, w, circuit, p) && Sized(w.N, p.engine)
    requires c <= |p.engine.checked| && |chi| == |CheckOf(p, c).left|
    ensures var b := CheckOf(p, c);
            && |b.left| == |b.right| == |b.out|
            && var s := Proof(F, b.left, b.right, b.out, chi, w.vole(b.mask));
               KeyAccepts(F, w, circuit, c, chi, s.0, s.1, delta)
  {
    var A, V := Env(Alice, F.zero, w.vole, w.inbox), KeyEnv(F, w, delta);
    assert Correlated(F, A, V) by {
      forall i: nat ensures Tagged(F, delta, A.vole(i), V.vole(i)) { KeyTags(F, delta, w.vole(i)); }
    }
    CircuitHolds(F, A, V, w.N, w.blank, w.pubMac, circuit);
    var v := KeyRun(F, w, circuit, delta);
    hide Execute, AllTagged, Ordered, Values, Correlated, Proof, Expected;
    PendingOk(F, delta, w.N, true, p.engine, v.engine);
    BatchPasses(F, A, V, CheckOf(p, c), CheckOf(v, c), chi);
  }

  lemma WrongEntryIsCaught<E(!new)>(F: Field<E>, w: World<E>, circuit: seq<Step<E>>, c: nat, chi: seq<E>, j: nat,
                                    x: E, y: E, sums: ((E, E), (E, E)), under: (set<E>, set<E>))
    requires F.Laws() && 1 <= w.N && Ordered(circuit) && x != y
    requires var b := CheckOf(BoundRun(F, w, circuit), c);
             && |b.left| == |b.right| == |b.out| == |chi| && j < |chi|
             && b.out[j].val != F.Mul(b.left[j].val, b.right[j].val)
    requires forall d :: d in under.0 ==> KeyAccepts(F, w, circuit, c, chi[j := x], sums.0.0, sums.0.1, d)
    requires forall d :: d in under.1 ==> KeyAccepts(F, w, circuit, c, chi[j := y], sums.1.0, sums.1.1, d)
    ensures |under.0| <= 2 || |under.1| <= 2
  {
    var b := CheckOf(BoundRun(F, w, circuit), c);
    var e := Defects(F, b.left, b.right, b.out);
    SubLaws(F, F.Mul(b.left[j].val, b.right[j].val), b.out[j].val);
    assert e[j] != F.zero;
    hide *;
    if Dot(F, e, chi[j := x]) != F.zero {
      FewKeysAccept(F, w, circuit, c, chi[j := x], sums.0.0, sums.0.1, under.0);
    } else if Dot(F, e, chi[j := y]) != F.zero {
      FewKeysAccept(F, w, circuit, c, chi[j := y], sums.1.0, sums.1.1, under.1);
    } else {
      OneCoefficient(F, e, chi, j, x, y);
    }
  }

  /** A wrong product anywhere in the circuit is caught: product g is in check g / N, and there, the
      coefficients of the other gates fixed, at all but at most one value of its own coefficient at
      most two keys accept, whatever numbers are sent. */
  lemma WrongGateIsCaught<E(!new)>(F: Field<E>, w: World<E>, circuit: seq<Step<E>>, g: nat, chi: seq<E>, x: E, y: E,
                                   sums: ((E, E), (E, E)), under: (set<E>, set<E>))
    requires F.Laws() && 1 <= w.N && Ordered(circuit) && g < |MulIds(circuit)| && x != y
    requires var p, id := BoundRun(F, w, circuit), MulIds(circuit)[g];
             p.wires[id.out].val != F.Mul(p.wires[id.left].val, p.wires[id.right].val)
    requires |chi| == |CheckOf(BoundRun(F, w, circuit), CheckNo(w.N, g)).left| && Place(w.N, g) < |chi|
    requires forall d :: d in under.0 ==>
               KeyAccepts(F, w, circuit, CheckNo(w.N, g), chi[Place(w.N, g) := x], sums.0.0, sums.0.1, d)
    requires forall d :: d in under.1 ==>
               KeyAccepts(F, w, circuit, CheckNo(w.N, g), chi[Place(w.N, g) := y], sums.1.0, sums.1.1, d)
    ensures |under.0| <= 2 || |under.1| <= 2
  {
    ProductInCheck(F, BoundEnv(F, w), w.N, w.blank, w.pubMac, circuit, g);
    hide *;
    WrongEntryIsCaught(F, w, circuit, CheckNo(w.N, g), chi, Place(w.N, g), x, y, sums, under);
  }

  /** A wire opened to another value than the bound one passes, whatever MAC is sent, under at most
      one key. */
  lemma OpeningBinds<E(!new)>(F: Field<E>, w: World<E>, circuit: seq<Step<E>>, id: nat, value: E, mac: E, d: E, e: E)
    requires F.Laws() && 1 <= w.N && Ordered(circuit) && id < Width(circuit)
    requires value != BoundRun(F, w, circuit).wires[id].val
    requires F.Add(F.Mul(value, d), KeyRun(F, w, circuit, d).wires[id].mac) == mac
    requires F.Add(F.Mul(value, e), KeyRun(F, w, circuit, e).wires[id].mac) == mac
    ensures d == e
  {
    BoundTied(F, w, circuit, d);
    BoundTied(F, w, circuit, e);
    hide BoundRun, KeyRun, Tied, Ordered;
    var a := BoundRun(F, w, circuit).wires[id];
    var kd, ke := KeyRun(F, w, circuit, d).wires[id], KeyRun(F, w, circuit, e).wires[id];
    assert Tagged(F, d, a, kd) && Tagged(F, e, a, ke);
    TwoKeys(F, value, a.val, a.mac, mac, kd.mac, d);
    TwoKeys(F, value, a.val, a.mac, mac, ke.mac, e);
    var f := F.Sub(value, a.val);
    SubLaws(F, value, a.val);
    Cancel(F, F.Mul(f, d), F.Mul(f, e), a.mac);
    assert At2(f, d) && At2(f, e);
    MulCancel(F, d, e, f);
  }

  // (value - v) * d is what the sent MAC adds to the bound one.
  lemma TwoKeys<E(!new)>(F: Field<E>, value: E, v: E, m: E, mac: E, k: E, d: E)
    requires F.Laws() && m == F.Add(k, F.Mul(v, d)) && F.Add(F.Mul(value, d), k) == mac
    ensures F.Add(F.Mul(F.Sub(value, v), d), m) == mac
  {
    var f := F.Sub(value, v);
    SubLaws(F, value, v);
    assert F.Add(F.Mul(f, d), F.Add(k, F.Mul(v, d))) == F.Add(F.Mul(F.Add(f, v), d), k) by { Ring(F); }
  }
}
