/** What a circuit's run did with its gates and its correlations. The batches of all checks and the
    gates still buffered are, in order, the circuit's multiplications with the wires they took and
    produced; and every correlation of the stream was used by at most one input, product or mask. */
module ArithLedger {
  import opened Algebra
  import opened ArithEngine
  import opened ArithCircuits
  import Primes

  // ---- what the circuit asks for ----

  // The wires of one multiplication.
  datatype Ids = Ids(left: nat, right: nat, out: nat)

  // The multiplications a step makes when n wires exist.
  function StepProducts<E>(g: Step<E>, n: nat): (r: seq<Ids>)
    requires Refers(g, n)
    ensures forall i :: 0 <= i < |r| ==> r[i].left < n && r[i].right < n && n <= r[i].out < n + Adds(g)
  {
    match g
    case MulGate(a, b) => [Ids(a, b, n)]
    case MulGates(ls, rs) => seq(|ls|, i requires 0 <= i < |ls| => Ids(ls[i], rs[i], n + i))
    case _ => []
  }

  // How many wires a step adds.
  function Adds<E>(g: Step<E>): nat { if g.MulGates? then |g.ls| else 1 }

  // The multiplications of a circuit, in order.
  ghost function MulIds<E>(circuit: seq<Step<E>>): (r: seq<Ids>)
    requires Ordered(circuit)
    ensures forall i :: 0 <= i < |r| ==> r[i].left < Width(circuit) && r[i].right < Width(circuit)
                                         && r[i].out < Width(circuit)
  {
    if circuit == [] then []
    else
      var n := |circuit| - 1;
      OrderedPrefix(circuit, n);
      MulIds(circuit[..n]) + StepProducts(circuit[n], Width(circuit[..n]))
  }

  // The wires a step makes from a correlation and a message of its own.
  function StepDrawn<E>(g: Step<E>, n: nat): (r: seq<nat>)
    ensures forall i :: 0 <= i < |r| ==> n <= r[i] < n + Adds(g)
  {
    match g
    case Input(_) => [n]
    case MulGate(_, _) => [n]
    case MulGates(ls, _) => seq(|ls|, i requires 0 <= i < |ls| => n + i)
    case _ => []
  }

  // Inputs and products, in order.
  function Drawn<E>(circuit: seq<Step<E>>): (r: seq<nat>)
    ensures forall i :: 0 <= i < |r| ==> r[i] < Width(circuit)
  {
    if circuit == [] then []
    else
      var n := |circuit| - 1;
      Drawn(circuit[..n]) + StepDrawn(circuit[n], Width(circuit[..n]))
  }

  // ---- what an engine has done ----

  datatype Mul<E> = Mul(left: Wire<E>, right: Wire<E>, out: Wire<E>)

  function Entries<E>(b: Batch<E>): (r: seq<Mul<E>>)
    requires |b.left| == |b.right| == |b.out|
    ensures |r| == |b.left|
  {
    seq(|b.left|, i requires 0 <= i < |b.left| => Mul(b.left[i], b.right[i], b.out[i]))
  }

  ghost predicate Full<E>(N: nat, bs: seq<Batch<E>>) {
    forall c :: 0 <= c < |bs| ==> |bs[c].left| == |bs[c].right| == |bs[c].out| == N
  }

  ghost function AllEntries<E>(N: nat, bs: seq<Batch<E>>): (r: seq<Mul<E>>)
    requires Full(N, bs)
    ensures |r| == N * |bs|
  {
    if bs == [] then []
    else
      var n := |bs| - 1;
      assert N * |bs| == N * n + N;
      AllEntries(N, bs[..n]) + Entries(bs[n])
  }

  // Every multiplication that is in a check, or will be in the next.
  ghost function Recorded<E(!new)>(N: nat, st: Engine<E>): seq<Mul<E>>
    requires Sized(N, st) && Full(N, st.checked)
  {
    AllEntries(N, st.checked) + Entries(Pending(st))
  }

  function Masks<E>(bs: seq<Batch<E>>): (r: seq<nat>)
    ensures |r| == |bs|
  {
    seq(|bs|, c requires 0 <= c < |bs| => bs[c].mask)
  }

  // The wire is made from the correlation by the message: sent by the prover, used by the verifier.
  ghost predicate MadeFrom<E(!new)>(F: Field<E>, env: Env<E>, drawn: Wire<E>, msg: E, w: Wire<E>) {
    match env.role
    case Alice => w.mac == drawn.mac && msg == F.Sub(drawn.val, w.val)
    case Bob => w == Wire(F.zero, F.Add(drawn.mac, F.Mul(msg, env.delta)))
    case Bound => w == Wire(F.Sub(drawn.val, msg), drawn.mac)
  }

  // Stream positions: of the wires made so far, and of the buffered correlations not used yet.
  datatype Ledger = Ledger(used: seq<nat>, spare: seq<nat>)

  function UpTo(n: nat): (r: seq<nat>)
    ensures |r| == n
  {
    seq(n, i requires 0 <= i < n => i)
  }

  // Each position below pos has exactly one use: 0 none, the others a wire, a mask, or a spare.
  ghost predicate OneUseEach<E>(st: Engine<E>, l: Ledger) {
    multiset([0] + l.used + Masks(st.checked) + l.spare) == multiset(UpTo(st.pos))
  }

  ghost predicate Fits<E>(N: nat, st: Engine<E>, made: seq<Wire<E>>, l: Ledger) {
    && Sized(N, st) && Full(N, st.checked)
    && |made| == |st.msgs| == |l.used| && |l.spare| == N - st.cnt
  }

  // Wire k was made by message k, from its own correlation.
  ghost predicate Makes<E(!new)>(F: Field<E>, env: Env<E>, msgs: seq<E>, made: seq<Wire<E>>, used: seq<nat>) {
    && |made| == |msgs| == |used|
    && forall k :: 0 <= k < |made| ==> MadeFrom(F, env, env.vole(used[k]), msgs[k], made[k])
  }

  // What the buffer still holds.
  ghost predicate Spares<E(!new)>(env: Env<E>, out: seq<Wire<E>>, cnt: nat, spare: seq<nat>) {
    && |out| == cnt + |spare|
    && forall j :: 0 <= j < |spare| ==> out[cnt + j] == env.vole(spare[j])
  }

  ghost predicate Accounted<E(!new)>(F: Field<E>, env: Env<E>, N: nat, st: Engine<E>, muls: seq<Mul<E>>,
                                     made: seq<Wire<E>>, l: Ledger) {
    && Fits(N, st, made, l) && Recorded(N, st) == muls
    && Makes(F, env, st.msgs, made, l.used) && Spares(env, st.out, st.cnt, l.spare) && OneUseEach(st, l)
  }

  // ---- one engine step ----

  function FirstSpare(N: nat): Ledger { Ledger([], seq(N, i requires 0 <= i < N => 1 + i)) }

  // The ledger after a check and refill, if one is due at pos, and the next position.
  function Refilled(N: nat, l: Ledger, pos: nat): (Ledger, nat) {
    if l.spare == [] then (Ledger(l.used, seq(N, i requires 0 <= i < N => pos + 1 + i)), pos + 1 + N) else (l, pos)
  }

  // After n multiplications.
  function Multiplied(N: nat, l: Ledger, pos: nat, n: nat): (r: (Ledger, nat))
    requires 1 <= N
  {
    if n == 0 then (l, pos)
    else
      var q := Multiplied(N, l, pos, n - 1);
      var r := Refilled(N, q.0, q.1);
      (Ledger(r.0.used + [r.0.spare[0]], r.0.spare[1..]), r.1)
  }

  function StepLedger<E>(N: nat, l: Ledger, pos: nat, g: Step<E>): (Ledger, nat)
    requires 1 <= N
  {
    match g
    case Input(_) => (Ledger(l.used + [pos], l.spare), pos + 1)
    case MulGate(_, _) => Multiplied(N, l, pos, 1)
    case MulGates(ls, _) => Multiplied(N, l, pos, |ls|)
    case _ => (l, pos)
  }

  // The ledger of a circuit: it depends on neither party's correlations or messages.
  function LedgerOf<E>(N: nat, circuit: seq<Step<E>>): (Ledger, nat)
    requires 1 <= N
  {
    if circuit == [] then (FirstSpare(N), 1 + N)
    else
      var n := |circuit| - 1;
      var q := LedgerOf(N, circuit[..n]);
      StepLedger(N, q.0, q.1, circuit[n])
  }

  lemma StartAccounted<E(!new)>(F: Field<E>, env: Env<E>, N: nat, blank: Wire<E>)
    requires 1 <= N
    ensures Accounted(F, env, N, Start(env, N, blank), [], [], FirstSpare(N))
  {
    var st, l := Start(env, N, blank), FirstSpare(N);
    assert Fits(N, st, [], l) && Spares(env, st.out, st.cnt, l.spare) && Recorded(N, st) == [];
    StartUses(N, st);
    hide *;
    NoneMade(F, env);
    assert Accounted(F, env, N, st, [], [], l) by { Account(F, env, N, st, [], [], l); }
  }

  lemma NoneMade<E(!new)>(F: Field<E>, env: Env<E>)
    ensures Makes(F, env, [], [], [])
  {
  }

  lemma Account<E(!new)>(F: Field<E>, env: Env<E>, N: nat, st: Engine<E>, muls: seq<Mul<E>>, made: seq<Wire<E>>,
                         l: Ledger)
    requires Fits(N, st, made, l) && Recorded(N, st) == muls && Makes(F, env, st.msgs, made, l.used)
    requires Spares(env, st.out, st.cnt, l.spare) && OneUseEach(st, l)
    ensures Accounted(F, env, N, st, muls, made, l)
  {
    hide Recorded, Makes, Spares, OneUseEach, Fits;
  }

  lemma StartUses<E>(N: nat, st: Engine<E>)
    requires st.checked == [] && st.pos == 1 + N
    ensures OneUseEach(st, FirstSpare(N))
  {
    var l := FirstSpare(N);
    assert Masks(st.checked) == [];
    assert [0] + l.used + Masks(st.checked) + l.spare == UpTo(1 + N);
  }

  lemma RangeNext(pos: nat, n: nat)
    ensures UpTo(pos) + seq(n, i requires 0 <= i < n => pos + i) == UpTo(pos + n)
  {
  }

  // A check takes the next position for its mask, and N fresh ones refill the buffer.
  lemma RefillAccounted<E(!new)>(F: Field<E>, env: Env<E>, N: nat, st: Engine<E>, muls: seq<Mul<E>>,
                                 made: seq<Wire<E>>, l: Ledger) returns (l': Ledger)
    requires Accounted(F, env, N, st, muls, made, l)
    ensures Accounted(F, env, N, Refill(env, N, st), muls, made, l')
    ensures (l', Refill(env, N, st).pos) == Refilled(N, l, st.pos)
  {
    l' := l;
    if st.cnt == N {
      l' := Ledger(l.used, seq(N, i requires 0 <= i < N => st.pos + 1 + i));
      RefillFits(F, env, N, st, made, l, l');
      RefillRecorded(env, N, st);
      RefillUses(env, N, st, l, l');
      hide *;
      Account(F, env, N, Refill(env, N, st), muls, made, l');
    }
  }

  lemma RefillFits<E(!new)>(F: Field<E>, env: Env<E>, N: nat, st: Engine<E>, made: seq<Wire<E>>, l: Ledger, l': Ledger)
    requires Fits(N, st, made, l) && Makes(F, env, st.msgs, made, l.used) && st.cnt == N
    requires l' == Ledger(l.used, seq(N, i requires 0 <= i < N => st.pos + 1 + i))
    ensures var r := Refill(env, N, st);
            && Fits(N, r, made, l') && Makes(F, env, r.msgs, made, l'.used)
            && Spares(env, r.out, r.cnt, l'.spare)
  {
    hide Makes;
  }

  lemma RefillRecorded<E(!new)>(env: Env<E>, N: nat, st: Engine<E>)
    requires Sized(N, st) && Full(N, st.checked) && st.cnt == N
    ensures Full(N, Refill(env, N, st).checked) && Recorded(N, Refill(env, N, st)) == Recorded(N, st)
  {
    var r := Refill(env, N, st);
    assert r.checked[..|st.checked|] == st.checked;
    assert Entries(Pending(r)) == [];
    assert Pending(st).left == st.left && Pending(st).right == st.right && Pending(st).out == st.out;
    assert Entries(r.checked[|st.checked|]) == Entries(Pending(st));
  }

  lemma RefillUses<E(!new)>(env: Env<E>, N: nat, st: Engine<E>, l: Ledger, l': Ledger)
    requires Sized(N, st) && st.cnt == N && l.spare == [] && OneUseEach(st, l)
    requires l' == Ledger(l.used, seq(N, i requires 0 <= i < N => st.pos + 1 + i))
    ensures OneUseEach(Refill(env, N, st), l')
  {
    var r := Refill(env, N, st);
    RangeNext(st.pos, 1);
    RangeNext(st.pos + 1, N);
    assert Masks(r.checked) == Masks(st.checked) + [st.pos];
    assert UpTo(r.pos) == UpTo(st.pos) + seq(1, i requires 0 <= i < 1 => st.pos + i) + l'.spare;
    assert seq(1, i requires 0 <= i < 1 => st.pos + i) == [st.pos];
    assert [0] + l.used + Masks(st.checked) + l.spare == [0] + l.used + Masks(st.checked);
    assert [0] + l'.used + Masks(r.checked) + l'.spare == ([0] + l.used + Masks(st.checked)) + [st.pos] + l'.spare;
  }

  lemma GateAccounted<E(!new)>(F: Field<E>, env: Env<E>, N: nat, st: Engine<E>, a: Wire<E>, b: Wire<E>,
                               muls: seq<Mul<E>>, made: seq<Wire<E>>, l: Ledger) returns (l': Ledger)
    requires F.Laws() && Accounted(F, env, N, st, muls, made, l) && st.cnt < N
    ensures var r := Gate(F, env, st, a, b);
            Accounted(F, env, N, r.0, muls + [Mul(a, b, r.1)], made + [r.1], l') && r.0.pos == st.pos
    ensures l.spare != [] && l' == Ledger(l.used + [l.spare[0]], l.spare[1..])
  {
    l' := Ledger(l.used + [l.spare[0]], l.spare[1..]);
    var r := Gate(F, env, st, a, b);
    hide *;
    GateRecorded(F, env, N, st, a, b);
    GateFits(F, env, N, st, a, b, made, l, l');
    GateUses(st, r.0, l, l');
    Account(F, env, N, r.0, muls + [Mul(a, b, r.1)], made + [r.1], l');
  }

  lemma GateFits<E(!new)>(F: Field<E>, env: Env<E>, N: nat, st: Engine<E>, a: Wire<E>, b: Wire<E>, made: seq<Wire<E>>,
                          l: Ledger, l': Ledger)
    requires Fits(N, st, made, l) && st.cnt < N
    requires Makes(F, env, st.msgs, made, l.used) && Spares(env, st.out, st.cnt, l.spare)
    requires l' == Ledger(l.used + [l.spare[0]], l.spare[1..])
    ensures var r := Gate(F, env, st, a, b);
            && Fits(N, r.0, made + [r.1], l') && Makes(F, env, r.0.msgs, made + [r.1], l'.used)
            && Spares(env, r.0.out, r.0.cnt, l'.spare)
            && r.0.checked == st.checked && r.0.pos == st.pos
  {
    var r := Gate(F, env, st, a, b);
    assert st.out[st.cnt + 0] == env.vole(l.spare[0]);
    GateMade(F, env, st, a, b, env.vole(l.spare[0]));
    hide Gate, Full, MadeFrom;
  }

  lemma GateUses<E>(st: Engine<E>, st': Engine<E>, l: Ledger, l': Ledger)
    requires OneUseEach(st, l) && l.spare != [] && st'.checked == st.checked && st'.pos == st.pos
    requires l' == Ledger(l.used + [l.spare[0]], l.spare[1..])
    ensures OneUseEach(st', l')
  {
    var x, m := l.spare[0], Masks(st.checked);
    assert l.spare == [x] + l'.spare;
    assert [0] + l.used + m + l.spare == [0] + l.used + m + [x] + l'.spare;
    assert [0] + l'.used + m + l'.spare == [0] + l.used + [x] + m + l'.spare;
  }

  lemma InputUses<E>(st: Engine<E>, st': Engine<E>, l: Ledger)
    requires OneUseEach(st, l) && st'.checked == st.checked && st'.pos == st.pos + 1
    ensures OneUseEach(st', Ledger(l.used + [st.pos], l.spare))
  {
    var m := Masks(st.checked);
    RangeNext(st.pos, 1);
    assert seq(1, i requires 0 <= i < 1 => st.pos + i) == [st.pos];
    assert [0] + (l.used + [st.pos]) + m + l.spare == [0] + l.used + [st.pos] + m + l.spare;
  }

  lemma GateRecorded<E(!new)>(F: Field<E>, env: Env<E>, N: nat, st: Engine<E>, a: Wire<E>, b: Wire<E>)
    requires Sized(N, st) && Full(N, st.checked) && st.cnt < N
    ensures var r := Gate(F, env, st, a, b);
            Sized(N, r.0) && r.0.checked == st.checked && Recorded(N, r.0) == Recorded(N, st) + [Mul(a, b, r.1)]
  {
    var r := Gate(F, env, st, a, b);
    assert Entries(Pending(r.0)) == Entries(Pending(st)) + [Mul(a, b, r.1)];
  }

  lemma GateMade<E(!new)>(F: Field<E>, env: Env<E>, st: Engine<E>, a: Wire<E>, b: Wire<E>, drawn: Wire<E>)
    requires st.cnt < |st.out| == |st.left| == |st.right| && st.out[st.cnt] == drawn
    ensures var r := Gate(F, env, st, a, b);
            && |r.0.msgs| == |st.msgs| + 1 && r.0.msgs == st.msgs + [r.0.msgs[|st.msgs|]]
            && r.0.cnt == st.cnt + 1 && r.0.pos == st.pos
            && (forall j :: st.cnt < j < |st.out| ==> r.0.out[j] == st.out[j])
            && MadeFrom(F, env, drawn, r.0.msgs[|st.msgs|], r.1)
  {
  }

  lemma ScalarAccounted<E(!new)>(F: Field<E>, env: Env<E>, N: nat, st: Engine<E>, a: Wire<E>, b: Wire<E>,
                                 muls: seq<Mul<E>>, made: seq<Wire<E>>, l: Ledger) returns (l': Ledger)
    requires F.Laws() && Accounted(F, env, N, st, muls, made, l)
    ensures var r := ScalarMul(F, env, N, st, a, b);
            Accounted(F, env, N, r.0, muls + [Mul(a, b, r.1)], made + [r.1], l')
            && 1 <= N && (l', r.0.pos) == Multiplied(N, l, st.pos, 1)
  {
    l' := RefillAccounted(F, env, N, st, muls, made, l);
    hide Accounted, Refill, Gate;
    l' := GateAccounted(F, env, N, Refill(env, N, st), a, b, muls, made, l');
  }

  function Zip<E>(xs: seq<Wire<E>>, ys: seq<Wire<E>>, zs: seq<Wire<E>>): (r: seq<Mul<E>>)
    requires |xs| == |ys| == |zs|
    ensures |r| == |xs|
  {
    seq(|xs|, i requires 0 <= i < |xs| => Mul(xs[i], ys[i], zs[i]))
  }

  lemma {:induction false} ManyAccounted<E(!new)>(F: Field<E>, env: Env<E>, N: nat, st: Engine<E>, xs: seq<Wire<E>>,
                                                  ys: seq<Wire<E>>, muls: seq<Mul<E>>, made: seq<Wire<E>>, l: Ledger)
    returns (l': Ledger)
    requires F.Laws() && Accounted(F, env, N, st, muls, made, l) && |xs| == |ys|
    ensures var r := Many(F, env, N, st, xs, ys);
            Accounted(F, env, N, r.0, muls + Zip(xs, ys, r.1), made + r.1, l')
            && 1 <= N && (l', r.0.pos) == Multiplied(N, l, st.pos, |xs|)
    decreases |xs|
  {
    hide *;
    NoneAccounted(F, env, N, st, muls, made, l);
    if xs == [] {
      l' := l;
    } else {
      var n := |xs| - 1;
      l' := ManyAccounted(F, env, N, st, xs[..n], ys[..n], muls, made, l);
      l' := LastAccounted(F, env, N, st, xs, ys, muls, made, l');
      OneMore(N, l, st.pos, n);
    }
  }

  lemma NoneAccounted<E(!new)>(F: Field<E>, env: Env<E>, N: nat, st: Engine<E>, muls: seq<Mul<E>>,
                               made: seq<Wire<E>>, l: Ledger)
    requires Accounted(F, env, N, st, muls, made, l)
    ensures Sized(N, st) && 1 <= N && Many(F, env, N, st, [], []) == (st, [])
    ensures muls + Zip([], [], []) == muls && made + [] == made && Multiplied(N, l, st.pos, 0) == (l, st.pos)
  {
    assert Zip<E>([], [], []) == [];
    assert muls + [] == muls && made + [] == made;
  }

  // The last of several multiplications.
  lemma LastAccounted<E(!new)>(F: Field<E>, env: Env<E>, N: nat, st: Engine<E>, xs: seq<Wire<E>>, ys: seq<Wire<E>>,
                               muls: seq<Mul<E>>, made: seq<Wire<E>>, l: Ledger) returns (l': Ledger)
    requires F.Laws() && Sized(N, st) && |xs| == |ys| && xs != []
    requires var n := |xs| - 1;
             var q := Many(F, env, N, st, xs[..n], ys[..n]);
             Accounted(F, env, N, q.0, muls + Zip(xs[..n], ys[..n], q.1), made + q.1, l)
    ensures var n, r := |xs| - 1, Many(F, env, N, st, xs, ys);
            Accounted(F, env, N, r.0, muls + Zip(xs, ys, r.1), made + r.1, l')
            && 1 <= N && (l', r.0.pos) == Multiplied(N, l, Many(F, env, N, st, xs[..n], ys[..n]).0.pos, 1)
  {
    hide *;
    var n := |xs| - 1;
    var q := Many(F, env, N, st, xs[..n], ys[..n]);
    l' := ScalarAccounted(F, env, N, q.0, xs[n], ys[n], muls + Zip(xs[..n], ys[..n], q.1), made + q.1, l);
    ZipSnoc(F, env, N, st, xs, ys, muls, made);
  }

  lemma OneMore(N: nat, l: Ledger, pos: nat, n: nat)
    requires 1 <= N
    ensures var q := Multiplied(N, l, pos, n); Multiplied(N, q.0, q.1, 1) == Multiplied(N, l, pos, n + 1)
    ensures Multiplied(N, l, pos, 0) == (l, pos)
  {
  }

  lemma ZipSnoc<E(!new)>(F: Field<E>, env: Env<E>, N: nat, st: Engine<E>, xs: seq<Wire<E>>, ys: seq<Wire<E>>,
                         muls: seq<Mul<E>>, made: seq<Wire<E>>)
    requires Sized(N, st) && |xs| == |ys| && xs != []
    ensures var n, r := |xs| - 1, Many(F, env, N, st, xs, ys);
            var q := Many(F, env, N, st, xs[..n], ys[..n]);
            var s := ScalarMul(F, env, N, q.0, xs[n], ys[n]);
            && r.0 == s.0 && made + r.1 == made + q.1 + [s.1]
            && muls + Zip(xs, ys, r.1) == muls + Zip(xs[..n], ys[..n], q.1) + [Mul(xs[n], ys[n], s.1)]
  {
    hide ScalarMul;
  }

  lemma InputAccounted<E(!new)>(F: Field<E>, env: Env<E>, N: nat, st: Engine<E>, w: E, muls: seq<Mul<E>>,
                                made: seq<Wire<E>>, l: Ledger)
    requires F.Laws() && Accounted(F, env, N, st, muls, made, l)
    ensures var r := InputGate(F, env, st, w);
            Accounted(F, env, N, r.0, muls, made + [r.1], Ledger(l.used + [st.pos], l.spare)) && r.0.pos == st.pos + 1
  {
    var r := InputGate(F, env, st, w);
    var l' := Ledger(l.used + [st.pos], l.spare);
    InputMade(F, env, st, w);
    SameRecorded(N, st, r.0);
    hide *;
    InputFits(F, env, N, st, r.0, r.1, made, l);
    InputUses(st, r.0, l);
    Account(F, env, N, r.0, muls, made + [r.1], l');
  }

  lemma InputFits<E(!new)>(F: Field<E>, env: Env<E>, N: nat, st: Engine<E>, st': Engine<E>, w: Wire<E>,
                           made: seq<Wire<E>>, l: Ledger)
    requires Fits(N, st, made, l) && Makes(F, env, st.msgs, made, l.used) && Spares(env, st.out, st.cnt, l.spare)
    requires |st'.msgs| == |st.msgs| + 1 && st'.msgs == st.msgs + [st'.msgs[|st.msgs|]]
    requires st'.cnt == st.cnt && st'.checked == st.checked
    requires st'.left == st.left && st'.right == st.right && st'.out == st.out
    requires MadeFrom(F, env, env.vole(st.pos), st'.msgs[|st.msgs|], w)
    ensures var l' := Ledger(l.used + [st.pos], l.spare);
            && Fits(N, st', made + [w], l') && Makes(F, env, st'.msgs, made + [w], l'.used)
            && Spares(env, st'.out, st'.cnt, l'.spare)
  {
    hide MadeFrom, Full;
  }

  lemma InputMade<E(!new)>(F: Field<E>, env: Env<E>, st: Engine<E>, w: E)
    requires F.Laws()
    ensures var r := InputGate(F, env, st, w);
            && |r.0.msgs| == |st.msgs| + 1 && r.0.msgs == st.msgs + [r.0.msgs[|st.msgs|]] && r.0.pos == st.pos + 1
            && r.0.cnt == st.cnt && r.0.left == st.left && r.0.right == st.right && r.0.out == st.out
            && r.0.checked == st.checked && MadeFrom(F, env, env.vole(st.pos), r.0.msgs[|st.msgs|], r.1)
  {
  }

  lemma SameRecorded<E(!new)>(N: nat, st: Engine<E>, st': Engine<E>)
    requires Sized(N, st) && Full(N, st.checked) && st'.cnt == st.cnt && st'.checked == st.checked
    requires st'.left == st.left && st'.right == st.right && st'.out == st.out
    ensures Sized(N, st') && Recorded(N, st') == Recorded(N, st)
  {
    assert Entries(Pending(st')) == Entries(Pending(st));
  }

  // ---- whole circuits ----

  function MulsAt<E(!new)>(wires: seq<Wire<E>>, ids: seq<Ids>): (r: seq<Mul<E>>)
    requires forall i :: 0 <= i < |ids| ==> ids[i].left < |wires| && ids[i].right < |wires| && ids[i].out < |wires|
    ensures |r| == |ids|
  {
    seq(|ids|, i requires 0 <= i < |ids| => Mul(wires[ids[i].left], wires[ids[i].right], wires[ids[i].out]))
  }

  lemma MulsAppend<E(!new)>(wires: seq<Wire<E>>, more: seq<Wire<E>>, s: seq<Ids>, t: seq<Ids>)
    requires forall i :: 0 <= i < |s| ==> s[i].left < |wires| && s[i].right < |wires| && s[i].out < |wires|
    requires forall i :: 0 <= i < |t| ==>
               t[i].left < |wires + more| && t[i].right < |wires + more| && t[i].out < |wires + more|
    ensures forall i :: 0 <= i < |s + t| ==> (s + t)[i].left < |wires + more| && (s + t)[i].right < |wires + more|
                                             && (s + t)[i].out < |wires + more|
    ensures MulsAt(wires + more, s + t) == MulsAt(wires, s) + MulsAt(wires + more, t)
  {
    forall i | 0 <= i < |s + t|
      ensures (s + t)[i].left < |wires + more| && (s + t)[i].right < |wires + more| && (s + t)[i].out < |wires + more|
      ensures i < |s| ==> (wires + more)[s[i].left] == wires[s[i].left] && (wires + more)[s[i].right]
                            == wires[s[i].right] && (wires + more)[s[i].out] == wires[s[i].out]
    {
      assert (s + t)[i] == if i < |s| then s[i] else t[i - |s|];
    }
  }

  lemma PickAppend<E(!new)>(wires: seq<Wire<E>>, more: seq<Wire<E>>, s: seq<nat>, t: seq<nat>)
    requires forall i :: 0 <= i < |s| ==> s[i] < |wires|
    requires forall i :: 0 <= i < |t| ==> t[i] < |wires + more|
    ensures forall i :: 0 <= i < |s + t| ==> (s + t)[i] < |wires + more|
    ensures Pick(wires + more, s + t) == Pick(wires, s) + Pick(wires + more, t)
  {
  }

  lemma StepAccounted<E(!new)>(F: Field<E>, env: Env<E>, N: nat, pubMac: E, p: Party<E>, g: Step<E>,
                               muls: seq<Mul<E>>, made: seq<Wire<E>>, l: Ledger) returns (l': Ledger)
    requires F.Laws() && Sized(N, p.engine) && Accounted(F, env, N, p.engine, muls, made, l) && Refers(g, |p.wires|)
    ensures var q, n := Do(F, env, N, pubMac, p, g), |p.wires|;
            && |q.wires| == n + Adds(g) && q.wires[..n] == p.wires
            && Accounted(F, env, N, q.engine, muls + MulsAt(q.wires, StepProducts(g, n)),
                         made + Pick(q.wires, StepDrawn(g, n)), l')
            && 1 <= N && (l', q.engine.pos) == StepLedger(N, l, p.engine.pos, g)
  {
    StepLedgerIs(N, l, p.engine.pos, g);
    hide *;
    match g
    case Input(w) =>
      InputWires(F, env, N, pubMac, p, w, muls);
      InputAccounted(F, env, N, p.engine, w, muls, made, l);
      l' := Ledger(l.used + [p.engine.pos], l.spare);
    case MulGate(a, b) =>
      GateWires(F, env, N, pubMac, p, a, b);
      l' := ScalarAccounted(F, env, N, p.engine, p.wires[a], p.wires[b], muls, made, l);
    case MulGates(ls, rs) =>
      ManyWires(F, env, N, pubMac, p, ls, rs);
      l' := ManyAccounted(F, env, N, p.engine, Pick(p.wires, ls), Pick(p.wires, rs), muls, made, l);
    case _ =>
      LocalWires(F, env, N, pubMac, p, g, muls, made);
      l' := l;
  }

  lemma StepLedgerIs<E>(N: nat, l: Ledger, pos: nat, g: Step<E>)
    requires 1 <= N
    ensures g.Input? ==> StepLedger(N, l, pos, g) == (Ledger(l.used + [pos], l.spare), pos + 1)
    ensures g.MulGate? ==> StepLedger(N, l, pos, g) == Multiplied(N, l, pos, 1)
    ensures g.MulGates? ==> StepLedger(N, l, pos, g) == Multiplied(N, l, pos, |g.ls|)
    ensures !g.Input? && !g.MulGate? && !g.MulGates? ==> StepLedger(N, l, pos, g) == (l, pos)
  {
  }

  lemma InputWires<E(!new)>(F: Field<E>, env: Env<E>, N: nat, pubMac: E, p: Party<E>, w: E, muls: seq<Mul<E>>)
    requires Sized(N, p.engine)
    ensures var g, n, r := Step.Input(w), |p.wires|, InputGate(F, env, p.engine, w);
            var q := Do(F, env, N, pubMac, p, g);
            && Refers(g, n) && q == Party(r.0, p.wires + [r.1]) && |q.wires| == n + Adds(g) && q.wires[..n] == p.wires
            && muls + MulsAt(q.wires, StepProducts(g, n)) == muls && Pick(q.wires, StepDrawn(g, n)) == [r.1]
  {
    hide InputGate, Sized;
  }

  lemma GateWires<E(!new)>(F: Field<E>, env: Env<E>, N: nat, pubMac: E, p: Party<E>, a: nat, b: nat)
    requires Sized(N, p.engine) && a < |p.wires| && b < |p.wires|
    ensures var g, n, r := Step.MulGate(a, b), |p.wires|, ScalarMul(F, env, N, p.engine, p.wires[a], p.wires[b]);
            var q := Do(F, env, N, pubMac, p, g);
            && Refers(g, n) && q == Party(r.0, p.wires + [r.1]) && |q.wires| == n + Adds(g) && q.wires[..n] == p.wires
            && MulsAt(q.wires, StepProducts(g, n)) == [Mul(p.wires[a], p.wires[b], r.1)]
            && Pick(q.wires, StepDrawn(g, n)) == [r.1]
  {
    hide ScalarMul, Sized;
  }

  lemma ManyWires<E(!new)>(F: Field<E>, env: Env<E>, N: nat, pubMac: E, p: Party<E>, ls: seq<nat>, rs: seq<nat>)
    requires Sized(N, p.engine) && Refers(Step<E>.MulGates(ls, rs), |p.wires|)
    ensures var g, n, xs, ys := Step<E>.MulGates(ls, rs), |p.wires|, Pick(p.wires, ls), Pick(p.wires, rs);
            var q, r := Do(F, env, N, pubMac, p, g), Many(F, env, N, p.engine, xs, ys);
            && q == Party(r.0, p.wires + r.1) && |q.wires| == n + Adds(g) && q.wires[..n] == p.wires
            && MulsAt(q.wires, StepProducts(g, n)) == Zip(xs, ys, r.1) && Pick(q.wires, StepDrawn(g, n)) == r.1
  {
    hide Many, Sized;
  }

  lemma LocalWires<E(!new)>(F: Field<E>, env: Env<E>, N: nat, pubMac: E, p: Party<E>, g: Step<E>, muls: seq<Mul<E>>,
                            made: seq<Wire<E>>)
    requires Sized(N, p.engine) && Refers(g, |p.wires|) && !g.Input? && !g.MulGate? && !g.MulGates?
    ensures var q, n := Do(F, env, N, pubMac, p, g), |p.wires|;
            && q.engine == p.engine && |q.wires| == n + Adds(g) && q.wires[..n] == p.wires
            && muls + MulsAt(q.wires, StepProducts(g, n)) == muls && made + Pick(q.wires, StepDrawn(g, n)) == made
  {
    hide LocalWire, Sized;
  }

  // The wires of a run that come from the stream, and its multiplications.
  ghost predicate RunAccounted<E(!new)>(F: Field<E>, env: Env<E>, N: nat, circuit: seq<Step<E>>, p: Party<E>, l: Ledger)
    requires Ordered(circuit) && |p.wires| == Width(circuit)
  {
    Accounted(F, env, N, p.engine, MulsAt(p.wires, MulIds(circuit)), Pick(p.wires, Drawn(circuit)), l)
  }

  lemma {:induction false} CircuitAccounted<E(!new)>(F: Field<E>, env: Env<E>, N: nat, blank: Wire<E>, pubMac: E,
                                                     circuit: seq<Step<E>>) returns (l: Ledger)
    requires F.Laws() && 1 <= N && Ordered(circuit)
    ensures RunAccounted(F, env, N, circuit, Execute(F, env, N, blank, pubMac, circuit), l)
    ensures (l, Execute(F, env, N, blank, pubMac, circuit).engine.pos) == LedgerOf(N, circuit)
    decreases |circuit|
  {
    hide Accounted, Do, StepProducts, StepDrawn, Refers, StepLedger, Multiplied;
    var p := Execute(F, env, N, blank, pubMac, circuit);
    if circuit == [] {
      StartAccounted(F, env, N, blank);
      l := FirstSpare(N);
      assert MulsAt(p.wires, MulIds(circuit)) == [] && Pick(p.wires, Drawn(circuit)) == [];
    } else {
      var n := |circuit| - 1;
      var c, g := circuit[..n], circuit[n];
      OrderedPrefix(circuit, n);
      LastRefers(circuit);
      var was := Execute(F, env, N, blank, pubMac, c);
      l := CircuitAccounted(F, env, N, blank, pubMac, c);
      l := StepAccounted(F, env, N, pubMac, was, g, MulsAt(was.wires, MulIds(c)), Pick(was.wires, Drawn(c)), l);
      var more := p.wires[|was.wires|..];
      assert p.wires == was.wires + more;
      MulsAppend(was.wires, more, MulIds(c), StepProducts(g, |was.wires|));
      PickAppend(was.wires, more, Drawn(c), StepDrawn(g, |was.wires|));
    }
  }

  /** After every circuit, the batches of all checks and what is buffered for the next are, in order,
      the circuit's multiplications with the wires they took and produced. */
  lemma EveryProductRecorded<E(!new)>(F: Field<E>, env: Env<E>, N: nat, blank: Wire<E>, pubMac: E,
                                      circuit: seq<Step<E>>)
    requires F.Laws() && 1 <= N && Ordered(circuit)
    ensures var p := Execute(F, env, N, blank, pubMac, circuit);
            Full(N, p.engine.checked) && Recorded(N, p.engine) == MulsAt(p.wires, MulIds(circuit))
  {
    var l := CircuitAccounted(F, env, N, blank, pubMac, circuit);
    hide Recorded, MulsAt;
  }

  /** After every circuit, every correlation drawn from the stream has one use: position 0 none, and
      the others each made an input or product, each masked a check, or is still buffered. The wires
      are those the correlations and messages make, in order; the next check's mask is a new one. */
  lemma EveryCorrelationOnce<E(!new)>(F: Field<E>, env: Env<E>, N: nat, blank: Wire<E>, pubMac: E,
                                      circuit: seq<Step<E>>) returns (l: Ledger)
    requires F.Laws() && 1 <= N && Ordered(circuit)
    ensures var p := Execute(F, env, N, blank, pubMac, circuit);
            && OneUseEach(p.engine, l) && Pending(p.engine).mask == p.engine.pos
            && l == LedgerOf(N, circuit).0
            && Makes(F, env, p.engine.msgs, Pick(p.wires, Drawn(circuit)), l.used)
            && Spares(env, p.engine.out, p.engine.cnt, l.spare)
  {
    l := CircuitAccounted(F, env, N, blank, pubMac, circuit);
    hide Recorded, Makes, Spares, OneUseEach, MulsAt;
  }

  /** So no two uses share a position. */
  lemma UsesDiffer<E>(st: Engine<E>, l: Ledger, i: nat, j: nat)
    requires OneUseEach(st, l)
    requires var all := [0] + l.used + Masks(st.checked) + l.spare; i < j < |all|
    ensures var all := [0] + l.used + Masks(st.checked) + l.spare; all[i] != all[j] && all[i] < st.pos
  {
    var all := [0] + l.used + Masks(st.checked) + l.spare;
    OnceInUpTo(st.pos, all[i]);
    if all[i] == all[j] { TwiceCounted(all, i, j); }
    assert all[i] in multiset(all);
  }

  lemma {:induction false} OnceInUpTo(n: nat, x: nat)
    ensures multiset(UpTo(n))[x] == if x < n then 1 else 0
  {
    if n > 0 {
      OnceInUpTo(n - 1, x);
      assert UpTo(n) == UpTo(n - 1) + [n - 1];
    }
  }

  lemma TwiceCounted(s: seq<nat>, i: nat, j: nat)
    requires i < j < |s| && s[i] == s[j]
    ensures multiset(s)[s[i]] >= 2
  {
    assert s == s[..i] + [s[i]] + s[i + 1..j] + [s[j]] + s[j + 1..];
  }

  // ---- which check a multiplication is in ----

  lemma {:induction false} EntryAt<E>(N: nat, bs: seq<Batch<E>>, c: nat, i: nat)
    requires Full(N, bs) && c < |bs| && i < N
    ensures N * c + i < |AllEntries(N, bs)| && AllEntries(N, bs)[N * c + i] == Entries(bs[c])[i]
    decreases |bs|
  {
    var n := |bs| - 1;
    assert N * |bs| == N * n + N;
    if c < n {
      EntryAt(N, bs[..n], c, i);
    }
  }

  // Multiplication g is in the g / N-th check, at position g % N.
  function CheckNo(N: nat, g: nat): nat requires 1 <= N { g / N }

  function Place(N: nat, g: nat): (r: nat)
    requires 1 <= N
    ensures r < N
  {
    g % N
  }

  // The c-th check of the run, or the one at teardown.
  ghost function CheckOf<E(!new)>(p: Party<E>, c: nat): Batch<E>
    requires p.engine.cnt <= |p.engine.left| && p.engine.cnt <= |p.engine.right| && p.engine.cnt <= |p.engine.out|
  {
    if c < |p.engine.checked| then p.engine.checked[c] else Pending(p.engine)
  }

  /** Multiplication g of the circuit is entry g % N of check g / N, with its wires. */
  lemma ProductInCheck<E(!new)>(F: Field<E>, env: Env<E>, N: nat, blank: Wire<E>, pubMac: E, circuit: seq<Step<E>>,
                                g: nat)
    requires F.Laws() && 1 <= N && Ordered(circuit) && g < |MulIds(circuit)|
    ensures var p, id := Execute(F, env, N, blank, pubMac, circuit), MulIds(circuit)[g];
            var b := CheckOf(p, CheckNo(N, g));
            && |b.left| == |b.right| == |b.out| && Place(N, g) < |b.left|
            && b.left[Place(N, g)] == p.wires[id.left] && b.right[Place(N, g)] == p.wires[id.right]
            && b.out[Place(N, g)] == p.wires[id.out]
  {
    EveryProductRecorded(F, env, N, blank, pubMac, circuit);
    var p := Execute(F, env, N, blank, pubMac, circuit);
    hide Execute, MulIds, CheckNo, Place;
    Located(N, p, g);
  }

  lemma Located<E(!new)>(N: nat, p: Party<E>, g: nat)
    requires 1 <= N && Sized(N, p.engine) && Full(N, p.engine.checked) && g < |Recorded(N, p.engine)|
    ensures var st, b := p.engine, CheckOf(p, CheckNo(N, g));
            && |b.left| == |b.right| == |b.out| && Place(N, g) < |b.left|
            && Mul(b.left[Place(N, g)], b.right[Place(N, g)], b.out[Place(N, g)]) == Recorded(N, st)[g]
  {
    var st, c, i := p.engine, CheckNo(N, g), Place(N, g);
    var k := |st.checked|;
    Primes.DivFacts(g, N);
    if c < k {
      EntryAt(N, st.checked, c, i);
    } else {
      Primes.AtLeast(N, c, k);
      if c > k { Primes.AtLeast(N, c, k + 1); Primes.Distribute(N, k, 1); }
      assert c == k;
    }
  }
}
