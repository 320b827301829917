/** What the verifier of the arithmetic engine learns. Whatever messages it sees and whatever second
    sums the checks show, exactly one choice of the prover's correlations leads to them, for every
    circuit and all inputs; and the first sums follow from what the verifier holds. So circuits that
    differ in their inputs only have the same transcripts. */
module ArithPrivacy {
  import opened Algebra
  import opened ArithEngine
  import opened ArithCheck
  import opened ArithCircuits
  import opened ArithLedger

  // The verifier's key and correlations, the gate buffer, and the fixed public MAC.
  datatype View<!E> = View(delta: E, keys: nat -> E, N: nat, blank: Wire<E>, pubMac: E)

  // The prover's correlation i, if its value is x.
  function Correlation<E(!new)>(F: Field<E>, w: View<E>, x: E, i: nat): Wire<E> {
    Wire(x, F.Add(w.keys(i), F.Mul(x, w.delta)))
  }

  function HonestEnv<E(!new)>(F: Field<E>, w: View<E>, xs: nat -> E): Env<E> {
    Env(Alice, F.zero, (i: nat) => Correlation(F, w, xs(i), i), (k: nat) => F.zero)
  }

  function VerifierEnv<E(!new)>(F: Field<E>, w: View<E>, msgs: seq<E>): Env<E> {
    Env(Bob, w.delta, (i: nat) => Wire(F.zero, w.keys(i)), (k: nat) => if k < |msgs| then msgs[k] else F.zero)
  }

  // The run of a prover that follows the code and whose correlations have these values.
  ghost function HonestRun<E(!new)>(F: Field<E>, w: View<E>, circuit: seq<Step<E>>, xs: nat -> E): (r: Party<E>)
    requires 1 <= w.N && Ordered(circuit)
    ensures Sized(w.N, r.engine) && |r.wires| == Width(circuit)
  {
    Execute(F, HonestEnv(F, w, xs), w.N, w.blank, w.pubMac, circuit)
  }

  // What the verifier makes of the messages.
  ghost function VerifierRun<E(!new)>(F: Field<E>, w: View<E>, circuit: seq<Step<E>>, msgs: seq<E>): (r: Party<E>)
    requires 1 <= w.N && Ordered(circuit)
    ensures Sized(w.N, r.engine) && |r.wires| == Width(circuit)
  {
    Execute(F, VerifierEnv(F, w, msgs), w.N, w.blank, w.pubMac, circuit)
  }

  lemma CorrelatedEnvs<E(!new)>(F: Field<E>, w: View<E>, xs: nat -> E, msgs: seq<E>)
    ensures Correlated(F, HonestEnv(F, w, xs), VerifierEnv(F, w, msgs))
  {
    var A, V := HonestEnv(F, w, xs), VerifierEnv(F, w, msgs);
    forall i: nat ensures Tagged(F, V.delta, A.vole(i), V.vole(i)) {
      assert A.vole(i) == Correlation(F, w, xs(i), i) && V.vole(i) == Wire(F.zero, w.keys(i));
    }
  }

  lemma RunsInStep<E(!new)>(F: Field<E>, w: View<E>, circuit: seq<Step<E>>, xs: nat -> E)
    requires F.Laws() && 1 <= w.N && Ordered(circuit)
    ensures var p := HonestRun(F, w, circuit, xs);
            InStep(F, w.delta, w.N, true, Values(F, circuit), p, VerifierRun(F, w, circuit, p.engine.msgs))
  {
    var A := HonestEnv(F, w, xs);
    var V := VerifierEnv(F, w, HonestRun(F, w, circuit, xs).engine.msgs);
    CorrelatedEnvs(F, w, xs, HonestRun(F, w, circuit, xs).engine.msgs);
    hide Execute, InStep, Values, Ordered, Correlated;
    CircuitHolds(F, A, V, w.N, w.blank, w.pubMac, circuit);
  }

  // ---- the messages ----

  // The cleartext of the k-th input or product.
  ghost function Cleartext<E(!new)>(F: Field<E>, circuit: seq<Step<E>>, k: nat): E
    requires Ordered(circuit) && k < |Drawn(circuit)|
  {
    Values(F, circuit)[Drawn(circuit)[k]]
  }

  // Each message is its correlation's value minus the cleartext.
  ghost predicate Explains<E(!new)>(F: Field<E>, N: nat, circuit: seq<Step<E>>, xs: nat -> E, msgs: seq<E>)
    requires 1 <= N && Ordered(circuit)
  {
    var used := LedgerOf(N, circuit).0.used;
    && |msgs| == |used| == |Drawn(circuit)|
    && forall k :: 0 <= k < |used| ==> xs(used[k]) == F.Add(msgs[k], Cleartext(F, circuit, k))
  }

  lemma Moved<E(!new)>(F: Field<E>, x: E, m: E, v: E)
    requires F.Laws()
    ensures m == F.Sub(x, v) <==> x == F.Add(m, v)
  {
    SubLaws(F, x, v);
    SubLaws(F, F.Add(m, v), v);
    if x == F.Add(m, v) { Cancel(F, F.Sub(x, v), m, v); assert At2(m, v) && At2(F.Sub(x, v), v); }
  }

  // Every run's messages are explained, and an explained list is what the run sends.
  lemma MessagesExactly<E(!new)>(F: Field<E>, w: View<E>, circuit: seq<Step<E>>, xs: nat -> E, msgs: seq<E>)
    requires F.Laws() && 1 <= w.N && Ordered(circuit)
    ensures HonestRun(F, w, circuit, xs).engine.msgs == msgs <==> Explains(F, w.N, circuit, xs, msgs)
    ensures |HonestRun(F, w, circuit, xs).engine.msgs| == |LedgerOf(w.N, circuit).0.used| == |Drawn(circuit)|
  {
    var env, p := HonestEnv(F, w, xs), HonestRun(F, w, circuit, xs);
    var l := EveryCorrelationOnce(F, env, w.N, w.blank, w.pubMac, circuit);
    RunsInStep(F, w, circuit, xs);
    var made, sent := Pick(p.wires, Drawn(circuit)), p.engine.msgs;
    assert Makes(F, env, sent, made, l.used);
    forall k | 0 <= k < |made|
      ensures forall m :: m == sent[k] <==> xs(l.used[k]) == F.Add(m, Cleartext(F, circuit, k))
    {
      assert MadeFrom(F, env, env.vole(l.used[k]), sent[k], made[k]);
      assert made[k].val == Cleartext(F, circuit, k);
      forall m ensures m == sent[k] <==> xs(l.used[k]) == F.Add(m, Cleartext(F, circuit, k)) {
        Moved(F, xs(l.used[k]), m, Cleartext(F, circuit, k));
      }
    }
    hide *;
    SameMessages(F, w.N, circuit, xs, msgs, sent);
  }

  lemma SameMessages<E(!new)>(F: Field<E>, N: nat, circuit: seq<Step<E>>, xs: nat -> E, msgs: seq<E>, sent: seq<E>)
    requires 1 <= N && Ordered(circuit)
    requires var used := LedgerOf(N, circuit).0.used;
             && |sent| == |used| == |Drawn(circuit)|
             && forall k, m :: 0 <= k < |used| ==>
                  (m == sent[k] <==> xs(used[k]) == F.Add(m, Cleartext(F, circuit, k)))
    ensures sent == msgs <==> Explains(F, N, circuit, xs, msgs)
  {
  }

  // ---- the batches ----

  // Two runs with the same messages have the same wires and check the same batches.
  lemma SameBatches<E(!new)>(F: Field<E>, w: View<E>, circuit: seq<Step<E>>, xs: nat -> E, ys: nat -> E)
    requires F.Laws() && 1 <= w.N && Ordered(circuit)
    requires HonestRun(F, w, circuit, xs).engine.msgs == HonestRun(F, w, circuit, ys).engine.msgs
    ensures var p, q := HonestRun(F, w, circuit, xs), HonestRun(F, w, circuit, ys);
            && p.wires == q.wires && |p.engine.checked| == |q.engine.checked|
            && forall c :: 0 <= c <= |p.engine.checked| ==> CheckOf(p, c) == CheckOf(q, c)
  {
    var p, q := HonestRun(F, w, circuit, xs), HonestRun(F, w, circuit, ys);
    var v := VerifierRun(F, w, circuit, p.engine.msgs);
    RunsInStep(F, w, circuit, xs);
    RunsInStep(F, w, circuit, ys);
    EveryProductRecorded(F, HonestEnv(F, w, xs), w.N, w.blank, w.pubMac, circuit);
    EveryProductRecorded(F, HonestEnv(F, w, ys), w.N, w.blank, w.pubMac, circuit);
    assert p.wires == q.wires by { SameWires(F, w.delta, w.N, Values(F, circuit), p, q, v); }
    TiedSizes(F, w.delta, w.N, Values(F, circuit), p, v);
    TiedSizes(F, w.delta, w.N, Values(F, circuit), q, v);
    hide *;
    SameRecords(w.N, p, q);
  }

  lemma SameWires<E(!new)>(F: Field<E>, delta: E, N: nat, vals: seq<E>, p: Party<E>, q: Party<E>, v: Party<E>)
    requires InStep(F, delta, N, true, vals, p, v) && InStep(F, delta, N, true, vals, q, v)
    ensures p.wires == q.wires
  {
    hide Tied;
    forall i | 0 <= i < |p.wires| ensures p.wires[i] == q.wires[i] {
      assert Tagged(F, delta, p.wires[i], v.wires[i]) && Tagged(F, delta, q.wires[i], v.wires[i]);
    }
  }

  // What the prover's run shares with the verifier's.
  ghost predicate SameCounts<E(!new)>(p: Party<E>, v: Party<E>) {
    && |p.engine.checked| == |v.engine.checked| && p.engine.cnt == v.engine.cnt && p.engine.pos == v.engine.pos
    && forall c :: 0 <= c < |p.engine.checked| ==> p.engine.checked[c].mask == v.engine.checked[c].mask
  }

  lemma TiedSizes<E(!new)>(F: Field<E>, delta: E, N: nat, vals: seq<E>, p: Party<E>, v: Party<E>)
    requires InStep(F, delta, N, true, vals, p, v)
    ensures SameCounts(p, v)
  {
    hide AllTagged;
    forall c | 0 <= c < |p.engine.checked| ensures p.engine.checked[c].mask == v.engine.checked[c].mask {
      assert BatchOk(F, delta, true, p.engine.checked[c], v.engine.checked[c]);
    }
  }

  lemma SameRecords<E(!new)>(N: nat, p: Party<E>, q: Party<E>)
    requires Sized(N, p.engine) && Sized(N, q.engine) && Full(N, p.engine.checked) && Full(N, q.engine.checked)
    requires Recorded(N, p.engine) == Recorded(N, q.engine)
    requires |p.engine.checked| == |q.engine.checked| && p.engine.cnt == q.engine.cnt && p.engine.pos == q.engine.pos
    requires forall c :: 0 <= c < |p.engine.checked| ==> p.engine.checked[c].mask == q.engine.checked[c].mask
    ensures forall c :: 0 <= c <= |p.engine.checked| ==> CheckOf(p, c) == CheckOf(q, c)
  {
    forall c | 0 <= c <= |p.engine.checked| ensures CheckOf(p, c) == CheckOf(q, c) {
      var a, b, k := CheckOf(p, c), CheckOf(q, c), |p.engine.checked|;
      assert |a.left| == |a.right| == |a.out| == |b.left| == |b.right| == |b.out| && a.mask == b.mask;
      hide Recorded, Entries, CheckOf;
      forall i | 0 <= i < |a.left| ensures Entries(a)[i] == Entries(b)[i] {
        RecordAt(N, p, c, i);
        RecordAt(N, q, c, i);
      }
      SameEntries(a, b);
    }
  }

  lemma RecordAt<E(!new)>(N: nat, p: Party<E>, c: nat, i: nat)
    requires Sized(N, p.engine) && Full(N, p.engine.checked) && c <= |p.engine.checked| && i < |CheckOf(p, c).left|
    ensures |CheckOf(p, c).right| == |CheckOf(p, c).out| == |CheckOf(p, c).left|
    ensures N * c + i < |Recorded(N, p.engine)| && Entries(CheckOf(p, c))[i] == Recorded(N, p.engine)[N * c + i]
  {
    if c < |p.engine.checked| { EntryAt(N, p.engine.checked, c, i); }
  }

  lemma SameEntries<E>(a: Batch<E>, b: Batch<E>)
    requires |a.left| == |a.right| == |a.out| == |b.left| == |b.right| == |b.out| && a.mask == b.mask
    requires forall i :: 0 <= i < |a.left| ==> Entries(a)[i] == Entries(b)[i]
    ensures a == b
  {
    forall i | 0 <= i < |a.left| ensures a.left[i] == b.left[i] && a.right[i] == b.right[i] && a.out[i] == b.out[i] {
      assert Entries(a)[i] == Mul(a.left[i], a.right[i], a.out[i]);
      assert Entries(b)[i] == Mul(b.left[i], b.right[i], b.out[i]);
    }
    assert a.left == b.left && a.right == b.right && a.out == b.out;
  }

  // ---- transcripts ----

  // The two sums that the prover sends for the c-th check, the one at teardown being the last.
  ghost function SumsAt<E(!new)>(F: Field<E>, w: View<E>, p: Party<E>, xs: nat -> E, c: nat, chi: seq<E>): (E, E)
    requires Sized(w.N, p.engine)
    requires var b := CheckOf(p, c); |b.left| == |b.right| == |b.out| == |chi|
  {
    var b := CheckOf(p, c);
    Proof(F, b.left, b.right, b.out, chi, Correlation(F, w, xs(b.mask), b.mask))
  }

  // The coefficients of every check, as many as the verifier has gates for it.
  ghost predicate Asked<E(!new)>(v: Party<E>, chis: seq<seq<E>>)
    requires v.engine.cnt <= |v.engine.left| && v.engine.cnt <= |v.engine.right| && v.engine.cnt <= |v.engine.out|
  {
    |chis| == |v.engine.checked| + 1 && forall c :: 0 <= c < |chis| ==> |chis[c]| == |CheckOf(v, c).left|
  }

  ghost predicate SendsAt<E(!new)>(F: Field<E>, w: View<E>, p: Party<E>, xs: nat -> E, c: nat, chi: seq<E>, second: E)
    requires Sized(w.N, p.engine)
  {
    var b := CheckOf(p, c);
    |b.left| == |b.right| == |b.out| == |chi| && SumsAt(F, w, p, xs, c, chi).1 == second
  }

  // The prover sends these messages, and these second sums in the checks.
  ghost predicate Sends<E(!new)>(F: Field<E>, w: View<E>, circuit: seq<Step<E>>, xs: nat -> E, msgs: seq<E>,
                                 chis: seq<seq<E>>, seconds: seq<E>)
    requires 1 <= w.N && Ordered(circuit)
  {
    var p := HonestRun(F, w, circuit, xs);
    && p.engine.msgs == msgs && |chis| == |seconds| == |p.engine.checked| + 1
    && forall c :: 0 <= c < |chis| ==> SendsAt(F, w, p, xs, c, chis[c], seconds[c])
  }

  // The positions of the stream that the transcript speaks of: of the messages and of the masks.
  ghost function Spoken<E(!new)>(N: nat, circuit: seq<Step<E>>, p: Party<E>): seq<nat>
    requires 1 <= N
  {
    LedgerOf(N, circuit).0.used + Masks(p.engine.checked) + [p.engine.pos]
  }

  lemma MaskOfCheck<E(!new)>(p: Party<E>, c: nat)
    requires p.engine.cnt <= |p.engine.left| && p.engine.cnt <= |p.engine.right| && p.engine.cnt <= |p.engine.out|
    requires c <= |p.engine.checked|
    ensures (Masks(p.engine.checked) + [p.engine.pos])[c] == CheckOf(p, c).mask
  {
  }

  // The second sum fixes the mask's value, and conversely.
  lemma MaskFixed<E(!new)>(F: Field<E>, w: View<E>, p: Party<E>, xs: nat -> E, c: nat, chi: seq<E>, second: E)
    requires F.Laws() && Sized(w.N, p.engine)
    requires var b := CheckOf(p, c); |b.left| == |b.right| == |b.out| == |chi|
    ensures var b := CheckOf(p, c);
            SendsAt(F, w, p, xs, c, chi, second) <==>
            xs(b.mask) == F.Sub(second, Dot(F, A1s(F, b.left, b.right, b.out), chi))
  {
    var b := CheckOf(p, c);
    var d := Dot(F, A1s(F, b.left, b.right, b.out), chi);
    Moved(F, second, xs(b.mask), d);
    assert At2(d, xs(b.mask));
  }

  /** At most one choice of correlations explains a transcript: two that do have the same values
      wherever a message or a mask was taken from. */
  lemma OneStreamAtMost<E(!new)>(F: Field<E>, w: View<E>, circuit: seq<Step<E>>, xs: nat -> E, ys: nat -> E,
                                 msgs: seq<E>, chis: seq<seq<E>>, seconds: seq<E>, j: nat)
    requires F.Laws() && 1 <= w.N && Ordered(circuit)
    requires Sends(F, w, circuit, xs, msgs, chis, seconds) && Sends(F, w, circuit, ys, msgs, chis, seconds)
    requires j < |Spoken(w.N, circuit, HonestRun(F, w, circuit, xs))|
    ensures var i := Spoken(w.N, circuit, HonestRun(F, w, circuit, xs))[j]; xs(i) == ys(i)
  {
    var p, used := HonestRun(F, w, circuit, xs), LedgerOf(w.N, circuit).0.used;
    if j < |used| {
      assert Spoken(w.N, circuit, p)[j] == used[j];
      hide *;
      ExplainedAt(F, w, circuit, xs, msgs, chis, seconds, j);
      ExplainedAt(F, w, circuit, ys, msgs, chis, seconds, j);
    } else {
      var c := j - |used|;
      assert Spoken(w.N, circuit, p)[j] == (Masks(p.engine.checked) + [p.engine.pos])[c];
      MaskOfCheck(p, c);
      hide *;
      OneMaskAtMost(F, w, circuit, xs, ys, msgs, chis, seconds, c);
    }
  }

  lemma ExplainedAt<E(!new)>(F: Field<E>, w: View<E>, circuit: seq<Step<E>>, xs: nat -> E, msgs: seq<E>,
                             chis: seq<seq<E>>, seconds: seq<E>, k: nat)
    requires F.Laws() && 1 <= w.N && Ordered(circuit) && Sends(F, w, circuit, xs, msgs, chis, seconds)
    requires k < |LedgerOf(w.N, circuit).0.used|
    ensures k < |msgs| == |Drawn(circuit)|
    ensures xs(LedgerOf(w.N, circuit).0.used[k]) == F.Add(msgs[k], Cleartext(F, circuit, k))
  {
    MessagesExactly(F, w, circuit, xs, msgs);
    hide HonestRun, LedgerOf, Cleartext, Drawn, Ordered;
  }

  lemma OneMaskAtMost<E(!new)>(F: Field<E>, w: View<E>, circuit: seq<Step<E>>, xs: nat -> E, ys: nat -> E,
                               msgs: seq<E>, chis: seq<seq<E>>, seconds: seq<E>, c: nat)
    requires F.Laws() && 1 <= w.N && Ordered(circuit)
    requires Sends(F, w, circuit, xs, msgs, chis, seconds) && Sends(F, w, circuit, ys, msgs, chis, seconds)
    requires c <= |HonestRun(F, w, circuit, xs).engine.checked|
    ensures var i := CheckOf(HonestRun(F, w, circuit, xs), c).mask; xs(i) == ys(i)
  {
    var p, q := HonestRun(F, w, circuit, xs), HonestRun(F, w, circuit, ys);
    hide HonestRun, Ordered, SendsAt;
    SameBatches(F, w, circuit, xs, ys);
    assert SendsAt(F, w, p, xs, c, chis[c], seconds[c]) && SendsAt(F, w, q, ys, c, chis[c], seconds[c]);
    SentSize(F, w, p, xs, c, chis[c], seconds[c]);
    MaskFixed(F, w, p, xs, c, chis[c], seconds[c]);
    MaskFixed(F, w, q, ys, c, chis[c], seconds[c]);
  }

  lemma SentSize<E(!new)>(F: Field<E>, w: View<E>, p: Party<E>, xs: nat -> E, c: nat, chi: seq<E>, second: E)
    requires Sized(w.N, p.engine) && SendsAt(F, w, p, xs, c, chi, second)
    ensures var b := CheckOf(p, c); |b.left| == |b.right| == |b.out| == |chi|
  {
  }

  // ---- every transcript is explained ----

  function IndexIn(s: seq<nat>, x: nat): (k: nat)
    requires x in s
    ensures k < |s| && s[k] == x
  {
    if s[0] == x then 0 else 1 + IndexIn(s[1..], x)
  }

  // xs, but t[k] at position s[k].
  function Placed<E>(s: seq<nat>, t: seq<E>, xs: nat -> E): nat -> E
    requires |s| == |t|
  {
    (i: nat) => if i in s then t[IndexIn(s, i)] else xs(i)
  }

  ghost predicate Different(s: seq<nat>) {
    forall i, j :: 0 <= i < j < |s| ==> s[i] != s[j]
  }

  lemma PlacedAt<E>(s: seq<nat>, t: seq<E>, xs: nat -> E, k: nat)
    requires |s| == |t| && Different(s) && k < |s|
    ensures Placed(s, t, xs)(s[k]) == t[k]
  {
    var j := IndexIn(s, s[k]);
    assert j == k;
  }

  // The positions spoken of are different ones.
  lemma SpokenDiffer<E(!new)>(F: Field<E>, w: View<E>, circuit: seq<Step<E>>, xs: nat -> E)
    requires F.Laws() && 1 <= w.N && Ordered(circuit)
    ensures Different(Spoken(w.N, circuit, HonestRun(F, w, circuit, xs)))
  {
    var p := HonestRun(F, w, circuit, xs);
    var l := EveryCorrelationOnce(F, HonestEnv(F, w, xs), w.N, w.blank, w.pubMac, circuit);
    hide HonestRun, LedgerOf, OneUseEach, Masks;
    DifferentUses(p.engine, l);
  }

  lemma DifferentUses<E>(st: Engine<E>, l: Ledger)
    requires OneUseEach(st, l)
    ensures Different(l.used + Masks(st.checked) + [st.pos])
  {
    var s, all := l.used + Masks(st.checked), [0] + l.used + Masks(st.checked) + l.spare;
    assert all == [0] + s + l.spare;
    forall i | 0 <= i < |s| ensures s[i] < st.pos && forall j :: i < j < |s| ==> s[i] != s[j] {
      assert s[i] == all[i + 1];
      BelowPos(st, l, i + 1);
      forall j | i < j < |s| ensures s[i] != s[j] {
        assert s[j] == all[j + 1];
        UsesDiffer(st, l, i + 1, j + 1);
      }
    }
  }

  lemma BelowPos<E>(st: Engine<E>, l: Ledger, i: nat)
    requires OneUseEach(st, l) && i < |[0] + l.used + Masks(st.checked) + l.spare|
    ensures ([0] + l.used + Masks(st.checked) + l.spare)[i] < st.pos
  {
    var all := [0] + l.used + Masks(st.checked) + l.spare;
    OnceInUpTo(st.pos, all[i]);
    assert all[i] in multiset(all);
  }

  // The values that the messages ask for, where they were taken from.
  ghost function Answers<E(!new)>(F: Field<E>, circuit: seq<Step<E>>, msgs: seq<E>): (r: seq<E>)
    requires Ordered(circuit) && |msgs| == |Drawn(circuit)|
    ensures |r| == |msgs|
  {
    seq(|msgs|, k requires 0 <= k < |msgs| => F.Add(msgs[k], Cleartext(F, circuit, k)))
  }

  // The values that the second sums ask for in the masks.
  ghost function MaskValues<E(!new)>(F: Field<E>, p: Party<E>, chis: seq<seq<E>>, seconds: seq<E>): (r: seq<E>)
    requires p.engine.cnt <= |p.engine.left| && p.engine.cnt <= |p.engine.right| && p.engine.cnt <= |p.engine.out|
    requires |chis| == |seconds| && forall c :: 0 <= c < |chis| ==>
               |CheckOf(p, c).left| == |CheckOf(p, c).right| == |CheckOf(p, c).out| == |chis[c]|
    ensures |r| == |seconds|
  {
    seq(|seconds|, c requires 0 <= c < |seconds| =>
      var b := CheckOf(p, c); F.Sub(seconds[c], Dot(F, A1s(F, b.left, b.right, b.out), chis[c])))
  }

  lemma FirstStream<E(!new)>(F: Field<E>, w: View<E>, circuit: seq<Step<E>>, msgs: seq<E>) returns (xs: nat -> E)
    requires F.Laws() && 1 <= w.N && Ordered(circuit) && |msgs| == |Drawn(circuit)|
    ensures HonestRun(F, w, circuit, xs).engine.msgs == msgs
  {
    var none := (i: nat) => F.zero;
    var used := LedgerOf(w.N, circuit).0.used;
    MessagesExactly(F, w, circuit, none, msgs);
    SpokenDiffer(F, w, circuit, none);
    var p := HonestRun(F, w, circuit, none);
    assert Spoken(w.N, circuit, p) == used + (Masks(p.engine.checked) + [p.engine.pos]);
    DifferentParts(used, Masks(p.engine.checked) + [p.engine.pos]);
    xs := Placed(used, Answers(F, circuit, msgs), none);
    MessagesExactly(F, w, circuit, xs, msgs);
    hide HonestRun, LedgerOf, Cleartext, Drawn, Ordered, Placed;
    forall k | 0 <= k < |used| ensures xs(used[k]) == F.Add(msgs[k], Cleartext(F, circuit, k)) {
      PlacedAt(used, Answers(F, circuit, msgs), none, k);
    }
  }

  // ---- the checks ----

  lemma BatchesOk<E(!new)>(F: Field<E>, w: View<E>, circuit: seq<Step<E>>, xs: nat -> E, c: nat)
    requires F.Laws() && 1 <= w.N && Ordered(circuit)
    requires c <= |HonestRun(F, w, circuit, xs).engine.checked|
    ensures var p := HonestRun(F, w, circuit, xs);
            var v := VerifierRun(F, w, circuit, p.engine.msgs);
            BatchOk(F, w.delta, true, CheckOf(p, c), CheckOf(v, c)) && |v.engine.checked| == |p.engine.checked|
  {
    RunsInStep(F, w, circuit, xs);
    var p := HonestRun(F, w, circuit, xs);
    var v := VerifierRun(F, w, circuit, p.engine.msgs);
    hide HonestRun, VerifierRun, Ordered, Values, AllTagged;
    PendingOk(F, w.delta, w.N, true, p.engine, v.engine);
  }

  /** Every transcript is explained: for all messages and all second sums there is a choice of
      correlations with which the prover, following the code, sends them. */
  lemma OneStreamAtLeast<E(!new)>(F: Field<E>, w: View<E>, circuit: seq<Step<E>>, msgs: seq<E>, chis: seq<seq<E>>,
                                  seconds: seq<E>) returns (xs: nat -> E)
    requires F.Laws() && 1 <= w.N && Ordered(circuit) && |msgs| == |Drawn(circuit)|
    requires Asked(VerifierRun(F, w, circuit, msgs), chis) && |seconds| == |chis|
    ensures Sends(F, w, circuit, xs, msgs, chis, seconds)
  {
    var first := FirstStream(F, w, circuit, msgs);
    var p, used := HonestRun(F, w, circuit, first), LedgerOf(w.N, circuit).0.used;
    AllBatchesOk(F, w, circuit, first, chis);
    var masks := Masks(p.engine.checked) + [p.engine.pos];
    SpokenDiffer(F, w, circuit, first);
    assert Spoken(w.N, circuit, p) == used + masks;
    hide *;
    var values := MaskValues(F, p, chis, seconds);
    xs := Placed(masks, values, first);
    StillSends(F, w, circuit, first, xs, msgs, masks, values);
    SendsAll(F, w, circuit, first, xs, msgs, masks, values, chis, seconds);
  }

  lemma AllBatchesOk<E(!new)>(F: Field<E>, w: View<E>, circuit: seq<Step<E>>, xs: nat -> E, chis: seq<seq<E>>)
    requires F.Laws() && 1 <= w.N && Ordered(circuit)
    requires Asked(VerifierRun(F, w, circuit, HonestRun(F, w, circuit, xs).engine.msgs), chis)
    ensures var p := HonestRun(F, w, circuit, xs);
            && |chis| == |p.engine.checked| + 1
            && forall c :: 0 <= c < |chis| ==>
                 |CheckOf(p, c).left| == |CheckOf(p, c).right| == |CheckOf(p, c).out| == |chis[c]|
  {
    var p := HonestRun(F, w, circuit, xs);
    var v := VerifierRun(F, w, circuit, p.engine.msgs);
    BatchesOk(F, w, circuit, xs, 0);
    hide HonestRun, VerifierRun, Ordered;
    forall c | 0 <= c < |chis|
      ensures |CheckOf(p, c).left| == |CheckOf(p, c).right| == |CheckOf(p, c).out| == |chis[c]|
    {
      BatchesOk(F, w, circuit, xs, c);
    }
  }

  // The masks' values do not change the messages.
  lemma StillSends<E(!new)>(F: Field<E>, w: View<E>, circuit: seq<Step<E>>, first: nat -> E, xs: nat -> E,
                            msgs: seq<E>, masks: seq<nat>, values: seq<E>)
    requires F.Laws() && 1 <= w.N && Ordered(circuit) && |masks| == |values|
    requires HonestRun(F, w, circuit, first).engine.msgs == msgs && xs == Placed(masks, values, first)
    requires Different(LedgerOf(w.N, circuit).0.used + masks)
    ensures HonestRun(F, w, circuit, xs).engine.msgs == msgs
  {
    MessagesExactly(F, w, circuit, first, msgs);
    MessagesExactly(F, w, circuit, xs, msgs);
    var used := LedgerOf(w.N, circuit).0.used;
    hide HonestRun, LedgerOf, Cleartext, Drawn, Ordered;
    DifferentParts(used, masks);
    assert forall k :: 0 <= k < |used| ==> xs(used[k]) == first(used[k]);
  }

  lemma DifferentParts(s: seq<nat>, t: seq<nat>)
    requires Different(s + t)
    ensures Different(s) && Different(t) && forall k :: 0 <= k < |s| ==> s[k] !in t
  {
    var all := s + t;
    forall i, j | 0 <= i < j < |s| ensures s[i] != s[j] { assert all[i] == s[i] && all[j] == s[j]; }
    forall i, j | 0 <= i < j < |t| ensures t[i] != t[j] { assert all[|s| + i] == t[i] && all[|s| + j] == t[j]; }
    forall k, j | 0 <= k < |s| && 0 <= j < |t| ensures s[k] != t[j] { assert all[k] == s[k] && all[|s| + j] == t[j]; }
  }

  lemma SendsAll<E(!new)>(F: Field<E>, w: View<E>, circuit: seq<Step<E>>, first: nat -> E, xs: nat -> E, msgs: seq<E>,
                          masks: seq<nat>, values: seq<E>, chis: seq<seq<E>>, seconds: seq<E>)
    requires F.Laws() && 1 <= w.N && Ordered(circuit) && |chis| == |seconds|
    requires HonestRun(F, w, circuit, first).engine.msgs == msgs == HonestRun(F, w, circuit, xs).engine.msgs
    requires var p := HonestRun(F, w, circuit, first);
             && masks == Masks(p.engine.checked) + [p.engine.pos] && |chis| == |masks|
             && (forall c :: 0 <= c < |chis| ==>
                   |CheckOf(p, c).left| == |CheckOf(p, c).right| == |CheckOf(p, c).out| == |chis[c]|)
             && values == MaskValues(F, p, chis, seconds)
    requires Different(LedgerOf(w.N, circuit).0.used + masks) && xs == Placed(masks, values, first)
    ensures Sends(F, w, circuit, xs, msgs, chis, seconds)
  {
    SameBatches(F, w, circuit, first, xs);
    var p, q := HonestRun(F, w, circuit, first), HonestRun(F, w, circuit, xs);
    DifferentParts(LedgerOf(w.N, circuit).0.used, masks);
    hide HonestRun, LedgerOf, Ordered, SendsAt, Placed, CheckOf, Different, Masks;
    forall c | 0 <= c < |chis| ensures SendsAt(F, w, q, xs, c, chis[c], seconds[c]) {
      PlacedAt(masks, values, first, c);
      MaskOfCheck(p, c);
      MaskFixed(F, w, q, xs, c, chis[c], seconds[c]);
    }
  }

  /** The first sum tells nothing more: it is what the verifier computes from its keys and the second. */
  lemma FirstSumKnown<E(!new)>(F: Field<E>, w: View<E>, circuit: seq<Step<E>>, xs: nat -> E, c: nat, chi: seq<E>)
    requires F.Laws() && 1 <= w.N && Ordered(circuit)
    requires var p := HonestRun(F, w, circuit, xs);
             c <= |p.engine.checked|
             && |CheckOf(p, c).left| == |CheckOf(p, c).right| == |CheckOf(p, c).out| == |chi|
    ensures var p := HonestRun(F, w, circuit, xs);
            var s, b := SumsAt(F, w, p, xs, c, chi), CheckOf(VerifierRun(F, w, circuit, p.engine.msgs), c);
            && |b.left| == |b.right| == |b.out| == |chi|
            && s.0 == Expected(F, w.delta, b.left, b.right, b.out, chi, Wire(F.zero, w.keys(b.mask)), s.1)
  {
    var A := HonestEnv(F, w, xs);
    var p := HonestRun(F, w, circuit, xs);
    var V := VerifierEnv(F, w, p.engine.msgs);
    var v := VerifierRun(F, w, circuit, p.engine.msgs);
    BatchesOk(F, w, circuit, xs, c);
    CorrelatedEnvs(F, w, xs, p.engine.msgs);
    hide HonestRun, VerifierRun, Ordered, Expected, Proof, Correlated;
    BatchPasses(F, A, V, CheckOf(p, c), CheckOf(v, c), chi);
  }

  // ---- other inputs ----

  // The circuits differ in the inputs' values only.
  ghost predicate SameShape<E>(a: seq<Step<E>>, b: seq<Step<E>>) {
    |a| == |b| && forall i :: 0 <= i < |a| ==> a[i] == b[i] || (a[i].Input? && b[i].Input?)
  }

  lemma {:induction false} SameView<E(!new)>(F: Field<E>, w: View<E>, a: seq<Step<E>>, b: seq<Step<E>>, msgs: seq<E>)
    requires 1 <= w.N && Ordered(a) && SameShape(a, b)
    ensures Ordered(b) && VerifierRun(F, w, a, msgs) == VerifierRun(F, w, b, msgs)
    ensures |Drawn(a)| == |Drawn(b)| && Width(a) == Width(b)
    decreases |a|
  {
    if a != [] {
      var n := |a| - 1;
      OrderedPrefix(a, n);
      SameView(F, w, a[..n], b[..n], msgs);
      LastRefers(a);
      OrderedSnoc(b);
      var p := VerifierRun(F, w, a[..n], msgs);
      var env := VerifierEnv(F, w, msgs);
      assert Do(F, env, w.N, w.pubMac, p, a[n]) == Do(F, env, w.N, w.pubMac, p, b[n]);
    }
  }

  lemma OrderedSnoc<E>(circuit: seq<Step<E>>)
    requires circuit != [] && Ordered(circuit[..|circuit| - 1])
    requires Refers(circuit[|circuit| - 1], Width(circuit[..|circuit| - 1]))
    ensures Ordered(circuit)
  {
    var n := |circuit| - 1;
    forall i | 0 <= i < |circuit| ensures Refers(circuit[i], Width(circuit[..i])) {
      if i < n { assert circuit[..n][..i] == circuit[..i] && Refers(circuit[..n][i], Width(circuit[..n][..i])); }
    }
  }

  /** Perfect zero knowledge: whatever a run sends, in its gates and in all its checks, a run on other
      inputs sends too, with one choice of correlations, of which the verifier holds the same. */
  lemma TranscriptHidesInputs<E(!new)>(F: Field<E>, w: View<E>, a: seq<Step<E>>, b: seq<Step<E>>, xs: nat -> E,
                                       chis: seq<seq<E>>) returns (ys: nat -> E)
    requires F.Laws() && 1 <= w.N && Ordered(a) && SameShape(a, b)
    requires Asked(VerifierRun(F, w, a, HonestRun(F, w, a, xs).engine.msgs), chis)
    ensures Ordered(b)
    ensures var p, q := HonestRun(F, w, a, xs), HonestRun(F, w, b, ys);
            && q.engine.msgs == p.engine.msgs && |q.engine.checked| == |p.engine.checked| == |chis| - 1
            && forall c :: 0 <= c < |chis| ==> SameSums(F, w, p, q, xs, ys, c, chis[c])
  {
    var p := HonestRun(F, w, a, xs);
    var msgs := p.engine.msgs;
    AllBatchesOk(F, w, a, xs, chis);
    SameView(F, w, a, b, msgs);
    MessagesExactly(F, w, a, xs, msgs);
    hide HonestRun, VerifierRun, Ordered, CheckOf, SumsAt, SameSums, Drawn, LedgerOf, Sends;
    var seconds := seq(|chis|, c requires 0 <= c < |chis| => SumsAt(F, w, p, xs, c, chis[c]).1);
    ys := OneStreamAtLeast(F, w, b, msgs, chis, seconds);
    var q := HonestRun(F, w, b, ys);
    SentMsgs(F, w, b, ys, msgs, chis, seconds);
    forall c | 0 <= c < |chis| ensures SameSums(F, w, p, q, xs, ys, c, chis[c]) {
      SumsAgree(F, w, a, b, xs, ys, c, chis[c], seconds[c]);
    }
  }

  ghost predicate SameSums<E(!new)>(F: Field<E>, w: View<E>, p: Party<E>, q: Party<E>, xs: nat -> E, ys: nat -> E,
                                    c: nat, chi: seq<E>)
    requires Sized(w.N, p.engine) && Sized(w.N, q.engine)
  {
    var s, t := CheckOf(p, c), CheckOf(q, c);
    && |s.left| == |s.right| == |s.out| == |chi| == |t.left| == |t.right| == |t.out|
    && SumsAt(F, w, p, xs, c, chi) == SumsAt(F, w, q, ys, c, chi)
  }

  lemma SentMsgs<E(!new)>(F: Field<E>, w: View<E>, circuit: seq<Step<E>>, xs: nat -> E, msgs: seq<E>,
                          chis: seq<seq<E>>, seconds: seq<E>)
    requires 1 <= w.N && Ordered(circuit) && Sends(F, w, circuit, xs, msgs, chis, seconds)
    ensures var p := HonestRun(F, w, circuit, xs);
            p.engine.msgs == msgs && |chis| == |seconds| == |p.engine.checked| + 1
            && forall c :: 0 <= c < |chis| ==> SendsAt(F, w, p, xs, c, chis[c], seconds[c])
  {
  }

  lemma SumsAgree<E(!new)>(F: Field<E>, w: View<E>, a: seq<Step<E>>, b: seq<Step<E>>, xs: nat -> E, ys: nat -> E,
                           c: nat, chi: seq<E>, second: E)
    requires F.Laws() && 1 <= w.N && Ordered(a) && Ordered(b)
    requires var p, q := HonestRun(F, w, a, xs), HonestRun(F, w, b, ys);
             && p.engine.msgs == q.engine.msgs && c <= |p.engine.checked| == |q.engine.checked|
             && VerifierRun(F, w, a, p.engine.msgs) == VerifierRun(F, w, b, p.engine.msgs)
             && SendsAt(F, w, p, xs, c, chi, second) && SendsAt(F, w, q, ys, c, chi, second)
    ensures SameSums(F, w, HonestRun(F, w, a, xs), HonestRun(F, w, b, ys), xs, ys, c, chi)
  {
    hide HonestRun, VerifierRun, Ordered, CheckOf, SumsAt, Expected;
    FirstSumKnown(F, w, a, xs, c, chi);
    FirstSumKnown(F, w, b, ys, c, chi);
  }
}
