/** Opening authenticated values among the verifiers: the zero-share-masked MAC check, the final
    z = x * y test, and the batched check of wires against public values. */
module OpenCheck {
  import opened Algebra
  import opened AuthShares

  // ---- adding up what everyone published ----

  lemma {:induction false} TotalSnoc<E(!new)>(F: Field<E>, len: nat, rows: seq<seq<E>>, row: seq<E>)
    requires F.Laws() && Rows(len, rows) && |row| == len
    ensures Rows(len, rows + [row]) && Total(F, len, rows + [row]) == VAdd(F, Total(F, len, rows), row)
  {
    if rows == [] {
      assert (rows + [row])[1..] == [];
      forall p | 0 <= p < len ensures F.Add(row[p], F.zero) == F.Add(F.zero, row[p]) { Zero(F, row[p]); }
    } else {
      assert (rows + [row])[1..] == rows[1..] + [row];
      TotalSnoc(F, len, rows[1..], row);
      var t := Total(F, len, rows[1..]);
      forall p | 0 <= p < len
        ensures F.Add(rows[0][p], F.Add(t[p], row[p])) == F.Add(F.Add(rows[0][p], t[p]), row[p])
      { assert At3(rows[0][p], t[p], row[p]); }
    }
  }

  // The sum verifier `id` forms: its own row first, then everyone else's in order.
  method Reconstruct<E(!new)>(F: Field<E>, len: nat, id: nat, rows: seq<seq<E>>) returns (sum: seq<E>)
    requires F.Laws() && Rows(len, rows) && id < |rows|
    ensures sum == Total(F, len, rows)
  {
    sum := rows[id];
    var j := 0;
    assert sum == VAdd(F, Total(F, len, rows[..0]), rows[id]) by {
      forall p | 0 <= p < len ensures F.Add(F.zero, rows[id][p]) == rows[id][p] { Zero(F, rows[id][p]); }
    }
    while j < |rows|
      invariant j <= |rows| && |sum| == len
      invariant sum == if j <= id then VAdd(F, Total(F, len, rows[..j]), rows[id]) else Total(F, len, rows[..j])
    {
      hide Total, VAdd, Rows;
      NextRow(F, len, rows, id, j);
      if j != id { sum := VAdd(F, sum, rows[j]); }
      j := j + 1;
    }
    assert rows[..|rows|] == rows;
  }

  // The next row added to the sum of the earlier ones, row `id` being in it from the start.
  lemma NextRow<E(!new)>(F: Field<E>, len: nat, rows: seq<seq<E>>, id: nat, j: nat)
    requires F.Laws() && Rows(len, rows) && id < |rows| && j < |rows|
    ensures |rows[j]| == len && Rows(len, rows[..j]) && Rows(len, rows[..j + 1])
    ensures Total(F, len, rows[..j + 1]) == VAdd(F, Total(F, len, rows[..j]), rows[j])
    ensures VAdd(F, Total(F, len, rows[..j + 1]), rows[id])
         == VAdd(F, VAdd(F, Total(F, len, rows[..j]), rows[id]), rows[j])
  {
    assert rows[..j + 1] == rows[..j] + [rows[j]];
    TotalSnoc(F, len, rows[..j], rows[j]);
    VAddSwap(F, Total(F, len, rows[..j]), rows[id], rows[j]);
  }

  lemma VAddSwap<E(!new)>(F: Field<E>, a: seq<E>, b: seq<E>, c: seq<E>)
    requires F.Laws() && |a| == |b| == |c|
    ensures VAdd(F, VAdd(F, a, b), c) == VAdd(F, VAdd(F, a, c), b)
  {
    forall p | 0 <= p < |a| ensures F.Add(F.Add(a[p], b[p]), c[p]) == F.Add(F.Add(a[p], c[p]), b[p]) { AddLaws(F); }
  }

  // ---- the MAC check ----

  // What verifier i publishes (before masking) about the values `open`.
  function MacError<E(!new)>(F: Field<E>, delta_i: E, open: seq<E>, sh: Lanes<E>): (r: seq<E>)
    requires |sh.mac| == |sh.key| == |open|
    ensures |r| == |open|
  {
    seq(|open|, c requires 0 <= c < |open| => F.Sub(F.Sub(sh.mac[c], sh.key[c]), F.Mul(open[c], delta_i)))
  }

  function MacErrors<E(!new)>(F: Field<E>, deltas: seq<E>, open: seq<E>, shs: seq<Lanes<E>>): (r: seq<seq<E>>)
    requires |deltas| == |shs| && Sized(|open|, shs)
    ensures |r| == |shs| && Rows(|open|, r)
  {
    seq(|shs|, i requires 0 <= i < |shs| => MacError(F, deltas[i], open, shs[i]))
  }

  lemma {:induction false} MacErrorsTotal<E(!new)>(F: Field<E>, deltas: seq<E>, open: seq<E>, shs: seq<Lanes<E>>,
                                                   c: nat)
    requires F.Laws() && |deltas| == |shs| && Sized(|open|, shs) && c < |open|
    ensures Total(F, |open|, MacErrors(F, deltas, open, shs))[c]
         == F.Sub(F.Sub(Total(F, |open|, MacRows(shs))[c], Total(F, |open|, KeyRows(shs))[c]),
                  F.Mul(open[c], Sum(F, deltas)))
  {
    if shs == [] {
      SubLaws(F, F.zero, F.zero);
      Zero(F, open[c]);
    } else {
      MacErrorsTotal(F, deltas[1..], open, shs[1..], c);
      assert MacErrors(F, deltas, open, shs)[1..] == MacErrors(F, deltas[1..], open, shs[1..]);
      assert MacRows(shs)[1..] == MacRows(shs[1..]) && KeyRows(shs)[1..] == KeyRows(shs[1..]);
      SubSums(F, shs[0].mac[c], shs[0].key[c], open[c], deltas[0],
              Total(F, |open|, MacRows(shs[1..]))[c], Total(F, |open|, KeyRows(shs[1..]))[c], Sum(F, deltas[1..]));
    }
  }

  lemma SubSums<E(!new)>(F: Field<E>, m: E, k: E, o: E, d: E, m': E, k': E, d': E)
    requires F.Laws()
    ensures F.Add(F.Sub(F.Sub(m, k), F.Mul(o, d)), F.Sub(F.Sub(m', k'), F.Mul(o, d')))
         == F.Sub(F.Sub(F.Add(m, m'), F.Add(k, k')), F.Mul(o, F.Add(d, d')))
  {
    var a, b := F.Mul(o, d), F.Mul(o, d');
    NegLaws(F, k, k');
    NegLaws(F, a, b);
    assert At3(o, d, d');
    var nk, nk', na, nb := F.Neg(k), F.Neg(k'), F.Neg(a), F.Neg(b);
    assert F.Add(F.Add(F.Add(m, nk), na), F.Add(F.Add(m', nk'), nb))
        == F.Add(F.Add(F.Add(m, m'), F.Add(nk, nk')), F.Add(na, nb)) by { AddLaws(F); }
  }

  lemma MaskedTotal<E(!new)>(F: Field<E>, len: nat, rows: seq<seq<E>>, theta: seq<seq<E>>)
    requires F.Laws() && |rows| == |theta| && Rows(len, rows) && Rows(len, theta)
    requires Total(F, len, theta) == Zeros(F, len)
    ensures Total(F, len, Masked(F, len, rows, theta)) == Total(F, len, rows)
  {
    MaskedSum(F, len, rows, theta);
    var t, z := Total(F, len, rows), Zeros(F, len);
    forall p | 0 <= p < len ensures VAdd(F, t, z)[p] == t[p] { Zero(F, t[p]); }
  }

  function Masked<E(!new)>(F: Field<E>, len: nat, rows: seq<seq<E>>, theta: seq<seq<E>>): (r: seq<seq<E>>)
    requires |rows| == |theta| && Rows(len, rows) && Rows(len, theta)
    ensures |r| == |rows| && Rows(len, r)
  {
    seq(|rows|, i requires 0 <= i < |rows| => VAdd(F, rows[i], theta[i]))
  }

  lemma {:induction false} MaskedSum<E(!new)>(F: Field<E>, len: nat, rows: seq<seq<E>>, theta: seq<seq<E>>)
    requires F.Laws() && |rows| == |theta| && Rows(len, rows) && Rows(len, theta)
    ensures Total(F, len, Masked(F, len, rows, theta)) == VAdd(F, Total(F, len, rows), Total(F, len, theta))
  {
    if rows == [] {
      Zero(F, F.zero);
      assert VAdd(F, Zeros(F, len), Zeros(F, len)) == Zeros(F, len);
    } else {
      MaskedSum(F, len, rows[1..], theta[1..]);
      assert Masked(F, len, rows, theta)[1..] == Masked(F, len, rows[1..], theta[1..]);
      var s, t := Total(F, len, rows[1..]), Total(F, len, theta[1..]);
      forall p | 0 <= p < len
        ensures F.Add(F.Add(rows[0][p], theta[0][p]), F.Add(s[p], t[p])) == F.Add(F.Add(rows[0][p], s[p]),
            F.Add(theta[0][p], t[p]))
      { AddLaws(F); }
    }
  }

  // The MACs vouch for `open`: sum mac = sum key + Delta * open in every entry.
  ghost predicate Vouched<E(!new)>(F: Field<E>, delta: E, open: seq<E>, shs: seq<Lanes<E>>)
    requires Sized(|open|, shs)
  {
    forall c :: 0 <= c < |open| ==>
      Total(F, |open|, MacRows(shs))[c] == F.Add(Total(F, |open|, KeyRows(shs))[c], F.Mul(open[c], delta))
  }

  lemma ErrorFree<E(!new)>(F: Field<E>, m: E, k: E, v: E)
    requires F.Laws()
    ensures F.Sub(F.Sub(m, k), v) == F.zero <==> m == F.Add(k, v)
  {
    SubLaws(F, F.Sub(m, k), v);
    SubLaws(F, m, k);
    SubLaws(F, v, k);
    assert At2(k, v) && At3(m, F.Neg(k), k);
  }

  // Every verifier publishes its masked contribution; they are added up, and acceptance is all zeros.
  method MacCheckZero<E(==, !new)>(F: Field<E>, len: nat, id: nat, rows: seq<seq<E>>, theta: seq<seq<E>>)
    returns (ok: bool, published: seq<seq<E>>)
    requires F.Laws() && |rows| == |theta| && Rows(len, rows) && Rows(len, theta) && id < |rows|
    requires Total(F, len, theta) == Zeros(F, len)
    ensures ok <==> Total(F, len, rows) == Zeros(F, len)
    ensures published == Masked(F, len, rows, theta)
  {
    published := Masked(F, len, rows, theta);
    var sum := Reconstruct(F, len, id, published);
    MaskedTotal(F, len, rows, theta);
    ok := true;
    for c := 0 to len
      invariant ok <==> forall c' :: 0 <= c' < c ==> sum[c'] == F.zero
    {
      if sum[c] != F.zero { ok := false; }
    }
    assert ok ==> sum == Zeros(F, len);
    assert !ok ==> exists c' :: 0 <= c' < len && sum[c'] != Zeros(F, len)[c'];
  }

  /** The final opening accepts exactly when the MACs vouch for the three opened sums and the third
      is the product of the first two; which verifier runs it and the zero masks do not matter. */
  method OpenAndCheck<E(==, !new)>(F: Field<E>, id: nat, deltas: seq<E>, shs: seq<Lanes<E>>, theta: seq<seq<E>>)
    returns (ok: bool, published: seq<seq<E>>)
    requires F.Laws() && |deltas| == |shs| == |theta| && id < |shs| && Sized(3, shs) && Rows(3, theta)
    requires Total(F, 3, theta) == Zeros(F, 3)
    ensures var open := Total(F, 3, ValRows(shs));
            && (ok <==> Vouched(F, Sum(F, deltas), open, shs) && open[2] == F.Mul(open[0], open[1]))
            && published == Masked(F, 3, MacErrors(F, deltas, open, shs), theta)
  {
    var open := Reconstruct(F, 3, id, ValRows(shs));
    var errs := MacErrors(F, deltas, open, shs);
    ok, published := MacCheckZero(F, 3, id, errs, theta);
    MacCheckMeaning(F, deltas, open, shs);
    if open[2] != F.Mul(open[0], open[1]) { ok := false; }
  }

  lemma MacCheckMeaning<E(!new)>(F: Field<E>, deltas: seq<E>, open: seq<E>, shs: seq<Lanes<E>>)
    requires F.Laws() && |deltas| == |shs| && Sized(|open|, shs)
    ensures Total(F, |open|, MacErrors(F, deltas, open, shs)) == Zeros(F, |open|) <==> Vouched(F, Sum(F, deltas), open,
        shs)
  {
    var t, n := Total(F, |open|, MacErrors(F, deltas, open, shs)), |open|;
    forall c | 0 <= c < n
      ensures t[c] == F.zero <==>
              Total(F, n, MacRows(shs))[c] == F.Add(Total(F, n, KeyRows(shs))[c], F.Mul(open[c], Sum(F, deltas)))
    {
      MacErrorsTotal(F, deltas, open, shs, c);
      ErrorFree(F, Total(F, n, MacRows(shs))[c], Total(F, n, KeyRows(shs))[c], F.Mul(open[c], Sum(F, deltas)));
    }
    if t == Zeros(F, n) {
      forall c | 0 <= c < n ensures t[c] == F.zero { assert t[c] == Zeros(F, n)[c]; }
    }
    assert (forall c :: 0 <= c < n ==> t[c] == F.zero) ==> t == Zeros(F, n);
  }

  /** Shares authentic for (x, y, z) are accepted exactly when z = x * y. */
  lemma AcceptsProduct<E(!new)>(F: Field<E>, deltas: seq<E>, x: E, y: E, z: E, shs: seq<Lanes<E>>)
    requires F.Laws() && |deltas| == |shs| && Authentic(F, Sum(F, deltas), [x, y, z], shs)
    ensures var open := Total(F, 3, ValRows(shs));
            Vouched(F, Sum(F, deltas), open, shs) && (open[2] == F.Mul(open[0], open[1]) <==> z == F.Mul(x, y))
  {
    var delta, v := Sum(F, deltas), [x, y, z];
    assert Total(F, 3, ValRows(shs)) == v;
    forall c | 0 <= c < 3
      ensures Total(F, 3, MacRows(shs))[c] == F.Add(Total(F, 3, KeyRows(shs))[c], F.Mul(v[c], delta))
    {
      assert At2(delta, v[c]);
    }
  }

  // ---- wires against public values ----

  // Each verifier's random combination of its MACs, keys and shares.
  function Combined<E(!new)>(F: Field<E>, chi: seq<E>, shs: seq<Lanes<E>>): (r: seq<Lanes<E>>)
    requires Sized(|chi|, shs)
    ensures |r| == |shs| && Sized(1, r)
  {
    seq(|shs|, i requires 0 <= i < |shs| =>
      Lanes([Dot(F, chi, shs[i].mac)], [Dot(F, chi, shs[i].key)], [Dot(F, chi, shs[i].val)]))
  }

  // The verifiers accept claimed values with these coefficients.
  ghost predicate PublicAccepts<E(!new)>(F: Field<E>, delta: E, claimed: seq<E>, chi: seq<E>, shs: seq<Lanes<E>>)
    requires |claimed| == |chi| && Sized(|chi|, shs)
  {
    Vouched(F, delta, [Dot(F, chi, claimed)], Combined(F, chi, shs))
  }

  // How far each MAC is from what the claimed value asks for.
  function Gaps<E(!new)>(F: Field<E>, delta: E, claimed: seq<E>, shs: seq<Lanes<E>>): (r: seq<E>)
    requires Sized(|claimed|, shs)
    ensures |r| == |claimed|
  {
    var n := |claimed|;
    var m, k := Total(F, n, MacRows(shs)), Total(F, n, KeyRows(shs));
    seq(n, c requires 0 <= c < n => F.Sub(m[c], F.Add(k[c], F.Mul(claimed[c], delta))))
  }

  lemma CombinedTotals<E(!new)>(F: Field<E>, chi: seq<E>, shs: seq<Lanes<E>>)
    requires F.Laws() && Sized(|chi|, shs)
    ensures Total(F, 1, MacRows(Combined(F, chi, shs))) == [Dot(F, chi, Total(F, |chi|, MacRows(shs)))]
    ensures Total(F, 1, KeyRows(Combined(F, chi, shs))) == [Dot(F, chi, Total(F, |chi|, KeyRows(shs)))]
  {
    var T: seq<E> -> seq<E> := s => if |s| == |chi| then [Dot(F, chi, s)] else [];
    forall a: seq<E>, b: seq<E> | |a| == |chi| && |b| == |chi| ensures T(VAdd(F, a, b)) == VAdd(F, T(a), T(b)) {
      DotAddRight(F, chi, a, b);
    }
    forall c: E, a: seq<E> | |a| == |chi| ensures T(Scale(F, c, a)) == Scale(F, c, T(a)) {
      DotScaleRight(F, chi, c, a);
    }
    assert MacRows(Combined(F, chi, shs)) == MapRows(T, MacRows(shs));
    assert KeyRows(Combined(F, chi, shs)) == MapRows(T, KeyRows(shs));
    hide Combined;
    LinearTotal(F, T, |chi|, 1, MacRows(shs));
    LinearTotal(F, T, |chi|, 1, KeyRows(shs));
  }

  lemma AcceptsMeans<E(!new)>(F: Field<E>, delta: E, claimed: seq<E>, chi: seq<E>, shs: seq<Lanes<E>>)
    requires F.Laws() && |claimed| == |chi| && Sized(|chi|, shs)
    ensures PublicAccepts(F, delta, claimed, chi, shs)
       <==> Dot(F, chi, Total(F, |chi|, MacRows(shs)))
            == F.Add(Dot(F, chi, Total(F, |chi|, KeyRows(shs))), F.Mul(Dot(F, chi, claimed), delta))
  {
    CombinedTotals(F, chi, shs);
    hide Combined, Total, Dot;
    var open, cs := [Dot(F, chi, claimed)], Combined(F, chi, shs);
    assert Vouched(F, delta, open, cs) <==>
           Total(F, 1, MacRows(cs))[0] == F.Add(Total(F, 1, KeyRows(cs))[0], F.Mul(open[0], delta));
  }

  /** For any shares and any claimed values, right or wrong: they are accepted exactly when the
      combination of the gaps vanishes. */
  lemma PublicAcceptsExactly<E(!new)>(F: Field<E>, delta: E, claimed: seq<E>, chi: seq<E>, shs: seq<Lanes<E>>)
    requires F.Laws() && |claimed| == |chi| && Sized(|chi|, shs)
    ensures PublicAccepts(F, delta, claimed, chi, shs) <==> Dot(F, chi, Gaps(F, delta, claimed, shs)) == F.zero
  {
    var g, k := Gaps(F, delta, claimed, shs), Total(F, |chi|, KeyRows(shs));
    hide *;
    AcceptsMeans(F, delta, claimed, chi, shs);
    GapsClose(F, delta, claimed, shs);
    DotAddRight(F, chi, g, VAdd(F, k, Scale(F, delta, claimed)));
    DotAddRight(F, chi, k, Scale(F, delta, claimed));
    DotScaleRight(F, chi, delta, claimed);
    var d, w := Dot(F, chi, g), F.Add(Dot(F, chi, k), F.Mul(delta, Dot(F, chi, claimed)));
    AddsNothing(F, d, w);
    Swapped(F, delta, Dot(F, chi, claimed));
  }

  lemma AddsNothing<E(!new)>(F: Field<E>, d: E, w: E)
    requires F.Laws()
    ensures F.Add(d, w) == w <==> d == F.zero
  {
    assert At2(d, w) && At2(F.zero, w);
    Zero(F, w);
    if F.Add(d, w) == w { Cancel(F, d, F.zero, w); }
  }

  lemma Swapped<E(!new)>(F: Field<E>, a: E, b: E)
    requires F.Laws()
    ensures F.Mul(a, b) == F.Mul(b, a)
  {
    assert At2(a, b);
  }

  lemma GapsClose<E(!new)>(F: Field<E>, delta: E, claimed: seq<E>, shs: seq<Lanes<E>>)
    requires F.Laws() && Sized(|claimed|, shs)
    ensures VAdd(F, Gaps(F, delta, claimed, shs),
                 VAdd(F, Total(F, |claimed|, KeyRows(shs)), Scale(F, delta, claimed))) == Total(F, |claimed|,
                     MacRows(shs))
  {
    var n := |claimed|;
    var m, k := Total(F, n, MacRows(shs)), Total(F, n, KeyRows(shs));
    forall c | 0 <= c < n
      ensures F.Add(Gaps(F, delta, claimed, shs)[c], F.Add(k[c], F.Mul(delta, claimed[c]))) == m[c]
    {
      SubLaws(F, m[c], F.Add(k[c], F.Mul(claimed[c], delta)));
      assert At2(delta, claimed[c]);
    }
  }

  /** So of the coefficients of a wire whose MAC does not vouch for the claimed value, the others
      fixed, at most one value lets the claim pass. */
  lemma OneCoefficientOpens<E(!new)>(F: Field<E>, delta: E, claimed: seq<E>, chi: seq<E>, shs: seq<Lanes<E>>, j: nat,
                                     a: E, b: E)
    requires F.Laws() && |claimed| == |chi| && Sized(|chi|, shs) && j < |chi|
    requires Gaps(F, delta, claimed, shs)[j] != F.zero
    requires PublicAccepts(F, delta, claimed, chi[j := a], shs) && PublicAccepts(F, delta, claimed, chi[j := b], shs)
    ensures a == b
  {
    hide PublicAccepts, Gaps;
    var g := Gaps(F, delta, claimed, shs);
    PublicAcceptsExactly(F, delta, claimed, chi[j := a], shs);
    PublicAcceptsExactly(F, delta, claimed, chi[j := b], shs);
    DotComm(F, chi[j := a], g);
    DotComm(F, chi[j := b], g);
    OneCoefficient(F, g, chi, j, a, b);
  }

  /** Of wires that are authentic for v, the gaps are Delta times the differences; so with a nonzero
      Delta exactly the wrongly claimed wires have one. */
  lemma AuthenticGaps<E(!new)>(F: Field<E>, delta: E, v: seq<E>, claimed: seq<E>, shs: seq<Lanes<E>>, j: nat)
    requires F.Laws() && |v| == |claimed| && j < |v| && Authentic(F, delta, v, shs)
    ensures Gaps(F, delta, claimed, shs)[j] == F.Mul(F.Sub(v[j], claimed[j]), delta)
    ensures delta != F.zero ==> (Gaps(F, delta, claimed, shs)[j] == F.zero <==> v[j] == claimed[j])
  {
    var k, d := Total(F, |v|, KeyRows(shs))[j], F.Sub(v[j], claimed[j]);
    GapIdentity(F, k, delta, v[j], claimed[j]);
    SubLaws(F, v[j], claimed[j]);
    Zero(F, delta);
    if F.Mul(d, delta) == F.zero { NoZeroDivisors(F, d, delta); }
  }

  lemma GapIdentity<E(!new)>(F: Field<E>, k: E, delta: E, v: E, c: E)
    requires F.Laws()
    ensures F.Sub(F.Add(k, F.Mul(delta, v)), F.Add(k, F.Mul(c, delta))) == F.Mul(F.Sub(v, c), delta)
  {
    var d := F.Sub(v, c);
    var p, q := F.Mul(d, delta), F.Add(k, F.Mul(c, delta));
    SubLaws(F, v, c);
    assert F.Add(k, F.Mul(delta, F.Add(d, c))) == F.Add(p, q) by { Ring(F); }
    SubLaws(F, F.Add(p, q), q);
    assert At2(p, q);
    Cancel(F, F.Sub(F.Add(p, q), q), p, q);
  }

  lemma MacsOfWires<E(!new)>(F: Field<E>, delta: E, v: seq<E>, chi: seq<E>, shs: seq<Lanes<E>>) returns (k: E)
    requires F.Laws() && |v| == |chi| && Authentic(F, delta, v, shs)
    ensures Sized(|chi|, shs) && k == Dot(F, chi, Total(F, |chi|, KeyRows(shs)))
    ensures Dot(F, chi, Total(F, |chi|, MacRows(shs))) == F.Add(k, F.Mul(delta, Dot(F, chi, v)))
  {
    var keys := Total(F, |chi|, KeyRows(shs));
    assert Total(F, |chi|, MacRows(shs)) == VAdd(F, keys, Scale(F, delta, v));
    hide *;
    k := Dot(F, chi, keys);
    DotAddRight(F, chi, keys, Scale(F, delta, v));
    DotScaleRight(F, chi, delta, v);
  }

  /** Of wires that are authentic for v, the MACs vouch for the combination of the claimed values
      exactly when the combination of the differences, times Delta, vanishes. */
  lemma PublicCheckExact<E(!new)>(F: Field<E>, delta: E, v: seq<E>, claimed: seq<E>, chi: seq<E>, shs: seq<Lanes<E>>)
    requires F.Laws() && |v| == |claimed| == |chi| && Authentic(F, delta, v, shs)
    ensures PublicAccepts(F, delta, claimed, chi, shs)
       <==> F.Mul(F.Sub(Dot(F, chi, v), Dot(F, chi, claimed)), delta) == F.zero
    ensures v == claimed ==> PublicAccepts(F, delta, claimed, chi, shs)
  {
    hide *;
    var k := MacsOfWires(F, delta, v, chi, shs);
    AcceptsMeans(F, delta, claimed, chi, shs);
    var w := Dot(F, chi, v);
    PublicIdentity(F, k, delta, w, Dot(F, chi, claimed));
    NoDifference(F, w, delta);
  }

  lemma NoDifference<E(!new)>(F: Field<E>, w: E, delta: E)
    requires F.Laws()
    ensures F.Mul(F.Sub(w, w), delta) == F.zero
  {
    SubLaws(F, w, w);
    Zero(F, delta);
  }

  /** The check of wires against public values, as every verifier runs it, on any shares: it decides
      whether the combination of the gaps vanishes; on authentic ones, whether the challenge hides the
      differences, and the true values always pass. */
  method CheckPublic<E(==, !new)>(F: Field<E>, id: nat, deltas: seq<E>, ghost v: seq<E>, claimed: seq<E>, chi: seq<E>,
                                  shs: seq<Lanes<E>>, theta: seq<seq<E>>) returns (ok: bool, published: seq<seq<E>>)
    requires F.Laws() && |deltas| == |shs| == |theta| && id < |shs| && |v| == |claimed| == |chi|
    requires Sized(|chi|, shs) && Rows(1, theta) && Total(F, 1, theta) == Zeros(F, 1)
    ensures ok <==> PublicAccepts(F, Sum(F, deltas), claimed, chi, shs)
    ensures ok <==> Dot(F, chi, Gaps(F, Sum(F, deltas), claimed, shs)) == F.zero
    ensures Authentic(F, Sum(F, deltas), v, shs) ==>
              && (ok <==> F.Mul(F.Sub(Dot(F, chi, v), Dot(F, chi, claimed)), Sum(F, deltas)) == F.zero)
              && (v == claimed ==> ok)
    ensures published == Masked(F, 1, MacErrors(F, deltas, [Dot(F, chi, claimed)], Combined(F, chi, shs)), theta)
  {
    var open, cs := [Dot(F, chi, claimed)], Combined(F, chi, shs);
    PublicAcceptsExactly(F, Sum(F, deltas), claimed, chi, shs);
    if Authentic(F, Sum(F, deltas), v, shs) { PublicCheckExact(F, Sum(F, deltas), v, claimed, chi, shs); }
    ok, published := MacCheckZero(F, 1, id, MacErrors(F, deltas, open, cs), theta);
    MacCheckMeaning(F, deltas, open, cs);
  }

  lemma PublicIdentity<E(!new)>(F: Field<E>, k: E, delta: E, w: E, c: E)
    requires F.Laws()
    ensures F.Add(k, F.Mul(delta, w)) == F.Add(k, F.Mul(c, delta)) <==> F.Mul(F.Sub(w, c), delta) == F.zero
  {
    var d := F.Sub(w, c);
    SubLaws(F, w, c);
    assert At3(delta, d, c) && At2(delta, w) && At2(delta, c) && At2(delta, d);
    var p, q := F.Mul(delta, d), F.Mul(delta, c);
    assert F.Mul(delta, w) == F.Add(p, q);
    assert F.Add(k, F.Add(p, q)) == F.Add(p, F.Add(k, q)) by { AddLaws(F); }
    Zero(F, F.Add(k, q));
    if F.Add(k, F.Mul(delta, w)) == F.Add(k, q) { Cancel(F, p, F.zero, F.Add(k, q)); }
  }
}
