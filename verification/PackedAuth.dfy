/** Packed authenticated sharings: how pairwise correlations become additive shares of k secrets
    with a MAC under the sum of the verifiers' keys, how the keys themselves are shared, and why
    adding a packed sharing of differences keeps every MAC. */
module PackedAuth {
  import opened Algebra
  import opened Polynomials
  import opened Interpolation
  import opened AuthShares
  import opened PackedPoly

  // ---- conversion is linear ----

  function ConvertMap<E(!new)>(F: Field<E>, from: seq<E>, to: seq<E>): seq<E> -> seq<E> {
    v => if |v| == |from| then Convert(F, from, to, v) else []
  }

  lemma ConvertLinear<E(!new)>(F: Field<E>, from: seq<E>, to: seq<E>)
    requires F.Laws()
    ensures Linear(F, ConvertMap(F, from, to), |from|, |to|)
  {
    var T, n := ConvertMap(F, from, to), |from|;
    forall a: seq<E>, b: seq<E> | |a| == n && |b| == n ensures T(VAdd(F, a, b)) == VAdd(F, T(a), T(b)) {
      forall i | 0 <= i < |to| ensures T(VAdd(F, a, b))[i] == VAdd(F, T(a), T(b))[i] {
        DotAddRight(F, LagrangeRow(F, from, to[i]), a, b);
      }
    }
    forall c: E, a: seq<E> | |a| == n ensures T(Scale(F, c, a)) == Scale(F, c, T(a)) {
      forall i | 0 <= i < |to| ensures T(Scale(F, c, a))[i] == Scale(F, c, T(a))[i] {
        DotScaleRight(F, LagrangeRow(F, from, to[i]), c, a);
      }
    }
  }

  lemma {:induction false} TotalAdd<E(!new)>(F: Field<E>, len: nat, a: seq<seq<E>>, b: seq<seq<E>>, sums: seq<seq<E>>)
    requires F.Laws() && |a| == |b| == |sums| && Rows(len, a) && Rows(len, b)
    requires forall i :: 0 <= i < |a| ==> sums[i] == VAdd(F, a[i], b[i])
    ensures Rows(len, sums) && Total(F, len, sums) == VAdd(F, Total(F, len, a), Total(F, len, b))
  {
    if a == [] {
      Zero(F, F.zero);
    } else {
      TotalAdd(F, len, a[1..], b[1..], sums[1..]);
      var ta, tb := Total(F, len, a[1..]), Total(F, len, b[1..]);
      assert sums[0] == VAdd(F, a[0], b[0]);
      forall p | 0 <= p < len
        ensures F.Add(F.Add(a[0][p], b[0][p]), F.Add(ta[p], tb[p])) == F.Add(F.Add(a[0][p], ta[p]),
            F.Add(b[0][p], tb[p]))
      {
        AddLaws(F);
      }
    }
  }

  // ---- random sharings from pairwise correlations ----

  // What one extend leaves verifier i: its value, its MAC on the value under every other
  // verifier's key, and its key for every other verifier's value.
  datatype Corr<E> = Corr(u: E, macs: seq<E>, keys: seq<E>)

  // M^i_j = K^j_i + u^i * Delta_j for every pair of verifiers.
  ghost predicate Pairwise<E(!new)>(F: Field<E>, deltas: seq<E>, cs: seq<Corr<E>>) {
    && |deltas| == |cs|
    && (forall i :: 0 <= i < |cs| ==> |cs[i].macs| == |cs[i].keys| == |cs|)
    && forall i, j :: 0 <= i < |cs| && 0 <= j < |cs| && i != j ==>
         cs[i].macs[j] == F.Add(cs[j].keys[i], F.Mul(cs[i].u, deltas[j]))
  }

  function Without<E(!new)>(F: Field<E>, s: seq<E>, i: nat): (r: seq<E>)
    ensures |r| == |s|
  {
    seq(|s|, j requires 0 <= j < |s| => if j == i then F.zero else s[j])
  }

  // The own key part u^i * Delta_i and the MACs under all the other keys.
  function MacSum<E(!new)>(F: Field<E>, i: nat, delta_i: E, c: Corr<E>): E {
    F.Add(F.Mul(c.u, delta_i), Sum(F, Without(F, c.macs, i)))
  }

  function RandShare<E(!new)>(F: Field<E>, from: seq<E>, to: seq<E>, i: nat, delta_i: E, c: Corr<E>): Lanes<E>
    requires i < |from| == |c.keys|
  {
    Lanes(OneShare(F, from, to, i, MacSum(F, i, delta_i, c)),
          Convert(F, from, to, Without(F, c.keys, i)),
          OneShare(F, from, to, i, c.u))
  }

  function RandShares<E(!new)>(F: Field<E>, from: seq<E>, to: seq<E>, deltas: seq<E>,
                               cs: seq<Corr<E>>): (r: seq<Lanes<E>>)
    requires |cs| == |deltas| == |from| && forall i :: 0 <= i < |cs| ==> |cs[i].keys| == |cs|
    ensures |r| == |cs|
  {
    seq(|cs|, i requires 0 <= i < |cs| => RandShare(F, from, to, i, deltas[i], cs[i]))
  }

  function Us<E>(cs: seq<Corr<E>>): (r: seq<E>)
    ensures |r| == |cs|
  {
    seq(|cs|, i requires 0 <= i < |cs| => cs[i].u)
  }

  lemma {:induction false} SumUnit<E(!new)>(F: Field<E>, s: seq<E>, i: nat, x: E)
    requires F.Laws() && i < |s| && forall j :: 0 <= j < |s| ==> s[j] == if j == i then x else F.zero
    ensures Sum(F, s) == x
  {
    Zero(F, x);
    if i == 0 {
      assert s[1..] == Zeros(F, |s| - 1);
      SumZeros(F, |s| - 1);
    } else {
      SumUnit(F, s[1..], i - 1, x);
    }
  }

  // Verifier p's MAC sum is the sum of the keys for its value and u^p times all the keys.
  lemma MacOfOne<E(!new)>(F: Field<E>, deltas: seq<E>, cs: seq<Corr<E>>, p: nat, col: seq<E>)
    requires F.Laws() && Pairwise(F, deltas, cs) && p < |cs| && |col| == |cs|
    requires forall j :: 0 <= j < |cs| ==> col[j] == if j == p then F.zero else cs[j].keys[p]
    ensures MacSum(F, p, deltas[p], cs[p]) == F.Add(Sum(F, col), F.Mul(Sum(F, deltas), cs[p].u))
  {
    var n, u, own := |cs|, cs[p].u, F.Mul(cs[p].u, deltas[p]);
    var unit := seq(n, j requires 0 <= j < n => if j == p then own else F.zero);
    var others := Without(F, cs[p].macs, p);
    SumUnit(F, unit, p, own);
    forall j | 0 <= j < n ensures VAdd(F, unit, others)[j] == VAdd(F, col, Scale(F, u, deltas))[j] {
      Zero(F, own);
      Zero(F, cs[p].macs[j]);
      Zero(F, own);
    }
    assert VAdd(F, unit, others) == VAdd(F, col, Scale(F, u, deltas));
    SumAdd(F, unit, others);
    SumAdd(F, col, Scale(F, u, deltas));
    SumScale(F, u, deltas);
    assert At2(u, Sum(F, deltas));
  }

  function KeyVectors<E(!new)>(F: Field<E>, cs: seq<Corr<E>>): (r: seq<seq<E>>)
    ensures |r| == |cs|
  {
    seq(|cs|, i requires 0 <= i < |cs| => Without(F, cs[i].keys, i))
  }

  function MacSums<E(!new)>(F: Field<E>, deltas: seq<E>, cs: seq<Corr<E>>): (r: seq<E>)
    requires |deltas| == |cs|
    ensures |r| == |cs|
  {
    seq(|cs|, i requires 0 <= i < |cs| => MacSum(F, i, deltas[i], cs[i]))
  }

  lemma MacsAreKeys<E(!new)>(F: Field<E>, deltas: seq<E>, cs: seq<Corr<E>>)
    requires F.Laws() && Pairwise(F, deltas, cs)
    ensures Rows(|cs|, KeyVectors(F, cs))
    ensures MacSums(F, deltas, cs) == VAdd(F, Total(F, |cs|, KeyVectors(F, cs)), Scale(F, Sum(F, deltas), Us(cs)))
  {
    var n, ks := |cs|, KeyVectors(F, cs);
    forall p | 0 <= p < n
      ensures MacSums(F, deltas, cs)[p] == VAdd(F, Total(F, n, ks), Scale(F, Sum(F, deltas), Us(cs)))[p]
    {
      TotalColumn(F, n, ks, p);
      MacOfOne(F, deltas, cs, p, Column(ks, p));
    }
  }

  /** Pairwise correlations, converted locally by every verifier, are authenticated shares of the
      k values that the prover reads off its own copies of the u^i. */
  lemma RandSharesAuthentic<E(!new)>(F: Field<E>, from: seq<E>, to: seq<E>, deltas: seq<E>, cs: seq<Corr<E>>)
    requires F.Laws() && |cs| == |from| && Pairwise(F, deltas, cs)
    ensures Authentic(F, Sum(F, deltas), Convert(F, from, to, Us(cs)), RandShares(F, from, to, deltas, cs))
  {
    var shs, T, n, k := RandShares(F, from, to, deltas, cs), ConvertMap(F, from, to), |from|, |to|;
    var ms, ks, us, delta := MacSums(F, deltas, cs), KeyVectors(F, cs), Us(cs), Sum(F, deltas);
    assert MacRows(shs) == AllShares(F, from, to, ms);
    assert ValRows(shs) == AllShares(F, from, to, us);
    assert Rows(n, ks);
    assert KeyRows(shs) == MapRows(T, ks);
    SharesAddUp(F, from, to, ms);
    SharesAddUp(F, from, to, us);
    ConvertLinear(F, from, to);
    LinearTotal(F, T, n, k, ks);
    MacsAreKeys(F, deltas, cs);
    LinearMac(F, T, n, k, Total(F, n, ks), delta, us);
  }

  lemma LinearMac<E(!new)>(F: Field<E>, T: seq<E> -> seq<E>, n: nat, k: nat, keys: seq<E>, delta: E, us: seq<E>)
    requires Linear(F, T, n, k) && |keys| == |us| == n
    ensures T(VAdd(F, keys, Scale(F, delta, us))) == VAdd(F, T(keys), Scale(F, delta, T(us)))
  {
  }

  // ---- buffers ----

  // The k entries of sharing `ptr` in a buffer, and in each lane of a verifier's.
  function Part<E>(buf: seq<E>, k: nat, ptr: nat): (r: seq<E>)
    requires k * ptr + k <= |buf|
    ensures |r| == k
  {
    buf[k * ptr..k * ptr + k]
  }

  ghost predicate LanesFit<E>(buf: Lanes<E>, k: nat, ptr: nat) {
    k * ptr + k <= |buf.mac| && k * ptr + k <= |buf.key| && k * ptr + k <= |buf.val|
  }

  function LanesPart<E>(buf: Lanes<E>, k: nat, ptr: nat): Lanes<E>
    requires LanesFit(buf, k, ptr)
  {
    Lanes(Part(buf.mac, k, ptr), Part(buf.key, k, ptr), Part(buf.val, k, ptr))
  }

  // ---- the keys, shared with one of them hidden at a secret point ----

  // The values v at the party points are those of a polynomial of degree at most t through (x, key).
  ghost predicate SharesKey<E(!new)>(F: Field<E>, from: seq<E>, t: nat, x: E, key: E, v: seq<E>) {
    exists d: seq<E> :: |d| == t + 1 && Evals(F, d, from) == v && Eval(F, d, x) == key
  }

  // What one dealer hands out: t random values at the first t party points, key at x.
  function Dealt<E(!new)>(F: Field<E>, from: seq<E>, t: nat, x: E, key: E, rand: seq<E>): (r: seq<E>)
    requires t <= |from| && |rand| == t
    ensures |r| == |from|
  {
    rand + Convert(F, [x] + from[..t], from[t..], [key] + rand)
  }

  lemma DealtSharesKey<E(!new)>(F: Field<E>, from: seq<E>, t: nat, x: E, key: E, rand: seq<E>)
    requires F.Laws() && t <= |from| && |rand| == t && Distinct([x] + from)
    ensures SharesKey(F, from, t, x, key, Dealt(F, from, t, x, key, rand))
  {
    var pts, vals, r := [x] + from[..t], [key] + rand, Dealt(F, from, t, x, key, rand);
    assert Distinct(pts) by {
      forall i, j | 0 <= i < j < |pts| ensures pts[i] != pts[j] {
        assert pts[i] == ([x] + from)[i] && pts[j] == ([x] + from)[j];
      }
    }
    var d := Through(F, pts, vals);
    ThroughPoints(F, pts, vals);
    assert Evals(F, d, pts)[0] == key;
    forall i | 0 <= i < |from| ensures Evals(F, d, from)[i] == r[i] {
      if i < t {
        assert Evals(F, d, pts)[i + 1] == vals[i + 1] == rand[i] && pts[i + 1] == from[i];
      } else {
        EvalThrough(F, pts, vals, from[i]);
        assert from[t..][i - t] == from[i];
      }
    }
    assert Evals(F, d, from) == r;
  }

  lemma SharesKeyAdd<E(!new)>(F: Field<E>, from: seq<E>, t: nat, x: E, a: E, b: E, v: seq<E>, w: seq<E>)
    requires F.Laws() && SharesKey(F, from, t, x, a, v) && SharesKey(F, from, t, x, b, w)
    ensures |v| == |w| == |from| && SharesKey(F, from, t, x, F.Add(a, b), VAdd(F, v, w))
  {
    var c :| |c| == t + 1 && Evals(F, c, from) == v && Eval(F, c, x) == a;
    var d :| |d| == t + 1 && Evals(F, d, from) == w && Eval(F, d, x) == b;
    var e := PAdd(F, c, d);
    forall i | 0 <= i < |from| ensures Evals(F, e, from)[i] == VAdd(F, v, w)[i] { EvalAdd(F, c, d, from[i]); }
    assert Evals(F, e, from) == VAdd(F, v, w);
    EvalAdd(F, c, d, x);
  }

  /** The dealers' sharings add up to a sharing of the sum of their keys. */
  lemma {:induction false} KeySharesAdd<E(!new)>(F: Field<E>, from: seq<E>, t: nat, x: E, keys: seq<E>,
                                                 dealt: seq<seq<E>>)
    requires F.Laws() && |keys| == |dealt| && Rows(|from|, dealt)
    requires forall i :: 0 <= i < |keys| ==> SharesKey(F, from, t, x, keys[i], dealt[i])
    ensures SharesKey(F, from, t, x, Sum(F, keys), Total(F, |from|, dealt))
  {
    if keys == [] {
      var d := Zeros(F, t + 1);
      forall i | 0 <= i < |from| ensures Evals(F, d, from)[i] == F.zero { EvalZeros(F, t + 1, from[i]); }
      assert Evals(F, d, from) == Zeros(F, |from|);
      EvalZeros(F, t + 1, x);
    } else {
      KeySharesAdd(F, from, t, x, keys[1..], dealt[1..]);
      SharesKeyAdd(F, from, t, x, keys[0], Sum(F, keys[1..]), dealt[0], Total(F, |from|, dealt[1..]));
    }
  }

  // ---- adding a packed sharing of differences ----

  // Verifier `id`'s shares of the k wires: its share s of the packed differences, converted, on
  // top of the preprocessed ones, and the MAC of the difference from s times its key share.
  function GenShare<E(!new)>(F: Field<E>, from: seq<E>, to: seq<E>, id: nat, s: E, keyShare: seq<E>,
                             base: Lanes<E>): Lanes<E>
    requires id < |from| && |keyShare| == |to| == |base.mac| == |base.val|
  {
    Lanes(VAdd(F, base.mac, MacParts(F, from, to, id, s, keyShare)), base.key,
          VAdd(F, base.val, OneShare(F, from, to, id, s)))
  }

  function MacParts<E(!new)>(F: Field<E>, from: seq<E>, to: seq<E>, id: nat, s: E, keyShare: seq<E>): (r: seq<E>)
    requires id < |from| && |keyShare| == |to|
    ensures |r| == |to|
  {
    seq(|to|, m requires 0 <= m < |to| => F.Mul(LagrangeCoeff(F, from, id, to[m]), F.Mul(s, keyShare[m])))
  }

  function GenShares<E(!new)>(F: Field<E>, from: seq<E>, to: seq<E>, s: seq<E>, keyShares: seq<seq<E>>,
                              base: seq<Lanes<E>>): (r: seq<Lanes<E>>)
    requires |s| == |keyShares| == |base| == |from| && Rows(|to|, keyShares) && Sized(|to|, base)
    ensures |r| == |from|
  {
    seq(|from|, i requires 0 <= i < |from| => GenShare(F, from, to, i, s[i], keyShares[i], base[i]))
  }

  function AllMacParts<E(!new)>(F: Field<E>, from: seq<E>, to: seq<E>, s: seq<E>,
                                keyShares: seq<seq<E>>): (r: seq<seq<E>>)
    requires |s| == |keyShares| == |from| && Rows(|to|, keyShares)
    ensures |r| == |from| && Rows(|to|, r)
  {
    seq(|from|, i requires 0 <= i < |from| => MacParts(F, from, to, i, s[i], keyShares[i]))
  }

  /** Degree (k-1) + (n-k) = n-1: the local products are a sharing of difference times key, and n
      parties suffice to read it off. */
  lemma ProductSharing<E(!new)>(F: Field<E>, from: seq<E>, to: seq<E>, diff: seq<E>, m: nat, key: E, v: seq<E>)
    requires F.Laws() && Distinct(from) && Distinct(to) && |diff| == |to| <= |from| && m < |to| && |v| == |from|
    requires SharesKey(F, from, |from| - |to|, to[m], key, v)
    ensures ValueAt(F, from, Hadamard(F, Convert(F, to, from, diff), v), to[m]) == F.Mul(diff[m], key)
  {
    var c := Through(F, to, diff);
    var d :| |d| == |from| - |to| + 1 && Evals(F, d, from) == v && Eval(F, d, to[m]) == key;
    var e, s := PMul(F, c, d), Convert(F, to, from, diff);
    assert |e| == |from|;
    forall i | 0 <= i < |from| ensures Evals(F, e, from)[i] == Hadamard(F, s, v)[i] {
      EvalMul(F, c, d, from[i]);
      EvalThrough(F, to, diff, from[i]);
    }
    assert Evals(F, e, from) == Hadamard(F, s, v);
    LagrangeExact(F, e, from, to[m]);
    EvalMul(F, c, d, to[m]);
    ThroughPoints(F, to, diff);
    assert Evals(F, c, to)[m] == diff[m];
  }

  lemma MacPartsTotal<E(!new)>(F: Field<E>, from: seq<E>, to: seq<E>, diff: seq<E>, delta: E, keyShares: seq<seq<E>>)
    requires F.Laws() && Distinct(from) && Distinct(to) && |diff| == |to| <= |from|
    requires |keyShares| == |from| && Rows(|to|, keyShares)
    requires forall m :: 0 <= m < |to| ==> SharesKey(F, from, |from| - |to|, to[m], delta, Column(keyShares, m))
    ensures Total(F, |to|, AllMacParts(F, from, to, Convert(F, to, from, diff), keyShares)) == Scale(F, delta, diff)
  {
    var s := Convert(F, to, from, diff);
    var rows := AllMacParts(F, from, to, s, keyShares);
    forall m | 0 <= m < |to| ensures Total(F, |to|, rows)[m] == Scale(F, delta, diff)[m] {
      TotalColumn(F, |to|, rows, m);
      var v, row := Column(keyShares, m), LagrangeRow(F, from, to[m]);
      ProductSharing(F, from, to, diff, m, delta, v);
      DotIsSum(F, row, Hadamard(F, s, v));
      assert Column(rows, m) == Hadamard(F, row, Hadamard(F, s, v));
      assert At2(delta, diff[m]);
    }
  }

  /** A batch of wires arrives: from authenticated shares of k preprocessed secrets and the packed
      sharing of the differences, the verifiers compute authenticated shares of the wires. */
  lemma GenSharesAuthentic<E(!new)>(F: Field<E>, from: seq<E>, to: seq<E>, secrets: seq<E>, diff: seq<E>, delta: E,
                                    keyShares: seq<seq<E>>, base: seq<Lanes<E>>)
    requires F.Laws() && Distinct(from) && Distinct(to) && |secrets| == |diff| == |to| <= |from|
    requires |keyShares| == |base| == |from| && Rows(|to|, keyShares) && Authentic(F, delta, secrets, base)
    requires forall m :: 0 <= m < |to| ==> SharesKey(F, from, |from| - |to|, to[m], delta, Column(keyShares, m))
    ensures Authentic(F, delta, VAdd(F, secrets, diff),
                      GenShares(F, from, to, Convert(F, to, from, diff), keyShares, base))
  {
    var s, k := Convert(F, to, from, diff), |to|;
    var shs, parts, ones := GenShares(F, from, to, s, keyShares, base), AllMacParts(F, from, to, s,
        keyShares), AllShares(F, from, to, s);
    hide GenShares, AllMacParts, AllShares, Total, SharesKey, Convert, MacRows, ValRows, KeyRows;
    GenTotals(F, from, to, s, keyShares, base);
    MacPartsTotal(F, from, to, diff, delta, keyShares);
    SharesAddUp(F, from, to, s);
    RoundTrip(F, to, from, diff);
    AddedAuthentic(F, delta, secrets, diff, base, shs);
  }

  lemma GenTotals<E(!new)>(F: Field<E>, from: seq<E>, to: seq<E>, s: seq<E>, keyShares: seq<seq<E>>,
                           base: seq<Lanes<E>>)
    requires F.Laws() && |s| == |keyShares| == |base| == |from| && Rows(|to|, keyShares) && Sized(|to|, base)
    ensures var shs := GenShares(F, from, to, s, keyShares, base);
            && Sized(|to|, shs) && KeyRows(shs) == KeyRows(base)
            && Rows(|to|, MacRows(shs)) && Rows(|to|, ValRows(shs)) && Rows(|to|, MacRows(base)) && Rows(|to|,
                ValRows(base))
            && Total(F, |to|, MacRows(shs)) == VAdd(F, Total(F, |to|, MacRows(base)),
                                                    Total(F, |to|, AllMacParts(F, from, to, s, keyShares)))
            && Total(F, |to|, ValRows(shs)) == VAdd(F, Total(F, |to|, ValRows(base)),
                                                    Total(F, |to|, AllShares(F, from, to, s)))
  {
    var shs, parts, ones := GenShares(F, from, to, s, keyShares, base), AllMacParts(F, from, to, s,
        keyShares), AllShares(F, from, to, s);
    hide Total;
    TotalAdd(F, |to|, MacRows(base), parts, MacRows(shs));
    TotalAdd(F, |to|, ValRows(base), ones, ValRows(shs));
    assert KeyRows(shs) == KeyRows(base);
  }

  lemma AddedAuthentic<E(!new)>(F: Field<E>, delta: E, v: seq<E>, diff: seq<E>, base: seq<Lanes<E>>, shs: seq<Lanes<E>>)
    requires F.Laws() && |v| == |diff| && Authentic(F, delta, v, base) && Sized(|v|, shs)
    requires KeyRows(shs) == KeyRows(base)
    requires Total(F, |v|, ValRows(shs)) == VAdd(F, v, diff)
    requires Total(F, |v|, MacRows(shs)) == VAdd(F, Total(F, |v|, MacRows(base)), Scale(F, delta, diff))
    ensures Authentic(F, delta, VAdd(F, v, diff), shs)
  {
    var tk := Total(F, |v|, KeyRows(base));
    hide Total;
    forall p | 0 <= p < |v|
      ensures F.Add(F.Add(tk[p], F.Mul(delta, v[p])), F.Mul(delta, diff[p])) == F.Add(tk[p],
          F.Mul(delta, F.Add(v[p], diff[p])))
    {
      assert At3(delta, v[p], diff[p]) && At3(tk[p], F.Mul(delta, v[p]), F.Mul(delta, diff[p]));
    }
  }
}
