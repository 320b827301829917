/** Authenticated additive shares. Verifier i holds (mac_i, key_i, share_i) of a value v and
    the key share Delta_i; together sum share_i = v and sum mac_i = sum key_i + Delta * v.
    Whatever public linear map the verifiers all apply to their lanes keeps that relation. */
module AuthShares {
  import opened Algebra

  // One verifier's shares of a vector of values, lane by lane.
  datatype Lanes<E> = Lanes(mac: seq<E>, key: seq<E>, val: seq<E>)

  function MacRows<E>(shs: seq<Lanes<E>>): (r: seq<seq<E>>)
    ensures |r| == |shs|
  {
    seq(|shs|, i requires 0 <= i < |shs| => shs[i].mac)
  }

  function KeyRows<E>(shs: seq<Lanes<E>>): (r: seq<seq<E>>)
    ensures |r| == |shs|
  {
    seq(|shs|, i requires 0 <= i < |shs| => shs[i].key)
  }

  function ValRows<E>(shs: seq<Lanes<E>>): (r: seq<seq<E>>)
    ensures |r| == |shs|
  {
    seq(|shs|, i requires 0 <= i < |shs| => shs[i].val)
  }

  ghost predicate Sized<E>(len: nat, shs: seq<Lanes<E>>) {
    forall i :: 0 <= i < |shs| ==> |shs[i].mac| == |shs[i].key| == |shs[i].val| == len
  }

  ghost predicate Authentic<E(!new)>(F: Field<E>, delta: E, v: seq<E>, shs: seq<Lanes<E>>) {
    && Sized(|v|, shs)
    && Total(F, |v|, ValRows(shs)) == v
    && Total(F, |v|, MacRows(shs)) == VAdd(F, Total(F, |v|, KeyRows(shs)), Scale(F, delta, v))
  }

  // ---- linear maps ----

  ghost predicate Linear<E(!new)>(F: Field<E>, T: seq<E> -> seq<E>, n: nat, k: nat) {
    && (forall a: seq<E> :: |a| == n ==> |T(a)| == k)
    && (forall a: seq<E>, b: seq<E> :: |a| == n && |b| == n ==> T(VAdd(F, a, b)) == VAdd(F, T(a), T(b)))
    && (forall c: E, a: seq<E> :: |a| == n ==> T(Scale(F, c, a)) == Scale(F, c, T(a)))
  }

  function MapRows<E>(T: seq<E> -> seq<E>, rows: seq<seq<E>>): (r: seq<seq<E>>)
    ensures |r| == |rows|
  {
    seq(|rows|, i requires 0 <= i < |rows| => T(rows[i]))
  }

  lemma LinearZeros<E(!new)>(F: Field<E>, T: seq<E> -> seq<E>, n: nat, k: nat)
    requires F.Laws() && Linear(F, T, n, k)
    ensures T(Zeros(F, n)) == Zeros(F, k)
  {
    var z := Zeros(F, n);
    assert Scale(F, F.zero, z) == z by { Zero(F, F.zero); }
    assert |T(z)| == k;
    assert Scale(F, F.zero, T(z)) == Zeros(F, k) by {
      forall i | 0 <= i < k ensures F.Mul(F.zero, T(z)[i]) == F.zero { Zero(F, T(z)[i]); }
    }
  }

  lemma {:induction false} LinearTotal<E(!new)>(F: Field<E>, T: seq<E> -> seq<E>, n: nat, k: nat, rows: seq<seq<E>>)
    requires F.Laws() && Linear(F, T, n, k) && Rows(n, rows)
    ensures Rows(k, MapRows(T, rows)) && Total(F, k, MapRows(T, rows)) == T(Total(F, n, rows))
  {
    if rows == [] {
      LinearZeros(F, T, n, k);
    } else {
      LinearTotal(F, T, n, k, rows[1..]);
      assert MapRows(T, rows)[1..] == MapRows(T, rows[1..]);
    }
  }

  function MapLanes<E>(T: seq<E> -> seq<E>, sh: Lanes<E>): Lanes<E> {
    Lanes(T(sh.mac), T(sh.key), T(sh.val))
  }

  function MapAll<E>(T: seq<E> -> seq<E>, shs: seq<Lanes<E>>): (r: seq<Lanes<E>>)
    ensures |r| == |shs|
  {
    seq(|shs|, i requires 0 <= i < |shs| => MapLanes(T, shs[i]))
  }

  /** Linear maps keep authenticity: shares of v become shares of T(v). */
  lemma AuthLinear<E(!new)>(F: Field<E>, T: seq<E> -> seq<E>, k: nat, delta: E, v: seq<E>, shs: seq<Lanes<E>>)
    requires F.Laws() && Linear(F, T, |v|, k) && Authentic(F, delta, v, shs)
    ensures Authentic(F, delta, T(v), MapAll(T, shs))
  {
    var n := |v|;
    assert ValRows(MapAll(T, shs)) == MapRows(T, ValRows(shs));
    assert MacRows(MapAll(T, shs)) == MapRows(T, MacRows(shs));
    assert KeyRows(MapAll(T, shs)) == MapRows(T, KeyRows(shs));
    LinearTotal(F, T, n, k, ValRows(shs));
    LinearTotal(F, T, n, k, MacRows(shs));
    LinearTotal(F, T, n, k, KeyRows(shs));
    var tk := Total(F, n, KeyRows(shs));
    assert T(VAdd(F, tk, Scale(F, delta, v))) == VAdd(F, T(tk), T(Scale(F, delta, v)));
  }

  // ---- joining vectors ----

  function JoinLanes<E>(a: Lanes<E>, b: Lanes<E>): Lanes<E> {
    Lanes(a.mac + b.mac, a.key + b.key, a.val + b.val)
  }

  function JoinAll<E>(s: seq<Lanes<E>>, t: seq<Lanes<E>>): (r: seq<Lanes<E>>)
    requires |s| == |t|
    ensures |r| == |s|
  {
    seq(|s|, i requires 0 <= i < |s| => JoinLanes(s[i], t[i]))
  }

  function JoinRows<E>(s: seq<seq<E>>, t: seq<seq<E>>): (r: seq<seq<E>>)
    requires |s| == |t|
    ensures |r| == |s|
  {
    seq(|s|, i requires 0 <= i < |s| => s[i] + t[i])
  }

  lemma JoinParts<E(!new)>(F: Field<E>, a: seq<E>, b: seq<E>, c: seq<E>, d: seq<E>, x: E)
    requires |a| == |c| && |b| == |d|
    ensures VAdd(F, a + b, c + d) == VAdd(F, a, c) + VAdd(F, b, d)
    ensures Scale(F, x, a + b) == Scale(F, x, a) + Scale(F, x, b)
  {
  }

  lemma {:induction false} TotalJoin<E(!new)>(F: Field<E>, m: nat, n: nat, s: seq<seq<E>>, t: seq<seq<E>>)
    requires |s| == |t| && Rows(m, s) && Rows(n, t)
    ensures Rows(m + n, JoinRows(s, t))
    ensures Total(F, m + n, JoinRows(s, t)) == Total(F, m, s) + Total(F, n, t)
  {
    if s == [] {
      assert Zeros(F, m + n) == Zeros(F, m) + Zeros(F, n);
    } else {
      TotalJoin(F, m, n, s[1..], t[1..]);
      assert JoinRows(s, t)[1..] == JoinRows(s[1..], t[1..]);
      JoinParts(F, s[0], t[0], Total(F, m, s[1..]), Total(F, n, t[1..]), F.zero);
    }
  }

  lemma JoinAllRows<E>(s: seq<Lanes<E>>, t: seq<Lanes<E>>)
    requires |s| == |t|
    ensures ValRows(JoinAll(s, t)) == JoinRows(ValRows(s), ValRows(t))
    ensures MacRows(JoinAll(s, t)) == JoinRows(MacRows(s), MacRows(t))
    ensures KeyRows(JoinAll(s, t)) == JoinRows(KeyRows(s), KeyRows(t))
  {
  }

  lemma JoinTotals<E(!new)>(F: Field<E>, m: nat, n: nat, s: seq<Lanes<E>>, t: seq<Lanes<E>>)
    requires |s| == |t| && Sized(m, s) && Sized(n, t)
    ensures Sized(m + n, JoinAll(s, t))
    ensures Total(F, m + n, ValRows(JoinAll(s, t))) == Total(F, m, ValRows(s)) + Total(F, n, ValRows(t))
    ensures Total(F, m + n, MacRows(JoinAll(s, t))) == Total(F, m, MacRows(s)) + Total(F, n, MacRows(t))
    ensures Total(F, m + n, KeyRows(JoinAll(s, t))) == Total(F, m, KeyRows(s)) + Total(F, n, KeyRows(t))
  {
    JoinAllRows(s, t);
    TotalJoin(F, m, n, ValRows(s), ValRows(t));
    TotalJoin(F, m, n, MacRows(s), MacRows(t));
    TotalJoin(F, m, n, KeyRows(s), KeyRows(t));
  }

  lemma AuthJoin<E(!new)>(F: Field<E>, delta: E, v: seq<E>, w: seq<E>, s: seq<Lanes<E>>, t: seq<Lanes<E>>)
    requires |s| == |t| && Authentic(F, delta, v, s) && Authentic(F, delta, w, t)
    ensures Authentic(F, delta, v + w, JoinAll(s, t))
  {
    JoinTotals(F, |v|, |w|, s, t);
    var kv, kw := Total(F, |v|, KeyRows(s)), Total(F, |w|, KeyRows(t));
    JoinParts(F, v, w, v, w, delta);
    JoinParts(F, kv, kw, Scale(F, delta, v), Scale(F, delta, w), delta);
  }

  // ---- public differences to preprocessed secrets ----

  function DiffTo<E(!new)>(F: Field<E>, vals: seq<E>, secrets: seq<E>): (r: seq<E>)
    requires |vals| == |secrets|
    ensures |r| == |vals|
  {
    seq(|vals|, i requires 0 <= i < |vals| => F.Sub(vals[i], secrets[i]))
  }

  // What verifier i holds of secret + diff, the difference being public: verifier 0 adds it
  // to its share, everyone lowers its key by diff * Delta_i.
  function AddPublic<E(!new)>(F: Field<E>, i: nat, delta_i: E, diff: seq<E>, sh: Lanes<E>): Lanes<E>
    requires |sh.mac| == |sh.key| == |sh.val| == |diff|
  {
    Lanes(sh.mac,
          VAdd(F, sh.key, Scale(F, F.Neg(delta_i), diff)),
          if i == 0 then VAdd(F, diff, sh.val) else sh.val)
  }

  function AddPublicAll<E(!new)>(F: Field<E>, deltas: seq<E>, diff: seq<E>, shs: seq<Lanes<E>>,
                                 first: nat): (r: seq<Lanes<E>>)
    requires |deltas| == |shs| && Sized(|diff|, shs)
    ensures |r| == |shs|
  {
    seq(|shs|, i requires 0 <= i < |shs| => AddPublic(F, first + i, deltas[i], diff, shs[i]))
  }

  lemma TotalOfRest<E(!new)>(F: Field<E>, len: nat, rows: seq<seq<E>>)
    requires Rows(len, rows) && rows != []
    ensures Total(F, len, rows) == VAdd(F, rows[0], Total(F, len, rows[1..]))
  {
  }

  lemma {:induction false} PublicKeys<E(!new)>(F: Field<E>, deltas: seq<E>, diff: seq<E>, shs: seq<Lanes<E>>,
                                               first: nat)
    requires F.Laws() && |deltas| == |shs| && Sized(|diff|, shs)
    ensures Sized(|diff|, AddPublicAll(F, deltas, diff, shs, first))
    ensures Total(F, |diff|, KeyRows(AddPublicAll(F, deltas, diff, shs, first)))
         == VAdd(F, Total(F, |diff|, KeyRows(shs)), Scale(F, F.Neg(Sum(F, deltas)), diff))
  {
    hide VAdd, Scale;
    var n, r := |diff|, AddPublicAll(F, deltas, diff, shs, first);
    if shs == [] {
      NoKeys(F, diff);
    } else {
      PublicKeys(F, deltas[1..], diff, shs[1..], first + 1);
      assert r[1..] == AddPublicAll(F, deltas[1..], diff, shs[1..], first + 1);
      assert KeyRows(r)[1..] == KeyRows(r[1..]) && KeyRows(shs)[1..] == KeyRows(shs[1..]);
      assert Sized(n, r);
      TotalOfRest(F, n, KeyRows(r));
      TotalOfRest(F, n, KeyRows(shs));
      assert KeyRows(r)[0] == VAdd(F, shs[0].key, Scale(F, F.Neg(deltas[0]), diff));
      RegroupAll(F, shs[0].key, Total(F, n, KeyRows(shs[1..])), deltas[0], Sum(F, deltas[1..]), diff);
    }
  }

  lemma NoKeys<E(!new)>(F: Field<E>, diff: seq<E>)
    requires F.Laws()
    ensures Zeros(F, |diff|) == VAdd(F, Zeros(F, |diff|), Scale(F, F.Neg(F.zero), diff))
  {
    forall p | 0 <= p < |diff| ensures F.zero == F.Add(F.zero, F.Mul(F.Neg(F.zero), diff[p])) {
      NegLaws(F, F.zero, F.zero);
      Zero(F, diff[p]);
      Zero(F, F.zero);
    }
  }

  lemma RegroupAll<E(!new)>(F: Field<E>, k: seq<E>, t: seq<E>, d: E, ds: E, diff: seq<E>)
    requires F.Laws() && |k| == |t| == |diff|
    ensures VAdd(F, VAdd(F, k, Scale(F, F.Neg(d), diff)), VAdd(F, t, Scale(F, F.Neg(ds), diff)))
         == VAdd(F, VAdd(F, k, t), Scale(F, F.Neg(F.Add(d, ds)), diff))
  {
    forall p | 0 <= p < |diff|
      ensures F.Add(F.Add(k[p], F.Mul(F.Neg(d), diff[p])), F.Add(t[p], F.Mul(F.Neg(ds), diff[p])))
           == F.Add(F.Add(k[p], t[p]), F.Mul(F.Neg(F.Add(d, ds)), diff[p]))
    {
      NegLaws(F, d, ds);
      Regroup(F, k[p], t[p], F.Neg(d), F.Neg(ds), diff[p]);
    }
  }

  lemma Regroup<E(!new)>(F: Field<E>, k: E, t: E, d: E, ds: E, x: E)
    requires F.Laws()
    ensures F.Add(F.Add(k, F.Mul(d, x)), F.Add(t, F.Mul(ds, x))) == F.Add(F.Add(k, t), F.Mul(F.Add(d, ds), x))
  {
    Ring(F);
  }

  lemma {:induction false} PublicMacs<E(!new)>(F: Field<E>, deltas: seq<E>, diff: seq<E>, shs: seq<Lanes<E>>,
                                               first: nat)
    requires |deltas| == |shs| && Sized(|diff|, shs)
    ensures MacRows(AddPublicAll(F, deltas, diff, shs, first)) == MacRows(shs)
    ensures first > 0 ==> ValRows(AddPublicAll(F, deltas, diff, shs, first)) == ValRows(shs)
  {
  }

  lemma PublicVals<E(!new)>(F: Field<E>, deltas: seq<E>, diff: seq<E>, shs: seq<Lanes<E>>)
    requires F.Laws() && |deltas| == |shs| > 0 && Sized(|diff|, shs)
    ensures Sized(|diff|, AddPublicAll(F, deltas, diff, shs, 0))
    ensures Total(F, |diff|, ValRows(AddPublicAll(F, deltas, diff, shs, 0)))
         == VAdd(F, diff, Total(F, |diff|, ValRows(shs)))
  {
    var n, r := |diff|, AddPublicAll(F, deltas, diff, shs, 0);
    assert r[1..] == AddPublicAll(F, deltas[1..], diff, shs[1..], 1);
    PublicMacs(F, deltas[1..], diff, shs[1..], 1);
    assert ValRows(r)[1..] == ValRows(r[1..]) && ValRows(shs)[1..] == ValRows(shs[1..]);
    var t := Total(F, n, ValRows(shs[1..]));
    forall p | 0 <= p < n
      ensures F.Add(F.Add(diff[p], shs[0].val[p]), t[p]) == F.Add(diff[p], F.Add(shs[0].val[p], t[p]))
    {
      assert At3(diff[p], shs[0].val[p], t[p]);
    }
  }

  /** Shares of the preprocessed secrets and a public difference give shares of the sum:
      this is how every value the prover broadcasts becomes authenticated. */
  lemma AuthPublic<E(!new)>(F: Field<E>, deltas: seq<E>, secrets: seq<E>, diff: seq<E>, shs: seq<Lanes<E>>)
    requires F.Laws() && |deltas| == |shs| > 0 && |secrets| == |diff|
    requires Authentic(F, Sum(F, deltas), secrets, shs)
    ensures Authentic(F, Sum(F, deltas), VAdd(F, diff, secrets), AddPublicAll(F, deltas, diff, shs, 0))
  {
    var n, delta, r := |diff|, Sum(F, deltas), AddPublicAll(F, deltas, diff, shs, 0);
    var v := VAdd(F, diff, secrets);
    PublicKeys(F, deltas, diff, shs, 0);
    PublicMacs(F, deltas, diff, shs, 0);
    PublicVals(F, deltas, diff, shs);
    var k := Total(F, n, KeyRows(shs));
    forall p | 0 <= p < n
      ensures F.Add(k[p], F.Mul(delta, secrets[p]))
           == F.Add(F.Add(k[p], F.Mul(F.Neg(delta), diff[p])), F.Mul(delta, v[p]))
    {
      PublicKeyIdentity(F, k[p], delta, diff[p], secrets[p]);
    }
  }

  lemma PublicKeyIdentity<E(!new)>(F: Field<E>, k: E, delta: E, d: E, s: E)
    requires F.Laws()
    ensures F.Add(k, F.Mul(delta, s)) == F.Add(F.Add(k, F.Mul(F.Neg(delta), d)), F.Mul(delta, F.Add(d, s)))
  {
    var p, q := F.Mul(delta, d), F.Mul(delta, s);
    NegLaws(F, delta, d);
    assert At3(delta, d, s) && At1(p);
    assert F.Add(F.Add(k, F.Neg(p)), F.Add(p, q)) == F.Add(F.Add(F.Add(p, F.Neg(p)), k), q) by { AddLaws(F); }
    Zero(F, k);
  }
}
