/** What the verifiers learn from one another. The n - k shares of a key that any n - k of them hold
    fit every key, with one choice of the dealer's random values; and the masked contributions to a
    MAC check fit all contributions with the same sum, with one choice of the zero shares. */
module SharePrivacy {
  import opened Algebra
  import opened Polynomials
  import opened Interpolation
  import opened PackedAuth
  import opened OpenCheck

  // ---- shares of a key ----

  // The entries of some parties.
  function Seen<E>(s: seq<E>, ids: seq<nat>): (r: seq<E>)
    requires forall j :: 0 <= j < |ids| ==> ids[j] < |s|
    ensures |r| == |ids|
  {
    seq(|ids|, j requires 0 <= j < |ids| => s[ids[j]])
  }

  // Different parties.
  ghost predicate Coalition(ids: seq<nat>, n: nat) {
    (forall j :: 0 <= j < |ids| ==> ids[j] < n) && Distinct(ids)
  }

  lemma SeenDistinct<E>(x: E, from: seq<E>, ids: seq<nat>)
    requires Distinct([x] + from) && Coalition(ids, |from|)
    ensures Distinct([x] + Seen(from, ids))
  {
    var all, some := [x] + from, [x] + Seen(from, ids);
    forall i, j | 0 <= i < j < |some| ensures some[i] != some[j] {
      assert some[j] == all[ids[j - 1] + 1];
      if i == 0 {
        assert all[0] != all[ids[j - 1] + 1];
      } else {
        assert some[i] == all[ids[i - 1] + 1] && ids[i - 1] != ids[j - 1];
        if ids[i - 1] < ids[j - 1] {
          assert all[ids[i - 1] + 1] != all[ids[j - 1] + 1];
        } else {
          assert all[ids[j - 1] + 1] != all[ids[i - 1] + 1];
        }
      }
    }
  }

  lemma FirstPoints<E>(x: E, from: seq<E>, t: nat)
    requires Distinct([x] + from) && t <= |from|
    ensures Distinct([x] + from[..t])
  {
    var all, some := [x] + from, [x] + from[..t];
    forall i, j | 0 <= i < j < |some| ensures some[i] != some[j] { assert some[i] == all[i] && some[j] == all[j]; }
  }

  // What a dealer hands out when its random values are those of a polynomial.
  lemma DealtAlong<E(!new)>(F: Field<E>, from: seq<E>, t: nat, x: E, c: seq<E>)
    requires F.Laws() && t <= |from| && Distinct([x] + from) && |c| <= t + 1
    ensures Dealt(F, from, t, x, Eval(F, c, x), Evals(F, c, from[..t])) == Evals(F, c, from)
  {
    var pts := [x] + from[..t];
    FirstPoints(x, from, t);
    assert [Eval(F, c, x)] + Evals(F, c, from[..t]) == Evals(F, c, pts);
    forall i | t <= i < |from| ensures ValueAt(F, pts, Evals(F, c, pts), from[i]) == Eval(F, c, from[i]) {
      LagrangeExact(F, c, pts, from[i]);
    }
  }

  // Polynomials of the degree that agree on the key and on what is seen agree everywhere.
  lemma SameEverywhere<E(!new)>(F: Field<E>, c: seq<E>, d: seq<E>, pts: seq<E>, y: E)
    requires F.Laws() && Distinct(pts) && |c| <= |pts| && |d| <= |pts| && Evals(F, c, pts) == Evals(F, d, pts)
    ensures Eval(F, c, y) == Eval(F, d, y)
  {
    LagrangeExact(F, c, pts, y);
    LagrangeExact(F, d, pts, y);
  }

  /** Any t parties, whatever shares they hold: for every key there is exactly one choice of the
      dealer's t random values that hands them out. So t shares tell nothing about the key. */
  lemma OneDealFits<E(!new)>(F: Field<E>, from: seq<E>, t: nat, x: E, key: E, ids: seq<nat>, vals: seq<E>)
    returns (rand: seq<E>)
    requires F.Laws() && t <= |from| && Distinct([x] + from) && Coalition(ids, |from|) && |ids| == |vals| == t
    ensures |rand| == t
    ensures forall other: seq<E> :: |other| == t ==>
              (Seen(Dealt(F, from, t, x, key, other), ids) == vals <==> other == rand)
  {
    var pts := [x] + Seen(from, ids);
    SeenDistinct(x, from, ids);
    var c := Through(F, pts, [key] + vals);
    ThroughPoints(F, pts, [key] + vals);
    assert Eval(F, c, x) == Evals(F, c, pts)[0] == key;
    rand := Evals(F, c, from[..t]);
    DealtAlong(F, from, t, x, c);
    assert Seen(Evals(F, c, from), ids) == vals by { SeenValues(F, c, x, key, from, ids, vals); }
    forall other: seq<E> | |other| == t && Seen(Dealt(F, from, t, x, key, other), ids) == vals ensures other == rand {
      DealsOnce(F, from, t, x, key, ids, vals, c, other);
    }
  }

  lemma SeenValues<E(!new)>(F: Field<E>, c: seq<E>, x: E, key: E, from: seq<E>, ids: seq<nat>, vals: seq<E>)
    requires Coalition(ids, |from|) && |ids| == |vals|
    ensures Evals(F, c, [x] + Seen(from, ids)) == [key] + vals
       <==> Eval(F, c, x) == key && Seen(Evals(F, c, from), ids) == vals
  {
    var pts := [x] + Seen(from, ids);
    assert Evals(F, c, pts) == [Eval(F, c, x)] + Seen(Evals(F, c, from), ids);
    var a, b := [Eval(F, c, x)] + Seen(Evals(F, c, from), ids), [key] + vals;
    assert a == b ==> a[0] == b[0] && a[1..] == b[1..];
    assert a[1..] == Seen(Evals(F, c, from), ids) && b[1..] == vals;
  }

  lemma DealsOnce<E(!new)>(F: Field<E>, from: seq<E>, t: nat, x: E, key: E, ids: seq<nat>, vals: seq<E>, c: seq<E>,
                           other: seq<E>)
    requires F.Laws() && t <= |from| && Distinct([x] + from) && Coalition(ids, |from|) && |ids| == |vals| == t
    requires |c| == t + 1 && Evals(F, c, [x] + Seen(from, ids)) == [key] + vals && |other| == t
    requires Seen(Dealt(F, from, t, x, key, other), ids) == vals
    ensures other == Evals(F, c, from[..t])
  {
    var pts := [x] + Seen(from, ids);
    SeenDistinct(x, from, ids);
    DealtSharesKey(F, from, t, x, key, other);
    var d :| |d| == t + 1 && Evals(F, d, from) == Dealt(F, from, t, x, key, other) && Eval(F, d, x) == key;
    SeenValues(F, d, x, key, from, ids, vals);
    forall i | 0 <= i < t ensures other[i] == Eval(F, c, from[i]) {
      assert other[i] == Evals(F, d, from)[i];
      SameEverywhere(F, c, d, pts, from[i]);
    }
  }

  // ---- masked contributions ----

  // The zero shares that turn one list of contributions into what was published.
  function Fitting<E(!new)>(F: Field<E>, len: nat, published: seq<seq<E>>, rows: seq<seq<E>>): (r: seq<seq<E>>)
    requires |published| == |rows| && Rows(len, published) && Rows(len, rows)
    ensures |r| == |rows| && Rows(len, r)
  {
    seq(|rows|, i requires 0 <= i < |rows| =>
      seq(len, p requires 0 <= p < len => F.Sub(published[i][p], rows[i][p])))
  }

  lemma MasksTo<E(!new)>(F: Field<E>, len: nat, published: seq<seq<E>>, rows: seq<seq<E>>, theta: seq<seq<E>>)
    requires F.Laws() && |published| == |rows| == |theta| && Rows(len, published) && Rows(len, rows) && Rows(len, theta)
    ensures Masked(F, len, rows, theta) == published <==> theta == Fitting(F, len, published, rows)
  {
    var m, f := Masked(F, len, rows, theta), Fitting(F, len, published, rows);
    forall i, p | 0 <= i < |rows| && 0 <= p < len
      ensures m[i][p] == published[i][p] <==> theta[i][p] == f[i][p]
    {
      Shifted(F, rows[i][p], theta[i][p], published[i][p]);
    }
    if theta == f {
      forall i | 0 <= i < |rows| ensures m[i] == published[i] {
        assert forall p :: 0 <= p < len ==> m[i][p] == published[i][p];
      }
    }
    if m == published {
      forall i | 0 <= i < |rows| ensures theta[i] == f[i] {
        assert forall p :: 0 <= p < len ==> theta[i][p] == f[i][p];
      }
    }
  }

  lemma Shifted<E(!new)>(F: Field<E>, r: E, t: E, p: E)
    requires F.Laws()
    ensures F.Add(r, t) == p <==> t == F.Sub(p, r)
  {
    SubLaws(F, p, r);
    assert At2(r, t) && At2(r, F.Sub(p, r));
    if F.Add(r, t) == p { Cancel(F, t, F.Sub(p, r), r); }
  }

  /** What was published of some contributions is published of any others with the same sum, under
      exactly one choice of masks, and these are shares of zero too: only the sum is learnt. */
  lemma OneMaskingFits<E(!new)>(F: Field<E>, len: nat, rows: seq<seq<E>>, theta: seq<seq<E>>, rows': seq<seq<E>>)
    returns (theta': seq<seq<E>>)
    requires F.Laws() && |rows| == |theta| == |rows'| && Rows(len, rows) && Rows(len, theta) && Rows(len, rows')
    requires Total(F, len, theta) == Zeros(F, len) && Total(F, len, rows) == Total(F, len, rows')
    ensures |theta'| == |rows'| && Rows(len, theta') && Total(F, len, theta') == Zeros(F, len)
    ensures forall other: seq<seq<E>> :: |other| == |rows'| && Rows(len, other) ==>
              (Masked(F, len, rows', other) == Masked(F, len, rows, theta) <==> other == theta')
  {
    var published := Masked(F, len, rows, theta);
    theta' := Fitting(F, len, published, rows');
    forall other: seq<seq<E>> | |other| == |rows'| && Rows(len, other)
      ensures Masked(F, len, rows', other) == published <==> other == theta'
    {
      MasksTo(F, len, published, rows', other);
    }
    MaskedSum(F, len, rows, theta);
    MaskedSum(F, len, rows', theta');
    var s, z, t := Total(F, len, rows), Zeros(F, len), Total(F, len, theta');
    assert VAdd(F, s, z) == VAdd(F, s, t);
    forall p | 0 <= p < len ensures t[p] == z[p] {
      assert VAdd(F, s, z)[p] == VAdd(F, s, t)[p];
      assert At2(s[p], t[p]) && At2(s[p], z[p]);
      Cancel(F, t[p], z[p], s[p]);
    }
  }
}
