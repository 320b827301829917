/** The masks of a MAC check. Every verifier deals an additive sharing of zero, the parties exchange
    them around the ring, and each adds up what it holds: together again shares of zero, and any such
    shares whatever the others deal, if one verifier's random values are chosen for it. */
module ZeroShares {
  import opened Algebra
  import Primes

  // ---- one entry ----

  // What verifier i deals to verifier j of entry p; nothing to itself.
  function Dealt<E(!new)>(F: Field<E>, deals: seq<seq<seq<E>>>, p: nat, i: nat, j: nat): E
    requires i < |deals| && j < |deals[i]| && p < |deals[i][j]|
  {
    if i == j then F.zero else deals[i][j][p]
  }

  // n verifiers, each dealing len values to every one.
  ghost predicate Deals<E>(n: nat, len: nat, deals: seq<seq<seq<E>>>) {
    |deals| == n && forall i :: 0 <= i < n ==> |deals[i]| == n && Rows(len, deals[i])
  }

  function Sent<E(!new)>(F: Field<E>, n: nat, len: nat, deals: seq<seq<seq<E>>>, p: nat, i: nat): (r: seq<E>)
    requires Deals(n, len, deals) && p < len && i < n
    ensures |r| == n
  {
    seq(n, j requires 0 <= j < n => Dealt(F, deals, p, i, j))
  }

  function Heard<E(!new)>(F: Field<E>, n: nat, len: nat, deals: seq<seq<seq<E>>>, p: nat, i: nat): (r: seq<E>)
    requires Deals(n, len, deals) && p < len && i < n
    ensures |r| == n
  {
    seq(n, j requires 0 <= j < n => Dealt(F, deals, p, j, i))
  }

  // Verifier i's share: what it was dealt minus what it dealt.
  function ShareOf<E(!new)>(F: Field<E>, n: nat, len: nat, deals: seq<seq<seq<E>>>, i: nat): (r: seq<E>)
    requires Deals(n, len, deals) && i < n
    ensures |r| == len
  {
    seq(len, p requires 0 <= p < len =>
      F.Add(F.Neg(Sum(F, Sent(F, n, len, deals, p, i))), Sum(F, Heard(F, n, len, deals, p, i))))
  }

  function AllShares<E(!new)>(F: Field<E>, n: nat, len: nat, deals: seq<seq<seq<E>>>): (r: seq<seq<E>>)
    requires Deals(n, len, deals)
    ensures |r| == n && Rows(len, r)
  {
    seq(n, i requires 0 <= i < n => ShareOf(F, n, len, deals, i))
  }

  // ---- the loops of one verifier ----

  lemma {:induction false} SumUpdate<E(!new)>(F: Field<E>, s: seq<E>, j: nat, v: E)
    requires F.Laws() && j < |s| && s[j] == F.zero
    ensures Sum(F, s[j := v]) == F.Add(Sum(F, s), v)
  {
    var rest := Sum(F, s[1..]);
    if j == 0 {
      assert s[j := v][1..] == s[1..];
      Zero(F, rest);
      assert At2(v, rest);
    } else {
      SumUpdate(F, s[1..], j - 1, v);
      assert s[j := v][1..] == s[1..][j - 1 := v];
      assert At3(s[0], rest, v);
    }
  }

  // How many steps back around the ring from i to j.
  function Back(n: nat, i: nat, j: nat): (d: nat)
    requires i < n && j < n
    ensures d == 0 <==> i == j
    ensures d < n
  {
    if j <= i then i - j else i + n - j
  }

  // What verifier i has heard after k steps around the ring.
  function HeardBy<E(!new)>(F: Field<E>, n: nat, len: nat, deals: seq<seq<seq<E>>>, p: nat, i: nat, k: nat): (r: seq<E>)
    requires Deals(n, len, deals) && p < len && i < n
    ensures |r| == n
  {
    seq(n, j requires 0 <= j < n => if 1 <= Back(n, i, j) <= k then deals[j][i][p] else F.zero)
  }

  lemma HeardNext<E(!new)>(F: Field<E>, n: nat, len: nat, deals: seq<seq<seq<E>>>, p: nat, i: nat, j: nat, k: nat)
    requires F.Laws() && Deals(n, len, deals) && p < len && i < n && j < n && Back(n, i, j) == k + 1
    ensures Sum(F, HeardBy(F, n, len, deals, p, i, k + 1))
         == F.Add(Sum(F, HeardBy(F, n, len, deals, p, i, k)), deals[j][i][p])
  {
    var s := HeardBy(F, n, len, deals, p, i, k);
    assert HeardBy(F, n, len, deals, p, i, k + 1) == s[j := deals[j][i][p]];
    SumUpdate(F, s, j, deals[j][i][p]);
  }

  lemma HeardAll<E(!new)>(F: Field<E>, n: nat, len: nat, deals: seq<seq<seq<E>>>, p: nat, i: nat)
    requires F.Laws() && Deals(n, len, deals) && p < len && i < n
    ensures Sum(F, HeardBy(F, n, len, deals, p, i, 0)) == F.zero
    ensures HeardBy(F, n, len, deals, p, i, n - 1) == Heard(F, n, len, deals, p, i)
  {
    assert HeardBy(F, n, len, deals, p, i, 0) == Zeros(F, n);
    SumZeros(F, n);
  }

  // The own share: minus the sum of what is dealt.
  method OwnShare<E(!new)>(F: Field<E>, n: nat, len: nat, id: nat, deals: seq<seq<seq<E>>>) returns (own: seq<E>)
    requires F.Laws() && Deals(n, len, deals) && id < n
    ensures |own| == len && forall p :: 0 <= p < len ==> own[p] == F.Neg(Sum(F, Sent(F, n, len, deals, p, id)))
  {
    own := [];
    for p := 0 to len
      invariant |own| == p && forall q :: 0 <= q < p ==> own[q] == F.Neg(Sum(F, Sent(F, n, len, deals, q, id)))
    {
      var acc := F.zero;
      ghost var sent := Sent(F, n, len, deals, p, id);
      for j := 0 to n
        invariant acc == Sum(F, sent[..j])
      {
        SumTake(F, sent, j);
        if j != id { acc := F.Add(acc, deals[id][j][p]); } else { Zero(F, acc); }
      }
      assert sent[..n] == sent;
      own := own + [F.Neg(acc)];
    }
  }

  // One message of the ring, added entry by entry.
  method AddHeard<E(!new)>(F: Field<E>, out: seq<E>, buf: seq<E>) returns (r: seq<E>)
    requires |out| == |buf|
    ensures r == VAdd(F, out, buf)
  {
    r := [];
    for p := 0 to |out|
      invariant r == VAdd(F, out, buf)[..p]
    {
      r := r + [F.Add(out[p], buf[p])];
    }
  }

  /** Verifier `id` deals, and hears from its predecessors around the ring, the nearest first. */
  method ZeroSharesOf<E(!new)>(F: Field<E>, n: nat, len: nat, id: nat, deals: seq<seq<seq<E>>>) returns (out: seq<E>)
    requires F.Laws() && Deals(n, len, deals) && id < n
    ensures out == ShareOf(F, n, len, deals, id)
  {
    out := OwnShare(F, n, len, id, deals);
    ghost var own := out;
    forall p | 0 <= p < len ensures out[p] == F.Add(own[p], Sum(F, HeardBy(F, n, len, deals, p, id, 0))) {
      HeardAll(F, n, len, deals, p, id);
      Zero(F, own[p]);
    }
    var j := (id + n - 1) % n;
    ghost var k := 0;
    RingBack(n, id, id);
    while j != id
      invariant 0 <= j < n && |out| == len && 0 <= k < n && (if j == id then k == n - 1 else Back(n, id, j) == k + 1)
      invariant forall p :: 0 <= p < len ==>
                  out[p] == F.Add(own[p], Sum(F, HeardBy(F, n, len, deals, p, id, k)))
      decreases n - k
    {
      var was := out;
      out := AddHeard(F, out, deals[j][id]);
      forall p | 0 <= p < len ensures out[p] == F.Add(own[p], Sum(F, HeardBy(F, n, len, deals, p, id, k + 1))) {
        HeardNext(F, n, len, deals, p, id, j, k);
        assert At3(own[p], Sum(F, HeardBy(F, n, len, deals, p, id, k)), deals[j][id][p]);
      }
      RingBack(n, id, j);
      j := (j + n - 1) % n;
      k := k + 1;
    }
    forall p | 0 <= p < len ensures out[p] == ShareOf(F, n, len, deals, id)[p] { HeardAll(F, n, len, deals, p, id); }
  }

  // The predecessor of j is one step further back, until the ring closes.
  lemma RingBack(n: nat, i: nat, j: nat)
    requires i < n && j < n
    ensures var q := (j + n - 1) % n;
            q < n && q == (if j == 0 then n - 1 else j - 1)
            && (if q == i then Back(n, i, j) == n - 1 else Back(n, i, q) == Back(n, i, j) + 1)
  {
    RingMod(n, j);
    hide *;
    BackOne(n, i, j, if j == 0 then n - 1 else j - 1);
  }

  lemma RingMod(n: nat, j: nat)
    requires j < n
    ensures (j + n - 1) % n == if j == 0 then n - 1 else j - 1
  {
    if j > 0 { Primes.ModOf(j + n - 1, n, 1, j - 1); } else { Primes.ModOf(n - 1, n, 0, n - 1); }
  }

  lemma BackOne(n: nat, i: nat, j: nat, q: nat)
    requires i < n && j < n && q == if j == 0 then n - 1 else j - 1
    ensures q < n && if q == i then Back(n, i, j) == n - 1 else Back(n, i, q) == Back(n, i, j) + 1
  {
  }

  // ---- shares of zero ----

  lemma {:induction false} SumOfTotal<E(!new)>(F: Field<E>, n: nat, rows: seq<seq<E>>)
    requires F.Laws() && Rows(n, rows)
    ensures Sum(F, Total(F, n, rows)) == Sum(F, seq(|rows|, i requires 0 <= i < |rows| => Sum(F, rows[i])))
  {
    var sums := seq(|rows|, i requires 0 <= i < |rows| => Sum(F, rows[i]));
    if rows == [] {
      SumZeros(F, n);
    } else {
      SumOfTotal(F, n, rows[1..]);
      assert sums[1..] == seq(|rows[1..]|, i requires 0 <= i < |rows[1..]| => Sum(F, rows[1..][i]));
      SumAdd(F, rows[0], Total(F, n, rows[1..]));
    }
  }

  lemma {:induction false} SumNeg<E(!new)>(F: Field<E>, s: seq<E>)
    requires F.Laws()
    ensures F.Add(Sum(F, seq(|s|, i requires 0 <= i < |s| => F.Neg(s[i]))), Sum(F, s)) == F.zero
  {
    var neg := seq(|s|, i requires 0 <= i < |s| => F.Neg(s[i]));
    var zs := Zeros(F, |s|);
    forall i | 0 <= i < |s| ensures VAdd(F, neg, s)[i] == zs[i] { assert At1(s[i]) && At2(s[i], F.Neg(s[i])); }
    assert VAdd(F, neg, s) == zs;
    SumAdd(F, neg, s);
    SumZeros(F, |s|);
  }

  // All that is dealt of entry p.
  function Matrix<E(!new)>(F: Field<E>, n: nat, len: nat, deals: seq<seq<seq<E>>>, p: nat): (r: seq<seq<E>>)
    requires Deals(n, len, deals) && p < len
    ensures |r| == n && Rows(n, r)
  {
    seq(n, i requires 0 <= i < n => Sent(F, n, len, deals, p, i))
  }

  /** Together the shares add up to zero, whatever was dealt. */
  lemma AllSharesCancel<E(!new)>(F: Field<E>, n: nat, len: nat, deals: seq<seq<seq<E>>>)
    requires F.Laws() && Deals(n, len, deals)
    ensures Total(F, len, AllShares(F, n, len, deals)) == Zeros(F, len)
  {
    var shs := AllShares(F, n, len, deals);
    forall p | 0 <= p < len ensures Total(F, len, shs)[p] == F.zero {
      TotalColumn(F, len, shs, p);
      EntryCancels(F, n, len, deals, p);
    }
    assert Total(F, len, shs) == Zeros(F, len);
  }

  lemma EntryCancels<E(!new)>(F: Field<E>, n: nat, len: nat, deals: seq<seq<seq<E>>>, p: nat)
    requires F.Laws() && Deals(n, len, deals) && p < len
    ensures Sum(F, Column(AllShares(F, n, len, deals), p)) == F.zero
  {
    var m := Matrix(F, n, len, deals, p);
    var rowSums := seq(n, i requires 0 <= i < n => Sum(F, m[i]));
    var neg := seq(n, i requires 0 <= i < n => F.Neg(rowSums[i]));
    forall i | 0 <= i < n ensures Total(F, n, m)[i] == Sum(F, Heard(F, n, len, deals, p, i)) {
      TotalColumn(F, n, m, i);
      assert Column(m, i) == Heard(F, n, len, deals, p, i);
    }
    assert Column(AllShares(F, n, len, deals), p) == VAdd(F, neg, Total(F, n, m));
    SumAdd(F, neg, Total(F, n, m));
    SumOfTotal(F, n, m);
    SumNeg(F, rowSums);
    assert neg == seq(|rowSums|, i requires 0 <= i < |rowSums| => F.Neg(rowSums[i]));
  }

  // ---- one dealer is enough ----

  // What the others' shares are without verifier d's deals.
  function Silent<E(!new)>(F: Field<E>, n: nat, len: nat): (r: seq<seq<E>>)
    ensures |r| == n && Rows(len, r)
  {
    seq(n, _ => Zeros(F, len))
  }

  lemma DealAdds<E(!new)>(F: Field<E>, n: nat, len: nat, deals: seq<seq<seq<E>>>, d: nat, mine: seq<seq<E>>, i: nat,
                          p: nat)
    requires F.Laws() && Deals(n, len, deals) && d < n && |mine| == n && Rows(len, mine) && i < n && i != d && p < len
    ensures Deals(n, len, deals[d := mine]) && Deals(n, len, deals[d := Silent(F, n, len)])
    ensures ShareOf(F, n, len, deals[d := mine], i)[p]
         == F.Add(ShareOf(F, n, len, deals[d := Silent(F, n, len)], i)[p], mine[i][p])
  {
    var a, b := deals[d := mine], deals[d := Silent(F, n, len)];
    assert Sent(F, n, len, a, p, i) == Sent(F, n, len, b, p, i);
    var h := Heard(F, n, len, b, p, i);
    assert Heard(F, n, len, a, p, i) == h[d := mine[i][p]];
    SumUpdate(F, h, d, mine[i][p]);
    assert At3(F.Neg(Sum(F, Sent(F, n, len, b, p, i))), Sum(F, h), mine[i][p]);
  }

  // What d must deal for the shares to be the target.
  function DealFor<E(!new)>(F: Field<E>, n: nat, len: nat, deals: seq<seq<seq<E>>>, d: nat,
                            target: seq<seq<E>>): (r: seq<seq<E>>)
    requires Deals(n, len, deals) && d < n && |target| == n && Rows(len, target)
    ensures |r| == n && Rows(len, r)
  {
    var base := AllShares(F, n, len, deals[d := Silent(F, n, len)]);
    seq(n, i requires 0 <= i < n =>
      seq(len, p requires 0 <= p < len => if i == d then F.zero else F.Sub(target[i][p], base[i][p])))
  }

  lemma Apart<E(!new)>(F: Field<E>, b: E, m: E, t: E)
    requires F.Laws()
    ensures F.Add(b, m) == t <==> m == F.Sub(t, b)
  {
    SubLaws(F, t, b);
    assert At2(b, m) && At2(b, F.Sub(t, b));
    if F.Add(b, m) == t { Cancel(F, m, F.Sub(t, b), b); }
  }

  // Rows that add up to the same and agree except at d agree at d.
  lemma SameRest<E(!new)>(F: Field<E>, len: nat, a: seq<seq<E>>, b: seq<seq<E>>, d: nat)
    requires F.Laws() && |a| == |b| && d < |a| && Rows(len, a) && Rows(len, b) && Total(F, len, a) == Total(F, len, b)
    requires forall i :: 0 <= i < |a| && i != d ==> a[i] == b[i]
    ensures a == b
  {
    forall p | 0 <= p < len ensures a[d][p] == b[d][p] {
      TotalColumn(F, len, a, p);
      TotalColumn(F, len, b, p);
      var x, y := Column(a, p), Column(b, p);
      assert x[d := F.zero] == y[d := F.zero];
      var z := x[d := F.zero];
      assert z[d := x[d]] == x && z[d := y[d]] == y;
      SumUpdate(F, z, d, x[d]);
      SumUpdate(F, z, d, y[d]);
      assert At2(Sum(F, z), x[d]) && At2(Sum(F, z), y[d]);
      Cancel(F, x[d], y[d], Sum(F, z));
    }
    assert a[d] == b[d];
  }

  /** Whatever the others deal, exactly one choice of verifier d's values leads to given shares of zero:
      if one verifier deals at random, nothing but their sum is known of the shares. */
  lemma OneDealerSuffices<E(!new)>(F: Field<E>, n: nat, len: nat, deals: seq<seq<seq<E>>>, d: nat, target: seq<seq<E>>)
    returns (mine: seq<seq<E>>)
    requires F.Laws() && Deals(n, len, deals) && d < n
    requires |target| == n && Rows(len, target) && Total(F, len, target) == Zeros(F, len)
    ensures |mine| == n && Rows(len, mine) && mine[d] == Zeros(F, len)
    ensures forall other: seq<seq<E>> :: |other| == n && Rows(len, other) && other[d] == Zeros(F, len) ==>
              Deals(n, len, deals[d := other])
              && (AllShares(F, n, len, deals[d := other]) == target <==> other == mine)
  {
    mine := DealFor(F, n, len, deals, d, target);
    assert mine[d] == Zeros(F, len);
    forall other: seq<seq<E>> | |other| == n && Rows(len, other) && other[d] == Zeros(F, len)
      ensures Deals(n, len, deals[d := other])
      ensures AllShares(F, n, len, deals[d := other]) == target <==> other == mine
    {
      DealsAre(F, n, len, deals, d, target, other);
    }
  }

  lemma DealsAre<E(!new)>(F: Field<E>, n: nat, len: nat, deals: seq<seq<seq<E>>>, d: nat, target: seq<seq<E>>,
                          other: seq<seq<E>>)
    requires F.Laws() && Deals(n, len, deals) && d < n
    requires |target| == n && Rows(len, target) && Total(F, len, target) == Zeros(F, len)
    requires |other| == n && Rows(len, other) && other[d] == Zeros(F, len)
    ensures Deals(n, len, deals[d := other])
    ensures AllShares(F, n, len, deals[d := other]) == target <==> other == DealFor(F, n, len, deals, d, target)
  {
    var mine := DealFor(F, n, len, deals, d, target);
    assert Deals(n, len, deals[d := other]);
    var shs := AllShares(F, n, len, deals[d := other]);
    AllSharesCancel(F, n, len, deals[d := other]);
    forall i, p | 0 <= i < n && i != d && 0 <= p < len
      ensures shs[i][p] == target[i][p] <==> other[i][p] == mine[i][p]
    {
      DealAdds(F, n, len, deals, d, other, i, p);
      Apart(F, ShareOf(F, n, len, deals[d := Silent(F, n, len)], i)[p], other[i][p], target[i][p]);
    }
    assert mine[d] == Zeros(F, len);
    hide AllShares, DealFor, ShareOf, Total;
    if shs == target {
      forall i | 0 <= i < n ensures other[i] == mine[i] {
        if i != d { assert forall p :: 0 <= p < len ==> other[i][p] == mine[i][p]; }
      }
    }
    if other == mine {
      forall i | 0 <= i < n && i != d ensures shs[i] == target[i] {
        assert forall p :: 0 <= p < len ==> shs[i][p] == target[i][p];
      }
      SameRest(F, len, shs, target, d);
    }
  }
}
