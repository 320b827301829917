/** The set {1..T} with membership queries by version chains: what the prover writes and reads
    for any choices it makes, when that proves membership, and the honest prover's object. */
module ZkSet {
  import opened Bits
  import opened Shuffles

  datatype Rec = Rec(elem: nat, ver: nat)

  // A query: the committed value and the version the prover supplies for it.
  datatype Query = Query(elem: nat, ver: nat)

  function SetupRecs(T: nat): (r: seq<Rec>)
    ensures |r| == T
  {
    seq(T, e requires 0 <= e < T => Rec(e + 1, 0))
  }

  function QueryReads(qs: seq<Query>): (r: seq<Rec>)
    ensures |r| == |qs|
  {
    seq(|qs|, i requires 0 <= i < |qs| => Rec(qs[i].elem, qs[i].ver))
  }

  // Versions are added modulo 2^ver_sz.
  function QueryWrites(V: nat, qs: seq<Query>): (r: seq<Rec>)
    requires V >= 1
    ensures |r| == |qs|
  {
    seq(|qs|, i requires 0 <= i < |qs| => Rec(qs[i].elem, (qs[i].ver + 1) % V))
  }

  // The versions read at teardown, element 1 first.
  function TeardownReads(fin: seq<nat>): (r: seq<Rec>)
    ensures |r| == |fin|
  {
    seq(|fin|, e requires 0 <= e < |fin| => Rec(e + 1, fin[e]))
  }

  // The closing permutation check, for V = 2^ver_sz versions.
  ghost predicate SetPasses(T: nat, V: nat, qs: seq<Query>, fin: seq<nat>)
    requires V >= 1
  {
    && |fin| == T
    && (forall i :: 0 <= i < |qs| ==> qs[i].ver < V)
    && multiset(QueryReads(qs) + TeardownReads(fin)) == multiset(SetupRecs(T) + QueryWrites(V, qs))
  }

  ghost predicate AllMembers(T: nat, qs: seq<Query>) {
    forall i :: 0 <= i < |qs| ==> 1 <= qs[i].elem <= T
  }

  // ---- soundness ----

  // Outside {1..T} every version written must be read by another query.
  lemma OutsideChains(T: nat, V: nat, qs: seq<Query>, fin: seq<nat>, x: nat, w: nat)
    requires V >= 1 && SetPasses(T, V, qs, fin) && (x == 0 || x > T) && w < V
    requires exists i :: 0 <= i < |qs| && qs[i] == Query(x, w)
    ensures exists i :: 0 <= i < |qs| && qs[i] == Query(x, (w + 1) % V)
  {
    var i :| 0 <= i < |qs| && qs[i] == Query(x, w);
    var rs, ws := QueryReads(qs) + TeardownReads(fin), SetupRecs(T) + QueryWrites(V, qs);
    var r := Rec(x, (w + 1) % V);
    assert ws[T + i] == r;
    SameMembers(rs, ws, r);
    var j :| 0 <= j < |rs| && rs[j] == r;
    assert j < |qs| && qs[j] == Query(x, (w + 1) % V);
  }

  lemma {:induction false} AllVersions(T: nat, V: nat, qs: seq<Query>, fin: seq<nat>, x: nat, w: nat, k: nat)
    requires V >= 1 && SetPasses(T, V, qs, fin) && (x == 0 || x > T) && w < V
    requires exists i :: 0 <= i < |qs| && qs[i] == Query(x, w)
    ensures exists i :: 0 <= i < |qs| && qs[i] == Query(x, (w + k) % V)
  {
    if k != 0 {
      AllVersions(T, V, qs, fin, x, w, k - 1);
      OutsideChains(T, V, qs, fin, x, (w + k - 1) % V);
      assert ((w + k - 1) % V + 1) % V == (w + k) % V by { NextMod(w + k - 1, V); }
    }
  }

  lemma NextMod(a: nat, V: nat)
    requires V >= 1
    ensures (a % V + 1) % V == (a + 1) % V
  {
    var q, r := a / V, a % V;
    assert a == q * V + r;
    if r + 1 == V {
      ModUnique(a + 1, V, q + 1, 0);
      ModUnique(V, V, 1, 0);
    } else {
      ModUnique(a + 1, V, q, r + 1);
      ModUnique(r + 1, V, 0, r + 1);
    }
  }

  lemma NoMultiple(d: int, V: int)
    requires V >= 1 && -V < d * V < V
    ensures d == 0
  {
  }

  lemma ModUnique(a: int, V: nat, q: int, r: int)
    requires V >= 1 && 0 <= r < V && a == q * V + r
    ensures a % V == r && a / V == q
  {
    var q', r' := a / V, a % V;
    assert a == V * q' + r';
    assert (q - q') * V == q * V - V * q';
    NoMultiple(q - q', V);
  }

  // A value in every version takes at least V queries.
  lemma {:induction false} CoverCount(qs: seq<Query>, x: nat, V: nat)
    requires forall w: nat :: w < V ==> Query(x, w) in qs
    ensures V <= |qs|
  {
    var need := set w: nat | w < V :: Query(x, w);
    var have := set i | 0 <= i < |qs| :: qs[i];
    assert need <= have;
    SetSize(x, V);
    SeqSetSize(qs);
    SubsetSize(need, have);
  }

  lemma {:induction false} SetSize(x: nat, V: nat)
    ensures |(set w: nat | w < V :: Query(x, w))| == V
  {
    var s := set w: nat | w < V :: Query(x, w);
    if V == 0 {
      assert s == {};
    } else {
      SetSize(x, V - 1);
      assert s == (set w: nat | w < V - 1 :: Query(x, w)) + {Query(x, V - 1)};
    }
  }

  lemma {:induction false} SeqSetSize(qs: seq<Query>)
    ensures |(set i | 0 <= i < |qs| :: qs[i])| <= |qs|
  {
    var s := set i | 0 <= i < |qs| :: qs[i];
    if qs == [] {
      assert s == {};
    } else {
      var t := set i | 0 <= i < |qs[1..]| :: qs[1..][i];
      SeqSetSize(qs[1..]);
      assert s == t + {qs[0]} by {
        forall q | q in s ensures q in t + {qs[0]} {
          var i :| 0 <= i < |qs| && qs[i] == q;
          if i > 0 { assert qs[1..][i - 1] == q; }
        }
        forall q | q in t ensures q in s {
          var i :| 0 <= i < |qs[1..]| && qs[1..][i] == q;
          assert qs[i + 1] == q;
        }
      }
    }
  }

  lemma {:induction false} SubsetSize(s: set<Query>, t: set<Query>)
    requires s <= t
    ensures |s| <= |t|
  {
    assert t == s + (t - s);
  }

  /** With fewer queries than versions, a passing check puts every queried value in {1..T},
      whatever versions the prover supplied. */
  lemma SetSoundness(T: nat, V: nat, qs: seq<Query>, fin: seq<nat>)
    requires V >= 1 && SetPasses(T, V, qs, fin) && |qs| < V
    ensures AllMembers(T, qs)
  {
    forall i | 0 <= i < |qs| ensures 1 <= qs[i].elem <= T {
      var x, w := qs[i].elem, qs[i].ver;
      if x == 0 || x > T {
        assert qs[i] == Query(x, w);
        forall u: nat | u < V ensures Query(x, u) in qs {
          var k := if u >= w then u - w else u + V - w;
          AllVersions(T, V, qs, fin, x, w, k);
          ModUnique(w + k, V, if u >= w then 0 else 1, u);
        }
        CoverCount(qs, x, V);
        assert false;
      }
    }
  }

  // ---- the honest prover ----

  // Queries of the values xs with the versions the honest prover supplies, from version table ver.
  function HonestQueries(ver: seq<nat>, xs: seq<nat>): (qs: seq<Query>)
    ensures |qs| == |xs|
    decreases |xs|
  {
    if xs == [] then []
    else if xs[0] < |ver| then [Query(xs[0], ver[xs[0]])] + HonestQueries(ver[xs[0] := ver[xs[0]] + 1], xs[1..])
    else [Query(xs[0], 0)] + HonestQueries(ver, xs[1..])
  }

  function FinalVersions(ver: seq<nat>, xs: seq<nat>): (r: seq<nat>)
    ensures |r| == |ver|
    decreases |xs|
  {
    if xs == [] then ver
    else FinalVersions(if xs[0] < |ver| then ver[xs[0] := ver[xs[0]] + 1] else ver, xs[1..])
  }

  // The records not read yet: element e (from 1) in its latest version.
  function Pending(ver: seq<nat>): (r: seq<Rec>)
    requires |ver| >= 1
    ensures |r| == |ver| - 1
  {
    TeardownReads(ver[1..])
  }

  lemma PendingUpdate(ver: seq<nat>, x: nat)
    requires 1 <= x < |ver|
    ensures multiset(Pending(ver[x := ver[x] + 1])) + multiset{Rec(x, ver[x])}
         == multiset(Pending(ver)) + multiset{Rec(x, ver[x] + 1)}
  {
    var p := Pending(ver);
    assert Pending(ver[x := ver[x] + 1]) == p[x - 1 := Rec(x, ver[x] + 1)];
    assert p[x - 1] == Rec(x, ver[x]);
  }

  ghost predicate Below(ver: seq<nat>, bound: nat) {
    forall e :: 0 <= e < |ver| ==> ver[e] < bound
  }

  /** Conservation: over any in-range queries, what was pending plus what was written is what was
      read plus what is pending now, and no version wraps around. */
  lemma {:induction false} HonestBalance(T: nat, V: nat, ver: seq<nat>, xs: seq<nat>)
    requires |xs| <= V && 1 <= V && |ver| == T + 1 && Below(ver, V - |xs|)
    requires forall i :: 0 <= i < |xs| ==> 1 <= xs[i] <= T
    ensures multiset(Pending(ver)) + multiset(QueryWrites(V, HonestQueries(ver, xs)))
         == multiset(QueryReads(HonestQueries(ver, xs))) + multiset(Pending(FinalVersions(ver, xs)))
    decreases |xs|
  {
    if xs != [] {
      var x, v := xs[0], ver[xs[0]];
      var ver' := ver[x := v + 1];
      var rest := HonestQueries(ver', xs[1..]);
      HonestBalance(T, V, ver', xs[1..]);
      PendingUpdate(ver, x);
      ModUnique(v + 1, V, 0, v + 1);
      FirstQuery(V, x, v, rest);
      Exchange(multiset(Pending(ver)), multiset(Pending(ver')), Rec(x, v), Rec(x, v + 1),
               multiset(QueryWrites(V, rest)), multiset(QueryReads(rest)), multiset(Pending(FinalVersions(ver, xs))));
    }
  }

  lemma Exchange(p: multiset<Rec>, p': multiset<Rec>, r: Rec, w: Rec, ws: multiset<Rec>, rs: multiset<Rec>,
                 f: multiset<Rec>)
    requires p' + multiset{r} == p + multiset{w} && p' + ws == rs + f
    ensures p + (multiset{w} + ws) == (multiset{r} + rs) + f
  {
    assert p + (multiset{w} + ws) == (p + multiset{w}) + ws == (p' + multiset{r}) + ws == (p' + ws) + multiset{r};
  }

  lemma {:induction false} HonestElems(T: nat, V: nat, ver: seq<nat>, xs: seq<nat>, i: nat)
    requires |xs| <= V && 1 <= V && |ver| == T + 1 && Below(ver, V - |xs|) && i < |xs|
    ensures HonestQueries(ver, xs)[i].elem == xs[i] && HonestQueries(ver, xs)[i].ver < V
    decreases |xs|
  {
    if i > 0 {
      HonestElems(T, V, if xs[0] < |ver| then ver[xs[0] := ver[xs[0]] + 1] else ver, xs[1..], i - 1);
    }
  }

  lemma FirstQuery(V: nat, x: nat, v: nat, rest: seq<Query>)
    requires v + 1 < V && (v + 1) % V == v + 1
    ensures multiset(QueryReads([Query(x, v)] + rest)) == multiset{Rec(x, v)} + multiset(QueryReads(rest))
    ensures multiset(QueryWrites(V, [Query(x, v)] + rest)) == multiset{Rec(x, v + 1)} + multiset(QueryWrites(V, rest))
  {
    assert QueryReads([Query(x, v)] + rest) == [Rec(x, v)] + QueryReads(rest);
    assert QueryWrites(V, [Query(x, v)] + rest) == [Rec(x, v + 1)] + QueryWrites(V, rest);
  }

  function NoVersions(n: nat): (r: seq<nat>)
    ensures |r| == n
  {
    seq(n, _ => 0)
  }

  /** The honest prover always passes, as long as there are fewer queries than versions. */
  lemma HonestSetPasses(T: nat, V: nat, xs: seq<nat>)
    requires |xs| < V && forall i :: 0 <= i < |xs| ==> 1 <= xs[i] <= T
    ensures SetPasses(T, V, HonestQueries(NoVersions(T + 1), xs), FinalVersions(NoVersions(T + 1), xs)[1..])
  {
    var z := NoVersions(T + 1);
    HonestBalance(T, V, z, xs);
    forall i | 0 <= i < |xs| ensures HonestQueries(z, xs)[i].ver < V { HonestElems(T, V, z, xs, i); }
    assert Pending(z) == SetupRecs(T);
    var qs, fin := HonestQueries(z, xs), FinalVersions(z, xs)[1..];
    assert multiset(QueryReads(qs) + TeardownReads(fin)) == multiset(QueryReads(qs)) + multiset(TeardownReads(fin));
    assert multiset(SetupRecs(T) + QueryWrites(V, qs)) == multiset(SetupRecs(T)) + multiset(QueryWrites(V, qs));
  }

  // ---- exactness ----

  ghost predicate SetSound(T: nat, V: nat, most: nat)
    requires V >= 1
  {
    forall qs: seq<Query>, fin: seq<nat> :: SetPasses(T, V, qs, fin) && |qs| <= most ==> AllMembers(T, qs)
  }

  // A value outside the set, queried once in every version: each query reads what another wrote.
  lemma OutsideCycle(T: nat, V: nat)
    requires V >= 1
    ensures var qs := seq(V, w requires 0 <= w < V => Query(0, w));
            SetPasses(T, V, qs, NoVersions(T)) && |qs| == V && !AllMembers(T, qs)
  {
    var qs := seq(V, w requires 0 <= w < V => Query(0, w));
    var rs, ws := QueryReads(qs), QueryWrites(V, qs);
    forall w | 0 <= w < V ensures ws[w] == Rec(0, if w + 1 == V then 0 else w + 1) {
      ModUnique(w + 1, V, if w + 1 == V then 1 else 0, if w + 1 == V then 0 else w + 1);
    }
    assert rs == [Rec(0, 0)] + rs[1..];
    assert ws == rs[1..] + [Rec(0, 0)];
    assert multiset(rs) == multiset{Rec(0, 0)} + multiset(rs[1..]);
    assert multiset(ws) == multiset(rs[1..]) + multiset{Rec(0, 0)};
    assert TeardownReads(NoVersions(T)) == SetupRecs(T);
    assert multiset(rs + SetupRecs(T)) == multiset(rs) + multiset(SetupRecs(T));
    assert multiset(SetupRecs(T) + ws) == multiset(SetupRecs(T)) + multiset(ws);
    assert qs[0] == Query(0, 0);
  }

  /** Membership is proved exactly as long as there are fewer queries than versions. */
  lemma SetSoundExactly(T: nat, V: nat, most: nat)
    requires V >= 1
    ensures SetSound(T, V, most) <==> most < V
  {
    if most < V {
      forall qs: seq<Query>, fin: seq<nat> | SetPasses(T, V, qs, fin) && |qs| <= most ensures AllMembers(T, qs) {
        SetSoundness(T, V, qs, fin);
      }
    } else {
      OutsideCycle(T, V);
    }
  }

  // ---- the object ----

  lemma QuerySnoc(V: nat, qs: seq<Query>, q: Query)
    requires V >= 1
    ensures QueryReads(qs + [q]) == QueryReads(qs) + [Rec(q.elem, q.ver)]
    ensures QueryWrites(V, qs + [q]) == QueryWrites(V, qs) + [Rec(q.elem, (q.ver + 1) % V)]
  {
  }

  // No query supplies a version higher than the number of queries before it.
  ghost predicate EarlyVersions(qs: seq<Query>) {
    forall i :: 0 <= i < |qs| ==> qs[i].ver <= i
  }

  // What is written and not yet read are the current versions.
  ghost predicate Matching(ws: seq<Rec>, rs: seq<Rec>, ver: seq<nat>)
    requires ver != []
  {
    multiset(ws) == multiset(rs) + multiset(Pending(ver))
  }

  // A query of a member moves its pending record to the next version.
  lemma MemberKeeps(T: nat, V: nat, n: nat, ver: seq<nat>, rs: seq<Rec>, ws: seq<Rec>, v: nat)
    requires |ver| == T + 1 && T < V && 1 <= v <= T && n < T && Below(ver, n + 1)
    requires Matching(ws, rs, ver)
    ensures Below(ver[v := ver[v] + 1], n + 2)
    ensures Matching(ws + [Rec(v, (ver[v] + 1) % V)], rs + [Rec(v, ver[v])], ver[v := ver[v] + 1])
  {
    ModUnique(ver[v] + 1, V, 0, ver[v] + 1);
    PendingUpdate(ver, v);
    Advance(multiset(rs), multiset(ws), multiset(Pending(ver)), multiset(Pending(ver[v := ver[v] + 1])),
            Rec(v, ver[v]), Rec(v, ver[v] + 1));
  }

  class ZKSet {
    const T: nat
    const verSz: nat
    var ver: seq<nat>
    var readRecs: seq<Rec>
    var writeRecs: seq<Rec>
    ghost var queried: seq<Query>

    ghost predicate Valid()
      reads this
    {
      && |ver| == T + 1
      && Width(T, verSz)
      && readRecs == QueryReads(queried)
      && writeRecs == SetupRecs(T) + QueryWrites(Pow2(verSz), queried)
      && EarlyVersions(queried) && forall v :: 0 <= v < |ver| ==> ver[v] <= |queried|
    }

    // The pending records are exactly (e, ver[e]), and no version is near wrapping around.
    ghost predicate Balanced()
      reads this
      requires Valid()
    {
      Matching(writeRecs, readRecs, ver) && (|queried| <= T ==> Below(ver, |queried| + 1))
    }

    constructor (T: nat)
      ensures Valid() && Balanced() && this.T == T
      ensures queried == [] && ver == NoVersions(T + 1)
    {
      this.T := T;
      var b := BitsFor(T);
      verSz := b;
      ver := NoVersions(T + 1);
      queried := [];
      readRecs := [];
      writeRecs := [];
      new;
      var e := 1;
      while e <= T
        invariant 1 <= e <= T + 1
        invariant writeRecs == SetupRecs(e - 1)
        invariant readRecs == [] && queried == [] && ver == NoVersions(T + 1)
      {
        assert SetupRecs(e) == SetupRecs(e - 1) + [Rec(e, 0)];
        writeRecs := writeRecs + [Rec(e, 0)];
        e := e + 1;
      }
      assert QueryWrites(Pow2(verSz), queried) == [];
      assert SetupRecs(T) + [] == SetupRecs(T);
      assert Pending(ver) == SetupRecs(T);
    }

    // An element index beyond the table reads the default version and updates nothing.
    method ProveMember(v: nat)
      requires Valid()
      modifies this
      ensures Valid()
      ensures queried == old(queried) + [Query(v, if v <= T then old(ver)[v] else 0)]
      ensures ver == if v <= T then old(ver)[v := old(ver)[v] + 1] else old(ver)
      ensures 1 <= v <= T && old(Balanced()) && |queried| <= T ==> Balanced()
    {
      hide QueryReads, QueryWrites, SetupRecs, Matching, Pow2, Below;
      var inRange := v <= T;
      var vv := if inRange then ver[v] else 0;
      QuerySnoc(Pow2(verSz), queried, Query(v, vv));
      if 1 <= v <= T && |queried| < T && Balanced() {
        MemberKeeps(T, Pow2(verSz), |queried|, ver, readRecs, writeRecs, v);
      }
      readRecs := readRecs + [Rec(v, vv)];
      writeRecs := writeRecs + [Rec(v, (vv + 1) % Pow2(verSz))];
      queried := queried + [Query(v, vv)];
      if inRange { ver := ver[v := vv + 1]; }
    }

    // Teardown reads every element's latest version; the verdict is whether reads permute writes.
    method Check() returns (ok: bool)
      requires Valid()
      modifies this`readRecs
      ensures readRecs == old(readRecs) + TeardownReads(ver[1..]) && (ok <==> multiset(readRecs) == multiset(writeRecs))
      ensures ok && (forall i :: 0 <= i < |queried| ==> queried[i].ver < Pow2(verSz)) ==>
                 SetPasses(T, Pow2(verSz), queried, ver[1..])
      ensures |queried| <= T ==> (ok <==> SetPasses(T, Pow2(verSz), queried, ver[1..]))
      ensures old(Balanced()) ==> ok
      ensures |queried| <= T && !AllMembers(T, queried) ==> !ok
    {
      hide QueryReads, QueryWrites, SetupRecs, Below, AllMembers;
      var final, e := [], 1;
      while e <= T
        invariant 1 <= e <= T + 1
        invariant final == Pending(ver)[..e - 1]
      {
        final := final + [Rec(e, ver[e])];
        e := e + 1;
      }
      assert final == Pending(ver);
      ok := multiset(readRecs + final) == multiset(writeRecs);
      assert multiset(readRecs + final) == multiset(readRecs) + multiset(Pending(ver));
      if |queried| <= T {
        assert ok <==> SetPasses(T, Pow2(verSz), queried, ver[1..]);
        if ok { SetSoundness(T, Pow2(verSz), queried, ver[1..]); }
      }
      readRecs := readRecs + final;
    }
  }
}
