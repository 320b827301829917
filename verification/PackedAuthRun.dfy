/** The loops behind the packed sharings: drawing correlations across refills, converting them,
    dealing the key sharings, and turning a received packed share into shares of k wires. */
module PackedAuthRun {
  import opened Bits
  import opened Algebra
  import opened Interpolation
  import opened AuthShares
  import opened PackedPoly
  import opened PackedAuth
  import opened PolyConversions
  import opened LagrangeTables
  import opened NttFixed
  import opened OpenCheck

  // ---- drawing correlations ----

  lemma StreamIndex(e: nat, l: nat, usable: nat)
    requires l < usable
    ensures (e * usable + l) / usable == e && (e * usable + l) % usable == l
  {
    var g := e * usable + l;
    var q := g / usable;
    assert g == usable * q + g % usable;
    TimesSwap(usable, q);
    if e < q { MoreCopies(e, q, usable); }
    if q < e { MoreCopies(q, e, usable); }
  }

  // Position of entry p of extend e (counted from one).
  ghost function Pos(usable: nat, e: nat, p: nat): nat {
    if e == 0 then 0 else (e - 1) * usable + p
  }

  lemma PosStep(usable: nat, e: nat, p: nat, take: nat)
    ensures e > 0 ==> Pos(usable, e, p + take) == Pos(usable, e, p) + take
    ensures e > 0 ==> Pos(usable, e + 1, 0) == Pos(usable, e, usable)
    ensures Pos(usable, 1, 0) == 0 == Pos(usable, 0, p)
    ensures e > 0 ==> Pos(usable, e, p) == (e - 1) * usable + p && e * usable == (e - 1) * usable + usable
    ensures e > 0 && p < usable ==> Pos(usable, e, p) / usable == e - 1 && Pos(usable, e, p) % usable == p
  {
    if e > 0 && p < usable { StreamIndex(e - 1, p, usable); }
    if e > 0 { MoreCopies(e - 1, e, usable); }
  }

  /** A party's buffer of correlations: `vole(e)` is what the e-th extend delivers. */
  class Correlations<C(!new)> {
    const usable: nat
    const vole: (nat, nat) -> C
    var current: seq<C>
    var ptr: nat
    var extendCount: nat

    ghost predicate Valid() reads this {
      && 1 <= usable && ptr <= usable
      && (extendCount == 0 ==> ptr == usable)
      && (extendCount > 0 ==> 1 <= ptr && Loaded())
    }

    ghost predicate Loaded() reads `current, `extendCount {
      1 <= extendCount && |current| == usable && forall l :: 0 <= l < usable ==> current[l] == vole(extendCount - 1, l)
    }

    // How many correlations have been drawn.
    ghost function Position(): nat reads this {
      Pos(usable, extendCount, ptr)
    }

    // The g-th correlation of the whole run.
    ghost function At(g: nat): C requires 1 <= usable {
      vole(g / usable, g % usable)
    }

    constructor (usable: nat, vole: (nat, nat) -> C)
      requires 1 <= usable
      ensures Valid() && this.usable == usable && this.vole == vole && Position() == 0
    {
      this.usable, this.vole := usable, vole;
      current, ptr, extendCount := [], usable, 0;
    }

    method Refill()
      modifies this
      ensures ptr == 0 && extendCount == old(extendCount) + 1 && Loaded()
    {
      var e := extendCount;
      current := seq(usable, l requires 0 <= l < usable => vole(e, l));
      ptr := 0;
      extendCount := e + 1;
    }

    /** Draws `num` correlations, refilling exactly when the buffer is exhausted, and converts
        them: always the next ones of the stream, whatever the fill level. */
    method RandAuthVal<R>(conv: C -> R, num: nat) returns (out: seq<R>)
      requires Valid()
      modifies this
      ensures Valid() && Position() == old(Position()) + num
      ensures |out| == num && forall i :: 0 <= i < num ==> out[i] == conv(At(old(Position()) + i))
      ensures num > 0 ==> extendCount > 0 && (extendCount - 1) * usable < Position() <= extendCount * usable
    {
      hide Pos, Loaded, At;
      ghost var start := Position();
      out := [];
      var done := 0;
      while done < num
        invariant Valid() && 0 <= done <= num && Position() == start + done && |out| == done
        invariant forall i :: 0 <= i < done ==> out[i] == conv(At(start + i))
        invariant done > 0 ==> extendCount > 0
      {
        PosStep(usable, extendCount, usable, 0);
        if ptr == usable { Refill(); }
        var take := if num - done <= usable - ptr then num - done else usable - ptr;
        PosStep(usable, extendCount, ptr, take);
        var part := ConvertRange(conv, ptr, take);
        ptr := ptr + take;
        out := out + part;
        done := done + take;
      }
      PosStep(usable, extendCount, ptr, 0);
    }

    method ConvertRange<R>(conv: C -> R, from: nat, take: nat) returns (out: seq<R>)
      requires 1 <= usable && Loaded() && from + take <= usable
      ensures |out| == take && forall i :: 0 <= i < take ==> out[i] == conv(At(Pos(usable, extendCount, from) + i))
    {
      out := [];
      for l := 0 to take
        invariant |out| == l && forall i :: 0 <= i < l ==> out[i] == conv(At(Pos(usable, extendCount, from) + i))
      {
        PosStep(usable, extendCount, from, l);
        PosStep(usable, extendCount, from + l, 0);
        out := out + [conv(current[from + l])];
      }
    }
  }

  // ---- one correlation ----

  method MacLoop<E(!new)>(F: Field<E>, i: nat, delta_i: E, c: Corr<E>) returns (mac: E, key: seq<E>)
    requires F.Laws() && |c.macs| == |c.keys|
    ensures mac == MacSum(F, i, delta_i, c) && key == Without(F, c.keys, i)
  {
    mac, key := F.Mul(c.u, delta_i), [];
    ghost var w, own := Without(F, c.macs, i), mac;
    Zero(F, own);
    for j := 0 to |c.macs|
      invariant mac == F.Add(own, Sum(F, w[..j])) && key == Without(F, c.keys, i)[..j]
    {
      SumTake(F, w, j);
      assert At3(own, Sum(F, w[..j]), w[j]);
      if j == i {
        Zero(F, mac);
        key := key + [F.zero];
      } else {
        key := key + [c.keys[j]];
        mac := F.Add(mac, c.macs[j]);
      }
    }
    assert w[..|w|] == w;
  }

  ghost predicate Tabulated<E(!new)>(F: Field<E>, from: seq<E>, to: seq<E>, rows: seq<seq<E>>) {
    |rows| == |to| && forall i :: 0 <= i < |to| ==> rows[i] == LagrangeRow(F, from, to[i])
  }

  /** A verifier's conversion of one correlation, for k < n. */
  method ConvertCorr<E(!new)>(poly: Poly<E>, rows: seq<seq<E>>, id: nat, delta_i: E, c: Corr<E>) returns (sh: Lanes<E>)
    requires poly.Valid() && poly.logK < poly.logN && id < Pow2(poly.logN) == |c.macs| == |c.keys|
    requires Tabulated(poly.F, poly.evalPointsN, poly.evalPointsK, rows)
    ensures id < |poly.evalPointsN| == |c.keys|
    ensures sh == RandShare(poly.F, poly.evalPointsN, poly.evalPointsK, id, delta_i, c)
  {
    var F := poly.F;
    ghost var from, to := poly.evalPointsN, poly.evalPointsK;
    var mac, key := MacLoop(F, id, delta_i, c);
    var macs := EvalOne(F, rows, from, to, id, mac);
    var vals := EvalOne(F, rows, from, to, id, c.u);
    var keys := poly.NttEvalN2K(key);
    sh := Lanes(macs, keys.value, vals);
  }

  // ---- key sharings and wire batches ----

  // The shares one dealer hands out for one slot; `rows` evaluates the polynomial through
  // (x, key) and the t random values at the remaining party points.
  method DealKey<E(!new)>(F: Field<E>, rows: seq<seq<E>>, ghost from: seq<E>, t: nat, ghost x: E, key: E, rand: seq<E>)
    returns (out: seq<E>)
    requires F.Laws() && t <= |from| && |rand| == t && Tabulated(F, [x] + from[..t], from[t..], rows)
    ensures out == Dealt(F, from, t, x, key, rand)
  {
    var rest := EvalTable(F, rows, [x] + from[..t], from[t..], [key] + rand);
    out := rand + rest;
  }

  // Adds up what the dealers sent.
  method SumDealt<E(!new)>(F: Field<E>, k: nat, bufs: seq<seq<E>>) returns (acc: seq<E>)
    requires F.Laws() && Rows(k, bufs)
    ensures acc == Total(F, k, bufs)
  {
    acc := Zeros(F, k);
    for i := 0 to |bufs|
      invariant acc == Total(F, k, bufs[..i])
    {
      assert bufs[..i + 1] == bufs[..i] + [bufs[i]];
      TotalSnoc(F, k, bufs[..i], bufs[i]);
      acc := VAdd(F, acc, bufs[i]);
    }
    assert bufs[..|bufs|] == bufs;
  }

  method GenSharesLoop<E(!new)>(F: Field<E>, rows: seq<seq<E>>, ghost from: seq<E>, ghost to: seq<E>, id: nat, s: E,
                                keyShare: seq<E>, base: Lanes<E>) returns (sh: Lanes<E>)
    requires id < |from| && |keyShare| == |to| == |base.mac| == |base.val| && Tabulated(F, from, to, rows)
    ensures sh == GenShare(F, from, to, id, s, keyShare, base)
  {
    var diff := EvalOne(F, rows, from, to, id, s);
    var mac, val := [], [];
    for i := 0 to |rows|
      invariant val == GenShare(F, from, to, id, s, keyShare, base).val[..i]
      invariant mac == GenShare(F, from, to, id, s, keyShare, base).mac[..i]
    {
      val := val + [F.Add(base.val[i], diff[i])];
      mac := mac + [F.Add(base.mac[i], F.Mul(rows[i][id], F.Mul(s, keyShare[i])))];
    }
    sh := Lanes(mac, base.key, val);
  }

  // ---- buffers ----

  lemma PartSnoc<E>(buf: seq<E>, more: seq<E>, k: nat, n: nat, l: nat)
    requires |buf| == k * n && |more| == k && l <= n
    ensures |buf + more| == k * (n + 1) && k * l + k <= |buf + more|
    ensures l < n ==> k * l + k <= |buf|
    ensures Part(buf + more, k, l) == if l < n then Part(buf, k, l) else more
  {
    PartsFit(k, l, n);
    var a := k * l;
    if l < n {
      assert (buf + more)[a..a + k] == buf[a..a + k];
    } else {
      assert (buf + more)[a..a + k] == more;
    }
  }

  lemma PartsFit(k: nat, l: nat, n: nat)
    requires l <= n
    ensures k * l <= k * n && k * (n + 1) == k * n + k && (l < n ==> k * l + k <= k * n)
  {
    TimesSwap(k, l);
    TimesSwap(k, n);
    TimesSwap(k, n + 1);
    if l < n { MoreCopies(l, n, k); }
  }

  /** The prover's refill: the next num correlations, converted and laid out one after another. */
  method FillSecrets<C(!new), E(!new)>(c: Correlations<C>, conv: C -> seq<E>, k: nat, num: nat) returns (out: seq<E>)
    requires c.Valid() && forall x: C :: |conv(x)| == k
    modifies c
    ensures c.Valid() && c.Position() == old(c.Position()) + num && |out| == k * num
    ensures forall l :: 0 <= l < num ==> k * l + k <= |out| && Part(out, k, l) == conv(c.At(old(c.Position()) + l))
  {
    var rows := c.RandAuthVal(conv, num);
    out := [];
    for n := 0 to num
      invariant |out| == k * n
      invariant forall l :: 0 <= l < n ==> k * l + k <= |out| && Part(out, k, l) == rows[l]
    {
      hide Part;
      forall l | 0 <= l <= n
        ensures k * l + k <= |out + rows[n]| && |out + rows[n]| == k * (n + 1)
        ensures Part(out + rows[n], k, l) == rows[l]
      {
        PartSnoc(out, rows[n], k, n, l);
      }
      out := out + rows[n];
    }
  }

  function AppendLanes<E>(a: Lanes<E>, b: Lanes<E>): Lanes<E> { Lanes(a.mac + b.mac, a.key + b.key, a.val + b.val) }

  ghost predicate LanesSize<E>(sh: Lanes<E>, n: nat) { |sh.mac| == |sh.key| == |sh.val| == n }

  lemma LanesSnoc<E>(buf: Lanes<E>, more: Lanes<E>, k: nat, n: nat, l: nat)
    requires LanesSize(buf, k * n) && LanesSize(more, k) && l <= n
    ensures LanesSize(AppendLanes(buf, more), k * (n + 1)) && LanesFit(AppendLanes(buf, more), k, l)
    ensures l < n ==> LanesFit(buf, k, l)
    ensures LanesPart(AppendLanes(buf, more), k, l) == if l < n then LanesPart(buf, k, l) else more
  {
    hide Part;
    PartSnoc(buf.mac, more.mac, k, n, l);
    PartSnoc(buf.key, more.key, k, n, l);
    PartSnoc(buf.val, more.val, k, n, l);
  }

  /** A verifier's refill of its three lanes, likewise. */
  method FillLanes<C(!new), E(!new)>(c: Correlations<C>, conv: C -> Lanes<E>, k: nat, num: nat)
    returns (out: Lanes<E>)
    requires c.Valid() && forall x: C :: LanesSize(conv(x), k)
    modifies c
    ensures c.Valid() && c.Position() == old(c.Position()) + num && LanesSize(out, k * num)
    ensures forall l :: 0 <= l < num ==> LanesFit(out, k, l) && LanesPart(out, k, l)
                                         == conv(c.At(old(c.Position()) + l))
  {
    var rows := c.RandAuthVal(conv, num);
    out := Lanes([], [], []);
    for n := 0 to num
      invariant LanesSize(out, k * n)
      invariant forall l :: 0 <= l < n ==> LanesFit(out, k, l) && LanesPart(out, k, l) == rows[l]
    {
      hide LanesPart, LanesFit, AppendLanes, LanesSize;
      assert LanesSize(rows[n], k);
      forall l | 0 <= l <= n
        ensures LanesFit(AppendLanes(out, rows[n]), k, l) && LanesSize(AppendLanes(out, rows[n]), k * (n + 1))
        ensures LanesPart(AppendLanes(out, rows[n]), k, l) == rows[l]
      {
        LanesSnoc(out, rows[n], k, n, l);
      }
      out := AppendLanes(out, rows[n]);
    }
  }

  /** A verifier's shares of the k wires of a batch, from its buffers at its pointer. */
  method SharesAt<E(!new)>(F: Field<E>, rows: seq<seq<E>>, ghost from: seq<E>, ghost to: seq<E>, id: nat, s: E,
                           keyShare: seq<E>, buf: Lanes<E>, k: nat, ptr: nat) returns (sh: Lanes<E>)
    requires id < |from| && |keyShare| == |to| == k && Tabulated(F, from, to, rows) && LanesFit(buf, k, ptr)
    ensures sh == GenShare(F, from, to, id, s, keyShare, LanesPart(buf, k, ptr))
  {
    var off := k * ptr;
    var base := Lanes(buf.mac[off..off + k], buf.key[off..off + k], buf.val[off..off + k]);
    sh := GenSharesLoop(F, rows, from, to, id, s, keyShare, base);
  }
}
