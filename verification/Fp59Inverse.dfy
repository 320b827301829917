/** Inversion modulo p by the extended Euclidean algorithm on signed 64-bit integers: every
    intermediate value stays within p in absolute value, and the result is the inverse. */
module Fp59Inverse {
  import opened Options
  import opened Primes
  import opened Fp59Prime
  import opened Fp59

  // The loop as a function of its four variables.
  function Euclid(k: int, newK: int, r: nat, newR: nat): int
    decreases newR
  {
    if newR == 0 then k else Euclid(newK, k - (r / newR) * newK, newR, r % newR)
  }

  ghost predicate Small(k: int) {
    0 - 576460752034988033 <= k <= 576460752034988033
  }

  // e * a is 1 modulo p.
  ghost predicate Inverts(e: int, a: int) {
    0 - 576460752034988033 < e < 576460752034988033 && (e * a - 1) % P == 0
  }

  // k and newK have opposite signs; their sizes against the remainders always make p.
  ghost predicate Bezoutian(a: nat, k: int, newK: int, r: nat, newR: nat) {
    && 1 <= r && newR < r
    && (k * a - r) % P == 0 && (newK * a - newR) % P == 0
    && ((k <= 0 <= newK && newK * r - k * newR == P) || (newK <= 0 <= k && k * newR - newK * r == P)) && r <= P
    && Small(k) && Small(newK)
    && (r == P ==> newR == a)
  }

  lemma FirstStep(a: nat)
    requires 1 <= a < P
    ensures Bezoutian(a, 0, 1, P, a)
  {
    ModOf(0 - 576460752034988033, P, -1, 0);
  }

  lemma Combination(a: int, k: int, n: int, r: int, s: int, q: int)
    requires (k * a - r) % P == 0 && (n * a - s) % P == 0
    ensures ((k - q * n) * a - (r - q * s)) % P == 0
  {
    var x, y := (k * a - r) / P, (n * a - s) / P;
    assert k * a - r == P * x && n * a - s == P * y;
    assert (k - q * n) * a == k * a - q * (n * a) by { Assoc(q, n, a); Distribute(a, k, q * n); Commute(a,
        k); Commute(a, q * n); Commute(a, k - q * n); }
    Distribute(q, n * a, s);
    assert q * (P * y) == P * (q * y) by { Assoc(q, P, y); Commute(q, P); Assoc(P, q, y); }
    Distribute(P, x, q * y);
    ModOf(P * (x - q * y), P, x - q * y, 0);
  }

  // The size equation is kept.
  lemma SizesKept(k: int, n: int, r: nat, s: nat, q: nat, t: nat)
    requires 1 <= s && r == s * q + t
    ensures n * r - k * s == 0 - (k - q * n) * s + n * t
  {
    assert n * r == q * n * s + n * t by {
      Distribute(n, s * q, t);
      Commute(s, q);
      Assoc(q, s, n);
      Commute(n, q * s);
      Commute(s, n);
      Assoc(q, n, s);
    }
    assert (k - q * n) * s == k * s - q * n * s by {
      Distribute(s, k, q * n);
      Commute(s, k);
      Commute(s, q * n);
      Commute(s, k - q * n);
    }
  }

  // A nonnegative multiple of s >= 1 that is at most P comes from a factor at most P.
  lemma FactorAtMost(x: int, s: nat)
    requires x >= 0 && s >= 1 && x * s <= P
    ensures x <= P
  {
    AtLeast(x, s, 1);
  }

  // The sizes, in the case k <= 0 <= n.
  lemma StepSizes(k: int, n: int, r: nat, s: nat, q: nat, t: nat)
    requires k <= 0 <= n && n * r - k * s == 576460752034988033 && 1 <= s && r == s * q + t
    ensures var m := k - q * n;
            m <= 0 && n * t - m * s == 576460752034988033 && Small(m) && Small(q * n)
  {
    var m := k - q * n;
    SizesKept(k, n, r, s, q, t);
    AtLeast(q, n, 0);
    AtLeast(n, t, 0);
    Distribute(s, 0, m);
    Commute(s, m);
    Commute(s, 0 - m);
    FactorAtMost(0 - m, s);
  }

  lemma Negated(k: int, n: int, r: nat, s: nat, q: nat, t: nat)
    ensures (0 - n) * r - (0 - k) * s == k * s - n * r
    ensures (0 - n) * t - (0 - k - q * (0 - n)) * s == (k - q * n) * s - n * t
    ensures q * (0 - n) == 0 - q * n
  {
    Distribute(q, 0, n);
    var m := k - q * n;
    Distribute(s, 0, m);
    Commute(s, 0 - m);
    Commute(s, m);
    Distribute(t, 0, n);
    Commute(t, 0 - n);
    Commute(t, n);
    Distribute(r, 0, n);
    Commute(r, 0 - n);
    Commute(r, n);
    Distribute(s, 0, k);
    Commute(s, 0 - k);
    Commute(s, k);
  }

  lemma EuclidStep(a: nat, k: int, n: int, r: nat, s: nat, q: nat, t: nat)
    requires 1 <= a < P && Bezoutian(a, k, n, r, s) && s >= 1 && q == r / s && t == r % s
    ensures t == r - q * s && Bezoutian(a, n, k - q * n, s, t)
    ensures Small(q * n) && Small(q * s)
  {
    DivFacts(r, s);
    Commute(s, q);
    Combination(a, k, n, r, s, q);
    if k <= 0 <= n {
      StepSizes(k, n, r, s, q, t);
    } else {
      Negated(k, n, r, s, q, t);
      StepSizes(0 - k, 0 - n, r, s, q, t);
    }
    AtLeast(s, q, 0);
  }

  // The inverse as a residue: 0 for 0.
  function InvOf(a: fp): int {
    if a == 0 then 0
    else
      var k := Euclid(0, 1, P, a);
      if k < 0 then k + P else k
  }

  lemma {:induction false} EuclidEnds(a: nat, k: int, n: int, r: nat, s: nat)
    requires 1 <= a < P && Bezoutian(a, k, n, r, s)
    ensures Inverts(Euclid(k, n, r, s), a)
    decreases s
  {
    if s == 0 {
      LastRemainder(a, k, n, r);
    } else {
      EuclidStep(a, k, n, r, s, r / s, r % s);
      EuclidEnds(a, n, k - (r / s) * n, s, r % s);
    }
  }

  // At the end r divides p and is less than p, so it is 1.
  lemma LastRemainder(a: nat, k: int, n: int, r: nat)
    requires 1 <= a < P && Bezoutian(a, k, n, r, 0)
    ensures Inverts(k, a)
  {
    PIsPrime();
    var m := if n >= 0 then n else 0 - n;
    assert m * r == P by { Distribute(r, 0, n); Commute(r, n); Commute(r, 0 - n); }
    Commute(m, r);
    ModOf(P, r, m, 0);
    assert r <= P by { if m >= 1 { AtLeast(r, m, 1); } }
    assert r != P;
    assert r == 1;
    if k == P || k == 0 - P {
      ModOf(k * a - 1, P, if k == P then a - 1 else 0 - a - 1, P - 1);
    }
  }

  /** The inverse is a reduced residue, and a times it is 1 modulo p. */
  lemma InvOfCorrect(a: fp)
    requires a != 0
    ensures 0 < InvOf(a) < P && (InvOf(a) * a) % P == 1
  {
    FirstStep(a);
    EuclidEnds(a, 0, 1, P, a);
    var k, i := Euclid(0, 1, P, a), InvOf(a);
    var x := (k * a - 1) / P;
    assert k * a == P * x + 1;
    if k < 0 {
      assert (k + P) * a == P * (x + a) + 1 by {
        Distribute(a, k, P);
        Commute(a, k + P);
        Commute(a, k);
        Commute(a, P);
        Distribute(P, x, a);
      }
      ModOf(i * a, P, x + a, 1);
    } else {
      ModOf(i * a, P, x, 1);
    }
    if k == 0 { ModOf(0, P, 0, 0); }
  }

  /** Inversion as the code runs it: the variables are 64-bit integers throughout. */
  method ModInv(a: word) returns (inv: Option<word>)
    requires a < P
    ensures inv.None? <==> a == 0
    ensures inv.Some? ==> inv.value == InvOf(a) && 0 < inv.value < P && (inv.value * a) % P == 1
  {
    if a == 0 { return None; }
    var k: int64, newK: int64 := 0, 1;
    var r: int64, newR: int64 := 576460752034988033, a;
    FirstStep(a);
    while newR != 0
      invariant 0 <= newR && 0 <= r && Bezoutian(a, k, newK, r, newR)
      invariant Euclid(k, newK, r, newR) == Euclid(0, 1, P, a)
      decreases newR
    {
      EuclidStep(a, k, newK, r, newR, r / newR, r % newR);
      var q: int64 := r / newR;
      var tmp: int64 := newK;
      var product: int64 := q * tmp;
      newK := k - product;
      k := tmp;
      tmp := newR;
      product := q * tmp;
      newR := r - product;
      r := tmp;
    }
    InvOfCorrect(a);
    EuclidEnds(a, k, newK, r, 0);
    if k < 0 { k := k + 576460752034988033; }
    inv := Some(k);
  }
}
