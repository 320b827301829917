/** Primality from a generator: if g has order n - 1 modulo n then n is prime. Used to show that the
    modulus of the prime field is what the code takes it to be. */
module Primes {
  ghost predicate Prime(n: nat) {
    n >= 2 && forall d :: 2 <= d < n ==> n % d != 0
  }

  // ---- divisibility ----

  lemma DivFacts(a: nat, n: nat)
    requires n >= 1
    ensures a == n * (a / n) + a % n && 0 <= a % n < n
  {
  }

  lemma SmallMultiple(n: int, k: int)
    requires 0 - n < n * k < n
    ensures k == 0
  {
    if k >= 1 { AtLeast(n, k, 1); }
    if k <= -1 { AtLeast(n, -1, k); }
  }

  lemma AtLeast(n: int, a: int, b: int)
    requires n >= 0 && a >= b
    ensures n * a >= n * b
  {
  }

  lemma ModOf(a: int, n: nat, q: int, r: int)
    requires n >= 1 && a == n * q + r && 0 <= r < n
    ensures a % n == r && a / n == q
  {
    var q', r' := a / n, a % n;
    assert a == n * q' + r' && 0 <= r' < n;
    Distribute(n, q, q');
    SmallMultiple(n, q - q');
  }

  lemma Distribute(n: int, a: int, b: int)
    ensures n * (a - b) == n * a - n * b && n * (a + b) == n * a + n * b
  {
  }

  // a and b leave the same remainder exactly when they differ by a multiple of n.
  lemma SameResidue(a: int, b: int, n: nat, k: int)
    requires n >= 1 && a == b + n * k
    ensures a % n == b % n
  {
    var q, r := b / n, b % n;
    assert b == n * q + r;
    assert a == n * (q + k) + r;
    ModOf(a, n, q + k, r);
  }

  lemma MulMod(a: int, b: int, n: nat)
    requires n >= 1
    ensures ((a % n) * b) % n == (a * b) % n && (a * (b % n)) % n == (a * b) % n
  {
    LeftMod(a, b, n, a / n, a % n);
    LeftMod(b, a, n, b / n, b % n);
    Commute(a, b);
    Commute(a, b % n);
  }

  lemma Commute(a: int, b: int)
    ensures a * b == b * a
  {
  }

  lemma LeftMod(a: int, b: int, n: nat, q: int, r: int)
    requires n >= 1 && a == n * q + r
    ensures (r * b) % n == (a * b) % n
  {
    Assoc(n, q, b);
    assert a * b == n * (q * b) + r * b by { Commute(a, b); Distribute(b, n * q, r); Commute(b, n * q); Commute(b, r); }
    SameResidue(a * b, r * b, n, q * b);
  }

  function Gcd(a: nat, b: nat): nat
    decreases b
  {
    if b == 0 then a else Gcd(b, a % b)
  }

  lemma MultipleIs(a: nat, d: nat) returns (k: nat)
    requires d >= 1 && a % d == 0
    ensures a == d * k
  {
    k := a / d;
  }

  lemma IsMultiple(a: int, d: nat, k: int)
    requires d >= 1 && a == d * k
    ensures a % d == 0
  {
    ModOf(a, d, k, 0);
  }

  ghost predicate Divides(d: nat, a: nat) {
    d >= 1 && a % d == 0
  }

  lemma {:induction false} GcdDivides(a: nat, b: nat)
    requires a + b >= 1
    ensures Divides(Gcd(a, b), a) && Divides(Gcd(a, b), b)
    decreases b
  {
    hide Divides;
    if b == 0 { DividesSelf(a); } else { GcdStep(a, b, a / b, a % b); }
  }

  lemma DividesSelf(a: nat)
    requires a >= 1
    ensures Divides(a, a) && Divides(a, 0)
  {
    IsMultiple(a, a, 1);
    IsMultiple(0, a, 0);
  }

  lemma {:induction false} GcdStep(a: nat, b: nat, q: nat, r: nat)
    requires b >= 1 && q == a / b && r == a % b < b
    ensures Divides(Gcd(a, b), a) && Divides(Gcd(a, b), b)
    decreases b, 0
  {
    DivFacts(a, b);
    assert Gcd(a, b) == Gcd(b, r);
    GcdDivides(b, r);
    hide Gcd;
    SumDivides(a, b, q, r, Gcd(b, r));
  }

  lemma SumDivides(a: nat, b: nat, q: nat, r: nat, g: nat)
    requires g >= 1 && a == b * q + r && b % g == 0 && r % g == 0
    ensures a % g == 0
  {
    var x := MultipleIs(b, g);
    var y := MultipleIs(r, g);
    Assoc(g, x, q);
    Distribute(g, x * q, y);
    IsMultiple(a, g, x * q + y);
  }

  lemma Assoc(a: int, b: int, c: int)
    ensures (a * b) * c == a * (b * c)
  {
  }

  lemma {:induction false} Bezout(a: nat, b: nat) returns (u: int, v: int)
    ensures u * a + v * b == Gcd(a, b)
    decreases b
  {
    if b == 0 {
      u, v := 1, 0;
    } else {
      var q := a / b;
      DivFacts(a, b);
      var u', v' := Bezout(b, a % b);
      u, v := v', u' - v' * q;
      assert u' * b + v' * (a - b * q) == v' * a + (u' - v' * q) * b;
    }
  }

  /** Gauss: what divides f * x and is not a multiple of the prime f divides x. */
  lemma Gauss(s: nat, f: nat, x: nat)
    requires s >= 1 && Prime(f) && s % f != 0 && (f * x) % s == 0
    ensures x % s == 0
  {
    var g := Gcd(s, f);
    GcdDivides(s, f);
    var k := MultipleIs(f, g);
    assert g <= f by { if k >= 1 { AtLeast(g, k, 1); } }
    assert g == 1;
    var u, v := Bezout(s, f);
    var y := MultipleIs(f * x, s);
    assert x == (u * s + v * f) * x == u * s * x + v * (f * x);
    assert u * s * x + v * (s * y) == s * (u * x + v * y);
    IsMultiple(x, s, u * x + v * y);
  }

  // ---- powers modulo n ----

  function PowMod(b: nat, e: nat, n: nat): (r: nat)
    requires n >= 2
    ensures r < n
  {
    if e == 0 then 1 else (b * PowMod(b, e - 1, n)) % n
  }

  lemma {:induction false} PowModAdd(b: nat, d: nat, e: nat, n: nat)
    requires n >= 2
    ensures PowMod(b, d + e, n) == (PowMod(b, d, n) * PowMod(b, e, n)) % n
  {
    var y := PowMod(b, e, n);
    if d == 0 {
      ModOf(y, n, 0, y);
    } else {
      var x := PowMod(b, d - 1, n);
      PowModAdd(b, d - 1, e, n);
      MulMod(b, x * y, n);
      MulMod(b * x, y, n);
      Assoc(b, x, y);
    }
  }

  lemma {:induction false} PowModMul(b: nat, d: nat, e: nat, n: nat)
    requires n >= 2
    ensures PowMod(PowMod(b, d, n), e, n) == PowMod(b, d * e, n)
  {
    if e != 0 {
      PowModMul(b, d, e - 1, n);
      PowModAdd(b, d, d * (e - 1), n);
      Distribute(d, e, 1);
    }
  }

  lemma {:induction false} PowModOne(e: nat, n: nat)
    requires n >= 2
    ensures PowMod(1, e, n) == 1
  {
    if e != 0 {
      PowModOne(e - 1, n);
      ModOf(1, n, 0, 1);
    }
  }

  lemma UnitMultiple(b: nat, d: nat, e: nat, n: nat)
    requires n >= 2 && PowMod(b, d, n) == 1
    ensures PowMod(b, d * e, n) == 1
  {
    PowModMul(b, d, e, n);
    PowModOne(e, n);
  }

  // Where two powers are 1, so is the power at their greatest common divisor.
  lemma {:induction false} UnitGcd(b: nat, d: nat, e: nat, n: nat)
    requires n >= 2 && PowMod(b, d, n) == 1 && PowMod(b, e, n) == 1
    ensures PowMod(b, Gcd(d, e), n) == 1
    decreases e
  {
    if e != 0 {
      var q, r := d / e, d % e;
      DivFacts(d, e);
      UnitMultiple(b, e, q, n);
      PowModAdd(b, e * q, r, n);
      ModOf(PowMod(b, r, n), n, 0, PowMod(b, r, n));
      UnitGcd(b, e, r, n);
    }
  }

  // ---- a generator of order n - 1 ----

  // No proper quotient of n - 1 kills g.
  ghost predicate Generates(g: nat, n: nat) {
    && n >= 2 && PowMod(g, n - 1, n) == 1
    && forall s :: 2 <= s ==> Survives(g, n, s)
  }

  // Dividing the exponent n - 1 by s leaves a power other than 1.
  ghost predicate Survives(g: nat, n: nat, s: nat)
    requires n >= 2 && s >= 1
  {
    (n - 1) % s == 0 ==> PowMod(g, (n - 1) / s, n) != 1
  }

  lemma NoEarlyUnit(g: nat, n: nat, t: nat)
    requires Generates(g, n) && 0 < t < n - 1
    ensures PowMod(g, t, n) != 1
  {
    var d := Gcd(n - 1, t);
    GcdDivides(n - 1, t);
    var s := MultipleIs(n - 1, d);
    var k := MultipleIs(t, d);
    SmallQuotient(n - 1, t, d, s, k);
    ModOf(n - 1, s, d, 0);
    assert Survives(g, n, s);
    if PowMod(g, t, n) == 1 { UnitGcd(g, n - 1, t, n); }
  }

  lemma SmallQuotient(m: nat, t: nat, d: nat, s: nat, k: nat)
    requires 0 < t < m && m == d * s && t == d * k
    ensures s >= 2 && d >= 1 && m == s * d + 0
  {
    assert d * 0 == 0;
    if s <= k { AtLeast(d, k, s); }
  }

  lemma PowersDistinct(g: nat, n: nat, i: nat, j: nat)
    requires Generates(g, n) && i < j < n - 1
    ensures PowMod(g, i, n) != PowMod(g, j, n)
  {
    var rest, diff := n - 1 - i, j - i;
    var x, y, z, u := PowMod(g, i, n), PowMod(g, j, n), PowMod(g, rest, n), PowMod(g, diff, n);
    assert PowMod(g, n - 1, n) == 1;
    PowModAdd(g, i, rest, n);
    PowModAdd(g, j, rest, n);
    PowModAdd(g, n - 1, diff, n);
    ModOf(u, n, 0, u);
    NoEarlyUnit(g, n, diff);
    hide *;
    assert i + rest == n - 1 && j + rest == n - 1 + diff;
    assert (x * z) % n == 1 && (y * z) % n == (1 * u) % n == u;
  }

  ghost function Powers(g: nat, n: nat, k: nat): set<nat>
    requires n >= 2
  {
    if k == 0 then {} else Powers(g, n, k - 1) + {PowMod(g, k - 1, n)}
  }

  lemma {:induction false} ExponentOf(g: nat, n: nat, k: nat, x: nat) returns (i: nat)
    requires n >= 2 && x in Powers(g, n, k)
    ensures i < k && PowMod(g, i, n) == x
  {
    if x == PowMod(g, k - 1, n) { i := k - 1; } else { i := ExponentOf(g, n, k - 1, x); }
  }

  lemma {:induction false} PowersCount(g: nat, n: nat, k: nat)
    requires Generates(g, n) && k <= n - 1
    ensures |Powers(g, n, k)| == k && Powers(g, n, k) <= UpTo(n - 1)
  {
    hide Generates, PowMod, UpTo;
    if k != 0 {
      PowersCount(g, n, k - 1);
      PowersNonzero(g, n, k - 1);
      var x := PowMod(g, k - 1, n);
      if x in Powers(g, n, k - 1) {
        var i := ExponentOf(g, n, k - 1, x);
        PowersDistinct(g, n, i, k - 1);
      }
    }
  }

  ghost function UpTo(k: nat): (r: set<nat>)
    ensures forall d: nat :: d in r <==> 1 <= d <= k
  {
    if k == 0 then {} else UpTo(k - 1) + {k}
  }

  lemma {:induction false} UpToCount(k: nat)
    ensures |UpTo(k)| == k
  {
    if k != 0 {
      UpToCount(k - 1);
      var s := UpTo(k - 1);
      assert k !in s;
      OneMore(s, k);
    }
  }

  lemma OneMore(s: set<nat>, k: nat)
    requires k !in s
    ensures |s + {k}| == |s| + 1
  {
  }

  lemma PowersNonzero(g: nat, n: nat, i: nat)
    requires Generates(g, n) && i < n - 1
    ensures 1 <= PowMod(g, i, n) < n
  {
    PowModAdd(g, i, n - 1 - i, n);
    if PowMod(g, i, n) == 0 { ModOf(0, n, 0, 0); }
  }

  lemma SameSet(a: set<nat>, b: set<nat>)
    requires a <= b && |a| == |b|
    ensures a == b
  {
    assert b == a + (b - a);
    assert |b| == |a| + |b - a|;
    assert b - a == {};
  }

  // Every nonzero residue is a power of g.
  lemma IsPower(g: nat, n: nat, d: nat) returns (i: nat)
    requires Generates(g, n) && 1 <= d < n
    ensures i < n - 1 && PowMod(g, i, n) == d
  {
    hide Generates, PowMod, Powers;
    PowersCount(g, n, n - 1);
    UpToCount(n - 1);
    SameSet(Powers(g, n, n - 1), UpTo(n - 1));
    i := ExponentOf(g, n, n - 1, d);
  }

  /** Pratt: a residue of order n - 1 makes n prime. */
  lemma GeneratorMakesPrime(g: nat, n: nat)
    requires Generates(g, n)
    ensures Prime(n)
  {
    forall d | 2 <= d < n ensures n % d != 0 {
      var i := IsPower(g, n, d);
      var x := PowMod(g, n - 1 - i, n);
      PowModAdd(g, i, n - 1 - i, n);
      UnitNoDivisor(n, d, x);
    }
  }

  lemma UnitNoDivisor(n: nat, d: nat, x: nat)
    requires 2 <= d < n && (d * x) % n == 1
    ensures n % d != 0
  {
    if n % d == 0 {
      var e := MultipleIs(n, d);
      MulMod(d * x, e, n);
      assert (d * x) * e == n * x;
      IsMultiple(n * x, n, x);
      assert d * 0 == 0;
      if e >= n { AtLeast(d, e, n); AtLeast(n, d, 2); }
      ModOf(e, n, 0, e);
    }
  }

  // ---- certificates ----

  lemma PowModZero(b: nat, n: nat)
    requires n >= 2
    ensures PowMod(b, 0, n) == 1
  {
  }

  // One binary digit of an exponent, most significant first.
  lemma Horner(b: nat, e: nat, z: nat, bit: nat, z': nat, n: nat)
    requires n >= 2 && PowMod(b, e, n) == z && bit < 2 && z' == (if bit == 1 then b * (z * z) else z * z) % n
    ensures PowMod(b, 2 * e + bit, n) == z'
  {
    PowModAdd(b, e, e, n);
    if bit == 1 { MulMod(b, z * z, n); }
  }

  lemma Horner4(b: nat, e: nat, z: nat, b1: nat, z1: nat, b2: nat, z2: nat, b3: nat, z3: nat, b4: nat, z4: nat, n: nat)
    requires n >= 2 && PowMod(b, e, n) == z && b1 < 2 && b2 < 2 && b3 < 2 && b4 < 2
    requires z1 == (if b1 == 1 then b * (z * z) else z * z) % n
      && z2 == (if b2 == 1 then b * (z1 * z1) else z1 * z1) % n
    requires z3 == (if b3 == 1 then b * (z2 * z2) else z2 * z2) % n
      && z4 == (if b4 == 1 then b * (z3 * z3) else z3 * z3) % n
    ensures PowMod(b, 16 * e + 8 * b1 + 4 * b2 + 2 * b3 + b4, n) == z4
  {
    hide PowMod;
    Horner(b, e, z, b1, z1, n);
    Horner(b, 2 * e + b1, z1, b2, z2, n);
    Horner(b, 4 * e + 2 * b1 + b2, z2, b3, z3, n);
    Horner(b, 8 * e + 4 * b1 + 2 * b2 + b3, z3, b4, z4, n);
  }

  // If g is killed at a quotient of n - 1 by a multiple of f, it is killed at the quotient by f.
  lemma KilledAt(g: nat, n: nat, s: nat, f: nat)
    requires n >= 2 && s >= 1 && f >= 1 && (n - 1) % s == 0 && s % f == 0 && PowMod(g, (n - 1) / s, n) == 1
    ensures (n - 1) % f == 0 && PowMod(g, (n - 1) / f, n) == 1
  {
    var m := MultipleIs(n - 1, s);
    var k := MultipleIs(s, f);
    Assoc(f, k, m);
    ModOf(n - 1, f, k * m, 0);
    ModOf(n - 1, s, m, 0);
    UnitMultiple(g, m, k, n);
    Commute(m, k);
  }

  // ---- small primes ----

  ghost predicate NoneBelow(n: nat, k: nat) {
    forall d :: 2 <= d < k ==> n % d != 0
  }

  lemma PrimeBySqrt(n: nat, k: nat)
    requires n >= 2 && k >= 1 && k * k > n && NoneBelow(n, k)
    ensures Prime(n)
  {
    forall d | 2 <= d < n ensures n % d != 0 {
      if n % d == 0 {
        var e := MultipleIs(n, d);
        SmallerFactor(n, k, d, e);
        if d >= k { Commute(d, e); IsMultiple(n, e, d); }
      }
    }
  }

  lemma SmallerFactor(n: nat, k: nat, d: nat, e: nat)
    requires n == d * e && 2 <= d < n && k * k > n
    ensures e >= 2 && (d < k || e < k)
  {
    assert d * 0 == 0 && d * 1 == d;
    if d >= k && e >= k { AtLeast(d, e, k); Commute(d, k); AtLeast(k, d, k); }
  }

  lemma DivisorOfPrime(q: nat, s: nat)
    requires Prime(q) && s >= 2 && q % s == 0
    ensures s == q
  {
    if s > q { ModOf(q, s, 0, q); }
  }
}
