/** Powers of two and bit reversal. */
module Bits {

  function Pow2(n: nat): (r: nat)
    ensures r >= 1
  {
    if n == 0 then 1 else 2 * Pow2(n - 1)
  }

  lemma {:induction false} Pow2Monotone(a: nat, b: nat)
    requires a <= b
    ensures Pow2(a) <= Pow2(b)
  {
    if a < b { Pow2Monotone(a, b - 1); }
  }

  lemma {:induction false} Pow2Add(a: nat, b: nat)
    ensures Pow2(a + b) == Pow2(a) * Pow2(b)
  {
    if a != 0 {
      Pow2Add(a - 1, b);
      assert Pow2(a + b) == 2 * (Pow2(a - 1) * Pow2(b)) == Pow2(a) * Pow2(b);
    }
  }

  lemma {:induction false} Pow2Exceeds(n: nat)
    ensures n < Pow2(n)
  {
    if n != 0 { Pow2Exceeds(n - 1); }
  }

  // The lowest w bits of x in reverse order.
  function RevBits(x: nat, w: nat): (r: nat)
    ensures r < Pow2(w)
  {
    if w == 0 then 0 else (if x % 2 == 1 then Pow2(w - 1) else 0) + RevBits(x / 2, w - 1)
  }

  method ReverseBits(x: nat, w: nat) returns (rev: nat)
    ensures rev == RevBits(x, w)
  {
    rev := 0;
    var i, y := w, x;
    while i > 0
      invariant 0 <= i <= w && 0 <= y && rev + RevBits(y, i) == RevBits(x, w)
    {
      rev := rev + (if y % 2 == 1 then Pow2(i - 1) else 0);
      y := y / 2;
      i := i - 1;
    }
  }

  lemma {:induction false} RevLow(j: nat, w: nat)
    requires j < Pow2(w)
    ensures RevBits(j, w + 1) == 2 * RevBits(j, w)
  {
    if w != 0 { RevLow(j / 2, w - 1); }
  }

  lemma {:induction false} RevHigh(j: nat, w: nat)
    requires j < Pow2(w)
    ensures RevBits(Pow2(w) + j, w + 1) == 2 * RevBits(j, w) + 1
  {
    if w != 0 {
      RevHigh(j / 2, w - 1);
      assert (Pow2(w) + j) / 2 == Pow2(w - 1) + j / 2 && (Pow2(w) + j) % 2 == j % 2;
    }
  }

  /** Bit reversal undoes itself. */
  lemma {:induction false} RevTwice(x: nat, w: nat)
    requires x < Pow2(w)
    ensures RevBits(RevBits(x, w), w) == x
  {
    if w != 0 {
      var q, y := x / 2, RevBits(x / 2, w - 1);
      RevTwice(q, w - 1);
      if x % 2 == 0 {
        RevLow(y, w - 1);
      } else {
        assert RevBits(x, w) == Pow2(w - 1) + y;
        RevHigh(y, w - 1);
      }
    }
  }

  lemma RevDouble(j: nat, w: nat)
    ensures RevBits(2 * j, w + 1) == RevBits(j, w)
    ensures RevBits(2 * j + 1, w + 1) == Pow2(w) + RevBits(j, w)
  {
    assert (2 * j) / 2 == j && (2 * j + 1) / 2 == j;
  }
}
