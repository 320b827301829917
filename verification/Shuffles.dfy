/** What both shuffle-based structures rest on: bit widths, and multisets kept as sequences. */
module Shuffles {

  import opened Bits

  // The least width, at least 1, that holds every value of 0..hi.
  ghost predicate Width(hi: nat, b: nat) {
    1 <= b && hi < Pow2(b) && (1 < b ==> Pow2(b - 1) <= hi)
  }

  lemma WidthUnique(hi: nat, a: nat, b: nat)
    requires Width(hi, a) && Width(hi, b)
    ensures a == b
  {
    if a < b { Pow2Monotone(a, b - 1); }
    if b < a { Pow2Monotone(b, a - 1); }
  }

  method BitsFor(hi: nat) returns (b: nat)
    ensures Width(hi, b)
  {
    b := 1;
    Pow2Exceeds(hi);
    while Pow2(b) <= hi
      invariant 1 <= b && (1 < b ==> Pow2(b - 1) <= hi)
      decreases hi - Pow2(b)
    {
      b := b + 1;
    }
  }

  ghost predicate IsPow2(n: nat) {
    exists e: nat :: n == Pow2(e)
  }

  /** The width leaves room for twice the range exactly when the range is a power of two
      (or empty). */
  lemma RoomToDouble(hi: nat, b: nat)
    requires Width(hi, b)
    ensures 2 * hi <= Pow2(b) <==> hi == 0 || IsPow2(hi)
  {
    if 2 * hi <= Pow2(b) && hi > 0 {
      if b == 1 {
        assert hi == Pow2(0);
      } else {
        assert hi == Pow2(b - 1);
      }
    }
    if IsPow2(hi) {
      var e: nat :| hi == Pow2(e);
      if b <= e { Pow2Monotone(b, e); }
      Pow2Monotone(e + 1, b);
    }
  }

  // ---- sequences without repetition, and multisets ----

  ghost predicate NoRepeat<R>(s: seq<R>) {
    forall i, j :: 0 <= i < j < |s| ==> s[i] != s[j]
  }

  lemma {:induction false} CountOnce<R>(s: seq<R>, x: R)
    requires NoRepeat(s)
    ensures multiset(s)[x] <= 1
  {
    if s != [] {
      assert s == [s[0]] + s[1..];
      CountOnce(s[1..], x);
      if x == s[0] { assert x !in s[1..]; }
    }
  }

  lemma CountTwice<R>(s: seq<R>, i: nat, j: nat)
    requires i < j < |s| && s[i] == s[j]
    ensures multiset(s)[s[i]] >= 2
  {
    assert s == s[..j] + s[j..];
    assert s[i] == s[..j][i] && s[j] == s[j..][0];
    assert multiset(s) == multiset(s[..j]) + multiset(s[j..]);
  }

  // A rearrangement of a sequence without repetition has none either.
  lemma NoRepeatShared<R>(s: seq<R>, t: seq<R>)
    requires multiset(s) == multiset(t) && NoRepeat(t)
    ensures NoRepeat(s)
  {
    forall i, j | 0 <= i < j < |s| ensures s[i] != s[j] {
      if s[i] == s[j] {
        CountTwice(s, i, j);
        CountOnce(t, s[i]);
        assert false;
      }
    }
  }

  lemma SameMembers<R>(s: seq<R>, t: seq<R>, x: R)
    requires multiset(s) == multiset(t)
    ensures x in s <==> x in t
  {
    assert x in s <==> x in multiset(s);
    assert x in t <==> x in multiset(t);
  }

  // One record read and one written move the balance from p to p'.
  lemma Advance<R>(rs: multiset<R>, ws: multiset<R>, p: multiset<R>, p': multiset<R>, r: R, w: R)
    requires ws == rs + p && p' + multiset{r} == p + multiset{w}
    ensures ws + multiset{w} == (rs + multiset{r}) + p'
  {
    assert ws + multiset{w} == rs + (p + multiset{w}) == rs + (p' + multiset{r});
  }
}
