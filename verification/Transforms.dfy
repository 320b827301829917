/** The transform object: a 2N-th root of unity, its two twiddle tables and 1/N, and the three
    transforms run on it. */
module Transforms {
  import opened Bits
  import opened Algebra
  import opened Polynomials
  import opened Ntt
  import opened NttCorrect
  import opened NttInverse
  import opened NttFixed

  lemma {:induction false} ZeroPow<E(!new)>(F: Field<E>, n: nat)
    requires F.Laws() && n >= 1
    ensures Pow(F, F.zero, n) == F.zero
  {
    Zero(F, Pow(F, F.zero, n - 1));
  }

  lemma RootNonzero<E(!new)>(F: Field<E>, psi: E, L: nat)
    requires F.Laws() && Root(F, psi, L)
    ensures psi != F.zero
  {
    assert At1(F.one);
    Zero(F, F.one);
    if psi == F.zero { ZeroPow(F, Pow2(L)); }
  }

  class Transform<E(!new)> {
    const F: Field<E>
    const L: nat
    const psi: E
    var dim: nat
    var invDim: E
    var powers: seq<E>
    var ipowers: seq<E>

    ghost predicate Valid() reads this {
      F.Laws() && dim == Pow2(L) && Tables(F, psi, L, powers, ipowers, invDim)
    }

    constructor (F: Field<E>, L: nat, psi: E)
      requires F.Laws() && Root(F, psi, L) && FromNat(F, Pow2(L)) != F.zero
      ensures Valid() && this.F == F && this.L == L && this.psi == psi
    {
      var n := FromNat(F, Pow2(L));
      assert At1(n) && At2(n, F.Inv(n));
      RootNonzero(F, psi, L);
      var table := FillTable(F, psi, L);
      var itable := FillTable(F, F.Inv(psi), L);
      this.F, this.L, this.psi := F, L, psi;
      dim, invDim, powers, ipowers := Pow2(L), F.Inv(n), table, itable;
    }

    method ForwardInplace(a: array<E>) returns (ok: bool)
      requires Valid()
      modifies a
      ensures ok == (a.Length == dim)
      ensures ok ==> |old(a[..])| == Pow2(L) && a[..] == Evals(F, old(a[..]), Points(F, psi, L))
      ensures !ok ==> a[..] == old(a[..])
    {
      ok := a.Length == dim;
      if ok {
        ForwardEvaluates(F, psi, L, powers, a[..]);
        NttInplace(F, a, powers, L);
      }
    }

    method BackwardInplace(a: array<E>) returns (ok: bool)
      requires Valid()
      modifies a
      ensures ok == (a.Length == dim)
      ensures ok ==> Evals(F, a[..], Points(F, psi, L)) == old(a[..])
      ensures !ok ==> a[..] == old(a[..])
    {
      ok := a.Length == dim;
      if ok {
        InverseInterpolates(F, psi, L, powers, ipowers, invDim, a[..]);
        InttInplace(F, a, ipowers, L, invDim);
      }
    }

    method ForwardFixDegree(inn: seq<E>, logIn: nat) returns (a: array<E>)
      requires Valid() && logIn <= L && |inn| == Pow2(logIn)
      ensures fresh(a) && a[..] == Evals(F, Reversed(inn, logIn), OddPowers(F, psi, 1, Pow2(L)))
    {
      hide *;
      FixDegreeParts(this, inn, logIn);
      FixDegreeEvaluates(F, psi, L, powers, Reversed(inn, logIn), logIn);
      a := FixDegreeInplace(F, powers, L, inn, logIn);
    }
  }

  lemma FixDegreeParts<E(!new)>(T: Transform<E>, inn: seq<E>, logIn: nat)
    requires T.Valid() && logIn <= T.L && |inn| == Pow2(logIn)
    ensures T.F.Laws() && Root(T.F, T.psi, T.L) && IsTable(T.F, T.psi, T.L, T.powers) && |T.powers| == Pow2(T.L)
    ensures |Reversed(inn, logIn)| == Pow2(logIn) && Reversed(Reversed(inn, logIn), logIn) == inn
  {
    ReversedTwice(inn, logIn);
  }
}
