/** The residues modulo p form a field, so that every theorem of the project proved over a field
    holds of the code's own; and the roots of unity that the transforms are built on. */
module Fp59Field {
  import opened Algebra
  import opened Primes
  import opened Fp59Prime
  import opened Fp59
  import opened Fp59Inverse

  function Negate(a: fp): fp {
    if a == 0 then 0 else P - a
  }

  function Recip(a: fp): fp {
    if a == 0 then 0 else InvOfCorrect(a); InvOf(a)
  }

  function Plus(a: fp, b: fp): (r: fp)
    ensures r == (a + b) % P
  {
    AddMod(a, b)
  }

  function F59(): Field<fp> {
    Field.Field(0, 1, Plus, MultMod, Negate, Recip)
  }

  lemma Operations(a: fp, b: fp)
    ensures F59().Add(a, b) == (a + b) % P && F59().Mul(a, b) == (a * b) % P && F59().Neg(a) == Negate(a)
    ensures F59().zero == 0 && F59().one == 1
    ensures a != 0 ==> F59().Inv(a) == InvOf(a)
  {
  }

  // Subtraction as the code computes it: a + (p - b), reduced once.
  lemma SubIs(a: fp, b: fp)
    ensures AddMod(a, P - b) == F59().Sub(a, b)
  {
  }

  lemma Below(a: fp)
    ensures a < P
  {
  }

  lemma Reduced1(a: fp)
    ensures a % P == a
  {
    ModOf(a, P, 0, a);
  }

  lemma AddAssoc(a: fp, b: fp, c: fp)
    ensures F59().Add(F59().Add(a, b), c) == F59().Add(a, F59().Add(b, c))
  {
    hide *;
    Below(a);
    Below(c);
    Operations(a, b);
    Operations(b, c);
    Operations(F59().Add(a, b), c);
    Operations(a, F59().Add(b, c));
    AddAssocMod(a, b, c, P);
  }

  lemma MulAssoc(a: fp, b: fp, c: fp)
    ensures F59().Mul(F59().Mul(a, b), c) == F59().Mul(a, F59().Mul(b, c))
  {
    assert P >= 1;
    hide *;
    Operations(a, b);
    Operations(b, c);
    Operations(F59().Mul(a, b), c);
    Operations(a, F59().Mul(b, c));
    MulMod(a * b, c, P);
    MulMod(a, b * c, P);
    Assoc(a, b, c);
  }

  lemma MulDistributes(a: fp, b: fp, c: fp)
    ensures F59().Mul(a, F59().Add(b, c)) == F59().Add(F59().Mul(a, b), F59().Mul(a, c))
  {
    hide *;
    Below(a);
    Below(c);
    Operations(b, c);
    Operations(a, b);
    Operations(a, c);
    Operations(a, F59().Add(b, c));
    Operations(F59().Mul(a, b), F59().Mul(a, c));
    DistributeMod(a, b, c, P);
  }

  lemma SumMod(x: nat, y: nat, n: nat)
    requires n >= 1
    ensures (x % n + y % n) % n == (x + y) % n
  {
    DivFacts(x, n);
    DivFacts(y, n);
    var q := x / n + y / n;
    Distribute(n, x / n, y / n);
    SameResidue(x + y, x % n + y % n, n, q);
  }

  lemma AddAssocMod(a: nat, b: nat, c: nat, n: nat)
    requires a < n && c < n
    ensures ((a + b) % n + c) % n == (a + (b + c) % n) % n
  {
    ModOf(a, n, 0, a);
    ModOf(c, n, 0, c);
    SumMod(a + b, c, n);
    SumMod(a, b + c, n);
  }

  lemma DistributeMod(a: nat, b: nat, c: nat, n: nat)
    requires n >= 1
    ensures (a * ((b + c) % n)) % n == ((a * b) % n + (a * c) % n) % n
  {
    MulMod(a, b + c, n);
    Distribute(a, b, c);
    SumMod(a * b, a * c, n);
  }

  lemma RecipInverts(a: fp)
    requires a != 0
    ensures F59().Mul(a, F59().Inv(a)) == 1
  {
    InvOfCorrect(a);
    Commute(a, InvOf(a));
  }

  // The laws at each element, pair and triple.
  ghost predicate LawsAt<E(!new)>(F: Field<E>, a: E, b: E, c: E) {
    && F.Add(a, F.zero) == a && F.Mul(a, F.one) == a && F.Add(a, F.Neg(a)) == F.zero
    && (a != F.zero ==> F.Mul(a, F.Inv(a)) == F.one)
    && F.Add(a, b) == F.Add(b, a) && F.Mul(a, b) == F.Mul(b, a)
    && F.Add(F.Add(a, b), c) == F.Add(a, F.Add(b, c)) && F.Mul(F.Mul(a, b), c) == F.Mul(a, F.Mul(b, c))
    && F.Mul(a, F.Add(b, c)) == F.Add(F.Mul(a, b), F.Mul(a, c))
  }

  lemma LawsEverywhere<E(!new)>(F: Field<E>)
    requires F.zero != F.one && forall a: E, b: E, c: E :: LawsAt(F, a, b, c)
    ensures F.Laws()
  {
    forall a: E ensures F.Add(a, F.zero) == a && F.Mul(a, F.one) == a && F.Add(a, F.Neg(a)) == F.zero
                     && (a != F.zero ==> F.Mul(a, F.Inv(a)) == F.one) {
      assert LawsAt(F, a, a, a);
    }
    forall a: E, b: E ensures F.Add(a, b) == F.Add(b, a) && F.Mul(a, b) == F.Mul(b, a) { assert LawsAt(F, a, b, b); }
    forall a: E, b: E, c: E
      ensures F.Add(F.Add(a, b), c) == F.Add(a, F.Add(b, c)) && F.Mul(F.Mul(a, b), c) == F.Mul(a, F.Mul(b, c))
      ensures F.Mul(a, F.Add(b, c)) == F.Add(F.Mul(a, b), F.Mul(a, c))
    {
      assert LawsAt(F, a, b, c);
    }
  }

  lemma F59At(a: fp, b: fp, c: fp)
    ensures LawsAt(F59(), a, b, c)
  {
    Units(a);
    if a != 0 { RecipInverts(a); }
    Swapped(a, b);
    AddAssoc(a, b, c);
    MulAssoc(a, b, c);
    MulDistributes(a, b, c);
  }

  /** The field laws, for the arithmetic of the code. */
  lemma F59Laws()
    ensures F59().Laws()
  {
    forall a: fp, b: fp, c: fp ensures LawsAt(F59(), a, b, c) { F59At(a, b, c); }
    LawsEverywhere(F59());
  }

  lemma Units(a: fp)
    ensures F59().Add(a, 0) == a && F59().Mul(a, 1) == a && F59().Add(a, F59().Neg(a)) == 0
  {
    Operations(a, 0);
    Operations(a, 1);
    Operations(a, Negate(a));
    Reduced1(a);
    ModOf(P, P, 1, 0);
  }

  lemma Swapped(a: fp, b: fp)
    ensures F59().Add(a, b) == F59().Add(b, a) && F59().Mul(a, b) == F59().Mul(b, a)
  {
    Operations(a, b);
    Operations(b, a);
    Commute(a, b);
  }
}
