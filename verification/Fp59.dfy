/** Arithmetic modulo p = 2^59 - 2^28 + 1 on 64-bit words: the reductions, the two-lane forms and the
    inversion, with every operation wrapping as the machine's does. */
module Fp59 {
  import opened Primes
  import opened Fp59Prime

  type word = x: nat | x < 0x1_0000_0000_0000_0000

  type int64 = x: int | -0x8000_0000_0000_0000 <= x < 0x8000_0000_0000_0000

  // A reduced residue.
  type fp = x: nat | x < 576460752034988033

  function Add64(a: word, b: word): word { (a + b) % 0x1_0000_0000_0000_0000 }

  function Sub64(a: word, b: word): word { (a - b) % 0x1_0000_0000_0000_0000 }

  // Shift left by k, given 2^k.
  function Shl(a: word, pow: nat): word { (a * pow) % 0x1_0000_0000_0000_0000 }

  function Shl5(a: word): word { Shl(a, 0x20) }

  function Shl28(a: word): word { Shl(a, 0x1000_0000) }

  function Shr31(a: word): word { a / 0x8000_0000 }

  function Shr59(a: word): word { a / 0x800_0000_0000_0000 }

  function Mask59(a: word): word { a % 0x800_0000_0000_0000 }

  // ---- scalar form ----

  lemma Residue(x: int, q: int, r: nat)
    requires x == q * 576460752034988033 + r && r < 576460752034988033
    ensures x % P == r
  {
    ModOf(x, P, q, r);
  }

  // High bits folded in by 2^59 = 2^28 - 1, before the conditional subtraction.
  function FoldHigh(x: word): word {
    var hi := Shr59(x);
    Add64(Sub64(Shl28(hi), hi), Mask59(x))
  }

  function SubtractP(x: word): word {
    if x >= P then Sub64(x, P) else x
  }

  lemma FoldHighExact(x: word)
    ensures x == Shr59(x) * 576460752034988033 + FoldHigh(x) && FoldHigh(x) < 2 * 576460752034988033
  {
    var hi, lo := x / 0x800_0000_0000_0000, x % 0x800_0000_0000_0000;
    assert x == hi * 0x800_0000_0000_0000 + lo && hi < 32;
    assert Shl28(hi) == hi * 0x1000_0000;
    assert Sub64(Shl28(hi), hi) == hi * 0xFFF_FFFF;
    assert FoldHigh(x) == hi * 0xFFF_FFFF + lo;
  }

  lemma SubtractPExact(x: word)
    ensures SubtractP(x) == if x >= 576460752034988033 then x - 576460752034988033 else x
  {
  }

  lemma ModExact(x: word)
    ensures SubtractP(FoldHigh(x)) < 576460752034988033 && SubtractP(FoldHigh(x)) == x % P
  {
    FoldHighExact(x);
    SubtractPExact(FoldHigh(x));
    hide *;
    var hi, r := Shr59(x), FoldHigh(x);
    if r >= 576460752034988033 { Residue(x, hi + 1, r - 576460752034988033); } else { Residue(x, hi, r); }
  }

  // Any word to its residue.
  function Mod(x: word): (r: fp)
    ensures r == x % P
  {
    ModExact(x);
    SubtractP(FoldHigh(x))
  }

  function AddMod(a: word, b: word): (r: word)
    requires a < P && b <= P
    ensures r < P && r == (a + b) % P
  {
    var res := Add64(a, b);
    if res >= P then Sub64(res, P) else res
  }

  // The low and high words of a product.
  function MulLow(a: word, b: word): word { (a * b) % 0x1_0000_0000_0000_0000 }

  function MulHigh(a: word, b: word): word
    requires a < P && b < P
  {
    ProductBound(a, b);
    (a * b) / 0x1_0000_0000_0000_0000
  }

  lemma ProductBound(a: word, b: word)
    requires a < P && b < P
    ensures 0 <= a * b <= 576460752034988032 * 576460752034988032
  {
    AtLeast(a, 576460752034988032, b);
    Commute(a, 576460752034988032);
    AtLeast(576460752034988032, 576460752034988032, a);
  }

  // Twice 28 bits of the high part of a product, folded, and reduced once.
  function Reduced(i: word): word {
    var j := Shr31(i);
    SubtractP(Add64(Sub64(Shl28(j), j), Mask59(Shl28(i))))
  }

  // The high part i of the product: its bits from 59 on.
  function HighPart(c: word, e: word): word {
    Add64(Shl5(c), Shr59(e))
  }

  function BeforeReduction(c: word, e: word): word {
    var i := HighPart(c, e);
    Sub64(Add64(Add64(Reduced(i), Mask59(e)), P), i)
  }

  function MultTail(c: word, e: word): word {
    SubtractP(SubtractP(BeforeReduction(c, e)))
  }

  function MultMod(a: fp, b: fp): (r: fp)
    ensures r == (a * b) % P
  {
    ProductBound(a, b);
    MultTailExact(a * b, MulHigh(a, b), MulLow(a, b));
    MultTail(MulHigh(a, b), MulLow(a, b))
  }

  lemma MaskedShift(i: word, hi: nat, lo: nat)
    requires i < 576460752034988033 && i == 0x8000_0000 * hi + lo && lo < 0x8000_0000
    ensures Mask59(Shl28(i)) == lo * 0x1000_0000
  {
    var k, h := hi / 32, hi % 32;
    var rest := h * 0x800_0000_0000_0000 + lo * 0x1000_0000;
    assert i * 0x1000_0000 == 0x1_0000_0000_0000_0000 * k + rest;
    ModOf(i * 0x1000_0000, 0x1_0000_0000_0000_0000, k, rest);
    ModOf(rest, 0x800_0000_0000_0000, h, lo * 0x1000_0000);
  }

  lemma SmallShift(j: word)
    requires j < 0x1000_0000
    ensures Sub64(Shl28(j), j) == j * 0x0FFF_FFFF
  {
  }

  // i * 2^28 modulo p, below p; for i < 2^28 it is i * 2^28 itself.
  lemma ReducedExact(i: word)
    requires i < 576460752034988033
    ensures Reduced(i) < 576460752034988033
    ensures exists h: nat :: h <= i && Reduced(i) == i * 0x1000_0000 - h * 576460752034988033
    ensures i < 0x1000_0000 ==> Reduced(i) == i * 0x1000_0000
  {
    var hi, lo := Shr31(i), i % 0x8000_0000;
    ReducedSum(i, hi, lo);
    var s := hi * 0x0FFF_FFFF + lo * 0x1000_0000;
    SubtractPExact(s);
    hide *;
    ReducedBy(i, hi, lo, s);
    var h: nat := if s >= 576460752034988033 then hi + 1 else hi;
    assert Reduced(i) == i * 0x1000_0000 - h * 576460752034988033;
  }

  lemma ReducedBy(i: word, hi: nat, lo: nat, s: nat)
    requires i == 0x8000_0000 * hi + lo && lo < 0x8000_0000 && s == hi * 0x0FFF_FFFF + lo * 0x1000_0000
    ensures s == i * 0x1000_0000 - hi * 576460752034988033
    ensures hi <= i && (s >= 576460752034988033 ==> hi + 1 <= i)
    ensures i < 0x1000_0000 ==> hi == 0 && s == i * 0x1000_0000 < 576460752034988033
  {
  }

  // The sum before the conditional subtraction.
  lemma ReducedSum(i: word, hi: word, lo: word)
    requires i < 576460752034988033 && hi == Shr31(i) && lo == i % 0x8000_0000
    ensures i == 0x8000_0000 * hi + lo && lo < 0x8000_0000 && hi < 0x1000_0000
    ensures hi * 0x0FFF_FFFF + lo * 0x1000_0000 < 2 * 576460752034988033
    ensures Reduced(i) == SubtractP(hi * 0x0FFF_FFFF + lo * 0x1000_0000)
  {
    assert i == 0x8000_0000 * hi + lo && lo < 0x8000_0000 && hi < 0x1000_0000;
    MaskedShift(i, hi, lo);
    SmallShift(hi);
    hide Shl, Shl28, Sub64, Mask59, SubtractP;
    assert Add64(Sub64(Shl28(hi), hi), Mask59(Shl28(i))) == hi * 0x0FFF_FFFF + lo * 0x1000_0000;
  }

  lemma HighPartExact(t: nat, c: word, e: word)
    requires t <= 576460752034988032 * 576460752034988032
    requires c == t / 0x1_0000_0000_0000_0000 && e == t % 0x1_0000_0000_0000_0000
    ensures HighPart(c, e) < 576460752034988033 && Mask59(e) < 0x800_0000_0000_0000
    ensures t == HighPart(c, e) * 0x800_0000_0000_0000 + Mask59(e)
  {
    assert t == c * 0x1_0000_0000_0000_0000 + e;
    assert e == Shr59(e) * 0x800_0000_0000_0000 + Mask59(e) && Shr59(e) < 32;
    assert Shl5(c) == c * 32;
  }

  /** The value before the last two subtractions never wraps and lies below 3p: a high part of at
      least 2^28 takes that much away, and under a smaller one the reduced part is small. */
  lemma BelowThreeP(c: word, e: word, i: word, j: word, lo: word)
    requires i == HighPart(c, e) < 576460752034988033 && j == Reduced(i) && lo == Mask59(e) < 0x800_0000_0000_0000
    ensures BeforeReduction(c, e) == j + lo + 576460752034988033 - i < 3 * 576460752034988033
  {
    ReducedExact(i);
    hide Reduced, HighPart, Mask59, Add64, Sub64;
    SumsExact(i, j, lo);
  }

  lemma SumsExact(i: word, j: word, lo: word)
    requires i < 576460752034988033 && j < 576460752034988033 && lo < 0x800_0000_0000_0000
    requires i < 0x1000_0000 ==> j == i * 0x1000_0000
    ensures Sub64(Add64(Add64(j, lo), P), i) == j + lo + 576460752034988033 - i < 3 * 576460752034988033
    ensures Add64(Add64(j, lo), Sub64(P, i)) == j + lo + 576460752034988033 - i
  {
    assert j + lo + 576460752034988033 < 0x1_0000_0000_0000_0000;
  }

  lemma MultTailExact(t: nat, c: word, e: word)
    requires t <= 576460752034988032 * 576460752034988032
    requires c == t / 0x1_0000_0000_0000_0000 && e == t % 0x1_0000_0000_0000_0000
    ensures MultTail(c, e) < 576460752034988033 && MultTail(c, e) == t % P
  {
    HighPartExact(t, c, e);
    var i, lo := HighPart(c, e), Mask59(e);
    var j, s := Reduced(i), BeforeReduction(c, e);
    BelowThreeP(c, e, i, j, lo);
    ReducedExact(i);
    var h: nat :| h <= i && j == i * 0x1000_0000 - h * 576460752034988033;
    SubtractPExact(s);
    SubtractPExact(SubtractP(s));
    assert MultTail(c, e) == SubtractP(SubtractP(s));
    hide *;
    assert s == t - (i + h - 1) * 576460752034988033;
    var r := SubtractP(SubtractP(s));
    var k := if s >= 2 * 576460752034988033 then 2 else if s >= 576460752034988033 then 1 else 0;
    assert r == s - k * 576460752034988033;
    Residue(t, i + h - 1 + k, r);
  }

  // ---- two lanes in one 128-bit block ----

  datatype Block = Block(lo: word, hi: word)

  function Signed(x: word): int64 {
    if x < 0x8000_0000_0000_0000 then x else x - 0x1_0000_0000_0000_0000
  }

  // Subtracts p unless p is greater, comparing as signed 64-bit numbers.
  function LaneSubtractP(x: word): word {
    if Signed(P) > Signed(x) then x else Sub64(x, P)
  }

  function VecPartialMod(x: Block): Block {
    Block(LaneSubtractP(x.lo), LaneSubtractP(x.hi))
  }

  function VecAdd(a: Block, b: Block): Block { Block(Add64(a.lo, b.lo), Add64(a.hi, b.hi)) }

  function VecSub(a: Block, b: Block): Block { Block(Sub64(a.lo, b.lo), Sub64(a.hi, b.hi)) }

  function VecMap(f: word -> word, a: Block): Block { Block(f(a.lo), f(a.hi)) }

  function VecMod(x: Block): Block {
    var hi := VecMap(Shr59, x);
    var r := VecSub(VecMap(Shl28, hi), hi);
    VecPartialMod(VecAdd(r, VecMap(Mask59, x)))
  }

  function VecAddMod(a: Block, b: Block): Block { VecPartialMod(VecAdd(a, b)) }

  function VecMultMod(a: Block, b: fp): Block
    requires a.lo < P && a.hi < P
  {
    var high, low := Block(MulHigh(a.lo, b), MulHigh(a.hi, b)), Block(MulLow(a.lo, b), MulLow(a.hi, b));
    var t1 := VecAdd(VecMap(Shl5, high), VecMap(Shr59, low));
    var t2 := VecMap(Shr31, t1);
    var t3 := VecSub(VecMap(Shl28, t2), t2);
    var t3 := VecPartialMod(VecAdd(t3, VecMap(Mask59, VecMap(Shl28, t1))));
    var t3 := VecAdd(t3, VecMap(Mask59, low));
    var t3 := VecAdd(t3, VecSub(Block(P, P), t1));
    VecPartialMod(VecPartialMod(t3))
  }

  // The signed comparison is right for words below 2^63.
  lemma LaneAgrees(x: word)
    requires x < 0x8000_0000_0000_0000
    ensures LaneSubtractP(x) == SubtractP(x)
  {
  }

  /** Both lanes reduce every word as the scalar form does. */
  lemma VecModAgrees(x: Block)
    ensures VecMod(x) == Block(Mod(x.lo), Mod(x.hi))
  {
    FoldHighExact(x.lo);
    FoldHighExact(x.hi);
    LaneAgrees(FoldHigh(x.lo));
    LaneAgrees(FoldHigh(x.hi));
  }

  lemma VecAddAgrees(a: Block, b: Block)
    requires a.lo < P && a.hi < P && b.lo < P && b.hi < P
    ensures VecAddMod(a, b) == Block(AddMod(a.lo, b.lo), AddMod(a.hi, b.hi))
  {
  }

  // The last additions of one lane, in the order of the two-lane form.
  function LaneBefore(c: word, e: word): word {
    var i := HighPart(c, e);
    var j := Shr31(i);
    var t := LaneSubtractP(Add64(Sub64(Shl28(j), j), Mask59(Shl28(i))));
    Add64(Add64(t, Mask59(e)), Sub64(P, i))
  }

  lemma LaneBeforeAgrees(t: nat, c: word, e: word)
    requires t <= 576460752034988032 * 576460752034988032
    requires c == t / 0x1_0000_0000_0000_0000 && e == t % 0x1_0000_0000_0000_0000
    ensures LaneSubtractP(LaneSubtractP(LaneBefore(c, e))) == MultTail(c, e)
  {
    HighPartExact(t, c, e);
    var i, lo := HighPart(c, e), Mask59(e);
    BelowThreeP(c, e, i, Reduced(i), lo);
    ReducedExact(i);
    var hi := Shr31(i);
    FoldedSmall(i, hi);
    LaneAgrees(Add64(Sub64(Shl28(hi), hi), Mask59(Shl28(i))));
    hide Reduced, HighPart, Mask59;
    assert LaneBefore(c, e) == Reduced(i) + lo + (576460752034988033 - i) == BeforeReduction(c, e) by {
      LaneSum(c, e, i, lo);
    }
    SubtractPExact(BeforeReduction(c, e));
    LaneAgrees(BeforeReduction(c, e));
    LaneAgrees(SubtractP(BeforeReduction(c, e)));
  }

  lemma FoldedSmall(i: word, hi: word)
    requires i < 576460752034988033 && hi == Shr31(i)
    ensures Add64(Sub64(Shl28(hi), hi), Mask59(Shl28(i))) < 0x8000_0000_0000_0000
  {
    SmallShift(hi);
  }

  lemma LaneSum(c: word, e: word, i: word, lo: word)
    requires i == HighPart(c, e) < 576460752034988033 && lo == Mask59(e) < 0x800_0000_0000_0000
    ensures LaneBefore(c, e) == Reduced(i) + lo + (576460752034988033 - i)
  {
    FoldedSmall(i, Shr31(i));
    LaneAgrees(Add64(Sub64(Shl28(Shr31(i)), Shr31(i)), Mask59(Shl28(i))));
    ReducedExact(i);
    SumsExact(i, Reduced(i), lo);
    hide HighPart, Shl28, Shr31, LaneSubtractP, Mask59, Add64, Sub64, SubtractP;
  }

  /** The two-lane product is the scalar product in each lane. */
  lemma VecMultAgrees(a: Block, b: fp)
    requires a.lo < P && a.hi < P
    ensures VecMultMod(a, b) == Block(MultMod(a.lo, b), MultMod(a.hi, b))
  {
    ProductBound(a.lo, b);
    ProductBound(a.hi, b);
    LaneBeforeAgrees(a.lo * b, MulHigh(a.lo, b), MulLow(a.lo, b));
    LaneBeforeAgrees(a.hi * b, MulHigh(a.hi, b), MulLow(a.hi, b));
    hide MultTail, MulHigh, MulLow, Shl5, Shr59, Shl28, Shr31, Mask59, Add64, Sub64, LaneSubtractP;
  }
}
