/** What the soundness theorem of the multiplication check counts: the words over C are all lists of
    challenges, each once; a strategy's messages are what it chooses, whatever these are; and the
    cheats are summed over all lists of coefficients. */
module CheckCounts {
  import opened Algebra
  import opened Interpolation
  import opened Compression
  import opened CheckSoundness

  // ---- words ----

  ghost predicate Over<E(!new)>(w: seq<E>, C: seq<E>) {
    forall i :: 0 <= i < |w| ==> w[i] in C
  }

  lemma PrefixedHas<E(!new)>(r: E, ws: seq<seq<E>>, w: seq<E>)
    ensures w in Prefixed(r, ws) <==> w != [] && w[0] == r && w[1..] in ws
  {
    if w != [] && w[0] == r && w[1..] in ws {
      var i :| 0 <= i < |ws| && ws[i] == w[1..];
      assert Prefixed(r, ws)[i] == [r] + w[1..] == w;
    }
    if w in Prefixed(r, ws) {
      var i :| 0 <= i < |ws| && Prefixed(r, ws)[i] == w;
      assert w == [r] + ws[i] && w[1..] == ws[i];
    }
  }

  /** The words are exactly the lists of that many entries of C ... */
  lemma {:induction false} WordsAre<E(!new)>(C: seq<E>, R: nat, w: seq<E>)
    ensures w in Words(C, R) <==> |w| == R && Over(w, C)
    decreases R, |C| + 1
  {
    if R > 0 {
      WordsUpToAre(C, R, |C|, w);
      assert C[..|C|] == C;
    } else if |w| == 0 {
      assert w == [];
    }
  }

  lemma {:induction false} WordsUpToAre<E(!new)>(C: seq<E>, R: nat, i: nat, w: seq<E>)
    requires R >= 1 && i <= |C|
    ensures w in WordsUpTo(C, R, i) <==> |w| == R && w[0] in C[..i] && Over(w[1..], C)
    decreases R, i
  {
    if i > 0 {
      WordsUpToAre(C, R, i - 1, w);
      PrefixedHas(C[i - 1], Words(C, R - 1), w);
      if w != [] { WordsAre(C, R - 1, w[1..]); }
      assert C[..i] == C[..i - 1] + [C[i - 1]];
    }
  }

  /** ... and there are |C| to the power of R. */
  lemma {:induction false} WordsCount<E(!new)>(C: seq<E>, R: nat)
    ensures |Words(C, R)| == NPow(|C|, R)
    decreases R, |C| + 1
  {
    if R > 0 { WordsUpToCount(C, R, |C|); }
  }

  lemma {:induction false} WordsUpToCount<E(!new)>(C: seq<E>, R: nat, i: nat)
    requires R >= 1 && i <= |C|
    ensures |WordsUpTo(C, R, i)| == i * NPow(|C|, R - 1)
    decreases R, i
  {
    if i > 0 {
      WordsUpToCount(C, R, i - 1);
      WordsCount(C, R - 1);
      OneMore(0, 0, i, 0, NPow(|C|, R - 1));
    }
  }

  /** With different entries in C, each word is listed once. */
  lemma {:induction false} WordsDiffer<E(!new)>(C: seq<E>, R: nat)
    requires Distinct(C)
    ensures Distinct(Words(C, R))
    decreases R, |C| + 1
  {
    if R > 0 { WordsUpToDiffer(C, R, |C|); }
  }

  lemma {:induction false} WordsUpToDiffer<E(!new)>(C: seq<E>, R: nat, i: nat)
    requires R >= 1 && i <= |C| && Distinct(C)
    ensures Distinct(WordsUpTo(C, R, i))
    decreases R, i
  {
    if i > 0 {
      var a, b := WordsUpTo(C, R, i - 1), Prefixed(C[i - 1], Words(C, R - 1));
      WordsUpToDiffer(C, R, i - 1);
      WordsDiffer(C, R - 1);
      PrefixedDiffer(C[i - 1], Words(C, R - 1));
      hide Words, WordsUpTo, Prefixed;
      forall w | w in a ensures w !in b {
        WordsUpToAre(C, R, i - 1, w);
        PrefixedHas(C[i - 1], Words(C, R - 1), w);
      }
      BothDiffer(a, b);
    }
  }

  lemma PrefixedDiffer<E(!new)>(r: E, ws: seq<seq<E>>)
    requires Distinct(ws)
    ensures Distinct(Prefixed(r, ws))
  {
    var p := Prefixed(r, ws);
    forall i, j | 0 <= i < j < |p| ensures p[i] != p[j] { assert p[i][1..] == ws[i] && p[j][1..] == ws[j]; }
  }

  lemma BothDiffer<T>(a: seq<T>, b: seq<T>)
    requires Distinct(a) && Distinct(b) && forall x :: x in a ==> x !in b
    ensures Distinct(a + b)
  {
    var s := a + b;
    forall i, j | 0 <= i < j < |s| ensures s[i] != s[j] {
      if i < |a| { assert s[i] == a[i] && (j < |a| ==> s[j] == a[j]) && (j >= |a| ==> s[j] in b); }
    }
  }

  // ---- strategies ----

  // How long the k-th of R messages is.
  function SizeAt(m: nat, R: nat, k: nat): nat
    requires m >= 1
  {
    if k + 1 < R then 2 * m - 2 else 2 * m + 2
  }

  /** A strategy sends what it chooses from the challenges so far, whenever that has the right size. */
  lemma {:induction false} SentAsChosen<E(!new)>(F: Field<E>, P: Params<E>, len: nat, S: Strategy<E>, rs: seq<E>,
                                                 k: nat)
    requires 2 <= P.m && 1 <= len && k < Rounds(P.m, len) <= |rs|
    requires |S(rs[..k])| == SizeAt(P.m, Rounds(P.m, len), k)
    ensures |MessagesOf(F, P, len, S, rs)| == Rounds(P.m, len) && MessagesOf(F, P, len, S, rs)[k] == S(rs[..k])
    decreases len
  {
    hide Chunks;
    MessageCount(F, P, len, S, rs);
    if k == 0 {
      assert rs[..0] == [];
    } else {
      var later := After(S, rs[0]);
      assert [rs[0]] + rs[1..][..k - 1] == rs[..k];
      assert len > 1 && Rounds(P.m, len) == 1 + Rounds(P.m, Chunks(P.m, len));
      SentAsChosen(F, P, Chunks(P.m, len), later, rs[1..], k - 1);
    }
  }

  lemma {:induction false} MessageCount<E(!new)>(F: Field<E>, P: Params<E>, len: nat, S: Strategy<E>, rs: seq<E>)
    requires 2 <= P.m && 1 <= len && Rounds(P.m, len) <= |rs|
    ensures |MessagesOf(F, P, len, S, rs)| == Rounds(P.m, len)
    decreases len
  {
    hide Chunks;
    if len > 1 { MessageCount(F, P, Chunks(P.m, len), After(S, rs[0]), rs[1..]); }
  }

  // ---- cheats ----

  // The strategy once the coefficients w have been seen.
  function AfterAll<E(!new)>(S: Strategy<E>, w: seq<E>): Strategy<E>
    decreases |w|
  {
    if w == [] then S else AfterAll(After(S, w[0]), w[1..])
  }

  lemma {:induction false} AfterAllIs<E(!new)>(S: Strategy<E>, w: seq<E>, h: seq<E>)
    ensures AfterAll(S, w)(h) == S(w + h)
    decreases |w|
  {
    if w == [] {
      assert w + h == h;
    } else {
      AfterAllIs(After(S, w[0]), w[1..], h);
      assert [w[0]] + (w[1..] + h) == w + h;
    }
  }

  // The accepted challenges, added up over lists of coefficients that start with chi.
  ghost function CheatsOver<E(!new)>(
      F: Field<E>, P: Params<E>, left: seq<E>, right: seq<E>, out: seq<E>, chi: seq<E>, S: Strategy<E>, C: seq<E>,
      ws: seq<seq<E>>): nat
    requires F.Laws() && P.Good() && |left| == |right| == |out| >= 1 && |chi| <= |left| && Rows(|left| - |chi|, ws)
  {
    if ws == [] then 0
    else
      CheatsOver(F, P, left, right, out, chi, S, C, ws[1..])
      + Accepting(F, P, InitState(F, P.m, left, right, out, chi + ws[0]), AfterAll(S, ws[0]), C)
  }

  lemma {:induction false} CheatsAppend<E(!new)>(F: Field<E>, P: Params<E>, left: seq<E>, right: seq<E>, out: seq<E>,
                                                 chi: seq<E>, S: Strategy<E>, C: seq<E>, a: seq<seq<E>>,
                                                 b: seq<seq<E>>)
    requires F.Laws() && P.Good() && |left| == |right| == |out| >= 1 && |chi| <= |left|
    requires Rows(|left| - |chi|, a) && Rows(|left| - |chi|, b)
    ensures CheatsOver(F, P, left, right, out, chi, S, C, a + b)
         == CheatsOver(F, P, left, right, out, chi, S, C, a) + CheatsOver(F, P, left, right, out, chi, S, C, b)
  {
    hide Accepting, InitState, AfterAll;
    if a == [] {
      assert a + b == b;
    } else {
      assert (a + b)[1..] == a[1..] + b;
      CheatsAppend(F, P, left, right, out, chi, S, C, a[1..], b);
    }
  }

  lemma {:induction false} CheatsPrefixed<E(!new)>(F: Field<E>, P: Params<E>, left: seq<E>, right: seq<E>,
                                                   out: seq<E>, chi: seq<E>, S: Strategy<E>, C: seq<E>, c: E,
                                                   ws: seq<seq<E>>)
    requires F.Laws() && P.Good() && |left| == |right| == |out| >= 1 && |chi| < |left|
    requires Rows(|left| - |chi| - 1, ws)
    ensures Rows(|left| - |chi|, Prefixed(c, ws))
    ensures CheatsOver(F, P, left, right, out, chi, S, C, Prefixed(c, ws))
         == CheatsOver(F, P, left, right, out, chi + [c], After(S, c), C, ws)
  {
    hide Accepting, InitState;
    if ws != [] {
      CheatsPrefixed(F, P, left, right, out, chi, S, C, c, ws[1..]);
      var p := Prefixed(c, ws);
      assert p[1..] == Prefixed(c, ws[1..]) && p[0] == [c] + ws[0];
      assert p[0][0] == c && p[0][1..] == ws[0] && chi + p[0] == chi + [c] + ws[0];
    }
  }

  /** The cheats are counted over all lists of coefficients. */
  lemma {:induction false} CheatsCount<E(!new)>(F: Field<E>, P: Params<E>, left: seq<E>, right: seq<E>, out: seq<E>,
                                                chi: seq<E>, S: Strategy<E>, C: seq<E>)
    requires F.Laws() && P.Good() && |left| == |right| == |out| >= 1 && |chi| <= |left|
    ensures Rows(|left| - |chi|, Words(C, |left| - |chi|))
    ensures Cheats(F, P, left, right, out, chi, S, C)
         == CheatsOver(F, P, left, right, out, chi, S, C, Words(C, |left| - |chi|))
    decreases |left| - |chi|, |C| + 1
  {
    hide Accepting, InitState;
    WordSize(C, |left| - |chi|, |C|);
    if |chi| == |left| {
      var one: seq<seq<E>> := [[]];
      assert chi + one[0] == chi && one[1..] == [] && AfterAll(S, one[0]) == S;
    } else {
      CheatSumCount(F, P, left, right, out, chi, S, C, |C|);
    }
  }

  lemma {:induction false} CheatSumCount<E(!new)>(F: Field<E>, P: Params<E>, left: seq<E>, right: seq<E>, out: seq<E>,
                                                  chi: seq<E>, S: Strategy<E>, C: seq<E>, i: nat)
    requires F.Laws() && P.Good() && |left| == |right| == |out| >= 1 && |chi| < |left| && i <= |C|
    ensures Rows(|left| - |chi|, WordsUpTo(C, |left| - |chi|, i))
    ensures CheatSum(F, P, left, right, out, chi, S, C, i)
         == CheatsOver(F, P, left, right, out, chi, S, C, WordsUpTo(C, |left| - |chi|, i))
    decreases |left| - |chi|, i
  {
    WordSize(C, |left| - |chi|, i);
    if i > 0 { CheatSumStep(F, P, left, right, out, chi, S, C, i); }
  }

  lemma CheatSumParts<E(!new)>(F: Field<E>, P: Params<E>, left: seq<E>, right: seq<E>, out: seq<E>, chi: seq<E>,
                               S: Strategy<E>, C: seq<E>, i: nat)
    requires F.Laws() && P.Good() && |left| == |right| == |out| >= 1 && |chi| < |left| && 1 <= i <= |C|
    ensures var c, n := C[i - 1], |left| - |chi|;
            && CheatSum(F, P, left, right, out, chi, S, C, i)
                 == CheatSum(F, P, left, right, out, chi, S, C, i - 1)
                    + Cheats(F, P, left, right, out, chi + [c], After(S, c), C)
            && WordsUpTo(C, n, i) == WordsUpTo(C, n, i - 1) + Prefixed(c, Words(C, n - 1))
  {
    hide Cheats, Prefixed, Words, F.Laws, Distinct;
  }

  lemma {:induction false} CheatSumStep<E(!new)>(F: Field<E>, P: Params<E>, left: seq<E>, right: seq<E>, out: seq<E>,
                                                 chi: seq<E>, S: Strategy<E>, C: seq<E>, i: nat)
    requires F.Laws() && P.Good() && |left| == |right| == |out| >= 1 && |chi| < |left| && 1 <= i <= |C|
    requires Rows(|left| - |chi|, WordsUpTo(C, |left| - |chi|, i))
    ensures CheatSum(F, P, left, right, out, chi, S, C, i)
         == CheatsOver(F, P, left, right, out, chi, S, C, WordsUpTo(C, |left| - |chi|, i))
    decreases |left| - |chi|, i, 0
  {
    hide *;
    var c, n := C[i - 1], |left| - |chi|;
    CheatSumParts(F, P, left, right, out, chi, S, C, i);
    CheatSumCount(F, P, left, right, out, chi, S, C, i - 1);
    CheatsCount(F, P, left, right, out, chi + [c], After(S, c), C);
    CheatsPrefixed(F, P, left, right, out, chi, S, C, c, Words(C, n - 1));
    CheatsAppend(F, P, left, right, out, chi, S, C, WordsUpTo(C, n, i - 1), Prefixed(c, Words(C, n - 1)));
  }
}
