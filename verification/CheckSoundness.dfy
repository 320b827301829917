/** How often a cheating prover can pass the multiplication check. The prover is any function from
    the challenges seen so far to its next message; the count is over every sequence of challenges
    drawn from a list C of distinct field elements. */
module CheckSoundness {
  import opened Algebra
  import opened Interpolation
  import opened Compression

  // The next message, given all challenges so far.
  type Strategy<!E> = seq<E> -> seq<E>

  // A message of the size the verifiers read.
  function Message<E(!new)>(F: Field<E>, S: Strategy<E>, size: nat): (msg: seq<E>)
    ensures |msg| == size
  {
    var s := S([]);
    if |s| >= size then s[..size] else s + Zeros(F, size - |s|)
  }

  // The strategy once r has been seen.
  function After<E(!new)>(S: Strategy<E>, r: E): Strategy<E> {
    h => S([r] + h)
  }

  ghost predicate Fair<E(!new)>(F: Field<E>, P: Params<E>, st: State<E>) {
    F.Laws() && P.Good() && Valid(P.m, st)
  }

  // The joint state of the verifiers after a fold at r.
  function NextOf<E(!new)>(F: Field<E>, P: Params<E>, st: State<E>, S: Strategy<E>, r: E): (next: State<E>)
    requires 2 <= P.m && |P.pts| == 2 * P.m - 1 && |st.x| == |st.y| == P.m * st.len && 2 <= st.len
    ensures Valid(P.m, next) && next.len == Chunks(P.m, st.len) < st.len
  {
    NextState(F, P, st, Recovered(F, P.m, [st.z] + Message(F, S, 2 * P.m - 2)), r)
  }

  ghost predicate Opens<E(!new)>(F: Field<E>, P: Params<E>, st: State<E>, S: Strategy<E>, r: E)
    requires 2 <= P.m && |P.lastPts| == 2 * P.m + 1 && |st.x| == |st.y| == P.m
  {
    var o := LastOpening(F, P, st, Message(F, S, 2 * P.m + 2), r);
    r !in P.pts && r !in P.lastPts && o.2 == F.Mul(o.0, o.1)
  }

  // How many sequences of challenges from C lead to acceptance.
  ghost function Accepting<E(!new)>(F: Field<E>, P: Params<E>, st: State<E>, S: Strategy<E>, C: seq<E>): nat
    requires Fair(F, P, st)
    decreases st.len, 2, 0
  {
    BranchSum(F, P, st, S, C, |C|)
  }

  ghost function BranchSum<E(!new)>(F: Field<E>, P: Params<E>, st: State<E>, S: Strategy<E>, C: seq<E>, i: nat): nat
    requires Fair(F, P, st) && i <= |C|
    decreases st.len, 1, i
  {
    if i == 0 then 0 else BranchSum(F, P, st, S, C, i - 1) + Branch(F, P, st, S, C, C[i - 1])
  }

  ghost function Branch<E(!new)>(F: Field<E>, P: Params<E>, st: State<E>, S: Strategy<E>, C: seq<E>, r: E): nat
    requires Fair(F, P, st)
    decreases st.len, 0, 0
  {
    if st.len > 1 then
      if r in P.pts then 0 else Accepting(F, P, NextOf(F, P, st, S, r), After(S, r), C)
    else if Opens(F, P, st, S, r) then 1 else 0
  }

  // ---- bounds ----

  function NPow(n: nat, k: nat): nat {
    if k == 0 then 1 else n * NPow(n, k - 1)
  }

  // 2m lucky challenges a round, everything after them, and the bound for the rest.
  function Bound(m: nat, n: nat, rounds: nat): nat {
    if rounds == 0 then 0 else 2 * m * NPow(n, rounds - 1) + n * Bound(m, n, rounds - 1)
  }

  lemma {:induction false} BoundIs(m: nat, n: nat, rounds: nat)
    requires rounds >= 1
    ensures Bound(m, n, rounds) == rounds * (2 * m) * NPow(n, rounds - 1)
  {
    var p := NPow(n, rounds - 1);
    if rounds > 1 {
      BoundIs(m, n, rounds - 1);
      var q := NPow(n, rounds - 2);
      assert n * ((rounds - 1) * (2 * m) * q) == (rounds - 1) * (2 * m) * (n * q);
      assert 2 * m * p + (rounds - 1) * (2 * m) * p == rounds * (2 * m) * p;
    }
  }

  // a branches of at most x leaves and i branches of at most y.
  function Mix(a: nat, x: nat, i: nat, y: nat): nat {
    a * x + i * y
  }

  lemma MixMore(a: nat, b: nat, x: nat, i: nat, y: nat)
    ensures Mix(a + b, x, i + 1, y) == Mix(a, x, i, y) + Mix(b, x, 1, y)
    ensures Mix(a, x, i + 1, y) == Mix(a, x, i, y) + y
    ensures Mix(a + 1, x, i, y) == Mix(a, x, i, y) + x
  {
  }

  // a / total <= p / q
  ghost predicate AtMostFraction(a: nat, total: nat, p: nat, q: nat) {
    q * a <= p * total
  }

  // Rounds of a check of len triples.
  function CheckRounds(m: nat, len: nat): (r: nat)
    requires m >= 2 && len >= 1
    ensures r >= 1
  {
    Rounds(m, Chunks(m, len))
  }

  // One bad choice of a coefficient, and 2m bad challenges a round.
  function Odds(m: nat, rounds: nat): nat {
    1 + rounds * (2 * m)
  }

  // The challenge repairs a false claim.
  ghost predicate Lucky<E(!new)>(F: Field<E>, P: Params<E>, st: State<E>, S: Strategy<E>, r: E)
    requires Fair(F, P, st)
  {
    if st.len > 1 then Holds(F, NextOf(F, P, st, S, r)) else Opens(F, P, st, S, r)
  }

  lemma LuckyFew<E(!new)>(F: Field<E>, P: Params<E>, st: State<E>, S: Strategy<E>, lucky: set<E>)
    requires Fair(F, P, st) && !Holds(F, st) && forall r :: r in lucky ==> Lucky(F, P, st, S, r)
    ensures |lucky| <= 2 * P.m
  {
    hide Holds, Opening, Recovered, NextState, Message, Distinct, F.Laws;
    if st.len > 1 {
      RoundSoundness(F, P, st, Message(F, S, 2 * P.m - 2), lucky);
    } else {
      var msg := Message(F, S, 2 * P.m + 2);
      LastRoundSoundness(F, P, st, msg[..2 * P.m], (msg[2 * P.m], msg[2 * P.m + 1]), lucky);
    }
  }

  lemma {:induction false} AtMostAll<E(!new)>(F: Field<E>, P: Params<E>, st: State<E>, S: Strategy<E>, C: seq<E>)
    requires Fair(F, P, st)
    ensures Accepting(F, P, st, S, C) <= NPow(|C|, Rounds(P.m, st.len))
    decreases st.len, 1, 0
  {
    SumAtMost(F, P, st, S, C, |C|);
  }

  lemma {:induction false} SumAtMost<E(!new)>(F: Field<E>, P: Params<E>, st: State<E>, S: Strategy<E>, C: seq<E>,
                                              i: nat)
    requires Fair(F, P, st) && i <= |C|
    ensures BranchSum(F, P, st, S, C, i) <= i * NPow(|C|, Rounds(P.m, st.len) - 1)
    decreases st.len, 0, i
  {
    if i != 0 {
      SumAtMost(F, P, st, S, C, i - 1);
      BranchAtMost(F, P, st, S, C, C[i - 1]);
      OneMore(0, 0, i, 0, NPow(|C|, Rounds(P.m, st.len) - 1));
    }
  }

  lemma {:induction false} BranchAtMost<E(!new)>(F: Field<E>, P: Params<E>, st: State<E>, S: Strategy<E>, C: seq<E>,
                                                 r: E)
    requires Fair(F, P, st)
    ensures Branch(F, P, st, S, C, r) <= NPow(|C|, Rounds(P.m, st.len) - 1)
    decreases st.len, 0, 0
  {
    if st.len > 1 {
      if r !in P.pts { AtMostAll(F, P, NextOf(F, P, st, S, r), After(S, r), C); }
    }
  }

  ghost function LuckyIn<E(!new)>(F: Field<E>, P: Params<E>, st: State<E>, S: Strategy<E>, s: seq<E>): set<E>
    requires Fair(F, P, st)
  {
    set r | r in s && Lucky(F, P, st, S, r)
  }

  lemma LuckySnoc<E(!new)>(F: Field<E>, P: Params<E>, st: State<E>, S: Strategy<E>, C: seq<E>, i: nat)
    requires Fair(F, P, st) && Distinct(C) && i < |C|
    ensures |LuckyIn(F, P, st, S, C[..i + 1])|
         == |LuckyIn(F, P, st, S, C[..i])| + if Lucky(F, P, st, S, C[i]) then 1 else 0
  {
    hide Fair, Lucky;
    var was, now := LuckyIn(F, P, st, S, C[..i]), LuckyIn(F, P, st, S, C[..i + 1]);
    assert C[..i + 1] == C[..i] + [C[i]];
    assert C[i] !in was;
    assert now == if Lucky(F, P, st, S, C[i]) then was + {C[i]} else was;
  }

  /** Of a false claim, at most Bound(m, |C|, rounds) challenge sequences are accepted, whatever the
      prover sends and however its messages depend on the challenges. */
  lemma {:induction false} FewAccept<E(!new)>(F: Field<E>, P: Params<E>, st: State<E>, S: Strategy<E>, C: seq<E>)
    requires Fair(F, P, st) && Distinct(C) && !Holds(F, st)
    ensures Accepting(F, P, st, S, C) <= Bound(P.m, |C|, Rounds(P.m, st.len))
    decreases st.len, 2, 0
  {
    var n, R := |C|, Rounds(P.m, st.len);
    var lucky := LuckyIn(F, P, st, S, C[..n]);
    LuckyFew(F, P, st, S, lucky);
    FewInSum(F, P, st, S, C, n, R);
    BoundStep(P.m, n, R, |lucky|);
  }

  lemma BoundStep(m: nat, n: nat, R: nat, lucky: nat)
    requires R >= 1 && lucky <= 2 * m
    ensures Mix(lucky, NPow(n, R - 1), n, Bound(m, n, R - 1)) <= Bound(m, n, R)
  {
    AtMostTimes(lucky, 2 * m, NPow(n, R - 1));
  }

  lemma AtMostTimes(a: nat, b: nat, c: nat)
    requires a <= b
    ensures a * c <= b * c
  {
  }

  lemma {:induction false} FewInSum<E(!new)>(F: Field<E>, P: Params<E>, st: State<E>, S: Strategy<E>, C: seq<E>,
                                             i: nat, R: nat)
    requires Fair(F, P, st) && Distinct(C) && !Holds(F, st) && i <= |C| && R == Rounds(P.m, st.len)
    ensures BranchSum(F, P, st, S, C, i) <= Mix(|LuckyIn(F, P, st, S, C[..i])|, NPow(|C|, R - 1), i,
                                                Bound(P.m, |C|, R - 1))
    decreases st.len, 1, i
  {
    hide Mix, NPow, Bound, LuckyIn, Lucky, Holds, Branch, Distinct;
    if i != 0 {
      FewInSum(F, P, st, S, C, i - 1, R);
      LuckySnoc(F, P, st, S, C, i - 1);
      FewInBranch(F, P, st, S, C, C[i - 1]);
      CountStep(BranchSum(F, P, st, S, C, i - 1), Branch(F, P, st, S, C, C[i - 1]),
                |LuckyIn(F, P, st, S, C[..i - 1])|, |LuckyIn(F, P, st, S, C[..i])|, Lucky(F, P, st, S, C[i - 1]),
                NPow(|C|, R - 1), i, Bound(P.m, |C|, R - 1));
    }
  }

  lemma CountStep(was: nat, branch: nat, a: nat, b: nat, lucky: bool, x: nat, i: nat, y: nat)
    requires i >= 1 && was <= Mix(a, x, i - 1, y) && branch <= (if lucky then x else y)
    requires b == a + if lucky then 1 else 0
    ensures was + branch <= Mix(b, x, i, y)
  {
    MixLucky(a, x, i, y);
  }

  lemma MixLucky(a: nat, x: nat, i: nat, y: nat)
    requires i >= 1
    ensures Mix(a, x, i - 1, y) + x <= Mix(a + 1, x, i, y)
    ensures Mix(a, x, i - 1, y) + y == Mix(a, x, i, y)
  {
  }

  lemma OneMore(a: nat, b: nat, i: nat, x: nat, y: nat)
    requires i >= 1 && (b == a || b == a + 1)
    ensures b * x + i * y == a * x + (i - 1) * y + y + (if b == a then 0 else x)
  {
  }

  lemma {:induction false} FewInBranch<E(!new)>(F: Field<E>, P: Params<E>, st: State<E>, S: Strategy<E>, C: seq<E>,
                                                r: E)
    requires Fair(F, P, st) && Distinct(C) && !Holds(F, st)
    ensures Branch(F, P, st, S, C, r) <=
      if Lucky(F, P, st, S, r) then NPow(|C|, Rounds(P.m, st.len) - 1) else Bound(P.m, |C|, Rounds(P.m, st.len) - 1)
    decreases st.len, 0, 0
  {
    if Lucky(F, P, st, S, r) {
      BranchAtMost(F, P, st, S, C, r);
    } else if st.len > 1 && r !in P.pts {
      var next := Folded(F, P, st, S, C, r, []);
      hide *;
      FewAccept(F, P, next, After(S, r), C);
    }
  }

  // The state that a challenge folds to, and its part of the count.
  lemma Folded<E(!new)>(F: Field<E>, P: Params<E>, st: State<E>, S: Strategy<E>, C: seq<E>, r: E, ws: seq<seq<E>>)
    returns (next: State<E>)
    requires Fair(F, P, st) && st.len > 1 && r !in P.pts && Rows(Rounds(P.m, st.len) - 1, ws)
    requires Rows(Rounds(P.m, st.len), Prefixed(r, ws))
    ensures Fair(F, P, next) && 1 <= next.len < st.len && Rounds(P.m, st.len) == 1 + Rounds(P.m, next.len)
    ensures Branch(F, P, st, S, C, r) == Accepting(F, P, next, After(S, r), C)
    ensures !Lucky(F, P, st, S, r) ==> !Holds(F, next)
    ensures PassCount(F, P, st, S, Prefixed(r, ws)) == PassCount(F, P, next, After(S, r), ws)
  {
    next := NextOf(F, P, st, S, r);
    hide Accepting, PassCount, Prefixed, Holds;
    PassCountPrefixed(F, P, st, S, r, ws);
  }

  // ---- what is counted ----

  // Acceptance along one sequence of challenges.
  ghost predicate Passes<E(!new)>(F: Field<E>, P: Params<E>, st: State<E>, S: Strategy<E>, rs: seq<E>)
    requires Fair(F, P, st) && Rounds(P.m, st.len) <= |rs|
    decreases st.len
  {
    if st.len > 1 then rs[0] !in P.pts && Passes(F, P, NextOf(F, P, st, S, rs[0]), After(S, rs[0]), rs[1..])
    else Opens(F, P, st, S, rs[0])
  }

  // All sequences of R challenges from C, and those that start with one of the first i.
  function Words<E(!new)>(C: seq<E>, R: nat): seq<seq<E>>
    decreases R, |C| + 1
  {
    if R == 0 then [[]] else WordsUpTo(C, R, |C|)
  }

  function WordsUpTo<E(!new)>(C: seq<E>, R: nat, i: nat): seq<seq<E>>
    requires R >= 1 && i <= |C|
    decreases R, i
  {
    if i == 0 then [] else WordsUpTo(C, R, i - 1) + Prefixed(C[i - 1], Words(C, R - 1))
  }

  function Prefixed<E(!new)>(r: E, ws: seq<seq<E>>): (v: seq<seq<E>>)
    ensures |v| == |ws|
  {
    seq(|ws|, i requires 0 <= i < |ws| => [r] + ws[i])
  }

  ghost function PassCount<E(!new)>(F: Field<E>, P: Params<E>, st: State<E>, S: Strategy<E>, ws: seq<seq<E>>): nat
    requires Fair(F, P, st) && Rows(Rounds(P.m, st.len), ws)
  {
    if ws == [] then 0 else PassCount(F, P, st, S, ws[1..]) + if Passes(F, P, st, S, ws[0]) then 1 else 0
  }

  lemma {:induction false} WordSize<E(!new)>(C: seq<E>, R: nat, i: nat)
    ensures Rows(R, Words(C, R))
    ensures R >= 1 && i <= |C| ==> Rows(R, WordsUpTo(C, R, i))
    decreases R, i, 1
  {
    if R >= 1 {
      WordSize(C, R - 1, 0);
      UpToSize(C, R, |C|);
      if i <= |C| { UpToSize(C, R, i); }
    }
  }

  lemma {:induction false} UpToSize<E(!new)>(C: seq<E>, R: nat, i: nat)
    requires R >= 1 && i <= |C| && Rows(R - 1, Words(C, R - 1))
    ensures Rows(R, WordsUpTo(C, R, i))
    decreases R, i, 0
  {
    if i != 0 { UpToSize(C, R, i - 1); }
  }

  lemma {:induction false} PassCountAdd<E(!new)>(F: Field<E>, P: Params<E>, st: State<E>, S: Strategy<E>,
                                                 a: seq<seq<E>>, b: seq<seq<E>>)
    requires Fair(F, P, st) && Rows(Rounds(P.m, st.len), a) && Rows(Rounds(P.m, st.len), b)
    ensures PassCount(F, P, st, S, a + b) == PassCount(F, P, st, S, a) + PassCount(F, P, st, S, b)
  {
    hide Passes, Fair, Rounds;
    if a == [] {
      assert a + b == b;
    } else {
      assert (a + b)[1..] == a[1..] + b;
      PassCountAdd(F, P, st, S, a[1..], b);
    }
  }

  lemma {:induction false} PassCountPrefixed<E(!new)>(F: Field<E>, P: Params<E>, st: State<E>, S: Strategy<E>, r: E,
                                                      ws: seq<seq<E>>)
    requires Fair(F, P, st) && st.len > 1 && Rows(Rounds(P.m, st.len) - 1, ws)
    ensures r in P.pts ==> PassCount(F, P, st, S, Prefixed(r, ws)) == 0
    ensures r !in P.pts ==>
      PassCount(F, P, st, S, Prefixed(r, ws)) == PassCount(F, P, NextOf(F, P, st, S, r), After(S, r), ws)
  {
    if ws != [] {
      PassCountPrefixed(F, P, st, S, r, ws[1..]);
      var p := Prefixed(r, ws);
      assert p[1..] == Prefixed(r, ws[1..]) && p[0][0] == r && p[0][1..] == ws[0];
    }
  }

  /** The count is of the words over C on which the run is accepted. */
  lemma {:induction false} AcceptingCounts<E(!new)>(F: Field<E>, P: Params<E>, st: State<E>, S: Strategy<E>, C: seq<E>)
    requires Fair(F, P, st)
    ensures Rows(Rounds(P.m, st.len), Words(C, Rounds(P.m, st.len)))
    ensures Accepting(F, P, st, S, C) == PassCount(F, P, st, S, Words(C, Rounds(P.m, st.len)))
    decreases st.len, 1, 0
  {
    WordSize(C, Rounds(P.m, st.len), |C|);
    BranchSumCounts(F, P, st, S, C, |C|, Rounds(P.m, st.len));
  }

  lemma {:induction false} BranchSumCounts<E(!new)>(F: Field<E>, P: Params<E>, st: State<E>, S: Strategy<E>, C: seq<E>,
                                                    i: nat, R: nat)
    requires Fair(F, P, st) && i <= |C| && R == Rounds(P.m, st.len)
    ensures Rows(R, WordsUpTo(C, R, i))
    ensures BranchSum(F, P, st, S, C, i) == PassCount(F, P, st, S, WordsUpTo(C, R, i))
    decreases st.len, 0, i
  {
    WordSize(C, R, i);
    if i == 0 {
      NoWords(F, P, st, S);
    } else {
      BranchSumStep(F, P, st, S, C, i, R);
    }
  }

  lemma {:induction false} BranchSumStep<E(!new)>(F: Field<E>, P: Params<E>, st: State<E>, S: Strategy<E>, C: seq<E>,
                                                  i: nat, R: nat)
    requires Fair(F, P, st) && 1 <= i <= |C| && R == Rounds(P.m, st.len) && Rows(R, WordsUpTo(C, R, i))
    ensures BranchSum(F, P, st, S, C, i) == PassCount(F, P, st, S, WordsUpTo(C, R, i))
    decreases st.len, 0, i, 0
  {
    assert BranchSum(F, P, st, S, C, i) == BranchSum(F, P, st, S, C, i - 1) + Branch(F, P, st, S, C, C[i - 1]);
    assert WordsUpTo(C, R, i) == WordsUpTo(C, R, i - 1) + Prefixed(C[i - 1], Words(C, R - 1));
    hide *;
    BranchSumCounts(F, P, st, S, C, i - 1, R);
    BranchCounts(F, P, st, S, C, C[i - 1], R);
    PassCountAdd(F, P, st, S, WordsUpTo(C, R, i - 1), Prefixed(C[i - 1], Words(C, R - 1)));
  }

  lemma NoWords<E(!new)>(F: Field<E>, P: Params<E>, st: State<E>, S: Strategy<E>)
    requires Fair(F, P, st)
    ensures Rows<E>(Rounds(P.m, st.len), []) && PassCount(F, P, st, S, []) == 0
  {
  }

  lemma {:induction false} BranchCounts<E(!new)>(F: Field<E>, P: Params<E>, st: State<E>, S: Strategy<E>, C: seq<E>,
                                                 r: E, R: nat)
    requires Fair(F, P, st) && R == Rounds(P.m, st.len)
    ensures Rows(R, Prefixed(r, Words(C, R - 1)))
    ensures Branch(F, P, st, S, C, r) == PassCount(F, P, st, S, Prefixed(r, Words(C, R - 1)))
    decreases st.len, 0, 0
  {
    hide *;
    LastWord(F, P, st, C, R);
    WordSize(C, R - 1, 0);
    PrefixedRows(r, Words(C, R - 1), R - 1);
    if st.len > 1 && r !in P.pts {
      var next := Folded(F, P, st, S, C, r, Words(C, R - 1));
      AcceptingCounts(F, P, next, After(S, r), C);
    } else {
      BranchEnds(F, P, st, S, C, r, Words(C, R - 1));
    }
  }

  // The run ends with this challenge.
  lemma BranchEnds<E(!new)>(F: Field<E>, P: Params<E>, st: State<E>, S: Strategy<E>, C: seq<E>, r: E, ws: seq<seq<E>>)
    requires Fair(F, P, st) && (st.len > 1 ==> r in P.pts) && Rows(Rounds(P.m, st.len) - 1, ws)
    requires Rows(Rounds(P.m, st.len), Prefixed(r, ws)) && (st.len == 1 ==> ws == [[]])
    ensures Branch(F, P, st, S, C, r) == PassCount(F, P, st, S, Prefixed(r, ws))
  {
    hide PassCount, Prefixed, Rows, Opens, Accepting, Rounds, NextOf;
    if st.len > 1 { PassCountPrefixed(F, P, st, S, r, ws); } else { OneWord(F, P, st, S, r); }
  }

  lemma PrefixedRows<E(!new)>(r: E, ws: seq<seq<E>>, n: nat)
    requires Rows(n, ws)
    ensures Rows(n + 1, Prefixed(r, ws))
  {
  }

  lemma LastWord<E(!new)>(F: Field<E>, P: Params<E>, st: State<E>, C: seq<E>, R: nat)
    requires Fair(F, P, st) && R == Rounds(P.m, st.len)
    ensures 1 <= st.len && 1 <= R && (st.len == 1 ==> R == 1 && Words(C, R - 1) == [[]])
  {
  }

  lemma OneWord<E(!new)>(F: Field<E>, P: Params<E>, st: State<E>, S: Strategy<E>, r: E)
    requires Fair(F, P, st) && st.len == 1
    ensures PassCount(F, P, st, S, Prefixed(r, [[]])) == if Opens(F, P, st, S, r) then 1 else 0
  {
    hide Opens;
    var p := Prefixed(r, [[]]);
    assert p[0] == [r] + [] == [r];
    assert p == [[r]] && p[1..] == [];
  }

  // The messages that the strategy sends when the challenges are rs.
  function MessagesOf<E(!new)>(F: Field<E>, P: Params<E>, len: nat, S: Strategy<E>, rs: seq<E>): seq<seq<E>>
    requires 2 <= P.m && 1 <= len && Rounds(P.m, len) <= |rs|
    decreases len
  {
    if len > 1 then [Message(F, S, 2 * P.m - 2)] + MessagesOf(F, P, Chunks(P.m, len), After(S, rs[0]), rs[1..])
    else [Message(F, S, 2 * P.m + 2)]
  }

  /** Acceptance of the strategy is the outcome of its messages having z = x * y. */
  lemma {:induction false} PassesIsOutcome<E(!new)>(F: Field<E>, P: Params<E>, st: State<E>, S: Strategy<E>, rs: seq<E>)
    requires Fair(F, P, st) && Rounds(P.m, st.len) <= |rs|
    ensures var msgs := MessagesOf(F, P, st.len, S, rs);
            Fits(P, st.len, msgs, rs)
            && var o := Outcome(F, P, st, msgs, rs);
               Passes(F, P, st, S, rs) <==> o.Some? && o.value.2 == F.Mul(o.value.0, o.value.1)
    decreases st.len
  {
    hide LastOpening, NextState, Recovered, Distinct, F.Laws;
    if st.len > 1 {
      PassesIsOutcome(F, P, NextOf(F, P, st, S, rs[0]), After(S, rs[0]), rs[1..]);
      var msgs, rest := MessagesOf(F, P, st.len, S, rs), MessagesOf(F, P, Chunks(P.m, st.len), After(S, rs[0]),
                                                                    rs[1..]);
      assert msgs[0] == Message(F, S, 2 * P.m - 2) && msgs[1..] == rest;
    }
  }

  // ---- with the random coefficients of the inner-product reduction ----

  // How many ways to choose the remaining coefficients, and then the challenges, are accepted.
  ghost function Cheats<E(!new)>(
      F: Field<E>, P: Params<E>, left: seq<E>, right: seq<E>, out: seq<E>, chi: seq<E>, S: Strategy<E>, C: seq<E>): nat
    requires F.Laws() && P.Good() && |left| == |right| == |out| >= 1 && |chi| <= |left|
    decreases |left| - |chi|, |C| + 1
  {
    if |chi| == |left| then Accepting(F, P, InitState(F, P.m, left, right, out, chi), S, C)
    else CheatSum(F, P, left, right, out, chi, S, C, |C|)
  }

  ghost function CheatSum<E(!new)>(F: Field<E>, P: Params<E>, left: seq<E>, right: seq<E>, out: seq<E>, chi: seq<E>,
                                   S: Strategy<E>, C: seq<E>, i: nat): nat
    requires F.Laws() && P.Good() && |left| == |right| == |out| >= 1 && |chi| < |left| && i <= |C|
    decreases |left| - |chi|, i
  {
    if i == 0 then 0
    else (
      CheatSum(F, P, left, right, out, chi, S, C, i - 1)
      + Cheats(F, P, left, right, out, chi + [C[i - 1]], After(S, C[i - 1]), C)
    )
  }

  // How many continuations c of coefficients from C satisfy t + d . c = 0.
  ghost function Vanishing<E(!new)>(F: Field<E>, d: seq<E>, t: E, C: seq<E>): nat
    decreases |d|, |C| + 1
  {
    if d == [] then (if t == F.zero then 1 else 0) else VanishingSum(F, d, t, C, |C|)
  }

  ghost function VanishingSum<E(!new)>(F: Field<E>, d: seq<E>, t: E, C: seq<E>, i: nat): nat
    requires d != [] && i <= |C|
    decreases |d|, i
  {
    if i == 0 then 0
    else VanishingSum(F, d, t, C, i - 1) + Vanishing(F, d[1..], F.Add(t, F.Mul(d[0], C[i - 1])), C)
  }

  lemma {:induction false} VanishingAtMost<E(!new)>(F: Field<E>, d: seq<E>, t: E, C: seq<E>)
    ensures Vanishing(F, d, t, C) <= NPow(|C|, |d|)
    decreases |d|, |C| + 1
  {
    if d != [] { VanishingSumAtMost(F, d, t, C, |C|); }
  }

  lemma {:induction false} VanishingSumAtMost<E(!new)>(F: Field<E>, d: seq<E>, t: E, C: seq<E>, i: nat)
    requires d != [] && i <= |C|
    ensures VanishingSum(F, d, t, C, i) <= i * NPow(|C|, |d| - 1)
    decreases |d|, i
  {
    if i != 0 {
      VanishingSumAtMost(F, d, t, C, i - 1);
      VanishingAtMost(F, d[1..], F.Add(t, F.Mul(d[0], C[i - 1])), C);
      OneMore(0, 0, i, 0, NPow(|C|, |d| - 1));
    }
  }

  lemma {:induction false} VanishingFew<E(!new)>(F: Field<E>, d: seq<E>, t: E, C: seq<E>)
    requires F.Laws() && Distinct(C) && exists j :: 0 <= j < |d| && d[j] != F.zero
    ensures AtMostFraction(Vanishing(F, d, t, C), NPow(|C|, |d|), 1, |C|)
    decreases |d|, 1, 0
  {
    if exists j :: 1 <= j < |d| && d[j] != F.zero {
      var j :| 1 <= j < |d| && d[j] != F.zero;
      assert d[1..][j - 1] != F.zero;
      VanishingFewLater(F, d, t, C, |C|);
    } else {
      VanishingFewNow(F, d, t, C, |C|);
      var hits := Hits(F, d[0], t, C);
      OneHit(F, d[0], t, hits);
      assert C[..|C|] == C;
      AtMostTimes(|hits|, 1, NPow(|C|, |d| - 1));
      TimesLess(|C|, Vanishing(F, d, t, C), NPow(|C|, |d| - 1));
    }
  }

  lemma TimesLess(n: nat, a: nat, b: nat)
    requires a <= b
    ensures n * a <= n * b
  {
  }

  lemma {:induction false} VanishingFewLater<E(!new)>(F: Field<E>, d: seq<E>, t: E, C: seq<E>, i: nat)
    requires F.Laws() && Distinct(C) && d != [] && i <= |C| && exists j :: 0 <= j < |d[1..]| && d[1..][j] != F.zero
    ensures |C| * VanishingSum(F, d, t, C, i) <= i * NPow(|C|, |d| - 1)
    decreases |d|, 0, i
  {
    if i != 0 {
      var u, v := VanishingSum(F, d, t, C, i - 1), Vanishing(F, d[1..], F.Add(t, F.Mul(d[0], C[i - 1])), C);
      VanishingFewLater(F, d, t, C, i - 1);
      VanishingFew(F, d[1..], F.Add(t, F.Mul(d[0], C[i - 1])), C);
      assert |C| * (u + v) == |C| * u + |C| * v;
      OneMore(0, 0, i, 0, NPow(|C|, |d| - 1));
    }
  }

  // The coefficients that cancel t against the only nonzero entry.
  ghost function Hits<E(!new)>(F: Field<E>, d0: E, t: E, s: seq<E>): set<E> {
    set c | c in s && F.Add(t, F.Mul(d0, c)) == F.zero
  }

  lemma HitsSnoc<E(!new)>(F: Field<E>, d0: E, t: E, C: seq<E>, i: nat)
    requires Distinct(C) && 1 <= i <= |C|
    ensures |Hits(F, d0, t, C[..i])|
         == |Hits(F, d0, t, C[..i - 1])| + if F.Add(t, F.Mul(d0, C[i - 1])) == F.zero then 1 else 0
  {
    hide F.Add, F.Mul;
    var c, was, now := C[i - 1], Hits(F, d0, t, C[..i - 1]), Hits(F, d0, t, C[..i]);
    assert C[..i] == C[..i - 1] + [c];
    assert c !in was;
    assert now == if F.Add(t, F.Mul(d0, c)) == F.zero then was + {c} else was;
  }

  lemma OneHit<E(!new)>(F: Field<E>, d0: E, t: E, hits: set<E>)
    requires F.Laws() && d0 != F.zero && forall c :: c in hits ==> F.Add(t, F.Mul(d0, c)) == F.zero
    ensures |hits| <= 1
  {
    if hits != {} {
      var a :| a in hits;
      forall b | b in hits ensures b == a {
        assert At2(t, F.Mul(d0, a)) && At2(t, F.Mul(d0, b)) && At2(d0, a) && At2(d0, b);
        Cancel(F, F.Mul(d0, a), F.Mul(d0, b), t);
        MulCancel(F, a, b, d0);
      }
      assert hits == {a};
    }
  }

  lemma {:induction false} VanishingOnly<E(!new)>(F: Field<E>, d: seq<E>, t: E, C: seq<E>)
    requires F.Laws() && (forall j :: 0 <= j < |d| ==> d[j] == F.zero) && t != F.zero
    ensures Vanishing(F, d, t, C) == 0
    decreases |d|, 1, 0
  {
    if d != [] { VanishingOnlySum(F, d, t, C, |C|); }
  }

  lemma {:induction false} VanishingOnlySum<E(!new)>(F: Field<E>, d: seq<E>, t: E, C: seq<E>, i: nat)
    requires F.Laws() && (forall j :: 0 <= j < |d| ==> d[j] == F.zero) && t != F.zero && d != [] && i <= |C|
    ensures VanishingSum(F, d, t, C, i) == 0
    decreases |d|, 0, i
  {
    if i != 0 {
      Zero(F, C[i - 1]);
      Zero(F, t);
      VanishingOnlySum(F, d, t, C, i - 1);
      VanishingOnly(F, d[1..], t, C);
    }
  }

  lemma {:induction false} VanishingFewNow<E(!new)>(F: Field<E>, d: seq<E>, t: E, C: seq<E>, i: nat)
    requires F.Laws() && Distinct(C) && d != [] && d[0] != F.zero && i <= |C|
    requires forall j :: 1 <= j < |d| ==> d[j] == F.zero
    ensures VanishingSum(F, d, t, C, i) <= Mix(|Hits(F, d[0], t, C[..i])|, NPow(|C|, |d| - 1), i, 0)
  {
    hide Mix, NPow, Hits, Distinct, F.Laws, F.Add, F.Mul;
    if i != 0 {
      var c := C[i - 1];
      var was, now := Hits(F, d[0], t, C[..i - 1]), Hits(F, d[0], t, C[..i]);
      var u := F.Add(t, F.Mul(d[0], c));
      VanishingFewNow(F, d, t, C, i - 1);
      HitsSnoc(F, d[0], t, C, i);
      if u == F.zero { VanishingAtMost(F, d[1..], u, C); } else { VanishingOnly(F, d[1..], u, C); }
      CountStep(VanishingSum(F, d, t, C, i - 1), Vanishing(F, d[1..], u, C), |was|, |now|, u == F.zero,
                NPow(|C|, |d| - 1), i, 0);
    }
  }

  function Leftover(m: nat, n: nat, k: nat, R: nat): nat {
    NPow(n, k) * Bound(m, n, R)
  }

  // The claim is repaired by the coefficients, or survives them and is repaired later.
  lemma {:induction false} CheatsAtMost<E(!new)>(F: Field<E>, P: Params<E>, left: seq<E>, right: seq<E>, out: seq<E>,
                                                 chi: seq<E>, S: Strategy<E>, C: seq<E>, R: nat, d: seq<E>)
    requires F.Laws() && P.Good() && |left| == |right| == |out| >= 1 && |chi| <= |left| && Distinct(C)
    requires R == CheckRounds(P.m, |left|) && d == Defects(F, left, right, out)
    ensures Cheats(F, P, left, right, out, chi, S, C)
         <= Mix(Vanishing(F, d[|chi|..], Dot(F, d[..|chi|], chi), C), NPow(|C|, R), 1,
                Leftover(P.m, |C|, |left| - |chi|, R))
    decreases |left| - |chi|, 1, 0
  {
    if |chi| == |left| {
      assert d[..|chi|] == d;
      CheatsLeaf(F, P, left, right, out, chi, S, C, R);
    } else {
      CheatSumAtMost(F, P, left, right, out, chi, S, C, R, d, |C|);
      LeftoverStep(P.m, |C|, |left| - |chi|, R, VanishingSum(F, d[|chi|..], Dot(F, d[..|chi|], chi), C, |C|),
                   NPow(|C|, R));
    }
  }

  lemma LeftoverStep(m: nat, n: nat, k: nat, R: nat, v: nat, x: nat)
    requires k >= 1
    ensures Mix(v, x, n, Leftover(m, n, k - 1, R)) == Mix(v, x, 1, Leftover(m, n, k, R))
  {
    Distribute(n, NPow(n, k - 1), Bound(m, n, R));
  }

  lemma Distribute(n: nat, a: nat, b: nat)
    ensures n * (a * b) == (n * a) * b
  {
  }

  lemma CheatsLeaf<E(!new)>(F: Field<E>, P: Params<E>, left: seq<E>, right: seq<E>, out: seq<E>, chi: seq<E>,
                            S: Strategy<E>, C: seq<E>, R: nat)
    requires F.Laws() && P.Good() && |left| == |right| == |out| == |chi| >= 1 && Distinct(C)
    requires R == CheckRounds(P.m, |left|)
    ensures Accepting(F, P, InitState(F, P.m, left, right, out, chi), S, C)
         <= if Dot(F, Defects(F, left, right, out), chi) == F.zero then NPow(|C|, R) else Bound(P.m, |C|, R)
  {
    var st := InitState(F, P.m, left, right, out, chi);
    InitClaim(F, P.m, left, right, out, chi);
    if Holds(F, st) { AtMostAll(F, P, st, S, C); } else { FewAccept(F, P, st, S, C); }
  }

  lemma {:induction false} CheatSumAtMost<E(!new)>(F: Field<E>, P: Params<E>, left: seq<E>, right: seq<E>, out: seq<E>,
                                                   chi: seq<E>, S: Strategy<E>, C: seq<E>, R: nat, d: seq<E>, i: nat)
    requires F.Laws() && P.Good() && |left| == |right| == |out| >= 1 && |chi| < |left| && Distinct(C) && i <= |C|
    requires R == CheckRounds(P.m, |left|) && d == Defects(F, left, right, out)
    ensures CheatSum(F, P, left, right, out, chi, S, C, i)
         <= Mix(VanishingSum(F, d[|chi|..], Dot(F, d[..|chi|], chi), C, i), NPow(|C|, R), i,
                Leftover(P.m, |C|, |left| - |chi| - 1, R))
    decreases |left| - |chi|, 0, i
  {
    if i != 0 { CheatStep(F, P, left, right, out, chi, S, C, R, d, i); }
  }

  lemma {:induction false} CheatStep<E(!new)>(F: Field<E>, P: Params<E>, left: seq<E>, right: seq<E>, out: seq<E>,
                                              chi: seq<E>, S: Strategy<E>, C: seq<E>, R: nat, d: seq<E>, i: nat)
    requires F.Laws() && P.Good() && |left| == |right| == |out| >= 1 && |chi| < |left| && Distinct(C) && 1 <= i <= |C|
    requires R == CheckRounds(P.m, |left|) && d == Defects(F, left, right, out)
    ensures CheatSum(F, P, left, right, out, chi, S, C, i)
         <= Mix(VanishingSum(F, d[|chi|..], Dot(F, d[..|chi|], chi), C, i), NPow(|C|, R), i,
                Leftover(P.m, |C|, |left| - |chi| - 1, R))
    decreases |left| - |chi|, 0, i, 0
  {
    hide Mix, NPow, Leftover, Cheats, Vanishing, CheckRounds, Distinct, Defects;
    var c, k := C[i - 1], |chi|;
    var t, rest := Dot(F, d[..k], chi), d[k + 1..];
    var u, v := VanishingSum(F, d[k..], t, C, i - 1), Vanishing(F, rest, F.Add(t, F.Mul(d[k], c)), C);
    var chi' := chi + [c];
    assert d[..|chi'|] == d[..k] + [d[k]] && d[k..][1..] == rest == d[|chi'|..] && |left| - |chi'| == |left| - k - 1;
    CheatSumAtMost(F, P, left, right, out, chi, S, C, R, d, i - 1);
    CheatsAtMost(F, P, left, right, out, chi', After(S, c), C, R, d);
    DotSnoc(F, d[..k], chi, d[k], c);
    CheatCount(CheatSum(F, P, left, right, out, chi, S, C, i - 1), Cheats(F, P, left, right, out, chi', After(S, c), C),
               u, v, NPow(|C|, R), i, Leftover(P.m, |C|, |left| - k - 1, R));
  }

  lemma CheatCount(was: nat, branch: nat, u: nat, v: nat, x: nat, i: nat, y: nat)
    requires i >= 1 && was <= Mix(u, x, i - 1, y) && branch <= Mix(v, x, 1, y)
    ensures was + branch <= Mix(u + v, x, i, y)
  {
    MixMore(u, v, x, i - 1, y);
  }

  lemma {:induction false} NPowAdd(n: nat, a: nat, b: nat)
    ensures NPow(n, a + b) == NPow(n, a) * NPow(n, b)
  {
    if a != 0 {
      NPowAdd(n, a - 1, b);
      Distribute(n, NPow(n, a - 1), NPow(n, b));
    }
  }

  /** Soundness of the whole multiplication check. If some recorded triple is wrong, then of all
      choices of coefficients and challenges from a list C of distinct elements, a fraction of at
      most (1 + 2 m rounds) / |C| makes the verifiers accept, for every prover. */
  lemma CheckIsSound<E(!new)>(F: Field<E>, P: Params<E>, left: seq<E>, right: seq<E>, out: seq<E>, S: Strategy<E>,
                              C: seq<E>)
    requires F.Laws() && P.Good() && |left| == |right| == |out| >= 1 && Distinct(C)
    requires exists j :: 0 <= j < |left| && out[j] != F.Mul(left[j], right[j])
    ensures var R := CheckRounds(P.m, |left|);
            AtMostFraction(Cheats(F, P, left, right, out, [], S, C), NPow(|C|, |left| + R), Odds(P.m, R), |C|)
  {
    hide Cheats, CheckRounds, NPow, Mix, Leftover, AtMostFraction, Odds, Distinct;
    var v := CheatsFromStart(F, P, left, right, out, S, C);
    CheckCount(|C|, P.m, |left|, CheckRounds(P.m, |left|), Cheats(F, P, left, right, out, [], S, C), v);
  }

  // v counts the choices of coefficients that repair the claim.
  lemma CheatsFromStart<E(!new)>(F: Field<E>, P: Params<E>, left: seq<E>, right: seq<E>, out: seq<E>, S: Strategy<E>,
                                 C: seq<E>)
    returns (v: nat)
    requires F.Laws() && P.Good() && |left| == |right| == |out| >= 1 && Distinct(C)
    requires exists j :: 0 <= j < |left| && out[j] != F.Mul(left[j], right[j])
    ensures var R := CheckRounds(P.m, |left|);
            Cheats(F, P, left, right, out, [], S, C) <= Mix(v, NPow(|C|, R), 1, Leftover(P.m, |C|, |left|, R))
    ensures AtMostFraction(v, NPow(|C|, |left|), 1, |C|)
  {
    hide Mix, NPow, Leftover, Cheats, Vanishing, CheckRounds, Distinct;
    var R, d := CheckRounds(P.m, |left|), Defects(F, left, right, out);
    var j :| 0 <= j < |left| && out[j] != F.Mul(left[j], right[j]);
    SubLaws(F, out[j], F.Mul(left[j], right[j]));
    assert d[j] != F.zero;
    assert d[0..] == d && d[..0] == [] && Dot(F, d[..0], []) == F.zero;
    CheatsAtMost(F, P, left, right, out, [], S, C, R, d);
    v := Vanishing(F, d, F.zero, C);
    VanishingFew(F, d, F.zero, C);
  }

  lemma CheckCount(n: nat, m: nat, len: nat, R: nat, cheats: nat, v: nat)
    requires R >= 1 && cheats <= Mix(v, NPow(n, R), 1, Leftover(m, n, len, R))
    requires AtMostFraction(v, NPow(n, len), 1, n)
    ensures AtMostFraction(cheats, NPow(n, len + R), Odds(m, R), n)
  {
    assert Odds(m, R) == 1 + R * (2 * m);
    hide *;
    SplitPower(n, len, R);
    LeftoverIs(m, n, len, R);
    FinalCount(n, cheats, v, NPow(n, len), NPow(n, R), NPow(n, R - 1), R * (2 * m));
  }

  lemma LeftoverIs(m: nat, n: nat, k: nat, R: nat)
    requires R >= 1
    ensures Leftover(m, n, k, R) == NPow(n, k) * (R * (2 * m) * NPow(n, R - 1))
  {
    BoundIs(m, n, R);
  }

  lemma SplitPower(n: nat, len: nat, R: nat)
    requires R >= 1
    ensures NPow(n, len + R) == NPow(n, len) * NPow(n, R) && NPow(n, R) == n * NPow(n, R - 1)
  {
    NPowAdd(n, len, R);
  }

  lemma FinalCount(n: nat, cheats: nat, v: nat, x: nat, y: nat, z: nat, r: nat)
    requires cheats <= Mix(v, y, 1, x * (r * z)) && AtMostFraction(v, x, 1, n) && y == n * z
    ensures AtMostFraction(cheats, x * y, 1 + r, n)
  {
    TimesLess(n, cheats, v * y + x * (r * z));
    assert n * (v * y + x * (r * z)) == (n * v) * y + x * (r * (n * z));
    AtMostTimes(n * v, x, y);
    assert x * (r * y) == r * (x * y);
  }
}