/** Read/write memory from two shuffles. A run is whatever a prover chooses: every old value, old
    time, set version and teardown value is its own. The theorems say when the closing checks
    force sequential memory semantics, and that the honest prover always passes. */
module ZkRam {
  import opened Bits
  import opened Shuffles
  import Set = ZkSet

  datatype Rec = Rec(value: nat, index: nat, time: nat)

  // One access; `value` is the new contents of a store. Old value and time are the prover's claim.
  datatype Access = Access(index: nat, write: bool, value: nat, oldValue: nat, oldTime: nat)

  function NewValue(a: Access): nat {
    if a.write then a.value else a.oldValue
  }

  function InitWrites(content: seq<nat>): (r: seq<Rec>)
    ensures |r| == |content|
  {
    seq(|content|, i requires 0 <= i < |content| => Rec(content[i], i, 0))
  }

  function AccessReads(tr: seq<Access>): (r: seq<Rec>)
    ensures |r| == |tr|
  {
    seq(|tr|, k requires 0 <= k < |tr| => Rec(tr[k].oldValue, tr[k].index, tr[k].oldTime))
  }

  // The k-th access (from 0) happens at clock k + 1, committed in time_sz bits: modulo M.
  function AccessWrites(M: nat, tr: seq<Access>): (r: seq<Rec>)
    requires M >= 1
    ensures |r| == |tr|
  {
    seq(|tr|, k requires 0 <= k < |tr| => Rec(NewValue(tr[k]), tr[k].index, (k + 1) % M))
  }

  datatype Cell = Cell(value: nat, time: nat)

  function TeardownReads(fin: seq<Cell>): (r: seq<Rec>)
    ensures |r| == |fin|
  {
    seq(|fin|, i requires 0 <= i < |fin| => Rec(fin[i].value, i, fin[i].time))
  }

  // clock - t_old in time_sz bits.
  function Diffs(M: nat, tr: seq<Access>): (r: seq<nat>)
    requires M >= 1
    ensures |r| == |tr|
  {
    seq(|tr|, k requires 0 <= k < |tr| => (k + 1 - tr[k].oldTime) % M)
  }

  // ---- the memory the run is supposed to be ----

  function Mem(content: seq<nat>, tr: seq<Access>, k: nat): (m: seq<nat>)
    requires k <= |tr|
    ensures |m| == |content|
  {
    if k == 0 then content
    else
      var m, a := Mem(content, tr, k - 1), tr[k - 1];
      if a.write && a.index < |m| then m[a.index := a.value] else m
  }

  // Every access hits a cell and returns what that cell holds.
  ghost predicate Sequential(content: seq<nat>, tr: seq<Access>) {
    forall k :: 0 <= k < |tr| ==> Faithful(content, tr, k)
  }

  ghost predicate Faithful(content: seq<nat>, tr: seq<Access>, k: nat)
    requires k < |tr|
  {
    tr[k].index < |content| && tr[k].oldValue == Mem(content, tr, k)[tr[k].index]
  }

  // ---- which write a read refers to ----

  // Clock of the last access to `a` among the first k, or 0.
  function LastTime(tr: seq<Access>, k: nat, a: nat): (t: nat)
    requires k <= |tr|
    ensures t <= k && (t > 0 ==> tr[t - 1].index == a)
  {
    if k == 0 then 0 else if tr[k - 1].index == a then k else LastTime(tr, k - 1, a)
  }

  lemma {:induction false} LastTimeBound(tr: seq<Access>, k: nat, a: nat, t: nat)
    requires t <= k <= |tr| && (t == 0 || tr[t - 1].index == a)
    ensures t <= LastTime(tr, k, a)
  {
    if t < k { LastTimeBound(tr, k - 1, a, t); }
  }

  // If time t is not the latest access to `a`, some later access has t as its latest.
  lemma {:induction false} NextReader(tr: seq<Access>, k: nat, a: nat, t: nat) returns (q: nat)
    requires k <= |tr| && t < LastTime(tr, k, a) && (t == 0 || tr[t - 1].index == a)
    ensures t <= q < k && tr[q].index == a && LastTime(tr, q, a) == t
  {
    if tr[k - 1].index == a && LastTime(tr, k - 1, a) == t {
      q := k - 1;
    } else {
      LastTimeBound(tr, k - 1, a, t);
      q := NextReader(tr, k - 1, a, t);
    }
  }

  // Memory holds the last value written to a cell, or the initial one.
  lemma {:induction false} MemIsLastWrite(content: seq<nat>, tr: seq<Access>, k: nat, a: nat)
    requires k <= |tr| && a < |content| && forall j :: 0 <= j < k ==> Faithful(content, tr, j)
    ensures Mem(content, tr, k)[a]
         == if LastTime(tr, k, a) == 0 then content[a] else NewValue(tr[LastTime(tr, k, a) - 1])
  {
    if k != 0 {
      MemIsLastWrite(content, tr, k - 1, a);
      assert Faithful(content, tr, k - 1);
    }
  }

  // ---- soundness ----

  ghost predicate Balanced(M: nat, content: seq<nat>, tr: seq<Access>, fin: seq<Cell>)
    requires M >= 1
  {
    multiset(AccessReads(tr) + TeardownReads(fin)) == multiset(InitWrites(content) + AccessWrites(M, tr))
  }

  lemma SmallClock(M: nat, tr: seq<Access>, k: nat)
    requires |tr| < M && k < |tr|
    ensures (k + 1) % M == k + 1
  {
    Set.ModUnique(k + 1, M, 0, k + 1);
  }

  lemma WritesDistinct(M: nat, content: seq<nat>, tr: seq<Access>)
    requires |tr| < M
    ensures NoRepeat(InitWrites(content) + AccessWrites(M, tr))
  {
    var ws, n := InitWrites(content) + AccessWrites(M, tr), |content|;
    forall i | 0 <= i < |ws| ensures ws[i].time == (if i < n then 0 else i - n + 1) && (i < n ==> ws[i].index == i) {
      if i >= n { SmallClock(M, tr, i - n); }
    }
  }

  // What a read record says about the write it matches.
  lemma ReadMatches(M: nat, content: seq<nat>, tr: seq<Access>, fin: seq<Cell>, k: nat)
    requires |tr| < M && Balanced(M, content, tr, fin) && k < |tr|
    ensures var a := tr[k];
            && a.oldTime <= |tr|
            && (a.oldTime == 0 ==> a.index < |content| && a.oldValue == content[a.index])
            && (a.oldTime > 0 ==> tr[a.oldTime - 1].index == a.index && a.oldValue == NewValue(tr[a.oldTime - 1]))
  {
    var rs, ws, n := AccessReads(tr) + TeardownReads(fin), InitWrites(content) + AccessWrites(M, tr), |content|;
    SameMembers(rs, ws, rs[k]);
    assert rs[k] in rs;
    var p :| 0 <= p < |ws| && ws[p] == rs[k];
    if p >= n { SmallClock(M, tr, p - n); }
  }

  // Two reads never refer to the same write.
  lemma ReadsDiffer(M: nat, content: seq<nat>, tr: seq<Access>, fin: seq<Cell>, j: nat, k: nat)
    requires |tr| < M && Balanced(M, content, tr, fin) && j < k < |tr|
    ensures !(tr[j].index == tr[k].index && tr[j].oldTime == tr[k].oldTime)
  {
    var rs, ws := AccessReads(tr) + TeardownReads(fin), InitWrites(content) + AccessWrites(M, tr);
    WritesDistinct(M, content, tr);
    NoRepeatShared(rs, ws);
    assert rs[j] != rs[k];
    ReadMatches(M, content, tr, fin, j);
    ReadMatches(M, content, tr, fin, k);
  }

  // With room for twice the range, a time that is not in the past is not fresh.
  lemma FutureIsNotFresh(M: nat, T: nat, clock: nat, oldTime: nat)
    requires 1 <= clock <= oldTime <= T && 2 * T <= M
    ensures !(1 <= (clock - oldTime) % M <= T)
  {
    if oldTime == clock {
      Set.ModUnique(0, M, 0, 0);
    } else {
      Set.ModUnique(clock - oldTime, M, -1, M + clock - oldTime);
    }
  }

  ghost predicate ReadsLatest(content: seq<nat>, tr: seq<Access>, k: nat)
    requires k < |tr|
  {
    tr[k].oldTime == LastTime(tr, k, tr[k].index) && Faithful(content, tr, k)
  }

  lemma LatestStep(M: nat, content: seq<nat>, tr: seq<Access>, fin: seq<Cell>, k: nat)
    requires |tr| < M && Balanced(M, content, tr, fin) && k < |tr| && tr[k].oldTime <= k
    requires forall j :: 0 <= j < k ==> ReadsLatest(content, tr, j)
    ensures ReadsLatest(content, tr, k)
  {
    hide Balanced, Mem;
    var a, t := tr[k].index, tr[k].oldTime;
    ReadMatches(M, content, tr, fin, k);
    if t > 0 { assert ReadsLatest(content, tr, t - 1); }
    LastTimeBound(tr, k, a, t);
    if t < LastTime(tr, k, a) {
      var q := NextReader(tr, k, a, t);
      assert ReadsLatest(content, tr, q);
      ReadsDiffer(M, content, tr, fin, q, k);
      assert false;
    }
    forall j | 0 <= j < k ensures Faithful(content, tr, j) { assert ReadsLatest(content, tr, j); }
    MemIsLastWrite(content, tr, k, a);
  }

  // Every access reads the most recent write to its cell.
  lemma {:induction false} AllReadLatest(M: nat, content: seq<nat>, tr: seq<Access>, fin: seq<Cell>, k: nat)
    requires |tr| < M && Balanced(M, content, tr, fin) && k <= |tr|
    requires forall j :: 0 <= j < |tr| ==> tr[j].oldTime <= j
    ensures forall j :: 0 <= j < k ==> ReadsLatest(content, tr, j)
  {
    if k != 0 {
      AllReadLatest(M, content, tr, fin, k - 1);
      LatestStep(M, content, tr, fin, k - 1);
    }
  }

  /** Sequential memory from shuffle 1 and past timestamps: the read-only memory has this
      guarantee under its hypothesis that every claimed time is in the past. */
  lemma PastReadsAreSequential(M: nat, content: seq<nat>, tr: seq<Access>, fin: seq<Cell>)
    requires |tr| < M && Balanced(M, content, tr, fin)
    requires forall k :: 0 <= k < |tr| ==> tr[k].oldTime < k + 1
    ensures Sequential(content, tr)
  {
    AllReadLatest(M, content, tr, fin, |tr|);
    forall k | 0 <= k < |tr| ensures Faithful(content, tr, k) { assert ReadsLatest(content, tr, k); }
  }

  // ---- whole runs against the verifier's checks ----

  datatype Run = Run(content: seq<nat>, tr: seq<Access>, fin: seq<Cell>, vers: seq<nat>, setFin: seq<nat>)

  // The queries put to the freshness set, with the prover's versions.
  function SetQueries(M: nat, run: Run): (qs: seq<Set.Query>)
    requires M >= 1 && |run.vers| == |run.tr|
    ensures |qs| == |run.tr|
  {
    seq(|run.tr|, k requires 0 <= k < |run.tr| => Set.Query(Diffs(M, run.tr)[k], run.vers[k]))
  }

  // Field widths: indices below I, values below B, times below M; at most T accesses.
  ghost predicate Admissible(I: nat, B: nat, M: nat, T: nat, run: Run) {
    && |run.content| <= I && |run.fin| == |run.content| && |run.tr| <= T
    && |run.vers| == |run.tr|
    && (forall i :: 0 <= i < |run.content| ==> run.content[i] < B)
    && (forall k :: 0 <= k < |run.tr| ==>
          run.tr[k].index < I && run.tr[k].value < B && run.tr[k].oldValue < B && run.tr[k].oldTime < M)
  }

  // Both closing permutation checks succeed; times and versions have the width of T.
  ghost predicate Passes(M: nat, T: nat, run: Run)
    requires M >= 1 && |run.vers| == |run.tr|
  {
    && Balanced(M, run.content, run.tr, run.fin)
    && Set.SetPasses(T, M, SetQueries(M, run), run.setFin)
  }

  ghost predicate Secure(I: nat, B: nat, M: nat, T: nat)
    requires M >= 1
  {
    forall run: Run :: Admissible(I, B, M, T, run) && Passes(M, T, run) ==> Sequential(run.content, run.tr)
  }

  /** Soundness: if the timestamps have room for twice T, every run that passes both shuffles is a
      sequential memory, for every prover. */
  lemma TwoShufflesMakeARam(M: nat, T: nat, run: Run)
    requires T < M && 2 * T <= M && |run.tr| <= T && |run.vers| == |run.tr|
    requires Passes(M, T, run)
    ensures Sequential(run.content, run.tr)
  {
    var qs := SetQueries(M, run);
    Set.SetSoundness(T, M, qs, run.setFin);
    forall k | 0 <= k < |run.tr| ensures run.tr[k].oldTime < k + 1 {
      assert 1 <= qs[k].elem <= T;
      PassingIsPast(M, T, run, k);
    }
    PastReadsAreSequential(M, run.content, run.tr, run.fin);
  }

  lemma PassingIsPast(M: nat, T: nat, run: Run, k: nat)
    requires T < M && 2 * T <= M && |run.tr| <= T && k < |run.tr|
    requires Balanced(M, run.content, run.tr, run.fin) && 1 <= Diffs(M, run.tr)[k] <= T
    ensures run.tr[k].oldTime < k + 1
  {
    ReadMatches(M, run.content, run.tr, run.fin, k);
    if run.tr[k].oldTime >= k + 1 { FutureIsNotFresh(M, T, k + 1, run.tr[k].oldTime); }
  }

  // ---- where the width is one bit short ----

  // T loads of cell 0, the first claiming to read what the last writes back.
  function FutureRead(T: nat): (tr: seq<Access>)
    ensures |tr| == T
  {
    seq(T, k requires 0 <= k < T => Access(0, false, 0, 1, if k == 0 then T else k))
  }

  function Ones(lo: nat, hi: nat): (r: seq<Rec>)
    requires lo <= hi
    ensures |r| == hi - lo
  {
    seq(hi - lo, k requires 0 <= k < hi - lo => Rec(1, 0, lo + k))
  }

  lemma FutureBalanced(M: nat, T: nat)
    requires 1 <= T < M
    ensures Balanced(M, [0], FutureRead(T), [Cell(0, 0)])
  {
    var tr := FutureRead(T);
    var rs, ws := AccessReads(tr), AccessWrites(M, tr);
    forall k | 0 <= k < T ensures ws[k] == Rec(1, 0, k + 1) { SmallClock(M, tr, k); }
    assert rs == [Rec(1, 0, T)] + Ones(1, T);
    assert ws == Ones(1, T) + [Rec(1, 0, T)];
    assert TeardownReads([Cell(0, 0)]) == [Rec(0, 0, 0)] == InitWrites([0]);
    assert multiset(rs) == multiset{Rec(1, 0, T)} + multiset(Ones(1, T)) == multiset(ws);
  }

  function FutureDiffs(M: nat, T: nat): (xs: seq<nat>)
    requires T < M
    ensures |xs| == T
  {
    seq(T, k requires 0 <= k < T => if k == 0 then M + 1 - T else 1)
  }

  lemma FutureDiffsAre(M: nat, T: nat)
    requires 2 <= T < M
    ensures Diffs(M, FutureRead(T)) == FutureDiffs(M, T)
  {
    forall k | 0 <= k < T ensures Diffs(M, FutureRead(T))[k] == FutureDiffs(M, T)[k] {
      if k == 0 { Set.ModUnique(1 - T, M, -1, M + 1 - T); } else { Set.ModUnique(1, M, 0, 1); }
    }
  }

  /** If 2T exceeds the timestamp range, a run exists that passes both shuffles and still returns
      a value no one wrote: its first load reads the future. */
  lemma FutureReadPasses(M: nat, T: nat) returns (run: Run)
    requires 2 <= T < M < 2 * T
    ensures Admissible(1, 2, M, T, run) && Passes(M, T, run) && !Sequential(run.content, run.tr)
  {
    var tr, xs, z := FutureRead(T), FutureDiffs(M, T), Set.NoVersions(T + 1);
    var honest := Set.HonestQueries(z, xs);
    var vers := seq(T, k requires 0 <= k < T => honest[k].ver);
    run := Run([0], tr, [Cell(0, 0)], vers, Set.FinalVersions(z, xs)[1..]);
    FutureBalanced(M, T);
    FutureDiffsAre(M, T);
    Set.HonestSetPasses(T, M, xs);
    forall k | 0 <= k < T ensures SetQueries(M, run)[k] == honest[k] { Set.HonestElems(T, M, z, xs, k); }
    assert SetQueries(M, run) == honest;
    assert !Faithful(run.content, run.tr, 0);
  }

  /** With the width the code computes for T, every passing run of at most T accesses is a
      sequential memory exactly when T is zero or a power of two. */
  lemma RamSecureExactly(I: nat, B: nat, T: nat, b: nat)
    requires I >= 1 && B >= 2 && Width(T, b)
    ensures Secure(I, B, Pow2(b), T) <==> T == 0 || IsPow2(T)
  {
    var M := Pow2(b);
    RoomToDouble(T, b);
    if 2 * T <= M {
      forall run: Run | Admissible(I, B, M, T, run) && Passes(M, T, run) ensures Sequential(run.content, run.tr) {
        TwoShufflesMakeARam(M, T, run);
      }
    } else {
      var run := FutureReadPasses(M, T);
      assert Admissible(I, B, M, T, run);
    }
  }

  /** Shuffle 1 alone, as in read-only mode, gives nothing without the order of times: a single
      load that claims to read its own write-back passes with any value. */
  lemma SelfReadPasses(M: nat, content: nat, claim: nat)
    requires M >= 2
    ensures Balanced(M, [content], [Access(0, false, 0, claim, 1)], [Cell(content, 0)])
    ensures Sequential([content], [Access(0, false, 0, claim, 1)]) <==> claim == content
  {
    var tr := [Access(0, false, 0, claim, 1)];
    SmallClock(M, tr, 0);
    assert AccessReads(tr) == [Rec(claim, 0, 1)] == AccessWrites(M, tr);
    assert TeardownReads([Cell(content, 0)]) == [Rec(content, 0, 0)] == InitWrites([content]);
    assert Faithful([content], tr, 0) <==> claim == content;
  }

  // The read-only mode: no stores, and shuffle 1 alone.
  ghost predicate RomSecure(I: nat, B: nat, M: nat, T: nat)
    requires M >= 1
  {
    forall run: Run ::
      Admissible(I, B, M, T, run) && LoadsOnly(run.tr) && Balanced(M, run.content, run.tr, run.fin) ==>
        Sequential(run.content, run.tr)
  }

  ghost predicate LoadsOnly(tr: seq<Access>) {
    forall k :: 0 <= k < |tr| ==> !tr[k].write
  }

  /** With the width the code computes for T, every passing run of at most T lookups returns the
      setup values exactly when no lookup is allowed: one suffices to return anything. */
  lemma RomSecureExactly(I: nat, B: nat, T: nat, b: nat)
    requires I >= 1 && B >= 2 && Width(T, b)
    ensures RomSecure(I, B, Pow2(b), T) <==> T == 0
  {
    var M := Pow2(b);
    if T == 0 {
      forall run: Run | Admissible(I, B, M, T, run) && LoadsOnly(run.tr) && Balanced(M, run.content, run.tr, run.fin)
        ensures Sequential(run.content, run.tr)
      {
        PastReadsAreSequential(M, run.content, run.tr, run.fin);
      }
    } else {
      assert Pow2(1) == 2;
      Pow2Monotone(1, b);
      SelfReadPasses(M, 0, 1);
      var run := Run([0], [Access(0, false, 0, 1, 1)], [Cell(0, 0)], [0], []);
      assert Admissible(I, B, M, T, run) && LoadsOnly(run.tr);
    }
  }

  // ---- accesses beyond the cells ----

  ghost predicate Stray(content: seq<nat>, a: Access) { a.index >= |content| }

  // Every access beyond the cells claims the default value, as of setup.
  ghost predicate Defaulted(content: seq<nat>, tr: seq<Access>) {
    forall k :: 0 <= k < |tr| && Stray(content, tr[k]) ==> tr[k].oldValue == 0 && tr[k].oldTime == 0
  }

  lemma DefaultedSnoc(content: seq<nat>, tr: seq<Access>, a: Access)
    requires Defaulted(content, tr) && (Stray(content, a) ==> a.oldValue == 0 && a.oldTime == 0)
    ensures Defaulted(content, tr + [a])
  {
  }

  /** A read of the default beyond the cells matches no write while the clock does not wrap. */
  lemma StrayUnbalanced(M: nat, content: seq<nat>, tr: seq<Access>, fin: seq<Cell>, k: nat)
    requires |tr| < M && |fin| == |content| && k < |tr| && Stray(content, tr[k]) && Defaulted(content, tr)
    ensures !Balanced(M, content, tr, fin)
  {
    if Balanced(M, content, tr, fin) {
      var rs, ws := AccessReads(tr) + TeardownReads(fin), InitWrites(content) + AccessWrites(M, tr);
      var r := Rec(0, tr[k].index, 0);
      assert rs[k] == r;
      assert r in multiset(rs) && r in multiset(ws);
      var j :| 0 <= j < |ws| && ws[j] == r;
      if j >= |content| { SmallClock(M, tr, j - |content|); }
    }
  }

  // ---- the honest prover's object ----

  function Cells(mem: seq<nat>, lastT: seq<nat>): (r: seq<Rec>)
    requires |mem| == |lastT|
    ensures |r| == |mem|
  {
    seq(|mem|, i requires 0 <= i < |mem| => Rec(mem[i], i, lastT[i]))
  }

  lemma CellUpdate(mem: seq<nat>, lastT: seq<nat>, i: nat, v: nat, t: nat)
    requires |mem| == |lastT| && i < |mem|
    ensures multiset(Cells(mem[i := v], lastT[i := t])) + multiset{Rec(mem[i], i, lastT[i])}
         == multiset(Cells(mem, lastT)) + multiset{Rec(v, i, t)}
  {
    var c := Cells(mem, lastT);
    assert Cells(mem[i := v], lastT[i := t]) == c[i := Rec(v, i, t)];
    assert c[i] == Rec(mem[i], i, lastT[i]);
  }

  lemma AccessSnoc(M: nat, tr: seq<Access>, a: Access)
    requires M >= 1
    ensures AccessReads(tr + [a]) == AccessReads(tr) + [Rec(a.oldValue, a.index, a.oldTime)]
    ensures AccessWrites(M, tr + [a]) == AccessWrites(M, tr) + [Rec(NewValue(a), a.index, (|tr| + 1) % M)]
  {
  }

  lemma {:induction false} MemPrefix(content: seq<nat>, tr: seq<Access>, a: Access, k: nat)
    requires k <= |tr|
    ensures Mem(content, tr + [a], k) == Mem(content, tr, k)
  {
    if k > 0 { MemPrefix(content, tr, a, k - 1); }
  }

  lemma MemStep(content: seq<nat>, tr: seq<Access>, a: Access)
    requires a.index < |content| && Sequential(content, tr) && a.oldValue == Mem(content, tr, |tr|)[a.index]
    ensures Sequential(content, tr + [a])
    ensures Mem(content, tr + [a], |tr| + 1)
         == (if a.write then Mem(content, tr, |tr|)[a.index := a.value] else Mem(content, tr, |tr|))
  {
    MemPrefix(content, tr, a, |tr|);
    forall k | 0 <= k < |tr| + 1 ensures Faithful(content, tr + [a], k) {
      MemPrefix(content, tr, a, k);
      if k < |tr| { assert Faithful(content, tr, k); }
    }
  }

  // The values of the queries put to the freshness set.
  function Elems(qs: seq<Set.Query>): (r: seq<nat>)
    ensures |r| == |qs|
  {
    seq(|qs|, k requires 0 <= k < |qs| => qs[k].elem)
  }

  lemma ElemsSnoc(M: nat, qs: seq<Set.Query>, q: Set.Query, tr: seq<Access>, a: Access)
    requires M >= 1 && Elems(qs) == Diffs(M, tr) && q.elem == (|tr| + 1 - a.oldTime) % M
    ensures Elems(qs + [q]) == Diffs(M, tr + [a])
  {
    assert Elems(qs + [q]) == Elems(qs) + [q.elem];
    assert Diffs(M, tr + [a]) == Diffs(M, tr) + [(|tr| + 1 - a.oldTime) % M];
  }

  function Versions(qs: seq<Set.Query>): (r: seq<nat>)
    ensures |r| == |qs|
  {
    seq(|qs|, k requires 0 <= k < |qs| => qs[k].ver)
  }

  lemma NoStray(M: nat, content: seq<nat>, tr: seq<Access>, fin: seq<Cell>)
    requires |tr| < M && |fin| == |content| && Defaulted(content, tr)
    ensures (exists k :: 0 <= k < |tr| && Stray(content, tr[k])) ==> !Balanced(M, content, tr, fin)
  {
    if k :| 0 <= k < |tr| && Stray(content, tr[k]) { StrayUnbalanced(M, content, tr, fin, k); }
  }

  lemma QueriesAre(M: nat, qs: seq<Set.Query>, run: Run)
    requires M >= 1 && Elems(qs) == Diffs(M, run.tr) && run.vers == Versions(qs)
    ensures |run.vers| == |run.tr| && SetQueries(M, run) == qs
  {
    assert |Elems(qs)| == |run.tr|;
    forall k | 0 <= k < |qs| ensures SetQueries(M, run)[k] == qs[k] { assert Elems(qs)[k] == qs[k].elem; }
  }

  // The prover's memory and the two record lists, as values.
  datatype Book = Book(mem: seq<nat>, lastT: seq<nat>, clock: nat, readRecs: seq<Rec>, writeRecs: seq<Rec>)

  // The lists are what the accesses emit, whether or not they were in range.
  ghost predicate Kept(M: nat, content: seq<nat>, tr: seq<Access>, bk: Book)
    requires M >= 1
  {
    && |bk.mem| == |bk.lastT| == |content|
    && bk.clock == |tr| + 1
    && bk.readRecs == AccessReads(tr)
    && bk.writeRecs == InitWrites(content) + AccessWrites(M, tr)
  }

  // After in-range accesses: the writes not yet read are exactly the current cells, and memory
  // is what the accesses make of the content.
  ghost predicate Settled(content: seq<nat>, tr: seq<Access>, bk: Book)
    requires |bk.mem| == |bk.lastT|
  {
    && multiset(bk.writeRecs) == multiset(bk.readRecs) + multiset(Cells(bk.mem, bk.lastT))
    && bk.mem == Mem(content, tr, |tr|)
    && Sequential(content, tr)
    && forall i :: 0 <= i < |bk.lastT| ==> bk.lastT[i] < bk.clock
  }

  // One access by the honest prover; beyond the cells it reads defaults and changes no cell.
  function HonestAccess(bk: Book, index: nat, isWrite: bool, value: nat): (a: Access)
    requires |bk.mem| == |bk.lastT|
  {
    if index < |bk.mem| then Access(index, isWrite, value, bk.mem[index], bk.lastT[index])
    else Access(index, isWrite, value, 0, 0)
  }

  function NextBook(M: nat, bk: Book, a: Access): (bk': Book)
    requires M >= 1 && |bk.mem| == |bk.lastT|
    ensures |bk'.mem| == |bk'.lastT| == |bk.mem|
  {
    var inRange := a.index < |bk.mem|;
    Book(if inRange then bk.mem[a.index := NewValue(a)] else bk.mem,
         if inRange then bk.lastT[a.index := bk.clock] else bk.lastT,
         bk.clock + 1,
         bk.readRecs + [Rec(a.oldValue, a.index, a.oldTime)],
         bk.writeRecs + [Rec(NewValue(a), a.index, bk.clock % M)])
  }

  lemma KeptParts(M: nat, content: seq<nat>, tr: seq<Access>, bk: Book)
    requires M >= 1 && Kept(M, content, tr, bk)
    ensures |bk.mem| == |bk.lastT| == |content| && bk.clock == |tr| + 1
  {
  }

  lemma BeyondUnchanged(M: nat, bk: Book, a: Access)
    requires M >= 1 && |bk.mem| == |bk.lastT|
    ensures a.index >= |bk.mem| ==> NextBook(M, bk, a).mem == bk.mem
  {
  }

  lemma KeptStep(M: nat, content: seq<nat>, tr: seq<Access>, bk: Book, a: Access)
    requires M >= 1 && Kept(M, content, tr, bk)
    ensures Kept(M, content, tr + [a], NextBook(M, bk, a))
  {
    AccessSnoc(M, tr, a);
  }

  /** Conservation: an honest in-range access keeps the pending records equal to the cells, keeps
      the run sequential, and asks the set for a difference in {1..clock}. */
  lemma SettledStep(M: nat, content: seq<nat>, tr: seq<Access>, bk: Book, index: nat, isWrite: bool, value: nat)
    requires |tr| + 1 < M && Kept(M, content, tr, bk) && Settled(content, tr, bk) && index < |content|
    ensures var a := HonestAccess(bk, index, isWrite, value);
            && Settled(content, tr + [a], NextBook(M, bk, a))
            && 1 <= (bk.clock - a.oldTime) % M <= bk.clock
  {
    var a := HonestAccess(bk, index, isWrite, value);
    var bk' := NextBook(M, bk, a);
    Set.ModUnique(bk.clock, M, 0, bk.clock);
    Set.ModUnique(bk.clock - a.oldTime, M, 0, bk.clock - a.oldTime);
    CellUpdate(bk.mem, bk.lastT, index, NewValue(a), bk.clock);
    Advance(multiset(bk.readRecs), multiset(bk.writeRecs), multiset(Cells(bk.mem, bk.lastT)),
            multiset(Cells(bk'.mem, bk'.lastT)),
            Rec(a.oldValue, index, a.oldTime), Rec(NewValue(a), index, bk.clock));
    MemStep(content, tr, a);
    if !isWrite { assert bk'.mem == bk.mem; }
  }

  function FinalCells(bk: Book): (fin: seq<Cell>)
    requires |bk.mem| == |bk.lastT|
    ensures |fin| == |bk.mem| && TeardownReads(fin) == Cells(bk.mem, bk.lastT)
  {
    seq(|bk.mem|, i requires 0 <= i < |bk.mem| => Cell(bk.mem[i], bk.lastT[i]))
  }

  class ZKRam {
    const readOnly: bool
    const T: nat
    const timeSz: nat
    const M: nat           // 2^timeSz
    var bk: Book
    const diffs: Set.ZKSet?
    ghost var content: seq<nat>
    ghost var tr: seq<Access>

    ghost predicate Valid()
      reads this, diffs
    {
      && Width(T, timeSz) && M == Pow2(timeSz)
      && Kept(M, content, tr, bk) && Defaulted(content, tr)
      && (readOnly <==> diffs == null)
      && (diffs != null ==> diffs.Valid() && diffs.T == T && diffs.verSz == timeSz && Elems(diffs.queried) == Diffs(M,
          tr))
    }

    ghost predicate InBalance()
      reads this, diffs
      requires Valid()
    {
      Settled(content, tr, bk) && (diffs != null ==> diffs.Balanced())
    }

    // The run of the object so far, as a prover's choices.
    ghost function Played(): (run: Run)
      reads this, diffs
      requires Valid() && !readOnly
      ensures |run.vers| == |run.tr|
    {
      assert |diffs.queried| == |Elems(diffs.queried)| == |tr|;
      Run(content, tr, FinalCells(bk), Versions(diffs.queried), diffs.ver[1..])
    }

    constructor (T: nat, readOnly: bool, initial: seq<nat>)
      ensures Valid() && InBalance() && this.T == T && this.readOnly == readOnly
      ensures content == initial && tr == [] && bk.mem == initial
      ensures diffs != null ==> fresh(diffs)
    {
      this.T := T;
      this.readOnly := readOnly;
      content := initial;
      tr := [];
      var b := BitsFor(T);
      timeSz := b;
      M := Pow2(b);
      var s: Set.ZKSet? := null;
      if !readOnly {
        s := new Set.ZKSet(T);
        WidthUnique(T, b, s.verSz);
      }
      diffs := s;
      var ws := [];
      for i := 0 to |initial|
        invariant ws == InitWrites(initial[..i])
      {
        assert initial[..i + 1] == initial[..i] + [initial[i]];
        assert InitWrites(initial[..i + 1]) == InitWrites(initial[..i]) + [Rec(initial[i], i, 0)];
        ws := ws + [Rec(initial[i], i, 0)];
      }
      assert initial[..|initial|] == initial;
      bk := Book(initial, Set.NoVersions(|initial|), 1, [], ws);
      new;
      assert AccessWrites(M, tr) == [];
      assert InitWrites(initial) + [] == InitWrites(initial);
      assert Cells(bk.mem, bk.lastT) == InitWrites(content);
    }

    // Shuffle 2: ask the set that the last write to the cell is in the past.
    method AskFresh(clock: nat, ghost a: Access, oldTime: nat)
      requires diffs != null && diffs.Valid() && diffs.T == T && M >= 1
      requires Elems(diffs.queried) == Diffs(M, tr) && clock == |tr| + 1 && oldTime == a.oldTime
      modifies diffs
      ensures diffs.Valid() && Elems(diffs.queried) == Diffs(M, tr + [a])
      ensures old(diffs.Balanced()) && |tr| < T && 1 <= (clock - oldTime) % M <= T ==> diffs.Balanced()
    {
      ghost var qs := diffs.queried;
      assert |qs| == |Elems(qs)| == |tr|;
      diffs.ProveMember((clock - oldTime) % M);
      ElemsSnoc(M, qs, diffs.queried[|qs|], tr, a);
      assert diffs.queried == qs + [diffs.queried[|qs|]];
    }

    method Perform(index: nat, isWrite: bool, value: nat) returns (oldValue: nat)
      requires Valid() && (isWrite ==> !readOnly)
      modifies this`bk, this`tr, diffs
      ensures Valid()
      ensures var a := HonestAccess(old(bk), index, isWrite, value);
              && oldValue == a.oldValue
              && tr == old(tr) + [a]
              && bk == NextBook(M, old(bk), a)
      ensures old(InBalance()) && index < |content| && |tr| <= T ==> InBalance()
      ensures index >= |content| ==> oldValue == 0 && bk.mem == old(bk).mem
    {
      hide Settled, NextBook, Diffs, Elems, Kept, Defaulted;
      KeptParts(M, content, tr, bk);
      oldValue := 0;
      var oldTime := 0;
      if index < |bk.mem| {
        oldValue := bk.mem[index];
        oldTime := bk.lastT[index];
      }
      ghost var a := HonestAccess(bk, index, isWrite, value);
      KeptStep(M, content, tr, bk, a);
      DefaultedSnoc(content, tr, a);
      BeyondUnchanged(M, bk, a);
      if InBalance() && index < |content| && |tr| < T { SettledStep(M, content, tr, bk, index, isWrite, value); }
      if !readOnly { AskFresh(bk.clock, a, oldTime); }
      Record(index, oldValue, oldTime, isWrite, value);
      tr := tr + [a];
    }

    // Shuffle 1: note the read and the write-back, and update the cell.
    method Record(index: nat, oldValue: nat, oldTime: nat, isWrite: bool, value: nat)
      requires |bk.mem| == |bk.lastT| && M >= 1
      modifies this`bk
      ensures bk == NextBook(M, old(bk), Access(index, isWrite, value, oldValue, oldTime))
    {
      var newValue := if isWrite then value else oldValue;
      bk := bk.(readRecs := bk.readRecs + [Rec(oldValue, index, oldTime)],
                writeRecs := bk.writeRecs + [Rec(newValue, index, bk.clock % M)]);
      if index < |bk.mem| {
        bk := bk.(mem := bk.mem[index := newValue], lastT := bk.lastT[index := bk.clock]);
      }
      bk := bk.(clock := bk.clock + 1);
    }

    // Teardown reads every cell; shuffle 1 compares reads and writes.
    method ReadAll() returns (ok: bool)
      requires Valid()
      modifies this`bk
      ensures bk == old(bk).(readRecs := old(bk).readRecs + TeardownReads(FinalCells(old(bk))))
      ensures ok <==> Balanced(M, content, tr, FinalCells(old(bk)))
      ensures old(InBalance()) ==> ok
    {
      ghost var cells := Cells(bk.mem, bk.lastT);
      var final := [];
      for i := 0 to |bk.mem|
        invariant final == cells[..i]
      {
        final := final + [Rec(bk.mem[i], i, bk.lastT[i])];
      }
      assert cells[..|bk.mem|] == cells;
      ok := multiset(bk.readRecs + final) == multiset(bk.writeRecs);
      assert multiset(bk.readRecs + final) == multiset(bk.readRecs) + multiset(cells);
      bk := bk.(readRecs := bk.readRecs + final);
    }

    // The verdict is that of both shuffles, or of the first one alone.
    method Check() returns (ok: bool)
      requires Valid()
      modifies this`bk, diffs
      ensures bk == old(bk).(readRecs := old(bk).readRecs + TeardownReads(FinalCells(old(bk))))
      ensures ok ==> Balanced(M, content, tr, FinalCells(old(bk)))
      ensures readOnly ==> (ok <==> Balanced(M, content, tr, FinalCells(old(bk))))
      ensures !readOnly && |tr| <= T ==> (ok <==> Passes(M, T, old(Played())))
      ensures old(InBalance()) ==> ok
      ensures |tr| <= T && (exists k :: 0 <= k < |tr| && Stray(content, tr[k])) ==> !ok
    {
      hide Balanced, Settled, Kept, Defaulted, Stray, FinalCells, SetQueries, Set.SetPasses, Elems, Diffs, Versions;
      KeptParts(M, content, tr, bk);
      if |tr| <= T { NoStray(M, content, tr, FinalCells(bk)); }
      if !readOnly {
        QueriesAre(M, diffs.queried, Played());
        assert |diffs.queried| == |Elems(diffs.queried)| == |tr|;
      }
      ok := ReadAll();
      if !readOnly {
        var okSet := diffs.Check();
        ok := ok && okSet;
      }
    }
  }
}
