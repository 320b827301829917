/** Which preprocessed sharings a run uses: one for each packed sharing of wires, and as many for each
    round of a check as its values need. No preprocessed sharing is used twice. */
module Draws {
  import opened Algebra
  import opened Compression
  import opened Wires
  import opened LockstepRuns
  import Primes

  // `num` preprocessed sharings, from this one on.
  datatype Draw = Draw(from: PreAuth, num: nat)

  // The number of a preprocessed sharing among those of all refills.
  function Index(L: Limits, pa: PreAuth): nat { L.cap * pa.refills + pa.ptr }

  // Inside one refill.
  ghost predicate Inside(L: Limits, d: Draw) { 1 <= d.from.refills && 1 <= d.num && d.from.ptr + d.num <= L.cap }

  // Draws one after another, all of sharings numbered from lo up to hi.
  ghost predicate Ascending(L: Limits, ds: seq<Draw>, lo: nat, hi: nat) {
    && lo <= hi
    && (forall i :: 0 <= i < |ds| ==> Between(L, ds[i], lo, hi))
    && forall i, j :: 0 <= i < j < |ds| ==> Before(L, ds[i], ds[j])
  }

  ghost predicate Between(L: Limits, d: Draw, lo: nat, hi: nat) {
    Inside(L, d) && lo <= Index(L, d.from) && Index(L, d.from) + d.num <= hi
  }

  ghost predicate Before(L: Limits, d: Draw, e: Draw) { Index(L, d.from) + d.num <= Index(L, e.from) }

  lemma Joined(L: Limits, s: seq<Draw>, t: seq<Draw>, lo: nat, mid: nat, hi: nat)
    requires Ascending(L, s, lo, mid) && Ascending(L, t, mid, hi)
    ensures Ascending(L, s + t, lo, hi)
  {
    hide Index, Inside;
    forall i | 0 <= i < |s + t| ensures Between(L, (s + t)[i], lo, hi) {
      assert if i < |s| then Between(L, s[i], lo, mid) else Between(L, t[i - |s|], mid, hi);
    }
    forall i, j | 0 <= i < j < |s + t| ensures Before(L, (s + t)[i], (s + t)[j]) {
      if i < |s| <= j {
        assert Between(L, s[i], lo, mid) && Between(L, t[j - |s|], mid, hi);
      } else if j < |s| {
        assert Before(L, s[i], s[j]);
      } else {
        assert Before(L, t[i - |s|], t[j - |s|]);
      }
    }
  }

  lemma NoDraws(L: Limits, lo: nat)
    ensures Ascending(L, [], lo, lo)
  {
  }

  // Before the first refill nothing is left.
  ghost predicate PreOk(L: Limits, pa: PreAuth) { pa.ptr <= L.cap && (pa.refills == 0 ==> pa.ptr == L.cap) }

  lemma OneDraw(L: Limits, pa: PreAuth, num: nat)
    requires PreOk(L, pa) && 1 <= num <= L.cap
    ensures PreOk(L, Take(pa, num, L.cap))
    ensures Ascending(L, [Draw(Ensure(pa, num, L.cap), num)], Index(L, pa), Index(L, Take(pa, num, L.cap)))
  {
    Primes.Distribute(L.cap, pa.refills, 1);
  }

  // ---- a check ----

  // The values that round r of a check shares: 2m - 2, and in the last round 2m + 2.
  function ValuesShared(L: Limits, len: nat): nat
    requires 2 <= L.m
  {
    if len > 1 then 2 * L.m - 2 else 2 * L.m + 2
  }

  // The draws of a check that starts with len chunks.
  function CheckDraws(L: Limits, pa: PreAuth, len: nat): seq<Draw>
    requires 1 <= L.k && 2 <= L.m
    decreases len
  {
    var num := L.Batches(ValuesShared(L, len));
    var d := Draw(Ensure(pa, num, L.cap), num);
    if len > 1 then [d] + CheckDraws(L, Take(pa, num, L.cap), Chunks(L.m, len)) else [d]
  }

  /** k values fit in each packed sharing: the draw has room for the values, and none to spare. */
  lemma RoomForValues(L: Limits, len: nat)
    requires 1 <= L.k && 1 <= len
    ensures L.k * (L.Batches(len) - 1) < len <= L.k * L.Batches(len) && 1 <= L.Batches(len)
  {
    Primes.DivFacts(len + L.k - 1, L.k);
    Primes.Distribute(L.k, L.Batches(len), 1);
  }

  lemma EnoughCap(L: Limits)
    requires L.Good()
    ensures 1 <= L.Batches(2 * L.m - 2) <= L.cap && 1 <= L.Batches(2 * L.m + 2) <= L.cap && 1 <= L.cap
  {
    RoomForValues(L, 2 * L.m - 2);
    RoomForValues(L, 2 * L.m + 2);
    var x, y := L.Batches(2 * L.m - 2), L.Batches(2 * L.m + 2);
    if x > y { Primes.AtLeast(L.k, x - 1, y); }
  }

  /** The rounds of a check draw one after another, each the sharings its values need. */
  lemma {:induction false} CheckDrawsFit(L: Limits, pa: PreAuth, len: nat)
    requires L.Good() && PreOk(L, pa) && 1 <= len
    ensures PreOk(L, CheckTakes(L, pa, len))
    ensures Ascending(L, CheckDraws(L, pa, len), Index(L, pa), Index(L, CheckTakes(L, pa, len)))
    ensures |CheckDraws(L, pa, len)| == Rounds(L.m, len)
    ensures forall r :: 0 <= r < Rounds(L.m, len) ==>
      CheckDraws(L, pa, len)[r].num == L.Batches(if r < Rounds(L.m, len) - 1 then 2 * L.m - 2 else 2 * L.m + 2)
    decreases len
  {
    EnoughCap(L);
    var num := L.Batches(ValuesShared(L, len));
    OneDraw(L, pa, num);
    if len > 1 {
      var next := Take(pa, num, L.cap);
      CheckDrawsFit(L, next, Chunks(L.m, len));
      Joined(L, [Draw(Ensure(pa, num, L.cap), num)], CheckDraws(L, next, Chunks(L.m, len)), Index(L, pa),
             Index(L, next), Index(L, CheckTakes(L, pa, len)));
    }
  }

  // ---- a run ----

  // What sending the pending wires draws: one sharing, and those of the check it triggers.
  function BatchDraws<E(!new)>(L: Limits, p: Prover<E>): seq<Draw>
    requires 1 <= L.k && 2 <= L.m
  {
    [Draw(NextSpot(L, p.clock).pre, 1)]
    + if |p.triples| >= L.bufSz then CheckDraws(L, BatchClock(L, p.clock).pa, Chunks(L.m, |p.triples|)) else []
  }

  function FlushDraws<E(!new)>(L: Limits, p: Prover<E>): seq<Draw>
    requires 1 <= L.k && 2 <= L.m
  {
    if p.pending != [] then BatchDraws(L, p) else []
  }

  function StepDraws<E(!new)>(F: Field<E>, L: Limits, p: Prover<E>, op: Op<E>): seq<Draw>
    requires 1 <= L.k && 2 <= L.m && Wires.Fits(op, |p.vals|)
  {
    match op
    case Flush => FlushDraws(L, p)
    case Finalize =>
      var q := PFlush(L, p);
      FlushDraws(L, p) + if q.triples != [] then CheckDraws(L, q.clock.pa, Chunks(L.m, |q.triples|)) else []
    case _ =>
      var q := PCreate(F, p, op);
      if Shared(op) && |q.pending| == L.k then BatchDraws(L, q) else []
  }

  // All draws of a run, in order.
  function RunDraws<E(!new)>(F: Field<E>, L: Limits, ops: seq<Op<E>>): seq<Draw>
    requires 1 <= L.k && 2 <= L.m && Legal(ops)
  {
    if ops == [] then []
    else
      var n := |ops| - 1;
      RunDraws(F, L, ops[..n]) + StepDraws(F, L, PRun(F, L, ops[..n]), ops[n])
  }

  // The packed sharings sent so far are numbered in order, and each has a draw of its own.
  ghost predicate SentDrawn<E(!new)>(L: Limits, sent: seq<Sharing<E>>, ds: seq<Draw>) {
    && (forall b :: 0 <= b < |sent| ==> sent[b].at.batch == b && Draw(sent[b].at.pre, 1) in ds)
    && forall b, c :: 0 <= b < c < |sent| ==> Index(L, sent[b].at.pre) < Index(L, sent[c].at.pre)
  }

  // What a run keeps: its draws ascend up to the pointer, and the sharings sent are among them.
  ghost predicate Kept<E(!new)>(L: Limits, p: Prover<E>, ds: seq<Draw>) {
    && PreOk(L, p.clock.pa) && Ascending(L, ds, L.cap, Index(L, p.clock.pa))
    && SentDrawn(L, p.sent, ds) && |p.sent| == p.clock.batches
    && |p.pending| <= L.k && forall b :: 0 <= b < |p.sent| ==> |p.sent[b].wires| <= L.k
  }

  lemma BatchKept<E(!new)>(L: Limits, p: Prover<E>, ds: seq<Draw>)
    requires L.Good() && Kept(L, p, ds)
    ensures Kept(L, PBatch(L, p), ds + BatchDraws(L, p))
  {
    EnoughCap(L);
    var pa, one := p.clock.pa, [Draw(NextSpot(L, p.clock).pre, 1)];
    var q := p.(clock := BatchClock(L, p.clock), sent := p.sent + [Sharing(NextSpot(L, p.clock), p.pending)],
                pending := []);
    OneDraw(L, pa, 1);
    Joined(L, ds, one, L.cap, Index(L, pa), Index(L, q.clock.pa));
    SentSnoc(L, p.sent, ds, L.cap, Index(L, pa), Sharing(NextSpot(L, p.clock), p.pending));
    assert Kept(L, q, ds + one);
    if |p.triples| >= L.bufSz {
      CheckKept(L, q, ds + one);
      assert ds + one + CheckDraws(L, q.clock.pa, Chunks(L.m, |p.triples|)) == ds + BatchDraws(L, p);
    } else {
      assert ds + one == ds + BatchDraws(L, p);
    }
  }

  lemma SentSnoc<E(!new)>(L: Limits, sent: seq<Sharing<E>>, ds: seq<Draw>, lo: nat, hi: nat, sh: Sharing<E>)
    requires SentDrawn(L, sent, ds) && Ascending(L, ds, lo, hi) && hi <= Index(L, sh.at.pre) && sh.at.batch == |sent|
    ensures SentDrawn(L, sent + [sh], ds + [Draw(sh.at.pre, 1)])
  {
    hide Index;
    forall b | 0 <= b < |sent| ensures Index(L, sent[b].at.pre) < Index(L, sh.at.pre) {
      assert Draw(sent[b].at.pre, 1) in ds;
      var i :| 0 <= i < |ds| && ds[i] == Draw(sent[b].at.pre, 1);
      assert Between(L, ds[i], lo, hi);
    }
  }

  lemma CheckKept<E(!new)>(L: Limits, p: Prover<E>, ds: seq<Draw>)
    requires L.Good() && Kept(L, p, ds) && p.triples != []
    ensures Kept(L, PCheck(L, p), ds + CheckDraws(L, p.clock.pa, Chunks(L.m, |p.triples|)))
  {
    var len := Chunks(L.m, |p.triples|);
    CheckDrawsFit(L, p.clock.pa, len);
    Joined(L, ds, CheckDraws(L, p.clock.pa, len), L.cap, Index(L, p.clock.pa), Index(L, PCheck(L, p).clock.pa));
  }

  lemma FlushKept<E(!new)>(L: Limits, p: Prover<E>, ds: seq<Draw>)
    requires L.Good() && Kept(L, p, ds)
    ensures Kept(L, PFlush(L, p), ds + FlushDraws(L, p))
  {
    hide Kept, PBatch, BatchDraws;
    if p.pending != [] { BatchKept(L, p, ds); } else { assert ds + [] == ds; }
  }

  lemma StepKept<E(!new)>(F: Field<E>, L: Limits, p: Prover<E>, op: Op<E>, ds: seq<Draw>)
    requires L.Good() && Kept(L, p, ds) && |p.pending| < L.k && Wires.Fits(op, |p.vals|)
    ensures Kept(L, PStep(F, L, p, op), ds + StepDraws(F, L, p, op)) && |PStep(F, L, p, op).pending| < L.k
  {
    if op.Flush? || op.Finalize? {
      FlushKept(L, p, ds);
      var q, fs := PFlush(L, p), FlushDraws(L, p);
      assert q.pending == [];
      hide Kept, PBatch, BatchDraws, CheckDraws;
      if op.Finalize? {
        if q.triples != [] {
          CheckKept(L, q, ds + fs);
          assert ds + fs + CheckDraws(L, q.clock.pa, Chunks(L.m, |q.triples|)) == ds + StepDraws(F, L, p, op);
        } else {
          assert fs + [] == fs;
        }
      }
    } else {
      var q := PCreate(F, p, op);
      assert Kept(L, q, ds);
      PStepIs(F, L, p, op);
      assert PBatch(L, q).pending == [];
      hide Kept, PBatch, BatchDraws, PStep;
      if Shared(op) && |q.pending| == L.k { BatchKept(L, q, ds); } else { assert ds + [] == ds; }
    }
  }

  /** No preprocessed sharing is used twice: the draws of a run, of batches and of checks, follow one
      another, each inside a refill; every packed sharing of wires has a draw of its own. */
  lemma {:induction false} DrawsApart<E(!new)>(F: Field<E>, L: Limits, ops: seq<Op<E>>)
    requires L.Good() && Legal(ops)
    ensures var p, ds := PRun(F, L, ops), RunDraws(F, L, ops);
            && Ascending(L, ds, L.cap, Index(L, p.clock.pa)) && SentDrawn(L, p.sent, ds)
            && Kept(L, p, ds) && |p.pending| < L.k
  {
    if ops == [] {
      assert PRun(F, L, ops) == PStart(L);
      NoDraws(L, L.cap);
    } else {
      var n := |ops| - 1;
      DrawsApart(F, L, ops[..n]);
      hide Kept, PStep, StepDraws;
      StepKept(F, L, PRun(F, L, ops[..n]), ops[n], RunDraws(F, L, ops[..n]));
      KeptParts(L, PRun(F, L, ops), RunDraws(F, L, ops));
    }
  }

  lemma KeptParts<E(!new)>(L: Limits, p: Prover<E>, ds: seq<Draw>)
    requires Kept(L, p, ds)
    ensures Ascending(L, ds, L.cap, Index(L, p.clock.pa)) && SentDrawn(L, p.sent, ds)
  {
  }
}
