/** The prover's wire object: pending wires, recorded triples and the preprocessed secrets are
    updated in place; every packed sharing it sends carries the differences of its wires to the
    next preprocessed secrets. */
module ProverExec {
  import opened Options
  import opened Algebra
  import opened Compression
  import opened Wires
  import opened VerifierExec
  import Primes

  // The k secrets of one packed sharing of a refill.
  function Secrets<E(!new)>(L: Limits, supply: nat -> seq<E>, spot: PreAuth): (r: seq<E>)
    requires spot.ptr < L.cap && |supply(spot.refills)| == L.k * L.cap
    ensures |r| == L.k
  {
    SpotInRange(L, spot.ptr);
    supply(spot.refills)[L.k * spot.ptr..L.k * spot.ptr + L.k]
  }

  lemma SpotInRange(L: Limits, ptr: nat)
    requires ptr < L.cap
    ensures L.k * ptr + L.k <= L.k * L.cap
  {
    Primes.AtLeast(L.k, L.cap, ptr + 1);
    Primes.Distribute(L.k, ptr, 1);
  }

  // Batch b was sent as differences to the secrets at its spot.
  ghost predicate SentAt<E(!new)>(F: Field<E>, L: Limits, supply: nat -> seq<E>, wires: seq<E>, spot: PreAuth,
                                  diff: seq<E>) {
    && |wires| <= L.k && spot.ptr < L.cap && |supply(spot.refills)| == L.k * L.cap
    && diff == Differences(F, L.k, wires, Secrets(L, supply, spot))
  }

  class Exec<E(!new)> {
    const F: Field<E>
    const L: Limits
    const supply: nat -> seq<E>
    var vals: seq<E>
    var wires: seq<E>
    var triples: seq<(E, E, E)>
    var preAuth: seq<E>
    var preAuthPtr: nat
    var refills: nat
    var batches: nat
    var checks: nat
    var outbox: seq<seq<E>>
    ghost var sent: seq<Sharing<E>>
    ghost var checked: seq<seq<(E, E, E)>>

    ghost function Abs(): Prover<E> reads this {
      Prover(vals, wires, triples, Clock(PreAuth(preAuthPtr, refills), batches, checks), sent, checked)
    }

    ghost predicate Loaded() reads this {
      && (forall r :: |supply(r)| == L.k * L.cap) && preAuthPtr <= L.cap
      && if refills == 0 then preAuthPtr == L.cap else preAuth == supply(refills)
    }

    ghost predicate Mailed() reads this {
      && |outbox| == |sent| == batches
      && forall b :: 0 <= b < |sent| ==> SentAt(F, L, supply, sent[b].wires, sent[b].at.pre, outbox[b])
    }

    ghost predicate Valid() reads this {
      L.Good() && Loaded() && Mailed() && |wires| < L.k && |triples| < L.bufSz + |wires|
    }

    constructor (F: Field<E>, L: Limits, supply: nat -> seq<E>)
      requires L.Good() && forall r :: |supply(r)| == L.k * L.cap
      ensures Valid() && this.F == F && this.L == L && this.supply == supply
      ensures Abs() == Prover([], [], [], Clock(PreAuth(L.cap, 0), 0, 0), [], [])
    {
      this.F, this.L, this.supply := F, L, supply;
      vals, wires, triples, preAuth, outbox := [], [], [], [], [];
      preAuthPtr, refills, batches, checks := L.cap, 0, 0, 0;
      sent, checked := [], [];
    }

    method EnsurePreAuth(num: nat)
      requires Loaded() && num <= L.cap
      modifies `preAuth, `preAuthPtr, `refills
      ensures PreAuth(preAuthPtr, refills) == Ensure(PreAuth(old(preAuthPtr), old(refills)), num, L.cap)
      ensures Loaded() && preAuthPtr + num <= L.cap && (num > 0 ==> refills > 0)
    {
      if preAuthPtr + num > L.cap {
        refills := refills + 1;
        preAuth := supply(refills);
        preAuthPtr := 0;
      }
    }

    // The draws of a multiplication check.
    method CheckPreAuth()
      requires L.Good() && Loaded() && triples != []
      modifies `preAuth, `preAuthPtr, `refills
      ensures Loaded()
      ensures PreAuth(preAuthPtr, refills) == CheckTakes(L, PreAuth(old(preAuthPtr), old(refills)),
                                                         Chunks(L.m, |triples|))
    {
      var len := Chunks(L.m, |triples|);
      ghost var want := CheckTakes(L, PreAuth(preAuthPtr, refills), len);
      BatchesMonotone(L);
      CapAtLeastOne(L);
      while len > 1
        invariant 0 <= len && Loaded() && CheckTakes(L, PreAuth(preAuthPtr, refills), len) == want
        decreases len
      {
        Draw(L.Batches(2 * L.m - 2));
        len := Chunks(L.m, len);
      }
      Draw(L.Batches(2 * L.m + 2));
    }

    method Draw(num: nat)
      requires Loaded() && num <= L.cap
      modifies `preAuth, `preAuthPtr, `refills
      ensures Loaded() && PreAuth(preAuthPtr, refills) == Take(PreAuth(old(preAuthPtr), old(refills)), num, L.cap)
    {
      EnsurePreAuth(num);
      preAuthPtr := preAuthPtr + num;
    }

    method VerifyAuthTriple()
      requires L.Good() && Loaded() && triples != []
      modifies `preAuth, `preAuthPtr, `refills, `triples, `checks, `checked
      ensures Loaded() && Abs() == PCheck(L, old(Abs())) && triples == []
    {
      CheckPreAuth();
      checks := checks + 1;
      checked := checked + [triples];
      triples := [];
    }

    /** Sends the pending wires, padded with zeros, as differences to the next k preprocessed
        secrets, and runs a check once enough triples are buffered. */
    method ShareBatch()
      requires L.Good() && Loaded() && Mailed() && 1 <= |wires| <= L.k && |triples| < L.bufSz + |wires|
      modifies this
      ensures Valid() && Abs() == PBatch(L, old(Abs())) && wires == [] && vals == old(vals)
    {
      SendBatch();
      hide SentAt, PCheck;
      if |triples| >= L.bufSz { VerifyAuthTriple(); }
    }

    method SendBatch()
      requires L.Good() && Loaded() && Mailed() && 1 <= |wires| <= L.k
      modifies `preAuth, `preAuthPtr, `refills, `outbox, `sent, `wires, `batches
      ensures Loaded() && Mailed() && wires == []
      ensures Abs() == old(Abs()).(clock := BatchClock(L, old(Abs()).clock), sent := old(Abs()).sent
                                     + [Sharing(NextSpot(L, old(Abs()).clock), old(wires))], pending := [])
    {
      CapAtLeastOne(L);
      EnsurePreAuth(1);
      ghost var spot := PreAuth(preAuthPtr, refills);
      SpotInRange(L, preAuthPtr);
      var diff := DiffLoop(F, L, supply, wires, preAuth, spot, L.k * preAuthPtr);
      preAuthPtr := preAuthPtr + 1;
      hide SentAt, Loaded;
      PostBatch(diff, spot);
    }

    // The differences go out and the pending wires are done.
    method PostBatch(diff: seq<E>, ghost spot: PreAuth)
      requires Mailed() && SentAt(F, L, supply, wires, spot, diff)
      modifies `outbox, `sent, `wires, `batches
      ensures Mailed() && wires == [] && batches == old(batches) + 1
      ensures sent == old(sent) + [Sharing(Spot(old(batches), spot), old(wires))]
    {
      hide SentAt;
      outbox, sent := outbox + [diff], sent + [Sharing(Spot(batches, spot), wires)];
      wires := [];
      batches := batches + 1;
    }

    method Share(val: E)
      requires Valid0(1)
      modifies this
      ensures Valid() && Abs() == PShare(L, old(Abs()), val)
    {
      vals, wires := vals + [val], wires + [val];
      if |wires| == L.k { ShareBatch(); }
    }

    // Valid, but for room taken by a triple recorded ahead of its wire.
    ghost predicate Valid0(extra: nat) reads this {
      L.Good() && Loaded() && Mailed() && |wires| < L.k && |triples| < L.bufSz + |wires| + extra
    }

    method Feed(v: E) returns (id: nat)
      requires Valid()
      modifies this
      ensures Valid() && id == old(|vals|) && Abs() == PStep(F, L, old(Abs()), Op.Feed(v))
    {
      id := |vals|;
      Share(v);
    }

    method PubConst(c: E) returns (id: nat)
      requires Valid()
      modifies `vals
      ensures Valid() && id == old(|vals|) && Abs() == PStep(F, L, old(Abs()), Op.Pub(c))
    {
      id, vals := |vals|, vals + [c];
    }

    method Linear(terms: seq<(E, nat)>, c: E) returns (id: nat)
      requires Valid() && forall i :: 0 <= i < |terms| ==> terms[i].1 < |vals|
      modifies `vals
      ensures Valid() && id == old(|vals|) && Abs() == PStep(F, L, old(Abs()), Op.Lin(terms, c))
    {
      var acc := c;
      for i := 0 to |terms|
        invariant acc == Combine(F, vals, terms[..i], c)
      {
        assert terms[..i + 1][..i] == terms[..i];
        acc := F.Add(acc, F.Mul(terms[i].0, vals[terms[i].1]));
      }
      assert terms[..|terms|] == terms;
      id, vals := |vals|, vals + [acc];
    }

    // The triple is recorded before the product is shared.
    method Mult(a: nat, b: nat) returns (id: nat)
      requires Valid() && a < |vals| && b < |vals|
      modifies this
      ensures Valid() && id == old(|vals|) && Abs() == PStep(F, L, old(Abs()), Op.Mult(a, b, None))
    {
      id := |vals|;
      var out := F.Mul(vals[a], vals[b]);
      assert |triples| < L.bufSz + L.k;
      triples := triples + [(vals[a], vals[b], out)];
      Share(out);
    }

    method Flush()
      requires Valid()
      modifies this
      ensures Valid() && Abs() == PStep(F, L, old(Abs()), Op.Flush) && wires == []
    {
      if wires != [] { ShareBatch(); }
    }

    method Finalize()
      requires Valid()
      modifies this
      ensures Valid() && Abs() == PStep(F, L, old(Abs()), Op.Finalize)
    {
      Flush();
      if triples != [] { VerifyAuthTriple(); }
    }
  }

  // Wires, padded with zeros, minus the secrets at offset p.
  method DiffLoop<E(!new)>(F: Field<E>, L: Limits, ghost supply: nat -> seq<E>, wires: seq<E>, preAuth: seq<E>,
                           ghost spot: PreAuth, p: nat)
    returns (diff: seq<E>)
    requires |wires| <= L.k && spot.ptr < L.cap && |supply(spot.refills)| == L.k * L.cap
             && preAuth == supply(spot.refills)
    requires p == L.k * spot.ptr && p + L.k <= |preAuth|
    ensures SentAt(F, L, supply, wires, spot, diff)
  {
    ghost var want := Differences(F, L.k, wires, Secrets(L, supply, spot));
    diff := [];
    for i := 0 to L.k
      invariant diff == want[..i]
    {
      var w := if i < |wires| then wires[i] else F.zero;
      assert Secrets(L, supply, spot)[i] == preAuth[p + i] && PaddedWires(F, L.k, wires)[i] == w;
      diff := diff + [F.Sub(w, preAuth[p + i])];
    }
  }
}
