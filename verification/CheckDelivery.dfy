/** Delivery of a check's messages. In every round the prover broadcasts its values as differences to
    the preprocessed secrets of the round's draw, and each verifier adds them to its own buffers there;
    together with the delivery of the wires this takes a program from correlations to verdicts. */
module CheckDelivery {
  import opened Algebra
  import opened Interpolation
  import opened AuthShares
  import opened PackedAuth
  import opened Draws
  import opened RunDelivery
  import Compression
  import opened Lockstep
  import opened LockstepRuns
  import opened ProgramChecks
  import VerifierRun
  import MultCheck
  import Sound = CheckSoundness
  import Wires
  import ProverExec
  import Primes

  // ---- one message ----

  // Public values as differences to the preprocessed secrets from p on.
  method AddSharesDiff<E(!new)>(F: Field<E>, vals: seq<E>, preAuth: seq<E>, p: nat) returns (diff: seq<E>)
    requires p + |vals| <= |preAuth|
    ensures diff == DiffTo(F, vals, preAuth[p..p + |vals|])
  {
    diff := [];
    for i := 0 to |vals|
      invariant diff == DiffTo(F, vals, preAuth[p..p + |vals|])[..i]
    {
      diff := diff + [F.Sub(vals[i], preAuth[p + i])];
    }
  }

  ghost predicate Reaches<E>(buf: Lanes<E>, p: nat, len: nat) {
    p + len <= |buf.mac| && p + len <= |buf.key| && p + len <= |buf.val|
  }

  function LanesFrom<E>(buf: Lanes<E>, p: nat, len: nat): (r: Lanes<E>)
    requires Reaches(buf, p, len)
    ensures |r.mac| == |r.key| == |r.val| == len
  {
    Lanes(buf.mac[p..p + len], buf.key[p..p + len], buf.val[p..p + len])
  }

  // A verifier's shares of the values, from the differences and its buffers from p on.
  method AddSharesFromDiff<E(!new)>(F: Field<E>, id: nat, delta: E, diff: seq<E>, buf: Lanes<E>, p: nat)
    returns (sh: Lanes<E>)
    requires F.Laws() && Reaches(buf, p, |diff|)
    ensures sh == AddPublic(F, id, delta, diff, LanesFrom(buf, p, |diff|))
  {
    ghost var want := AddPublic(F, id, delta, diff, LanesFrom(buf, p, |diff|));
    var mac, key, val := [], [], [];
    for i := 0 to |diff|
      invariant mac == want.mac[..i] && key == want.key[..i] && val == want.val[..i]
    {
      MinusTimes(F, buf.key[p + i], diff[i], delta);
      val := val + [if id == 0 then F.Add(diff[i], buf.val[p + i]) else buf.val[p + i]];
      key := key + [F.Sub(buf.key[p + i], F.Mul(diff[i], delta))];
      mac := mac + [buf.mac[p + i]];
    }
    sh := Lanes(mac, key, val);
  }

  lemma MinusTimes<E(!new)>(F: Field<E>, k: E, d: E, delta: E)
    requires F.Laws()
    ensures F.Sub(k, F.Mul(d, delta)) == F.Add(k, F.Mul(F.Neg(delta), d))
  {
    var x, y := F.Mul(d, delta), F.Mul(F.Neg(delta), d);
    assert At2(d, delta) && At2(F.Neg(delta), d) && At3(d, delta, F.Neg(delta)) && At1(delta) && At1(x);
    Zero(F, d);
    assert F.Add(x, y) == F.zero;
    assert At2(x, y) && At2(x, F.Neg(x));
    Cancel(F, y, F.Neg(x), x);
  }

  // ---- entry by entry ----

  // All verifiers' shares of entry t.
  function EntryOf<E>(shs: seq<Lanes<E>>, t: nat): (r: seq<(E, E, E)>)
    requires forall i :: 0 <= i < |shs| ==> Reaches(shs[i], t, 1)
    ensures |r| == |shs|
  {
    seq(|shs|, i requires 0 <= i < |shs| => assert Reaches(shs[i], t, 1); (shs[i].mac[t], shs[i].key[t], shs[i].val[t]))
  }

  ghost predicate EntryAuth<E(!new)>(F: Field<E>, delta: E, v: E, cs: seq<(E, E, E)>) {
    && Sum(F, seq(|cs|, i requires 0 <= i < |cs| => cs[i].2)) == v
    && Sum(F, seq(|cs|, i requires 0 <= i < |cs| => cs[i].0))
         == F.Add(Sum(F, seq(|cs|, i requires 0 <= i < |cs| => cs[i].1)), F.Mul(delta, v))
  }

  lemma EntriesAuth<E(!new)>(F: Field<E>, delta: E, v: seq<E>, shs: seq<Lanes<E>>)
    requires Sized(|v|, shs)
    ensures Authentic(F, delta, v, shs) <==> forall t :: 0 <= t < |v| ==> EntryAuth(F, delta, v[t], EntryOf(shs, t))
  {
    var n := |v|;
    var vs, ms, ks := Total(F, n, ValRows(shs)), Total(F, n, MacRows(shs)), Total(F, n, KeyRows(shs));
    forall t | 0 <= t < n
      ensures EntryAuth(F, delta, v[t], EntryOf(shs, t))
         <==> vs[t] == v[t] && ms[t] == VAdd(F, ks, Scale(F, delta, v))[t]
    {
      var cs := EntryOf(shs, t);
      assert Column(ValRows(shs), t) == seq(|cs|, i requires 0 <= i < |cs| => cs[i].2);
      assert Column(MacRows(shs), t) == seq(|cs|, i requires 0 <= i < |cs| => cs[i].0);
      assert Column(KeyRows(shs), t) == seq(|cs|, i requires 0 <= i < |cs| => cs[i].1);
      TotalColumn(F, n, ValRows(shs), t);
      TotalColumn(F, n, MacRows(shs), t);
      TotalColumn(F, n, KeyRows(shs), t);
    }
    hide Total, EntryAuth;
    if forall t :: 0 <= t < n ==> EntryAuth(F, delta, v[t], EntryOf(shs, t)) {
      assert vs == v && ms == VAdd(F, ks, Scale(F, delta, v));
    }
  }

  // ---- the draw of a round ----

  // Where the draw starts in the buffers of its refill.
  function At(L: Wires.Limits, d: Draw): nat { L.k * d.from.ptr }

  function SecretsFor<E(!new)>(L: Wires.Limits, supply: nat -> seq<E>, d: Draw, len: nat): (r: seq<E>)
    requires At(L, d) + len <= |supply(d.from.refills)|
    ensures |r| == len
  {
    supply(d.from.refills)[At(L, d)..At(L, d) + len]
  }

  function BasesFor<E(!new)>(L: Wires.Limits, bufs: seq<nat -> Lanes<E>>, d: Draw, len: nat): (r: seq<Lanes<E>>)
    requires forall i :: 0 <= i < |bufs| ==> Reaches(bufs[i](d.from.refills), At(L, d), len)
    ensures |r| == |bufs| && Sized(len, r)
  {
    var r := seq(|bufs|, i requires 0 <= i < |bufs| => LanesFrom(bufs[i](d.from.refills), At(L, d), len));
    assert Sized(len, r) by {
      forall i | 0 <= i < |r| ensures |r[i].mac| == |r[i].key| == |r[i].val| == len {
        assert Reaches(bufs[i](d.from.refills), At(L, d), len);
      }
    }
    r
  }

  // The draw lies inside its refill and has room for the values.
  ghost predicate Covers(L: Wires.Limits, d: Draw, len: nat) { Inside(L, d) && len <= L.k * d.num }

  // Entry t of the draw is entry t % k of its preprocessed sharing t / k.
  function SharingOf(L: Wires.Limits, d: Draw, t: nat): Wires.PreAuth
    requires 1 <= L.k
  {
    Wires.PreAuth(d.from.ptr + t / L.k, d.from.refills)
  }

  lemma EntryIn(L: Wires.Limits, d: Draw, t: nat)
    requires 1 <= L.k && Inside(L, d) && t < L.k * d.num
    ensures var s := SharingOf(L, d, t);
            && 1 <= s.refills && s.ptr < L.cap && t % L.k < L.k
            && L.k * s.ptr + t % L.k == At(L, d) + t && At(L, d) + L.k * d.num <= L.k * L.cap
  {
    var i := t / L.k;
    Primes.DivFacts(t, L.k);
    if i >= d.num { Primes.AtLeast(L.k, i, d.num); }
    Primes.Distribute(L.k, d.from.ptr, i);
    Primes.Distribute(L.k, d.from.ptr, d.num);
    Primes.AtLeast(L.k, L.cap, d.from.ptr + d.num);
  }

  // The buffers reach as far as the draw.
  lemma DrawReaches<E(!new)>(F: Field<E>, L: Wires.Limits, ps: seq<Wires.Party<E>>, u: Setup<E>, d: Draw, len: nat)
    requires 1 <= L.k && SetUp(F, L, ps, u) && Covers(L, d, len)
    ensures At(L, d) + len <= |u.supply(d.from.refills)|
    ensures forall i :: 0 <= i < |u.bufs| ==> Reaches(u.bufs[i](d.from.refills), At(L, d), len)
  {
    var last := d.from.ptr + d.num - 1;
    Primes.Distribute(L.k, d.from.ptr, d.num);
    Primes.Distribute(L.k, d.from.ptr + d.num, 1);
    Primes.AtLeast(L.k, L.cap, d.from.ptr + d.num);
    hide RandShare, SharesKey, Distinct, Correlated, RunDelivery.BufferOf, Column;
    forall i | 0 <= i < |u.bufs| ensures Reaches(u.bufs[i](d.from.refills), At(L, d), len) {
      assert RunDelivery.LanesOf(F, L, u.from, u.to, u.cs, i, ps[i].delta, u.bufs[i], d.from.refills, last);
    }
  }

  lemma DrawEntry<E(!new)>(F: Field<E>, L: Wires.Limits, ps: seq<Wires.Party<E>>, u: Setup<E>, d: Draw, len: nat,
                           t: nat)
    requires F.Laws() && 1 <= L.k && SetUp(F, L, ps, u) && Covers(L, d, len) && t < len
    requires At(L, d) + len <= |u.supply(d.from.refills)|
    requires forall i :: 0 <= i < |u.bufs| ==> Reaches(u.bufs[i](d.from.refills), At(L, d), len)
    ensures EntryAuth(F, Sum(F, Deltas(ps)), SecretsFor(L, u.supply, d, len)[t],
                      EntryOf(BasesFor(L, u.bufs, d, len), t))
  {
    var s, j := SharingOf(L, d, t), t % L.k;
    EntryIn(L, d, t);
    BasesAuthentic(F, L, ps, u, s);
    assert |u.bufs| == |ps|;
    var secrets, base := ProverExec.Secrets(L, u.supply, s), Bases(F, L, ps, u, s);
    hide SetUp, Covers, EntryAuth;
    assert Sized(L.k, base);
    EntriesAuth(F, Sum(F, Deltas(ps)), secrets, base);
    hide *;
    SameEntry(F, L, ps, u, d, len, t);
  }

  // The same entries in the buffers.
  lemma SameEntry<E(!new)>(F: Field<E>, L: Wires.Limits, ps: seq<Wires.Party<E>>, u: Setup<E>, d: Draw, len: nat,
                           t: nat)
    requires 1 <= L.k && |u.bufs| == |ps| && Inside(L, d) && t < len <= L.k * d.num
    requires At(L, d) + len <= |u.supply(d.from.refills)| == L.k * L.cap
    requires forall i :: 0 <= i < |u.bufs| ==> Reaches(u.bufs[i](d.from.refills), At(L, d), len)
    requires forall i :: 0 <= i < |ps| ==> LanesFit(u.bufs[i](d.from.refills), L.k, SharingOf(L, d, t).ptr)
    ensures var s, j := SharingOf(L, d, t), t % L.k;
            && s.ptr < L.cap && j < L.k
            && SecretsFor(L, u.supply, d, len)[t] == ProverExec.Secrets(L, u.supply, s)[j]
            && EntryOf(BasesFor(L, u.bufs, d, len), t) == EntryOf(Bases(F, L, ps, u, s), j)
  {
    EntryIn(L, d, t);
    SameSecret(L, u.supply, d, len, t);
    forall i | 0 <= i < |ps|
      ensures EntryOf(BasesFor(L, u.bufs, d, len), t)[i] == EntryOf(Bases(F, L, ps, u, SharingOf(L, d, t)), t % L.k)[i]
    {
      assert LanesFit(u.bufs[i](d.from.refills), L.k, SharingOf(L, d, t).ptr);
      assert Reaches(u.bufs[i](d.from.refills), At(L, d), len);
      hide At, SharingOf, Inside, LanesPart, LanesFrom;
      SameLanes(u.bufs[i](d.from.refills), L.k, SharingOf(L, d, t).ptr, t % L.k, At(L, d), len, t);
    }
  }

  lemma SameSecret<E(!new)>(L: Wires.Limits, supply: nat -> seq<E>, d: Draw, len: nat, t: nat)
    requires 1 <= L.k && Inside(L, d) && t < len <= L.k * d.num
    requires At(L, d) + len <= |supply(d.from.refills)| == L.k * L.cap
    ensures var s, j := SharingOf(L, d, t), t % L.k;
            s.ptr < L.cap && j < L.k && SecretsFor(L, supply, d, len)[t] == ProverExec.Secrets(L, supply, s)[j]
  {
    EntryIn(L, d, t);
    var s, j, buf := SharingOf(L, d, t), t % L.k, supply(d.from.refills);
    ProverExec.SpotInRange(L, s.ptr);
    assert SecretsFor(L, supply, d, len)[t] == buf[At(L, d) + t];
    assert ProverExec.Secrets(L, supply, s)[j] == buf[L.k * s.ptr + j];
  }

  lemma SameLanes<E>(buf: Lanes<E>, k: nat, ptr: nat, j: nat, p: nat, len: nat, t: nat)
    requires j < k && t < len && LanesFit(buf, k, ptr) && Reaches(buf, p, len) && k * ptr + j == p + t
    ensures var a, b := LanesPart(buf, k, ptr), LanesFrom(buf, p, len);
            a.mac[j] == b.mac[t] && a.key[j] == b.key[t] && a.val[j] == b.val[t]
  {
  }

  /** Across the preprocessed sharings of a draw, the verifiers' buffers are authentic shares of the
      prover's secrets, entry by entry. */
  lemma DrawAuthentic<E(!new)>(F: Field<E>, L: Wires.Limits, ps: seq<Wires.Party<E>>, u: Setup<E>, d: Draw, len: nat)
    requires F.Laws() && 1 <= L.k && SetUp(F, L, ps, u) && Covers(L, d, len)
    ensures At(L, d) + len <= |u.supply(d.from.refills)|
    ensures forall i :: 0 <= i < |u.bufs| ==> Reaches(u.bufs[i](d.from.refills), At(L, d), len)
    ensures Authentic(F, Sum(F, Deltas(ps)), SecretsFor(L, u.supply, d, len), BasesFor(L, u.bufs, d, len))
  {
    DrawReaches(F, L, ps, u, d, len);
    hide SetUp, Covers, EntryAuth, Authentic;
    forall t | 0 <= t < len
      ensures EntryAuth(F, Sum(F, Deltas(ps)), SecretsFor(L, u.supply, d, len)[t],
                        EntryOf(BasesFor(L, u.bufs, d, len), t))
    {
      DrawEntry(F, L, ps, u, d, len, t);
    }
    EntriesAuth(F, Sum(F, Deltas(ps)), SecretsFor(L, u.supply, d, len), BasesFor(L, u.bufs, d, len));
  }

  // ---- a check ----

  // Round k's differences are to the secrets of draw k, and each verifier adds them to its buffers there.
  ghost predicate Broadcasts<E(!new)>(F: Field<E>, L: Wires.Limits, ps: seq<Wires.Party<E>>, u: Setup<E>, d: Draw,
                                      msg: seq<E>, rec: seq<Lanes<E>>) {
    && Covers(L, d, |msg|) && |rec| == |ps| == |u.bufs| && At(L, d) + |msg| <= |u.supply(d.from.refills)|
    && (forall i :: 0 <= i < |u.bufs| ==> Reaches(u.bufs[i](d.from.refills), At(L, d), |msg|))
    && var diff := DiffTo(F, msg, SecretsFor(L, u.supply, d, |msg|));
       forall i :: 0 <= i < |ps| ==>
         rec[i] == AddPublic(F, i, ps[i].delta, diff, LanesFrom(u.bufs[i](d.from.refills), At(L, d), |msg|))
  }

  lemma MessageArrives<E(!new)>(F: Field<E>, L: Wires.Limits, ps: seq<Wires.Party<E>>, u: Setup<E>, d: Draw,
                                msg: seq<E>, rec: seq<Lanes<E>>)
    requires F.Laws() && 1 <= L.k && |ps| >= 1 && SetUp(F, L, ps, u) && Broadcasts(F, L, ps, u, d, msg, rec)
    ensures Authentic(F, Sum(F, Deltas(ps)), msg, rec)
  {
    DrawAuthentic(F, L, ps, u, d, |msg|);
    var secrets, base := SecretsFor(L, u.supply, d, |msg|), BasesFor(L, u.bufs, d, |msg|);
    var diff := DiffTo(F, msg, secrets);
    hide SetUp, Authentic, SecretsFor;
    AuthPublic(F, Deltas(ps), secrets, diff, base);
    forall t | 0 <= t < |msg| ensures VAdd(F, diff, secrets)[t] == msg[t] { SubLaws(F, msg[t], secrets[t]); }
    assert VAdd(F, diff, secrets) == msg;
    assert rec == AddPublicAll(F, Deltas(ps), diff, base, 0);
  }

  // Every message of the check, at its own draw.
  ghost predicate AllBroadcast<E(!new)>(F: Field<E>, L: Wires.Limits, ps: seq<Wires.Party<E>>, u: Setup<E>,
                                        ds: seq<Draw>, msgs: seq<seq<E>>, recs: seq<seq<Lanes<E>>>) {
    && |msgs| <= |ds| <= |recs| && (forall k :: 0 <= k < |recs| ==> |recs[k]| == |ps|)
    && forall k :: 0 <= k < |msgs| ==> Broadcasts(F, L, ps, u, ds[k], msgs[k], recs[k])
  }

  /** So all messages of a check arrive as authentic shares, whatever they are. */
  lemma CheckArrives<E(!new)>(F: Field<E>, L: Wires.Limits, ps: seq<Wires.Party<E>>, u: Setup<E>, ds: seq<Draw>,
                              msgs: seq<seq<E>>, recs: seq<seq<Lanes<E>>>)
    requires F.Laws() && 1 <= L.k && |ps| >= 1 && SetUp(F, L, ps, u) && AllBroadcast(F, L, ps, u, ds, msgs, recs)
    ensures VerifierRun.Delivered(F, Sum(F, Deltas(ps)), |ps|, msgs, recs)
  {
    hide SetUp, Broadcasts, Authentic;
    forall k | 0 <= k < |msgs| ensures Authentic(F, Sum(F, Deltas(ps)), msgs[k], recs[k]) {
      MessageArrives(F, L, ps, u, ds[k], msgs[k], recs[k]);
    }
  }

  // A legal program run on these correlations, with each party's own buffers and pointers.
  ghost predicate RunOn<E(!new)>(F: Field<E>, L: Wires.Limits, P: Compression.Params<E>, ps: seq<Wires.Party<E>>,
                                 u: Setup<E>, ops: seq<Wires.Op<E>>, outbox: seq<seq<E>>, inboxes: seq<nat -> E>) {
    && F.Laws() && L.Good() && P.Good() && P.m == L.m && Parties(ps) && Legal(ops) && SetUp(F, L, ps, u)
    && Mailed(F, L, u.supply, PRun(F, L, ops).sent, outbox) && Received(F, L, ps, u, outbox, inboxes)
  }

  lemma RunIsCheckOf<E(!new)>(F: Field<E>, L: Wires.Limits, P: Compression.Params<E>, ps: seq<Wires.Party<E>>,
                              u: Setup<E>, ops: seq<Wires.Op<E>>, outbox: seq<seq<E>>, inboxes: seq<nat -> E>, c: nat)
    requires RunOn(F, L, P, ps, u, ops, outbox, inboxes) && c < |PRun(F, L, ops).checked|
    ensures CheckOf(F, L, P, ps, ops, c) && |ps| >= 1 && 1 <= L.k
  {
    RunArrives(F, L, ps, u, ops, outbox, inboxes);
    hide SetUp, Mailed, Received, PRun, AllArrive, Legal;
  }

  /** From correlations to verdicts: a program without false claims, run on any correlations with every
      party's own buffers and pointers, has all its checks accepted, the messages of a check being
      broadcast at its draws, wherever these start. */
  lemma RunAccepted<E(!new)>(F: Field<E>, L: Wires.Limits, P: Compression.Params<E>, ps: seq<Wires.Party<E>>,
                             u: Setup<E>, ops: seq<Wires.Op<E>>, outbox: seq<seq<E>>, inboxes: seq<nat -> E>, c: nat,
                             chi: seq<E>, recs: seq<seq<Lanes<E>>>, rs: seq<E>, mask: (E, E), pa: Wires.PreAuth)
    requires RunOn(F, L, P, ps, u, ops, outbox, inboxes) && c < |PRun(F, L, ops).checked| && NoFalseClaim(F, L, ops)
    requires |chi| == |PRun(F, L, ops).checked[c]| >= 1
    requires var st := StateAt(F, P, PRun(F, L, ops).checked[c], chi);
             && Compression.Rounds(P.m, st.len) <= |rs|
             && AllBroadcast(F, L, ps, u, CheckDraws(L, pa, st.len), Compression.ProverRun(F, P, st, rs, mask).sent,
                             recs)
    requires forall i :: 0 <= i < |rs| ==> rs[i] !in P.pts && rs[i] !in P.lastPts
    ensures var st := StateAt(F, P, PRun(F, L, ops).checked[c], chi);
            && |recs| >= Compression.Rounds(P.m, st.len)
            && (forall k :: 0 <= k < |recs| ==> |recs[k]| == |ps|)
            && (forall i :: 0 <= i < |ps| ==> c < |VRunAll(F, L, ps, ops)[i].checked|)
            && MultCheck.Accepted(F, Deltas(ps),
                                  VerifierRun.Finals(F, P,
                                                     MultCheck.InitShares(F, P.m, BuffersAt(F, L, ps, ops, c), chi),
                                                     st.len, recs, rs))
  {
    RunIsCheckOf(F, L, P, ps, u, ops, outbox, inboxes, c);
    var st := StateAt(F, P, PRun(F, L, ops).checked[c], chi);
    DrawCount(L, pa, st.len);
    hide RunOn, SetUp, Broadcasts, PRun, VRunAll, NoFalseClaim, MultCheck.Accepted, BuffersAt, StateAt;
    CheckArrives(F, L, ps, u, CheckDraws(L, pa, st.len), Compression.ProverRun(F, P, st, rs, mask).sent, recs);
    EveryCheckAccepts(F, L, P, ps, ops, c, chi, recs, rs, mask);
  }

  lemma {:induction false} DrawCount(L: Wires.Limits, pa: Wires.PreAuth, len: nat)
    requires 1 <= L.k && 2 <= L.m && 1 <= len
    ensures |CheckDraws(L, pa, len)| == Compression.Rounds(L.m, len)
    decreases len
  {
    if len > 1 {
      DrawCount(L, Wires.Take(pa, L.Batches(ValuesShared(L, len)), L.cap), Compression.Chunks(L.m, len));
    }
  }

  /** Against any strategy: of such a run, a check accepts exactly where the strategy passes. */
  lemma RunVerdict<E(!new)>(F: Field<E>, L: Wires.Limits, P: Compression.Params<E>, ps: seq<Wires.Party<E>>,
                            u: Setup<E>, ops: seq<Wires.Op<E>>, outbox: seq<seq<E>>, inboxes: seq<nat -> E>, c: nat,
                            chi: seq<E>, S: Sound.Strategy<E>, recs: seq<seq<Lanes<E>>>, rs: seq<E>,
                            pa: Wires.PreAuth)
    requires RunOn(F, L, P, ps, u, ops, outbox, inboxes) && c < |PRun(F, L, ops).checked|
    requires |chi| == |PRun(F, L, ops).checked[c]| >= 1
    requires var st := StateAt(F, P, PRun(F, L, ops).checked[c], chi);
             && Compression.Rounds(P.m, st.len) <= |rs|
             && AllBroadcast(F, L, ps, u, CheckDraws(L, pa, st.len), Sound.MessagesOf(F, P, st.len, S, rs), recs)
    ensures var st := StateAt(F, P, PRun(F, L, ops).checked[c], chi);
            && |recs| >= Compression.Rounds(P.m, st.len)
            && (forall k :: 0 <= k < |recs| ==> |recs[k]| == |ps|)
            && (forall i :: 0 <= i < |ps| ==> c < |VRunAll(F, L, ps, ops)[i].checked|)
            && (MultCheck.Accepted(F, Deltas(ps),
                                   VerifierRun.Finals(F, P,
                                                      MultCheck.InitShares(F, P.m, BuffersAt(F, L, ps, ops, c), chi),
                                                      st.len, recs, rs))
                <==> Sound.Passes(F, P, st, S, rs))
  {
    RunIsCheckOf(F, L, P, ps, u, ops, outbox, inboxes, c);
    var st := StateAt(F, P, PRun(F, L, ops).checked[c], chi);
    DrawCount(L, pa, st.len);
    hide RunOn, SetUp, Broadcasts, PRun, VRunAll, MultCheck.Accepted, BuffersAt, StateAt, Sound.Passes,
        Sound.MessagesOf;
    CheckArrives(F, L, ps, u, CheckDraws(L, pa, st.len), Sound.MessagesOf(F, P, st.len, S, rs), recs);
    StrategyVerdict(F, L, P, ps, ops, c, chi, S, recs, rs);
  }
}
