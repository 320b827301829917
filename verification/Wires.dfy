/** Wires, as each party sees them. A program creates slots: inputs and products, which travel in
    packed sharings of k, public constants and linear combinations. The prover holds values; a
    verifier holds a share of each slot once the sharings it depends on have arrived. */
module Wires {
  import opened Options
  import opened Algebra
  import opened Compression

  // One verifier's authenticated share of one value.
  datatype Cell<E> = Cell(mac: E, key: E, val: E)

  function AddCell<E(!new)>(F: Field<E>, x: Cell<E>, y: Cell<E>): Cell<E> {
    Cell(F.Add(x.mac, y.mac), F.Add(x.key, y.key), F.Add(x.val, y.val))
  }

  function ScaleCell<E(!new)>(F: Field<E>, a: E, x: Cell<E>): Cell<E> {
    Cell(F.Mul(a, x.mac), F.Mul(a, x.key), F.Mul(a, x.val))
  }

  // A public constant: verifier 0 holds it, everyone's key takes off its multiple of Delta_i.
  function PubCell<E(!new)>(F: Field<E>, party: nat, delta_i: E, c: E): Cell<E> {
    Cell(F.zero, F.Neg(F.Mul(c, delta_i)), if party == 0 then c else F.zero)
  }

  // ---- limits and preprocessed sharings ----

  datatype Limits = Limits(k: nat, m: nat, cap: nat, bufSz: nat) {
    ghost predicate Good() {
      1 <= k && 2 <= m && 1 <= bufSz && Batches(2 * m + 2) <= cap
    }

    // Packed sharings needed for len values.
    function Batches(len: nat): nat
      requires 1 <= k
    {
      (len + k - 1) / k
    }
  }

  // How many of the current refill's packed sharings are used up, and which refill it is.
  datatype PreAuth = PreAuth(ptr: nat, refills: nat)

  // A packed sharing of wires: the how many-th it is, and the preprocessed sharing it uses.
  datatype Spot = Spot(batch: nat, pre: PreAuth)

  datatype Sharing<E> = Sharing(at: Spot, wires: seq<E>)

  function Ensure(pa: PreAuth, num: nat, cap: nat): PreAuth {
    if pa.ptr + num > cap then PreAuth(0, pa.refills + 1) else pa
  }

  function Take(pa: PreAuth, num: nat, cap: nat): PreAuth {
    var e := Ensure(pa, num, cap);
    PreAuth(e.ptr + num, e.refills)
  }

  /** What is drawn lies inside the current refill, and asking twice before drawing, as the
      verifiers do, changes nothing. */
  lemma TakeInRange(pa: PreAuth, num: nat, cap: nat)
    requires num <= cap
    ensures Ensure(pa, num, cap).ptr + num <= cap && Take(pa, num, cap).ptr <= cap
    ensures Ensure(Ensure(pa, num, cap), num, cap) == Ensure(pa, num, cap)
  {
  }

  // The draws of one multiplication check that starts with len chunks.
  function CheckTakes(L: Limits, pa: PreAuth, len: nat): PreAuth
    requires 1 <= L.k && 2 <= L.m
    decreases len
  {
    if len > 1 then CheckTakes(L, Take(pa, L.Batches(2 * L.m - 2), L.cap), Chunks(L.m, len))
    else Take(pa, L.Batches(2 * L.m + 2), L.cap)
  }

  // ---- what a packed sharing carries ----

  // The k values of a batch: its wires, padded with zeros at a flush.
  function PaddedWires<E(!new)>(F: Field<E>, k: nat, wires: seq<E>): (r: seq<E>)
    requires |wires| <= k
    ensures |r| == k
  {
    wires + Zeros(F, k - |wires|)
  }

  // Differences of the wires to the preprocessed secrets.
  function Differences<E(!new)>(F: Field<E>, k: nat, wires: seq<E>, secrets: seq<E>): (r: seq<E>)
    requires |wires| <= k == |secrets|
    ensures |r| == k
  {
    seq(k, j requires 0 <= j < k => F.Sub(PaddedWires(F, k, wires)[j], secrets[j]))
  }

  // ---- programs ----

  // A product carries its value if the prover claims another one than the code computes.
  datatype Op<E> =
    | Feed(v: E)
    | Pub(c: E)
    | Lin(terms: seq<(E, nat)>, c: E)
    | Mult(a: nat, b: nat, claim: Option<E>)
    | Flush
    | Finalize

  // The operation refers to slots that exist.
  ghost predicate Fits<E>(op: Op<E>, n: nat) {
    match op
    case Lin(terms, c) => forall i :: 0 <= i < |terms| ==> terms[i].1 < n
    case Mult(a, b, _) => a < n && b < n
    case _ => true
  }

  predicate Shared<E>(op: Op<E>) { op.Feed? || op.Mult? }

  // Operations that create the slots 0, 1, ..., each referring to earlier ones.
  ghost predicate Program<E>(prog: seq<Op<E>>) {
    forall i :: 0 <= i < |prog| ==> !prog[i].Flush? && !prog[i].Finalize? && Fits(prog[i], i)
  }

  // ---- the prover ----

  // Counters every party keeps: preprocessed sharings, batches and checks so far.
  datatype Clock = Clock(pa: PreAuth, batches: nat, checks: nat)

  // sent lists the packed sharings sent so far, checked the triples of every check run.
  datatype Prover<E> = Prover(
    vals: seq<E>, pending: seq<E>, triples: seq<(E, E, E)>, clock: Clock, sent: seq<Sharing<E>>,
        checked: seq<seq<(E, E, E)>>)

  function Combine<E(!new)>(F: Field<E>, vals: seq<E>, terms: seq<(E, nat)>, c: E): E
    requires forall i :: 0 <= i < |terms| ==> terms[i].1 < |vals|
  {
    if terms == [] then c
    else
      var n := |terms| - 1;
      F.Add(Combine(F, vals, terms[..n], c), F.Mul(terms[n].0, vals[terms[n].1]))
  }

  function Claimed<E(!new)>(F: Field<E>, x: E, y: E, claim: Option<E>): E {
    if claim.Some? then claim.value else F.Mul(x, y)
  }

  function CheckClock(L: Limits, cl: Clock, triples: nat): Clock
    requires 1 <= L.k && 2 <= L.m
  {
    Clock(CheckTakes(L, cl.pa, Chunks(L.m, triples)), cl.batches, cl.checks + 1)
  }

  // Where the next packed sharing will be.
  function NextSpot(L: Limits, cl: Clock): Spot { Spot(cl.batches, Ensure(cl.pa, 1, L.cap)) }

  function BatchClock(L: Limits, cl: Clock): Clock {
    Clock(Take(cl.pa, 1, L.cap), cl.batches + 1, cl.checks)
  }

  function PCheck<E>(L: Limits, p: Prover<E>): Prover<E>
    requires 1 <= L.k && 2 <= L.m
  {
    p.(clock := CheckClock(L, p.clock, |p.triples|), triples := [], checked := p.checked + [p.triples])
  }

  function PBatch<E>(L: Limits, p: Prover<E>): Prover<E>
    requires 1 <= L.k && 2 <= L.m
  {
    var q := p.(clock := BatchClock(L, p.clock), sent := p.sent + [Sharing(NextSpot(L, p.clock), p.pending)],
               pending := []);
    if |q.triples| >= L.bufSz then PCheck(L, q) else q
  }

  function PShare<E>(L: Limits, p: Prover<E>, v: E): Prover<E>
    requires 1 <= L.k && 2 <= L.m
  {
    var q := p.(vals := p.vals + [v], pending := p.pending + [v]);
    if |q.pending| == L.k then PBatch(L, q) else q
  }

  function PFlush<E>(L: Limits, p: Prover<E>): Prover<E>
    requires 1 <= L.k && 2 <= L.m
  {
    if p.pending != [] then PBatch(L, p) else p
  }

  function PStep<E(!new)>(F: Field<E>, L: Limits, p: Prover<E>, op: Op<E>): Prover<E>
    requires 1 <= L.k && 2 <= L.m && Fits(op, |p.vals|)
  {
    match op
    case Feed(v) => PShare(L, p, v)
    case Pub(c) => p.(vals := p.vals + [c])
    case Lin(terms, c) => p.(vals := p.vals + [Combine(F, p.vals, terms, c)])
    case Mult(a, b, claim) =>
      var out := Claimed(F, p.vals[a], p.vals[b], claim);
      PShare(L, p.(triples := p.triples + [(p.vals[a], p.vals[b], out)]), out)
    case Flush => PFlush(L, p)
    case Finalize =>
      var q := PFlush(L, p);
      if q.triples != [] then PCheck(L, q) else q
  }

  // ---- a verifier, evaluated eagerly ----

  // cells[id] is the share of input or product id once its packed sharing has arrived.
  datatype Verifier<E> = Verifier(
    prog: seq<Op<E>>, cells: seq<Option<Cell<E>>>, pending: seq<nat>,
    triples: seq<(Cell<E>, Cell<E>, Cell<E>)>, clock: Clock, checked: seq<seq<(Cell<E>, Cell<E>, Cell<E>)>>)

  // Which verifier, its key, and its share of wire j of the packed sharing at a spot.
  datatype Party<!E> = Party(id: nat, delta: E, arrive: (Spot, nat) -> Cell<E>)

  // The share of slot id, if everything it depends on has arrived.
  function Meaning<E(!new)>(F: Field<E>, party: Party<E>, prog: seq<Op<E>>, cells: seq<Option<Cell<E>>>,
                            id: nat): Option<Cell<E>>
    requires Program(prog) && |cells| == |prog| && id < |prog|
    decreases id, 1, 0
  {
    match prog[id]
    case Pub(c) => Some(PubCell(F, party.id, party.delta, c))
    case Lin(terms, c) => MeaningOf(F, party, prog, cells, id, terms, c)
    case _ => cells[id]
  }

  function MeaningOf<E(!new)>(F: Field<E>, party: Party<E>, prog: seq<Op<E>>, cells: seq<Option<Cell<E>>>, n: nat,
                              terms: seq<(E, nat)>, c: E): Option<Cell<E>>
    requires Program(prog) && |cells| == |prog| && n <= |prog|
    requires forall i :: 0 <= i < |terms| ==> terms[i].1 < n
    decreases n, 0, |terms|
  {
    if terms == [] then Some(PubCell(F, party.id, party.delta, c))
    else
      var l := |terms| - 1;
      var acc := MeaningOf(F, party, prog, cells, n, terms[..l], c);
      var x := Meaning(F, party, prog, cells, terms[l].1);
      if acc.Some? && x.Some? then Some(AddCell(F, acc.value, ScaleCell(F, terms[l].0, x.value))) else None
  }

  function Get<E(!new)>(F: Field<E>, o: Option<Cell<E>>): Cell<E> {
    if o.Some? then o.value else Cell(F.zero, F.zero, F.zero)
  }

  // A packed sharing arrives: its wires are filled in program order.
  function Fill<E(!new)>(F: Field<E>, party: Party<E>, v: Verifier<E>, at: Spot, i: nat): Verifier<E>
    requires Program(v.prog) && |v.cells| == |v.prog| && i <= |v.pending|
             && forall j :: 0 <= j < |v.pending| ==> v.pending[j] < |v.prog|
    ensures Fill(F, party, v, at, i).prog == v.prog && |Fill(F, party, v, at, i).cells| == |v.cells|
    ensures Fill(F, party, v, at, i).pending == v.pending && Fill(F, party, v, at, i).clock == v.clock
             && Fill(F, party, v, at, i).checked == v.checked
    decreases i
  {
    if i == 0 then v
    else FillNext(F, party, Fill(F, party, v, at, i - 1), v.pending[i - 1], party.arrive(at, i - 1))
  }

  function FillNext<E(!new)>(F: Field<E>, party: Party<E>, v: Verifier<E>, id: nat, cell: Cell<E>): (w: Verifier<E>)
    requires Program(v.prog) && |v.cells| == |v.prog| && id < |v.prog|
    ensures w.prog == v.prog && |w.cells| == |v.cells| && w.pending == v.pending && w.clock == v.clock
             && w.checked == v.checked
  {
    var op := v.prog[id];
    v.(cells := v.cells[id := Some(cell)],
       triples := if !op.Mult? then v.triples
                  else v.triples + [(Get(F, Meaning(F, party, v.prog, v.cells, op.a)),
                                     Get(F, Meaning(F, party, v.prog, v.cells, op.b)), cell)])
  }

  function VCheck<E>(L: Limits, v: Verifier<E>): Verifier<E>
    requires 1 <= L.k && 2 <= L.m
  {
    v.(clock := CheckClock(L, v.clock, |v.triples|), triples := [], checked := v.checked + [v.triples])
  }

  ghost predicate Shaped<E>(v: Verifier<E>) {
    && Program(v.prog) && |v.cells| == |v.prog|
    && forall j :: 0 <= j < |v.pending| ==> v.pending[j] < |v.prog|
  }

  function VBatch<E(!new)>(F: Field<E>, L: Limits, party: Party<E>, v: Verifier<E>): (w: Verifier<E>)
    requires 1 <= L.k && 2 <= L.m && Shaped(v)
    ensures Shaped(w) && w.prog == v.prog
  {
    var w := Fill(F, party, v, NextSpot(L, v.clock), |v.pending|).(clock := BatchClock(L, v.clock), pending := []);
    if |w.triples| >= L.bufSz then VCheck(L, w) else w
  }

  function VShare<E(!new)>(F: Field<E>, L: Limits, party: Party<E>, v: Verifier<E>, op: Op<E>): (w: Verifier<E>)
    requires 1 <= L.k && 2 <= L.m && Shaped(v) && Shared(op) && Fits(op, |v.prog|)
    ensures Shaped(w) && w.prog == v.prog + [op]
  {
    var w := v.(prog := v.prog + [op], cells := v.cells + [None], pending := v.pending + [|v.prog|]);
    if |w.pending| == L.k then VBatch(F, L, party, w) else w
  }

  function VFlush<E(!new)>(F: Field<E>, L: Limits, party: Party<E>, v: Verifier<E>): (w: Verifier<E>)
    requires 1 <= L.k && 2 <= L.m && Shaped(v)
    ensures Shaped(w) && w.prog == v.prog
  {
    if v.pending != [] then VBatch(F, L, party, v) else v
  }

  function VStep<E(!new)>(F: Field<E>, L: Limits, party: Party<E>, v: Verifier<E>, op: Op<E>): (w: Verifier<E>)
    requires 1 <= L.k && 2 <= L.m && Shaped(v) && Fits(op, |v.prog|)
    ensures Shaped(w) && w.prog == if op.Flush? || op.Finalize? then v.prog else v.prog + [op]
  {
    match op
    case Flush => VFlush(F, L, party, v)
    case Finalize =>
      var w := VFlush(F, L, party, v);
      if w.triples != [] then VCheck(L, w) else w
    case Pub(c) => v.(prog := v.prog + [op], cells := v.cells + [None])
    case Lin(terms, c) => v.(prog := v.prog + [op], cells := v.cells + [None])
    case _ => VShare(F, L, party, v, op)
  }
}
