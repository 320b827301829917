/** A verifier's wire object: pending wires, recorded triples and the preprocessed-sharing pointer
    are updated in place, and every operation is the eager one on the abstract state. */
module VerifierExec {
  import opened Options
  import opened Algebra
  import opened Compression
  import opened Wires
  import opened LazyExec
  import Primes

  class Exec<E(!new)> {
    const F: Field<E>
    const L: Limits
    const party: Party<E>
    var slots: seq<Slot<E>>
    var wires: seq<Wire>
    var triples: seq<(Cell<E>, Cell<E>, Cell<E>)>
    var preAuthPtr: nat
    var refills: nat
    var batches: nat
    var checks: nat
    ghost var prog: seq<Op<E>>
    ghost var cells: seq<Option<Cell<E>>>
    ghost var checked: seq<seq<(Cell<E>, Cell<E>, Cell<E>)>>

    // The eager state this one stands for.
    ghost function Abs(): Verifier<E> reads this {
      Verifier(prog, cells, Ids(wires), triples, Clock(PreAuth(preAuthPtr, refills), batches, checks), checked)
    }

    ghost predicate Valid() reads this {
      && L.Good() && SlotsOk(F, party, prog, cells, slots) && WiresOk(prog, cells, wires)
      && |wires| < L.k && |triples| < L.bufSz && preAuthPtr <= L.cap && Shaped(Abs())
    }

    constructor (F: Field<E>, L: Limits, party: Party<E>)
      requires L.Good()
      ensures Valid() && this.F == F && this.L == L && this.party == party
      ensures Abs() == Verifier([], [], [], [], Clock(PreAuth(L.cap, 0), 0, 0), [])
    {
      this.F, this.L, this.party := F, L, party;
      slots, wires, triples, preAuthPtr, refills, batches, checks := [], [], [], L.cap, 0, 0, 0;
      prog, cells, checked := [], [], [];
    }

    // ---- preprocessed sharings ----

    method EnsurePreAuth(num: nat)
      modifies `preAuthPtr, `refills
      ensures PreAuth(preAuthPtr, refills) == Ensure(PreAuth(old(preAuthPtr), old(refills)), num, L.cap)
    {
      if preAuthPtr + num > L.cap {
        refills := refills + 1;
        preAuthPtr := 0;
      }
    }

    // Draws `num` packed sharings for one message of a check: refill first, read, and advance.
    method TakePreAuth(num: nat)
      requires num <= L.cap
      modifies `preAuthPtr, `refills
      ensures PreAuth(preAuthPtr, refills) == Take(PreAuth(old(preAuthPtr), old(refills)), num, L.cap)
               && preAuthPtr <= L.cap
    {
      EnsurePreAuth(num);
      EnsurePreAuth(num);
      preAuthPtr := preAuthPtr + num;
    }

    // The rounds of a check: every fold draws 2m - 2 values' worth, the last round 2m + 2.
    method CheckDraws(len0: nat)
      requires L.Good()
      modifies `preAuthPtr, `refills
      ensures PreAuth(preAuthPtr, refills) == CheckTakes(L, PreAuth(old(preAuthPtr), old(refills)), len0)
               && preAuthPtr <= L.cap
    {
      var len := len0;
      BatchesMonotone(L);
      while len > 1
        invariant 0 <= len
        invariant CheckTakes(L, PreAuth(preAuthPtr, refills), len) == CheckTakes(L,
            PreAuth(old(preAuthPtr), old(refills)), len0)
        decreases len
      {
        TakePreAuth(L.Batches(2 * L.m - 2));
        len := Chunks(L.m, len);
      }
      TakePreAuth(L.Batches(2 * L.m + 2));
    }

    // A check, which then starts over with an empty buffer.
    method VerifyAuthTriple()
      requires L.Good() && triples != []
      modifies `preAuthPtr, `refills, `triples, `checks, `checked
      ensures Abs() == VCheck(L, old(Abs())) && triples == [] && preAuthPtr <= L.cap
    {
      checks := checks + 1;
      CheckDraws(Chunks(L.m, |triples|));
      checked := checked + [triples];
      triples := [];
    }

    // ---- packed sharings ----

    /** A packed sharing arrives: its wires are filled in program order, triples recorded, and a
        check run once enough are buffered. */
    method ShareBatch() returns (error: bool)
      requires L.Good() && SlotsOk(F, party, prog, cells, slots) && WiresOk(prog, cells, wires) && Shaped(Abs())
      requires 1 <= |wires| <= L.k && |triples| < L.bufSz && preAuthPtr <= L.cap
      modifies this
      ensures Valid() && !error && Abs() == VBatch(F, L, party, old(Abs())) && |slots| == old(|slots|)
    {
      hide SlotsOk, Fill, VCheck, VBatch, WiresOk;
      ghost var v0 := Abs();
      CapAtLeastOne(L);
      EnsurePreAuth(1);
      var at := Spot(batches, PreAuth(preAuthPtr, refills));
      preAuthPtr := preAuthPtr + 1;
      slots, triples, cells, error := FillLoop(F, party, v0, slots, wires, triples, at);
      BatchUnfolds(F, L, party, v0, at, cells, triples, |wires|);
      batches := batches + 1;
      wires := [];
      if |triples| >= L.bufSz { VerifyAuthTriple(); }
    }

    // ---- operations ----

    // A new pending slot; the batch is shared at the k-th.
    method Share(wire: Wire, ghost op: Op<E>) returns (error: bool)
      requires Valid() && Shared(op) && Wires.Fits(op, |slots|) && wire == WireOf(prog + [op], |slots|)
      modifies this
      ensures Valid() && !error && |slots| == old(|slots|) + 1 && Abs() == VShare(F, L, party, old(Abs()), op)
    {
      CreatedOk(F, party, prog, cells, slots, op, Slot(false, PubCell(F, party.id, party.delta, F.zero), [], F.zero));
      PendingOk(prog, cells, wires, op, wire);
      hide SlotsOk, WiresOk, Fill, VBatch, Program, Wires.Fits;
      error := false;
      slots := slots + [Slot(false, PubCell(F, party.id, party.delta, F.zero), [], F.zero)];
      prog, cells := prog + [op], cells + [None];
      wires := wires + [wire];
      ShapedStill(prog, cells, wires, Abs());
      if |wires| == L.k { error := ShareBatch(); }
    }

    method Feed(ghost v: E) returns (id: nat, error: bool)
      requires Valid()
      modifies this
      ensures Valid() && !error && id == old(|slots|) && Abs() == VStep(F, L, party, old(Abs()), Op.Feed(v))
    {
      id := |slots|;
      hide SlotsOk, WiresOk, VShare;
      error := Share(Input(id), Op.Feed(v));
    }

    method Mult(a: nat, b: nat, ghost claim: Option<E>) returns (id: nat, error: bool)
      requires Valid() && a < |slots| && b < |slots|
      modifies this
      ensures Valid() && !error && id == old(|slots|) && Abs() == VStep(F, L, party, old(Abs()), Op.Mult(a, b, claim))
    {
      id := |slots|;
      hide SlotsOk, WiresOk, VShare;
      error := Share(Product(id, a, b), Op.Mult(a, b, claim));
    }

    // A slot that needs no sharing of its own.
    method Local(slot: Slot<E>, ghost op: Op<E>) returns (id: nat)
      requires Valid() && !Shared(op) && !op.Flush? && !op.Finalize? && Wires.Fits(op, |slots|) && Program(prog + [op])
      requires SlotOk(F, party, prog + [op], cells + [None], slot, |slots|)
      modifies `slots, `prog, `cells
      ensures Valid() && id == old(|slots|) && |slots| == old(|slots|) + 1
      ensures Abs() == old(Abs()).(prog := old(prog) + [op], cells := old(cells) + [None])
    {
      LocalOk(F, party, prog, cells, slots, wires, op, slot);
      hide SlotsOk, WiresOk, SlotOk, Program, Wires.Fits;
      id := |slots|;
      slots := slots + [slot];
      prog, cells := prog + [op], cells + [None];
      ShapedStill(prog, cells, wires, Abs());
    }

    method PubConst(c: E) returns (id: nat)
      requires Valid()
      modifies this
      ensures Valid() && id == old(|slots|) && Abs() == VStep(F, L, party, old(Abs()), Op.Pub(c))
    {
      id := Local(Slot(true, PubCell(F, party.id, party.delta, c), [], F.zero), Op.Pub(c));
    }

    /** A linear combination: evaluated at once if all its terms are filled, kept symbolically if
        not. */
    method Linear(terms: seq<(E, nat)>, c: E) returns (id: nat)
      requires Valid() && forall i :: 0 <= i < |terms| ==> terms[i].1 < |slots|
      modifies this
      ensures Valid() && id == old(|slots|) && Abs() == VStep(F, L, party, old(Abs()), Op.Lin(terms, c))
    {
      ghost var op := Op.Lin(terms, c);
      var child := FirstUnready(slots, terms);
      assert Program(prog + [op]);
      if child.None? {
        var sh := EvalLinear(F, party, prog, cells, slots, |slots|, terms, c);
        MeaningOfExt(F, party, prog, cells, op, |slots|, terms, c);
        id := Local(Slot(true, sh, [], F.zero), op);
      } else {
        id := Local(Slot(false, PubCell(F, party.id, party.delta, c), terms, c), op);
      }
    }

    method Flush() returns (error: bool)
      requires Valid()
      modifies this
      ensures Valid() && !error && |slots| == old(|slots|) && Abs() == VStep(F, L, party, old(Abs()), Op.Flush)
    {
      error := false;
      hide SlotsOk, WiresOk, VBatch, Program;
      if wires != [] { error := ShareBatch(); }
    }

    method Finalize() returns (error: bool)
      requires Valid()
      modifies this
      ensures Valid() && !error && |slots| == old(|slots|) && Abs() == VStep(F, L, party, old(Abs()), Op.Finalize)
    {
      error := Flush();
      hide SlotsOk, WiresOk, VFlush, VCheck, Program;
      if triples != [] { VerifyAuthTriple(); }
    }

    /** The share of a slot for an opening, after a flush: every slot can be resolved. */
    method Open(id: nat) returns (sh: Cell<E>, error: bool)
      requires Valid() && id < |slots| && wires == []
      modifies `slots
      ensures Valid() && !error && Abs() == old(Abs()) && |slots| == old(|slots|)
      ensures id < |prog| && Meaning(F, party, prog, cells, id) == Some(sh)
    {
      assert forall x :: 0 <= x < |prog| && Shared(prog[x]) ==> cells[x].Some?;
      EarlierFormed(F, party, prog, cells, |prog|, id);
      slots, error := Materialize(F, party, prog, cells, slots, id);
      assert SlotOk(F, party, prog, cells, slots[id], id);
      sh := slots[id].sh;
    }
  }

  // A slot created pending keeps every other slot's relation to the program.
  lemma CreatedOk<E(!new)>(F: Field<E>, party: Party<E>, prog: seq<Op<E>>, cells: seq<Option<Cell<E>>>,
                           slots: seq<Slot<E>>, op: Op<E>, slot: Slot<E>)
    requires SlotsOk(F, party, prog, cells, slots) && Shared(op) && Wires.Fits(op, |prog|) && !slot.ready
             && slot.lin == []
    ensures SlotsOk(F, party, prog + [op], cells + [None], slots + [slot])
  {
    assert Program(prog + [op]);
    assert SlotOk(F, party, prog + [op], cells + [None], slot, |prog|);
    SlotsExtended(F, party, prog, cells, slots, op, slot);
  }

  lemma SlotsExtended<E(!new)>(F: Field<E>, party: Party<E>, prog: seq<Op<E>>, cells: seq<Option<Cell<E>>>,
                               slots: seq<Slot<E>>, op: Op<E>, slot: Slot<E>)
    requires SlotsOk(F, party, prog, cells, slots) && Program(prog + [op])
    requires SlotOk(F, party, prog + [op], cells + [None], slot, |prog|)
    ensures SlotsOk(F, party, prog + [op], cells + [None], slots + [slot])
  {
    var now := slots + [slot];
    forall id | 0 <= id < |now| ensures SlotOk(F, party, prog + [op], cells + [None], now[id], id) {
      if id < |slots| {
        assert SlotOk(F, party, prog, cells, slots[id], id);
        MeaningExt(F, party, prog, cells, op, id);
      }
    }
  }

  lemma PendingOk<E(!new)>(prog: seq<Op<E>>, cells: seq<Option<Cell<E>>>, wires: seq<Wire>, op: Op<E>, wire: Wire)
    requires WiresOk(prog, cells, wires) && Shared(op) && wire == WireOf(prog + [op], |prog|)
    ensures WiresOk(prog + [op], cells + [None], wires + [wire]) && Ids(wires + [wire]) == Ids(wires) + [|prog|]
  {
    var prog', cells', wires' := prog + [op], cells + [None], wires + [wire];
    assert Ids(wires') == Ids(wires) + [|prog|];
    forall id | 0 <= id < |prog'| && Shared(prog'[id]) ensures cells'[id] == None <==> id in Ids(wires') {
      if id == |prog| { assert Ids(wires')[|wires|] == id; } else { assert prog'[id] == prog[id]; }
    }
  }

  lemma LocalOk<E(!new)>(F: Field<E>, party: Party<E>, prog: seq<Op<E>>, cells: seq<Option<Cell<E>>>,
                         slots: seq<Slot<E>>, wires: seq<Wire>, op: Op<E>, slot: Slot<E>)
    requires SlotsOk(F, party, prog, cells, slots) && WiresOk(prog, cells, wires) && Program(prog + [op]) && !Shared(op)
    requires SlotOk(F, party, prog + [op], cells + [None], slot, |prog|)
    ensures SlotsOk(F, party, prog + [op], cells + [None], slots + [slot])
             && WiresOk(prog + [op], cells + [None], wires)
  {
    SlotsExtended(F, party, prog, cells, slots, op, slot);
  }

  lemma ShapedStill<E(!new)>(prog: seq<Op<E>>, cells: seq<Option<Cell<E>>>, wires: seq<Wire>, v: Verifier<E>)
    requires Program(prog) && WiresOk(prog, cells, wires) && v.prog == prog && v.cells == cells
             && v.pending == Ids(wires)
    ensures Shaped(v)
  {
  }

  lemma BatchUnfolds<E(!new)>(F: Field<E>, L: Limits, party: Party<E>, v0: Verifier<E>, at: Spot,
                              cells: seq<Option<Cell<E>>>,
                              triples: seq<(Cell<E>, Cell<E>, Cell<E>)>, n: nat)
    requires 1 <= L.k && 2 <= L.m && Shaped(v0) && n == |v0.pending| && at == NextSpot(L, v0.clock)
    requires cells == Fill(F, party, v0, at, n).cells && triples == Fill(F, party, v0, at, n).triples
    ensures |cells| == |v0.prog|
    ensures var w := Verifier(v0.prog, cells, [], triples, BatchClock(L, v0.clock), v0.checked);
            VBatch(F, L, party, v0) == if |triples| >= L.bufSz then VCheck(L, w) else w
  {
    hide Fill, VCheck;
  }

  // Fills the pending wires one after another.
  method FillLoop<E(!new)>(F: Field<E>, party: Party<E>, ghost v0: Verifier<E>, slots0: seq<Slot<E>>, wires: seq<Wire>,
                           triples0: seq<(Cell<E>, Cell<E>, Cell<E>)>, at: Spot)
    returns (slots: seq<Slot<E>>, triples: seq<(Cell<E>, Cell<E>, Cell<E>)>, ghost cells: seq<Option<Cell<E>>>,
             error: bool)
    requires Shaped(v0) && SlotsOk(F, party, v0.prog, v0.cells, slots0) && WiresOk(v0.prog, v0.cells, wires)
    requires v0.pending == Ids(wires) && v0.triples == triples0
    ensures !error && SlotsOk(F, party, v0.prog, cells, slots) && |slots| == |slots0|
             && |triples| <= |triples0| + |wires|
    ensures cells == Fill(F, party, v0, at, |wires|).cells && triples == Fill(F, party, v0, at, |wires|).triples
    ensures WiresOk(v0.prog, cells, [])
  {
    hide *;
    slots, triples, cells, error := slots0, triples0, v0.cells, false;
    ShapedParts(v0);
    FillStarts(F, party, v0, at, wires);
    var i := 0;
    while i < |wires|
      invariant 0 <= i <= |wires| && !error && |slots| == |slots0|
      invariant SlotsOk(F, party, v0.prog, cells, slots) && PartlyFilled(v0.prog, cells, wires, i)
      invariant i <= |v0.pending| && cells == Fill(F, party, v0, at, i).cells
      invariant triples == Fill(F, party, v0, at, i).triples
      invariant |triples| <= |triples0| + i
    {
      slots, triples, cells, error := FillWire(F, party, v0, slots, wires, triples, cells, at, i);
      i := i + 1;
    }
    AllFilled(v0.prog, cells, wires);
  }

  lemma ShapedParts<E(!new)>(v: Verifier<E>)
    requires Shaped(v)
    ensures Program(v.prog) && |v.cells| == |v.prog| && forall j :: 0 <= j < |v.pending| ==> v.pending[j] < |v.prog|
  {
  }

  lemma FillStarts<E(!new)>(F: Field<E>, party: Party<E>, v0: Verifier<E>, at: Spot, wires: seq<Wire>)
    requires Shaped(v0) && WiresOk(v0.prog, v0.cells, wires)
    ensures |v0.cells| == |v0.prog| && PartlyFilled(v0.prog, v0.cells, wires, 0) && Fill(F, party, v0, at, 0) == v0
  {
    assert Ids(wires)[0..] == Ids(wires);
  }

  method FillWire<E(!new)>(F: Field<E>, party: Party<E>, ghost v0: Verifier<E>, slots0: seq<Slot<E>>, wires: seq<Wire>,
                           triples0: seq<(Cell<E>, Cell<E>, Cell<E>)>, ghost cells0: seq<Option<Cell<E>>>, at: Spot,
                           i: nat)
    returns (slots: seq<Slot<E>>, triples: seq<(Cell<E>, Cell<E>, Cell<E>)>, ghost cells: seq<Option<Cell<E>>>,
             error: bool)
    requires Shaped(v0) && v0.pending == Ids(wires) && i < |wires|
    requires SlotsOk(F, party, v0.prog, cells0, slots0) && PartlyFilled(v0.prog, cells0, wires, i)
    requires cells0 == Fill(F, party, v0, at, i).cells && triples0 == Fill(F, party, v0, at, i).triples
    ensures !error && SlotsOk(F, party, v0.prog, cells, slots) && |slots| == |slots0| && |triples| <= |triples0| + 1
    ensures PartlyFilled(v0.prog, cells, wires, i + 1)
    ensures cells == Fill(F, party, v0, at, i + 1).cells && triples == Fill(F, party, v0, at, i + 1).triples
  {
    ghost var v := Fill(F, party, v0, at, i);
    var cell := party.arrive(at, i);
    NextToFill(v0.prog, cells0, wires, i, cell);
    assert Fill(F, party, v0, at, i + 1) == FillNext(F, party, v, wires[i].out, cell);
    cells := FillNext(F, party, v, wires[i].out, cell).cells;
    assert cells == cells0[wires[i].out := Some(cell)];
    hide Fill, FillNext, SlotsOk;
    slots, triples, error := FillOne(F, party, v, slots0, wires[i], cell, triples0);
    SlotCount(F, party, v0.prog, cells0, slots0, cells, slots);
  }

  lemma SlotCount<E(!new)>(F: Field<E>, party: Party<E>, prog: seq<Op<E>>, cells: seq<Option<Cell<E>>>,
                           slots: seq<Slot<E>>, cells': seq<Option<Cell<E>>>, slots': seq<Slot<E>>)
    requires SlotsOk(F, party, prog, cells, slots) && SlotsOk(F, party, prog, cells', slots')
    ensures |slots'| == |slots|
  {
  }

  // The first i pending wires have arrived.
  ghost predicate PartlyFilled<E(!new)>(prog: seq<Op<E>>, cells: seq<Option<Cell<E>>>, wires: seq<Wire>, i: nat)
    requires i <= |wires|
  {
    && |cells| == |prog|
    && (forall j :: 0 <= j < |wires| ==>
          wires[j].out < |prog| && Shared(prog[wires[j].out]) && wires[j] == WireOf(prog, wires[j].out))
    && (forall i, j :: 0 <= i < j < |wires| ==> wires[i].out < wires[j].out)
    && forall id :: 0 <= id < |prog| && Shared(prog[id]) ==> (cells[id] == None <==> id in Ids(wires)[i..])
  }

  lemma NextToFill<E(!new)>(prog: seq<Op<E>>, cells: seq<Option<Cell<E>>>, wires: seq<Wire>, i: nat, c: Cell<E>)
    requires i < |wires| && PartlyFilled(prog, cells, wires, i)
    ensures wires[i].out < |prog| && Shared(prog[wires[i].out]) && wires[i] == WireOf(prog, wires[i].out)
    ensures forall x :: 0 <= x < wires[i].out && Shared(prog[x]) ==> cells[x].Some?
    ensures cells[wires[i].out] == None
    ensures PartlyFilled(prog, cells[wires[i].out := Some(c)], wires, i + 1)
  {
    Suffixes(wires, i);
    hide Ids;
  }

  ghost predicate Above(s: seq<nat>, v: nat) {
    forall y :: y in s ==> v < y
  }

  lemma Suffixes(wires: seq<Wire>, i: nat)
    requires i < |wires| && forall j, l :: 0 <= j < l < |wires| ==> wires[j].out < wires[l].out
    ensures Ids(wires)[i..] == [wires[i].out] + Ids(wires)[i + 1..] && Above(Ids(wires)[i + 1..], wires[i].out)
  {
    var rest := Ids(wires)[i + 1..];
    forall y | y in rest ensures wires[i].out < y {
      var x :| 0 <= x < |rest| && rest[x] == y;
      assert rest[x] == wires[i + 1 + x].out;
    }
  }

  lemma AllFilled<E(!new)>(prog: seq<Op<E>>, cells: seq<Option<Cell<E>>>, wires: seq<Wire>)
    requires PartlyFilled(prog, cells, wires, |wires|)
    ensures WiresOk(prog, cells, [])
  {
    assert Ids(wires)[|wires|..] == [] == Ids([]);
  }

  lemma BatchesMonotone(L: Limits)
    requires L.Good()
    ensures L.Batches(2 * L.m - 2) <= L.Batches(2 * L.m + 2) <= L.cap
  {
    DivisionMonotone(2 * L.m - 2 + L.k - 1, 2 * L.m + 2 + L.k - 1, L.k);
  }

  lemma DivisionMonotone(a: nat, b: nat, k: nat)
    requires a <= b && k >= 1
    ensures a / k <= b / k
  {
    DivisionBounds(a, k);
    DivisionBounds(b, k);
    if a / k > b / k { Primes.AtLeast(k, a / k, b / k + 1); }
  }

  lemma CapAtLeastOne(L: Limits)
    requires L.Good()
    ensures L.cap >= 1
  {
    DivisionBounds(2 * L.m + 2 + L.k - 1, L.k);
    Positive(L.Batches(2 * L.m + 2), L.k);
  }

  lemma Positive(q: nat, k: nat)
    requires q * k > 0
    ensures q >= 1
  {
  }
}
