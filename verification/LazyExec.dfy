/** A verifier's wires as the code keeps them: slots that are filled, pending, or linear combinations
    resolved only when a product or an opening needs them. Every operation is the eager one on the
    abstract state; resolving terminates on any chain of combinations and never meets a wire
    whose packed sharing has not arrived. */
module LazyExec {
  import opened Options
  import opened Algebra
  import opened Wires

  // A filled slot holds its share; an unfilled one is pending, or a combination of earlier slots.
  datatype Slot<E> = Slot(ready: bool, sh: Cell<E>, lin: seq<(E, nat)>, pub: E)

  datatype Wire = Input(out: nat) | Product(out: nat, left: nat, right: nat)

  ghost predicate SlotOk<E(!new)>(F: Field<E>, party: Party<E>, prog: seq<Op<E>>, cells: seq<Option<Cell<E>>>,
                                  slot: Slot<E>, id: nat)
    requires Program(prog) && |cells| == |prog| && id < |prog|
  {
    if slot.ready then Meaning(F, party, prog, cells, id) == Some(slot.sh)
    else if slot.lin != [] then prog[id] == Lin(slot.lin, slot.pub)
    else Shared(prog[id]) && cells[id] == None
  }

  ghost predicate SlotsOk<E(!new)>(F: Field<E>, party: Party<E>, prog: seq<Op<E>>, cells: seq<Option<Cell<E>>>,
                                   slots: seq<Slot<E>>) {
    && Program(prog) && |slots| == |cells| == |prog|
    && forall id :: 0 <= id < |slots| ==> SlotOk(F, party, prog, cells, slots[id], id)
  }

  // ---- meanings persist ----

  ghost predicate MoreCells<E>(cells: seq<Option<Cell<E>>>, cells': seq<Option<Cell<E>>>) {
    |cells'| == |cells| && forall i :: 0 <= i < |cells| ==> cells[i].Some? ==> cells'[i] == cells[i]
  }

  lemma {:induction false} MeaningKept<E(!new)>(F: Field<E>, party: Party<E>, prog: seq<Op<E>>,
                                                cells: seq<Option<Cell<E>>>, cells': seq<Option<Cell<E>>>, id: nat)
    requires Program(prog) && |cells| == |prog| && id < |prog| && MoreCells(cells, cells')
    ensures Meaning(F, party, prog, cells, id).Some? ==>
               Meaning(F, party, prog, cells', id) == Meaning(F, party, prog, cells, id)
    decreases id, 1, 0
  {
    if prog[id].Lin? { MeaningOfKept(F, party, prog, cells, cells', id, prog[id].terms, prog[id].c); }
  }

  lemma {:induction false} MeaningOfKept<E(!new)>(F: Field<E>, party: Party<E>, prog: seq<Op<E>>,
                                                  cells: seq<Option<Cell<E>>>, cells': seq<Option<Cell<E>>>, n: nat,
                                                  terms: seq<(E, nat)>, c: E)
    requires Program(prog) && |cells| == |prog| && n <= |prog| && MoreCells(cells, cells')
             && forall i :: 0 <= i < |terms| ==> terms[i].1 < n
    ensures MeaningOf(F, party, prog, cells, n, terms, c).Some? ==>
              MeaningOf(F, party, prog, cells', n, terms, c) == MeaningOf(F, party, prog, cells, n, terms, c)
    decreases n, 0, |terms|
  {
    if terms != [] {
      var l := |terms| - 1;
      MeaningOfKept(F, party, prog, cells, cells', n, terms[..l], c);
      MeaningKept(F, party, prog, cells, cells', terms[l].1);
    }
  }

  lemma {:induction false} MeaningExt<E(!new)>(F: Field<E>, party: Party<E>, prog: seq<Op<E>>,
                                               cells: seq<Option<Cell<E>>>, op: Op<E>, id: nat)
    requires Program(prog) && Program(prog + [op]) && |cells| == |prog| && id < |prog|
    ensures Meaning(F, party, prog + [op], cells + [None], id) == Meaning(F, party, prog, cells, id)
    decreases id, 1, 0
  {
    if prog[id].Lin? { MeaningOfExt(F, party, prog, cells, op, id, prog[id].terms, prog[id].c); }
  }

  lemma {:induction false} MeaningOfExt<E(!new)>(F: Field<E>, party: Party<E>, prog: seq<Op<E>>,
                                                 cells: seq<Option<Cell<E>>>, op: Op<E>, n: nat, terms: seq<(E, nat)>,
                                                 c: E)
    requires Program(prog) && Program(prog + [op]) && |cells| == |prog| && n <= |prog|
             && forall i :: 0 <= i < |terms| ==> terms[i].1 < n
    ensures MeaningOf(F, party, prog + [op], cells + [None], n, terms, c) == MeaningOf(F, party, prog, cells, n, terms,
        c)
    decreases n, 0, |terms|
  {
    if terms != [] {
      var l := |terms| - 1;
      MeaningOfExt(F, party, prog, cells, op, n, terms[..l], c);
      MeaningExt(F, party, prog, cells, op, terms[l].1);
    }
  }

  // A combination can be formed exactly if all its terms can.
  lemma {:induction false} TermsSome<E(!new)>(F: Field<E>, party: Party<E>, prog: seq<Op<E>>,
                                              cells: seq<Option<Cell<E>>>, n: nat, terms: seq<(E, nat)>, c: E)
    requires Program(prog) && |cells| == |prog| && n <= |prog| && forall i :: 0 <= i < |terms| ==> terms[i].1 < n
    ensures MeaningOf(F, party, prog, cells, n, terms, c).Some? <==>
            forall i :: 0 <= i < |terms| ==> Meaning(F, party, prog, cells, terms[i].1).Some?
    decreases |terms|
  {
    if terms != [] {
      var l := |terms| - 1;
      TermsSome(F, party, prog, cells, n, terms[..l], c);
      assert forall i :: 0 <= i < l ==> terms[..l][i] == terms[i];
    }
  }

  // Every slot whose shared predecessors have arrived can be formed.
  lemma {:induction false} EarlierFormed<E(!new)>(F: Field<E>, party: Party<E>, prog: seq<Op<E>>,
                                                  cells: seq<Option<Cell<E>>>, n: nat, id: nat)
    requires Program(prog) && |cells| == |prog| && id < n <= |prog|
    requires forall x :: 0 <= x < n && Shared(prog[x]) ==> cells[x].Some?
    ensures Meaning(F, party, prog, cells, id).Some?
    decreases id
  {
    if prog[id].Lin? {
      var terms := prog[id].terms;
      forall i | 0 <= i < |terms| ensures Meaning(F, party, prog, cells, terms[i].1).Some? {
        EarlierFormed(F, party, prog, cells, n, terms[i].1);
      }
      TermsSome(F, party, prog, cells, id, terms, prog[id].c);
    } else {
      assert Wires.Fits(prog[id], id) && !prog[id].Flush? && !prog[id].Finalize?;
    }
  }

  // ---- resolving ----

  ghost function Unready<E>(slots: seq<Slot<E>>): nat {
    if slots == [] then 0 else Unready(slots[1..]) + if slots[0].ready then 0 else 1
  }

  lemma {:induction false} OneLess<E>(slots: seq<Slot<E>>, t: nat, slot: Slot<E>)
    requires t < |slots| && !slots[t].ready && slot.ready
    ensures Unready(slots[t := slot]) < Unready(slots)
  {
    if t == 0 {
      assert slots[0 := slot][1..] == slots[1..];
    } else {
      assert slots[t := slot][1..] == slots[1..][t - 1 := slot];
      OneLess(slots[1..], t - 1, slot);
    }
  }

  // What decreases while no slot becomes ready.
  ghost function Rank<E>(slots: seq<Slot<E>>, st: seq<nat>): nat
    requires forall j :: 0 <= j < |st| ==> st[j] < |slots|
  {
    if st == [] then 0
    else
      var t := st[|st| - 1];
      if slots[t].ready then |slots| + |st| + 1 else t + 1
  }

  // The linear combination of filled slots.
  method EvalLinear<E(!new)>(F: Field<E>, party: Party<E>, ghost prog: seq<Op<E>>, ghost cells: seq<Option<Cell<E>>>,
                             slots: seq<Slot<E>>, ghost n: nat, terms: seq<(E, nat)>, c: E) returns (acc: Cell<E>)
    requires SlotsOk(F, party, prog, cells, slots) && n <= |prog|
    requires forall i :: 0 <= i < |terms| ==> terms[i].1 < n && slots[terms[i].1].ready
    ensures MeaningOf(F, party, prog, cells, n, terms, c) == Some(acc)
  {
    acc := PubCell(F, party.id, party.delta, c);
    for i := 0 to |terms|
      invariant MeaningOf(F, party, prog, cells, n, terms[..i], c) == Some(acc)
    {
      var x := terms[i].1;
      assert SlotOk(F, party, prog, cells, slots[x], x);
      assert terms[..i + 1][..i] == terms[..i];
      acc := AddCell(F, acc, ScaleCell(F, terms[i].0, slots[x].sh));
    }
    assert terms[..|terms|] == terms;
  }

  method FirstUnready<E>(slots: seq<Slot<E>>, terms: seq<(E, nat)>) returns (child: Option<nat>)
    requires forall i :: 0 <= i < |terms| ==> terms[i].1 < |slots|
    ensures child.None? ==> forall i :: 0 <= i < |terms| ==> slots[terms[i].1].ready
    ensures child.Some? ==> child.value < |slots| && !slots[child.value].ready
    ensures child.Some? ==> exists i :: 0 <= i < |terms| && terms[i].1 == child.value
  {
    for i := 0 to |terms|
      invariant forall j :: 0 <= j < i ==> slots[terms[j].1].ready
    {
      if !slots[terms[i].1].ready { return Some(terms[i].1); }
    }
    child := None;
  }

  lemma UnreadyIsLinear<E(!new)>(F: Field<E>, party: Party<E>, prog: seq<Op<E>>, cells: seq<Option<Cell<E>>>,
                                 slots: seq<Slot<E>>, t: nat)
    requires SlotsOk(F, party, prog, cells, slots) && t < |slots| && !slots[t].ready
             && Meaning(F, party, prog, cells, t).Some?
    ensures slots[t].lin != [] && prog[t] == Lin(slots[t].lin, slots[t].pub)
    ensures forall i :: 0 <= i < |slots[t].lin| ==>
              slots[t].lin[i].1 < t && Meaning(F, party, prog, cells, slots[t].lin[i].1).Some?
  {
    assert SlotOk(F, party, prog, cells, slots[t], t);
    assert Wires.Fits(prog[t], t);
    TermsSome(F, party, prog, cells, t, slots[t].lin, slots[t].pub);
  }

  lemma Resolved<E(!new)>(F: Field<E>, party: Party<E>, prog: seq<Op<E>>, cells: seq<Option<Cell<E>>>,
                          slots: seq<Slot<E>>, t: nat, slot: Slot<E>)
    requires SlotsOk(F, party, prog, cells, slots) && t < |slots| && slot.ready
             && Meaning(F, party, prog, cells, t) == Some(slot.sh)
    ensures SlotsOk(F, party, prog, cells, slots[t := slot])
  {
    hide Meaning;
    var now := slots[t := slot];
    forall id | 0 <= id < |slots| ensures SlotOk(F, party, prog, cells, now[id], id) {
      assert SlotOk(F, party, prog, cells, slots[id], id);
    }
  }

  // Fills a slot whose terms are ready.
  method ResolveSlot<E(!new)>(F: Field<E>, party: Party<E>, ghost prog: seq<Op<E>>, ghost cells: seq<Option<Cell<E>>>,
                              slots: seq<Slot<E>>, t: nat) returns (next: seq<Slot<E>>)
    requires SlotsOk(F, party, prog, cells, slots) && t < |slots| && !slots[t].ready
             && prog[t] == Lin(slots[t].lin, slots[t].pub)
    requires forall i :: 0 <= i < |slots[t].lin| ==> slots[t].lin[i].1 < t && slots[slots[t].lin[i].1].ready
    ensures SlotsOk(F, party, prog, cells, next) && |next| == |slots| && next[t].ready && Unready(next) < Unready(slots)
    ensures forall i :: 0 <= i < |slots| && i != t ==> next[i] == slots[i]
  {
    var sh := EvalLinear(F, party, prog, cells, slots, t, slots[t].lin, slots[t].pub);
    assert Meaning(F, party, prog, cells, t) == Some(sh);
    hide *;
    var slot := Slot(true, sh, [], slots[t].pub);
    OneLess(slots, t, slot);
    Resolved(F, party, prog, cells, slots, t, slot);
    next := slots[t := slot];
  }

  /** Resolves slot s and whatever it needs, with an explicit stack: a slot waits on the stack until
      its terms are ready. The error exit is never taken. */
  method Materialize<E(!new)>(F: Field<E>, party: Party<E>, ghost prog: seq<Op<E>>, ghost cells: seq<Option<Cell<E>>>,
                              slots0: seq<Slot<E>>, s: nat)
    returns (slots: seq<Slot<E>>, error: bool)
    requires SlotsOk(F, party, prog, cells, slots0) && s < |slots0| && Meaning(F, party, prog, cells, s).Some?
    ensures !error && SlotsOk(F, party, prog, cells, slots) && slots[s].ready && |slots| == |slots0|
    ensures forall i :: 0 <= i < |slots| && slots0[i].ready ==> slots[i].ready
  {
    assert Program(prog) && |slots0| == |cells| == |prog|;
    hide Meaning, SlotsOk, SlotOk, Program, Unready;
    slots, error := slots0, false;
    if slots[s].ready { return; }
    var st: seq<nat> := [s];
    while st != []
      invariant Program(prog) && |slots| == |cells| == |prog| && SlotsOk(F, party, prog, cells, slots)
      invariant |slots| == |slots0|
      invariant forall j :: 0 <= j < |st| ==> st[j] < |slots| && Meaning(F, party, prog, cells, st[j]).Some?
      invariant if st == [] then slots[s].ready else st[0] == s
      invariant forall i :: 0 <= i < |slots| && slots0[i].ready ==> slots[i].ready
      decreases Unready(slots), Rank(slots, st)
    {
      var t := st[|st| - 1];
      if slots[t].ready {
        st := st[..|st| - 1];
      } else {
        UnreadyIsLinear(F, party, prog, cells, slots, t);
        if slots[t].lin == [] { return slots, true; }
        var child := FirstUnready(slots, slots[t].lin);
        if child.Some? {
          st := st + [child.value];
        } else {
          slots := ResolveSlot(F, party, prog, cells, slots, t);
          st := st[..|st| - 1];
        }
      }
    }
  }

  // ---- the object ----

  // The pending wire of slot id.
  function WireOf<E>(prog: seq<Op<E>>, id: nat): Wire
    requires id < |prog| && Shared(prog[id])
  {
    if prog[id].Feed? then Input(id) else Product(id, prog[id].a, prog[id].b)
  }

  function Ids(wires: seq<Wire>): (r: seq<nat>)
    ensures |r| == |wires|
  {
    seq(|wires|, j requires 0 <= j < |wires| => wires[j].out)
  }

  // The buffer lists the pending shared slots in program order; all others have arrived.
  ghost predicate WiresOk<E(!new)>(prog: seq<Op<E>>, cells: seq<Option<Cell<E>>>, wires: seq<Wire>) {
    && |cells| == |prog|
    && (forall j :: 0 <= j < |wires| ==>
          wires[j].out < |prog| && Shared(prog[wires[j].out]) && wires[j] == WireOf(prog, wires[j].out))
    && (forall i, j :: 0 <= i < j < |wires| ==> wires[i].out < wires[j].out)
    && forall id :: 0 <= id < |prog| && Shared(prog[id]) ==> (cells[id] == None <==> id in Ids(wires))
  }

  // One filled wire: inputs of a product are resolved before its share is written.
  method FillOne<E(!new)>(F: Field<E>, party: Party<E>, ghost v: Verifier<E>, slots0: seq<Slot<E>>, wire: Wire,
                          cell: Cell<E>, triples0: seq<(Cell<E>, Cell<E>, Cell<E>)>)
    returns (slots: seq<Slot<E>>, triples: seq<(Cell<E>, Cell<E>, Cell<E>)>, error: bool)
    requires SlotsOk(F, party, v.prog, v.cells, slots0) && v.triples == triples0 && wire.out < |v.prog|
             && Shared(v.prog[wire.out])
    requires wire == WireOf(v.prog, wire.out)
    requires forall x :: 0 <= x < wire.out && Shared(v.prog[x]) ==> v.cells[x].Some?
    requires v.cells[wire.out] == None
    ensures !error && |triples| <= |triples0| + 1
    ensures SlotsOk(F, party, v.prog, FillNext(F, party, v, wire.out, cell).cells, slots)
    ensures triples == FillNext(F, party, v, wire.out, cell).triples
  {
    ghost var w := FillNext(F, party, v, wire.out, cell);
    assert Wires.Fits(v.prog[wire.out], wire.out);
    slots, triples, error := slots0, triples0, false;
    if wire.Product? {
      EarlierFormed(F, party, v.prog, v.cells, wire.out, wire.left);
      EarlierFormed(F, party, v.prog, v.cells, wire.out, wire.right);
      slots, error := Materialize(F, party, v.prog, v.cells, slots, wire.left);
      slots, error := Materialize(F, party, v.prog, v.cells, slots, wire.right);
      assert SlotOk(F, party, v.prog, v.cells, slots[wire.left], wire.left);
      assert SlotOk(F, party, v.prog, v.cells, slots[wire.right], wire.right);
      triples := triples + [(slots[wire.left].sh, slots[wire.right].sh, cell)];
    }
    SlotFilled(F, party, v.prog, v.cells, slots, wire.out, cell, Slot(true, cell, [], cell.val));
    slots := slots[wire.out := Slot(true, cell, [], cell.val)];
  }

  lemma SlotFilled<E(!new)>(F: Field<E>, party: Party<E>, prog: seq<Op<E>>, cells: seq<Option<Cell<E>>>,
                            slots: seq<Slot<E>>, id: nat, cell: Cell<E>, slot: Slot<E>)
    requires SlotsOk(F, party, prog, cells, slots) && id < |prog| && Shared(prog[id]) && cells[id] == None
    requires slot.ready && slot.sh == cell
    ensures SlotsOk(F, party, prog, cells[id := Some(cell)], slots[id := slot])
  {
    var cells', now := cells[id := Some(cell)], slots[id := slot];
    forall x | 0 <= x < |slots| ensures SlotOk(F, party, prog, cells', now[x], x) {
      assert SlotOk(F, party, prog, cells, slots[x], x);
      MeaningKept(F, party, prog, cells, cells', x);
    }
  }
}
