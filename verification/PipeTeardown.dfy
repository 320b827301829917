/** The end of a proof: both programs are complete and the parties tear their pipes down. Which end
    states let both producer threads stop under every schedule, and that every program has schedules
    that leave one producer waiting for a round nobody joins. */
module PipeTeardown {
  import opened Options
  import opened PipeRing
  import opened PipeParties

  // Both programs are complete, and no party has begun to tear its pipe down.
  ghost predicate AtEnd<T>(prog: seq<Act>, s: Sys<T>) {
    s.a.pc == s.b.pc == |prog| && Open(s.a) && Open(s.b)
  }

  ghost predicate Open<T>(p: Party<T>) { p.side.cons.Empty? || p.side.cons.Draining? }

  ghost predicate BothStopped<T>(s: Sys<T>) { s.a.side.prod.Stopped? && s.b.side.prod.Stopped? }

  // No event is possible any more.
  ghost predicate Final<T>(prog: seq<Act>, b: nat, s: Sys<T>) {
    forall e :: !CanDo(prog, b, s, e)
  }

  // The events lead from s to t.
  ghost predicate Leads<T>(prog: seq<Act>, n: nat, b: nat, va: nat -> T, vb: nat -> T, s: Sys<T>, events: seq<Event>,
                           t: Sys<T>)
    requires SInv(prog, b, va, vb, n, s)
  {
    RunFrom(prog, n, b, va, vb, s, events) == Some(t)
  }

  // Every schedule ends with both producer threads stopped.
  ghost predicate AlwaysStops<T(!new)>(prog: seq<Act>, n: nat, b: nat, va: nat -> T, vb: nat -> T, s: Sys<T>)
    requires SInv(prog, b, va, vb, n, s)
  {
    forall events: seq<Event>, t: Sys<T> ::
      Leads(prog, n, b, va, vb, s, events, t) && Final(prog, b, t) ==> BothStopped(t)
  }

  // A round has its slot: published, being filled, or asked for by both.
  function Taken<T>(s: Sys<T>, p: Party<T>): nat {
    p.side.ring.count
    + if p.side.prod.Filling? || (s.a.side.prod.Asked? && s.b.side.prod.Asked?) then 1 else 0
  }

  /** No slot is half read, and neither ring has room for another round. */
  ghost predicate NoRoom<T>(n: nat, s: Sys<T>) {
    s.a.side.cons.Empty? && s.b.side.cons.Empty? && Taken(s, s.a) == n && Taken(s, s.b) == n
  }

  // ---- joining runs ----

  lemma {:induction false} Joined<T>(prog: seq<Act>, n: nat, b: nat, va: nat -> T, vb: nat -> T, s: Sys<T>,
                                     events: seq<Event>, t: Sys<T>, more: seq<Event>)
    requires SInv(prog, b, va, vb, n, s) && Leads(prog, n, b, va, vb, s, events, t)
    ensures SInv(prog, b, va, vb, n, t)
    ensures RunFrom(prog, n, b, va, vb, s, events + more) == RunFrom(prog, n, b, va, vb, t, more)
    decreases |more|
  {
    hide SInv, CanDo, Do, Work;
    if more == [] {
      assert events + more == events;
    } else {
      var k := |more| - 1;
      assert (events + more)[..|events| + k] == events + more[..k] && (events + more)[|events| + k] == more[k];
      Joined(prog, n, b, va, vb, s, events, t, more[..k]);
    }
  }

  lemma OneEvent<T>(prog: seq<Act>, n: nat, b: nat, va: nat -> T, vb: nat -> T, s: Sys<T>, e: Event)
    requires SInv(prog, b, va, vb, n, s) && CanDo(prog, b, s, e)
    ensures Leads(prog, n, b, va, vb, s, [e], Do(prog, b, va, vb, n, s, e))
             && SInv(prog, b, va, vb, n, Do(prog, b, va, vb, n, s, e))
    ensures Left(prog, n, b, Do(prog, b, va, vb, n, s, e)) < Left(prog, n, b, s)
  {
    EventKeeps(prog, b, va, vb, n, s, e);
    var t := Do(prog, b, va, vb, n, s, e);
    WorkWithin(prog, b, va, true, n, t.a);
    WorkWithin(prog, b, vb, false, n, t.b);
    hide SInv, CanDo, Do, Work;
    assert [e][..0] == [];
    assert RunFrom(prog, n, b, va, vb, s, [e][..0]) == Some(s);
  }

  // What decreases with every event.
  function Left<T>(prog: seq<Act>, n: nat, b: nat, s: Sys<T>): int {
    2 * Limit(prog, n, b) - Work(b, s.a) - Work(b, s.b)
  }

  lemma LeftNat<T>(prog: seq<Act>, n: nat, b: nat, va: nat -> T, vb: nat -> T, s: Sys<T>)
    requires SInv(prog, b, va, vb, n, s)
    ensures Left(prog, n, b, s) >= 0
  {
    WorkWithin(prog, b, va, true, n, s.a);
    WorkWithin(prog, b, vb, false, n, s.b);
  }

  // Every state has a continuation after which nothing is possible.
  lemma {:induction false} RunsOut<T>(prog: seq<Act>, n: nat, b: nat, va: nat -> T, vb: nat -> T, s: Sys<T>)
    returns (events: seq<Event>, t: Sys<T>)
    requires SInv(prog, b, va, vb, n, s)
    ensures Leads(prog, n, b, va, vb, s, events, t) && Final(prog, b, t)
    decreases Left(prog, n, b, s)
  {
    hide SInv, Do, CanDo, Left;
    if Final(prog, b, s) {
      events, t := [], s;
    } else {
      var e :| CanDo(prog, b, s, e);
      OneEvent(prog, n, b, va, vb, s, e);
      var u := Do(prog, b, va, vb, n, s, e);
      LeftNat(prog, n, b, va, vb, u);
      var rest;
      rest, t := RunsOut(prog, n, b, va, vb, u);
      Joined(prog, n, b, va, vb, s, [e], u, rest);
      events := [e] + rest;
    }
  }

  // ---- full rings ----

  // What a full end state keeps: consumers done or closing, every slot taken, producers asking together.
  ghost predicate Full<T>(prog: seq<Act>, n: nat, s: Sys<T>) {
    && s.a.pc == s.b.pc == |prog|
    && (s.a.side.cons.Empty? || s.a.side.cons.Closed?) && (s.b.side.cons.Empty? || s.b.side.cons.Closed?)
    && (s.a.side.prod.Asked? <==> s.b.side.prod.Asked?) && Taken(s, s.a) == n && Taken(s, s.b) == n
  }

  lemma NoRoomIsFull<T>(prog: seq<Act>, b: nat, va: nat -> T, vb: nat -> T, n: nat, s: Sys<T>)
    requires SInv(prog, b, va, vb, n, s) && AtEnd(prog, s) && NoRoom(n, s)
    ensures Full(prog, n, s)
  {
    hide Holds, IsPrefix, ReadyHeld, Start, Total, Sent, Pos;
  }

  lemma FullKept<T>(prog: seq<Act>, b: nat, va: nat -> T, vb: nat -> T, n: nat, s: Sys<T>, e: Event)
    requires SInv(prog, b, va, vb, n, s) && Full(prog, n, s) && CanDo(prog, b, s, e)
    ensures Full(prog, n, Do(prog, b, va, vb, n, s, e))
  {
    hide Holds, IsPrefix, ReadyHeld, Start, Total, Sent, Pos;
  }

  lemma {:induction false} FullStays<T>(prog: seq<Act>, n: nat, b: nat, va: nat -> T, vb: nat -> T, s: Sys<T>,
                                        events: seq<Event>, t: Sys<T>)
    requires SInv(prog, b, va, vb, n, s) && Full(prog, n, s) && Leads(prog, n, b, va, vb, s, events, t)
    ensures SInv(prog, b, va, vb, n, t) && Full(prog, n, t)
    decreases |events|
  {
    hide SInv, CanDo, Do, Full, Work;
    if events != [] {
      var k := |events| - 1;
      var u := RunFrom(prog, n, b, va, vb, s, events[..k]).value;
      FullStays(prog, n, b, va, vb, s, events[..k], u);
      FullKept(prog, b, va, vb, n, u, events[k]);
    }
  }

  // Something is always possible until both producers have stopped.
  lemma FullEnds<T>(prog: seq<Act>, b: nat, va: nat -> T, vb: nat -> T, n: nat, s: Sys<T>)
    requires SInv(prog, b, va, vb, n, s) && Full(prog, n, s) && Final(prog, b, s)
    ensures BothStopped(s)
  {
    hide Holds, IsPrefix, ReadyHeld, Start, Total, Sent, Pos;
    assert !CanDo(prog, b, s, Exchange);
    PartyEnds(prog, b, va, true, n, s.a, s.b, s);
    PartyEnds(prog, b, vb, false, n, s.b, s.a, s);
  }

  lemma PartyEnds<T>(prog: seq<Act>, b: nat, vole: nat -> T, alice: bool, n: nat, p: Party<T>, q: Party<T>, s: Sys<T>)
    requires PInv(prog, b, vole, alice, n, p) && p.pc == |prog| && !p.side.prod.Asked?
    requires p.side.cons.Empty? || p.side.cons.Closed?
    requires Final(prog, b, s) && (if alice then p == s.a && q == s.b else p == s.b && q == s.a)
    ensures p.side.prod.Stopped?
  {
    hide Holds, IsPrefix, ReadyHeld, Start, Total, Sent, Pos;
    assert !CanDo(prog, b, s, Own(alice, Flush)) && !CanDo(prog, b, s, Own(alice, Thread(Close)));
    assert !CanDo(prog, b, s, Own(alice, Thread(Ask))) && !CanDo(prog, b, s, Own(alice, Thread(Write)));
    assert !CanDo(prog, b, s, Own(alice, Thread(Publish)));
  }

  // ---- stranding ----

  // One producer has stopped, the other waits for a round; both pipes are finished.
  ghost predicate Stranded<T>(s: Sys<T>) {
    && s.a.side.cons.Closed? && s.b.side.cons.Closed?
    && ((s.a.side.prod.Stopped? && s.b.side.prod.Asked?) || (s.b.side.prod.Stopped? && s.a.side.prod.Asked?))
  }

  // Nothing more can happen to the producers.
  lemma StrandedKept<T>(prog: seq<Act>, b: nat, va: nat -> T, vb: nat -> T, n: nat, s: Sys<T>, e: Event)
    requires SInv(prog, b, va, vb, n, s) && Stranded(s) && CanDo(prog, b, s, e)
    ensures Stranded(Do(prog, b, va, vb, n, s, e))
  {
    hide Holds, IsPrefix, ReadyHeld, Start, Total, Sent, Pos;
  }

  lemma {:induction false} StrandedStays<T>(prog: seq<Act>, n: nat, b: nat, va: nat -> T, vb: nat -> T, s: Sys<T>,
                                            events: seq<Event>, t: Sys<T>)
    requires SInv(prog, b, va, vb, n, s) && Stranded(s) && Leads(prog, n, b, va, vb, s, events, t)
    ensures SInv(prog, b, va, vb, n, t) && Stranded(t)
    decreases |events|
  {
    hide SInv, CanDo, Do, Stranded, Work;
    if events != [] {
      var k := |events| - 1;
      var u := RunFrom(prog, n, b, va, vb, s, events[..k]).value;
      StrandedStays(prog, n, b, va, vb, s, events[..k], u);
      StrandedKept(prog, b, va, vb, n, u, events[k]);
    }
  }

  // A step towards the end, with what is known afterwards.
  lemma OwnStep<T>(prog: seq<Act>, n: nat, b: nat, va: nat -> T, vb: nat -> T, s: Sys<T>, alice: bool, l: Local)
    returns (t: Sys<T>)
    requires SInv(prog, b, va, vb, n, s) && CanDo(prog, b, s, Own(alice, l))
    ensures SInv(prog, b, va, vb, n, t) && Leads(prog, n, b, va, vb, s, [Own(alice, l)], t)
             && Left(prog, n, b, t) < Left(prog, n, b, s)
    ensures t == Moved(prog, b, va, vb, s, alice, l)
  {
    OneEvent(prog, n, b, va, vb, s, Own(alice, l));
    t := Do(prog, b, va, vb, n, s, Own(alice, l));
    hide SInv, CanDo, Left;
  }

  ghost function Moved<T>(prog: seq<Act>, b: nat, va: nat -> T, vb: nat -> T, s: Sys<T>, alice: bool,
                          l: Local): Sys<T> {
    var p, vole := if alice then s.a else s.b, if alice then va else vb;
    if Shaped(b, p.side) && p.pc <= |prog| && (l.Thread? ==> Enabled(b, p.side, l.m) && !Aborts(p.side, l.m)) then
      var p' := DoLocal(prog, b, vole, alice, p, l);
      if alice then s.(a := p') else s.(b := p')
    else s
  }

  function Of<T>(s: Sys<T>, alice: bool): Party<T> { if alice then s.a else s.b }

  // At its program's end, with nothing left to flush.
  ghost predicate Done<T>(prog: seq<Act>, s: Sys<T>, alice: bool) {
    Of(s, alice).pc == |prog| && Flushed(prog, alice, Of(s, alice))
  }

  // Both steps of a party's teardown; its producer is not involved.
  lemma TearDown<T>(prog: seq<Act>, n: nat, b: nat, va: nat -> T, vb: nat -> T, s: Sys<T>, alice: bool)
    returns (events: seq<Event>, t: Sys<T>)
    requires SInv(prog, b, va, vb, n, s) && Done(prog, s, alice) && !Of(s, alice).side.cons.Closed?
    ensures Leads(prog, n, b, va, vb, s, events, t) && SInv(prog, b, va, vb, n, t)
    ensures Of(t, !alice) == Of(s, !alice) && Of(t, alice).side.prod == Of(s, alice).side.prod
    ensures Of(t, alice).side.cons.Closed? && Done(prog, t, alice)
  {
    if Of(s, alice).side.cons.Draining? {
      var u := LeaveSlot(prog, n, b, va, vb, s, alice);
      t := ClosePipe(prog, n, b, va, vb, u, alice);
      hide *;
      Joined(prog, n, b, va, vb, s, [Own(alice, Thread(Leave))], u, [Own(alice, Thread(Close))]);
      events := [Own(alice, Thread(Leave))] + [Own(alice, Thread(Close))];
      LeadsBy(prog, n, b, va, vb, s, events, t);
    } else {
      t := ClosePipe(prog, n, b, va, vb, s, alice);
      events := [Own(alice, Thread(Close))];
    }
  }

  lemma LeadsBy<T>(prog: seq<Act>, n: nat, b: nat, va: nat -> T, vb: nat -> T, s: Sys<T>, events: seq<Event>, t: Sys<T>)
    requires SInv(prog, b, va, vb, n, s) && RunFrom(prog, n, b, va, vb, s, events) == Some(t)
    ensures Leads(prog, n, b, va, vb, s, events, t)
  {
  }

  lemma LeaveSlot<T>(prog: seq<Act>, n: nat, b: nat, va: nat -> T, vb: nat -> T, s: Sys<T>, alice: bool)
    returns (t: Sys<T>)
    requires SInv(prog, b, va, vb, n, s) && Done(prog, s, alice) && Of(s, alice).side.cons.Draining?
    ensures SInv(prog, b, va, vb, n, t) && Leads(prog, n, b, va, vb, s, [Own(alice, Thread(Leave))], t)
    ensures Of(t, !alice) == Of(s, !alice) && Of(t, alice).side.prod == Of(s, alice).side.prod
    ensures Of(t, alice).side.cons.Leaving? && Of(t, alice).side.ring.count < n && Done(prog, t, alice)
  {
    Slots(prog, b, va, vb, n, s, alice);
    hide SInv, Sent, Left, Leads;
    t := OwnStep(prog, n, b, va, vb, s, alice, Thread(Leave));
  }

  lemma ClosePipe<T>(prog: seq<Act>, n: nat, b: nat, va: nat -> T, vb: nat -> T, s: Sys<T>, alice: bool)
    returns (t: Sys<T>)
    requires SInv(prog, b, va, vb, n, s) && Done(prog, s, alice)
    requires Of(s, alice).side.cons.Empty? || Of(s, alice).side.cons.Leaving?
    ensures SInv(prog, b, va, vb, n, t) && Leads(prog, n, b, va, vb, s, [Own(alice, Thread(Close))], t)
    ensures Of(t, !alice) == Of(s, !alice) && Of(t, alice).side.prod == Of(s, alice).side.prod
    ensures Of(t, alice).side.cons.Closed? && Done(prog, t, alice)
  {
    Slots(prog, b, va, vb, n, s, alice);
    hide SInv, Sent, Left, Leads;
    t := OwnStep(prog, n, b, va, vb, s, alice, Thread(Close));
  }

  // The producer asks for a round if there is room, and stops if its pipe is finished.
  lemma AskStep<T>(prog: seq<Act>, n: nat, b: nat, va: nat -> T, vb: nat -> T, s: Sys<T>, alice: bool)
    returns (t: Sys<T>)
    requires SInv(prog, b, va, vb, n, s) && Of(s, alice).side.prod.Idle?
    requires Of(s, alice).side.ring.count < n || Of(s, alice).side.cons.Closed?
    ensures SInv(prog, b, va, vb, n, t) && Leads(prog, n, b, va, vb, s, [Own(alice, Thread(Ask))], t)
             && Left(prog, n, b, t) < Left(prog, n, b, s)
    ensures Of(t, !alice) == Of(s, !alice)
    ensures Of(t, alice).side.cons == Of(s, alice).side.cons && Of(t, alice).pc == Of(s, alice).pc
    ensures Of(t, alice).flushed == Of(s, alice).flushed
    ensures if Of(s, alice).side.cons.Closed? then Of(t, alice).side.prod.Stopped? else Of(t, alice).side.prod.Asked?
  {
    Slots(prog, b, va, vb, n, s, alice);
    hide SInv, Sent, Left, Leads;
    t := OwnStep(prog, n, b, va, vb, s, alice, Thread(Ask));
  }

  // Facts of a side that the steps above need.
  lemma Slots<T>(prog: seq<Act>, b: nat, va: nat -> T, vb: nat -> T, n: nat, s: Sys<T>, alice: bool)
    requires SInv(prog, b, va, vb, n, s)
    ensures var p := Of(s, alice);
            && Shaped(b, p.side) && |p.side.ring.slots| == n && p.side.ring.count <= n && p.pc <= |prog|
            && (p.side.ring.done <==> p.side.cons.Closed?)
  {
  }

  /** A producer that has asked while the other idles can be left alone with its round. */
  lemma OneAsked<T>(prog: seq<Act>, n: nat, b: nat, va: nat -> T, vb: nat -> T, s: Sys<T>, alice: bool)
    returns (events: seq<Event>, t: Sys<T>)
    requires SInv(prog, b, va, vb, n, s) && Done(prog, s, true) && Done(prog, s, false)
    requires Of(s, alice).side.prod.Asked? && Of(s, !alice).side.prod.Idle?
    requires !s.a.side.cons.Closed? && !s.b.side.cons.Closed?
    ensures Leads(prog, n, b, va, vb, s, events, t) && SInv(prog, b, va, vb, n, t) && Stranded(t)
  {
    hide SInv, Done, Leads, Left;
    assert Done(prog, s, alice) && Done(prog, s, !alice);
    var e1, u := TearDown(prog, n, b, va, vb, s, !alice);
    var v := AskStep(prog, n, b, va, vb, u, !alice);
    Chain(prog, n, b, va, vb, s, e1, u, [Own(!alice, Thread(Ask))], v);
    assert Done(prog, v, alice) by { DoneSame(prog, s, v, alice); }
    var e3;
    e3, t := TearDown(prog, n, b, va, vb, v, alice);
    Chain(prog, n, b, va, vb, s, e1 + [Own(!alice, Thread(Ask))], v, e3, t);
    events := e1 + [Own(!alice, Thread(Ask))] + e3;
  }

  lemma DoneSame<T>(prog: seq<Act>, s: Sys<T>, t: Sys<T>, alice: bool)
    requires Done(prog, s, alice) && Of(t, alice) == Of(s, alice)
    ensures Done(prog, t, alice)
  {
  }

  lemma Chain<T>(prog: seq<Act>, n: nat, b: nat, va: nat -> T, vb: nat -> T, s: Sys<T>, e1: seq<Event>, u: Sys<T>,
                 e2: seq<Event>, t: Sys<T>)
    requires SInv(prog, b, va, vb, n, s) && SInv(prog, b, va, vb, n, u)
    requires Leads(prog, n, b, va, vb, s, e1, u) && Leads(prog, n, b, va, vb, u, e2, t)
    ensures Leads(prog, n, b, va, vb, s, e1 + e2, t)
  {
    Joined(prog, n, b, va, vb, s, e1, u, e2);
  }

  // An open end state whose rings have room, or whose slots are half read.
  ghost predicate Roomy<T>(prog: seq<Act>, n: nat, s: Sys<T>) { AtEnd(prog, s) && !NoRoom(n, s) }

  // What the strategy below does next: bring both producers to rest.
  ghost predicate Unrest<T>(prog: seq<Act>, s: Sys<T>, alice: bool) {
    !Flushed(prog, alice, Of(s, alice)) || Of(s, alice).side.prod.Filling?
  }

  lemma SettleStep<T>(prog: seq<Act>, n: nat, b: nat, va: nat -> T, vb: nat -> T, s: Sys<T>, alice: bool)
    returns (e: Event, t: Sys<T>)
    requires SInv(prog, b, va, vb, n, s) && Roomy(prog, n, s) && Unrest(prog, s, alice)
    ensures SInv(prog, b, va, vb, n, t) && Leads(prog, n, b, va, vb, s, [e], t)
             && Left(prog, n, b, t) < Left(prog, n, b, s)
    ensures Roomy(prog, n, t)
  {
    hide SInv, Left, Leads, Roomy;
    if !Flushed(prog, alice, Of(s, alice)) {
      e := Own(alice, Flush);
      t := FlushStep(prog, n, b, va, vb, s, alice);
    } else {
      var m;
      m, t := FillStep(prog, n, b, va, vb, s, alice);
      e := Own(alice, Thread(m));
    }
    StillRoomy(prog, n, s, t, alice);
  }

  lemma FlushStep<T>(prog: seq<Act>, n: nat, b: nat, va: nat -> T, vb: nat -> T, s: Sys<T>, alice: bool)
    returns (t: Sys<T>)
    requires SInv(prog, b, va, vb, n, s) && Roomy(prog, n, s) && !Flushed(prog, alice, Of(s, alice))
    ensures SInv(prog, b, va, vb, n, t) && Leads(prog, n, b, va, vb, s, [Own(alice, Flush)], t)
             && Left(prog, n, b, t) < Left(prog, n, b, s)
    ensures Same(s, t, alice)
  {
    Slots(prog, b, va, vb, n, s, alice);
    hide SInv, Sent, Left, Leads;
    t := OwnStep(prog, n, b, va, vb, s, alice, Flush);
  }

  lemma FillStep<T>(prog: seq<Act>, n: nat, b: nat, va: nat -> T, vb: nat -> T, s: Sys<T>, alice: bool)
    returns (m: Move, t: Sys<T>)
    requires SInv(prog, b, va, vb, n, s) && Roomy(prog, n, s) && Of(s, alice).side.prod.Filling?
    ensures SInv(prog, b, va, vb, n, t) && Leads(prog, n, b, va, vb, s, [Own(alice, Thread(m))], t)
             && Left(prog, n, b, t) < Left(prog, n, b, s)
    ensures Same(s, t, alice)
  {
    hide *;
    m := NextMove(b, Of(s, alice).side);
    FillFits(prog, n, b, va, vb, s, alice);
    t := OwnStep(prog, n, b, va, vb, s, alice, Thread(m));
  }

  // What a producer with a round in hand does next.
  function NextMove<T>(b: nat, s: Side<T>): (m: Move)
    ensures m.Write? || m.Publish?
  {
    if s.prod.Filling? && s.prod.at < b then Write else Publish
  }

  lemma FillFits<T>(prog: seq<Act>, n: nat, b: nat, va: nat -> T, vb: nat -> T, s: Sys<T>, alice: bool)
    requires SInv(prog, b, va, vb, n, s) && Of(s, alice).side.prod.Filling?
    ensures var e := Thread(NextMove(b, Of(s, alice).side));
            CanDo(prog, b, s, Own(alice, e)) && Same(s, Moved(prog, b, va, vb, s, alice, e), alice)
  {
    Slots(prog, b, va, vb, n, s, alice);
    hide SInv, Sent, Start, Next, Busy;
    NextFill(b, if alice then va else vb, Of(s, alice).side, NextMove(b, Of(s, alice).side));
  }

  lemma NextFill<T>(b: nat, vole: nat -> T, s: Side<T>, m: Move)
    requires Shaped(b, s) && Enabled(b, s, m) && (m.Write? || m.Publish?)
    ensures var s' := Next(b, vole, s, m); s'.cons == s.cons && !s'.prod.Asked? && Busy(s') == Busy(s)
  {
  }

  // One party flushed or filled; nothing else changed.
  ghost predicate Same<T>(s: Sys<T>, t: Sys<T>, alice: bool) {
    var p, q := Of(s, alice), Of(t, alice);
    && Of(t, !alice) == Of(s, !alice)
    && q.pc == p.pc && q.side.cons == p.side.cons && q.side.prod.Asked? == p.side.prod.Asked?
    && Busy(q.side) == Busy(p.side)
  }

  lemma StillRoomy<T>(prog: seq<Act>, n: nat, s: Sys<T>, t: Sys<T>, alice: bool)
    requires Roomy(prog, n, s) && Same(s, t, alice)
    ensures Roomy(prog, n, t)
  {
  }

  function Busy<T>(s: Side<T>): nat { s.ring.count + if s.prod.Filling? then 1 else 0 }

  lemma ExchangeStep<T>(prog: seq<Act>, n: nat, b: nat, va: nat -> T, vb: nat -> T, s: Sys<T>) returns (t: Sys<T>)
    requires SInv(prog, b, va, vb, n, s) && Roomy(prog, n, s) && s.a.side.prod.Asked? && s.b.side.prod.Asked?
    ensures SInv(prog, b, va, vb, n, t) && Leads(prog, n, b, va, vb, s, [Exchange], t)
             && Left(prog, n, b, t) < Left(prog, n, b, s)
    ensures Roomy(prog, n, t)
  {
    OneEvent(prog, n, b, va, vb, s, Exchange);
    t := Do(prog, b, va, vb, n, s, Exchange);
    Slots(prog, b, va, vb, n, s, true);
    Slots(prog, b, va, vb, n, s, false);
    hide SInv, Left, Leads, RunFrom, Inv, PInv;
  }

  // With both producers at rest, one asks for a round that the other does not know of.
  lemma RestStrands<T>(prog: seq<Act>, n: nat, b: nat, va: nat -> T, vb: nat -> T, s: Sys<T>)
    returns (events: seq<Event>, t: Sys<T>)
    requires SInv(prog, b, va, vb, n, s) && Roomy(prog, n, s) && !Unrest(prog, s, true) && !Unrest(prog, s, false)
    requires !(s.a.side.prod.Asked? && s.b.side.prod.Asked?)
    ensures Leads(prog, n, b, va, vb, s, events, t) && SInv(prog, b, va, vb, n, t) && Stranded(t)
  {
    NotStopped(prog, b, va, vb, n, s, true);
    NotStopped(prog, b, va, vb, n, s, false);
    if s.a.side.prod.Asked? {
      events, t := OneAsked(prog, n, b, va, vb, s, true);
    } else if s.b.side.prod.Asked? {
      events, t := OneAsked(prog, n, b, va, vb, s, false);
    } else {
      Slots(prog, b, va, vb, n, s, true);
      Slots(prog, b, va, vb, n, s, false);
      var alice := s.a.side.ring.count < n || s.a.side.cons.Draining?;
      assert Of(s, alice).side.ring.count < n || Of(s, alice).side.cons.Draining?;
      events, t := AskAlone(prog, n, b, va, vb, s, alice);
    }
  }

  lemma NotStopped<T>(prog: seq<Act>, b: nat, va: nat -> T, vb: nat -> T, n: nat, s: Sys<T>, alice: bool)
    requires SInv(prog, b, va, vb, n, s) && AtEnd(prog, s)
    ensures !Of(s, alice).side.prod.Stopped?
  {
    hide Holds, IsPrefix, ReadyHeld, Start, Total, Sent, Pos;
  }

  lemma AskAlone<T>(prog: seq<Act>, n: nat, b: nat, va: nat -> T, vb: nat -> T, s: Sys<T>, alice: bool)
    returns (events: seq<Event>, t: Sys<T>)
    requires SInv(prog, b, va, vb, n, s) && AtEnd(prog, s) && Done(prog, s, true) && Done(prog, s, false)
    requires s.a.side.prod.Idle? && s.b.side.prod.Idle?
    requires Of(s, alice).side.ring.count < n || Of(s, alice).side.cons.Draining?
    ensures Leads(prog, n, b, va, vb, s, events, t) && SInv(prog, b, va, vb, n, t) && Stranded(t)
  {
    var u, before := s, [];
    assert Leads(prog, n, b, va, vb, s, [], s);
    hide SInv, Leads, Left;
    if Of(s, alice).side.ring.count >= n {
      u := LeaveSlot(prog, n, b, va, vb, s, alice);
      before := [Own(alice, Thread(Leave))];
    }
    assert Done(prog, u, alice) && Done(prog, u, !alice);
    var v := AskStep(prog, n, b, va, vb, u, alice);
    Chain(prog, n, b, va, vb, s, before, u, [Own(alice, Thread(Ask))], v);
    assert Done(prog, v, alice) && Done(prog, v, !alice);
    var rest;
    rest, t := OneAsked(prog, n, b, va, vb, v, alice);
    Chain(prog, n, b, va, vb, s, before + [Own(alice, Thread(Ask))], v, rest, t);
    events := before + [Own(alice, Thread(Ask))] + rest;
  }

  /** From every end state with room for a round, or with a half-read slot, some schedule strands a
      producer. */
  lemma {:induction false} RoomStrands<T>(prog: seq<Act>, n: nat, b: nat, va: nat -> T, vb: nat -> T, s: Sys<T>)
    returns (events: seq<Event>, t: Sys<T>)
    requires SInv(prog, b, va, vb, n, s) && Roomy(prog, n, s)
    ensures Leads(prog, n, b, va, vb, s, events, t) && SInv(prog, b, va, vb, n, t) && Stranded(t)
    decreases Left(prog, n, b, s)
  {
    hide SInv, Roomy, Unrest, Leads, Left;
    if Unrest(prog, s, true) || Unrest(prog, s, false) || (s.a.side.prod.Asked? && s.b.side.prod.Asked?) {
      var e, u := Exchange, s;
      if Unrest(prog, s, true) {
        e, u := SettleStep(prog, n, b, va, vb, s, true);
      } else if Unrest(prog, s, false) {
        e, u := SettleStep(prog, n, b, va, vb, s, false);
      } else {
        u := ExchangeStep(prog, n, b, va, vb, s);
      }
      LeftNat(prog, n, b, va, vb, u);
      var rest;
      rest, t := RoomStrands(prog, n, b, va, vb, u);
      Chain(prog, n, b, va, vb, s, [e], u, rest, t);
      events := [e] + rest;
    } else {
      events, t := RestStrands(prog, n, b, va, vb, s);
    }
  }

  /** The teardown, exactly: from a state in which both programs are complete, every schedule ends
      with both producer threads stopped if and only if no slot is half read and the rings have no
      room for another round. */
  lemma TeardownExactly<T(!new)>(prog: seq<Act>, n: nat, b: nat, va: nat -> T, vb: nat -> T, s: Sys<T>)
    requires SInv(prog, b, va, vb, n, s) && AtEnd(prog, s)
    ensures AlwaysStops(prog, n, b, va, vb, s) <==> NoRoom(n, s)
  {
    if NoRoom(n, s) {
      NoRoomIsFull(prog, b, va, vb, n, s);
      hide SInv, Full, Leads, Final, BothStopped;
      forall events: seq<Event>, t: Sys<T> | Leads(prog, n, b, va, vb, s, events, t) && Final(prog, b, t)
        ensures BothStopped(t)
      {
        FullStays(prog, n, b, va, vb, s, events, t);
        FullEnds(prog, b, va, vb, n, t);
      }
    } else {
      var events, t := RoomStrands(prog, n, b, va, vb, s);
      var rest, u := RunsOut(prog, n, b, va, vb, t);
      StrandedStays(prog, n, b, va, vb, t, rest, u);
      Chain(prog, n, b, va, vb, s, events, t, rest, u);
      hide SInv, Leads, Final;
      assert !BothStopped(u);
    }
  }

  /** A proof that leaves a slot half read can always strand: whatever end state is reached, if the
      program's draws do not fill whole rounds. */
  lemma UnalignedCanStrand<T(!new)>(prog: seq<Act>, n: nat, b: nat, va: nat -> T, vb: nat -> T, s: Sys<T>)
    requires SInv(prog, b, va, vb, n, s) && AtEnd(prog, s) && forall k :: Total(prog, |prog|) != Start(b, k)
    ensures !AlwaysStops(prog, n, b, va, vb, s)
  {
    TeardownExactly(prog, n, b, va, vb, s);
    hide AlwaysStops, Holds, IsPrefix, ReadyHeld;
    assert Total(prog, |prog|) != Start(b, s.a.side.released);
  }

  // ---- every program has such an end ----

  // Rounds are asked for one at a time, when the consumer waits for them.
  ghost predicate Lazy<T>(prog: seq<Act>, p: Party<T>) {
    var s := p.side;
    && Open(p) && !s.prod.Stopped? && !s.ring.done
    && (s.prod.Asked? || s.prod.Filling? ==> AtDraw(prog, p) && s.cons.Empty? && s.ring.count == 0)
    && (s.prod.Idle? && s.cons.Empty? && s.ring.count > 0 ==> AtDraw(prog, p) && s.ring.count == 1)
    && (s.cons.Draining? ==> s.prod.Idle? && s.ring.count == 1)
  }

  lemma LazyLocal<T>(prog: seq<Act>, b: nat, vole: nat -> T, alice: bool, n: nat, p: Party<T>, q: Party<T>, l: Local)
    requires Shaped(b, p.side) && p.pc <= |prog| && Lazy(prog, p) && Can(prog, b, alice, p, q, l) && MustDo(prog, p, l)
    requires l.Thread? ==> Enabled(b, p.side, l.m) && !Aborts(p.side, l.m)
    ensures Lazy(prog, DoLocal(prog, b, vole, alice, p, l))
  {
    hide Start, Sent;
  }

  lemma LazyKept<T>(prog: seq<Act>, n: nat, b: nat, va: nat -> T, vb: nat -> T, s: Sys<T>, e: Event)
    requires SInv(prog, b, va, vb, n, s) && Lazy(prog, s.a) && Lazy(prog, s.b) && CanDo(prog, b, s, e)
             && Must(prog, s, e)
    ensures var t := Do(prog, b, va, vb, n, s, e); Lazy(prog, t.a) && Lazy(prog, t.b)
  {
    hide Start, Sent, Inv, Can, DoLocal, MustDo;
    if e.Own? {
      var p, q, vole := Of(s, e.alice), Of(s, !e.alice), if e.alice then va else vb;
      Slots(prog, b, va, vb, n, s, e.alice);
      LocalKeeps(prog, b, vole, e.alice, n, p, q, e.l);
      LazyLocal(prog, b, vole, e.alice, n, p, q, e.l);
    }
  }

  lemma {:induction false} ReachesEnd<T>(prog: seq<Act>, n: nat, b: nat, va: nat -> T, vb: nat -> T, s: Sys<T>)
    returns (events: seq<Event>, t: Sys<T>)
    requires SInv(prog, b, va, vb, n, s) && Lazy(prog, s.a) && Lazy(prog, s.b)
    ensures Leads(prog, n, b, va, vb, s, events, t) && SInv(prog, b, va, vb, n, t)
    ensures AtEnd(prog, t) && Lazy(prog, t.a) && Lazy(prog, t.b)
    decreases Left(prog, n, b, s)
  {
    if s.a.pc == s.b.pc == |prog| {
      events, t := [], s;
    } else {
      Slots(prog, b, va, vb, n, s, true);
      Slots(prog, b, va, vb, n, s, false);
      NeverStuck(prog, b, va, vb, n, s);
      hide SInv, Lazy, Leads, Left, Must, CanDo, Do;
      var e :| Must(prog, s, e) && CanDo(prog, b, s, e);
      OneEvent(prog, n, b, va, vb, s, e);
      LazyKept(prog, n, b, va, vb, s, e);
      var u := Do(prog, b, va, vb, n, s, e);
      LeftNat(prog, n, b, va, vb, u);
      var rest;
      rest, t := ReachesEnd(prog, n, b, va, vb, u);
      Chain(prog, n, b, va, vb, s, [e], u, rest, t);
      events := [e] + rest;
    }
  }

  /** For every program, every number of slots and every size of rounds, some run completes both
      programs and leaves one producer waiting for a round that the other never joins. */
  lemma SomeRunStrands<T>(prog: seq<Act>, n: nat, b: nat, va: nat -> T, vb: nat -> T, blank: T)
    returns (events: seq<Event>, t: Sys<T>)
    requires 1 <= n && 1 <= b
    ensures RunBoth(prog, n, b, va, vb, blank, events) == Some(t) && Stranded(t)
    ensures t.a.pc == t.b.pc == |prog|
  {
    var s := InitSys(prog, n, b, va, vb, blank);
    var e1, u := ReachesEnd(prog, n, b, va, vb, s);
    assert Roomy(prog, n, u);
    var e2;
    e2, t := RoomStrands(prog, n, b, va, vb, u);
    Chain(prog, n, b, va, vb, s, e1, u, e2, t);
    events := e1 + e2;
  }
}
