/** Messages between the two parties. In every run nothing is received before its sender flushed it,
    and it is the flushes that let programs with messages complete: without them every run stops
    short. */
module PipeMessages {
  import opened Options
  import opened PipeRing
  import opened PipeParties

  // The messages to a party among the first k actions.
  function MessagesTo(prog: seq<Act>, alice: bool, k: nat): set<nat>
    requires k <= |prog|
  {
    set i: nat | i < k && Sends(!alice, prog[i])
  }

  lemma {:induction false} CountIsSent(prog: seq<Act>, alice: bool, k: nat)
    requires k <= |prog|
    ensures |MessagesTo(prog, alice, k)| == Sent(prog, !alice, k)
  {
    hide MessagesTo;
    if k == 0 { NoMessages(prog, alice); } else {
      CountIsSent(prog, alice, k - 1);
      NextMessage(prog, alice, k - 1);
    }
  }

  lemma NoMessages(prog: seq<Act>, alice: bool)
    ensures MessagesTo(prog, alice, 0) == {}
  {
  }

  lemma NextMessage(prog: seq<Act>, alice: bool, k: nat)
    requires k < |prog|
    ensures var was := MessagesTo(prog, alice, k);
            |MessagesTo(prog, alice, k + 1)| == |was| + if Sends(!alice, prog[k]) then 1 else 0
  {
    var was := MessagesTo(prog, alice, k);
    assert MessagesTo(prog, alice, k + 1) == if Sends(!alice, prog[k]) then was + {k} else was;
    assert k !in was;
    hide MessagesTo;
    assert |was + {k}| == |was| + 1;
  }

  // The messages p has received, q had flushed before, and those q has sent before that.
  ghost predicate InOrder<T>(prog: seq<Act>, alice: bool, p: Party<T>, q: Party<T>) {
    && p.pc <= |prog| && q.pc <= |prog|
    && |MessagesTo(prog, alice, p.pc)| <= q.flushed <= |MessagesTo(prog, alice, q.pc)|
  }

  lemma InitInOrder<T>(prog: seq<Act>, alice: bool, n: nat, b: nat, blank: T)
    ensures InOrder(prog, alice, InitParty(n, b, blank), InitParty(n, b, blank))
  {
    CountIsSent(prog, alice, 0);
  }

  // A step of the receiver, and a step of the sender.
  lemma ReceiverStep<T>(prog: seq<Act>, b: nat, vole: nat -> T, alice: bool, n: nat, p: Party<T>, q: Party<T>, l: Local)
    requires PInv(prog, b, vole, alice, n, p) && Can(prog, b, alice, p, q, l) && InOrder(prog, alice, p, q)
    requires l.Thread? ==> Enabled(b, p.side, l.m) && !Aborts(p.side, l.m)
    ensures InOrder(prog, alice, DoLocal(prog, b, vole, alice, p, l), q)
  {
    hide Inv, Next;
    if l.Advance? {
      CountIsSent(prog, alice, p.pc);
      CountIsSent(prog, alice, p.pc + 1);
    }
  }

  lemma SenderStep<T>(prog: seq<Act>, b: nat, vole: nat -> T, alice: bool, n: nat, p: Party<T>, q: Party<T>, l: Local)
    requires PInv(prog, b, vole, alice, n, p) && Can(prog, b, alice, p, q, l) && InOrder(prog, !alice, q, p)
    requires l.Thread? ==> Enabled(b, p.side, l.m) && !Aborts(p.side, l.m)
    ensures InOrder(prog, !alice, q, DoLocal(prog, b, vole, alice, p, l))
  {
    hide Inv, Next;
    CountIsSent(prog, !alice, p.pc);
    if l.Advance? { CountIsSent(prog, !alice, p.pc + 1); }
  }

  ghost predicate BothInOrder<T>(prog: seq<Act>, s: Sys<T>) {
    InOrder(prog, true, s.a, s.b) && InOrder(prog, false, s.b, s.a)
  }

  lemma EventInOrder<T>(prog: seq<Act>, b: nat, va: nat -> T, vb: nat -> T, n: nat, s: Sys<T>, e: Event)
    requires SInv(prog, b, va, vb, n, s) && CanDo(prog, b, s, e) && BothInOrder(prog, s)
    ensures BothInOrder(prog, Do(prog, b, va, vb, n, s, e))
  {
    hide PInv, Can, DoLocal, Next, MessagesTo;
    match e
    case Exchange =>
    case Own(alice, l) =>
      if alice {
        LocalKeeps(prog, b, va, true, n, s.a, s.b, l);
        ReceiverStep(prog, b, va, true, n, s.a, s.b, l);
        SenderStep(prog, b, va, true, n, s.a, s.b, l);
      } else {
        LocalKeeps(prog, b, vb, false, n, s.b, s.a, l);
        ReceiverStep(prog, b, vb, false, n, s.b, s.a, l);
        SenderStep(prog, b, vb, false, n, s.b, s.a, l);
      }
  }

  /** In every reachable state each party has received no more messages than the other has flushed,
      and flushed no more than it has sent: nothing arrives before it was sent. */
  lemma {:induction false} NothingArrivesEarly<T>(prog: seq<Act>, n: nat, b: nat, va: nat -> T, vb: nat -> T, blank: T,
                                                  events: seq<Event>, s: Sys<T>)
    requires 1 <= n && 1 <= b && RunBoth(prog, n, b, va, vb, blank, events) == Some(s)
    ensures InOrder(prog, true, s.a, s.b) && InOrder(prog, false, s.b, s.a)
    decreases |events|
  {
    hide SInv, CanDo, Do, InOrder, Work;
    if events == [] {
      InitInOrder(prog, true, n, b, blank);
      InitInOrder(prog, false, n, b, blank);
    } else {
      var k := |events| - 1;
      var t := RunFrom(prog, n, b, va, vb, InitSys(prog, n, b, va, vb, blank), events[..k]).value;
      NothingArrivesEarly(prog, n, b, va, vb, blank, events[..k], t);
      EventInOrder(prog, b, va, vb, n, t, events[k]);
    }
  }

  /** A consumer that takes a slot, for which it may have had to wait, had flushed all it has sent; so
      had one that lets go of its slot at teardown or closes the pipe, with its program complete. */
  lemma FlushedBefore<T>(prog: seq<Act>, n: nat, b: nat, va: nat -> T, vb: nat -> T, blank: T, events: seq<Event>,
                         alice: bool, m: Move)
    requires 1 <= n && 1 <= b && RunBoth(prog, n, b, va, vb, blank, events).Some?
    requires m.Acquire? || m.Leave? || m.Close?
    requires RunBoth(prog, n, b, va, vb, blank, events + [Own(alice, Thread(m))]).Some?
    ensures var s := RunBoth(prog, n, b, va, vb, blank, events).value;
            var p := if alice then s.a else s.b;
            && p.pc <= |prog| && p.flushed == |MessagesTo(prog, !alice, p.pc)|
            && (m.Leave? || m.Close? ==> p.pc == |prog|)
  {
    var e := Own(alice, Thread(m));
    var s := RunBoth(prog, n, b, va, vb, blank, events).value;
    assert (events + [e])[..|events|] == events;
    assert CanDo(prog, b, s, e);
    NothingArrivesEarly(prog, n, b, va, vb, blank, events, s);
    CountIsSent(prog, !alice, if alice then s.a.pc else s.b.pc);
    hide MessagesTo, RunFrom, PInv, Do, Work;
  }

  /** The buffers of the sockets may spill at any time: in every reachable state in which a party has
      sent more than it flushed, all of it may reach the other. */
  lemma MaySpill<T>(prog: seq<Act>, n: nat, b: nat, va: nat -> T, vb: nat -> T, blank: T, events: seq<Event>,
                    alice: bool, s: Sys<T>)
    requires 1 <= n && 1 <= b && RunBoth(prog, n, b, va, vb, blank, events) == Some(s)
    requires var p := if alice then s.a else s.b; p.pc <= |prog| && p.flushed < |MessagesTo(prog, !alice, p.pc)|
    ensures var r := RunBoth(prog, n, b, va, vb, blank, events + [Own(alice, Spill)]);
            && r.Some?
            && var p, q := if alice then s.a else s.b, if alice then r.value.a else r.value.b;
               q.pc == p.pc && q.flushed == |MessagesTo(prog, !alice, p.pc)|
  {
    CountIsSent(prog, !alice, if alice then s.a.pc else s.b.pc);
    var e := Own(alice, Spill);
    assert CanDo(prog, b, s, e);
    OneMoreEvent(prog, n, b, va, vb, blank, events, s, e);
    hide MessagesTo, RunFrom, Work, Inv;
  }

  // ---- slots between draws ----

  // A slot copied to its end is held only within the draw that copied from it.
  ghost predicate LetsGo<T>(prog: seq<Act>, b: nat, p: Party<T>) {
    p.side.cons.Draining? && p.side.cons.off == b ==> p.pc < |prog| && prog[p.pc].Draw? && p.taken > 0
  }

  lemma LocalLetsGo<T>(prog: seq<Act>, b: nat, vole: nat -> T, alice: bool, n: nat, p: Party<T>, q: Party<T>, l: Local)
    requires 1 <= b && PInv(prog, b, vole, alice, n, p) && Can(prog, b, alice, p, q, l) && LetsGo(prog, b, p)
    requires l.Thread? ==> Enabled(b, p.side, l.m) && !Aborts(p.side, l.m)
    ensures LetsGo(prog, b, DoLocal(prog, b, vole, alice, p, l))
  {
    hide Inv, Start, Total, Sent;
  }

  lemma EventLetsGo<T>(prog: seq<Act>, b: nat, va: nat -> T, vb: nat -> T, n: nat, s: Sys<T>, e: Event)
    requires 1 <= b && SInv(prog, b, va, vb, n, s) && CanDo(prog, b, s, e)
    requires LetsGo(prog, b, s.a) && LetsGo(prog, b, s.b)
    ensures var t := Do(prog, b, va, vb, n, s, e); LetsGo(prog, b, t.a) && LetsGo(prog, b, t.b)
  {
    hide PInv, Can, DoLocal;
    match e
    case Exchange =>
    case Own(alice, l) =>
      if alice {
        LocalKeeps(prog, b, va, true, n, s.a, s.b, l);
        LocalLetsGo(prog, b, va, true, n, s.a, s.b, l);
      } else {
        LocalKeeps(prog, b, vb, false, n, s.b, s.a, l);
        LocalLetsGo(prog, b, vb, false, n, s.b, s.a, l);
      }
  }

  /** In every reachable state a slot copied to its end is released before its draw is over: between
      draws a party holds at most a slot that is read in part. */
  lemma {:induction false} ReleasedInDraw<T>(prog: seq<Act>, n: nat, b: nat, va: nat -> T, vb: nat -> T, blank: T,
                                             events: seq<Event>, s: Sys<T>)
    requires 1 <= n && 1 <= b && RunBoth(prog, n, b, va, vb, blank, events) == Some(s)
    ensures LetsGo(prog, b, s.a) && LetsGo(prog, b, s.b)
    decreases |events|
  {
    hide SInv, CanDo, Do, LetsGo, Work;
    if events == [] {
      StartLetsGo(prog, n, b, blank);
    } else {
      var k := |events| - 1;
      var t := RunFrom(prog, n, b, va, vb, InitSys(prog, n, b, va, vb, blank), events[..k]).value;
      ReleasedInDraw(prog, n, b, va, vb, blank, events[..k], t);
      EventLetsGo(prog, b, va, vb, n, t, events[k]);
    }
  }

  lemma StartLetsGo<T>(prog: seq<Act>, n: nat, b: nat, blank: T)
    ensures LetsGo(prog, b, InitParty(n, b, blank))
  {
  }

  // ---- without flushes ----

  predicate Flushes(e: Event) { e.Own? && (e.l.Flush? || e.l.Spill?) }

  ghost predicate Unflushed(events: seq<Event>) {
    forall i :: 0 <= i < |events| ==> !Flushes(events[i])
  }

  ghost predicate HasMessage(prog: seq<Act>) {
    exists i: nat :: i < |prog| && !prog[i].Draw?
  }

  lemma {:induction false} NothingFlushed<T>(prog: seq<Act>, n: nat, b: nat, va: nat -> T, vb: nat -> T, blank: T,
                                             events: seq<Event>, s: Sys<T>)
    requires 1 <= n && 1 <= b && RunBoth(prog, n, b, va, vb, blank, events) == Some(s) && Unflushed(events)
    ensures s.a.flushed == 0 == s.b.flushed
    decreases |events|
  {
    hide SInv, CanDo, Work, Next;
    if events != [] {
      var k := |events| - 1;
      var t := RunFrom(prog, n, b, va, vb, InitSys(prog, n, b, va, vb, blank), events[..k]).value;
      NothingFlushed(prog, n, b, va, vb, blank, events[..k], t);
      assert !Flushes(events[k]);
    }
  }

  /** Without flushes no run completes a program with a message. */
  lemma NoFlushNoEnd<T>(prog: seq<Act>, n: nat, b: nat, va: nat -> T, vb: nat -> T, blank: T, events: seq<Event>,
                        s: Sys<T>)
    requires 1 <= n && 1 <= b && RunBoth(prog, n, b, va, vb, blank, events) == Some(s)
    requires Unflushed(events) && HasMessage(prog)
    ensures !(s.a.pc == |prog| && s.b.pc == |prog|)
  {
    NothingFlushed(prog, n, b, va, vb, blank, events, s);
    NothingArrivesEarly(prog, n, b, va, vb, blank, events, s);
    hide InOrder, MessagesTo, RunBoth;
    SomeMessage(prog);
    assert InOrder(prog, true, s.a, s.b) && InOrder(prog, false, s.b, s.a);
    InOrderCounts(prog, true, s.a, s.b);
    InOrderCounts(prog, false, s.b, s.a);
  }

  lemma SomeMessage(prog: seq<Act>)
    requires HasMessage(prog)
    ensures MessagesTo(prog, true, |prog|) != {} || MessagesTo(prog, false, |prog|) != {}
  {
    var i: nat :| i < |prog| && !prog[i].Draw?;
    assert i in MessagesTo(prog, prog[i].ToAlice?, |prog|);
  }

  lemma InOrderCounts<T>(prog: seq<Act>, alice: bool, p: Party<T>, q: Party<T>)
    requires InOrder(prog, alice, p, q) && q.flushed == 0
    ensures p.pc <= |prog| && MessagesTo(prog, alice, p.pc) == {}
  {
  }

  /** And every such run can be extended to one that is stuck: nothing but a flush is possible, and
      the program is not complete. */
  lemma {:induction false} StuckWithoutFlush<T>(prog: seq<Act>, n: nat, b: nat, va: nat -> T, vb: nat -> T, blank: T,
                                                events: seq<Event>)
    returns (more: seq<Event>, s: Sys<T>)
    requires 1 <= n && 1 <= b && HasMessage(prog) && Unflushed(events)
    requires RunBoth(prog, n, b, va, vb, blank, events).Some?
    ensures Unflushed(events + more) && RunBoth(prog, n, b, va, vb, blank, events + more) == Some(s)
    ensures !(s.a.pc == |prog| && s.b.pc == |prog|) && forall e :: CanDo(prog, b, s, e) ==> Flushes(e)
    decreases 2 * Limit(prog, n, b) - |events|
  {
    hide SInv, CanDo, Do, Work, Limit;
    var t := RunBoth(prog, n, b, va, vb, blank, events).value;
    EveryRunCompletes(prog, n, b, va, vb, blank, events, t);
    if e :| CanDo(prog, b, t, e) && !Flushes(e) {
      OneMoreEvent(prog, n, b, va, vb, blank, events, t, e);
      EveryRunCompletes(prog, n, b, va, vb, blank, events + [e], Do(prog, b, va, vb, n, t, e));
      var rest;
      rest, s := StuckWithoutFlush(prog, n, b, va, vb, blank, events + [e]);
      more := [e] + rest;
      assert events + more == events + [e] + rest;
    } else {
      more, s := [], t;
      assert events + more == events;
      NoFlushNoEnd(prog, n, b, va, vb, blank, events, t);
    }
  }

  lemma OneMoreEvent<T>(prog: seq<Act>, n: nat, b: nat, va: nat -> T, vb: nat -> T, blank: T, events: seq<Event>,
                        t: Sys<T>, e: Event)
    requires 1 <= n && 1 <= b && RunBoth(prog, n, b, va, vb, blank, events) == Some(t)
    requires SInv(prog, b, va, vb, n, t) && CanDo(prog, b, t, e)
    ensures RunBoth(prog, n, b, va, vb, blank, events + [e]) == Some(Do(prog, b, va, vb, n, t, e))
  {
    hide SInv, CanDo, Do, Work;
    assert (events + [e])[..|events|] == events;
  }
}
