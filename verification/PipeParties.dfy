/** Two parties, each with its own pipe, that run the same program of draws and messages. A round of
    the generator completes only when both producers take part in it; a message arrives only after
    its sender flushed. Every interleaving of the four threads ends with both programs complete. */
module PipeParties {
  import opened Options
  import opened PipeRing

  datatype Act = Draw(n: nat) | ToBob | ToAlice

  // `taken` of the current draw is done; the peer can see the first `flushed` messages.
  datatype Party<T> = Party(side: Side<T>, pc: nat, taken: nat, flushed: nat)

  datatype Local = Thread(m: Move) | Flush | Spill | Advance

  datatype Event = Exchange | Own(alice: bool, l: Local)

  datatype Sys<T> = Sys(a: Party<T>, b: Party<T>)

  predicate Sends(alice: bool, g: Act) { if alice then g.ToBob? else g.ToAlice? }

  // Messages that the party sends in the first k actions.
  function Sent(prog: seq<Act>, alice: bool, k: nat): (r: nat)
    requires k <= |prog|
    ensures r <= k
  {
    if k == 0 then 0 else Sent(prog, alice, k - 1) + if Sends(alice, prog[k - 1]) then 1 else 0
  }

  // Correlations drawn in the first k actions.
  function Total(prog: seq<Act>, k: nat): nat
    requires k <= |prog|
  {
    if k == 0 then 0 else Total(prog, k - 1) + if prog[k - 1].Draw? then prog[k - 1].n else 0
  }

  // ---- one party ----

  predicate AtDraw<T>(prog: seq<Act>, p: Party<T>) {
    p.pc < |prog| && prog[p.pc].Draw? && p.taken < prog[p.pc].n
  }

  predicate AtReceive<T>(prog: seq<Act>, alice: bool, p: Party<T>) {
    p.pc < |prog| && Sends(!alice, prog[p.pc])
  }

  // What the party sent has left its buffer.
  predicate Flushed<T>(prog: seq<Act>, alice: bool, p: Party<T>) {
    p.pc <= |prog| && Sent(prog, alice, p.pc) <= p.flushed
  }

  // The consumer is about to wait: for a slot, for a message, or for good.
  predicate AboutToWait<T>(prog: seq<Act>, alice: bool, p: Party<T>) {
    AtReceive(prog, alice, p) || p.pc == |prog| || (AtDraw(prog, p) && p.side.cons.Empty?)
  }

  predicate CanThread<T>(prog: seq<Act>, b: nat, alice: bool, p: Party<T>, m: Move) {
    && Enabled(b, p.side, m)
    && match m
       case Acquire => AtDraw(prog, p) && Flushed(prog, alice, p)
       case Copy => AtDraw(prog, p)
       case Leave => p.pc == |prog| && Flushed(prog, alice, p)
       case Close => p.pc == |prog| && Flushed(prog, alice, p)
       case Grant => false
       case _ => true
  }

  predicate CanAdvance<T>(prog: seq<Act>, b: nat, alice: bool, p: Party<T>, q: Party<T>) {
    && p.pc < |prog|
    && match prog[p.pc]
       case Draw(n) => p.taken == n && !(p.side.cons.Draining? && p.side.cons.off == b)
       case _ => Sends(alice, prog[p.pc]) || Sent(prog, !alice, p.pc) < q.flushed
  }

  predicate Can<T>(prog: seq<Act>, b: nat, alice: bool, p: Party<T>, q: Party<T>, l: Local) {
    match l
    case Thread(m) => CanThread(prog, b, alice, p, m)
    case Flush => AboutToWait(prog, alice, p) && !Flushed(prog, alice, p)
    case Spill => p.pc <= |prog| && p.flushed < Sent(prog, alice, p.pc)
    case Advance => CanAdvance(prog, b, alice, p, q)
  }

  function DoLocal<T>(prog: seq<Act>, b: nat, vole: nat -> T, alice: bool, p: Party<T>, l: Local): Party<T>
    requires Shaped(b, p.side) && p.pc <= |prog|
    requires l.Thread? ==> Enabled(b, p.side, l.m) && !Aborts(p.side, l.m)
  {
    match l
    case Thread(m) => p.(side := Next(b, vole, p.side, m), taken := p.taken + if m.Copy? then 1 else 0)
    case Flush => p.(flushed := Sent(prog, alice, p.pc))
    case Spill => p.(flushed := Sent(prog, alice, p.pc))
    case Advance => p.(pc := p.pc + 1, taken := 0)
  }

  ghost predicate PInv<T>(prog: seq<Act>, b: nat, vole: nat -> T, alice: bool, n: nat, p: Party<T>) {
    && Inv(b, vole, p.side) && |p.side.ring.slots| == n && p.pc <= |prog|
    && |p.side.drawn| == Total(prog, p.pc) + p.taken
    && (p.taken > 0 ==> p.pc < |prog| && prog[p.pc].Draw? && p.taken <= prog[p.pc].n)
    && p.flushed <= Sent(prog, alice, p.pc)
    && (p.side.cons.Closed? || p.side.cons.Leaving? ==> p.pc == |prog|)
  }

  lemma LocalKeeps<T>(prog: seq<Act>, b: nat, vole: nat -> T, alice: bool, n: nat, p: Party<T>, q: Party<T>, l: Local)
    requires PInv(prog, b, vole, alice, n, p) && Can(prog, b, alice, p, q, l)
    ensures l.Thread? ==> Enabled(b, p.side, l.m) && !Aborts(p.side, l.m)
    ensures var p' := DoLocal(prog, b, vole, alice, p, l);
            PInv(prog, b, vole, alice, n, p') && Granted(p'.side) == Granted(p.side) && Work(b, p) < Work(b, p')
  {
    hide Inv, Work, Granted, Next, Can;
    if l.Thread? {
      CanThreads(prog, b, alice, p, q, l.m);
      MoveKeeps(b, vole, p.side, l.m);
      ThreadWorks(prog, b, vole, alice, n, p, l.m);
    } else {
      OtherWorks(prog, b, vole, alice, n, p, q, l);
    }
  }

  lemma CanThreads<T>(prog: seq<Act>, b: nat, alice: bool, p: Party<T>, q: Party<T>, m: Move)
    requires Can(prog, b, alice, p, q, Thread(m))
    ensures CanThread(prog, b, alice, p, m)
  {
  }

  lemma ThreadWorks<T>(prog: seq<Act>, b: nat, vole: nat -> T, alice: bool, n: nat, p: Party<T>, m: Move)
    requires PInv(prog, b, vole, alice, n, p) && CanThread(prog, b, alice, p, m) && !Aborts(p.side, m)
    requires Inv(b, vole, Next(b, vole, p.side, m))
    ensures var p' := DoLocal(prog, b, vole, alice, p, Thread(m));
            PInv(prog, b, vole, alice, n, p') && Granted(p'.side) == Granted(p.side) && Work(b, p) < Work(b, p')
  {
    hide Holds, IsPrefix, ReadyHeld, Pos, Sent, Total;
  }

  lemma OtherWorks<T>(prog: seq<Act>, b: nat, vole: nat -> T, alice: bool, n: nat, p: Party<T>, q: Party<T>, l: Local)
    requires PInv(prog, b, vole, alice, n, p) && Can(prog, b, alice, p, q, l) && !l.Thread?
    ensures var p' := DoLocal(prog, b, vole, alice, p, l);
            PInv(prog, b, vole, alice, n, p') && Granted(p'.side) == Granted(p.side) && Work(b, p) < Work(b, p')
  {
    hide Inv;
    if l.Advance? { SentMonotone(prog, alice, p.pc, p.pc + 1); }
  }

  // Rounds of the generator the producer has taken part in.
  function Granted<T>(s: Side<T>): nat {
    s.published + if s.prod.Filling? then 1 else 0
  }

  // Everything that ever happened at the party, counted.
  function Work<T>(b: nat, p: Party<T>): nat {
    var s := p.side;
    p.pc + |s.drawn| + p.flushed
    + s.released + s.released + (if s.cons.Draining? || s.cons.Closed? then 1 else 0)
    + s.published + Granted(s) + (s.published + if s.prod.Idle? then 0 else 1)
    + (Start(b, s.published) + if s.prod.Filling? then s.prod.at else 0)
  }

  // ---- both parties ----

  predicate CanDo<T>(prog: seq<Act>, b: nat, s: Sys<T>, e: Event) {
    match e
    case Exchange => s.a.side.prod.Asked? && s.b.side.prod.Asked?
    case Own(alice, l) => if alice then Can(prog, b, true, s.a, s.b, l) else Can(prog, b, false, s.b, s.a, l)
  }

  ghost predicate SInv<T>(prog: seq<Act>, b: nat, va: nat -> T, vb: nat -> T, n: nat, s: Sys<T>) {
    && PInv(prog, b, va, true, n, s.a) && PInv(prog, b, vb, false, n, s.b)
    && Granted(s.a.side) == Granted(s.b.side)
  }

  // The moves of a system whose invariant holds never abort.
  function Do<T>(prog: seq<Act>, b: nat, va: nat -> T, vb: nat -> T, n: nat, s: Sys<T>, e: Event): (s': Sys<T>)
    requires SInv(prog, b, va, vb, n, s) && CanDo(prog, b, s, e)
  {
    match e
    case Exchange =>
      Sys(s.a.(side := Next(b, va, s.a.side, Grant)), s.b.(side := Next(b, vb, s.b.side, Grant)))
    case Own(alice, l) =>
      if alice then
        LocalKeeps(prog, b, va, true, n, s.a, s.b, l);
        s.(a := DoLocal(prog, b, va, true, s.a, l))
      else
        LocalKeeps(prog, b, vb, false, n, s.b, s.a, l);
        s.(b := DoLocal(prog, b, vb, false, s.b, l))
  }

  lemma GrantKeeps<T>(prog: seq<Act>, b: nat, vole: nat -> T, alice: bool, n: nat, p: Party<T>)
    requires PInv(prog, b, vole, alice, n, p) && p.side.prod.Asked?
    ensures var p' := p.(side := Next(b, vole, p.side, Grant));
            PInv(prog, b, vole, alice, n, p') && Granted(p'.side) == Granted(p.side) + 1 && Work(b, p) < Work(b, p')
  {
    MoveKeeps(b, vole, p.side, Grant);
    hide Inv;
  }

  /** Every event keeps the invariant and is progress. */
  lemma EventKeeps<T>(prog: seq<Act>, b: nat, va: nat -> T, vb: nat -> T, n: nat, s: Sys<T>, e: Event)
    requires SInv(prog, b, va, vb, n, s) && CanDo(prog, b, s, e)
    ensures var s' := Do(prog, b, va, vb, n, s, e);
            SInv(prog, b, va, vb, n, s') && Work(b, s.a) + Work(b, s.b) < Work(b, s'.a) + Work(b, s'.b)
  {
    hide PInv, Can, Granted, Work, DoLocal, Next;
    match e
    case Exchange =>
      GrantKeeps(prog, b, va, true, n, s.a);
      GrantKeeps(prog, b, vb, false, n, s.b);
    case Own(alice, l) =>
      if alice {
        LocalKeeps(prog, b, va, true, n, s.a, s.b, l);
      } else {
        LocalKeeps(prog, b, vb, false, n, s.b, s.a, l);
      }
  }

  // ---- no state is stuck ----

  lemma {:induction false} SentMonotone(prog: seq<Act>, alice: bool, i: nat, j: nat)
    requires i <= j <= |prog|
    ensures Sent(prog, alice, i) <= Sent(prog, alice, j)
    ensures i < j && Sends(alice, prog[i]) ==> Sent(prog, alice, i) < Sent(prog, alice, j)
  {
    if i < j { SentMonotone(prog, alice, i, j - 1); }
  }

  lemma {:induction false} TotalMonotone(prog: seq<Act>, i: nat, j: nat)
    requires i <= j <= |prog|
    ensures Total(prog, i) + (if i < j && prog[i].Draw? then prog[i].n else 0) <= Total(prog, j)
  {
    if i < j { TotalMonotone(prog, i, j - 1); }
  }

  // What a party must do to go on: its producer asks only for a round that the consumer waits for,
  // nothing is flushed early, and the pipe is not torn down.
  predicate MustDo<T>(prog: seq<Act>, p: Party<T>, l: Local) {
    match l
    case Thread(m) =>
      (m.Ask? ==> AtDraw(prog, p) && p.side.cons.Empty? && p.side.ring.count == 0) && !m.Leave? && !m.Close?
    case Spill => false
    case _ => true
  }

  predicate Must<T>(prog: seq<Act>, s: Sys<T>, e: Event) {
    e.Own? ==> MustDo(prog, if e.alice then s.a else s.b, e.l)
  }

  // Nothing of that kind is possible.
  ghost predicate Quiet<T>(prog: seq<Act>, b: nat, alice: bool, p: Party<T>, q: Party<T>) {
    forall l :: MustDo(prog, p, l) ==> !Can(prog, b, alice, p, q, l)
  }

  // What a quiet party waits for.
  ghost predicate Waits<T>(prog: seq<Act>, b: nat, alice: bool, p: Party<T>, q: Party<T>) {
    && p.pc <= |prog| && p.flushed == Sent(prog, alice, p.pc)
    && !p.side.prod.Filling?
    && (AtDraw(prog, p) ==> p.side.prod.Asked? && p.side.ring.count == 0 && p.side.cons.Empty?)
    && (AtReceive(prog, alice, p) ==> q.flushed <= Sent(prog, !alice, p.pc))
    && (AtDraw(prog, p) || AtReceive(prog, alice, p) || p.pc == |prog|)
  }

  lemma QuietWaits<T>(prog: seq<Act>, b: nat, vole: nat -> T, alice: bool, n: nat, p: Party<T>, q: Party<T>)
    requires PInv(prog, b, vole, alice, n, p) && Quiet(prog, b, alice, p, q)
    ensures Waits(prog, b, alice, p, q)
  {
    assert Inv(b, vole, p.side);
    hide Holds, IsPrefix, ReadyHeld, Start, Total, Sent;
    assert !Can(prog, b, alice, p, q, Flush) && !Can(prog, b, alice, p, q, Advance);
    assert !Can(prog, b, alice, p, q, Thread(Write)) && !Can(prog, b, alice, p, q, Thread(Publish));
    assert AtDraw(prog, p) && p.side.cons.Empty? && p.side.ring.count == 0 ==> !Can(prog, b, alice, p, q, Thread(Ask));
    assert !Can(prog, b, alice, p, q, Thread(Acquire)) && !Can(prog, b, alice, p, q, Thread(Copy)) && !Can(prog, b,
        alice, p, q, Thread(Release));
  }

  // A party that waits for a slot has drawn everything that any party can have.
  lemma WaiterIsLast<T>(prog: seq<Act>, b: nat, vp: nat -> T, vq: nat -> T, alice: bool, n: nat, p: Party<T>,
                        q: Party<T>)
    requires PInv(prog, b, vp, alice, n, p) && PInv(prog, b, vq, !alice, n, q) && Granted(p.side) == Granted(q.side)
    requires Waits(prog, b, alice, p, q) && Waits(prog, b, !alice, q, p) && AtDraw(prog, p)
    ensures q.pc <= p.pc
  {
    if p.pc < q.pc {
      TotalMonotone(prog, p.pc, q.pc);
      DrawnWithin(b, vq, q.side);
      hide Holds, IsPrefix, ReadyHeld;
    }
  }

  lemma DrawnWithin<T>(b: nat, vole: nat -> T, s: Side<T>)
    requires Inv(b, vole, s)
    ensures |s.drawn| <= Start(b, s.published)
  {
    hide Holds, IsPrefix, ReadyHeld;
    StartMonotone(b, s.released, s.published);
    if s.cons.Draining? { StartMonotone(b, s.released + 1, s.published); }
  }

  lemma {:induction false} StartMonotone(b: nat, i: nat, j: nat)
    requires i <= j
    ensures Start(b, i) <= Start(b, j)
    ensures 1 <= b ==> i <= Start(b, i)
  {
    if i < j { StartMonotone(b, i, j - 1); } else if i > 0 { StartMonotone(b, i - 1, i - 1); }
  }

  // A party that waits for a message is ahead of its sender.
  lemma ReceiverIsAhead<T>(prog: seq<Act>, b: nat, alice: bool, p: Party<T>, q: Party<T>)
    requires Waits(prog, b, alice, p, q) && Waits(prog, b, !alice, q, p) && AtReceive(prog, alice, p)
    ensures q.pc < p.pc
  {
    if p.pc < q.pc { SentMonotone(prog, !alice, p.pc, q.pc); }
  }

  /** No reachable state before the end of both programs is stuck, even if producers ask only for
      what is waited for. */
  lemma NeverStuck<T>(prog: seq<Act>, b: nat, va: nat -> T, vb: nat -> T, n: nat, s: Sys<T>)
    requires SInv(prog, b, va, vb, n, s) && !(s.a.pc == |prog| && s.b.pc == |prog|)
    ensures exists e :: Must(prog, s, e) && CanDo(prog, b, s, e)
  {
    if forall e :: Must(prog, s, e) ==> !CanDo(prog, b, s, e) {
      StuckWaits(prog, b, va, vb, n, s);
      assert !CanDo(prog, b, s, Exchange);
      hide Can, PInv, Sent, Total;
      if AtDraw(prog, s.a) { WaiterIsLast(prog, b, va, vb, true, n, s.a, s.b); }
      if AtDraw(prog, s.b) { WaiterIsLast(prog, b, vb, va, false, n, s.b, s.a); }
      if AtReceive(prog, true, s.a) { ReceiverIsAhead(prog, b, true, s.a, s.b); }
      if AtReceive(prog, false, s.b) { ReceiverIsAhead(prog, b, false, s.b, s.a); }
    }
  }

  lemma StuckWaits<T>(prog: seq<Act>, b: nat, va: nat -> T, vb: nat -> T, n: nat, s: Sys<T>)
    requires SInv(prog, b, va, vb, n, s) && forall e :: Must(prog, s, e) ==> !CanDo(prog, b, s, e)
    ensures Waits(prog, b, true, s.a, s.b) && Waits(prog, b, false, s.b, s.a)
  {
    hide Can, PInv, MustDo;
    assert Quiet(prog, b, true, s.a, s.b) by {
      forall l | MustDo(prog, s.a, l)
        ensures !Can(prog, b, true, s.a, s.b, l)
      {
        assert !CanDo(prog, b, s, Own(true, l));
      }
    }
    assert Quiet(prog, b, false, s.b, s.a) by {
      forall l | MustDo(prog, s.b, l)
        ensures !Can(prog, b, false, s.b, s.a, l)
      {
        assert !CanDo(prog, b, s, Own(false, l));
      }
    }
    QuietWaits(prog, b, va, true, n, s.a, s.b);
    QuietWaits(prog, b, vb, false, n, s.b, s.a);
  }

  // ---- whole runs ----

  function InitParty<T>(n: nat, b: nat, blank: T): Party<T> {
    Party(Init(n, b, blank), 0, 0, 0)
  }

  // Where events lead from s, if each was possible when it happened.
  function RunFrom<T>(prog: seq<Act>, n: nat, b: nat, va: nat -> T, vb: nat -> T, s: Sys<T>,
                      events: seq<Event>): (r: Option<Sys<T>>)
    requires SInv(prog, b, va, vb, n, s)
    ensures r.Some? ==>
      && SInv(prog, b, va, vb, n, r.value)
      && Work(b, s.a) + Work(b, s.b) + |events| <= Work(b, r.value.a) + Work(b, r.value.b)
    decreases |events|
  {
    if events == [] then Some(s)
    else
      var k := |events| - 1;
      var t := RunFrom(prog, n, b, va, vb, s, events[..k]);
      if t.Some? && CanDo(prog, b, t.value, events[k]) then
        EventKeeps(prog, b, va, vb, n, t.value, events[k]);
        Some(Do(prog, b, va, vb, n, t.value, events[k]))
      else None
  }

  function InitSys<T>(prog: seq<Act>, n: nat, b: nat, va: nat -> T, vb: nat -> T, blank: T): (s: Sys<T>)
    requires 1 <= n && 1 <= b
    ensures SInv(prog, b, va, vb, n, s)
  {
    InitInv(n, b, va, blank);
    InitInv(n, b, vb, blank);
    Sys(InitParty(n, b, blank), InitParty(n, b, blank))
  }

  function RunBoth<T>(prog: seq<Act>, n: nat, b: nat, va: nat -> T, vb: nat -> T, blank: T,
                      events: seq<Event>): (r: Option<Sys<T>>)
    requires 1 <= n && 1 <= b
    ensures r.Some? ==> SInv(prog, b, va, vb, n, r.value) && |events| <= Work(b, r.value.a) + Work(b, r.value.b)
  {
    RunFrom(prog, n, b, va, vb, InitSys(prog, n, b, va, vb, blank), events)
  }

  // More than the work of any run: D correlations, L actions, n slots of b.
  function Limit(prog: seq<Act>, n: nat, b: nat): nat {
    var d := Total(prog, |prog|) + n + 1;
    2 * |prog| + 8 * d + Start(b, d)
  }

  lemma SideWithin<T>(b: nat, vole: nat -> T, s: Side<T>, n: nat, d: nat)
    requires Inv(b, vole, s) && |s.ring.slots| == n && |s.drawn| + n + 1 <= d
    ensures s.released <= d && Granted(s) <= d && s.published <= d
    ensures Start(b, s.published) + (if s.prod.Filling? then s.prod.at else 0) <= Start(b, d)
  {
    hide Holds, IsPrefix, ReadyHeld;
    StartMonotone(b, s.released, s.released);
    if s.released > 0 { StartMonotone(b, s.released - 1, s.released - 1); }
    StartMonotone(b, s.published, d);
    if s.prod.Filling? { StartMonotone(b, s.published + 1, d); }
  }

  lemma WorkWithin<T>(prog: seq<Act>, b: nat, vole: nat -> T, alice: bool, n: nat, p: Party<T>)
    requires PInv(prog, b, vole, alice, n, p)
    ensures Work(b, p) <= Limit(prog, n, b)
  {
    hide Inv, Sent, Total, Start;
    TotalMonotone(prog, p.pc, |prog|);
    TakenWithin(prog, b, vole, alice, n, p);
    SideWithin(b, vole, p.side, n, Total(prog, |prog|) + n + 1);
  }

  lemma TakenWithin<T>(prog: seq<Act>, b: nat, vole: nat -> T, alice: bool, n: nat, p: Party<T>)
    requires PInv(prog, b, vole, alice, n, p)
    ensures |p.side.drawn| <= Total(prog, |prog|)
  {
    hide Inv;
    TotalMonotone(prog, p.pc, |prog|);
  }

  /** Every run is finite, and a run that cannot go on has completed both programs: however the four
      threads are scheduled, both parties finish, each having drawn a prefix of its own stream. */
  lemma EveryRunCompletes<T>(prog: seq<Act>, n: nat, b: nat, va: nat -> T, vb: nat -> T, blank: T, events: seq<Event>,
                             s: Sys<T>)
    requires 1 <= n && 1 <= b && RunBoth(prog, n, b, va, vb, blank, events) == Some(s)
    ensures |events| <= 2 * Limit(prog, n, b)
    ensures (s.a.pc == |prog| && s.b.pc == |prog|) || exists e :: Must(prog, s, e) && CanDo(prog, b, s, e)
    ensures IsPrefix(va, s.a.side.drawn) && IsPrefix(vb, s.b.side.drawn)
    ensures s.a.pc == |prog| && s.b.pc == |prog| ==> |s.a.side.drawn| == |s.b.side.drawn| == Total(prog, |prog|)
  {
    assert SInv(prog, b, va, vb, n, s);
    WorkWithin(prog, b, va, true, n, s.a);
    WorkWithin(prog, b, vb, false, n, s.b);
    if !(s.a.pc == |prog| && s.b.pc == |prog|) { NeverStuck(prog, b, va, vb, n, s); }
  }
}
