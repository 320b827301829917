/** The bounded ring between the producer thread, which runs the correlation generator, and the
    consumer thread, which draws from it. Every step of either thread, down to the writing and the
    copying of one correlation, is a move; a run is any interleaving of moves. */
module PipeRing {
  import opened Options

  // ---- the ring: what one acquisition of the mutex reads or changes ----

  datatype Ring<T> = Ring(slots: seq<seq<T>>, head: nat, tail: nat, count: nat, done: bool, producerDone: bool)
  {
    // The producer's wait is over.
    predicate FreeOrDone() { count < |slots| || done }

    // The consumer's wait is over.
    predicate ReadyOrDone() { count > 0 || producerDone || done }

    function Publish(): Ring<T>
      requires slots != []
    {
      this.(tail := (tail + 1) % |slots|, count := count + 1)
    }

    function Release(): Ring<T>
      requires slots != [] && count > 0
    {
      this.(head := (head + 1) % |slots|, count := count - 1)
    }

    function Finish(): Ring<T> { this.(done := true) }

    function MarkProducerDone(): Ring<T> { this.(producerDone := true) }

    function AcquireReady(): int { if count > 0 then head else -1 }

    // Head, count and tail fit together.
    ghost predicate Ordered() { head < |slots| && count <= |slots| && tail == Pos(this, count) }

    // The rounds waiting to be drawn, oldest first.
    ghost function Queue(): (q: seq<seq<T>>)
      requires Ordered()
      ensures |q| == count
    {
      seq(count, j requires 0 <= j < count => slots[Pos(this, j)])
    }
  }

  // ---- the two threads ----

  // A producer waits, has asked the peer for a round, copies the round out, or has stopped.
  datatype Producer = Idle | Asked(slot: nat) | Filling(slot: nat, at: nat) | Stopped

  // A consumer drains no slot, or one; at teardown it lets go of its slot and then finishes the pipe.
  datatype Consumer = Empty | Draining(slot: nat, off: nat) | Leaving | Closed

  // `published` and `released` count slots, `drawn` is everything ever copied out.
  datatype Side<T> = Side(ring: Ring<T>, prod: Producer, cons: Consumer, published: nat, released: nat, drawn: seq<T>)

  datatype Move = Ask | Grant | Write | Publish | Acquire | Copy | Release | Leave | Close

  predicate Enabled<T>(b: nat, s: Side<T>, m: Move) {
    match m
    case Ask => s.prod.Idle? && s.ring.FreeOrDone()
    case Grant => s.prod.Asked?
    case Write => s.prod.Filling? && s.prod.at < b
    case Publish => s.prod.Filling? && s.prod.at == b
    case Acquire => s.cons.Empty? && s.ring.ReadyOrDone()
    case Copy => s.cons.Draining? && s.cons.off < b
    case Release => s.cons.Draining? && s.cons.off == b
    case Leave => s.cons.Draining?
    case Close => s.cons.Empty? || s.cons.Leaving?
  }

  // The first position of round k in the generator's stream.
  function Start(b: nat, k: nat): nat {
    if k == 0 then 0 else Start(b, k - 1) + b
  }

  ghost predicate Shaped<T>(b: nat, s: Side<T>) {
    var r := s.ring;
    && 1 <= |r.slots| && 1 <= b && (forall i :: 0 <= i < |r.slots| ==> |r.slots[i]| == b)
    && r.head < |r.slots| && r.tail < |r.slots|
    && (s.prod.Asked? ==> s.prod.slot < |r.slots|) && (s.prod.Filling? ==> s.prod.slot < |r.slots| && s.prod.at <= b)
    && (s.cons.Draining? ==> s.cons.slot < |r.slots| && s.cons.off <= b && r.count > 0)
  }

  // A pipe that closed during a draw is an error: the code aborts.
  predicate Aborts<T>(s: Side<T>, m: Move) {
    m.Acquire? && s.ring.count == 0
  }

  function Next<T>(b: nat, vole: nat -> T, s: Side<T>, m: Move): (s': Side<T>)
    requires Shaped(b, s) && Enabled(b, s, m) && !Aborts(s, m)
  {
    match m
    case Ask => s.(prod := if s.ring.done then Stopped else Asked(s.ring.tail))
    case Grant => s.(prod := Filling(s.prod.slot, 0))
    case Write =>
      var row := s.ring.slots[s.prod.slot];
      var next := row[s.prod.at := vole(Start(b, s.published) + s.prod.at)];
      s.(ring := s.ring.(slots := s.ring.slots[s.prod.slot := next]),
         prod := Filling(s.prod.slot, s.prod.at + 1))
    case Publish => s.(ring := s.ring.Publish(), prod := Idle, published := s.published + 1)
    case Acquire => s.(cons := Draining(s.ring.head, 0))
    case Copy =>
      s.(drawn := s.drawn + [s.ring.slots[s.cons.slot][s.cons.off]], cons := Draining(s.cons.slot, s.cons.off + 1))
    case Release => s.(ring := s.ring.Release(), cons := Empty, released := s.released + 1)
    case Leave => s.(ring := s.ring.Release(), cons := Leaving, released := s.released + 1)
    case Close => s.(ring := s.ring.Finish(), cons := Closed)
  }

  function Init<T>(n: nat, b: nat, blank: T): Side<T> {
    Side(Ring(seq(n, _ => seq(b, _ => blank)), 0, 0, 0, false, false), Idle, Empty, 0, 0, [])
  }

  // ---- the invariant ----

  // The slot of the j-th unread batch.
  function Pos<T>(r: Ring<T>, j: nat): int {
    if r.head + j < |r.slots| then r.head + j else r.head + j - |r.slots|
  }

  // The first n places of a slot hold round k.
  ghost predicate Holds<T>(b: nat, vole: nat -> T, row: seq<T>, k: nat, n: nat) {
    |row| == b && n <= b && forall i :: 0 <= i < n ==> row[i] == vole(Start(b, k) + i)
  }

  ghost predicate IsPrefix<T>(vole: nat -> T, drawn: seq<T>) {
    forall i :: 0 <= i < |drawn| ==> drawn[i] == vole(i)
  }

  ghost predicate ReadyHeld<T>(b: nat, vole: nat -> T, s: Side<T>)
    requires s.ring.count <= |s.ring.slots| && s.ring.head < |s.ring.slots|
  {
    forall j :: 0 <= j < s.ring.count ==> Holds(b, vole, s.ring.slots[Pos(s.ring, j)], s.released + j, b)
  }

  ghost predicate Inv<T>(b: nat, vole: nat -> T, s: Side<T>) {
    var r := s.ring;
    && Shaped(b, s)
    && r.count <= |r.slots| && s.published == s.released + r.count && r.tail == Pos(r, r.count)
    && ReadyHeld(b, vole, s)
    && (s.prod.Asked? || s.prod.Filling? ==> s.prod.slot == r.tail && r.count < |r.slots|)
    && (s.prod.Filling? ==> Holds(b, vole, r.slots[s.prod.slot], s.published, s.prod.at))
    && (s.cons.Draining? ==> s.cons.slot == r.head)
    && (r.done <==> s.cons.Closed?) && !r.producerDone && (s.prod.Stopped? ==> r.done)
    && (s.cons.Closed? || s.cons.Leaving? ==> |s.drawn| <= Start(b, s.released) <= |s.drawn| + b)
    && (s.cons.Empty? ==> |s.drawn| == Start(b, s.released))
    && (s.cons.Draining? ==> |s.drawn| == Start(b, s.released) + s.cons.off)
    && IsPrefix(vole, s.drawn)
  }

  lemma InitInv<T>(n: nat, b: nat, vole: nat -> T, blank: T)
    requires 1 <= n && 1 <= b
    ensures Inv(b, vole, Init(n, b, blank))
  {
  }

  lemma NextIndex(i: nat, n: nat)
    requires i < n
    ensures (i + 1) % n == if i + 1 == n then 0 else i + 1
  {
    if i + 1 == n { assert n % n == 0; } else { assert (i + 1) % n == i + 1; }
  }

  /** The ring is a queue: publishing appends what the tail slot holds ... */
  lemma PublishAppends<T>(r: Ring<T>)
    requires r.Ordered() && r.count < |r.slots|
    ensures r.Publish().Ordered() && r.Publish().Queue() == r.Queue() + [r.slots[r.tail]]
  {
    NextIndex(r.tail, |r.slots|);
    forall j | 0 <= j < r.count + 1 ensures r.Publish().Queue()[j] == (r.Queue() + [r.slots[r.tail]])[j] {
      assert Pos(r.Publish(), j) == Pos(r, j);
    }
  }

  /** ... and releasing drops the oldest round. */
  lemma ReleaseDrops<T>(r: Ring<T>)
    requires r.Ordered() && r.count > 0
    ensures r.Release().Ordered() && r.Release().Queue() == r.Queue()[1..]
  {
    NextIndex(r.head, |r.slots|);
    forall j | 0 <= j < r.count - 1 ensures r.Release().Queue()[j] == r.Queue()[1..][j] {
      assert Pos(r.Release(), j) == Pos(r, j + 1);
    }
  }

  /** A ring that is finished before its producer ends the consumer's wait with -1 exactly when it is
      empty; the ring finished at the start is one. */
  lemma FinishEndsEmptyRing<T>(r: Ring<T>, n: nat, b: nat, blank: T)
    requires r.ReadyOrDone() && !r.producerDone
    ensures r.AcquireReady() == -1 <==> r.done && r.count == 0
    ensures var s := Init(n, b, blank).ring.Finish(); s.ReadyOrDone() && !s.producerDone && s.AcquireReady() == -1
  {
  }

  // The slot being filled is none of those waiting to be read.
  lemma TailApart<T>(r: Ring<T>, j: nat)
    requires r.head < |r.slots| && j < r.count < |r.slots| && r.tail == Pos(r, r.count)
    ensures r.tail != Pos(r, j)
  {
  }

  lemma WriteKeeps<T>(b: nat, vole: nat -> T, s: Side<T>)
    requires Inv(b, vole, s) && Enabled(b, s, Move.Write)
    ensures Inv(b, vole, Next(b, vole, s, Move.Write))
  {
    var s' := Next(b, vole, s, Move.Write);
    var row := s.ring.slots[s.prod.slot];
    WriteHolds(b, vole, row, s.published, s.prod.at);
    hide Holds, Start;
    forall j | 0 <= j < s'.ring.count ensures Holds(b, vole, s'.ring.slots[Pos(s'.ring, j)], s'.released + j, b) {
      TailApart(s.ring, j);
      assert Holds(b, vole, s.ring.slots[Pos(s.ring, j)], s.released + j, b);
    }
  }

  lemma WriteHolds<T>(b: nat, vole: nat -> T, row: seq<T>, k: nat, at: nat)
    requires Holds(b, vole, row, k, at) && at < b
    ensures Holds(b, vole, row[at := vole(Start(b, k) + at)], k, at + 1)
  {
  }

  lemma PublishKeeps<T>(b: nat, vole: nat -> T, s: Side<T>)
    requires Inv(b, vole, s) && Enabled(b, s, Move.Publish)
    ensures Inv(b, vole, Next(b, vole, s, Move.Publish))
  {
    hide Holds;
    NextIndex(s.ring.tail, |s.ring.slots|);
    var s' := Next(b, vole, s, Move.Publish);
    forall j | 0 <= j < s'.ring.count ensures Holds(b, vole, s'.ring.slots[Pos(s'.ring, j)], s'.released + j, b) {
      if j < s.ring.count { assert Holds(b, vole, s.ring.slots[Pos(s.ring, j)], s.released + j, b); }
    }
  }

  lemma ReleasedRing<T>(b: nat, vole: nat -> T, s: Side<T>)
    requires Inv(b, vole, s) && s.ring.count > 0
    ensures var t := s.(ring := s.ring.Release(), released := s.released + 1);
            && t.ring.head < |t.ring.slots| && t.ring.tail == Pos(t.ring, t.ring.count) && ReadyHeld(b, vole, t)
  {
    hide Holds;
    NextIndex(s.ring.head, |s.ring.slots|);
    var t := s.(ring := s.ring.Release(), released := s.released + 1);
    forall j | 0 <= j < t.ring.count ensures Holds(b, vole, t.ring.slots[Pos(t.ring, j)], t.released + j, b) {
      assert Holds(b, vole, s.ring.slots[Pos(s.ring, j + 1)], s.released + (j + 1), b);
    }
  }

  lemma CopyKeeps<T>(b: nat, vole: nat -> T, s: Side<T>)
    requires Inv(b, vole, s) && Enabled(b, s, Move.Copy)
    ensures Inv(b, vole, Next(b, vole, s, Move.Copy))
  {
    assert s.ring.slots[Pos(s.ring, 0)] == s.ring.slots[s.cons.slot];
    assert Holds(b, vole, s.ring.slots[Pos(s.ring, 0)], s.released + 0, b);
  }

  /** Every move of either thread keeps the invariant, and the abort cannot happen: a draw finds the
      pipe closed in no reachable state. */
  lemma MoveKeeps<T>(b: nat, vole: nat -> T, s: Side<T>, m: Move)
    requires Inv(b, vole, s) && Enabled(b, s, m)
    ensures !Aborts(s, m) && Inv(b, vole, Next(b, vole, s, m))
  {
    hide Inv, Next, Enabled;
    match m
    case Ask => OtherKeeps(b, vole, s, m);
    case Grant => OtherKeeps(b, vole, s, m);
    case Write => WriteKeeps(b, vole, s);
    case Publish => PublishKeeps(b, vole, s);
    case Acquire => OtherKeeps(b, vole, s, m);
    case Copy => CopyKeeps(b, vole, s);
    case Release => ReleaseKeeps(b, vole, s);
    case Leave => LeaveKeeps(b, vole, s);
    case Close => CloseKeeps(b, vole, s);
  }

  lemma OtherKeeps<T>(b: nat, vole: nat -> T, s: Side<T>, m: Move)
    requires Inv(b, vole, s) && Enabled(b, s, m) && (m.Ask? || m.Grant? || m.Acquire?)
    ensures !Aborts(s, m) && Inv(b, vole, Next(b, vole, s, m))
  {
    hide IsPrefix, Start;
  }

  lemma ReleaseKeeps<T>(b: nat, vole: nat -> T, s: Side<T>)
    requires Inv(b, vole, s) && Enabled(b, s, Move.Release)
    ensures Inv(b, vole, Next(b, vole, s, Move.Release))
  {
    ReleasedRing(b, vole, s);
    hide Holds, IsPrefix;
  }

  lemma LeaveKeeps<T>(b: nat, vole: nat -> T, s: Side<T>)
    requires Inv(b, vole, s) && Enabled(b, s, Leave)
    ensures Inv(b, vole, Next(b, vole, s, Leave))
  {
    hide Holds, IsPrefix;
    ReleasedRing(b, vole, s);
    assert Start(b, s.released + 1) == Start(b, s.released) + b;
  }

  lemma CloseKeeps<T>(b: nat, vole: nat -> T, s: Side<T>)
    requires Inv(b, vole, s) && Enabled(b, s, Move.Close)
    ensures Inv(b, vole, Next(b, vole, s, Move.Close))
  {
    hide Holds, IsPrefix, Start;
    var s' := Next(b, vole, s, Move.Close);
    forall j | 0 <= j < s'.ring.count ensures Holds(b, vole, s'.ring.slots[Pos(s'.ring, j)], s'.released + j, b) {
      assert Holds(b, vole, s.ring.slots[Pos(s.ring, j)], s.released + j, b);
    }
  }

  // ---- runs ----

  // Where a sequence of moves leads, if each was possible when it was made and none aborted.
  function Run<T>(n: nat, b: nat, vole: nat -> T, blank: T, moves: seq<Move>): (r: Option<Side<T>>)
    requires 1 <= n && 1 <= b
    ensures r.Some? ==> Inv(b, vole, r.value) && |r.value.ring.slots| == n
    decreases |moves|
  {
    if moves == [] then
      InitInv(n, b, vole, blank);
      Some(Init(n, b, blank))
    else
      var k := |moves| - 1;
      var s := Run(n, b, vole, blank, moves[..k]);
      if s.Some? && Enabled(b, s.value, moves[k]) then
        MoveKeeps(b, vole, s.value, moves[k]);
        Some(Next(b, vole, s.value, moves[k]))
      else None
  }

  /** Under every interleaving of the two threads: everything drawn so far is a prefix of the
      generator's stream, the slot being filled is not the slot being drained, and the consumer's
      abort is out of reach. */
  lemma PipeSafe<T>(n: nat, b: nat, vole: nat -> T, blank: T, moves: seq<Move>, s: Side<T>)
    requires 1 <= n && 1 <= b && Run(n, b, vole, blank, moves) == Some(s)
    ensures IsPrefix(vole, s.drawn)
    ensures s.prod.Filling? && s.cons.Draining? ==> s.prod.slot != s.cons.slot
    ensures forall m :: Enabled(b, s, m) ==> !Aborts(s, m)
    ensures s.ring.count <= n
  {
    assert Inv(b, vole, s);
    if s.prod.Filling? && s.cons.Draining? { TailApart(s.ring, 0); }
  }

  /** The threads wait no longer than they must: a producer at rest may ask for a round exactly while
      it is fewer than n rounds ahead, or when the pipe is closed; a consumer without a slot may take
      one exactly if a round is published that it has not released, or is turned away when closed. */
  lemma WaitsExactly<T>(n: nat, b: nat, vole: nat -> T, blank: T, moves: seq<Move>, s: Side<T>)
    requires 1 <= n && 1 <= b && Run(n, b, vole, blank, moves) == Some(s)
    ensures s.released <= s.published <= s.released + n
    ensures s.prod.Idle? ==> (Enabled(b, s, Ask) <==> s.published < s.released + n || s.cons.Closed?)
    ensures s.cons.Empty? ==> (Enabled(b, s, Acquire) <==> s.released < s.published)
  {
    assert Inv(b, vole, s);
    hide Holds, IsPrefix, ReadyHeld;
  }
}
