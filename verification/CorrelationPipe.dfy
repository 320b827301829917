/** The pipe as an object, and the consumer's draw loop running against a producer that is scheduled
    in between its steps in every possible way. */
module CorrelationPipes {
  import opened PipeRing

  class Pipe<T> {
    const slot: array<seq<T>>
    var head: nat
    var tail: nat
    var count: nat
    var done: bool
    var producerDone: bool

    ghost function Abs(): Ring<T> reads this, slot {
      Ring(slot[..], head, tail, count, done, producerDone)
    }

    constructor (n: nat, b: nat, blank: T)
      ensures Abs() == Init(n, b, blank).ring && fresh(slot)
    {
      slot := new seq<T>[n](_ => seq(b, _ => blank));
      head, tail, count, done, producerDone := 0, 0, 0, false, false;
      new;
      assert slot[..] == seq(n, _ => seq(b, _ => blank));
    }

    // The waits are over when the mutex lets these return.
    method AcquireFree() returns (i: int)
      requires Abs().FreeOrDone()
      ensures i == if done then -1 else tail
      ensures i >= 0 ==> count < slot.Length
    {
      i := if done then -1 else tail;
    }

    method AcquireReady() returns (i: int)
      requires Abs().ReadyOrDone()
      ensures i == Abs().AcquireReady()
      ensures i < 0 ==> producerDone || done
    {
      i := if count > 0 then head else -1;
    }

    method Publish()
      requires slot.Length > 0
      modifies this`tail, this`count
      ensures Abs() == old(Abs()).Publish()
    {
      tail := (tail + 1) % slot.Length;
      count := count + 1;
    }

    method Release()
      requires slot.Length > 0 && count > 0
      modifies this`head, this`count
      ensures Abs() == old(Abs()).Release()
    {
      head := (head + 1) % slot.Length;
      count := count - 1;
    }

    method MarkProducerDone()
      modifies this`producerDone
      ensures Abs() == old(Abs()).MarkProducerDone()
    {
      producerDone := true;
    }

    method Finish()
      modifies this`done
      ensures Abs() == old(Abs()).Finish()
    {
      done := true;
    }
  }

  // What a draw of n correlations from position `from` must return.
  function Slice<T>(vole: nat -> T, from: nat, n: nat): (r: seq<T>)
    ensures |r| == n
  {
    seq(n, i requires 0 <= i < n => vole(from + i))
  }

  class Background<T> {
    const pipe: Pipe<T>
    const b: nat
    const vole: nat -> T
    var prod: Producer
    var pos: nat
    var curSlot: int
    var curOff: nat
    ghost var closed: bool
    ghost var published: nat
    ghost var released: nat
    ghost var drawn: seq<T>

    ghost function Abs(): Side<T> reads this, pipe, pipe.slot {
      Side(pipe.Abs(), prod, if closed then Closed else if curSlot < 0 then Empty else Draining(curSlot, curOff),
           published, released, drawn)
    }

    ghost predicate Valid() reads this, pipe, pipe.slot {
      Inv(b, vole, Abs()) && !closed && pos == Start(b, published) + if prod.Filling? then prod.at else 0
    }

    constructor (n: nat, b: nat, vole: nat -> T, blank: T)
      requires 1 <= n && 1 <= b
      ensures Valid() && Settled() && this.b == b && this.vole == vole && Abs() == Init(n, b, blank)
      ensures fresh(pipe) && fresh(pipe.slot)
    {
      pipe := new Pipe<T>(n, b, blank);
      this.b, this.vole := b, vole;
      prod, pos, curSlot, curOff, closed := Idle, 0, -1, 0, false;
      published, released, drawn := 0, 0, [];
      new;
      InitInv(n, b, vole, blank);
    }

    // ---- the producer thread ----

    method AskForRound()
      requires Valid() && prod.Idle? && pipe.Abs().FreeOrDone()
      modifies this`prod
      ensures Valid() && Abs() == Next(b, vole, old(Abs()), Ask)
    {
      MoveKeeps(b, vole, Abs(), Ask);
      hide Inv, IsPrefix;
      var i := pipe.AcquireFree();
      prod := if i < 0 then Stopped else Asked(i);
    }

    method WriteOne()
      requires Valid() && prod.Filling? && prod.at < b
      modifies this`prod, this`pos, pipe.slot
      ensures Valid() && Abs() == Next(b, vole, old(Abs()), Write)
    {
      ghost var s := Abs();
      MoveKeeps(b, vole, s, Write);
      assert prod.slot < pipe.slot.Length && |pipe.slot[prod.slot]| == b;
      hide Inv, IsPrefix, Start;
      pipe.slot[prod.slot] := pipe.slot[prod.slot][prod.at := vole(pos)];
      pos := pos + 1;
      prod := Filling(prod.slot, prod.at + 1);
      assert Abs() == Next(b, vole, s, Write);
    }

    method PublishRound()
      requires Valid() && prod.Filling? && prod.at == b
      modifies this`prod, this`published, pipe`tail, pipe`count
      ensures Valid() && Abs() == Next(b, vole, old(Abs()), Publish)
    {
      ghost var s := Abs();
      MoveKeeps(b, vole, s, Publish);
      assert pipe.slot.Length > 0;
      hide Inv, IsPrefix;
      pipe.Publish();
      prod := Idle;
      published := published + 1;
      assert Start(b, published) == Start(b, s.published) + b;
    }

    method BeginRound()
      requires Valid() && prod.Asked?
      modifies this`prod
      ensures Valid() && Abs() == Next(b, vole, old(Abs()), Grant)
    {
      MoveKeeps(b, vole, Abs(), Grant);
      hide Inv, IsPrefix;
      prod := Filling(prod.slot, 0);
    }

    // The producer's next move, unless it waits.
    method ProducerMove()
      requires Valid()
      modifies this`prod, this`pos, this`published, pipe`tail, pipe`count, pipe.slot
      ensures Valid() && Abs() == Moved(b, vole, old(Abs()))
    {
      assert Shaped(b, Abs());
      hide Inv, Next;
      match prod
      case Idle => if pipe.count < pipe.slot.Length || pipe.done { AskForRound(); }
      case Asked(_) => BeginRound();
      case Filling(_, at) => if at < b { WriteOne(); } else { PublishRound(); }
      case Stopped =>
    }

    method ProducerRuns(moves: nat)
      requires Valid()
      modifies this`prod, this`pos, this`published, pipe`tail, pipe`count, pipe.slot
      ensures Valid() && OnlyProduced(old(Abs()), Abs())
    {
      hide Inv, Moved;
      for k := 0 to moves
        invariant Valid() && OnlyProduced(old(Abs()), Abs())
      {
        MovedOnlyProduces(b, vole, Abs());
        ProducerMove();
      }
    }

    // ---- the consumer ----

    // How many moves of the producer make a slot ready.
    ghost function ToReady(): nat reads this, pipe, pipe.slot
      requires Valid()
    {
      if pipe.count > 0 then 0
      else match prod
        case Idle => b + 3
        case Asked(_) => b + 2
        case Filling(_, at) => b - at + 1
        case Stopped => 0
    }

    method ProducerCloser()
      requires Valid() && pipe.count == 0
      modifies this`prod, this`pos, this`published, pipe`tail, pipe`count, pipe.slot
      ensures Valid() && OnlyProduced(old(Abs()), Abs()) && ToReady() < old(ToReady())
    {
      MovedOnlyProduces(b, vole, Abs());
      ProducerMove();
    }

    // Waits for a ready slot, while the producer runs.
    method AcquireReady()
      requires Valid() && curSlot < 0
      modifies this`prod, this`pos, this`published, this`curSlot, this`curOff, pipe`tail, pipe`count, pipe.slot
      ensures Valid() && curSlot >= 0 && curOff == 0 && drawn == old(drawn)
    {
      while pipe.count == 0
        invariant Valid() && curSlot < 0 && drawn == old(drawn)
        decreases ToReady()
      {
        ProducerCloser();
      }
      TakeSlot();
    }

    method TakeSlot()
      requires Valid() && curSlot < 0 && pipe.count > 0
      modifies this`curSlot, this`curOff
      ensures Valid() && Abs() == Next(b, vole, old(Abs()), Acquire) && curSlot >= 0 && curOff == 0
    {
      MoveKeeps(b, vole, Abs(), Acquire);
      curSlot := pipe.AcquireReady();
      curOff := 0;
    }

    method CopyOne() returns (x: T)
      requires Valid() && curSlot >= 0 && curOff < b
      modifies this`curOff, this`drawn
      ensures Valid() && Abs() == Next(b, vole, old(Abs()), Copy) && drawn == old(drawn) + [x]
    {
      MoveKeeps(b, vole, Abs(), Copy);
      x := pipe.slot[curSlot][curOff];
      hide Inv;
      curOff := curOff + 1;
      drawn := drawn + [x];
    }

    method ReleaseSlot()
      requires Valid() && curSlot >= 0 && curOff == b
      modifies this`curSlot, this`released, pipe`head, pipe`count
      ensures Valid() && Abs() == Next(b, vole, old(Abs()), Release) && curSlot < 0
    {
      MoveKeeps(b, vole, Abs(), Release);
      assert pipe.slot.Length > 0 && pipe.count > 0;
      hide Inv;
      pipe.Release();
      curSlot := -1;
      released := released + 1;
    }

    // Part of a slot, with the producer running between any two copied correlations.
    method CopyMany(take: nat, sched: nat -> nat) returns (part: seq<T>)
      requires Valid() && curSlot >= 0 && curOff + take <= b
      modifies this`prod, this`pos, this`published, this`curOff, this`drawn, pipe`tail, pipe`count, pipe.slot
      ensures Valid() && curSlot >= 0 && curOff == old(curOff) + take && |part| == take && drawn == old(drawn) + part
    {
      hide Inv;
      part := [];
      for k := 0 to take
        invariant Valid() && curSlot >= 0 && curOff == old(curOff) + k && |part| == k && drawn == old(drawn) + part
      {
        ProducerRuns(sched(k));
        var x := CopyOne();
        part := part + [x];
      }
    }

    // A slot that is read to the end is given back at once.
    ghost predicate Settled() reads this { curSlot >= 0 ==> curOff < b }

    // What one slot yields of n correlations.
    method DrawSome(n: nat, sched: nat -> nat) returns (part: seq<T>)
      requires Valid() && Settled() && 1 <= b && 1 <= n
      modifies this`prod, this`pos, this`published, this`curSlot, this`curOff, this`released, this`drawn, pipe,
          pipe.slot
      ensures Valid() && Settled() && drawn == old(drawn) + part && 1 <= |part| <= n
    {
      hide Inv;
      if curSlot < 0 { AcquireReady(); }
      var take := if n <= b - curOff then n else b - curOff;
      part := CopyMany(take, sched);
      if curOff == b { ReleaseSlot(); }
    }

    /** A draw returns the next n correlations of the generator's stream, across any number of slots,
        however the producer is scheduled. */
    method Draw(n: nat, sched: (nat, nat) -> nat) returns (out: seq<T>)
      requires Valid() && Settled()
      modifies this`prod, this`pos, this`published, this`curSlot, this`curOff, this`released, this`drawn, pipe,
          pipe.slot
      ensures Valid() && Settled() && drawn == old(drawn) + out && out == Slice(vole, |old(drawn)|, n)
    {
      hide Inv, IsPrefix, Slice, Start, Settled;
      out := [];
      DrawnSoFar(b, vole, Abs());
      while |out| < n
        invariant Valid() && Settled() && |out| <= n && drawn == old(drawn) + out
      {
        var part := DrawSome(n - |out|, k => sched(|out|, k));
        out := out + part;
      }
      DrawnSoFar(b, vole, Abs());
      PrefixEnds(vole, old(drawn), out);
    }
  }

  // The producer leaves the consumer's part alone and never takes a ready slot away.
  ghost predicate OnlyProduced<T>(s: Side<T>, s': Side<T>) {
    s'.cons == s.cons && s'.released == s.released && s'.drawn == s.drawn && s.ring.count <= s'.ring.count
  }

  lemma MovedOnlyProduces<T>(b: nat, vole: nat -> T, s: Side<T>)
    requires Inv(b, vole, s)
    ensures OnlyProduced(s, Moved(b, vole, s))
  {
  }

  lemma DrawnSoFar<T>(b: nat, vole: nat -> T, s: Side<T>)
    requires Inv(b, vole, s)
    ensures 1 <= b && IsPrefix(vole, s.drawn)
  {
  }

  lemma PrefixEnds<T>(vole: nat -> T, drawn: seq<T>, out: seq<T>)
    requires IsPrefix(vole, drawn + out)
    ensures out == Slice(vole, |drawn|, |out|)
  {
    forall i | 0 <= i < |out| ensures out[i] == vole(|drawn| + i) { assert (drawn + out)[|drawn| + i] == out[i]; }
  }

  ghost function Moved<T>(b: nat, vole: nat -> T, s: Side<T>): Side<T> {
    var m := ProducerNext(b, s.prod);
    if Shaped(b, s) && Enabled(b, s, m) then Next(b, vole, s, m) else s
  }

  function ProducerNext(b: nat, p: Producer): Move {
    match p
    case Idle => Ask
    case Asked(_) => Grant
    case Filling(_, at) => if at < b then Write else Publish
    case Stopped => Ask
  }
}
