/**
 iobuf.c: the ring buffer the client's Device was written for, refined to a bounded FIFO queue.
 macro.h is not part of this model; increase(x, lo, hi) is taken as the cyclic increment.
 */
module IoBuf {
  import opened Codec

  const IOBUFMSK := 4000

  // ---------------------------------------------------------------- the queue

  datatype Op = PutC(c: Byte) | PutBuf(cbuf: Bytes) | GetC | PeekC | GetBuf(size: nat)

  /** One operation on a queue of at most IOBUFMSK bytes: its success, the new queue, the bytes handed out. */
  datatype Effect = Effect(ok: bool, queue: Bytes, out: Bytes)

  function Apply(q: Bytes, op: Op): Effect {
    match op
    case PutC(c) => if |q| >= IOBUFMSK then Effect(false, q, []) else Effect(true, q + [c], [])
    case PutBuf(cbuf) =>
      if |cbuf| == 0 || |q| + |cbuf| > IOBUFMSK then Effect(false, q, []) else Effect(true, q + cbuf, [])
    case GetC => if |q| == 0 then Effect(false, q, []) else Effect(true, q[1..], q[..1])
    case PeekC => if |q| == 0 then Effect(false, q, []) else Effect(true, q, q[..1])
    case GetBuf(size) =>
      if size == 0 || |q| < size then Effect(false, q, []) else Effect(true, q[size..], q[..size])
  }

  /** Bytes an operation puts in, and bytes it takes out for good (peeking takes none). */
  function Accepted(q: Bytes, op: Op): Bytes {
    if !Apply(q, op).ok then []
    else match op case PutC(c) => [c] case PutBuf(cbuf) => cbuf case _ => []
  }

  function Removed(q: Bytes, op: Op): Bytes {
    if op.PeekC? then [] else Apply(q, op).out
  }

  function Run(q: Bytes, ops: seq<Op>): Bytes
    decreases |ops|
  {
    if ops == [] then q else Run(Apply(q, ops[0]).queue, ops[1..])
  }

  function AllAccepted(q: Bytes, ops: seq<Op>): Bytes
    decreases |ops|
  {
    if ops == [] then [] else Accepted(q, ops[0]) + AllAccepted(Apply(q, ops[0]).queue, ops[1..])
  }

  function AllRemoved(q: Bytes, ops: seq<Op>): Bytes
    decreases |ops|
  {
    if ops == [] then [] else Removed(q, ops[0]) + AllRemoved(Apply(q, ops[0]).queue, ops[1..])
  }

  /** Over every history: nothing is lost, duplicated or reordered, and the capacity is never exceeded. */
  lemma {:induction false} Conservation(q: Bytes, ops: seq<Op>)
    requires |q| <= IOBUFMSK
    ensures q + AllAccepted(q, ops) == AllRemoved(q, ops) + Run(q, ops)
    ensures |Run(q, ops)| <= IOBUFMSK
    decreases |ops|
  {
    if ops != [] {
      var q' := Apply(q, ops[0]).queue;
      OneStep(q, ops[0]);
      Conservation(q', ops[1..]);
      Rearrange(q, Accepted(q, ops[0]), Removed(q, ops[0]), q',
                AllAccepted(q', ops[1..]), AllRemoved(q', ops[1..]), Run(q', ops[1..]));
    }
  }

  lemma OneStep(q: Bytes, op: Op)
    requires |q| <= IOBUFMSK
    ensures q + Accepted(q, op) == Removed(q, op) + Apply(q, op).queue && |Apply(q, op).queue| <= IOBUFMSK
  {
  }

  lemma Rearrange(q: Bytes, a: Bytes, r: Bytes, q': Bytes, a': Bytes, r': Bytes, z: Bytes)
    requires q + a == r + q' && q' + a' == r' + z
    ensures q + (a + a') == (r + r') + z
  {
    assert q + (a + a') == (q + a) + a' == r + (q' + a');
    assert r + (r' + z) == (r + r') + z;
  }

  lemma Regroup(a: Bytes, b: Bytes, c: Bytes)
    ensures a + (b + c) == (a + b) + c
  {
  }

  // ---------------------------------------------------------------- the ring

  function Increase(x: nat, lo: nat, hi: nat): nat { if x >= hi then lo else x + 1 }

  /** The index `i` steps after `g`. */
  function Cell(g: nat, i: nat): (w: nat)
    ensures w < IOBUFMSK
  {
    (g + i) % IOBUFMSK
  }

  /** `n` cells of the ring from `g` on, wrapping at the end. */
  function Cyclic(ring: Bytes, g: nat, n: nat): (q: Bytes)
    requires |ring| == IOBUFMSK
    ensures |q| == n
  {
    seq(n, i requires 0 <= i => ring[Cell(g, i)])
  }

  lemma PutCell(ring: Bytes, g: nat, n: nat, c: Byte)
    requires |ring| == IOBUFMSK && g < IOBUFMSK && n < IOBUFMSK
    ensures Cyclic(ring[Cell(g, n) := c], g, n + 1) == Cyclic(ring, g, n) + [c]
  {
    forall i | 0 <= i < n ensures Cell(g, i) != Cell(g, n) {
      assert g + n < 2 * IOBUFMSK;
    }
  }

  lemma GetCell(ring: Bytes, g: nat, n: nat)
    requires |ring| == IOBUFMSK && g < IOBUFMSK && 0 < n <= IOBUFMSK
    ensures Cyclic(ring, g, n) == [ring[g]] + Cyclic(ring, Cell(g, 1), n - 1)
  {
    forall i | 0 <= i < n - 1 ensures Cell(Cell(g, 1), i) == Cell(g, i + 1) {
    }
  }

  class IoBuf {
    var length: nat
    const data: array<Byte>
    var pp: nat
    var gp: nat

    ghost predicate Valid()
      reads this
    {
      && data.Length == IOBUFMSK
      && gp < IOBUFMSK && length <= IOBUFMSK
      && pp == Cell(gp, length)
    }

    ghost function Queue(): (q: Bytes)
      reads this, data
      requires Valid()
      ensures |q| == length
    {
      Cyclic(data[..], gp, length)
    }

    /** IOBuf_Init on fresh memory. */
    constructor ()
      ensures Valid() && fresh(data)
      ensures Queue() == [] && forall i :: 0 <= i < IOBUFMSK ==> data[i] == 0
    {
      length, pp, gp := 0, 0, 0;
      data := new Byte[IOBUFMSK];
      new;
      for i := 0 to IOBUFMSK
        modifies data
        invariant forall j :: 0 <= j < i ==> data[j] == 0
      {
        data[i] := 0;
      }
    }

    method ReInit()
      requires data.Length == IOBUFMSK
      modifies this
      ensures Valid() && Queue() == []
    {
      pp, gp, length := 0, 0, 0;
    }

    method Put(c: Byte) returns (ok: bool)
      requires Valid()
      modifies this, data
      ensures Valid()
      ensures var e := Apply(old(Queue()), PutC(c)); ok == e.ok && Queue() == e.queue
      ensures ok <==> |old(Queue())| < 4000
      ensures Queue() == if ok then old(Queue()) + [c] else old(Queue())
    {
      if length >= IOBUFMSK {
        ok := false;
      } else {
        ghost var ring := data[..];
        PutCell(ring, gp, length, c);
        data[pp] := c;
        assert data[..] == ring[pp := c];
        pp := Increase(pp, 0, IOBUFMSK - 1);
        length := length + 1;
        ok := true;
      }
    }

    method Get() returns (ok: bool, c: Byte)
      requires Valid()
      modifies this
      ensures Valid()
      ensures var e := Apply(old(Queue()), GetC); ok == e.ok && Queue() == e.queue && (ok ==> [c] == e.out)
      ensures ok <==> old(Queue()) != []
      ensures if ok then [c] + Queue() == old(Queue()) else Queue() == old(Queue())
    {
      c := 0;
      if length == 0 {
        ok := false;
      } else {
        GetCell(data[..], gp, length);
        c := data[gp];
        gp := Increase(gp, 0, IOBUFMSK - 1);
        length := length - 1;
        ok := true;
      }
    }

    method Peek() returns (ok: bool, c: Byte)
      requires Valid()
      ensures var e := Apply(Queue(), PeekC); ok == e.ok && Queue() == e.queue && (ok ==> [c] == e.out)
      ensures (ok <==> Queue() != []) && (ok ==> c == Queue()[0])
    {
      c := 0;
      if length == 0 {
        ok := false;
      } else {
        GetCell(data[..], gp, length);
        c := data[gp];
        ok := true;
      }
    }

    /** All or nothing: after the up-front check no byte can be refused, so the final count always agrees. */
    method PutAll(cbuf: Bytes) returns (ok: bool)
      requires Valid()
      modifies this, data
      ensures Valid()
      ensures var e := Apply(old(Queue()), PutBuf(cbuf)); ok == e.ok && Queue() == e.queue
      ensures ok <==> 0 < |cbuf| && |old(Queue())| + |cbuf| <= 4000
      ensures Queue() == if ok then old(Queue()) + cbuf else old(Queue())
    {
      if |cbuf| == 0 || length + |cbuf| > IOBUFMSK { return false; }
      var i, taken := 0, 0;
      while taken < |cbuf|
        invariant i == taken <= |cbuf| && Valid()
        invariant Queue() == old(Queue()) + cbuf[..taken]
      {
        var stored := Put(cbuf[taken]);
        if stored { i := i + 1; }
        taken := taken + 1;
        assert cbuf[..taken] == cbuf[..taken - 1] + [cbuf[taken - 1]];
      }
      ok := i == |cbuf|;
    }

    method GetAll(cbuf: array<Byte>, size: nat) returns (ok: bool)
      requires Valid() && size <= cbuf.Length && cbuf != data
      modifies this, cbuf
      ensures Valid()
      ensures var e := Apply(old(Queue()), GetBuf(size));
              && ok == e.ok && Queue() == e.queue
              && cbuf[..] == (if ok then e.out + old(cbuf[size..]) else old(cbuf[..]))
      ensures ok <==> 0 < size <= |old(Queue())|
      ensures if ok then cbuf[..size] + Queue() == old(Queue()) else Queue() == old(Queue())
    {
      if size == 0 || length < size { return false; }
      var i, given := 0, 0;
      while given < size
        invariant i == given <= size && Valid() && length == old(length) - given
        invariant Queue() == old(Queue())[given..]
        invariant cbuf[..given] == old(Queue())[..given] && cbuf[given..] == old(cbuf[given..])
      {
        var read, c := Get();
        if read { cbuf[given] := c; i := i + 1; }
        given := given + 1;
      }
      assert cbuf[..] == cbuf[..size] + cbuf[size..];
      ok := i == size;
    }

    /** One call, with the bytes it takes out for good. */
    method Do(op: Op) returns (out: Bytes)
      requires Valid()
      modifies this, data
      ensures Valid() && Queue() == Apply(old(Queue()), op).queue && out == Removed(old(Queue()), op)
    {
      out := [];
      match op
      case PutC(c) => var _ := Put(c);
      case PutBuf(cbuf) => var _ := PutAll(cbuf);
      case GetC =>
        var ok, c := Get();
        if ok { out := [c]; }
      case PeekC => var _, _ := Peek();
      case GetBuf(size) => out := TakeOut(size);
    }

    /** GetBuf into memory of its own. */
    method TakeOut(size: nat) returns (out: Bytes)
      requires Valid()
      modifies this
      ensures Valid()
      ensures var e := Apply(old(Queue()), GetBuf(size)); Queue() == e.queue && out == e.out
    {
      var cbuf := new Byte[size];
      var ok := GetAll(cbuf, size);
      out := if ok then cbuf[..] else [];
    }

    /**
     Any sequence of calls on the ring does what it does to a queue: what was in it and what was accepted
     comes out or stays, in order, and is never more than IOBUFMSK bytes.
     */
    method RunOps(ops: seq<Op>) returns (out: Bytes)
      requires Valid()
      modifies this, data
      ensures Valid() && Queue() == Run(old(Queue()), ops) && out == AllRemoved(old(Queue()), ops)
      ensures old(Queue()) + AllAccepted(old(Queue()), ops) == out + Queue()
    {
      ghost var q := Queue();
      Conservation(q, ops);
      out := [];
      var rest := ops;
      while rest != []
        invariant Valid() && Run(q, ops) == Run(Queue(), rest)
        invariant AllRemoved(q, ops) == out + AllRemoved(Queue(), rest)
        decreases |rest|
      {
        ghost var before := Queue();
        var taken := Do(rest[0]);
        Regroup(out, taken, AllRemoved(Queue(), rest[1..]));
        out, rest := out + taken, rest[1..];
      }
    }
  }
}
