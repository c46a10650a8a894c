/**
 * The hardware channel buffers: circular FIFOs with a head, a tail and a count. Their meaning is one queue
 * per channel; the classes implement that meaning whenever the depth is a power of two.
 */
module ChannelBuffers {
  import opened Bits
  import opened Prelude
  import opened Instructions
  import opened Sequential

  /** One edge of an input channel buffer. A dequeue of an empty buffer blocks the link for that cycle. */
  function InputFifo(depth: nat, q: seq<Packet>, dequeue: bool, request: Option<Packet>): seq<Packet> {
    var arriving := if request.Some? && |q| != depth then [request.value] else [];
    if dequeue then (if q == [] then q else q[1..] + arriving) else q + arriving
  }

  /** One edge of an output channel buffer. An enqueue on a full buffer blocks the link for that cycle. */
  function OutputFifo(depth: nat, q: seq<Packet>, enqueue: bool, p: Packet, ack: bool): seq<Packet> {
    if enqueue then (if |q| == depth then q else PopIf(q, ack) + [p]) else PopIf(q, ack)
  }

  /**
   * The input buffer keeps every packet it acknowledges exactly when it is not asked to dequeue while empty;
   * the acknowledgement only looks at whether it is full.
   */
  lemma InputKeepsPacketsIff(depth: nat, q: seq<Packet>, dequeue: bool, p: Packet)
    requires |q| < depth
    ensures InputFifo(depth, q, dequeue, Some(p)) == PopIf(q, dequeue) + [p] <==> !(dequeue && q == [])
  {
    if dequeue && q == [] {
      assert |InputFifo(depth, q, dequeue, Some(p))| == 0;
    }
  }

  /** The output buffer removes every packet the link takes exactly when it is not asked to enqueue while full. */
  lemma OutputForgetsPacketsIff(depth: nat, q: seq<Packet>, enqueue: bool)
    requires 0 < |q| <= depth
    ensures
      (forall p :: OutputFifo(depth, q, enqueue, p, true) == q[1..] + (if enqueue then [p] else []))
        <==> !(enqueue && |q| == depth)
  {
    assert q[1..] + [] == q[1..];
    if enqueue && |q| == depth {
      var p := Packet(q[|q| - 1].tag + 1, 0);
      assert (q[1..] + [p])[|q| - 1] == p;
      assert OutputFifo(depth, q, enqueue, p, true) != q[1..] + [p];
    }
  }

  function NextInputs(depth: nat, inputs: seq<seq<Packet>>, icd: seq<nat>, requests: seq<Option<Packet>>): (r: seq<seq<Packet>>)
    ensures |r| == |inputs|
    ensures forall c | 0 <= c < |r| ::
      r[c] == InputFifo(depth, inputs[c], c in icd, if c < |requests| then requests[c] else None)
  {
    seq(|inputs|, c requires 0 <= c < |inputs| =>
      InputFifo(depth, inputs[c], c in icd, if c < |requests| then requests[c] else None))
  }

  function NextOutputs(depth: nat, outputs: seq<seq<Packet>>, oci: seq<nat>, p: Packet, acks: seq<bool>): (r: seq<seq<Packet>>)
    ensures |r| == |outputs|
    ensures forall c | 0 <= c < |r| :: r[c] == OutputFifo(depth, outputs[c], c in oci, p, c < |acks| && acks[c])
  {
    seq(|outputs|, c requires 0 <= c < |outputs| => OutputFifo(depth, outputs[c], c in oci, p, c < |acks| && acks[c]))
  }

  // --- Circular storage ---

  /** Cell offsets never run more than once around the ring. */
  function Wrap(k: nat, depth: nat): (r: nat)
    requires k < 2 * depth
    ensures r < depth
  {
    if k < depth then k else k - depth
  }

  /** A pointer register of the width the hardware gives it, incremented. */
  function Advance(pointer: nat, depth: nat): nat {
    Narrow(pointer + 1, Clog2(depth))
  }

  /** The packets held between head and tail, oldest first. */
  function Ring(cells: seq<Packet>, head: nat, count: nat): (q: seq<Packet>)
    requires head < |cells| && count <= |cells|
    ensures |q| == count
    ensures forall k | 0 <= k < count :: q[k] == cells[Wrap(head + k, |cells|)]
  {
    seq(count, k requires 0 <= k < count => cells[Wrap(head + k, |cells|)])
  }

  /** A pointer register is just wide enough for the depth rounded up to a power of two. */
  predicate PowerOfTwo(depth: nat) {
    depth == Pow2(Clog2(depth))
  }

  /** The storage of both kinds of channel buffer. */
  class ChannelBuffer {
    const depth: nat
    const cells: array<Packet>
    var head: nat
    var tail: nat
    var count: nat

    ghost predicate Valid()
      reads this, cells
    {
      && 0 < depth == cells.Length && PowerOfTwo(depth)
      && head < depth && count <= depth
      && tail == Wrap(head + count, depth)
    }

    ghost function Contents(): seq<Packet>
      requires Valid()
      reads this, cells
    {
      Ring(cells[..], head, count)
    }

    constructor (depth: nat, zero: Packet)
      requires depth > 0 && PowerOfTwo(depth)
      ensures Valid() && this.depth == depth && Contents() == [] && fresh(cells)
    {
      this.depth := depth;
      cells := new Packet[depth](_ => zero);
      head, tail, count := 0, 0, 0;
    }

    /** Write behind the tail; the pointer wraps at the width of its register. */
    method Push(p: Packet)
      requires Valid() && count != depth
      modifies this, cells
      ensures Valid() && Contents() == old(Contents()) + [p]
    {
      hide PowerOfTwo, Ring;
      ghost var before := cells[..];
      TailMoves(head, count, depth);
      WriteBehind(before, head, count, p);
      cells[tail] := p;
      tail := Bump(tail, depth);
      count := count + 1;
      assert cells[..] == before[Wrap(head + (count - 1), depth) := p];
    }

    /** Drop the head. */
    method Pop()
      requires Valid() && count != 0
      modifies this
      ensures Valid() && Contents() == old(Contents())[1..]
    {
      hide PowerOfTwo, Ring;
      HeadMoves(head, count, depth);
      DropHead(cells[..], head, count);
      head := Bump(head, depth);
      count := count - 1;
    }

    /** Write behind the tail, drop the head, or both. */
    method Move(accept: Option<Packet>, drop: bool)
      requires Valid()
      requires accept.Some? ==> count != depth
      requires drop ==> count != 0
      modifies this, cells
      ensures Valid()
      ensures Contents() == PopIf(old(Contents()), drop) + Arriving(accept)
    {
      ghost var q := Contents();
      Moved(q, accept, drop);
      SameCount();
      hide Valid, Contents;
      if accept.Some? {
        Push(accept.value);
        SameCount();
      }
      if drop {
        Pop();
      }
    }

    lemma SameCount()
      requires Valid()
      ensures |Contents()| == count
    {
    }

    /** An edge of an input channel buffer, case by case as the hardware decides it. */
    method TickInput(dequeue: bool, request: Option<Packet>)
      requires Valid()
      modifies this, cells
      ensures Valid()
      ensures Contents() == InputFifo(depth, old(Contents()), dequeue, request)
    {
      var accept := if request.Some? && count != depth then request else None;
      if dequeue {
        if count != 0 {
          Move(accept, true);
        }
      } else {
        Move(accept, false);
      }
    }

    /** An edge of an output channel buffer, case by case as the hardware decides it. */
    method TickOutput(enqueue: bool, p: Packet, ack: bool)
      requires Valid()
      modifies this, cells
      ensures Valid()
      ensures Contents() == OutputFifo(depth, old(Contents()), enqueue, p, ack)
    {
      if enqueue {
        if count != depth {
          Move(Some(p), count != 0 && ack);
        }
      } else if count != 0 && ack {
        Move(None, true);
      }
    }
  }

  function Arriving(accept: Option<Packet>): seq<Packet> {
    match accept
    case None => []
    case Some(p) => [p]
  }

  /** Writing behind the tail and then moving the head is one step of the queue. */
  lemma Moved(q: seq<Packet>, accept: Option<Packet>, drop: bool)
    requires drop ==> q != []
    ensures
      var grown := if accept.Some? then q + [accept.value] else q;
      (if drop then grown[1..] else grown) == PopIf(q, drop) + Arriving(accept)
  {
  }

  /** The tail stays as far behind the head as there are packets. */
  lemma TailMoves(head: nat, count: nat, depth: nat)
    requires head < depth && count < depth
    ensures Wrap(Wrap(head + count, depth) + 1, depth) == Wrap(head + (count + 1), depth)
  {
  }

  lemma HeadMoves(head: nat, count: nat, depth: nat)
    requires head < depth && 0 < count <= depth
    ensures Wrap(Wrap(head + 1, depth) + (count - 1), depth) == Wrap(head + count, depth)
  {
  }

  /** With a power-of-two depth a pointer register wraps exactly at the end of the storage. */
  lemma AdvanceWraps(pointer: nat, depth: nat)
    requires PowerOfTwo(depth) && pointer < depth
    ensures Advance(pointer, depth) == Wrap(pointer + 1, depth)
  {
    if pointer + 1 == depth { SelfMod(depth); }
  }

  lemma SelfMod(m: nat)
    requires m > 0
    ensures m % m == 0
  {
  }

  method Bump(pointer: nat, depth: nat) returns (next: nat)
    requires PowerOfTwo(depth) && pointer < depth
    ensures next == Wrap(pointer + 1, depth)
  {
    AdvanceWraps(pointer, depth);
    next := Advance(pointer, depth);
  }

  /** Otherwise it runs past the last cell, so powers of two are the depths that work. */
  lemma PointersStayInStorageIffPowerOfTwo(depth: nat)
    requires depth > 0
    ensures (forall pointer: nat | pointer < depth :: Advance(pointer, depth) < depth) <==> PowerOfTwo(depth)
  {
    if PowerOfTwo(depth) {
      forall pointer: nat | pointer < depth ensures Advance(pointer, depth) < depth {
        AdvanceWraps(pointer, depth);
      }
    } else {
      assert Advance(depth - 1, depth) == depth;
    }
  }

  lemma WriteBehind(cells: seq<Packet>, head: nat, count: nat, p: Packet)
    requires head < |cells| && count < |cells|
    ensures Ring(cells[Wrap(head + count, |cells|) := p], head, count + 1) == Ring(cells, head, count) + [p]
  {
  }

  lemma DropHead(cells: seq<Packet>, head: nat, count: nat)
    requires head < |cells| && 0 < count <= |cells|
    ensures Ring(cells, Wrap(head + 1, |cells|), count - 1) == Ring(cells, head, count)[1..]
  {
    var l, r := Ring(cells, Wrap(head + 1, |cells|), count - 1), Ring(cells, head, count)[1..];
    assert |l| == |r|;
    forall k | 0 <= k < count - 1 ensures l[k] == r[k] {
      assert Wrap(Wrap(head + 1, |cells|) + k, |cells|) == Wrap(head + (k + 1), |cells|);
    }
  }
}
