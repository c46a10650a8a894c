/**
 * The simulator's objects. Each method is proved to stage and to change exactly what the model on values says,
 * with the buffer objects themselves as names of buffers.
 */
module SimulatorObjects {
  import opened Prelude
  import opened Instructions
  import opened Sequential
  import opened Simulator
  import opened Wires
  import opened Mesh

  datatype BufferError = FullBuffer | EmptyBuffer

  /** A bounded queue whose enqueue and dequeue take effect when the cycle is committed. */
  class Buffer {
    const depth: nat
    var queue: seq<Packet>
    var stagedPacket: Option<Packet>
    var stagedDequeue: bool
    var pending: bool

    ghost predicate Valid()
      reads this
    {
      && |queue| <= depth
      && (pending <==> stagedPacket.Some? || stagedDequeue)
      && (stagedPacket.Some? ==> |queue| < depth)
      && (stagedDequeue ==> queue != [])
    }

    constructor (depth: nat)
      ensures Valid() && this.depth == depth && queue == [] && !pending
    {
      this.depth := depth;
      queue, stagedPacket, stagedDequeue, pending := [], None, false, false;
    }

    predicate IsFull()
      reads this
    {
      |queue| == depth
    }

    predicate IsEmpty()
      reads this
    {
      |queue| == 0
    }

    /** Stage a packet, or fail on a full buffer and stage nothing. */
    method Enqueue(p: Packet) returns (r: Outcome<(), BufferError>)
      requires Valid()
      modifies this`stagedPacket, this`pending
      ensures Valid()
      ensures r == if old(IsFull()) then Err(FullBuffer) else Ok(())
      ensures stagedPacket == if old(IsFull()) then old(stagedPacket) else Some(p)
    {
      if IsFull() { return Err(FullBuffer); }
      stagedPacket, pending := Some(p), true;
      return Ok(());
    }

    /** Stage the removal of the head and return it, or fail on an empty buffer and stage nothing. */
    method Dequeue() returns (r: Outcome<Packet, BufferError>)
      requires Valid()
      modifies this`stagedDequeue, this`pending
      ensures Valid()
      ensures r == if queue == [] then Err(EmptyBuffer) else Ok(queue[0])
      ensures stagedDequeue == (old(stagedDequeue) || queue != [])
    {
      if IsEmpty() { return Err(EmptyBuffer); }
      stagedDequeue, pending := true, true;
      return Ok(queue[0]);
    }

    /** The bounded deque drops its head to make room when a packet is appended to a full one. */
    static function Appended(depth: nat, q: seq<Packet>, p: Packet): seq<Packet> {
      if |q| < depth then q + [p] else if q == [] then [] else q[1..] + [p]
    }

    /** Apply what was staged. No packet is ever dropped to make room. */
    method Commit()
      requires Valid()
      modifies this
      ensures Valid() && !pending && stagedPacket == None && !stagedDequeue
      ensures queue == PopIf(old(queue), old(stagedDequeue)) + (if old(stagedPacket).Some? then [old(stagedPacket).value] else [])
    {
      if pending {
        if stagedDequeue {
          queue := queue[1..];
          stagedDequeue := false;
        }
        if stagedPacket.Some? {
          queue := Appended(depth, queue, stagedPacket.value);
          stagedPacket := None;
        }
        pending := false;
      }
    }

    method Reset()
      modifies this
      ensures Valid() && queue == [] && !pending
    {
      stagedPacket, stagedDequeue, pending := None, false, false;
      while queue != []
        invariant !pending && stagedPacket.None? && !stagedDequeue
        decreases |queue|
      {
        queue := queue[1..];
      }
    }
  }

  // --- What a set of buffers looks like ---

  ghost predicate AllValid(all: set<Buffer>)
    reads all
  {
    forall b | b in all :: b.Valid()
  }

  /** The committed queues. */
  ghost function Committed(all: set<Buffer>): Queues<Buffer>
    reads all
  {
    map b | b in all :: Cell(b.queue, b.depth)
  }

  /** Everything staged so far this cycle. */
  ghost function StagedOn(all: set<Buffer>): Delta<Buffer>
    reads all
  {
    Delta(set b | b in all && b.stagedDequeue, map b | b in all && b.stagedPacket.Some? :: b.stagedPacket.value)
  }

  lemma MergeAssociates<B>(a: Delta<B>, b: Delta<B>, c: Delta<B>)
    ensures Merge(a, Merge(b, c)) == Merge(Merge(a, b), c)
  {
    assert (a.enqs + (b.enqs + c.enqs)).Keys == ((a.enqs + b.enqs) + c.enqs).Keys;
    assert a.enqs + (b.enqs + c.enqs) == (a.enqs + b.enqs) + c.enqs;
  }

  /** Dequeue a buffer that is known to hold something. */
  method TakeFrom(b: Buffer, ghost all: set<Buffer>) returns (p: Packet)
    requires b in all && AllValid(all) && b.queue != []
    modifies b`stagedDequeue, b`pending
    ensures AllValid(all) && Committed(all) == old(Committed(all))
    ensures StagedOn(all) == Merge(old(StagedOn(all)), Taking<Buffer>(b))
    ensures p == b.queue[0]
  {
    var r := b.Dequeue();
    p := r.value;
    assert StagedOn(all).enqs == old(StagedOn(all)).enqs;
    assert StagedOn(all).deqs == old(StagedOn(all)).deqs + {b};
  }

  /** Enqueue on a buffer that is known to have room. */
  method PutInto(b: Buffer, p: Packet, ghost all: set<Buffer>)
    requires b in all && AllValid(all) && !b.IsFull()
    modifies b`stagedPacket, b`pending
    ensures AllValid(all) && Committed(all) == old(Committed(all))
    ensures StagedOn(all) == Merge(old(StagedOn(all)), Putting<Buffer>(b, p))
  {
    var r := b.Enqueue(p);
    assert StagedOn(all).deqs == old(StagedOn(all)).deqs;
    assert StagedOn(all).enqs == old(StagedOn(all)).enqs[b := p];
  }

  /** A router's step along one link, from either end of it. */
  method Drive(from: Buffer, to: Buffer, ghost all: set<Buffer>) returns (active: bool)
    requires from in all && to in all && AllValid(all)
    modifies all`stagedPacket, all`stagedDequeue, all`pending
    ensures AllValid(all) && Committed(all) == old(Committed(all))
    ensures StagedOn(all) == Merge(old(StagedOn(all)), Transfer(Committed(all), Link(from, to)))
    ensures active == Moves(Committed(all), Link(from, to))
  {
    active := !to.IsFull() && !from.IsEmpty();
    ghost var start, q := StagedOn(all), Committed(all);
    LinkStep(q, Link(from, to), start);
    if active {
      hide Committed, AllValid, StagedOn, Merge, Transfer, Moves;
      var packet := TakeFrom(from, all);
      PutInto(to, packet, all);
    }
  }

  /** A transfer is a dequeue and an enqueue. */
  lemma LinkStep(q: Queues<Buffer>, l: Link<Buffer>, start: Delta<Buffer>)
    requires l.from in q && l.to in q
    ensures !Moves(q, l) ==> Merge(start, Transfer(q, l)) == start
    ensures Moves(q, l) ==> q[l.from].queue != []
    ensures Moves(q, l) ==> Merge(start, Transfer(q, l)) == Merge(Merge(start, Taking<Buffer>(l.from)), Putting<Buffer>(l.to, q[l.from].queue[0]))
  {
    if Moves(q, l) {
      MergeAssociates(start, Taking<Buffer>(l.from), Putting<Buffer>(l.to, q[l.from].queue[0]));
      assert Transfer(q, l).enqs == map[] + map[l.to := q[l.from].queue[0]];
    }
  }

  /** Leaves routing to the program: channels are wired straight to the neighbours' channels. */
  class SoftwareRouter {
    const ins: seq<Buffer>
    const outs: seq<Buffer>
    var sources: seq<Option<Buffer>>
    var destinations: seq<Option<Buffer>>

    constructor (ins: seq<Buffer>, outs: seq<Buffer>, numSources: nat, numDestinations: nat)
      ensures this.ins == ins && this.outs == outs
      ensures sources == seq(numSources, _ => None) && destinations == seq(numDestinations, _ => None)
    {
      this.ins, this.outs := ins, outs;
      sources, destinations := seq(numSources, _ => None), seq(numDestinations, _ => None);
    }

    function Wires(): Wiring<Buffer>
      reads this
    {
      Wiring(ins, outs, sources, destinations)
    }

    /** Every entry that is set has a channel to go with it, and all these buffers are among the given ones. */
    ghost predicate Within(all: set<Buffer>)
      reads this
    {
      && (forall b | b in ins :: b in all) && (forall b | b in outs :: b in all)
      && (forall i | 0 <= i < |sources| && sources[i].Some? :: i < |ins| && sources[i].value in all)
      && (forall i | 0 <= i < |destinations| && destinations[i].Some? :: i < |outs| && destinations[i].value in all)
    }

    /** Wire this router's links in direction `d` to the channels of a neighbour that face it. */
    method ConnectToProcessingElement(d: Direction, neighbour: SoftwareRouter)
      requires Faces(Wires(), d) && Faces(neighbour.Wires(), Reverse(d))
      modifies this
      ensures Wires() == Connected(old(Wires()), d, old(neighbour.Wires()))
    {
      destinations := destinations[d := Some(neighbour.ins[Reverse(d)])];
      sources := sources[d := Some(neighbour.outs[Reverse(d)])];
    }

    /** A buffer that emits packets becomes the source in direction `d`. */
    method ConnectToSenderChannelBuffer(d: Direction, b: Buffer)
      requires d < |sources|
      modifies this`sources
      ensures sources == old(sources)[d := Some(b)]
    {
      sources := sources[d := Some(b)];
    }

    /** A buffer that receives packets becomes the destination in direction `d`. */
    method ConnectToReceiverChannelBuffer(d: Direction, b: Buffer)
      requires d < |destinations|
      modifies this`destinations
      ensures destinations == old(destinations)[d := Some(b)]
    {
      destinations := destinations[d := Some(b)];
    }

    /** Route every source into its input channel, then every output channel to its destination. */
    method Iterate(ghost all: set<Buffer>)
      requires Within(all) && AllValid(all)
      modifies all`stagedPacket, all`stagedDequeue, all`pending
      ensures AllValid(all) && Committed(all) == old(Committed(all))
      ensures StagedOn(all) == Merge(old(StagedOn(all)), Transfers(Committed(all), RouterLinks(Wires())))
    {
      ghost var start, q, w := StagedOn(all), Committed(all), Wires();
      MergeNothing(start, q);
      hide Committed, StagedOn, Merge, Transfers, Transfer, Moves, AllValid;
      for i := 0 to |sources|
        invariant AllValid(all) && Committed(all) == q
        invariant StagedOn(all) == Merge(start, Transfers(q, Incoming(w, i)))
      {
        if sources[i].Some? {
          var active := Drive(sources[i].value, ins[i], all);
        }
        OneMore(q, start, Incoming(w, i), Inward(w, i));
      }
      ghost var inward := Incoming(w, |sources|);
      assert inward + Outgoing(w, 0) == inward;
      for i := 0 to |destinations|
        invariant AllValid(all) && Committed(all) == q
        invariant StagedOn(all) == Merge(start, Transfers(q, inward + Outgoing(w, i)))
      {
        if destinations[i].Some? {
          var active := Drive(outs[i], destinations[i].value, all);
        }
        OneMore(q, start, inward + Outgoing(w, i), Outward(w, i));
        assert inward + Outgoing(w, i) + Outward(w, i) == inward + Outgoing(w, i + 1);
      }
    }
  }

  lemma MergeNothing(d: Delta<Buffer>, q: Queues<Buffer>)
    ensures Merge(d, Nothing()) == d && Transfers(q, []) == Nothing()
  {
  }

  /** Staging one more link on top of the links already driven. */
  lemma OneMore(q: Queues<Buffer>, start: Delta<Buffer>, ls: seq<Link<Buffer>>, more: seq<Link<Buffer>>)
    requires |more| <= 1
    ensures
      Merge(start, Transfers(q, ls + more))
        == if more == [] then Merge(start, Transfers(q, ls)) else Merge(Merge(start, Transfers(q, ls)), Transfer(q, more[0]))
  {
    if more == [] {
      assert ls + more == ls;
    } else {
      assert (ls + more)[..|ls|] == ls && (ls + more)[|ls|] == more[0];
      hide Transfer, Merge;
      assert Transfers(q, ls + more) == Merge(Transfers(q, ls), Transfer(q, more[0]));
      MergeAssociates(start, Transfers(q, ls), Transfer(q, more[0]));
    }
  }
}
