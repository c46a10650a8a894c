/**
 * The two-phase functional simulator on values. In one cycle every unit reads the committed queues and stages
 * dequeues and enqueues; then everything staged is committed at once. Buffers are named by values of any type.
 */
module Simulator {
  import opened Prelude
  import opened Instructions
  import opened Sequential

  datatype Cell = Cell(queue: seq<Packet>, depth: nat)

  type Queues<B> = map<B, Cell>

  /** What has been staged: buffers to dequeue, and the packet to enqueue on each of some buffers. */
  datatype Delta<B> = Delta(deqs: set<B>, enqs: map<B, Packet>)

  /** A pair of buffers a router moves packets between. */
  datatype Link<B> = Link(from: B, to: B)

  function Nothing<B(==)>(): Delta<B> { Delta({}, map[]) }

  function Taking<B(==)>(b: B): Delta<B> { Delta({b}, map[]) }
  function Putting<B(==)>(b: B, p: Packet): Delta<B> { Delta({}, map[b := p]) }

  /** Staging on top of staging: a later enqueue on the same buffer replaces the earlier one. */
  function Merge<B(==)>(d: Delta<B>, e: Delta<B>): Delta<B> {
    Delta(d.deqs + e.deqs, d.enqs + e.enqs)
  }

  function MergeAll<B(==)>(ds: seq<Delta<B>>): Delta<B> {
    if ds == [] then Nothing() else Merge(MergeAll(ds[..|ds| - 1]), ds[|ds| - 1])
  }

  /** The end of a cycle: every staged dequeue, then every staged enqueue. */
  function Commit<B(==)>(q: Queues<B>, d: Delta<B>): Queues<B> {
    map b | b in q :: Cell(PopIf(q[b].queue, b in d.deqs) + (if b in d.enqs then [d.enqs[b]] else []), q[b].depth)
  }

  predicate Empty<B(==)>(q: Queues<B>, b: B) { b in q ==> q[b].queue == [] }
  predicate Full<B(==)>(q: Queues<B>, b: B) { b in q ==> |q[b].queue| == q[b].depth }

  // --- Routers ---

  predicate Moves<B(==)>(q: Queues<B>, l: Link<B>) {
    l.from in q && l.to in q && !Empty(q, l.from) && !Full(q, l.to)
  }

  function Transfer<B(==)>(q: Queues<B>, l: Link<B>): Delta<B> {
    if Moves(q, l) then Delta({l.from}, map[l.to := q[l.from].queue[0]]) else Nothing()
  }

  function Transfers<B(==)>(q: Queues<B>, ls: seq<Link<B>>): Delta<B> {
    if ls == [] then Nothing() else Merge(Transfers(q, ls[..|ls| - 1]), Transfer(q, ls[|ls| - 1]))
  }

  /** The buffers of a processing element and the neighbours' buffers its router was connected to, by direction. */
  datatype Wiring<B> = Wiring(ins: seq<B>, outs: seq<B>, sources: seq<Option<B>>, destinations: seq<Option<B>>)

  /** The link in direction `n`, if the element has a channel there and something is connected to it. */
  function Inward<B(==)>(w: Wiring<B>, n: nat): seq<Link<B>> {
    if n < |w.sources| && n < |w.ins| && w.sources[n].Some? then [Link(w.sources[n].value, w.ins[n])] else []
  }

  function Outward<B(==)>(w: Wiring<B>, n: nat): seq<Link<B>> {
    if n < |w.destinations| && n < |w.outs| && w.destinations[n].Some? then [Link(w.outs[n], w.destinations[n].value)] else []
  }

  function Incoming<B(==)>(w: Wiring<B>, n: nat): seq<Link<B>> {
    if n == 0 then [] else Incoming(w, n - 1) + Inward(w, n - 1)
  }

  function Outgoing<B(==)>(w: Wiring<B>, n: nat): seq<Link<B>> {
    if n == 0 then [] else Outgoing(w, n - 1) + Outward(w, n - 1)
  }

  /** Everything a software router drives, sources first. */
  function RouterLinks<B(==)>(w: Wiring<B>): seq<Link<B>> {
    Incoming(w, |w.sources|) + Outgoing(w, |w.destinations|)
  }

  // --- Cores ---

  datatype CoreState = CoreState(
    predicates: seq<bool>, registers: seq<Word>, scratchpad: seq<Word>, halted: bool, retired: seq<Instruction>)

  datatype Element<B> = Element(m: Machine, core: CoreState, w: Wiring<B>)

  function Packets<B(==)>(q: Queues<B>, bs: seq<B>): (r: seq<seq<Packet>>)
    ensures |r| == |bs|
    ensures forall c | 0 <= c < |bs| :: r[c] == if bs[c] in q then q[bs[c]].queue else []
  {
    seq(|bs|, c requires 0 <= c < |bs| => if bs[c] in q then q[bs[c]].queue else [])
  }

  /** The processing element of the sequential model: a core together with its committed queues. */
  function PeOf<B(==)>(q: Queues<B>, e: Element<B>): Pe {
    Pe(e.core.predicates,
       Datapath(e.core.registers, e.core.scratchpad, Packets(q, e.w.ins), Packets(q, e.w.outs), e.core.halted, e.core.retired))
  }

  function StateOf(pe: Pe): CoreState {
    CoreState(pe.predicates, pe.dp.registers, pe.dp.scratchpad, pe.dp.halted, pe.dp.retired)
  }

  function CoreNext<B(==)>(q: Queues<B>, e: Element<B>): Element<B> {
    e.(core := StateOf(Iterate(e.m, PeOf(q, e))))
  }

  function Chosen<B(==)>(bs: seq<B>, cs: seq<nat>): (r: set<B>)
    ensures forall b | b in r :: exists c | c in cs :: c < |bs| && bs[c] == b
    ensures forall c | c in cs && c < |bs| :: bs[c] in r
  {
    set c | c in cs && c < |bs| :: bs[c]
  }

  /** What the core stages: the dequeues and the enqueues of the instruction it executes, if any. */
  function CoreDelta<B(==)>(q: Queues<B>, e: Element<B>): Delta<B> {
    var pe := PeOf(q, e);
    match Scheduled(e.m, pe)
    case None => Nothing()
    case Some(i) =>
      var r := Compute(e.m.alu, pe.dp, i.op, ReadOperands(pe.dp, i));
      Delta(Chosen(e.w.ins, i.dequeues),
            map b | b in Chosen(e.w.outs, i.trigger.outputChannels) :: Packet(i.outputTag, r))
  }

  /** A processing element: its core, then its router. */
  function ElementDelta<B(==)>(q: Queues<B>, e: Element<B>): Delta<B> {
    Merge(CoreDelta(q, e), Transfers(q, RouterLinks(e.w)))
  }

  // --- Memories ---

  datatype ReadPort<B> = ReadPort(addrIn: B, dataOut: B, peripheral: Option<B>, pending: Option<Packet>)

  datatype WritePort<B> = WritePort(addrIn: B, dataIn: B)

  datatype Memory<B> = Memory(contents: seq<Word>, readPorts: seq<ReadPort<B>>, writePorts: seq<WritePort<B>>)

  function At(contents: seq<Word>, address: Word): Word {
    if 0 <= address < |contents| then contents[address] else 0
  }

  /** A pending answer leaves for the data-out buffer. */
  predicate Answers<B(==)>(q: Queues<B>, p: ReadPort<B>) {
    p.pending.Some? && p.dataOut in q && !Full(q, p.dataOut)
  }

  /** A new request is served, on a port with nothing pending any more. */
  predicate Serves<B(==)>(q: Queues<B>, p: ReadPort<B>) {
    p.addrIn in q && !Empty(q, p.addrIn) && (p.pending.None? || Answers(q, p))
  }

  function PortLinks<B(==)>(p: ReadPort<B>): seq<Link<B>> {
    if p.peripheral.Some? then [Link(p.dataOut, p.peripheral.value)] else []
  }

  function PortDelta<B(==)>(q: Queues<B>, p: ReadPort<B>): Delta<B> {
    Merge(Transfers(q, PortLinks(p)),
          Delta(if Serves(q, p) then {p.addrIn} else {}, if Answers(q, p) then map[p.dataOut := p.pending.value] else map[]))
  }

  function PortNext<B(==)>(q: Queues<B>, contents: seq<Word>, p: ReadPort<B>): ReadPort<B> {
    if Serves(q, p) then
      var request := q[p.addrIn].queue[0];
      p.(pending := Some(Packet(request.tag, At(contents, request.value))))
    else if Answers(q, p) then p.(pending := None)
    else p
  }

  predicate Writes<B(==)>(q: Queues<B>, p: WritePort<B>) {
    p.addrIn in q && p.dataIn in q && !Empty(q, p.addrIn) && !Empty(q, p.dataIn)
  }

  function WriteDelta<B(==)>(q: Queues<B>, p: WritePort<B>): Delta<B> {
    Delta(if Writes(q, p) then {p.addrIn, p.dataIn} else {}, map[])
  }

  /** Write ports update the contents one after the other. */
  function Written<B(==)>(q: Queues<B>, contents: seq<Word>, ps: seq<WritePort<B>>): (r: seq<Word>)
    ensures |r| == |contents|
  {
    if ps == [] then contents
    else
      var before := Written(q, contents, ps[..|ps| - 1]);
      var p := ps[|ps| - 1];
      if Writes(q, p) && 0 <= q[p.addrIn].queue[0].value < |before|
      then before[q[p.addrIn].queue[0].value := q[p.dataIn].queue[0].value]
      else before
  }

  function MemoryNext<B(==)>(q: Queues<B>, m: Memory<B>): Memory<B> {
    Memory(Written(q, m.contents, m.writePorts),
           seq(|m.readPorts|, k requires 0 <= k < |m.readPorts| => PortNext(q, m.contents, m.readPorts[k])),
           m.writePorts)
  }

  function PortDeltas<B(==)>(q: Queues<B>, m: Memory<B>): seq<Delta<B>> {
    seq(|m.readPorts|, k requires 0 <= k < |m.readPorts| => PortDelta(q, m.readPorts[k]))
  }

  function WriteDeltas<B(==)>(q: Queues<B>, m: Memory<B>): seq<Delta<B>> {
    seq(|m.writePorts|, k requires 0 <= k < |m.writePorts| => WriteDelta(q, m.writePorts[k]))
  }

  function MemoryDelta<B(==)>(q: Queues<B>, m: Memory<B>): Delta<B> {
    Merge(MergeAll(PortDeltas(q, m)), MergeAll(WriteDeltas(q, m)))
  }

  /** What the core executes now, if anything, stays within its scratchpad. */
  predicate StaysInScratchpad<B(==)>(q: Queues<B>, e: Element<B>) {
    var pe := PeOf(q, e);
    match Scheduled(e.m, pe)
    case None => true
    case Some(i) => InScratchpad(pe.dp, i.op, ReadOperands(pe.dp, i))
  }

  // --- Systems ---

  datatype System<B> = System(elements: seq<Element<B>>, memories: seq<Memory<B>>, queues: Queues<B>)

  function ElementDeltas<B(==)>(s: System<B>): (r: seq<Delta<B>>)
    ensures |r| == |s.elements|
    ensures forall k | 0 <= k < |r| :: r[k] == ElementDelta(s.queues, s.elements[k])
  {
    seq(|s.elements|, k requires 0 <= k < |s.elements| => ElementDelta(s.queues, s.elements[k]))
  }

  function MemoryDeltas<B(==)>(s: System<B>): (r: seq<Delta<B>>)
    ensures |r| == |s.memories|
    ensures forall k | 0 <= k < |r| :: r[k] == MemoryDelta(s.queues, s.memories[k])
  {
    seq(|s.memories|, k requires 0 <= k < |s.memories| => MemoryDelta(s.queues, s.memories[k]))
  }

  function Staged<B(==)>(s: System<B>): Delta<B> {
    Merge(MergeAll(ElementDeltas(s)), MergeAll(MemoryDeltas(s)))
  }

  function NextElements<B(==)>(s: System<B>): (r: seq<Element<B>>)
    ensures |r| == |s.elements|
    ensures forall k | 0 <= k < |r| :: r[k] == CoreNext(s.queues, s.elements[k])
  {
    seq(|s.elements|, k requires 0 <= k < |s.elements| => CoreNext(s.queues, s.elements[k]))
  }

  function NextMemories<B(==)>(s: System<B>): (r: seq<Memory<B>>)
    ensures |r| == |s.memories|
    ensures forall k | 0 <= k < |r| :: r[k] == MemoryNext(s.queues, s.memories[k])
  {
    seq(|s.memories|, k requires 0 <= k < |s.memories| => MemoryNext(s.queues, s.memories[k]))
  }

  /** One cycle of the whole system. */
  function Cycle<B(==)>(s: System<B>): System<B> {
    System(NextElements(s), NextMemories(s), Commit(s.queues, Staged(s)))
  }

  /** What `iterate` returns: every core halted and every buffer drained, after the cycle. */
  predicate Halted<B(==)>(s: System<B>) {
    && (forall k | 0 <= k < |s.elements| :: s.elements[k].core.halted)
    && forall b | b in s.queues :: s.queues[b].queue == []
  }

  function Cycles<B(==)>(s: System<B>, n: nat): System<B>
    decreases n
  {
    if n == 0 then s else Cycles(Cycle(s), n - 1)
  }
}
