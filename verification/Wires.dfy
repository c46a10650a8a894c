/**
 * Why the simulator's staging is sound: every link is driven from both of its ends in the same cycle, and both
 * ends stage the same thing.
 */
module Wires {
  import opened Prelude
  import opened Instructions
  import opened Sequential
  import opened Simulator

  // --- Well-wired systems ---

  function ElementLinks<B(==)>(es: seq<Element<B>>): set<Link<B>> {
    set k, l | 0 <= k < |es| && l in RouterLinks(es[k].w) :: l
  }

  function MemoryLinks<B(==)>(ms: seq<Memory<B>>): set<Link<B>> {
    set k, j, l | 0 <= k < |ms| && 0 <= j < |ms[k].readPorts| && l in PortLinks(ms[k].readPorts[j]) :: l
  }

  function Links<B(==)>(s: System<B>): set<Link<B>> {
    ElementLinks(s.elements) + MemoryLinks(s.memories)
  }

  /** No two links share one end without sharing the other. */
  predicate Matching<B(==)>(links: set<Link<B>>) {
    forall l, m | l in links && m in links :: l.from == m.from <==> l.to == m.to
  }

  /** Links lead from buffers that only ever send to buffers that only ever receive. */
  predicate Directed<B(==)>(q: Queues<B>, senders: set<B>, links: set<Link<B>>) {
    forall l | l in links :: l.from in q && l.to in q && l.from in senders && l.to !in senders
  }

  predicate ElementWired<B(==)>(q: Queues<B>, senders: set<B>, e: Element<B>) {
    && WellFormedProgram(e.m.cp, e.m.program)
    && |e.w.ins| == e.m.cp.numInputChannels && |e.w.outs| == e.m.cp.numOutputChannels
    && (forall c | 0 <= c < |e.w.ins| :: e.w.ins[c] in q && e.w.ins[c] !in senders)
    && (forall c | 0 <= c < |e.w.outs| ::
          e.w.outs[c] in q && e.w.outs[c] in senders && q[e.w.outs[c]].depth == e.m.cp.channelBufferDepth)
  }

  predicate ReadPortWired<B(==)>(q: Queues<B>, senders: set<B>, p: ReadPort<B>) {
    p.addrIn in q && p.addrIn !in senders && p.dataOut in q && p.dataOut in senders
  }

  predicate WritePortWired<B(==)>(q: Queues<B>, senders: set<B>, p: WritePort<B>) {
    p.addrIn in q && p.addrIn !in senders && p.dataIn in q && p.dataIn !in senders
  }

  predicate MemoryWired<B(==)>(q: Queues<B>, senders: set<B>, m: Memory<B>) {
    && (forall j | 0 <= j < |m.readPorts| :: ReadPortWired(q, senders, m.readPorts[j]))
    && (forall j | 0 <= j < |m.writePorts| :: WritePortWired(q, senders, m.writePorts[j]))
  }

  /** Different processing elements fill different buffers. */
  predicate OwnOutputs<B(==)>(es: seq<Element<B>>) {
    forall j, k, b | 0 <= j < k < |es| && b in es[j].w.outs :: b !in es[k].w.outs
  }

  predicate Bounded<B(==)>(q: Queues<B>) {
    forall b | b in q :: |q[b].queue| <= q[b].depth
  }

  predicate Wired<B(==)>(s: System<B>, senders: set<B>) {
    && Bounded(s.queues)
    && Matching(Links(s))
    && Directed(s.queues, senders, Links(s))
    && (forall k | 0 <= k < |s.elements| :: ElementWired(s.queues, senders, s.elements[k]))
    && (forall k | 0 <= k < |s.memories| :: MemoryWired(s.queues, senders, s.memories[k]))
    && OwnOutputs(s.elements)
  }

  // --- What a unit may stage ---

  /**
   * Only possible dequeues and enqueues; a sending buffer is only emptied, and a receiving buffer only filled, by
   * moving the head along a link.
   */
  predicate Respects<B(==)>(links: set<Link<B>>, senders: set<B>, q: Queues<B>, d: Delta<B>) {
    && (forall b | b in d.deqs :: b in q && q[b].queue != [])
    && (forall b | b in d.enqs :: b in q && |q[b].queue| < q[b].depth)
    && (forall b | b in d.deqs && b in senders :: exists l | l in links :: l.from == b && Moves(q, l))
    && (forall b | b in d.enqs && b !in senders ::
          exists l | l in links :: l.to == b && Moves(q, l) && d.enqs[b] == q[l.from].queue[0])
  }

  lemma MergeRespects<B>(links: set<Link<B>>, senders: set<B>, q: Queues<B>, d: Delta<B>, e: Delta<B>)
    requires Respects(links, senders, q, d) && Respects(links, senders, q, e)
    ensures Respects(links, senders, q, Merge(d, e))
  {
    var m := Merge(d, e);
    forall b | b in m.enqs && b !in senders
      ensures exists l | l in links :: l.to == b && Moves(q, l) && m.enqs[b] == q[l.from].queue[0]
    {
      if b in e.enqs { assert m.enqs[b] == e.enqs[b]; } else { assert m.enqs[b] == d.enqs[b]; }
    }
  }

  lemma {:induction false} MergeAllRespects<B>(links: set<Link<B>>, senders: set<B>, q: Queues<B>, ds: seq<Delta<B>>)
    requires forall k | 0 <= k < |ds| :: Respects(links, senders, q, ds[k])
    ensures Respects(links, senders, q, MergeAll(ds))
    decreases ds
  {
    if ds != [] {
      MergeAllRespects(links, senders, q, ds[..|ds| - 1]);
      MergeRespects(links, senders, q, MergeAll(ds[..|ds| - 1]), ds[|ds| - 1]);
    }
  }

  lemma TransferRespects<B>(links: set<Link<B>>, senders: set<B>, q: Queues<B>, l: Link<B>)
    requires Bounded(q) && Directed(q, senders, links) && l in links
    ensures Respects(links, senders, q, Transfer(q, l))
  {
  }

  lemma {:induction false} TransfersRespect<B>(links: set<Link<B>>, senders: set<B>, q: Queues<B>, ls: seq<Link<B>>)
    requires Bounded(q) && Directed(q, senders, links) && forall l | l in ls :: l in links
    ensures Respects(links, senders, q, Transfers(q, ls))
    decreases ls
  {
    hide Respects, Directed, Bounded, Transfer, Merge;
    if ls == [] {
      NothingRespects(links, senders, q);
    } else {
      var n := |ls| - 1;
      assert forall l | l in ls[..n] :: l in ls;
      TransfersRespect(links, senders, q, ls[..n]);
      TransferRespects(links, senders, q, ls[n]);
      MergeRespects(links, senders, q, Transfers(q, ls[..n]), Transfer(q, ls[n]));
    }
  }

  lemma NothingRespects<B>(links: set<Link<B>>, senders: set<B>, q: Queues<B>)
    ensures Respects(links, senders, q, Nothing())
  {
  }

  /** Running well-formed code, a core never dequeues an empty buffer nor enqueues on a full one. */
  lemma CoreRespects<B>(links: set<Link<B>>, senders: set<B>, q: Queues<B>, e: Element<B>)
    requires Bounded(q) && ElementWired(q, senders, e)
    ensures Respects(links, senders, q, CoreDelta(q, e))
    ensures forall b | b in CoreDelta(q, e).enqs :: b in e.w.outs
  {
    var pe := PeOf(q, e);
    hide Eligible, Scheduled, WellFormedProgram, Compute, ReadOperands, Bounded, ElementWired, Chosen, ViewOf;
    match Scheduled(e.m, pe)
    case None =>
    case Some(i) =>
      TakenAreFilled(senders, q, e, i);
      FilledHaveRoom(senders, q, e, i);
  }

  lemma TakenAreFilled<B>(senders: set<B>, q: Queues<B>, e: Element<B>, i: Instruction)
    requires ElementWired(q, senders, e) && i in e.m.program && Eligible(i.trigger, ViewOf(e.m.cp, PeOf(q, e)))
    ensures forall b | b in Chosen(e.w.ins, i.dequeues) :: b in q && b !in senders && q[b].queue != []
  {
    var v := ViewOf(e.m.cp, PeOf(q, e));
    forall b | b in Chosen(e.w.ins, i.dequeues) ensures b in q && b !in senders && q[b].queue != [] {
      var c :| c in i.dequeues && c < |e.w.ins| && e.w.ins[c] == b;
      assert c in i.trigger.inputChannels;
      assert !v.empty[c];
    }
  }

  lemma FilledHaveRoom<B>(senders: set<B>, q: Queues<B>, e: Element<B>, i: Instruction)
    requires Bounded(q) && ElementWired(q, senders, e) && Eligible(i.trigger, ViewOf(e.m.cp, PeOf(q, e)))
    ensures forall b | b in Chosen(e.w.outs, i.trigger.outputChannels) ::
      b in q && b in senders && |q[b].queue| < q[b].depth && b in e.w.outs
  {
    var v := ViewOf(e.m.cp, PeOf(q, e));
    forall b | b in Chosen(e.w.outs, i.trigger.outputChannels)
      ensures b in q && b in senders && |q[b].queue| < q[b].depth && b in e.w.outs
    {
      var c :| c in i.trigger.outputChannels && c < |e.w.outs| && e.w.outs[c] == b;
      assert !v.full[c];
    }
  }

  lemma ElementRespects<B>(s: System<B>, senders: set<B>, k: nat)
    requires Wired(s, senders) && k < |s.elements|
    ensures Respects(Links(s), senders, s.queues, ElementDelta(s.queues, s.elements[k]))
  {
    var e := s.elements[k];
    forall l | l in RouterLinks(e.w) ensures l in Links(s) { }
    hide Respects, RouterLinks, CoreDelta, Transfers, Directed, Bounded, ElementWired, Matching, OwnOutputs;
    CoreRespects(Links(s), senders, s.queues, e);
    TransfersRespect(Links(s), senders, s.queues, RouterLinks(e.w));
    MergeRespects(Links(s), senders, s.queues, CoreDelta(s.queues, e), Transfers(s.queues, RouterLinks(e.w)));
  }

  lemma PortRespects<B>(links: set<Link<B>>, senders: set<B>, q: Queues<B>, p: ReadPort<B>)
    requires Bounded(q) && Directed(q, senders, links) && ReadPortWired(q, senders, p)
    requires forall l | l in PortLinks(p) :: l in links
    ensures Respects(links, senders, q, PortDelta(q, p))
  {
    var own := Delta(if Serves(q, p) then {p.addrIn} else {}, if Answers(q, p) then map[p.dataOut := p.pending.value] else map[]);
    assert Respects(links, senders, q, own);
    TransfersRespect(links, senders, q, PortLinks(p));
    hide Respects, Transfers, Directed, Bounded, Serves, Answers, PortLinks;
    MergeRespects(links, senders, q, Transfers(q, PortLinks(p)), own);
  }

  lemma WriteRespects<B>(links: set<Link<B>>, senders: set<B>, q: Queues<B>, p: WritePort<B>)
    requires WritePortWired(q, senders, p)
    ensures Respects(links, senders, q, WriteDelta(q, p))
  {
  }

  lemma MemoryRespects<B>(s: System<B>, senders: set<B>, k: nat)
    requires Wired(s, senders) && k < |s.memories|
    ensures Respects(Links(s), senders, s.queues, MemoryDelta(s.queues, s.memories[k]))
  {
    var q, m := s.queues, s.memories[k];
    forall j, l | 0 <= j < |m.readPorts| && l in PortLinks(m.readPorts[j]) ensures l in Links(s) { }
    hide Respects, PortDelta, WriteDelta, Directed, Bounded, ReadPortWired, WritePortWired, Links, Merge, MergeAll, PortLinks,
         ElementWired, OwnOutputs, Matching;
    forall j | 0 <= j < |m.readPorts| ensures Respects(Links(s), senders, q, PortDeltas(q, m)[j]) {
      PortRespects(Links(s), senders, q, m.readPorts[j]);
    }
    forall j | 0 <= j < |m.writePorts| ensures Respects(Links(s), senders, q, WriteDeltas(q, m)[j]) {
      WriteRespects(Links(s), senders, q, m.writePorts[j]);
    }
    MergeAllRespects(Links(s), senders, q, PortDeltas(q, m));
    MergeAllRespects(Links(s), senders, q, WriteDeltas(q, m));
    MergeRespects(Links(s), senders, q, MergeAll(PortDeltas(q, m)), MergeAll(WriteDeltas(q, m)));
  }

  /**
   * Nothing a well-wired system stages can raise an exception: dequeues find packets and enqueues find room, and
   * links are the only way from a sending to a receiving buffer.
   */
  lemma StagedRespects<B>(s: System<B>, senders: set<B>)
    requires Wired(s, senders)
    ensures Respects(Links(s), senders, s.queues, Staged(s))
  {
    hide Respects, ElementDelta, MemoryDelta, Links, Wired;
    forall k | 0 <= k < |s.elements| ensures Respects(Links(s), senders, s.queues, ElementDeltas(s)[k]) {
      ElementRespects(s, senders, k);
    }
    forall k | 0 <= k < |s.memories| ensures Respects(Links(s), senders, s.queues, MemoryDeltas(s)[k]) {
      MemoryRespects(s, senders, k);
    }
    MergeAllRespects(Links(s), senders, s.queues, ElementDeltas(s));
    MergeAllRespects(Links(s), senders, s.queues, MemoryDeltas(s));
    MergeRespects(Links(s), senders, s.queues, MergeAll(ElementDeltas(s)), MergeAll(MemoryDeltas(s)));
  }

  // --- A link that can move does move ---

  lemma {:induction false} TransfersInclude<B>(q: Queues<B>, ls: seq<Link<B>>, l: Link<B>)
    requires l in ls && Moves(q, l)
    ensures l.from in Transfers(q, ls).deqs && l.to in Transfers(q, ls).enqs
    decreases ls
  {
    var n := |ls| - 1;
    if ls[n] != l {
      assert l in ls[..n];
      TransfersInclude(q, ls[..n], l);
    }
  }

  lemma {:induction false} MergeAllIncludes<B>(ds: seq<Delta<B>>, k: nat)
    requires k < |ds|
    ensures ds[k].deqs <= MergeAll(ds).deqs && ds[k].enqs.Keys <= MergeAll(ds).enqs.Keys
    decreases ds
  {
    if k < |ds| - 1 { MergeAllIncludes(ds[..|ds| - 1], k); }
  }

  lemma MergeIncludes<B>(d: Delta<B>, e: Delta<B>)
    ensures d.deqs <= Merge(d, e).deqs && e.deqs <= Merge(d, e).deqs
    ensures d.enqs.Keys <= Merge(d, e).enqs.Keys && e.enqs.Keys <= Merge(d, e).enqs.Keys
  {
  }

  lemma MovesAreStaged<B>(s: System<B>, l: Link<B>)
    requires l in Links(s) && Moves(s.queues, l)
    ensures l.from in Staged(s).deqs && l.to in Staged(s).enqs
  {
    var q := s.queues;
    hide Moves, Transfers, MergeAll, Merge, CoreDelta, Serves, Answers, WriteDeltas;
    MergeIncludes(MergeAll(ElementDeltas(s)), MergeAll(MemoryDeltas(s)));
    if l in ElementLinks(s.elements) {
      var k :| 0 <= k < |s.elements| && l in RouterLinks(s.elements[k].w);
      TransfersInclude(q, RouterLinks(s.elements[k].w), l);
      MergeIncludes(CoreDelta(q, s.elements[k]), Transfers(q, RouterLinks(s.elements[k].w)));
      MergeAllIncludes(ElementDeltas(s), k);
    } else {
      var k, j :| 0 <= k < |s.memories| && 0 <= j < |s.memories[k].readPorts| && l in PortLinks(s.memories[k].readPorts[j]);
      PortMoveIsStaged(s, k, j, l);
      MergeAllIncludes(MemoryDeltas(s), k);
    }
  }

  lemma PortMoveIsStaged<B>(s: System<B>, k: nat, j: nat, l: Link<B>)
    requires k < |s.memories| && j < |s.memories[k].readPorts| && l in PortLinks(s.memories[k].readPorts[j])
    requires Moves(s.queues, l)
    ensures l.from in MemoryDelta(s.queues, s.memories[k]).deqs && l.to in MemoryDelta(s.queues, s.memories[k]).enqs
  {
    var q, m := s.queues, s.memories[k];
    var p := m.readPorts[j];
    var own := Delta(if Serves(q, p) then {p.addrIn} else {}, if Answers(q, p) then map[p.dataOut := p.pending.value] else map[]);
    hide Moves, Transfers, MergeAll, Merge, Serves, Answers, PortLinks;
    TransfersInclude(q, PortLinks(p), l);
    MergeIncludes(Transfers(q, PortLinks(p)), own);
    MergeAllIncludes(PortDeltas(q, m), j);
    MergeIncludes(MergeAll(PortDeltas(q, m)), MergeAll(WriteDeltas(q, m)));
  }

  /** In every cycle both ends of a link see the same event: the head moves, or nothing does. */
  lemma LinkEvent<B>(s: System<B>, senders: set<B>, l: Link<B>)
    requires Wired(s, senders) && l in Links(s)
    ensures l.from in Staged(s).deqs <==> Moves(s.queues, l)
    ensures l.to in Staged(s).enqs <==> Moves(s.queues, l)
    ensures Moves(s.queues, l) ==> Staged(s).enqs[l.to] == s.queues[l.from].queue[0]
  {
    StagedRespects(s, senders);
    if Moves(s.queues, l) { MovesAreStaged(s, l); }
    hide Staged, Moves, Links, ElementWired, MemoryWired;
  }

  /** A link is never idle without a reason: it moves the head in a cycle iff there is one and the other end has room. */
  lemma LinkMovesIff<B>(s: System<B>, senders: set<B>, l: Link<B>)
    requires Wired(s, senders) && l in Links(s)
    ensures
      && l.from in s.queues && l.to in s.queues
      && var from, to := s.queues[l.from].queue, s.queues[l.to];
         if from != [] && |to.queue| < to.depth then
           l.from in Staged(s).deqs && l.to in Staged(s).enqs && Staged(s).enqs[l.to] == from[0]
         else l.from !in Staged(s).deqs && l.to !in Staged(s).enqs
  {
    LinkEvent(s, senders, l);
    assert |s.queues[l.to].queue| <= s.queues[l.to].depth;
    hide Links, Staged, Matching, ElementWired, MemoryWired, OwnOutputs;
  }

  // --- Lossless links ---

  /** What is between the producer and the consumer of a link. */
  function InTransit<B(==)>(q: Queues<B>, l: Link<B>): seq<Packet>
    requires l.from in q && l.to in q
  {
    q[l.to].queue + q[l.from].queue
  }

  function Produced<B(==)>(s: System<B>, b: B): seq<Packet> {
    if b in Staged(s).enqs then [Staged(s).enqs[b]] else []
  }

  function Consumed<B(==)>(s: System<B>, b: B): seq<Packet> {
    if b in Staged(s).deqs && b in s.queues && s.queues[b].queue != [] then [s.queues[b].queue[0]] else []
  }

  lemma LinkBuffers<B>(s: System<B>, senders: set<B>, l: Link<B>)
    requires Wired(s, senders) && l in Links(s) && Respects(Links(s), senders, s.queues, Staged(s))
    ensures l.to in s.queues && l.from in s.queues
    ensures l.to in Staged(s).deqs ==> s.queues[l.to].queue != []
  {
    hide Staged, Links, Moves, ElementWired, MemoryWired;
  }

  lemma LinkConserves<B>(s: System<B>, senders: set<B>, l: Link<B>)
    requires Wired(s, senders) && l in Links(s)
    ensures
      Consumed(s, l.to) + InTransit(Cycle(s).queues, l) == InTransit(s.queues, l) + Produced(s, l.from)
  {
    hide Staged, Links, Wired, Respects;
    LinkEvent(s, senders, l);
    StagedRespects(s, senders);
    var q, d := s.queues, Staged(s);
    LinkBuffers(s, senders, l);
    TransitStep(q[l.to].queue, q[l.from].queue, Moves(q, l), l.to in d.deqs, Produced(s, l.from));
  }

  lemma TransitStep(r: seq<Packet>, t: seq<Packet>, moves: bool, pop: bool, p: seq<Packet>)
    requires moves ==> t != []
    requires pop ==> r != []
    ensures (if pop then [r[0]] else []) + ((PopIf(r, pop) + (if moves then [t[0]] else [])) + (PopIf(t, moves) + p)) == (r + t) + p
  {
    assert pop ==> [r[0]] + r[1..] == r;
    assert moves ==> [t[0]] + t[1..] == t;
  }

  // --- Wiring is never changed ---

  lemma SameElement<B>(q: Queues<B>, e: Element<B>)
    ensures CoreNext(q, e).w == e.w && CoreNext(q, e).m == e.m
  {
    hide Iterate;
  }

  lemma SameElements<B>(q: Queues<B>, q': Queues<B>, senders: set<B>, es: seq<Element<B>>, fs: seq<Element<B>>)
    requires |es| == |fs| && forall k | 0 <= k < |es| :: fs[k].w == es[k].w && fs[k].m == es[k].m
    requires q'.Keys == q.Keys && forall b | b in q :: q'[b].depth == q[b].depth
    ensures ElementLinks(fs) == ElementLinks(es)
    ensures OwnOutputs(es) ==> OwnOutputs(fs)
    ensures (forall k | 0 <= k < |es| :: ElementWired(q, senders, es[k])) ==> forall k | 0 <= k < |fs| :: ElementWired(q', senders, fs[k])
  {
    hide WellFormedProgram, RouterLinks;
    assert forall k | 0 <= k < |es| :: RouterLinks(fs[k].w) == RouterLinks(es[k].w);
    if forall k | 0 <= k < |es| :: ElementWired(q, senders, es[k]) {
      forall k | 0 <= k < |fs| ensures ElementWired(q', senders, fs[k]) { assert ElementWired(q, senders, es[k]); }
    }
    if OwnOutputs(es) {
      forall j, k, b | 0 <= j < k < |fs| && b in fs[j].w.outs ensures b !in fs[k].w.outs { assert b in es[j].w.outs; }
    }
  }

  predicate SamePorts<B(==)>(m: Memory<B>, m': Memory<B>) {
    && m'.writePorts == m.writePorts
    && |m'.readPorts| == |m.readPorts|
    && forall j | 0 <= j < |m.readPorts| ::
         m'.readPorts[j].(pending := None) == m.readPorts[j].(pending := None)
  }

  lemma NextPorts<B>(q: Queues<B>, m: Memory<B>)
    ensures SamePorts(m, MemoryNext(q, m))
  {
    hide Written, Serves, Answers;
  }

  lemma SameMemories<B>(q: Queues<B>, q': Queues<B>, senders: set<B>, ms: seq<Memory<B>>, ns: seq<Memory<B>>)
    requires |ms| == |ns| && forall k | 0 <= k < |ms| :: SamePorts(ms[k], ns[k])
    requires q'.Keys == q.Keys
    ensures MemoryLinks(ns) == MemoryLinks(ms)
    ensures (forall k | 0 <= k < |ms| :: MemoryWired(q, senders, ms[k])) ==> forall k | 0 <= k < |ns| :: MemoryWired(q', senders, ns[k])
  {
    forall k, j | 0 <= k < |ms| && 0 <= j < |ms[k].readPorts|
      ensures |ns[k].readPorts| == |ms[k].readPorts| && PortLinks(ns[k].readPorts[j]) == PortLinks(ms[k].readPorts[j])
    {
      assert SamePorts(ms[k], ns[k]);
      SamePortLinks(ms[k].readPorts[j], ns[k].readPorts[j]);
    }
    forall l ensures l in MemoryLinks(ns) <==> l in MemoryLinks(ms) { MemoryLinksAgree(ms, ns, l); }
    if forall k | 0 <= k < |ms| :: MemoryWired(q, senders, ms[k]) {
      forall k | 0 <= k < |ns| ensures MemoryWired(q', senders, ns[k]) { StillWired(q, q', senders, ms[k], ns[k]); }
    }
  }

  lemma MemoryLinksAgree<B>(ms: seq<Memory<B>>, ns: seq<Memory<B>>, l: Link<B>)
    requires |ms| == |ns|
    requires forall k, j | 0 <= k < |ms| && 0 <= j < |ms[k].readPorts| ::
      |ns[k].readPorts| == |ms[k].readPorts| && PortLinks(ns[k].readPorts[j]) == PortLinks(ms[k].readPorts[j])
    requires forall k | 0 <= k < |ms| :: |ns[k].readPorts| == |ms[k].readPorts|
    ensures l in MemoryLinks(ns) <==> l in MemoryLinks(ms)
  {
    hide PortLinks;
    if l in MemoryLinks(ns) {
      var k, j :| 0 <= k < |ns| && 0 <= j < |ns[k].readPorts| && l in PortLinks(ns[k].readPorts[j]);
      assert l in PortLinks(ms[k].readPorts[j]);
    }
  }

  lemma SamePortLinks<B>(p: ReadPort<B>, p': ReadPort<B>)
    requires p'.(pending := None) == p.(pending := None)
    ensures PortLinks(p') == PortLinks(p) && p'.addrIn == p.addrIn && p'.dataOut == p.dataOut
  {
    assert p'.(pending := None).addrIn == p.(pending := None).addrIn && p'.(pending := None).dataOut == p.(pending := None).dataOut;
    assert p'.(pending := None).peripheral == p.(pending := None).peripheral;
  }

  lemma StillWired<B>(q: Queues<B>, q': Queues<B>, senders: set<B>, m: Memory<B>, m': Memory<B>)
    requires SamePorts(m, m') && q'.Keys == q.Keys && MemoryWired(q, senders, m)
    ensures MemoryWired(q', senders, m')
  {
    forall j | 0 <= j < |m'.readPorts| ensures ReadPortWired(q', senders, m'.readPorts[j]) {
      assert ReadPortWired(q, senders, m.readPorts[j]);
      SamePortLinks(m.readPorts[j], m'.readPorts[j]);
    }
  }

  lemma BoundedNext<B>(links: set<Link<B>>, senders: set<B>, q: Queues<B>, d: Delta<B>)
    requires Bounded(q) && Respects(links, senders, q, d)
    ensures Bounded(Commit(q, d))
    ensures Commit(q, d).Keys == q.Keys && forall b | b in q :: Commit(q, d)[b].depth == q[b].depth
  {
    var q' := Commit(q, d);
    forall b | b in q' ensures |q'[b].queue| <= q'[b].depth {
      assert b in d.enqs ==> |q[b].queue| < q[b].depth;
    }
  }

  /** The wiring survives a cycle, and no buffer exceeds its depth. */
  lemma WiredForever<B>(s: System<B>, senders: set<B>)
    requires Wired(s, senders)
    ensures Wired(Cycle(s), senders) && Links(Cycle(s)) == Links(s)
  {
    hide Staged, Respects, CoreNext, MemoryNext, Commit, ElementLinks, MemoryLinks, Matching, Bounded, OwnOutputs, ElementWired, MemoryWired,
         SamePorts;
    StagedRespects(s, senders);
    var q' := Commit(s.queues, Staged(s));
    BoundedNext(Links(s), senders, s.queues, Staged(s));
    forall k | 0 <= k < |s.elements| ensures NextElements(s)[k].w == s.elements[k].w && NextElements(s)[k].m == s.elements[k].m {
      SameElement(s.queues, s.elements[k]);
    }
    forall k | 0 <= k < |s.memories| ensures SamePorts(s.memories[k], NextMemories(s)[k]) {
      NextPorts(s.queues, s.memories[k]);
    }
    SameElements(s.queues, q', senders, s.elements, NextElements(s));
    SameMemories(s.queues, q', senders, s.memories, NextMemories(s));
    assert Directed(q', senders, Links(s));
  }

  function AllProduced<B(==)>(s: System<B>, b: B, n: nat): seq<Packet>
    decreases n
  {
    if n == 0 then [] else Produced(s, b) + AllProduced(Cycle(s), b, n - 1)
  }

  function AllConsumed<B(==)>(s: System<B>, b: B, n: nat): seq<Packet>
    decreases n
  {
    if n == 0 then [] else Consumed(s, b) + AllConsumed(Cycle(s), b, n - 1)
  }

  lemma {:induction false} StaysWired<B>(s: System<B>, senders: set<B>, n: nat)
    requires Wired(s, senders)
    ensures Wired(Cycles(s, n), senders) && Links(Cycles(s, n)) == Links(s)
    decreases n
  {
    hide Wired, Cycle, Links;
    if n > 0 {
      WiredForever(s, senders);
      StaysWired(Cycle(s), senders, n - 1);
    }
  }

  /**
   * Every link is a lossless FIFO over any number of cycles: what was underway and what the sender enqueued is
   * exactly what the receiver dequeued followed by what is still underway, in order.
   */
  lemma {:induction false} LinkIsLosslessFifo<B>(s: System<B>, senders: set<B>, l: Link<B>, n: nat)
    requires Wired(s, senders) && l in Links(s)
    ensures l.from in s.queues && l.to in s.queues && l.from in Cycles(s, n).queues && l.to in Cycles(s, n).queues
    ensures AllConsumed(s, l.to, n) + InTransit(Cycles(s, n).queues, l) == InTransit(s.queues, l) + AllProduced(s, l.from, n)
    decreases n
  {
    hide *;
    StaysWired(s, senders, n);
    LinkEndsExist(s, senders, l);
    LinkEndsExist(Cycles(s, n), senders, l);
    RunUnfolds(s, l, n);
    if n > 0 {
      WiredForever(s, senders);
      LinkConserves(s, senders, l);
      LinkIsLosslessFifo(Cycle(s), senders, l, n - 1);
      Telescope(Consumed(s, l.to), AllConsumed(Cycle(s), l.to, n - 1), InTransit(Cycles(s, n).queues, l),
                InTransit(Cycle(s).queues, l), AllProduced(Cycle(s), l.from, n - 1), InTransit(s.queues, l), Produced(s, l.from));
    }
  }

  lemma RunUnfolds<B>(s: System<B>, l: Link<B>, n: nat)
    requires l.from in s.queues && l.to in s.queues
    ensures n == 0 ==> AllConsumed(s, l.to, n) + InTransit(s.queues, l) == InTransit(s.queues, l) + AllProduced(s, l.from, n)
    ensures n == 0 ==> Cycles(s, n) == s
    ensures n > 0 ==>
      && Cycles(s, n) == Cycles(Cycle(s), n - 1)
      && AllConsumed(s, l.to, n) == Consumed(s, l.to) + AllConsumed(Cycle(s), l.to, n - 1)
      && AllProduced(s, l.from, n) == Produced(s, l.from) + AllProduced(Cycle(s), l.from, n - 1)
  {
    hide InTransit, Consumed, Produced, Cycle;
  }

  lemma Telescope(c: seq<Packet>, cs: seq<Packet>, end: seq<Packet>, next: seq<Packet>, ps: seq<Packet>, now: seq<Packet>, p: seq<Packet>)
    requires cs + end == next + ps && c + next == now + p
    ensures (c + cs) + end == now + (p + ps)
  {
    assert (c + cs) + end == c + (cs + end);
    assert c + (next + ps) == (c + next) + ps;
    assert (now + p) + ps == now + (p + ps);
  }

  lemma LinkEndsExist<B>(s: System<B>, senders: set<B>, l: Link<B>)
    requires Wired(s, senders) && l in Links(s)
    ensures l.from in s.queues && l.to in s.queues
  {
  }

  /** In every cycle of every run nothing overflows, nothing underflows and nothing is evicted. */
  lemma NoException<B>(s: System<B>, senders: set<B>, n: nat, b: B)
    requires Wired(s, senders) && b in Cycles(s, n).queues
    ensures
      var now := Cycles(s, n);
      && |now.queues[b].queue| <= now.queues[b].depth
      && (b in Staged(now).deqs ==> now.queues[b].queue != [])
      && (b in Staged(now).enqs ==> |now.queues[b].queue| < now.queues[b].depth)
  {
    hide Staged, Links, Cycle, Cycles;
    StaysWired(s, senders, n);
    StagedRespects(Cycles(s, n), senders);
  }
}
