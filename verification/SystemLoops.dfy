/**
 * The other half of the halt condition. Whenever answers feed both inputs of a write port there is a program, a memory
 * image and a pair of legal read requests with which the system reports a halt and then overwrites a memory word.
 */
module SystemLoops {
  import opened Prelude
  import opened Instructions
  import opened Sequential
  import opened Simulator
  import opened Wires
  import opened Staging
  import opened SystemHalts

  // --- Systems with the same wiring ---

  /** Same buffers, same connections and same core parameters; programs and contents may differ. */
  predicate SameWiring<B(==)>(s: System<B>, s': System<B>) {
    && |s'.elements| == |s.elements| && |s'.memories| == |s.memories| && s'.queues.Keys == s.queues.Keys
    && (forall k | 0 <= k < |s.elements| :: s'.elements[k].w == s.elements[k].w && s'.elements[k].m.cp == s.elements[k].m.cp)
    && (forall k | 0 <= k < |s.memories| :: SamePorts(s.memories[k], s'.memories[k]))
    && (forall b | b in s.queues :: s'.queues[b].depth == s.queues[b].depth)
  }

  /** Cores and ports have just been reset, and nothing but read requests is waiting. */
  ghost predicate AtReset<B>(s: System<B>) {
    && (forall k | 0 <= k < |s.elements| :: Cleared(s.elements[k]))
    && (forall r | HasRole(s.memories, r) && r.Reads() :: ReadPortOf(s.memories, r).pending.None?)
    && (forall b | b in s.queues && s.queues[b].queue != [] :: exists r | HasRole(s.memories, r) && r.ReadAddress? :: BufferOf(s.memories, r) == b)
  }

  predicate Cleared<B(==)>(e: Element<B>) {
    e.core == CoreState(seq(e.m.cp.numPredicates, _ => false), seq(e.m.cp.numRegisters, _ => 0), seq(|e.core.scratchpad|, _ => 0), false, [])
  }

  /** Every address used in this cycle exists. */
  ghost predicate RequestsExist<B>(s: System<B>) {
    forall r | HasRole(s.memories, r) && Takes(s, r) && (r.ReadAddress? || r.WriteAddress?) ::
      AddressExists(s, r)
  }

  predicate AddressExists<B(==)>(s: System<B>, r: Role)
    requires HasRole(s.memories, r)
  {
    var b := BufferOf(s.memories, r);
    b in s.queues && s.queues[b].queue != [] && 0 <= s.queues[b].queue[0].value < |s.memories[r.memory].contents|
  }

  /** A cycle in which no memory and no core raises an exception. */
  ghost predicate Legal<B>(s: System<B>) {
    RequestsExist(s) && forall k | 0 <= k < |s.elements| :: StaysInScratchpad(s.queues, s.elements[k])
  }

  ghost predicate LegalRun<B>(s: System<B>, n: nat)
    decreases n
  {
    n > 0 ==> Legal(s) && LegalRun(Cycle(s), n - 1)
  }

  /** In no legal run from reset with this wiring does memory change after a halt has been reported. */
  ghost predicate HaltsAreFinal<B(!new)>(wiring: System<B>, senders: set<B>) {
    forall s, n: nat, m: nat |
      && SameWiring(wiring, s) && Wired(s, senders) && AtReset(s)
      && LegalRun(s, n + m) && Halted(Cycles(s, n)) ::
      SameContents(Cycles(s, n).memories, Cycles(Cycles(s, n), m).memories)
  }

  // --- Wiring decides ---

  lemma SameWiringSameLinks<B>(s: System<B>, s': System<B>)
    requires SameWiring(s, s')
    ensures Links(s') == Links(s)
  {
    hide RouterLinks, PortLinks;
    assert forall k | 0 <= k < |s.elements| :: RouterLinks(s'.elements[k].w) == RouterLinks(s.elements[k].w);
    assert ElementLinks(s'.elements) == ElementLinks(s.elements);
    hide ElementLinks;
    SameMemories(s.queues, s'.queues, {}, s.memories, s'.memories);
    hide MemoryLinks;
  }

  lemma SameWiringSameRole<B>(s: System<B>, s': System<B>, r: Role)
    requires SameWiring(s, s')
    ensures HasRole(s'.memories, r) <==> HasRole(s.memories, r)
    ensures HasRole(s.memories, r) ==> BufferOf(s'.memories, r) == BufferOf(s.memories, r)
  {
    if r.memory < |s.memories| {
      assert SamePorts(s.memories[r.memory], s'.memories[r.memory]);
      if HasRole(s.memories, r) && r.Reads() { SamePortLinks(ReadPortOf(s.memories, r), ReadPortOf(s'.memories, r)); }
    }
  }

  lemma SameWiringSameLoops<B>(s: System<B>, s': System<B>)
    requires SameWiring(s, s')
    ensures Looped(s') <==> Looped(s)
  {
    SameWiringSameLinks(s, s');
    forall r
      ensures HasRole(s'.memories, r) <==> HasRole(s.memories, r)
      ensures HasRole(s.memories, r) ==> BufferOf(s'.memories, r) == BufferOf(s.memories, r)
    {
      SameWiringSameRole(s, s', r);
    }
    hide SameWiring, HasRole, BufferOf, Links;
    forall b ensures TakesAnswers(s'.memories, b) <==> TakesAnswers(s.memories, b) { }
    assert forall r | HasRole(s.memories, r) && r.WriteAddress? :: HasRole(s.memories, Partner(r)) by {
      forall r | HasRole(s.memories, r) && r.WriteAddress? ensures HasRole(s.memories, Partner(r)) { PartnerExists(s.memories, r); }
    }
  }

  lemma DepthsNext<B>(q: Queues<B>, d: Delta<B>)
    ensures Commit(q, d).Keys == q.Keys && forall b | b in q :: Commit(q, d)[b].depth == q[b].depth
  {
  }

  lemma SameWiringNext<B>(s: System<B>)
    ensures SameWiring(s, Cycle(s))
  {
    hide Staged, SamePorts, CoreNext, MemoryNext, Commit;
    DepthsNext(s.queues, Staged(s));
    forall k | 0 <= k < |s.elements| ensures NextElements(s)[k].w == s.elements[k].w && NextElements(s)[k].m == s.elements[k].m {
      SameElement(s.queues, s.elements[k]);
    }
    forall k | 0 <= k < |s.memories| ensures SamePorts(s.memories[k], NextMemories(s)[k]) { NextPorts(s.queues, s.memories[k]); }
  }

  lemma SameWiringTrans<B>(s: System<B>, s': System<B>, s'': System<B>)
    requires SameWiring(s, s') && SameWiring(s', s'')
    ensures SameWiring(s, s'')
  {
    forall k | 0 <= k < |s.memories| ensures SamePorts(s.memories[k], s''.memories[k]) {
      SamePortsTrans(s.memories[k], s'.memories[k], s''.memories[k]);
    }
    hide SamePorts;
  }

  lemma SamePortsTrans<B>(m: Memory<B>, m': Memory<B>, m'': Memory<B>)
    requires SamePorts(m, m') && SamePorts(m', m'')
    ensures SamePorts(m, m'')
  {
  }

  // --- Sparse systems: at most one packet in a few buffers ---

  /** Each buffer holds its packet of `held`, or nothing; each port holds back its answer of `pend`, or nothing. */
  ghost predicate Sparse<B>(s: System<B>, held: map<B, Packet>, pend: map<Role, Packet>) {
    && (forall b | b in s.queues :: s.queues[b].depth > 0 && s.queues[b].queue == if b in held then [held[b]] else [])
    && (forall r | HasRole(s.memories, r) && r.ReadData? :: ReadPortOf(s.memories, r).pending == if r in pend then Some(pend[r]) else None)
    && (forall k | 0 <= k < |s.memories| :: s.memories[k].contents == [0, 9])
  }

  /** A core that stages nothing now and has halted by the next cycle. */
  predicate Finishes<B(==)>(q: Queues<B>, e: Element<B>) {
    CoreDelta(q, e) == Nothing() && CoreNext(q, e).core.halted && StaysInScratchpad(q, e)
  }

  predicate Finishing<B(==)>(s: System<B>) {
    forall k | 0 <= k < |s.elements| :: Finishes(s.queues, s.elements[k])
  }

  lemma FinishingIsLegal<B>(s: System<B>)
    requires Finishing(s) && RequestsExist(s)
    ensures Legal(s)
  {
    hide RequestsExist, CoreDelta, CoreNext, StaysInScratchpad;
    assert forall k | 0 <= k < |s.elements| :: Finishes(s.queues, s.elements[k]);
  }

  /** A well-wired, sparse system whose cores are done. */
  ghost predicate Settled<B>(s: System<B>, senders: set<B>, held: map<B, Packet>, pend: map<Role, Packet>) {
    Wired(s, senders) && OwnPorts(s) && Finishing(s) && Sparse(s, held, pend)
  }

  lemma FinishingStagesNothing<B>(s: System<B>, b: B)
    requires Finishing(s)
    ensures !CorePuts(s, b) && !CoreTakes(s, b)
  {
    hide CoreDelta, CoreNext;
  }

  lemma LinkMoves<B>(s: System<B>, senders: set<B>, held: map<B, Packet>, pend: map<Role, Packet>, l: Link<B>)
    requires Settled(s, senders, held, pend) && l in Links(s)
    ensures Moves(s.queues, l) ==> l.from in held
    ensures l.from in held && l.to !in held ==> Moves(s.queues, l)
  {
    assert Directed(s.queues, senders, Links(s));
    hide Links, OwnPorts, Finishing, ElementWired, MemoryWired, Matching;
  }

  lemma SettledParts<B>(s: System<B>, senders: set<B>, held: map<B, Packet>, pend: map<Role, Packet>)
    requires Settled(s, senders, held, pend)
    ensures Wired(s, senders) && OwnPorts(s) && Finishing(s) && Sparse(s, held, pend)
  {
    hide Wired, OwnPorts, Finishing, Sparse;
  }

  lemma AddressActs<B>(s: System<B>, held: map<B, Packet>, pend: map<Role, Packet>, r: Role)
    requires Sparse(s, held, pend) && HasRole(s.memories, r) && r.ReadAddress?
    requires BufferOf(s.memories, r) in s.queues
    ensures Takes(s, r) ==> BufferOf(s.memories, r) in held
    ensures pend == map[] && BufferOf(s.memories, r) in held ==> Takes(s, r)
  {
    assert HasRole(s.memories, ReadData(r.memory, r.port));
  }

  lemma DataActs<B>(s: System<B>, held: map<B, Packet>, pend: map<Role, Packet>, r: Role)
    requires Sparse(s, held, pend) && HasRole(s.memories, r) && r.ReadData?
    requires BufferOf(s.memories, r) in s.queues
    ensures Puts(s, r) ==> r in pend && s.queues[BufferOf(s.memories, r)].depth > 0
    ensures r in pend && BufferOf(s.memories, r) !in held ==> Puts(s, r)
  {
  }

  lemma WriteActs<B>(s: System<B>, held: map<B, Packet>, pend: map<Role, Packet>, r: Role)
    requires Sparse(s, held, pend) && HasRole(s.memories, r) && !r.Reads()
    requires BufferOf(s.memories, WriteAddress(r.memory, r.port)) in s.queues && BufferOf(s.memories, WriteData(r.memory, r.port)) in s.queues
    ensures Takes(s, r) <==>
      BufferOf(s.memories, WriteAddress(r.memory, r.port)) in held && BufferOf(s.memories, WriteData(r.memory, r.port)) in held
    ensures BufferOf(s.memories, r) == BufferOf(s.memories, WriteAddress(r.memory, r.port))
         || BufferOf(s.memories, r) == BufferOf(s.memories, WriteData(r.memory, r.port))
  {
  }

  lemma IdleRoles<B>(s: System<B>, r: Role)
    requires HasRole(s.memories, r)
    ensures r.ReadData? ==> !Takes(s, r)
    ensures !r.ReadData? ==> !Puts(s, r)
    ensures r.Reads() <==> r.ReadAddress? || r.ReadData?
    ensures !r.Reads() ==> HasRole(s.memories, WriteAddress(r.memory, r.port)) && HasRole(s.memories, WriteData(r.memory, r.port))
  {
  }

  lemma PortActs<B>(s: System<B>, senders: set<B>, held: map<B, Packet>, pend: map<Role, Packet>, r: Role)
    requires Settled(s, senders, held, pend) && HasRole(s.memories, r)
    ensures Takes(s, r) ==> BufferOf(s.memories, r) in held
    ensures r.ReadAddress? && pend == map[] && BufferOf(s.memories, r) in held ==> Takes(s, r)
    ensures !r.Reads() ==> (Takes(s, r) <==>
      BufferOf(s.memories, WriteAddress(r.memory, r.port)) in held && BufferOf(s.memories, WriteData(r.memory, r.port)) in held)
    ensures Puts(s, r) ==> r in pend && s.queues[BufferOf(s.memories, r)].depth > 0
    ensures r.ReadData? && r in pend && BufferOf(s.memories, r) !in held ==> Puts(s, r)
  {
    hide *;
    SettledParts(s, senders, held, pend);
    IdleRoles(s, r);
    RoleSide(s, senders, r);
    if r.ReadAddress? {
      AddressActs(s, held, pend, r);
    } else if r.ReadData? {
      DataActs(s, held, pend, r);
    } else {
      RoleSide(s, senders, WriteAddress(r.memory, r.port));
      RoleSide(s, senders, WriteData(r.memory, r.port));
      WriteActs(s, held, pend, r);
    }
  }

  /** The buffers after a cycle, given what the cycle takes and puts. */
  ghost predicate Exactly<B>(s: System<B>, taken: set<B>, put: map<B, Packet>) {
    forall b | b in s.queues ::
      && (b in Staged(s).deqs <==> b in taken)
      && (b in Staged(s).enqs <==> b in put)
      && (b in put ==> Staged(s).enqs[b] == put[b])
  }

  lemma SparseNext<B>(s: System<B>, held: map<B, Packet>, pend: map<Role, Packet>, put: map<B, Packet>, b: B)
    requires Sparse(s, held, pend) && Exactly(s, held.Keys, put) && b in s.queues
    ensures b in Cycle(s).queues && Cycle(s).queues[b].depth > 0
    ensures Cycle(s).queues[b].queue == if b in put then [put[b]] else []
  {
    hide Staged;
  }

  lemma FinishingNext<B>(s: System<B>)
    requires Finishing(s)
    ensures AllHalted(Cycle(s).elements) && Finishing(Cycle(s))
  {
    hide CoreNext, CoreDelta, StaysInScratchpad, Staged, NextMemories;
    forall k | 0 <= k < |s.elements| ensures Cycle(s).elements[k].core.halted && Finishes(Cycle(s).queues, Cycle(s).elements[k]) {
      assert Finishes(s.queues, s.elements[k]);
      HaltedFinishes(Cycle(s).queues, Cycle(s).elements[k]);
    }
  }

  lemma HaltedFinishes<B>(q: Queues<B>, e: Element<B>)
    requires e.core.halted
    ensures Finishes(q, e)
  {
    HaltedCore(q, e);
    assert Scheduled(e.m, PeOf(q, e)).None?;
    hide CoreNext, CoreDelta, Scheduled, PeOf;
  }

  lemma PendingNext<B>(s: System<B>, r: Role)
    requires HasRole(s.memories, r) && r.ReadData?
    ensures HasRole(Cycle(s).memories, r)
    ensures ReadPortOf(Cycle(s).memories, r) == PortNext(s.queues, s.memories[r.memory].contents, ReadPortOf(s.memories, r))
  {
    hide Staged, Written, PortNext, CoreNext;
  }

  lemma ContentsNext<B>(s: System<B>, k: nat)
    requires k < |s.memories|
    requires forall r | HasRole(s.memories, r) && r.WriteAddress? && r.memory == k :: !Takes(s, r)
    ensures Cycle(s).memories[k].contents == s.memories[k].contents
  {
    var m := s.memories[k];
    forall j | 0 <= j < |m.writePorts| ensures !Writes(s.queues, m.writePorts[j]) {
      assert HasRole(s.memories, WriteAddress(k, j)) && !Takes(s, WriteAddress(k, j));
    }
    NothingWritten(s.queues, m.contents, m.writePorts);
    hide Staged, Written, PortNext, CoreNext, Writes;
  }

  // --- The way of two answers round a loop ---

  /** Two read ports and the write port they feed, with the buffers involved. */
  datatype Loop<B> = Loop(first: Role, second: Role, port: Role, asks: (B, B), answers: (B, B), address: B, data: B) {
    /** The requests, for word 0 and word 1. */
    ghost function Asked(): map<B, Packet> { map[asks.0 := Packet(0, 0), asks.1 := Packet(0, 1)] }

    /** The answers held back by the ports. */
    ghost function Owed(): map<Role, Packet> { map[first := Packet(0, 0), second := Packet(0, 9)] }

    ghost function Answered(): map<B, Packet> { map[answers.0 := Packet(0, 0), answers.1 := Packet(0, 9)] }

    ghost function Arrived(): map<B, Packet> { map[address := Packet(0, 0), data := Packet(0, 9)] }
  }

  ghost predicate ClosesIn<B>(s: System<B>, p: Loop<B>) {
    && HasRole(s.memories, p.first) && p.first.ReadData? && BufferOf(s.memories, p.first) == p.answers.0
    && HasRole(s.memories, p.second) && p.second.ReadData? && BufferOf(s.memories, p.second) == p.answers.1
    && p.first != p.second
    && HasRole(s.memories, Asking(p.first)) && BufferOf(s.memories, Asking(p.first)) == p.asks.0
    && HasRole(s.memories, Asking(p.second)) && BufferOf(s.memories, Asking(p.second)) == p.asks.1
    && HasRole(s.memories, p.port) && p.port.WriteAddress? && BufferOf(s.memories, p.port) == p.address
    && HasRole(s.memories, Partner(p.port)) && BufferOf(s.memories, Partner(p.port)) == p.data
    && Link(p.answers.0, p.address) in Links(s) && Link(p.answers.1, p.data) in Links(s)
  }

  function Asking(r: Role): Role
    requires r.ReadData?
  {
    ReadAddress(r.memory, r.port)
  }

  /** All the buffers of a loop are different ones. */
  lemma LoopBuffersDiffer<B>(s: System<B>, p: Loop<B>)
    requires OwnPorts(s) && ClosesIn(s, p)
    ensures p.asks.0 != p.asks.1 && p.answers.0 != p.answers.1 && p.address != p.data
    ensures forall r | HasRole(s.memories, r) ::
      && (BufferOf(s.memories, r) == p.asks.0 <==> r == Asking(p.first)) && (BufferOf(s.memories, r) == p.asks.1 <==> r == Asking(p.second))
      && (BufferOf(s.memories, r) == p.answers.0 <==> r == p.first) && (BufferOf(s.memories, r) == p.answers.1 <==> r == p.second)
      && (BufferOf(s.memories, r) == p.address <==> r == p.port) && (BufferOf(s.memories, r) == p.data <==> r == Partner(p.port))
  {
    hide Links, BufferOf;
  }

  /** Answers come from sending buffers; requests, addresses and data wait in receiving ones. */
  lemma LoopSides<B>(s: System<B>, senders: set<B>, held: map<B, Packet>, pend: map<Role, Packet>, p: Loop<B>)
    requires Settled(s, senders, held, pend) && ClosesIn(s, p)
    ensures Wired(s, senders) && Finishing(s)
    ensures p.asks.0 !in senders && p.asks.1 !in senders && p.answers.0 in senders && p.answers.1 in senders
    ensures p.address !in senders && p.data !in senders
    ensures p.asks.0 != p.asks.1 && p.answers.0 != p.answers.1 && p.address != p.data
  {
    LoopBuffersDiffer(s, p);
    hide Wired, OwnPorts, Finishing, Sparse, Links, BufferOf, HasRole;
    RoleSide(s, senders, Asking(p.first));
    RoleSide(s, senders, Asking(p.second));
    RoleSide(s, senders, p.first);
    RoleSide(s, senders, p.second);
    RoleSide(s, senders, p.port);
    RoleSide(s, senders, Partner(p.port));
  }

  lemma LoopRoles<B>(s: System<B>, p: Loop<B>)
    requires ClosesIn(s, p)
    ensures HasRole(s.memories, p.first) && HasRole(s.memories, p.second)
    ensures p.first.ReadData? && p.second.ReadData? && p.first != p.second
    ensures HasRole(s.memories, Asking(p.first)) && HasRole(s.memories, Asking(p.second))
    ensures BufferOf(s.memories, p.first) == p.answers.0 && BufferOf(s.memories, p.second) == p.answers.1
    ensures BufferOf(s.memories, Asking(p.first)) == p.asks.0 && BufferOf(s.memories, Asking(p.second)) == p.asks.1
  {
  }

  lemma TakingIs<B>(s: System<B>, r1: Role, r2: Role, b1: B, b2: B, b: B)
    requires HasRole(s.memories, r1) && HasRole(s.memories, r2) && BufferOf(s.memories, r1) == b1 && BufferOf(s.memories, r2) == b2
    requires forall r | HasRole(s.memories, r) :: Takes(s, r) <==> r == r1 || r == r2
    ensures PortTakes(s, b) <==> b == b1 || b == b2
  {
    hide HasRole, BufferOf, Takes;
    assert Takes(s, r1) && Takes(s, r2);
  }

  lemma PuttingIs<B>(s: System<B>, r1: Role, r2: Role, b1: B, b2: B, b: B)
    requires HasRole(s.memories, r1) && HasRole(s.memories, r2) && BufferOf(s.memories, r1) == b1 && BufferOf(s.memories, r2) == b2
    requires forall r | HasRole(s.memories, r) :: Puts(s, r) <==> r == r1 || r == r2
    ensures PortPuts(s, b) <==> b == b1 || b == b2
  {
    hide HasRole, BufferOf, Puts;
    assert Puts(s, r1) && Puts(s, r2);
  }

  lemma ClosesLater<B>(s: System<B>, senders: set<B>, p: Loop<B>)
    requires Wired(s, senders) && ClosesIn(s, p)
    ensures ClosesIn(Cycle(s), p)
  {
    WiredForever(s, senders);
    SameRoles(s, p.first);
    SameRoles(s, p.second);
    SameRoles(s, Asking(p.first));
    SameRoles(s, Asking(p.second));
    SameRoles(s, p.port);
    SameRoles(s, Partner(p.port));
    hide Links, BufferOf, HasRole, Cycle, Wired;
  }

  /** What is staged, buffer by buffer, from what moves and which ports act. */
  lemma StagedBy<B>(s: System<B>, senders: set<B>, b: B)
    requires Wired(s, senders) && Finishing(s)
    ensures b in Staged(s).deqs <==>
      if b in senders then exists l | l in Links(s) && l.from == b :: Moves(s.queues, l) else PortTakes(s, b)
    ensures b in Staged(s).enqs <==>
      if b in senders then PortPuts(s, b) else exists l | l in Links(s) && l.to == b :: Moves(s.queues, l)
  {
    hide *;
    FinishingStagesNothing(s, b);
    LinkEnds(s, senders, b);
    if b in senders { SenderFilled(s, senders, b); } else { ReceiverTaken(s, senders, b); }
  }

  lemma NothingMoves<B>(s: System<B>, senders: set<B>, held: map<B, Packet>, pend: map<Role, Packet>)
    requires Settled(s, senders, held, pend) && forall b | b in held :: b !in senders
    ensures forall l | l in Links(s) :: !Moves(s.queues, l)
  {
    assert Directed(s.queues, senders, Links(s));
    hide Links, Moves, Sparse, OwnPorts, Finishing, ElementWired, MemoryWired;
    forall l | l in Links(s) ensures !Moves(s.queues, l) { LinkMoves(s, senders, held, pend, l); }
  }

  lemma NothingPut<B>(s: System<B>, senders: set<B>, held: map<B, Packet>, b: B)
    requires Settled(s, senders, held, map[])
    ensures !PortPuts(s, b)
  {
    hide Wired, OwnPorts, Finishing, BufferOf, HasRole;
    forall r | HasRole(s.memories, r) ensures !Puts(s, r) { PortActs(s, senders, held, map[], r); }
  }

  // The first cycle: both requests are served and the cores halt.

  lemma AskedIsServed<B>(s: System<B>, senders: set<B>, p: Loop<B>)
    requires Settled(s, senders, p.Asked(), map[]) && ClosesIn(s, p)
    ensures forall r | HasRole(s.memories, r) :: Takes(s, r) <==> r == Asking(p.first) || r == Asking(p.second)
    ensures forall r | HasRole(s.memories, r) && r.WriteAddress? :: !Takes(s, r)
  {
    LoopBuffersDiffer(s, p);
    hide Wired, OwnPorts, Finishing, Staged, Sparse, Links, BufferOf, HasRole, Takes, Puts, Moves;
    forall r | HasRole(s.memories, r) ensures Takes(s, r) <==> r == Asking(p.first) || r == Asking(p.second) {
      PortActs(s, senders, p.Asked(), map[], r);
      BothEnds(s.memories, r);
    }
  }

  lemma OnlyTaken<B>(s: System<B>, senders: set<B>, taken: set<B>, b: B)
    requires Wired(s, senders) && Finishing(s) && taken !! senders
    requires forall l | l in Links(s) :: !Moves(s.queues, l)
    requires PortTakes(s, b) <==> b in taken
    requires !PortPuts(s, b)
    ensures (b in Staged(s).deqs <==> b in taken) && b !in Staged(s).enqs
  {
    hide *;
    StagedBy(s, senders, b);
  }

  lemma AskedStages<B>(s: System<B>, senders: set<B>, p: Loop<B>)
    requires Settled(s, senders, p.Asked(), map[]) && ClosesIn(s, p)
    ensures Exactly(s, p.Asked().Keys, map[])
  {
    hide Wired, OwnPorts, Finishing, Settled, ClosesIn, Staged, Links, BufferOf, HasRole, Takes, Puts, Moves, PortPuts, PortTakes;
    LoopSides(s, senders, p.Asked(), map[], p);
    LoopRoles(s, p);
    AskedIsServed(s, senders, p);
    NothingMoves(s, senders, p.Asked(), map[]);
    forall b | b in s.queues ensures (b in Staged(s).deqs <==> b in p.Asked().Keys) && b !in Staged(s).enqs {
      TakingIs(s, Asking(p.first), Asking(p.second), p.asks.0, p.asks.1, b);
      NothingPut(s, senders, p.Asked(), b);
      OnlyTaken(s, senders, p.Asked().Keys, b);
    }
  }

  lemma BothEnds<B>(ms: seq<Memory<B>>, r: Role)
    requires HasRole(ms, r)
    ensures !r.Reads() ==> HasRole(ms, WriteAddress(r.memory, r.port)) && HasRole(ms, WriteData(r.memory, r.port))
    ensures r.Reads() ==> HasRole(ms, ReadAddress(r.memory, r.port)) && HasRole(ms, ReadData(r.memory, r.port))
  {
  }

  /** The state after a cycle, from what it moves and what the ports do. */
  lemma SettledNext<B>(s: System<B>, senders: set<B>, held: map<B, Packet>, pend: map<Role, Packet>, held': map<B, Packet>, pend': map<Role, Packet>)
    requires Settled(s, senders, held, pend) && Exactly(s, held.Keys, held')
    requires forall r | HasRole(s.memories, r) && r.ReadData? ::
      PortNext(s.queues, [0, 9], ReadPortOf(s.memories, r)).pending == if r in pend' then Some(pend'[r]) else None
    requires forall r | HasRole(s.memories, r) && r.WriteAddress? :: !Takes(s, r)
    ensures Settled(Cycle(s), senders, held', pend')
  {
    WiredForever(s, senders);
    StillOwnPorts(s);
    FinishingNext(s);
    SparseLater(s, held, pend, held', pend');
    hide Wired, OwnPorts, Finishing, Sparse, Cycle, Exactly;
  }

  lemma SparseLater<B>(s: System<B>, held: map<B, Packet>, pend: map<Role, Packet>, held': map<B, Packet>, pend': map<Role, Packet>)
    requires Sparse(s, held, pend) && Exactly(s, held.Keys, held')
    requires forall r | HasRole(s.memories, r) && r.ReadData? ::
      PortNext(s.queues, [0, 9], ReadPortOf(s.memories, r)).pending == if r in pend' then Some(pend'[r]) else None
    requires forall r | HasRole(s.memories, r) && r.WriteAddress? :: !Takes(s, r)
    ensures Sparse(Cycle(s), held', pend')
  {
    SameWiringNext(s);
    hide PortNext, Takes, Exactly, Cycle;
    forall b | b in Cycle(s).queues
      ensures Cycle(s).queues[b].depth > 0 && Cycle(s).queues[b].queue == if b in held' then [held'[b]] else []
    {
      SparseNext(s, held, pend, held', b);
    }
    forall r | HasRole(Cycle(s).memories, r) && r.ReadData?
      ensures ReadPortOf(Cycle(s).memories, r).pending == if r in pend' then Some(pend'[r]) else None
    {
      SameRoles(s, r);
      PendingNext(s, r);
    }
    forall k | 0 <= k < |s.memories| ensures Cycle(s).memories[k].contents == [0, 9] { ContentsNext(s, k); }
  }

  lemma AskedIsOwed<B>(s: System<B>, senders: set<B>, p: Loop<B>, r: Role)
    requires Settled(s, senders, p.Asked(), map[]) && ClosesIn(s, p) && HasRole(s.memories, r) && r.ReadData?
    ensures PortNext(s.queues, [0, 9], ReadPortOf(s.memories, r)).pending == if r in p.Owed() then Some(p.Owed()[r]) else None
  {
    hide *;
    SettledParts(s, senders, p.Asked(), map[]);
    AskedIsServed(s, senders, p);
    AskedHeads(s, senders, p);
    BothEnds(s.memories, r);
    RolesOfData(r);
    NothingPending(s, p.Asked(), r);
    ServedPending(s, r);
    OwedIs(p, r);
  }

  lemma RolesOfData(r: Role)
    requires r.ReadData?
    ensures r.Reads() && Asking(r) == ReadAddress(r.memory, r.port)
    ensures forall r': Role | r'.ReadData? :: Asking(r) == Asking(r') ==> r == r'
  {
  }

  lemma OwedIs<B>(p: Loop<B>, r: Role)
    ensures p.first != p.second ==>
      (r in p.Owed() <==> r == p.first || r == p.second) && p.Owed()[p.first] == Packet(0, 0) && p.Owed()[p.second] == Packet(0, 9)
  {
  }

  /** What an idle port holds back after serving, or not serving, a request. */
  lemma ServedPending<B>(s: System<B>, r: Role)
    requires HasRole(s.memories, r) && r.ReadData? && HasRole(s.memories, Asking(r))
    requires ReadPortOf(s.memories, r).pending.None?
    ensures
      var b := BufferOf(s.memories, Asking(r));
      var next := PortNext(s.queues, [0, 9], ReadPortOf(s.memories, r)).pending;
      if !Takes(s, Asking(r)) then next.None?
      else
        && b in s.queues && s.queues[b].queue != []
        && next == Some(Packet(s.queues[b].queue[0].tag, At([0, 9], s.queues[b].queue[0].value)))
  {
  }

  /** The two requests: word 0 and word 1. */
  lemma AskedHeads<B>(s: System<B>, senders: set<B>, p: Loop<B>)
    requires Settled(s, senders, p.Asked(), map[]) && ClosesIn(s, p)
    ensures p.first.ReadData? && p.second.ReadData? && p.first != p.second
    ensures HasRole(s.memories, Asking(p.first)) && HasRole(s.memories, Asking(p.second))
    ensures
      var a, b := BufferOf(s.memories, Asking(p.first)), BufferOf(s.memories, Asking(p.second));
      && (a in s.queues ==> s.queues[a].queue == [Packet(0, 0)])
      && (b in s.queues ==> s.queues[b].queue == [Packet(0, 1)])
    ensures At([0, 9], 0) == 0 && At([0, 9], 1) == 9
  {
    LoopBuffersDiffer(s, p);
    hide Wired, OwnPorts, Finishing, Links, BufferOf, HasRole;
  }

  lemma AskedIsLegal<B>(s: System<B>, senders: set<B>, p: Loop<B>)
    requires Settled(s, senders, p.Asked(), map[]) && ClosesIn(s, p)
    ensures Legal(s)
  {
    AskedIsServed(s, senders, p);
    LoopBuffersDiffer(s, p);
    RoleSide(s, senders, Asking(p.first));
    RoleSide(s, senders, Asking(p.second));
    hide Wired, OwnPorts, Finishing, Links, Takes, Legal;
    FinishingIsLegal(s);
  }

  lemma FirstCycle<B>(s: System<B>, senders: set<B>, p: Loop<B>)
    requires Settled(s, senders, p.Asked(), map[]) && ClosesIn(s, p)
    ensures Settled(Cycle(s), senders, map[], p.Owed()) && ClosesIn(Cycle(s), p) && Legal(s)
  {
    hide *;
    SettledParts(s, senders, p.Asked(), map[]);
    ClosesLater(s, senders, p);
    AskedStages(s, senders, p);
    AskedIsServed(s, senders, p);
    AskedIsLegal(s, senders, p);
    forall r | HasRole(s.memories, r) && r.ReadData?
      ensures r.Reads() && PortNext(s.queues, [0, 9], ReadPortOf(s.memories, r)).pending == if r in p.Owed() then Some(p.Owed()[r]) else None
    {
      ReadDataReads(r);
      AskedIsOwed(s, senders, p, r);
    }
    SettledNext(s, senders, p.Asked(), map[], map[], p.Owed());
  }

  lemma ReadDataReads(r: Role)
    ensures r.ReadData? ==> r.Reads()
  {
  }

  // The second cycle: both answers leave their ports.

  lemma OwedActs<B>(s: System<B>, senders: set<B>, p: Loop<B>)
    requires Settled(s, senders, map[], p.Owed()) && ClosesIn(s, p)
    ensures forall r | HasRole(s.memories, r) :: !Takes(s, r) && (Puts(s, r) <==> r == p.first || r == p.second)
    ensures forall l | l in Links(s) :: !Moves(s.queues, l)
  {
    hide Wired, OwnPorts, Finishing, Staged, Sparse, Links, BufferOf, HasRole, Takes, Puts, Moves;
    NothingMoves(s, senders, map[], p.Owed());
    forall r | HasRole(s.memories, r) ensures !Takes(s, r) && (Puts(s, r) <==> r == p.first || r == p.second) {
      PortActs(s, senders, map[], p.Owed(), r);
    }
  }

  lemma OwedIsPut<B>(s: System<B>, senders: set<B>, p: Loop<B>, r: Role)
    requires Settled(s, senders, map[], p.Owed()) && ClosesIn(s, p) && r in p.Owed()
    ensures HasRole(s.memories, r) && BufferOf(s.memories, r) in Staged(s).enqs
    ensures Staged(s).enqs[BufferOf(s.memories, r)] == p.Owed()[r]
  {
    OwedActs(s, senders, p);
    assert ReadPortOf(s.memories, r).pending == Some(p.Owed()[r]);
    hide Wired, OwnPorts, Finishing, Staged, Links, BufferOf, Takes, Puts, Moves;
    PortEvents(s, senders, r);
  }

  lemma OnlyPut<B>(s: System<B>, senders: set<B>, put: set<B>, b: B)
    requires Wired(s, senders) && Finishing(s) && put <= senders
    requires forall l | l in Links(s) :: !Moves(s.queues, l)
    requires PortPuts(s, b) <==> b in put
    requires !PortTakes(s, b)
    ensures b !in Staged(s).deqs && (b in Staged(s).enqs <==> b in put)
  {
    hide *;
    StagedBy(s, senders, b);
  }

  lemma NoTakes<B>(s: System<B>, b: B)
    requires forall r | HasRole(s.memories, r) :: !Takes(s, r)
    ensures !PortTakes(s, b)
  {
    hide HasRole, Takes, BufferOf;
  }

  lemma OwedValues<B>(p: Loop<B>)
    requires p.first != p.second
    ensures p.first in p.Owed() && p.Owed()[p.first] == Packet(0, 0)
    ensures p.second in p.Owed() && p.Owed()[p.second] == Packet(0, 9)
  {
  }

  lemma OwedStages<B>(s: System<B>, senders: set<B>, p: Loop<B>)
    requires Settled(s, senders, map[], p.Owed()) && ClosesIn(s, p)
    ensures Exactly(s, {}, p.Answered())
  {
    hide Wired, OwnPorts, Finishing, Settled, ClosesIn, Staged, Links, BufferOf, HasRole, Takes, Puts, Moves, PortPuts, PortTakes;
    LoopSides(s, senders, map[], p.Owed(), p);
    LoopRoles(s, p);
    OwedActs(s, senders, p);
    OwedValues(p);
    OwedIsPut(s, senders, p, p.first);
    OwedIsPut(s, senders, p, p.second);
    forall b | b in s.queues ensures b !in Staged(s).deqs && (b in Staged(s).enqs <==> b in p.Answered().Keys) {
      PuttingIs(s, p.first, p.second, p.answers.0, p.answers.1, b);
      NoTakes(s, b);
      OnlyPut(s, senders, p.Answered().Keys, b);
    }
  }

  lemma OwedIsGone<B>(s: System<B>, senders: set<B>, p: Loop<B>, r: Role)
    requires Settled(s, senders, map[], p.Owed()) && ClosesIn(s, p) && HasRole(s.memories, r) && r.ReadData?
    ensures PortNext(s.queues, [0, 9], ReadPortOf(s.memories, r)).pending.None?
  {
    OwedActs(s, senders, p);
    BothEnds(s.memories, r);
    assert !Takes(s, Asking(r));
    hide Wired, OwnPorts, Finishing, ClosesIn, Links;
  }

  lemma NothingTakenIsLegal<B>(s: System<B>)
    requires Finishing(s) && forall r | HasRole(s.memories, r) :: !Takes(s, r)
    ensures Legal(s)
  {
    hide HasRole, Takes, Finishing, Legal;
    FinishingIsLegal(s);
  }

  lemma SecondCycle<B>(s: System<B>, senders: set<B>, p: Loop<B>)
    requires Settled(s, senders, map[], p.Owed()) && ClosesIn(s, p)
    ensures Settled(Cycle(s), senders, p.Answered(), map[]) && ClosesIn(Cycle(s), p) && Legal(s)
  {
    hide *;
    var none: map<B, Packet> := map[];
    assert none.Keys == {};
    SettledParts(s, senders, map[], p.Owed());
    ClosesLater(s, senders, p);
    OwedActs(s, senders, p);
    OwedStages(s, senders, p);
    NothingTakenIsLegal(s);
    forall r | HasRole(s.memories, r) && r.ReadData? ensures r.Reads() && PortNext(s.queues, [0, 9], ReadPortOf(s.memories, r)).pending.None? {
      ReadDataReads(r);
      OwedIsGone(s, senders, p, r);
    }
    SettledNext(s, senders, map[], p.Owed(), p.Answered(), map[]);
  }

  // The third cycle: both answers move along their links.

  lemma AnsweredMoves<B>(s: System<B>, senders: set<B>, p: Loop<B>, l: Link<B>)
    requires Settled(s, senders, p.Answered(), map[]) && ClosesIn(s, p) && l in Links(s)
    ensures Moves(s.queues, l) <==> l == Link(p.answers.0, p.address) || l == Link(p.answers.1, p.data)
  {
    RoleSide(s, senders, p.first);
    RoleSide(s, senders, p.second);
    assert Matching(Links(s)) && Directed(s.queues, senders, Links(s));
    hide OwnPorts, Finishing, Staged, Sparse, Links, BufferOf, HasRole, Moves, ElementWired, MemoryWired;
    LinkMoves(s, senders, p.Answered(), map[], l);
  }

  lemma AnsweredActs<B>(s: System<B>, senders: set<B>, p: Loop<B>)
    requires Settled(s, senders, p.Answered(), map[]) && ClosesIn(s, p)
    ensures forall r | HasRole(s.memories, r) :: !Takes(s, r) && !Puts(s, r)
  {
    LoopBuffersDiffer(s, p);
    hide Wired, OwnPorts, Finishing, Staged, Sparse, Links, BufferOf, Moves;
    forall r | HasRole(s.memories, r) ensures !Takes(s, r) && !Puts(s, r) { PortActs(s, senders, p.Answered(), map[], r); }
  }

  lemma AnsweredArrives<B>(s: System<B>, senders: set<B>, p: Loop<B>)
    requires Settled(s, senders, p.Answered(), map[]) && ClosesIn(s, p)
    ensures p.address in Staged(s).enqs && Staged(s).enqs[p.address] == Packet(0, 0)
    ensures p.data in Staged(s).enqs && Staged(s).enqs[p.data] == Packet(0, 9)
  {
    LoopBuffersDiffer(s, p);
    assert Directed(s.queues, senders, Links(s));
    AnsweredMoves(s, senders, p, Link(p.answers.0, p.address));
    AnsweredMoves(s, senders, p, Link(p.answers.1, p.data));
    hide OwnPorts, Finishing, Staged, Links, BufferOf, HasRole, Moves, ElementWired, MemoryWired, Matching;
    LinkEvent(s, senders, Link(p.answers.0, p.address));
    LinkEvent(s, senders, Link(p.answers.1, p.data));
  }

  lemma NoActs<B>(s: System<B>, b: B)
    requires forall r | HasRole(s.memories, r) :: !Takes(s, r) && !Puts(s, r)
    ensures !PortTakes(s, b) && !PortPuts(s, b)
  {
    hide HasRole, Takes, Puts, BufferOf;
  }

  lemma OnlyAlong<B>(s: System<B>, senders: set<B>, l: Link<B>, m: Link<B>, b: B)
    requires Wired(s, senders) && Finishing(s) && !PortTakes(s, b) && !PortPuts(s, b)
    requires l.from in senders && m.from in senders && l.to !in senders && m.to !in senders && l in Links(s) && m in Links(s)
    requires forall k | k in Links(s) :: Moves(s.queues, k) <==> k == l || k == m
    ensures b in Staged(s).deqs <==> b == l.from || b == m.from
    ensures b in Staged(s).enqs <==> b == l.to || b == m.to
  {
    hide *;
    StagedBy(s, senders, b);
  }

  lemma LoopLinks<B>(s: System<B>, p: Loop<B>)
    requires ClosesIn(s, p)
    ensures Link(p.answers.0, p.address) in Links(s) && Link(p.answers.1, p.data) in Links(s)
  {
    hide Links;
  }

  lemma AnsweredStages<B>(s: System<B>, senders: set<B>, p: Loop<B>)
    requires Settled(s, senders, p.Answered(), map[]) && ClosesIn(s, p)
    ensures Exactly(s, p.Answered().Keys, p.Arrived())
  {
    hide Wired, OwnPorts, Finishing, Settled, ClosesIn, Staged, Links, BufferOf, HasRole, Takes, Puts, Moves, PortPuts, PortTakes;
    LoopSides(s, senders, p.Answered(), map[], p);
    LoopLinks(s, p);
    AnsweredActs(s, senders, p);
    AnsweredArrives(s, senders, p);
    forall l | l in Links(s) ensures Moves(s.queues, l) <==> l == Link(p.answers.0, p.address) || l == Link(p.answers.1, p.data) {
      AnsweredMoves(s, senders, p, l);
    }
    forall b | b in s.queues
      ensures b in Staged(s).deqs <==> b in p.Answered().Keys
      ensures b in Staged(s).enqs <==> b in p.Arrived().Keys
    {
      NoActs(s, b);
      OnlyAlong(s, senders, Link(p.answers.0, p.address), Link(p.answers.1, p.data), b);
    }
  }

  lemma NothingServed<B>(s: System<B>, r: Role)
    requires forall r | HasRole(s.memories, r) :: !Takes(s, r)
    requires HasRole(s.memories, r) && r.ReadData? && ReadPortOf(s.memories, r).pending.None?
    ensures PortNext(s.queues, [0, 9], ReadPortOf(s.memories, r)).pending.None?
  {
    BothEnds(s.memories, r);
    assert !Takes(s, Asking(r));
  }

  lemma NothingPending<B>(s: System<B>, held: map<B, Packet>, r: Role)
    requires Sparse(s, held, map[]) && HasRole(s.memories, r) && r.ReadData?
    ensures r.Reads() && ReadPortOf(s.memories, r).pending.None?
  {
  }

  lemma ThirdCycle<B>(s: System<B>, senders: set<B>, p: Loop<B>)
    requires Settled(s, senders, p.Answered(), map[]) && ClosesIn(s, p)
    ensures Settled(Cycle(s), senders, p.Arrived(), map[]) && ClosesIn(Cycle(s), p) && Legal(s)
  {
    hide *;
    SettledParts(s, senders, p.Answered(), map[]);
    ClosesLater(s, senders, p);
    AnsweredActs(s, senders, p);
    AnsweredStages(s, senders, p);
    NothingTakenIsLegal(s);
    forall r | HasRole(s.memories, r) && r.ReadData? ensures r.Reads() && PortNext(s.queues, [0, 9], ReadPortOf(s.memories, r)).pending.None? {
      NothingPending(s, p.Answered(), r);
      NothingServed(s, r);
    }
    SettledNext(s, senders, p.Answered(), map[], p.Arrived(), map[]);
  }

  // The fourth cycle: the write port takes both and overwrites word 0.

  lemma {:induction false} WrittenByOne<B>(q: Queues<B>, contents: seq<Word>, ps: seq<WritePort<B>>, j: nat)
    requires j < |ps| && Writes(q, ps[j]) && forall i | 0 <= i < |ps| && i != j :: !Writes(q, ps[i])
    requires 0 <= q[ps[j].addrIn].queue[0].value < |contents|
    ensures Written(q, contents, ps) == contents[q[ps[j].addrIn].queue[0].value := q[ps[j].dataIn].queue[0].value]
    decreases ps
  {
    var n := |ps| - 1;
    if j == n {
      NothingWritten(q, contents, ps[..n]);
    } else {
      WrittenByOne(q, contents, ps[..n], j);
    }
  }

  lemma ArrivedActs<B>(s: System<B>, senders: set<B>, p: Loop<B>)
    requires Settled(s, senders, p.Arrived(), map[]) && ClosesIn(s, p)
    ensures forall r | HasRole(s.memories, r) :: Takes(s, r) <==> r == p.port || r == Partner(p.port)
  {
    LoopBuffersDiffer(s, p);
    hide Wired, OwnPorts, Finishing, Staged, Sparse, Links, BufferOf, Moves, Writes, Serves;
    forall r | HasRole(s.memories, r) ensures Takes(s, r) <==> r == p.port || r == Partner(p.port) {
      PortActs(s, senders, p.Arrived(), map[], r);
      BothEnds(s.memories, r);
    }
  }

  lemma ArrivedHeads<B>(s: System<B>, senders: set<B>, p: Loop<B>)
    requires Settled(s, senders, p.Arrived(), map[]) && ClosesIn(s, p)
    ensures HasRole(s.memories, p.port) && p.port.WriteAddress?
    ensures
      var w := WritePortOf(s.memories, p.port);
      && w.addrIn in s.queues && s.queues[w.addrIn].queue == [Packet(0, 0)]
      && w.dataIn in s.queues && s.queues[w.dataIn].queue == [Packet(0, 9)]
    ensures s.memories[p.port.memory].contents == [0, 9]
  {
    LoopBuffersDiffer(s, p);
    RoleSide(s, senders, p.port);
    RoleSide(s, senders, Partner(p.port));
    hide Wired, OwnPorts, Finishing, Links;
  }

  lemma ArrivedIsLegal<B>(s: System<B>, senders: set<B>, p: Loop<B>)
    requires Settled(s, senders, p.Arrived(), map[]) && ClosesIn(s, p)
    ensures Legal(s)
  {
    ArrivedActs(s, senders, p);
    ArrivedHeads(s, senders, p);
    hide Wired, OwnPorts, Finishing, Links, Takes, Sparse, Legal;
    FinishingIsLegal(s);
  }

  lemma OneWrite<B>(s: System<B>, senders: set<B>, p: Loop<B>, i: nat)
    requires Settled(s, senders, p.Arrived(), map[]) && ClosesIn(s, p)
    requires p.port.memory < |s.memories| && i < |s.memories[p.port.memory].writePorts|
    ensures Writes(s.queues, s.memories[p.port.memory].writePorts[i]) <==> i == p.port.port
  {
    hide Settled, ClosesIn, Writes;
    ArrivedActs(s, senders, p);
    ArrivedHeads(s, senders, p);
    var r := WriteAddress(p.port.memory, i);
    assert HasRole(s.memories, r);
    assert Takes(s, r) <==> r == p.port || r == Partner(p.port);
  }

  lemma FourthCycle<B>(s: System<B>, senders: set<B>, p: Loop<B>)
    requires Settled(s, senders, p.Arrived(), map[]) && ClosesIn(s, p)
    ensures p.port.memory < |Cycle(s).memories| && Cycle(s).memories[p.port.memory].contents == [9, 9] && Legal(s)
  {
    hide Settled, ClosesIn, Writes, Legal, CoreNext, Staged, PortNext;
    ArrivedIsLegal(s, senders, p);
    ArrivedHeads(s, senders, p);
    var q, m := s.queues, s.memories[p.port.memory];
    forall i | 0 <= i < |m.writePorts| ensures Writes(q, m.writePorts[i]) <==> i == p.port.port { OneWrite(s, senders, p, i); }
    WrittenByOne(q, m.contents, m.writePorts, p.port.port);
    assert [0, 9][0 := 9] == [9, 9];
    hide Written;
  }

  // --- A start from reset ---

  const HALT_NOW := Instruction(
    Trigger([], [], [], [], [], []), HALT, NullSource, NullSource, NullSource, 0, NullDestination, 0, [], [])

  function Fresh<B(==)>(e: Element<B>): Element<B> {
    Element(e.m.(program := [HALT_NOW]),
            CoreState(seq(e.m.cp.numPredicates, _ => false), seq(e.m.cp.numRegisters, _ => 0), [], false, []), e.w)
  }

  function Blank<B(==)>(m: Memory<B>): Memory<B> {
    Memory([0, 9], seq(|m.readPorts|, j requires 0 <= j < |m.readPorts| => m.readPorts[j].(pending := None)), m.writePorts)
  }

  /** The given wiring with programs that halt at once, a two-word memory image and the given requests. */
  function Start<B(==)>(s: System<B>, held: map<B, Packet>): System<B> {
    System(
      seq(|s.elements|, k requires 0 <= k < |s.elements| => Fresh(s.elements[k])),
      seq(|s.memories|, k requires 0 <= k < |s.memories| => Blank(s.memories[k])),
      map b | b in s.queues :: Cell(if b in held then [held[b]] else [], s.queues[b].depth))
  }

  lemma HaltNowIsWellFormed(cp: CoreParameters)
    ensures WellFormedProgram(cp, [HALT_NOW])
  {
  }

  lemma HaltIsScheduled<B>(q: Queues<B>, e: Element<B>)
    ensures Scheduled(Fresh(e).m, PeOf(q, Fresh(e))) == Some(HALT_NOW)
  {
    var v := ViewOf(e.m.cp, PeOf(q, Fresh(e)));
    assert Eligible(HALT_NOW.trigger, v);
    assert FirstMatch([HALT_NOW], v) == Some(0);
    hide FirstMatch, Eligible, ViewOf;
  }

  lemma FreshFinishes<B>(q: Queues<B>, e: Element<B>)
    ensures Finishes(q, Fresh(e))
  {
    hide Scheduled, PeOf, AssignUpdates, Compute, ReadOperands, PopChannels, PushChannels;
    HaltIsScheduled(q, e);
  }

  lemma BlankPorts<B>(m: Memory<B>)
    ensures SamePorts(m, Blank(m))
    ensures forall j | 0 <= j < |m.readPorts| :: Blank(m).readPorts[j].pending.None?
  {
  }

  lemma StartWiring<B>(s: System<B>, held: map<B, Packet>)
    ensures SameWiring(s, Start(s, held))
  {
    forall k | 0 <= k < |s.memories| ensures SamePorts(s.memories[k], Start(s, held).memories[k]) { BlankPorts(s.memories[k]); }
    hide SamePorts, Blank;
  }

  lemma StartOwnPorts<B>(s: System<B>, held: map<B, Packet>)
    requires OwnPorts(s)
    ensures OwnPorts(Start(s, held))
  {
    var s' := Start(s, held);
    StartWiring(s, held);
    forall r ensures HasRole(s'.memories, r) <==> HasRole(s.memories, r)
      ensures HasRole(s.memories, r) ==> BufferOf(s'.memories, r) == BufferOf(s.memories, r)
    {
      SameWiringSameRole(s, s', r);
    }
    hide HasRole, BufferOf, Blank;
  }

  lemma StartWired<B>(s: System<B>, senders: set<B>, held: map<B, Packet>)
    requires Wired(s, senders) && Roomy(s)
    ensures Wired(Start(s, held), senders)
  {
    var s' := Start(s, held);
    hide Links, Matching, ElementWired, MemoryWired, Start, Bounded, Directed, OwnOutputs;
    StartWiring(s, held);
    SameWiringSameLinks(s, s');
    StartQueuesWired(s, senders, held);
    forall k | 0 <= k < |s'.elements| ensures ElementWired(s'.queues, senders, s'.elements[k]) { StartElementWired(s, senders, held, k); }
    forall k | 0 <= k < |s'.memories| ensures MemoryWired(s'.queues, senders, s'.memories[k]) { StartMemoryWired(s, senders, held, k); }
  }

  lemma StartQueuesWired<B>(s: System<B>, senders: set<B>, held: map<B, Packet>)
    requires Wired(s, senders) && Roomy(s)
    ensures
      var s' := Start(s, held);
      && Bounded(s'.queues) && Directed(s'.queues, senders, Links(s)) && OwnOutputs(s'.elements)
      && |s'.elements| == |s.elements| && |s'.memories| == |s.memories|
  {
    hide Links, Matching, Blank, ElementWired, MemoryWired;
  }

  lemma StartElementWired<B>(s: System<B>, senders: set<B>, held: map<B, Packet>, k: nat)
    requires Wired(s, senders) && k < |s.elements|
    ensures ElementWired(Start(s, held).queues, senders, Start(s, held).elements[k])
  {
    HaltNowIsWellFormed(s.elements[k].m.cp);
    assert ElementWired(s.queues, senders, s.elements[k]);
    hide Links, Matching, Blank, MemoryWired, WellFormedProgram, Bounded, Directed, OwnOutputs;
  }

  lemma StartMemoryWired<B>(s: System<B>, senders: set<B>, held: map<B, Packet>, k: nat)
    requires Wired(s, senders) && k < |s.memories|
    ensures MemoryWired(Start(s, held).queues, senders, Start(s, held).memories[k])
  {
    BlankPorts(s.memories[k]);
    assert MemoryWired(s.queues, senders, s.memories[k]);
    hide Links, Matching, Blank, ElementWired, MemoryWired, Bounded, Directed, OwnOutputs, SamePorts;
    StillWired(s.queues, Start(s, held).queues, senders, s.memories[k], Start(s, held).memories[k]);
  }

  predicate Roomy<B(==)>(s: System<B>) {
    forall b | b in s.queues :: s.queues[b].depth > 0
  }

  lemma StartSparse<B>(s: System<B>, held: map<B, Packet>)
    requires Roomy(s)
    ensures Sparse(Start(s, held), held, map[]) && Finishing(Start(s, held))
  {
    var s' := Start(s, held);
    forall k | 0 <= k < |s.memories| ensures forall j | 0 <= j < |s.memories[k].readPorts| :: s'.memories[k].readPorts[j].pending.None? {
      BlankPorts(s.memories[k]);
    }
    forall k | 0 <= k < |s.elements|
      ensures Finishes(s'.queues, s'.elements[k])
    {
      FreshFinishes(s'.queues, s.elements[k]);
    }
    hide CoreDelta, CoreNext, Fresh;
  }

  lemma StartIsReset<B>(s: System<B>, held: map<B, Packet>)
    requires forall b | b in held :: exists r | HasRole(s.memories, r) && r.ReadAddress? :: BufferOf(s.memories, r) == b
    ensures AtReset(Start(s, held))
  {
    var s' := Start(s, held);
    StartWiring(s, held);
    forall r
      ensures HasRole(s'.memories, r) <==> HasRole(s.memories, r)
      ensures HasRole(s.memories, r) ==> BufferOf(s'.memories, r) == BufferOf(s.memories, r)
    {
      SameWiringSameRole(s, s', r);
    }
    forall r | HasRole(s'.memories, r) && r.Reads() ensures ReadPortOf(s'.memories, r).pending.None? { BlankPorts(s.memories[r.memory]); }
    forall b | b in s'.queues && s'.queues[b].queue != []
      ensures exists r | HasRole(s'.memories, r) && r.ReadAddress? :: BufferOf(s'.memories, r) == b
    {
      var r :| HasRole(s.memories, r) && r.ReadAddress? && BufferOf(s.memories, r) == b;
      assert BufferOf(s'.memories, r) == b;
    }
  }

  // --- The condition ---

  lemma SomeLoop<B>(s: System<B>, senders: set<B>) returns (p: Loop<B>)
    requires Wired(s, senders) && OwnPorts(s) && Looped(s)
    ensures ClosesIn(s, p)
  {
    var w :| HasRole(s.memories, w) && w.WriteAddress? && Fed(s, BufferOf(s.memories, w)) && Fed(s, BufferOf(s.memories, Partner(w)));
    PartnerExists(s.memories, w);
    var address, data := BufferOf(s.memories, w), BufferOf(s.memories, Partner(w));
    var l, first := FeedingPort(s, address);
    var m, second := FeedingPort(s, data);
    FedByDifferentPorts(s, senders, w, l, first, m, second);
    p := Loop(first, second, w, (BufferOf(s.memories, Asking(first)), BufferOf(s.memories, Asking(second))), (l.from, m.from), address, data);
  }

  lemma FedByDifferentPorts<B>(s: System<B>, senders: set<B>, w: Role, l: Link<B>, first: Role, m: Link<B>, second: Role)
    requires Wired(s, senders) && OwnPorts(s) && HasRole(s.memories, w) && w.WriteAddress? && HasRole(s.memories, Partner(w))
    requires l in Links(s) && m in Links(s) && l.to == BufferOf(s.memories, w) && m.to == BufferOf(s.memories, Partner(w))
    requires HasRole(s.memories, first) && HasRole(s.memories, second)
    requires BufferOf(s.memories, first) == l.from && BufferOf(s.memories, second) == m.from
    ensures first != second
  {
    hide Wired, OwnPorts, Links, BufferOf, HasRole;
    if first == second {
      OneEnd(s, senders, l, m);
      OnlyRole(s, w, Partner(w));
      assert false;
    }
  }

  lemma FeedingPort<B>(s: System<B>, b: B) returns (l: Link<B>, r: Role)
    requires Fed(s, b)
    ensures l in Links(s) && l.to == b && HasRole(s.memories, r) && r.ReadData? && BufferOf(s.memories, r) == l.from
    ensures HasRole(s.memories, Asking(r)) && l == Link(l.from, b)
  {
    l :| l in Links(s) && l.to == b && TakesAnswers(s.memories, l.from);
    r :| HasRole(s.memories, r) && r.ReadData? && BufferOf(s.memories, r) == l.from;
  }

  lemma OneEnd<B>(s: System<B>, senders: set<B>, l: Link<B>, m: Link<B>)
    requires Wired(s, senders) && l in Links(s) && m in Links(s) && l.from == m.from
    ensures l.to == m.to
  {
    hide Links;
  }

  lemma OnlyRole<B>(s: System<B>, r: Role, r': Role)
    requires OwnPorts(s) && HasRole(s.memories, r) && HasRole(s.memories, r')
    requires BufferOf(s.memories, r) == BufferOf(s.memories, r')
    ensures r == r'
  {
  }

  lemma ClosesInStart<B>(s: System<B>, p: Loop<B>)
    requires ClosesIn(s, p)
    ensures ClosesIn(Start(s, p.Asked()), p)
  {
    var s' := Start(s, p.Asked());
    StartWiring(s, p.Asked());
    SameWiringSameLinks(s, s');
    SameWiringSameRole(s, s', p.first);
    SameWiringSameRole(s, s', p.second);
    SameWiringSameRole(s, s', Asking(p.first));
    SameWiringSameRole(s, s', Asking(p.second));
    SameWiringSameRole(s, s', p.port);
    SameWiringSameRole(s, s', Partner(p.port));
    hide Links, BufferOf, HasRole, Start, SameWiring;
  }

  lemma AskedAtReset<B>(s: System<B>, p: Loop<B>)
    requires ClosesIn(s, p)
    ensures AtReset(Start(s, p.Asked()))
  {
    forall b | b in p.Asked() ensures exists r | HasRole(s.memories, r) && r.ReadAddress? :: BufferOf(s.memories, r) == b {
      assert b == BufferOf(s.memories, Asking(p.first)) || b == BufferOf(s.memories, Asking(p.second));
    }
    hide Start, Links, BufferOf, HasRole, ClosesIn, Asking;
    StartIsReset(s, p.Asked());
  }

  lemma StartSettled<B>(s: System<B>, senders: set<B>, held: map<B, Packet>)
    requires Wired(s, senders) && OwnPorts(s) && Roomy(s)
    ensures Settled(Start(s, held), senders, held, map[])
  {
    StartWired(s, senders, held);
    StartOwnPorts(s, held);
    StartSparse(s, held);
    hide Wired, OwnPorts, Sparse, Finishing, Start;
  }

  lemma EmptyIsHalted<B>(s: System<B>, pend: map<Role, Packet>)
    requires AllHalted(s.elements) && Sparse(s, map[], pend)
    ensures Halted(s)
  {
  }

  lemma SettledHalts<B>(s: System<B>, senders: set<B>, held: map<B, Packet>, pend: map<Role, Packet>, pend': map<Role, Packet>)
    requires Settled(s, senders, held, pend) && Settled(Cycle(s), senders, map[], pend')
    ensures Halted(Cycle(s))
    ensures forall k | 0 <= k < |Cycle(s).memories| :: Cycle(s).memories[k].contents == [0, 9]
  {
    FinishingNext(s);
    hide Wired, OwnPorts, Finishing, Cycle;
    EmptyIsHalted(Cycle(s), pend');
  }

  lemma FourCycles<B>(s: System<B>)
    ensures Cycles(s, 1) == Cycle(s) && Cycles(Cycle(s), 3) == Cycle(Cycle(Cycle(Cycle(s))))
    ensures Legal(s) && Legal(Cycle(s)) && Legal(Cycle(Cycle(s))) && Legal(Cycle(Cycle(Cycle(s)))) ==> LegalRun(s, 4)
  {
    hide Cycle, Legal;
    var s1 := Cycle(s);
    var s2 := Cycle(s1);
    var s3 := Cycle(s2);
    assert Cycles(s, 1) == Cycles(s1, 0);
    assert Cycles(s1, 3) == Cycles(s2, 2) == Cycles(s3, 1) == Cycles(Cycle(s3), 0);
    assert LegalRun(s3, 1) <==> Legal(s3) && LegalRun(Cycle(s3), 0);
    assert LegalRun(s2, 2) <==> Legal(s2) && LegalRun(s3, 1);
    assert LegalRun(s1, 3) <==> Legal(s1) && LegalRun(s2, 2);
  }

  /**
   * If answers feed both inputs of some write port, then with that very wiring there is a legal run from reset that
   * reports a halt after one cycle and has overwritten a memory word three cycles later.
   */
  lemma LoopOverwrites<B>(wiring: System<B>, senders: set<B>) returns (s: System<B>, k: nat)
    requires Wired(wiring, senders) && OwnPorts(wiring) && Roomy(wiring) && Looped(wiring)
    ensures SameWiring(wiring, s) && Wired(s, senders) && AtReset(s) && LegalRun(s, 4) && Halted(Cycles(s, 1))
    ensures k < |Cycles(s, 1).memories| && k < |Cycles(Cycles(s, 1), 3).memories|
    ensures Cycles(s, 1).memories[k].contents == [0, 9] && Cycles(Cycles(s, 1), 3).memories[k].contents == [9, 9]
  {
    hide *;
    var p := SomeLoop(wiring, senders);
    s := Start(wiring, p.Asked());
    k := p.port.memory;
    StartWiring(wiring, p.Asked());
    StartSettled(wiring, senders, p.Asked());
    SettledParts(s, senders, p.Asked(), map[]);
    ClosesInStart(wiring, p);
    AskedAtReset(wiring, p);
    var s1 := Cycle(s);
    var s2 := Cycle(s1);
    var s3 := Cycle(s2);
    FirstCycle(s, senders, p);
    SettledHalts(s, senders, p.Asked(), map[], p.Owed());
    SecondCycle(s1, senders, p);
    ThirdCycle(s2, senders, p);
    FourthCycle(s3, senders, p);
    FourCycles(s);
    PortMemoryExists(s1, p);
  }

  lemma PortMemoryExists<B>(s: System<B>, p: Loop<B>)
    requires ClosesIn(s, p)
    ensures p.port.memory < |s.memories|
  {
    hide Links, BufferOf;
  }

  lemma DifferentContents<B>(ms: seq<Memory<B>>, ms': seq<Memory<B>>, k: nat)
    requires k < |ms| && k < |ms'| && ms[k].contents != ms'[k].contents
    ensures !SameContents(ms, ms')
  {
  }

  /**
   * Halts are final for exactly those wirings in which no write port has both of its inputs fed by read ports. In
   * the others some legal run from reset changes a memory word after the halt has been reported.
   */
  lemma HaltsAreFinalIff<B(!new)>(wiring: System<B>, senders: set<B>)
    requires Wired(wiring, senders) && OwnPorts(wiring) && Roomy(wiring)
    ensures HaltsAreFinal(wiring, senders) <==> !Looped(wiring)
  {
    if Looped(wiring) {
      hide Wired, OwnPorts, SameWiring, AtReset, LegalRun, Halted, Cycles, Looped, SameContents;
      var s, k := LoopOverwrites(wiring, senders);
      DifferentContents(Cycles(s, 1).memories, Cycles(Cycles(s, 1), 3).memories, k);
      assert LegalRun(s, 1 + 3);
    } else {
      hide Wired, OwnPorts, SameWiring, AtReset, LegalRun, Halted, Cycles, Looped, SameContents;
      forall s, n: nat, m: nat |
        && SameWiring(wiring, s) && Wired(s, senders) && AtReset(s)
        && LegalRun(s, n + m) && Halted(Cycles(s, n))
        ensures SameContents(Cycles(s, n).memories, Cycles(Cycles(s, n), m).memories)
      {
        SameLoopsLater(wiring, s, senders, n);
        HaltIsStable(Cycles(s, n), senders, m);
      }
    }
  }

  lemma {:induction false} SameLoopsLater<B>(wiring: System<B>, s: System<B>, senders: set<B>, n: nat)
    requires SameWiring(wiring, s) && Wired(s, senders)
    ensures SameWiring(wiring, Cycles(s, n)) && Wired(Cycles(s, n), senders)
    ensures Looped(Cycles(s, n)) <==> Looped(wiring)
    decreases n
  {
    hide SameWiring, Wired, Looped, Cycle;
    if n == 0 {
      SameWiringSameLoops(wiring, s);
    } else {
      WiredForever(s, senders);
      SameWiringNext(s);
      SameWiringTrans(wiring, s, Cycle(s));
      SameLoopsLater(wiring, Cycle(s), senders, n - 1);
    }
  }
}
