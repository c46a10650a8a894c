/**
 * Who stages what. In a well-wired system every staged operation has exactly one cause: a link whose head moves,
 * the instruction a core executes, or a port of a memory that answers, serves or writes.
 */
module Staging {
  import opened Prelude
  import opened Instructions
  import opened Sequential
  import opened Simulator
  import opened Wires

  // --- The buffers of memory ports ---

  /** What a buffer is to a memory: which of its ports, and which end of it. */
  datatype Role =
    | ReadAddress(memory: nat, port: nat)
    | ReadData(memory: nat, port: nat)
    | WriteAddress(memory: nat, port: nat)
    | WriteData(memory: nat, port: nat)
  {
    predicate Reads() { ReadAddress? || ReadData? }
  }

  predicate HasRole<B(==)>(ms: seq<Memory<B>>, r: Role) {
    && r.memory < |ms|
    && r.port < if r.Reads() then |ms[r.memory].readPorts| else |ms[r.memory].writePorts|
  }

  function ReadPortOf<B(==)>(ms: seq<Memory<B>>, r: Role): ReadPort<B>
    requires HasRole(ms, r) && r.Reads()
  {
    ms[r.memory].readPorts[r.port]
  }

  function WritePortOf<B(==)>(ms: seq<Memory<B>>, r: Role): WritePort<B>
    requires HasRole(ms, r) && !r.Reads()
  {
    ms[r.memory].writePorts[r.port]
  }

  function BufferOf<B(==)>(ms: seq<Memory<B>>, r: Role): B
    requires HasRole(ms, r)
  {
    match r
    case ReadAddress(_, _) => ReadPortOf(ms, r).addrIn
    case ReadData(_, _) => ReadPortOf(ms, r).dataOut
    case WriteAddress(_, _) => WritePortOf(ms, r).addrIn
    case WriteData(_, _) => WritePortOf(ms, r).dataIn
  }

  /** Every port has buffers of its own, which are no core's channels. */
  ghost predicate OwnPorts<B>(s: System<B>) {
    && (forall r, r' | HasRole(s.memories, r) && HasRole(s.memories, r') && BufferOf(s.memories, r) == BufferOf(s.memories, r') :: r == r')
    && (forall r, k | HasRole(s.memories, r) && 0 <= k < |s.elements| ::
          BufferOf(s.memories, r) !in s.elements[k].w.ins && BufferOf(s.memories, r) !in s.elements[k].w.outs)
  }

  /** The port takes from this buffer now. */
  predicate Takes<B(==)>(s: System<B>, r: Role)
    requires HasRole(s.memories, r)
  {
    match r
    case ReadAddress(_, _) => Serves(s.queues, ReadPortOf(s.memories, r))
    case ReadData(_, _) => false
    case WriteAddress(_, _) => Writes(s.queues, WritePortOf(s.memories, r))
    case WriteData(_, _) => Writes(s.queues, WritePortOf(s.memories, r))
  }

  /** The port puts its pending answer into this buffer now. */
  predicate Puts<B(==)>(s: System<B>, r: Role)
    requires HasRole(s.memories, r)
  {
    r.ReadData? && Answers(s.queues, ReadPortOf(s.memories, r))
  }

  // --- Merging ---

  lemma {:induction false} TakenBy<B>(ds: seq<Delta<B>>, b: B)
    ensures b in MergeAll(ds).deqs <==> exists j | 0 <= j < |ds| :: b in ds[j].deqs
    decreases ds
  {
    if ds != [] {
      var n := |ds| - 1;
      TakenBy(ds[..n], b);
      assert forall j | 0 <= j < n :: ds[..n][j] == ds[j];
      if exists j | 0 <= j < |ds| :: b in ds[j].deqs {
        var j :| 0 <= j < |ds| && b in ds[j].deqs;
        assert j < n ==> b in ds[..n][j].deqs;
      }
    }
  }

  /** Where a staged packet comes from. */
  lemma {:induction false} PutBy<B>(ds: seq<Delta<B>>, b: B) returns (k: nat)
    requires b in MergeAll(ds).enqs
    ensures k < |ds| && b in ds[k].enqs && MergeAll(ds).enqs[b] == ds[k].enqs[b]
    decreases ds
  {
    var n := |ds| - 1;
    if b in ds[n].enqs {
      k := n;
    } else {
      k := PutBy(ds[..n], b);
      assert ds[..n][k] == ds[k];
    }
  }

  // --- Units ---

  lemma {:induction false} TransfersFillReceivers<B>(links: set<Link<B>>, senders: set<B>, q: Queues<B>, ls: seq<Link<B>>)
    requires Directed(q, senders, links) && forall l | l in ls :: l in links
    ensures forall b | b in Transfers(q, ls).enqs :: b !in senders
    decreases ls
  {
    if ls != [] {
      assert forall l | l in ls[..|ls| - 1] :: l in ls;
      TransfersFillReceivers(links, senders, q, ls[..|ls| - 1]);
    }
  }

  lemma {:induction false} TransfersEmptySenders<B>(links: set<Link<B>>, senders: set<B>, q: Queues<B>, ls: seq<Link<B>>)
    requires Directed(q, senders, links) && forall l | l in ls :: l in links
    ensures forall b | b in Transfers(q, ls).deqs :: b in senders
    decreases ls
  {
    if ls != [] {
      assert forall l | l in ls[..|ls| - 1] :: l in ls;
      TransfersEmptySenders(links, senders, q, ls[..|ls| - 1]);
    }
  }

  lemma CoreStagesOwn<B>(q: Queues<B>, e: Element<B>)
    ensures forall b | b in CoreDelta(q, e).deqs :: b in e.w.ins
    ensures forall b | b in CoreDelta(q, e).enqs :: b in e.w.outs
  {
  }

  /** Apart from moving packets along links, an element stages what its core stages. */
  lemma ElementStages<B>(s: System<B>, senders: set<B>, j: nat, b: B)
    requires Wired(s, senders) && j < |s.elements|
    ensures
      var core, all := CoreDelta(s.queues, s.elements[j]), ElementDelta(s.queues, s.elements[j]);
      if b in senders then (b in all.enqs <==> b in core.enqs) && (b in core.enqs ==> all.enqs[b] == core.enqs[b])
      else b in all.deqs <==> b in core.deqs
  {
    var e := s.elements[j];
    forall l | l in RouterLinks(e.w) ensures l in Links(s) { }
    hide CoreDelta, Transfers, RouterLinks, ElementWired, MemoryWired, Matching, Bounded;
    TransfersEmptySenders(Links(s), senders, s.queues, RouterLinks(e.w));
    TransfersFillReceivers(Links(s), senders, s.queues, RouterLinks(e.w));
  }

  lemma PortStages<B>(s: System<B>, senders: set<B>, k: nat, j: nat, b: B)
    requires Wired(s, senders) && k < |s.memories| && j < |s.memories[k].readPorts|
    ensures
      var p, d := s.memories[k].readPorts[j], PortDelta(s.queues, s.memories[k].readPorts[j]);
      if b in senders then (b in d.enqs <==> b == p.dataOut && Answers(s.queues, p)) && (b in d.enqs ==> d.enqs[b] == p.pending.value)
      else b in d.deqs <==> b == p.addrIn && Serves(s.queues, p)
  {
    var q, p := s.queues, s.memories[k].readPorts[j];
    forall l | l in PortLinks(p) ensures l in Links(s) { }
    assert MemoryWired(q, senders, s.memories[k]) && ReadPortWired(q, senders, p);
    hide Transfers, Matching, Bounded, ElementWired, MemoryWired, Serves, Answers, PortLinks;
    TransfersEmptySenders(Links(s), senders, q, PortLinks(p));
    TransfersFillReceivers(Links(s), senders, q, PortLinks(p));
  }

  lemma MemoryTakes<B>(s: System<B>, senders: set<B>, k: nat, b: B)
    requires Wired(s, senders) && k < |s.memories| && b !in senders
    ensures b in MemoryDelta(s.queues, s.memories[k]).deqs <==>
      exists r | HasRole(s.memories, r) && r.memory == k && Takes(s, r) :: BufferOf(s.memories, r) == b
  {
    hide *;
    PortsTake(s, senders, k, b);
    WritesTake(s, k, b);
    MemoryMerges(s.queues, s.memories[k], b);
    if r :| HasRole(s.memories, r) && r.memory == k && Takes(s, r) && BufferOf(s.memories, r) == b {
      assert r.Reads() || !r.Reads();
    }
  }

  lemma MemoryMerges<B>(q: Queues<B>, m: Memory<B>, b: B)
    ensures b in MemoryDelta(q, m).deqs <==> b in MergeAll(PortDeltas(q, m)).deqs || b in MergeAll(WriteDeltas(q, m)).deqs
  {
    hide MergeAll, PortDeltas, WriteDeltas;
  }

  /** The read ports' part of it. */
  lemma PortsTake<B>(s: System<B>, senders: set<B>, k: nat, b: B)
    requires Wired(s, senders) && k < |s.memories| && b !in senders
    ensures b in MergeAll(PortDeltas(s.queues, s.memories[k])).deqs <==>
      exists r | HasRole(s.memories, r) && r.memory == k && r.Reads() && Takes(s, r) :: BufferOf(s.memories, r) == b
  {
    var q, m := s.queues, s.memories[k];
    hide Wired, PortDelta, MergeAll, Writes, Serves;
    TakenBy(PortDeltas(q, m), b);
    forall j | 0 <= j < |m.readPorts| ensures b in PortDeltas(q, m)[j].deqs <==> b == m.readPorts[j].addrIn && Serves(q, m.readPorts[j]) {
      PortStages(s, senders, k, j, b);
    }
    if b in MergeAll(PortDeltas(q, m)).deqs {
      var j :| 0 <= j < |m.readPorts| && b in PortDeltas(q, m)[j].deqs;
      assert Takes(s, ReadAddress(k, j)) && BufferOf(s.memories, ReadAddress(k, j)) == b;
    }
    if r :| HasRole(s.memories, r) && r.memory == k && r.Reads() && Takes(s, r) && BufferOf(s.memories, r) == b {
      assert b in PortDeltas(q, m)[r.port].deqs;
    }
  }

  /** The write ports' part of it. */
  lemma WritesTake<B>(s: System<B>, k: nat, b: B)
    requires k < |s.memories|
    ensures b in MergeAll(WriteDeltas(s.queues, s.memories[k])).deqs <==>
      exists r | HasRole(s.memories, r) && r.memory == k && !r.Reads() && Takes(s, r) :: BufferOf(s.memories, r) == b
  {
    var q, m := s.queues, s.memories[k];
    hide MergeAll, Writes, Serves;
    TakenBy(WriteDeltas(q, m), b);
    if b in MergeAll(WriteDeltas(q, m)).deqs {
      var j :| 0 <= j < |m.writePorts| && b in WriteDeltas(q, m)[j].deqs;
      assert Takes(s, WriteAddress(k, j)) && Takes(s, WriteData(k, j));
      assert b == BufferOf(s.memories, WriteAddress(k, j)) || b == BufferOf(s.memories, WriteData(k, j));
    }
    if r :| HasRole(s.memories, r) && r.memory == k && !r.Reads() && Takes(s, r) && BufferOf(s.memories, r) == b {
      assert b in WriteDeltas(q, m)[r.port].deqs;
    }
  }

  lemma WritesPutNothing<B>(q: Queues<B>, m: Memory<B>)
    ensures MergeAll(WriteDeltas(q, m)).enqs == map[]
  {
    var ds := WriteDeltas(q, m);
    if b :| b in MergeAll(ds).enqs {
      var j := PutBy(ds, b);
      assert false;
    }
  }

  lemma MemoryPuts<B>(s: System<B>, senders: set<B>, k: nat, b: B)
    requires Wired(s, senders) && k < |s.memories| && b in senders
    ensures b in MemoryDelta(s.queues, s.memories[k]).enqs <==>
      exists r | HasRole(s.memories, r) && r.memory == k && Puts(s, r) :: BufferOf(s.memories, r) == b
    ensures b in MemoryDelta(s.queues, s.memories[k]).enqs ==>
      exists r | HasRole(s.memories, r) && r.memory == k && Puts(s, r) && BufferOf(s.memories, r) == b ::
        MemoryDelta(s.queues, s.memories[k]).enqs[b] == ReadPortOf(s.memories, r).pending.value
  {
    var q, m := s.queues, s.memories[k];
    var ds := PortDeltas(q, m);
    WritesPutNothing(q, m);
    hide Wired, PortDelta, WriteDelta, MergeAll, Answers;
    forall j | 0 <= j < |m.readPorts|
      ensures b in ds[j].enqs <==> b == m.readPorts[j].dataOut && Answers(q, m.readPorts[j])
      ensures b in ds[j].enqs ==> m.readPorts[j].pending.Some? && ds[j].enqs[b] == m.readPorts[j].pending.value
    {
      PortStages(s, senders, k, j, b);
      assert b in ds[j].enqs ==> PortPending(q, m.readPorts[j]) by { PendingWhenAnswering(q, m.readPorts[j]); }
    }
    assert MemoryDelta(q, m).enqs == MergeAll(ds).enqs;
    if b in MergeAll(ds).enqs {
      var j := PutBy(ds, b);
      assert Puts(s, ReadData(k, j)) && BufferOf(s.memories, ReadData(k, j)) == b;
    }
    forall r | HasRole(s.memories, r) && r.memory == k && Puts(s, r) && BufferOf(s.memories, r) == b ensures b in MergeAll(ds).enqs {
      assert b in ds[r.port].enqs;
      MergeAllIncludes(ds, r.port);
    }
  }

  predicate PortPending<B(==)>(q: Queues<B>, p: ReadPort<B>) {
    Answers(q, p) ==> p.pending.Some?
  }

  lemma PendingWhenAnswering<B>(q: Queues<B>, p: ReadPort<B>)
    ensures PortPending(q, p)
  {
  }

  // --- Systems ---

  predicate CoreTakes<B(==)>(s: System<B>, b: B) {
    exists k | 0 <= k < |s.elements| :: b in CoreDelta(s.queues, s.elements[k]).deqs
  }

  predicate CorePuts<B(==)>(s: System<B>, b: B) {
    exists k | 0 <= k < |s.elements| :: b in CoreDelta(s.queues, s.elements[k]).enqs
  }

  ghost predicate PortTakes<B>(s: System<B>, b: B) {
    exists r | HasRole(s.memories, r) && Takes(s, r) :: BufferOf(s.memories, r) == b
  }

  ghost predicate PortPuts<B>(s: System<B>, b: B) {
    exists r | HasRole(s.memories, r) && Puts(s, r) :: BufferOf(s.memories, r) == b
  }

  /** A receiving buffer is emptied by the core or the port it belongs to and by nothing else. */
  lemma ReceiverTaken<B>(s: System<B>, senders: set<B>, b: B)
    requires Wired(s, senders) && b !in senders
    ensures b in Staged(s).deqs <==> CoreTakes(s, b) || PortTakes(s, b)
  {
    hide Wired, MergeAll, ElementDelta, MemoryDelta, CoreDelta, Takes, BufferOf, HasRole;
    var es, ms := ElementDeltas(s), MemoryDeltas(s);
    TakenBy(es, b);
    TakenBy(ms, b);
    forall k | 0 <= k < |es| ensures b in es[k].deqs <==> b in CoreDelta(s.queues, s.elements[k]).deqs { ElementStages(s, senders, k, b); }
    forall k | 0 <= k < |ms|
      ensures b in ms[k].deqs <==> exists r | HasRole(s.memories, r) && r.memory == k && Takes(s, r) :: BufferOf(s.memories, r) == b
    {
      MemoryTakes(s, senders, k, b);
    }
    if PortTakes(s, b) {
      var r :| HasRole(s.memories, r) && Takes(s, r) && BufferOf(s.memories, r) == b;
      RoleInRange(s.memories, r);
      assert b in ms[r.memory].deqs;
    }
  }

  lemma RoleInRange<B>(ms: seq<Memory<B>>, r: Role)
    requires HasRole(ms, r)
    ensures r.memory < |ms|
  {
  }

  /** A sending buffer is filled by the core or the port it belongs to and by nothing else. */
  lemma SenderFilled<B>(s: System<B>, senders: set<B>, b: B)
    requires Wired(s, senders) && b in senders
    ensures b in Staged(s).enqs <==> CorePuts(s, b) || PortPuts(s, b)
    ensures b in Staged(s).enqs ==>
      || (exists k | 0 <= k < |s.elements| && b in CoreDelta(s.queues, s.elements[k]).enqs ::
            Staged(s).enqs[b] == CoreDelta(s.queues, s.elements[k]).enqs[b])
      || (exists r | HasRole(s.memories, r) && Puts(s, r) && BufferOf(s.memories, r) == b ::
            Some(Staged(s).enqs[b]) == ReadPortOf(s.memories, r).pending)
  {
    var es, ms := ElementDeltas(s), MemoryDeltas(s);
    hide Wired, MergeAll, ElementDelta, MemoryDelta, CoreDelta, BufferOf;
    forall k | 0 <= k < |es| ensures b in es[k].enqs <==> b in CoreDelta(s.queues, s.elements[k]).enqs { ElementStages(s, senders, k, b); }
    MergeIncludes(MergeAll(es), MergeAll(ms));
    if CorePuts(s, b) {
      var k :| 0 <= k < |es| && b in es[k].enqs;
      MergeAllIncludes(es, k);
    }
    if PortPuts(s, b) {
      var r :| HasRole(s.memories, r) && Puts(s, r) && BufferOf(s.memories, r) == b;
      MemoryPuts(s, senders, r.memory, b);
      assert b in ms[r.memory].enqs;
      MergeAllIncludes(ms, r.memory);
    }
    if b in MergeAll(ms).enqs {
      var k := PutBy(ms, b);
      MemoryPuts(s, senders, k, b);
    } else if b in MergeAll(es).enqs {
      var k := PutBy(es, b);
      ElementStages(s, senders, k, b);
    }
  }

  /** A sending buffer is emptied, and a receiving buffer filled, by the links it is the end of. */
  lemma LinkEnds<B>(s: System<B>, senders: set<B>, b: B)
    requires Wired(s, senders)
    ensures b in senders ==> (b in Staged(s).deqs <==> exists l | l in Links(s) && l.from == b :: Moves(s.queues, l))
    ensures b !in senders ==> (b in Staged(s).enqs <==> exists l | l in Links(s) && l.to == b :: Moves(s.queues, l))
  {
    StagedRespects(s, senders);
    hide Staged, Links, Moves, Wired;
    forall l | l in Links(s)
      ensures l.from in Staged(s).deqs <==> Moves(s.queues, l)
      ensures l.to in Staged(s).enqs <==> Moves(s.queues, l)
    {
      LinkEvent(s, senders, l);
    }
  }

  // --- Ports with buffers of their own ---

  lemma OwnPortIsNoChannel<B>(s: System<B>, r: Role)
    requires OwnPorts(s) && HasRole(s.memories, r)
    ensures !CoreTakes(s, BufferOf(s.memories, r)) && !CorePuts(s, BufferOf(s.memories, r))
  {
    var b := BufferOf(s.memories, r);
    forall k | 0 <= k < |s.elements|
      ensures b !in CoreDelta(s.queues, s.elements[k]).deqs && b !in CoreDelta(s.queues, s.elements[k]).enqs
    {
      CoreStagesOwn(s.queues, s.elements[k]);
    }
  }

  lemma RoleSide<B>(s: System<B>, senders: set<B>, r: Role)
    requires Wired(s, senders) && HasRole(s.memories, r)
    ensures BufferOf(s.memories, r) in s.queues
    ensures BufferOf(s.memories, r) in senders <==> r.ReadData?
  {
    var m := s.memories[r.memory];
    assert MemoryWired(s.queues, senders, m);
    if r.Reads() { assert ReadPortWired(s.queues, senders, m.readPorts[r.port]); }
    else { assert WritePortWired(s.queues, senders, m.writePorts[r.port]); }
  }

  /** What happens at a port's buffers is what the port does. */
  lemma PortEvents<B>(s: System<B>, senders: set<B>, r: Role)
    requires Wired(s, senders) && OwnPorts(s) && HasRole(s.memories, r)
    ensures !r.ReadData? ==> (BufferOf(s.memories, r) in Staged(s).deqs <==> Takes(s, r))
    ensures r.ReadData? ==> (BufferOf(s.memories, r) in Staged(s).enqs <==> Puts(s, r))
    ensures r.ReadData? && Puts(s, r) ==> Some(Staged(s).enqs[BufferOf(s.memories, r)]) == ReadPortOf(s.memories, r).pending
  {
    var b := BufferOf(s.memories, r);
    RoleSide(s, senders, r);
    OwnPortIsNoChannel(s, r);
    forall r' | HasRole(s.memories, r') && BufferOf(s.memories, r') == b ensures r' == r { }
    hide Staged, Wired, OwnPorts, CoreTakes, CorePuts, Takes, Puts, BufferOf, HasRole;
    if r.ReadData? {
      SenderFilled(s, senders, b);
      PortPutsOne(s, r);
    } else {
      ReceiverTaken(s, senders, b);
      PortTakesOne(s, r);
    }
    NoCoreValue(s, b);
  }

  lemma PortPutsOne<B>(s: System<B>, r: Role)
    requires HasRole(s.memories, r)
    requires forall r' | HasRole(s.memories, r') && BufferOf(s.memories, r') == BufferOf(s.memories, r) :: r' == r
    ensures PortPuts(s, BufferOf(s.memories, r)) <==> Puts(s, r)
  {
    hide HasRole, BufferOf, Puts;
  }

  lemma PortTakesOne<B>(s: System<B>, r: Role)
    requires HasRole(s.memories, r)
    requires forall r' | HasRole(s.memories, r') && BufferOf(s.memories, r') == BufferOf(s.memories, r) :: r' == r
    ensures PortTakes(s, BufferOf(s.memories, r)) <==> Takes(s, r)
  {
    hide HasRole, BufferOf, Takes;
  }

  lemma NoCoreValue<B>(s: System<B>, b: B)
    requires !CorePuts(s, b)
    ensures forall k | 0 <= k < |s.elements| :: b !in CoreDelta(s.queues, s.elements[k]).enqs
  {
    hide CoreDelta;
  }

  // --- Ports are never rewired ---

  lemma SameRoles<B>(s: System<B>, r: Role)
    ensures HasRole(Cycle(s).memories, r) <==> HasRole(s.memories, r)
    ensures HasRole(s.memories, r) ==> BufferOf(Cycle(s).memories, r) == BufferOf(s.memories, r)
  {
    hide Staged, Written, CoreNext, Commit;
    if r.memory < |s.memories| {
      NextPorts(s.queues, s.memories[r.memory]);
      if HasRole(s.memories, r) && r.Reads() {
        SamePortLinks(ReadPortOf(s.memories, r), ReadPortOf(Cycle(s).memories, r));
      }
    }
  }

  lemma StillOwnPorts<B>(s: System<B>)
    requires OwnPorts(s)
    ensures OwnPorts(Cycle(s))
  {
    hide HasRole, BufferOf, Cycle;
    var s' := Cycle(s);
    SameWires(s);
    forall r, r' | HasRole(s'.memories, r) && HasRole(s'.memories, r') && BufferOf(s'.memories, r) == BufferOf(s'.memories, r')
      ensures r == r'
    {
      SameRoles(s, r);
      SameRoles(s, r');
    }
    forall r, k | HasRole(s'.memories, r) && 0 <= k < |s'.elements|
      ensures BufferOf(s'.memories, r) !in s'.elements[k].w.ins && BufferOf(s'.memories, r) !in s'.elements[k].w.outs
    {
      SameRoles(s, r);
      assert s'.elements[k].w == s.elements[k].w;
    }
  }

  lemma SameWires<B>(s: System<B>)
    ensures |Cycle(s).elements| == |s.elements|
    ensures forall k | 0 <= k < |s.elements| :: Cycle(s).elements[k].w == s.elements[k].w
  {
    hide CoreNext, MemoryNext, Staged, Commit;
    forall k | 0 <= k < |s.elements| ensures Cycle(s).elements[k].w == s.elements[k].w { SameElement(s.queues, s.elements[k]); }
  }
}
