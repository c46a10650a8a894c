/** The event loop: iterate every processing element and every memory, then commit every buffer. */
module SimulatorSystem {
  import opened Prelude
  import opened Instructions
  import opened Sequential
  import opened Simulator
  import opened SimulatorObjects
  import opened SimulatorMemory
  import Cores = SimulatorCore

  class ProcessingElement {
    const core: Cores.Core
    const router: SoftwareRouter

    /** The router is wired to the channels of its core. */
    constructor (core: Cores.Core, router: SoftwareRouter)
      requires router.ins == core.ins && router.outs == core.outs
      ensures this.core == core && this.router == router
    {
      this.core, this.router := core, router;
    }

    function Value(): Element<Buffer>
      reads this, core, router
    {
      core.AsElement(router.Wires())
    }

    ghost predicate Ready(all: set<Buffer>)
      reads this, core, router
    {
      router.ins == core.ins && router.outs == core.outs && core.Ready(all) && router.Within(all)
    }

    /** The core, then the router. */
    method Iterate(ghost all: set<Buffer>) returns (ok: bool)
      requires Ready(all) && AllValid(all)
      modifies core
      modifies all`stagedPacket, all`stagedDequeue, all`pending
      ensures AllValid(all) && Committed(all) == old(Committed(all))
      ensures ok == StaysInScratchpad(Committed(all), old(Value()))
      ensures ok ==> Ready(all) && Value() == CoreNext(Committed(all), old(Value()))
      ensures ok ==> StagedOn(all) == Merge(old(StagedOn(all)), ElementDelta(Committed(all), old(Value())))
    {
      ghost var start, q, e := StagedOn(all), Committed(all), Value();
      MergeAssociates(start, CoreDelta(q, e), Transfers(q, RouterLinks(e.w)));
      hide Committed, StagedOn, AllValid, Merge, CoreDelta, CoreNext, Transfers, RouterLinks, StaysInScratchpad;
      ok := core.Iterate(all, router.Wires());
      if ok {
        KeepsShape(q, e);
        router.Iterate(all);
      }
    }

    lemma KeepsShape(q: Queues<Buffer>, e: Element<Buffer>)
      ensures |CoreNext(q, e).core.predicates| == |e.core.predicates| && CoreNext(q, e).m == e.m && CoreNext(q, e).w == e.w
    {
      hide Scheduled, Compute, ReadOperands;
    }
  }

  ghost function AllOf(buffers: seq<Buffer>): set<Buffer> {
    set b | b in buffers
  }

  ghost function ElementValues(es: seq<ProcessingElement>): (r: seq<Element<Buffer>>)
    reads es, set e | e in es :: e.core, set e | e in es :: e.router
    ensures |r| == |es| && forall k | 0 <= k < |es| :: r[k] == es[k].Value()
  {
    seq(|es|, k requires 0 <= k < |es| reads es, set e | e in es :: e.core, set e | e in es :: e.router => es[k].Value())
  }

  ghost predicate ElementsReady(es: seq<ProcessingElement>, all: set<Buffer>)
    reads es, set e | e in es :: e.core, set e | e in es :: e.router
  {
    forall k | 0 <= k < |es| :: es[k].Ready(all)
  }

  /** Processing elements have cores of their own. */
  ghost predicate OwnCores(es: seq<ProcessingElement>) {
    forall j, k | 0 <= j < k < |es| :: es[j].core != es[k].core
  }

  function AllCoresNext(q: Queues<Buffer>, es: seq<Element<Buffer>>): (r: seq<Element<Buffer>>)
    ensures |r| == |es| && forall k | 0 <= k < |es| :: r[k] == CoreNext(q, es[k])
  {
    seq(|es|, k requires 0 <= k < |es| => CoreNext(q, es[k]))
  }

  /** Iterate the processing elements in the order of the list. */
  method IterateElements(es: seq<ProcessingElement>, ghost all: set<Buffer>) returns (ok: bool)
    requires AllValid(all) && ElementsReady(es, all) && OwnCores(es)
    modifies set e | e in es :: e.core
    modifies all`stagedPacket, all`stagedDequeue, all`pending
    ensures AllValid(all) && Committed(all) == old(Committed(all))
    ensures ok <==> AllStayInScratchpads(Committed(all), old(ElementValues(es)))
    ensures ok ==> ElementsReady(es, all) && ElementValues(es) == AllCoresNext(Committed(all), old(ElementValues(es)))
    ensures ok ==> StagedOn(all) == Merge(old(StagedOn(all)), MergeAll(DeltasOf(Committed(all), old(ElementValues(es)))))
  {
    hide *;
    ghost var start, q, vs := StagedOn(all), Committed(all), ElementValues(es);
    ghost var ds, goal := DeltasOf(q, vs), AllCoresNext(q, vs);
    StageEnds(start, ds);
    HalfwayEnds(goal, vs);
    ElementLengths(q, es, vs);
    for i := 0 to |es|
      invariant AllValid(all) && Committed(all) == q && ElementsReady(es, all)
      invariant forall k | 0 <= k < i :: StaysInScratchpad(q, vs[k])
      invariant ElementValues(es) == Halfway(goal, vs, i)
      invariant StagedOn(all) == StagedSoFar(start, ds, i)
    {
      StageNext(start, ds, i);
      HalfwayNext(goal, vs, i);
      ThisElement(q, es, vs, i);
      ok := IterateElement(es, i, all);
      if !ok {
        NotAllStay(q, vs, i);
        return;
      }
    }
    EveryoneStays(q, vs);
    ok := true;
  }

  predicate AllStayInScratchpads(q: Queues<Buffer>, es: seq<Element<Buffer>>) {
    forall k | 0 <= k < |es| :: StaysInScratchpad(q, es[k])
  }

  lemma NotAllStay(q: Queues<Buffer>, vs: seq<Element<Buffer>>, i: nat)
    requires i < |vs| && !StaysInScratchpad(q, vs[i])
    ensures !AllStayInScratchpads(q, vs)
  {
    hide StaysInScratchpad;
  }

  lemma EveryoneStays(q: Queues<Buffer>, vs: seq<Element<Buffer>>)
    requires forall k | 0 <= k < |vs| :: StaysInScratchpad(q, vs[k])
    ensures AllStayInScratchpads(q, vs)
  {
    hide StaysInScratchpad;
  }

  lemma ElementLengths(q: Queues<Buffer>, es: seq<ProcessingElement>, vs: seq<Element<Buffer>>)
    requires vs == ElementValues(es)
    ensures |es| == |vs| == |DeltasOf(q, vs)| == |AllCoresNext(q, vs)|
  {
  }

  lemma ThisElement(q: Queues<Buffer>, es: seq<ProcessingElement>, vs: seq<Element<Buffer>>, i: nat)
    requires i < |es| == |vs|
    ensures es[i].core in (set e | e in es :: e.core)
    ensures DeltasOf(q, vs)[i] == ElementDelta(q, vs[i]) && AllCoresNext(q, vs)[i] == CoreNext(q, vs[i])
  {
    hide ElementDelta, CoreNext;
    var e := es[i];
    assert e in es && e.core in (set e | e in es :: e.core);
  }

  /** One element among several. */
  method IterateElement(es: seq<ProcessingElement>, i: nat, ghost all: set<Buffer>) returns (ok: bool)
    requires i < |es| && AllValid(all) && ElementsReady(es, all) && OwnCores(es)
    modifies es[i].core
    modifies all`stagedPacket, all`stagedDequeue, all`pending
    ensures AllValid(all) && Committed(all) == old(Committed(all))
    ensures ok == StaysInScratchpad(Committed(all), old(ElementValues(es))[i])
    ensures ok ==> ElementsReady(es, all)
    ensures ok ==> ElementValues(es) == old(ElementValues(es))[i := CoreNext(Committed(all), old(ElementValues(es))[i])]
    ensures ok ==> StagedOn(all) == Merge(old(StagedOn(all)), ElementDelta(Committed(all), old(ElementValues(es))[i]))
  {
    ghost var vs := ElementValues(es);
    hide Merge, StagedOn, Committed, AllValid, ElementDelta, CoreNext, StaysInScratchpad;
    ok := es[i].Iterate(all);
    if ok {
      forall k | 0 <= k < |es| && k != i ensures es[k].Ready(all) && es[k].Value() == vs[k] {
        assert es[k].core != es[i].core;
        assert vs[k] == old(es[k].Value());
      }
    }
  }

  predicate AllHaltedIn(vs: seq<Element<Buffer>>) {
    forall k | 0 <= k < |vs| :: vs[k].core.halted
  }

  /** Every processing element's halt register. */
  method AllHalted(es: seq<ProcessingElement>) returns (halt: bool)
    ensures halt == AllHaltedIn(ElementValues(es))
  {
    halt := true;
    for k := 0 to |es|
      invariant halt == forall j | 0 <= j < k :: ElementValues(es)[j].core.halted
    {
      assert ElementValues(es)[k] == es[k].Value();
      halt := halt && es[k].core.haltRegister;
    }
  }

  function DeltasOf(q: Queues<Buffer>, es: seq<Element<Buffer>>): (r: seq<Delta<Buffer>>)
    ensures |r| == |es| && forall k | 0 <= k < |es| :: r[k] == ElementDelta(q, es[k])
  {
    seq(|es|, k requires 0 <= k < |es| => ElementDelta(q, es[k]))
  }

  /** Commit every buffer, noting whether all of them end up empty. */
  method CommitAll(buffers: seq<Buffer>) returns (drained: bool)
    requires AllValid(AllOf(buffers))
    modifies buffers
    ensures AllValid(AllOf(buffers)) && StagedOn(AllOf(buffers)) == Nothing()
    ensures Committed(AllOf(buffers)) == Simulator.Commit(old(Committed(AllOf(buffers))), old(StagedOn(AllOf(buffers))))
    ensures drained == forall b | b in buffers :: b.queue == []
  {
    ghost var all := AllOf(buffers);
    ghost var q, d := Committed(all), StagedOn(all);
    drained := true;
    NoneSettled(buffers, q, d);
    assert SettledBefore(buffers, 0, q, d);
    hide SettledBefore, Committed, StagedOn, AllValid, AllOf;
    for k := 0 to |buffers|
      invariant AllValid(all) && SettledBefore(buffers, k, q, d)
      invariant drained == forall i | 0 <= i < k :: buffers[i].queue == []
    {
      CommitNext(buffers, k, q, d);
      drained := drained && buffers[k].IsEmpty();
    }
    AllSettled(buffers, q, d);
  }

  /** The first `k` buffers have been committed, and the others have not unless they are among those. */
  ghost predicate SettledBefore(buffers: seq<Buffer>, k: nat, q: Queues<Buffer>, d: Delta<Buffer>)
    requires k <= |buffers|
    reads AllOf(buffers)
  {
    forall i | 0 <= i < |buffers| :: if buffers[i] in buffers[..k] then Settled(buffers[i], q, d) else Unsettled(buffers[i], q, d)
  }

  /** Commit one buffer; committing a buffer twice changes nothing. */
  method CommitNext(buffers: seq<Buffer>, k: nat, ghost q: Queues<Buffer>, ghost d: Delta<Buffer>)
    requires k < |buffers| && AllValid(AllOf(buffers)) && SettledBefore(buffers, k, q, d)
    modifies buffers[k]
    ensures AllValid(AllOf(buffers)) && SettledBefore(buffers, k + 1, q, d)
    ensures forall i | 0 <= i < k :: buffers[i].queue == old(buffers[i].queue)
  {
    assert buffers[..k + 1] == buffers[..k] + [buffers[k]];
    assert buffers[k] in AllOf(buffers) && buffers[k].Valid();
    hide Settled, Unsettled;
    Settle(buffers[k], q, d);
  }

  method Settle(b: Buffer, ghost q: Queues<Buffer>, ghost d: Delta<Buffer>)
    requires b.Valid() && (Settled(b, q, d) || Unsettled(b, q, d))
    modifies b
    ensures b.Valid() && Settled(b, q, d)
    ensures old(Settled(b, q, d)) ==> b.queue == old(b.queue)
  {
    b.Commit();
  }

  lemma NoneSettled(buffers: seq<Buffer>, q: Queues<Buffer>, d: Delta<Buffer>)
    requires q == Committed(AllOf(buffers)) && d == StagedOn(AllOf(buffers))
    ensures q.Keys == AllOf(buffers) && forall i | 0 <= i < |buffers| :: Unsettled(buffers[i], q, d)
  {
  }

  lemma AllSettled(buffers: seq<Buffer>, q: Queues<Buffer>, d: Delta<Buffer>)
    requires q.Keys == AllOf(buffers) && SettledBefore(buffers, |buffers|, q, d)
    ensures Committed(AllOf(buffers)) == Simulator.Commit(q, d) && StagedOn(AllOf(buffers)) == Nothing()
  {
    assert buffers[..|buffers|] == buffers;
    forall b | b in AllOf(buffers) ensures Settled(b, q, d) {
      var i :| 0 <= i < |buffers| && buffers[i] == b;
    }
  }

  /** A buffer whose staged operations have been applied. */
  ghost predicate Settled(b: Buffer, q: Queues<Buffer>, d: Delta<Buffer>)
    reads b
  {
    && !b.pending && b.stagedPacket.None? && !b.stagedDequeue
    && b in q && b.depth == q[b].depth
    && b.queue == PopIf(q[b].queue, b in d.deqs) + (if b in d.enqs then [d.enqs[b]] else [])
  }

  /** A buffer that has not been committed yet. */
  ghost predicate Unsettled(b: Buffer, q: Queues<Buffer>, d: Delta<Buffer>)
    reads b
  {
    && b in q && b.depth == q[b].depth && b.queue == q[b].queue
    && b.stagedDequeue == (b in d.deqs)
    && b.stagedPacket == if b in d.enqs then Some(d.enqs[b]) else None
  }

  ghost function ContentsOf(ms: seq<MemoryElement>): set<array<Word>> {
    set m | m in ms :: m.contents
  }

  ghost function MemoryValues(ms: seq<MemoryElement>): (r: seq<Memory<Buffer>>)
    reads ms, ContentsOf(ms)
    ensures |r| == |ms| && forall k | 0 <= k < |ms| :: r[k] == ms[k].AsValue()
  {
    seq(|ms|, k requires 0 <= k < |ms| reads ms, ContentsOf(ms) => ms[k].AsValue())
  }

  /** Memories are different objects with different storage. */
  ghost predicate Separate(ms: seq<MemoryElement>) {
    forall j, k | 0 <= j < k < |ms| :: ms[j] != ms[k] && ms[j].contents != ms[k].contents
  }

  function MemoryDeltasOf(q: Queues<Buffer>, ms: seq<Memory<Buffer>>): (r: seq<Delta<Buffer>>)
    ensures |r| == |ms| && forall k | 0 <= k < |ms| :: r[k] == MemoryDelta(q, ms[k])
  {
    seq(|ms|, k requires 0 <= k < |ms| => MemoryDelta(q, ms[k]))
  }

  ghost predicate MemoriesWithin(ms: seq<MemoryElement>, all: set<Buffer>)
    reads ms
  {
    forall k | 0 <= k < |ms| :: ms[k].Within(all)
  }

  /** One memory among several. */
  method IterateOne(ms: seq<MemoryElement>, i: nat, ghost all: set<Buffer>) returns (ok: bool)
    requires i < |ms| && AllValid(all) && Separate(ms) && MemoriesWithin(ms, all)
    modifies ms[i], ms[i].contents
    modifies all`stagedPacket, all`stagedDequeue, all`pending
    ensures AllValid(all) && Committed(all) == old(Committed(all))
    ensures ok <==> AddressesExist(Committed(all), old(MemoryValues(ms))[i])
    ensures ok ==> MemoriesWithin(ms, all)
    ensures ok ==> MemoryValues(ms) == old(MemoryValues(ms))[i := MemoryNext(Committed(all), old(MemoryValues(ms))[i])]
    ensures ok ==> StagedOn(all) == Merge(old(StagedOn(all)), MemoryDelta(Committed(all), old(MemoryValues(ms))[i]))
  {
    ghost var vs := MemoryValues(ms);
    hide MergeAll, Merge, StagedOn, Committed, AllValid, MemoryDelta, MemoryNext, AddressesExist, PortWithin, Stored;
    ok := ms[i].Iterate(all);
    if ok {
      forall k | 0 <= k < |ms| && k != i ensures ms[k].Within(all) && ms[k].AsValue() == vs[k] {
        assert ms[k] != ms[i] && ms[k].contents != ms[i].contents;
        assert vs[k] == old(ms[k].AsValue());
      }
    }
  }

  function AllNext(q: Queues<Buffer>, ms: seq<Memory<Buffer>>): (r: seq<Memory<Buffer>>)
    ensures |r| == |ms| && forall k | 0 <= k < |ms| :: r[k] == MemoryNext(q, ms[k])
  {
    seq(|ms|, k requires 0 <= k < |ms| => MemoryNext(q, ms[k]))
  }

  predicate AllExist(q: Queues<Buffer>, ms: seq<Memory<Buffer>>) {
    forall k | 0 <= k < |ms| :: AddressesExist(q, ms[k])
  }

  /** Iterate the memories. */
  method IterateMemories(ms: seq<MemoryElement>, ghost all: set<Buffer>) returns (ok: bool)
    requires AllValid(all) && Separate(ms) && MemoriesWithin(ms, all)
    modifies ms, ContentsOf(ms)
    modifies all`stagedPacket, all`stagedDequeue, all`pending
    ensures AllValid(all) && Committed(all) == old(Committed(all))
    ensures ok <==> AllExist(Committed(all), old(MemoryValues(ms)))
    ensures ok ==> MemoriesWithin(ms, all) && MemoryValues(ms) == AllNext(Committed(all), old(MemoryValues(ms)))
    ensures ok ==> StagedOn(all) == Merge(old(StagedOn(all)), MergeAll(MemoryDeltasOf(Committed(all), old(MemoryValues(ms)))))
  {
    hide *;
    ghost var start, q, vs := StagedOn(all), Committed(all), MemoryValues(ms);
    ghost var ds, goal := MemoryDeltasOf(q, vs), AllNext(q, vs);
    StageEnds(start, ds);
    HalfwayEnds(goal, vs);
    SameLengths(q, ms, vs);
    for i := 0 to |ms|
      invariant AllValid(all) && Committed(all) == q && MemoriesWithin(ms, all)
      invariant forall k | 0 <= k < i :: AddressesExist(q, vs[k])
      invariant MemoryValues(ms) == Halfway(goal, vs, i)
      invariant StagedOn(all) == StagedSoFar(start, ds, i)
    {
      StageNext(start, ds, i);
      HalfwayNext(goal, vs, i);
      ThisMemory(q, ms, vs, i);
      ok := IterateOne(ms, i, all);
      if !ok {
        NotAllExist(q, vs, i);
        return;
      }
    }
    EveryAddressExists(q, vs);
    ok := true;
  }

  lemma SameLengths(q: Queues<Buffer>, ms: seq<MemoryElement>, vs: seq<Memory<Buffer>>)
    requires vs == MemoryValues(ms)
    ensures |ms| == |vs| == |MemoryDeltasOf(q, vs)| == |AllNext(q, vs)|
  {
  }

  lemma ThisMemory(q: Queues<Buffer>, ms: seq<MemoryElement>, vs: seq<Memory<Buffer>>, i: nat)
    requires i < |ms| == |vs|
    ensures ms[i] in ms && ms[i].contents in ContentsOf(ms)
    ensures MemoryDeltasOf(q, vs)[i] == MemoryDelta(q, vs[i]) && AllNext(q, vs)[i] == MemoryNext(q, vs[i])
  {
    hide MemoryDelta, MemoryNext;
  }

  lemma NotAllExist(q: Queues<Buffer>, vs: seq<Memory<Buffer>>, i: nat)
    requires i < |vs| && !AddressesExist(q, vs[i])
    ensures !AllExist(q, vs)
  {
    hide AddressesExist;
  }

  lemma EveryAddressExists(q: Queues<Buffer>, vs: seq<Memory<Buffer>>)
    requires forall k | 0 <= k < |vs| :: AddressesExist(q, vs[k])
    ensures AllExist(q, vs)
  {
    hide AddressesExist;
  }

  // --- The system ---

  class System {
    var cycle: nat
    var processingElements: seq<ProcessingElement>
    var memories: seq<MemoryElement>
    var buffers: seq<Buffer>

    constructor ()
      ensures cycle == 0 && processingElements == [] && memories == [] && buffers == []
    {
      cycle, processingElements, memories, buffers := 0, [], [], [];
    }

    /** A processing element registers its channels with the event loop, inputs first, and then itself. */
    method Register(e: ProcessingElement)
      modifies this`processingElements, this`buffers
      ensures processingElements == old(processingElements) + [e]
      ensures buffers == old(buffers) + e.core.ins + e.core.outs
    {
      for c := 0 to |e.core.ins|
        invariant buffers == old(buffers) + e.core.ins[..c] && processingElements == old(processingElements)
      {
        buffers := buffers + [e.core.ins[c]];
      }
      assert e.core.ins[..|e.core.ins|] == e.core.ins;
      for c := 0 to |e.core.outs|
        invariant buffers == old(buffers) + e.core.ins + e.core.outs[..c] && processingElements == old(processingElements)
      {
        buffers := buffers + [e.core.outs[c]];
      }
      assert e.core.outs[..|e.core.outs|] == e.core.outs;
      processingElements := processingElements + [e];
    }

    /** Everything registered is reachable from the event loop, and nothing is shared that should not be. */
    ghost predicate Registered()
      reads this, processingElements, memories, AllOf(buffers)
      reads set e | e in processingElements :: e.core, set e | e in processingElements :: e.router
    {
      && AllValid(AllOf(buffers)) && StagedOn(AllOf(buffers)) == Nothing()
      && ElementsReady(processingElements, AllOf(buffers)) && OwnCores(processingElements)
      && MemoriesWithin(memories, AllOf(buffers)) && Separate(memories)
    }

    ghost function AsValue(): Simulator.System<Buffer>
      reads this, processingElements, memories, AllOf(buffers)
      reads set e | e in processingElements :: e.core, set e | e in processingElements :: e.router, ContentsOf(memories)
    {
      Together(processingElements, memories, buffers)
    }

    /** One cycle. It fails exactly when a core or a memory is asked for an address it does not have. */
    method Iterate() returns (ok: bool, halt: bool)
      requires Registered()
      modifies this`cycle, set e | e in processingElements :: e.core
      modifies memories, ContentsOf(memories), buffers
      ensures ok <==> NothingRaises(old(AsValue()))
      ensures ok ==> Registered() && AsValue() == Cycle(old(AsValue()))
      ensures ok ==> halt == Halted(AsValue())
      ensures ok ==> halt == ((forall e | e in processingElements :: e.core.haltRegister) && forall b | b in buffers :: b.queue == [])
      ensures ok ==> cycle == old(cycle) + (if halt then 0 else 1)
    {
      hide AllValid, StagedOn, ElementsReady, OwnCores, MemoriesWithin, Separate, Together, Cycle, Halted, NothingRaises;
      ok, halt := RunPhases(processingElements, memories, buffers);
      HaltedMeans(processingElements, memories, buffers);
      if ok && !halt { cycle := cycle + 1; }
    }
  }

  lemma HaltedMeans(es: seq<ProcessingElement>, ms: seq<MemoryElement>, buffers: seq<Buffer>)
    ensures Halted(Together(es, ms, buffers)) <==>
      (forall e | e in es :: e.core.haltRegister) && forall b | b in buffers :: b.queue == []
  {
    var v := Together(es, ms, buffers);
    assert forall k | 0 <= k < |es| :: v.elements[k].core.halted == es[k].core.haltRegister;
    assert forall b | b in buffers :: b in v.queues && v.queues[b].queue == b.queue;
    hide ElementValues, MemoryValues, Committed;
  }

  /** No core leaves its scratchpad, and no memory is asked for an address it does not have. */
  predicate NothingRaises(v: Simulator.System<Buffer>) {
    AllStayInScratchpads(v.queues, v.elements) && AllExist(v.queues, v.memories)
  }

  /** The units and buffers of the event loop as one value. */
  ghost function Together(es: seq<ProcessingElement>, ms: seq<MemoryElement>, buffers: seq<Buffer>): Simulator.System<Buffer>
    reads es, ms, AllOf(buffers), set e | e in es :: e.core, set e | e in es :: e.router, ContentsOf(ms)
  {
    Simulator.System(ElementValues(es), MemoryValues(ms), Committed(AllOf(buffers)))
  }

  method RunPhases(es: seq<ProcessingElement>, ms: seq<MemoryElement>, buffers: seq<Buffer>) returns (ok: bool, halt: bool)
    requires AllValid(AllOf(buffers)) && StagedOn(AllOf(buffers)) == Nothing()
    requires ElementsReady(es, AllOf(buffers)) && OwnCores(es) && MemoriesWithin(ms, AllOf(buffers)) && Separate(ms)
    modifies set e | e in es :: e.core
    modifies ms, ContentsOf(ms), buffers
    ensures ok <==> NothingRaises(old(Together(es, ms, buffers)))
    ensures ok ==> Together(es, ms, buffers) == Cycle(old(Together(es, ms, buffers)))
    ensures ok ==> AllValid(AllOf(buffers)) && StagedOn(AllOf(buffers)) == Nothing()
    ensures ok ==> ElementsReady(es, AllOf(buffers)) && MemoriesWithin(ms, AllOf(buffers))
    ensures ok ==> halt == Halted(Together(es, ms, buffers))
  {
    ghost var all, v := AllOf(buffers), Together(es, ms, buffers);
    CycleParts(v);
    assert forall b | b in all :: b in buffers;
    hide StagedOn, Committed, AllValid, MergeAll, Merge, AllExist, AllStayInScratchpads, AllHaltedIn, StagedBy, Cycle, Halted, AllCoresNext, AllNext,
         ElementsReady, OwnCores, MemoriesWithin, Separate, ElementValues, MemoryValues, Simulator.Commit, AllOf;
    ok, halt := UnitsPhase(es, ms, all);
    if ok {
      var drained := CommitPhase(es, ms, buffers);
      AfterTheCycle(v, es, ms, buffers, halt, drained);
      halt := halt && drained;
    }
  }

  /** Both kinds of units have staged their operations, and nothing is committed yet. */
  method UnitsPhase(es: seq<ProcessingElement>, ms: seq<MemoryElement>, ghost all: set<Buffer>) returns (ok: bool, halt: bool)
    requires AllValid(all) && StagedOn(all) == Nothing()
    requires ElementsReady(es, all) && OwnCores(es) && MemoriesWithin(ms, all) && Separate(ms)
    modifies set e | e in es :: e.core
    modifies ms, ContentsOf(ms)
    modifies all`stagedPacket, all`stagedDequeue, all`pending
    ensures AllValid(all) && Committed(all) == old(Committed(all))
    ensures ok <==> AllStayInScratchpads(Committed(all), old(ElementValues(es))) && AllExist(Committed(all), old(MemoryValues(ms)))
    ensures ok ==> ElementsReady(es, all) && MemoriesWithin(ms, all)
    ensures ok ==> ElementValues(es) == AllCoresNext(Committed(all), old(ElementValues(es)))
    ensures ok ==> MemoryValues(ms) == AllNext(Committed(all), old(MemoryValues(ms)))
    ensures ok ==> StagedOn(all) == StagedBy(Committed(all), old(ElementValues(es)), old(MemoryValues(ms)))
    ensures ok ==> halt == AllHaltedIn(ElementValues(es))
  {
    StagedInOrder(Committed(all), ElementValues(es), MemoryValues(ms));
    hide StagedOn, Committed, AllValid, MergeAll, Merge, AllExist, AllStayInScratchpads, AllHaltedIn, DeltasOf, MemoryDeltasOf, AllCoresNext, AllNext,
         ElementsReady, OwnCores, MemoriesWithin, Separate, ElementValues, MemoryValues, StagedBy, Nothing;
    halt := false;
    ok := ElementsPhase(es, ms, all);
    if ok {
      halt := AllHalted(es);
      ok := MemoriesPhase(es, ms, all);
    }
  }

  /** What all units stage together, in the order of the event loop. */
  function StagedBy(q: Queues<Buffer>, es: seq<Element<Buffer>>, ms: seq<Memory<Buffer>>): Delta<Buffer> {
    Merge(MergeAll(DeltasOf(q, es)), MergeAll(MemoryDeltasOf(q, ms)))
  }

  lemma StagedInOrder(q: Queues<Buffer>, es: seq<Element<Buffer>>, ms: seq<Memory<Buffer>>)
    ensures Merge(Merge(Nothing(), MergeAll(DeltasOf(q, es))), MergeAll(MemoryDeltasOf(q, ms))) == StagedBy(q, es, ms)
  {
    hide MergeAll, DeltasOf, MemoryDeltasOf;
    NothingFirst(MergeAll(DeltasOf(q, es)));
  }

  lemma NothingFirst(d: Delta<Buffer>)
    ensures Merge(Nothing(), d) == d
  {
    assert Nothing<Buffer>().enqs + d.enqs == d.enqs;
  }

  lemma AfterTheCycle(v: Simulator.System<Buffer>, es: seq<ProcessingElement>, ms: seq<MemoryElement>, buffers: seq<Buffer>, halt: bool, drained: bool)
    requires ElementValues(es) == AllCoresNext(v.queues, v.elements) && MemoryValues(ms) == AllNext(v.queues, v.memories)
    requires Committed(AllOf(buffers)) == Simulator.Commit(v.queues, StagedBy(v.queues, v.elements, v.memories))
    requires halt == AllHaltedIn(ElementValues(es))
    requires drained == forall b | b in buffers :: b.queue == []
    ensures Together(es, ms, buffers) == Cycle(v)
    ensures Halted(Together(es, ms, buffers)) == (halt && drained)
  {
    CycleParts(v);
    HaltParts(Together(es, ms, buffers), es, buffers, halt, drained);
    hide Cycle, Halted, AllCoresNext, AllNext, StagedBy, Simulator.Commit, Committed, ElementValues, MemoryValues, AllOf;
  }

  // Each phase of a cycle leaves what the other phases work on alone.

  method ElementsPhase(es: seq<ProcessingElement>, ms: seq<MemoryElement>, ghost all: set<Buffer>) returns (ok: bool)
    requires AllValid(all) && ElementsReady(es, all) && OwnCores(es) && MemoriesWithin(ms, all)
    modifies set e | e in es :: e.core
    modifies all`stagedPacket, all`stagedDequeue, all`pending
    ensures AllValid(all) && Committed(all) == old(Committed(all))
    ensures MemoriesWithin(ms, all) && MemoryValues(ms) == old(MemoryValues(ms))
    ensures ok <==> AllStayInScratchpads(Committed(all), old(ElementValues(es)))
    ensures ok ==> ElementsReady(es, all) && ElementValues(es) == AllCoresNext(Committed(all), old(ElementValues(es)))
    ensures ok ==> StagedOn(all) == Merge(old(StagedOn(all)), MergeAll(DeltasOf(Committed(all), old(ElementValues(es)))))
  {
    hide StagedOn, Committed, AllValid, MergeAll, Merge, DeltasOf, AllCoresNext, ElementsReady, OwnCores, MemoriesWithin,
         ElementValues, MemoryValues, AllStayInScratchpads;
    ok := IterateElements(es, all);
  }

  method MemoriesPhase(es: seq<ProcessingElement>, ms: seq<MemoryElement>, ghost all: set<Buffer>) returns (ok: bool)
    requires AllValid(all) && ElementsReady(es, all) && MemoriesWithin(ms, all) && Separate(ms)
    modifies ms, ContentsOf(ms)
    modifies all`stagedPacket, all`stagedDequeue, all`pending
    ensures AllValid(all) && Committed(all) == old(Committed(all)) && ElementsReady(es, all)
    ensures ElementValues(es) == old(ElementValues(es))
    ensures ok <==> AllExist(Committed(all), old(MemoryValues(ms)))
    ensures ok ==> MemoriesWithin(ms, all) && MemoryValues(ms) == AllNext(Committed(all), old(MemoryValues(ms)))
    ensures ok ==> StagedOn(all) == Merge(old(StagedOn(all)), MergeAll(MemoryDeltasOf(Committed(all), old(MemoryValues(ms)))))
  {
    hide StagedOn, Committed, AllValid, MergeAll, Merge, AllExist, MemoryDeltasOf, AllNext, ElementsReady, MemoriesWithin, Separate,
         ElementValues, MemoryValues;
    ok := IterateMemories(ms, all);
  }

  method CommitPhase(es: seq<ProcessingElement>, ms: seq<MemoryElement>, buffers: seq<Buffer>) returns (drained: bool)
    requires AllValid(AllOf(buffers)) && ElementsReady(es, AllOf(buffers)) && MemoriesWithin(ms, AllOf(buffers))
    modifies buffers
    ensures AllValid(AllOf(buffers)) && ElementsReady(es, AllOf(buffers)) && MemoriesWithin(ms, AllOf(buffers))
    ensures ElementValues(es) == old(ElementValues(es)) && MemoryValues(ms) == old(MemoryValues(ms))
    ensures StagedOn(AllOf(buffers)) == Nothing()
    ensures Committed(AllOf(buffers)) == Simulator.Commit(old(Committed(AllOf(buffers))), old(StagedOn(AllOf(buffers))))
    ensures drained == forall b | b in buffers :: b.queue == []
  {
    hide StagedOn, Committed, AllValid, ElementsReady, MemoriesWithin, ElementValues, MemoryValues, Simulator.Commit;
    drained := CommitAll(buffers);
  }

  lemma HaltParts(v: Simulator.System<Buffer>, es: seq<ProcessingElement>, buffers: seq<Buffer>, halt: bool, drained: bool)
    requires v.elements == ElementValues(es) && v.queues == Committed(AllOf(buffers))
    requires halt == AllHaltedIn(ElementValues(es))
    requires drained == forall b | b in buffers :: b.queue == []
    ensures Halted(v) == (halt && drained)
  {
    assert forall b :: b in v.queues <==> b in buffers;
    assert forall b | b in buffers :: v.queues[b].queue == b.queue;
    hide AllOf, Committed, ElementValues;
  }

  lemma CycleParts(v: Simulator.System<Buffer>)
    ensures Cycle(v) == Simulator.System(AllCoresNext(v.queues, v.elements), AllNext(v.queues, v.memories),
                                         Simulator.Commit(v.queues, StagedBy(v.queues, v.elements, v.memories)))
  {
    assert AllCoresNext(v.queues, v.elements) == NextElements(v);
    assert AllNext(v.queues, v.memories) == NextMemories(v);
    assert DeltasOf(v.queues, v.elements) == ElementDeltas(v);
    assert MemoryDeltasOf(v.queues, v.memories) == MemoryDeltas(v);
    hide MergeAll, CoreNext, MemoryNext, ElementDelta, MemoryDelta, Simulator.Commit;
  }
}
