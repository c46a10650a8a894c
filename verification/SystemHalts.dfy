/**
 * How far a reported halt can be trusted. Draining every buffer does not drain the answer a read port still holds.
 * The halt is final unless such answers can come back as the address and the data of one write.
 */
module SystemHalts {
  import opened Prelude
  import opened Instructions
  import opened Sequential
  import opened Simulator
  import opened Wires
  import opened Staging

  predicate SameContents<B(==)>(ms: seq<Memory<B>>, ns: seq<Memory<B>>) {
    |ms| == |ns| && forall k | 0 <= k < |ms| :: ns[k].contents == ms[k].contents
  }

  lemma HaltedCore<B>(q: Queues<B>, e: Element<B>)
    requires e.core.halted
    ensures CoreDelta(q, e) == Nothing() && CoreNext(q, e) == e
  {
  }

  lemma {:induction false} NothingWritten<B>(q: Queues<B>, contents: seq<Word>, ps: seq<WritePort<B>>)
    requires forall j | 0 <= j < |ps| :: !Writes(q, ps[j])
    ensures Written(q, contents, ps) == contents
    decreases ps
  {
    if ps != [] { NothingWritten(q, contents, ps[..|ps| - 1]); }
  }

  // --- Nothing pending ---

  /** No read port holds an answer back. */
  predicate NothingPending<B(==)>(s: System<B>) {
    forall k, j | 0 <= k < |s.memories| && 0 <= j < |s.memories[k].readPorts| :: s.memories[k].readPorts[j].pending.None?
  }

  lemma {:induction false} NothingTransferred<B>(q: Queues<B>, ls: seq<Link<B>>)
    requires forall b | b in q :: q[b].queue == []
    ensures Transfers(q, ls) == Nothing()
    decreases ls
  {
    if ls != [] { NothingTransferred(q, ls[..|ls| - 1]); }
  }

  lemma {:induction false} NothingMerged<B>(ds: seq<Delta<B>>)
    requires forall k | 0 <= k < |ds| :: ds[k] == Nothing()
    ensures MergeAll(ds) == Nothing()
    decreases ds
  {
    if ds != [] { NothingMerged(ds[..|ds| - 1]); }
  }

  lemma QuietElement<B>(s: System<B>, k: nat)
    requires Halted(s) && k < |s.elements|
    ensures ElementDelta(s.queues, s.elements[k]) == Nothing() && CoreNext(s.queues, s.elements[k]) == s.elements[k]
  {
    HaltedCore(s.queues, s.elements[k]);
    NothingTransferred(s.queues, RouterLinks(s.elements[k].w));
    hide CoreDelta, Transfers, RouterLinks, CoreNext;
  }

  lemma QuietMemory<B>(s: System<B>, k: nat)
    requires Halted(s) && NothingPending(s) && k < |s.memories|
    ensures MemoryDelta(s.queues, s.memories[k]) == Nothing() && MemoryNext(s.queues, s.memories[k]) == s.memories[k]
  {
    var q, m := s.queues, s.memories[k];
    forall j | 0 <= j < |m.readPorts| ensures PortDelta(q, m.readPorts[j]) == Nothing() && PortNext(q, m.contents, m.readPorts[j]) == m.readPorts[j] {
      NothingTransferred(q, PortLinks(m.readPorts[j]));
    }
    forall j | 0 <= j < |m.writePorts| ensures !Writes(q, m.writePorts[j]) && WriteDelta(q, m.writePorts[j]) == Nothing() { }
    NothingWritten(q, m.contents, m.writePorts);
    hide PortDelta, WriteDelta, PortNext, Written, Writes;
    NothingMerged(PortDeltas(q, m));
    NothingMerged(WriteDeltas(q, m));
    assert MemoryNext(q, m).readPorts == m.readPorts;
  }

  lemma QuietCycle<B>(s: System<B>)
    requires Halted(s) && NothingPending(s)
    ensures Cycle(s) == s
  {
    hide *;
    forall k | 0 <= k < |s.elements|
      ensures ElementDelta(s.queues, s.elements[k]) == Nothing() && CoreNext(s.queues, s.elements[k]) == s.elements[k]
    {
      QuietElement(s, k);
    }
    forall k | 0 <= k < |s.memories|
      ensures MemoryDelta(s.queues, s.memories[k]) == Nothing() && MemoryNext(s.queues, s.memories[k]) == s.memories[k]
    {
      QuietMemory(s, k);
    }
    NothingMerged(ElementDeltas(s));
    NothingMerged(MemoryDeltas(s));
    NothingHappens(s);
  }

  lemma NothingHappens<B>(s: System<B>)
    requires MergeAll(ElementDeltas(s)) == Nothing() && MergeAll(MemoryDeltas(s)) == Nothing()
    requires forall k | 0 <= k < |s.elements| :: CoreNext(s.queues, s.elements[k]) == s.elements[k]
    requires forall k | 0 <= k < |s.memories| :: MemoryNext(s.queues, s.memories[k]) == s.memories[k]
    ensures Cycle(s) == s
  {
    hide MergeAll, ElementDeltas, MemoryDeltas, CoreNext, MemoryNext;
    assert NextElements(s) == s.elements && NextMemories(s) == s.memories;
    assert Merge<B>(Nothing(), Nothing()) == Nothing();
    forall b | b in s.queues ensures Commit(s.queues, Nothing())[b] == s.queues[b] {
      assert s.queues[b].queue + [] == s.queues[b].queue;
    }
    assert Commit(s.queues, Nothing()) == s.queues;
  }

  /** With nothing pending, a halted system never changes again, however it is wired. */
  lemma {:induction false} DrainedIsFinal<B>(s: System<B>, n: nat)
    requires Halted(s) && NothingPending(s)
    ensures Cycles(s, n) == s
    decreases n
  {
    hide Halted, NothingPending, Cycle;
    if n > 0 {
      QuietCycle(s);
      DrainedIsFinal(s, n - 1);
    }
  }

  // --- Where answers can go ---

  predicate AllHalted<B(==)>(es: seq<Element<B>>) {
    forall k | 0 <= k < |es| :: es[k].core.halted
  }

  /** The buffer is where some read port puts its answers. */
  ghost predicate TakesAnswers<B>(ms: seq<Memory<B>>, b: B) {
    exists r | HasRole(ms, r) && r.ReadData? :: BufferOf(ms, r) == b
  }

  /** Answers of some read port arrive at this buffer. */
  ghost predicate Fed<B>(s: System<B>, b: B) {
    exists l | l in Links(s) && l.to == b :: TakesAnswers(s.memories, l.from)
  }

  function Partner(r: Role): Role
    requires r.WriteAddress?
  {
    WriteData(r.memory, r.port)
  }

  /** Both inputs of some write port are fed by read ports. */
  ghost predicate Looped<B>(s: System<B>) {
    exists r | HasRole(s.memories, r) && r.WriteAddress? ::
      Fed(s, BufferOf(s.memories, r)) && Fed(s, BufferOf(s.memories, Partner(r)))
  }

  /** A buffer that is empty and stays so once the cores have halted. */
  ghost predicate Dry<B>(s: System<B>, b: B) {
    !Fed(s, b) && b in s.queues && s.queues[b].queue == []
  }

  /** Every write port is short of an input for ever. */
  ghost predicate Starved<B>(s: System<B>) {
    forall r | HasRole(s.memories, r) && r.WriteAddress? :: Dry(s, BufferOf(s.memories, r)) || Dry(s, BufferOf(s.memories, Partner(r)))
  }

  ghost predicate Silent<B>(s: System<B>, senders: set<B>) {
    forall b | b in s.queues && b in senders && !TakesAnswers(s.memories, b) :: s.queues[b].queue == []
  }

  /** Cores have stopped, only read ports still send, and no write port can get both of its inputs. */
  ghost predicate Resting<B>(s: System<B>, senders: set<B>) {
    AllHalted(s.elements) && Silent(s, senders) && Starved(s)
  }

  lemma HaltedRests<B>(s: System<B>, senders: set<B>)
    requires Wired(s, senders) && Halted(s) && !Looped(s)
    ensures Resting(s, senders)
  {
    hide Wired, Fed, TakesAnswers, BufferOf;
    forall r | HasRole(s.memories, r) && r.WriteAddress?
      ensures Dry(s, BufferOf(s.memories, r)) || Dry(s, BufferOf(s.memories, Partner(r)))
    {
      PartnerExists(s.memories, r);
      RoleSide(s, senders, r);
      RoleSide(s, senders, Partner(r));
      assert !(Fed(s, BufferOf(s.memories, r)) && Fed(s, BufferOf(s.memories, Partner(r))));
    }
  }

  lemma PartnerExists<B>(ms: seq<Memory<B>>, r: Role)
    requires HasRole(ms, r) && r.WriteAddress?
    ensures HasRole(ms, Partner(r)) && Partner(r).WriteData?
  {
  }

  lemma HaltedCoresStageNothing<B>(s: System<B>, b: B)
    requires AllHalted(s.elements)
    ensures !CorePuts(s, b) && !CoreTakes(s, b)
  {
    forall k | 0 <= k < |s.elements| ensures CoreDelta(s.queues, s.elements[k]) == Nothing() { HaltedCore(s.queues, s.elements[k]); }
    hide CoreDelta;
  }

  lemma StaysEmpty<B>(s: System<B>, b: B)
    requires b in s.queues && s.queues[b].queue == [] && b !in Staged(s).enqs
    ensures b in Cycle(s).queues && Cycle(s).queues[b].queue == []
  {
    hide Staged;
  }

  lemma PutsIntoAnswers<B>(s: System<B>, b: B)
    requires PortPuts(s, b)
    ensures TakesAnswers(s.memories, b)
  {
    var r :| HasRole(s.memories, r) && Puts(s, r) && BufferOf(s.memories, r) == b;
    hide BufferOf, HasRole;
  }

  lemma StaysSilent<B>(s: System<B>, senders: set<B>, b: B)
    requires Wired(s, senders) && Resting(s, senders) && b in s.queues && b in senders && !TakesAnswers(s.memories, b)
    ensures b in Cycle(s).queues && Cycle(s).queues[b].queue == []
  {
    HaltedCoresStageNothing(s, b);
    assert s.queues[b].queue == [];
    hide *;
    SenderFilled(s, senders, b);
    if PortPuts(s, b) { PutsIntoAnswers(s, b); }
    StaysEmpty(s, b);
  }

  lemma DryLinksRest<B>(s: System<B>, senders: set<B>, b: B, l: Link<B>)
    requires Wired(s, senders) && Resting(s, senders) && Dry(s, b) && l in Links(s) && l.to == b
    ensures !Moves(s.queues, l)
  {
    assert Directed(s.queues, senders, Links(s));
    hide Links, ElementWired, MemoryWired, TakesAnswers;
    assert !TakesAnswers(s.memories, l.from);
  }

  lemma StaysDry<B>(s: System<B>, senders: set<B>, b: B)
    requires Wired(s, senders) && Resting(s, senders) && Dry(s, b) && b !in senders
    ensures b in Cycle(s).queues && Cycle(s).queues[b].queue == []
  {
    assert b in s.queues && s.queues[b].queue == [];
    hide *;
    LinkEnds(s, senders, b);
    forall l | l in Links(s) && l.to == b ensures !Moves(s.queues, l) { DryLinksRest(s, senders, b, l); }
    StaysEmpty(s, b);
  }

  /** The wiring decides who is fed, and a cycle does not change it. */
  lemma SameAnswers<B>(s: System<B>, b: B)
    ensures TakesAnswers(Cycle(s).memories, b) <==> TakesAnswers(s.memories, b)
  {
    forall r
      ensures HasRole(Cycle(s).memories, r) <==> HasRole(s.memories, r)
      ensures HasRole(s.memories, r) ==> BufferOf(Cycle(s).memories, r) == BufferOf(s.memories, r)
    {
      SameRoles(s, r);
    }
    hide HasRole, BufferOf, Cycle;
  }

  lemma SameFeeding<B>(s: System<B>, senders: set<B>, b: B)
    requires Wired(s, senders)
    ensures Fed(Cycle(s), b) <==> Fed(s, b)
  {
    WiredForever(s, senders);
    hide Wired, Links, Cycle, TakesAnswers;
    forall l | l in Links(s) ensures TakesAnswers(Cycle(s).memories, l.from) <==> TakesAnswers(s.memories, l.from) {
      SameAnswers(s, l.from);
    }
  }

  lemma WritesNeedBoth<B>(s: System<B>, r: Role)
    requires Starved(s) && HasRole(s.memories, r) && r.WriteAddress?
    ensures !Writes(s.queues, WritePortOf(s.memories, r))
  {
    hide Fed;
    assert HasRole(s.memories, Partner(r));
  }

  lemma RestKeepsContents<B>(s: System<B>)
    requires Starved(s)
    ensures SameContents(s.memories, NextMemories(s))
  {
    forall k | 0 <= k < |s.memories| ensures NextMemories(s)[k].contents == s.memories[k].contents {
      var m := s.memories[k];
      forall j | 0 <= j < |m.writePorts| ensures !Writes(s.queues, m.writePorts[j]) { WritesNeedBoth(s, WriteAddress(k, j)); }
      NothingWritten(s.queues, m.contents, m.writePorts);
    }
  }

  lemma HaltedCoresStay<B>(s: System<B>)
    requires AllHalted(s.elements)
    ensures NextElements(s) == s.elements
  {
    forall k | 0 <= k < |s.elements| ensures NextElements(s)[k] == s.elements[k] { HaltedCore(s.queues, s.elements[k]); }
    hide CoreNext;
  }

  lemma StarvedLater<B>(s: System<B>, senders: set<B>)
    requires Wired(s, senders) && Resting(s, senders)
    ensures Starved(Cycle(s))
  {
    hide Wired, Cycle, Fed, TakesAnswers;
    forall r | HasRole(Cycle(s).memories, r) && r.WriteAddress?
      ensures Dry(Cycle(s), BufferOf(Cycle(s).memories, r)) || Dry(Cycle(s), BufferOf(Cycle(s).memories, Partner(r)))
    {
      SameRoles(s, r);
      PartnerExists(s.memories, r);
      SameRoles(s, Partner(r));
      DryLater(s, senders, r);
      DryLater(s, senders, Partner(r));
    }
  }

  lemma DryLater<B>(s: System<B>, senders: set<B>, r: Role)
    requires Wired(s, senders) && Resting(s, senders) && HasRole(s.memories, r) && !r.ReadData?
    ensures Dry(s, BufferOf(s.memories, r)) ==> Dry(Cycle(s), BufferOf(s.memories, r))
  {
    hide Wired, Resting, Cycle, Fed, TakesAnswers;
    var b := BufferOf(s.memories, r);
    RoleSide(s, senders, r);
    SameFeeding(s, senders, b);
    if Dry(s, b) { StaysDry(s, senders, b); }
  }

  lemma SilentLater<B>(s: System<B>, senders: set<B>)
    requires Wired(s, senders) && Resting(s, senders)
    ensures Silent(Cycle(s), senders)
  {
    hide Wired, Resting, TakesAnswers, Staged;
    forall b | b in Cycle(s).queues && b in senders && !TakesAnswers(Cycle(s).memories, b) ensures Cycle(s).queues[b].queue == [] {
      SameAnswers(s, b);
      StaysSilent(s, senders, b);
    }
  }

  lemma RestContinues<B>(s: System<B>, senders: set<B>)
    requires Wired(s, senders) && Resting(s, senders)
    ensures Resting(Cycle(s), senders)
    ensures Cycle(s).elements == s.elements && SameContents(s.memories, Cycle(s).memories)
  {
    SilentLater(s, senders);
    StarvedLater(s, senders);
    RestKeepsContents(s);
    HaltedCoresStay(s);
    hide Wired, Silent, Starved, NextElements, NextMemories, Staged, Commit, AllHalted;
  }

  lemma {:induction false} RestIsFinal<B>(s: System<B>, senders: set<B>, n: nat)
    requires Wired(s, senders) && Resting(s, senders)
    ensures Cycles(s, n).elements == s.elements && SameContents(s.memories, Cycles(s, n).memories)
    decreases n
  {
    hide Wired, Resting, Cycle;
    if n > 0 {
      WiredForever(s, senders);
      RestContinues(s, senders);
      RestIsFinal(Cycle(s), senders, n - 1);
    }
  }

  /**
   * Once an iteration reports a halt, memory contents and everything inside the cores stay as they are for any
   * number of further cycles, even while read ports still deliver pending answers, unless answers feed both inputs
   * of a write port.
   */
  lemma HaltIsStable<B>(s: System<B>, senders: set<B>, n: nat)
    requires Wired(s, senders) && Halted(s) && !Looped(s)
    ensures Cycles(s, n).elements == s.elements && SameContents(s.memories, Cycles(s, n).memories)
  {
    hide *;
    HaltedRests(s, senders);
    RestIsFinal(s, senders, n);
  }

  // --- Memories without peripherals ---

  predicate NoPeripherals<B(==)>(s: System<B>) {
    forall k, j | 0 <= k < |s.memories| && 0 <= j < |s.memories[k].readPorts| :: s.memories[k].readPorts[j].peripheral.None?
  }

  lemma {:induction false} IncomingArrives<B>(w: Wiring<B>, n: nat, l: Link<B>)
    requires l in Incoming(w, n)
    ensures l.to in w.ins
    decreases n
  {
    if l in Inward(w, n - 1) { assert l.to == w.ins[n - 1]; } else { IncomingArrives(w, n - 1, l); }
  }

  lemma {:induction false} OutgoingLeaves<B>(w: Wiring<B>, n: nat, l: Link<B>)
    requires l in Outgoing(w, n)
    ensures l.from in w.outs
    decreases n
  {
    if l in Outward(w, n - 1) { assert l.from == w.outs[n - 1]; } else { OutgoingLeaves(w, n - 1, l); }
  }

  /** A router only moves packets into its own core's inputs and out of its own core's outputs. */
  lemma RouterTouchesItsCore<B>(w: Wiring<B>, l: Link<B>)
    requires l in RouterLinks(w)
    ensures l.to in w.ins || l.from in w.outs
  {
    if l in Incoming(w, |w.sources|) { IncomingArrives(w, |w.sources|, l); } else { OutgoingLeaves(w, |w.destinations|, l); }
  }

  /** No peripheral destination is ever set by the simulator, so answers reach cores only. */
  lemma WithoutPeripheralsNothingIsFed<B>(s: System<B>, r: Role)
    requires OwnPorts(s) && NoPeripherals(s) && HasRole(s.memories, r)
    ensures !Fed(s, BufferOf(s.memories, r))
  {
    assert MemoryLinks(s.memories) == {};
    if Fed(s, BufferOf(s.memories, r)) {
      var l :| l in Links(s) && l.to == BufferOf(s.memories, r) && TakesAnswers(s.memories, l.from);
      var r' :| HasRole(s.memories, r') && r'.ReadData? && BufferOf(s.memories, r') == l.from;
      var k :| 0 <= k < |s.elements| && l in RouterLinks(s.elements[k].w);
      RouterTouchesItsCore(s.elements[k].w, l);
      assert false;
    }
  }

  /** As the simulator builds its systems, a reported halt is final. */
  lemma HaltIsFinal<B>(s: System<B>, senders: set<B>, n: nat)
    requires Wired(s, senders) && OwnPorts(s) && NoPeripherals(s) && Halted(s)
    ensures Cycles(s, n).elements == s.elements && SameContents(s.memories, Cycles(s, n).memories)
  {
    hide Wired, OwnPorts, NoPeripherals, Halted, Fed, BufferOf, Cycles;
    forall r | HasRole(s.memories, r) && r.WriteAddress? ensures !Fed(s, BufferOf(s.memories, r)) {
      WithoutPeripheralsNothingIsFed(s, r);
    }
    HaltIsStable(s, senders, n);
  }
}
