/**
 * Inside a system, a processing element of the simulator is the sequential processing element the pipelined
 * cores are measured against, with its routers' transfers as link traffic.
 */
module Bridge {
  import opened Prelude
  import opened Instructions
  import opened Sequential
  import opened Simulator
  import opened Wires
  import opened Staging

  predicate Distinct<T(==)>(s: seq<T>) {
    forall j, k | 0 <= j < k < |s| :: s[j] != s[k]
  }

  /** The element's channels are different buffers, and nobody else's inputs. */
  predicate Private<B(==)>(s: System<B>, k: nat)
    requires k < |s.elements|
  {
    var w := s.elements[k].w;
    && Distinct(w.ins) && Distinct(w.outs)
    && (forall j, b | 0 <= j < |s.elements| && j != k && b in s.elements[j].w.ins :: b !in w.ins)
  }

  lemma ChannelIsNoPort<B>(s: System<B>, k: nat, b: B)
    requires OwnPorts(s) && k < |s.elements| && (b in s.elements[k].w.ins || b in s.elements[k].w.outs)
    ensures !PortTakes(s, b) && !PortPuts(s, b)
  {
    hide HasRole, BufferOf, Staging.Takes, Staging.Puts;
  }

  /** Only its core takes from an element's input. */
  lemma OnlyTheCoreTakes<B>(s: System<B>, senders: set<B>, k: nat, b: B)
    requires Wired(s, senders) && OwnPorts(s) && k < |s.elements| && Private(s, k) && b in s.elements[k].w.ins
    ensures b !in senders
    ensures b in Staged(s).deqs <==> b in CoreDelta(s.queues, s.elements[k]).deqs
  {
    assert ElementWired(s.queues, senders, s.elements[k]);
    ChannelIsNoPort(s, k, b);
    forall j | 0 <= j < |s.elements| && j != k ensures b !in CoreDelta(s.queues, s.elements[j]).deqs {
      CoreStagesOwn(s.queues, s.elements[j]);
    }
    hide Wired, OwnPorts, CoreDelta, Staged, PortTakes, PortPuts, Private;
    ReceiverTaken(s, senders, b);
  }

  /** Only its core fills an element's output. */
  lemma OnlyTheCoreFills<B>(s: System<B>, senders: set<B>, k: nat, b: B)
    requires Wired(s, senders) && OwnPorts(s) && k < |s.elements| && b in s.elements[k].w.outs
    ensures b in senders
    ensures b in Staged(s).enqs <==> b in CoreDelta(s.queues, s.elements[k]).enqs
    ensures b in CoreDelta(s.queues, s.elements[k]).enqs ==> Staged(s).enqs[b] == CoreDelta(s.queues, s.elements[k]).enqs[b]
  {
    assert ElementWired(s.queues, senders, s.elements[k]);
    ChannelIsNoPort(s, k, b);
    forall j | 0 <= j < |s.elements| && j != k ensures b !in CoreDelta(s.queues, s.elements[j]).enqs {
      CoreStagesOwn(s.queues, s.elements[j]);
      assert b !in s.elements[j].w.outs;
    }
    hide Wired, OwnPorts, CoreDelta, Staged, PortTakes;
    SenderFilled(s, senders, b);
  }

  // --- The element in its system ---

  /** The link traffic an element sees in one cycle of its system. */
  function Traffic<B(==)>(s: System<B>, k: nat): Events
    requires k < |s.elements|
  {
    var w, d := s.elements[k].w, Staged(s);
    Events(
      seq(|w.ins|, c requires 0 <= c < |w.ins| => if w.ins[c] in d.enqs then Some(d.enqs[w.ins[c]]) else None),
      seq(|w.outs|, c requires 0 <= c < |w.outs| => w.outs[c] in d.deqs))
  }

  lemma ChosenMeans<B>(bs: seq<B>, cs: seq<nat>, c: nat)
    requires Distinct(bs) && c < |bs|
    ensures bs[c] in Chosen(bs, cs) <==> c in cs
  {
  }

  /** The instruction an element executes takes from input `c`. */
  predicate Takes<B(==)>(q: Queues<B>, e: Element<B>, c: nat) {
    var i := Scheduled(e.m, PeOf(q, e));
    i.Some? && c in i.value.dequeues
  }

  /** The packet an element's core puts on output `c`. */
  function Puts<B(==)>(q: Queues<B>, e: Element<B>, c: nat): Option<Packet> {
    var pe := PeOf(q, e);
    var i := Scheduled(e.m, pe);
    if i.Some? && c in i.value.trigger.outputChannels
    then Some(Packet(i.value.outputTag, Compute(e.m.alu, pe.dp, i.value.op, ReadOperands(pe.dp, i.value))))
    else None
  }

  lemma CoreDeltaAt<B>(q: Queues<B>, e: Element<B>, c: nat)
    requires Distinct(e.w.ins) && Distinct(e.w.outs)
    ensures c < |e.w.ins| ==> (e.w.ins[c] in CoreDelta(q, e).deqs <==> Takes(q, e, c))
    ensures c < |e.w.outs| ==>
      && (e.w.outs[c] in CoreDelta(q, e).enqs <==> Puts(q, e, c).Some?)
      && (Puts(q, e, c).Some? ==> CoreDelta(q, e).enqs[e.w.outs[c]] == Puts(q, e, c).value)
  {
    hide Scheduled, PeOf, Compute, ReadOperands;
    match Scheduled(e.m, PeOf(q, e))
    case None =>
    case Some(i) =>
      if c < |e.w.ins| { ChosenMeans(e.w.ins, i.dequeues, c); }
      if c < |e.w.outs| { ChosenMeans(e.w.outs, i.trigger.outputChannels, c); }
  }

  function Append(q: seq<Packet>, p: Option<Packet>): seq<Packet> {
    if p.Some? then q + [p.value] else q
  }

  lemma IterateAt<B>(q: Queues<B>, e: Element<B>, c: nat)
    ensures
      var before, after := PeOf(q, e).dp, Iterate(e.m, PeOf(q, e)).dp;
      && |after.inputs| == |e.w.ins| && |after.outputs| == |e.w.outs|
      && (c < |e.w.ins| ==> after.inputs[c] == PopIf(before.inputs[c], Takes(q, e, c)))
      && (c < |e.w.outs| ==> after.outputs[c] == Append(before.outputs[c], Puts(q, e, c)))
  {
    hide Scheduled, Compute, ReadOperands, AssignUpdates;
  }

  lemma TrafficAt<B>(s: System<B>, k: nat, dp: Datapath, c: nat)
    requires k < |s.elements|
    requires |dp.inputs| == |s.elements[k].w.ins| && |dp.outputs| == |s.elements[k].w.outs|
    ensures
      var w, d, after := s.elements[k].w, Staged(s), Env(dp, Traffic(s, k));
      && (c < |w.ins| ==> after.inputs[c] == dp.inputs[c] + (if w.ins[c] in d.enqs then [d.enqs[w.ins[c]]] else []))
      && (c < |w.outs| ==> after.outputs[c] == PopIf(dp.outputs[c], w.outs[c] in d.deqs))
  {
    hide Staged;
    assert c < |dp.inputs| ==> dp.inputs[c] + [] == dp.inputs[c];
  }

  lemma CommitAt<B>(s: System<B>, b: B)
    requires b in s.queues
    ensures
      var d := Staged(s);
      b in Cycle(s).queues
      && Cycle(s).queues[b].queue == PopIf(s.queues[b].queue, b in d.deqs) + (if b in d.enqs then [d.enqs[b]] else [])
  {
    hide Staged;
  }

  /** The queues of an element after a cycle of the system are those of one sequential iteration and its traffic. */
  lemma InputsAfter<B>(s: System<B>, senders: set<B>, k: nat, c: nat)
    requires Wired(s, senders) && OwnPorts(s) && k < |s.elements| && Private(s, k)
    requires c < |s.elements[k].w.ins|
    ensures
      var e := s.elements[k];
      var after := Env(Iterate(e.m, PeOf(s.queues, e)).dp, Traffic(s, k));
      |after.inputs| == |e.w.ins| && Packets(Cycle(s).queues, e.w.ins)[c] == after.inputs[c]
  {
    var e := s.elements[k];
    var b := e.w.ins[c];
    assert b in s.queues by { assert ElementWired(s.queues, senders, e); }
    assert Distinct(e.w.ins) && Distinct(e.w.outs);
    OnlyTheCoreTakes(s, senders, k, b);
    hide Staged, Wired, OwnPorts, Private, CoreDelta, Iterate, Takes, Puts, Cycle, Traffic;
    CoreDeltaAt(s.queues, e, c);
    IterateAt(s.queues, e, c);
    TrafficAt(s, k, Iterate(e.m, PeOf(s.queues, e)).dp, c);
    CommitAt(s, b);
  }

  lemma OutputsAfter<B>(s: System<B>, senders: set<B>, k: nat, c: nat)
    requires Wired(s, senders) && OwnPorts(s) && k < |s.elements| && Private(s, k)
    requires c < |s.elements[k].w.outs|
    ensures
      var e := s.elements[k];
      var after := Env(Iterate(e.m, PeOf(s.queues, e)).dp, Traffic(s, k));
      |after.outputs| == |e.w.outs| && Packets(Cycle(s).queues, e.w.outs)[c] == after.outputs[c]
  {
    var e := s.elements[k];
    var b := e.w.outs[c];
    assert b in s.queues by { assert ElementWired(s.queues, senders, e); }
    assert Distinct(e.w.ins) && Distinct(e.w.outs);
    OnlyTheCoreFills(s, senders, k, b);
    StagedRespects(s, senders);
    assert b in Staged(s).deqs ==> s.queues[b].queue != [];
    hide Staged, Wired, OwnPorts, Private, CoreDelta, Iterate, Takes, Puts, Cycle, Traffic, Respects;
    CoreDeltaAt(s.queues, e, c);
    IterateAt(s.queues, e, c);
    TrafficAt(s, k, Iterate(e.m, PeOf(s.queues, e)).dp, c);
    CommitAt(s, b);
    PushThenPop(s.queues[b].queue, Puts(s.queues, e, c), b in Staged(s).deqs);
  }

  /** Draining before or after an enqueue is the same, on a queue that has a head. */
  lemma PushThenPop(q: seq<Packet>, p: Option<Packet>, pop: bool)
    requires pop ==> q != []
    ensures PopIf(Append(q, p), pop) == PopIf(q, pop) + (if p.Some? then [p.value] else [])
  {
    if p.Some? && pop { assert (q + [p.value])[1..] == q[1..] + [p.value]; }
  }

  lemma OneChannelIsLegal<B>(s: System<B>, senders: set<B>, k: nat, c: nat)
    requires Wired(s, senders) && k < |s.elements|
    ensures
      var e := s.elements[k];
      var after := Iterate(e.m, PeOf(s.queues, e)).dp;
      && |after.inputs| == |e.w.ins| && |after.outputs| == |e.w.outs|
      && (c < |e.w.ins| && e.w.ins[c] in Staged(s).enqs ==>
            e.w.ins[c] in s.queues && |after.inputs[c]| < s.queues[e.w.ins[c]].depth)
      && (c < |e.w.outs| && e.w.outs[c] in Staged(s).deqs ==> after.outputs[c] != [])
  {
    var e := s.elements[k];
    StagedRespects(s, senders);
    hide Iterate, Takes, Puts, Staged, Wired, Links;
    IterateAt(s.queues, e, c);
  }

  /** The traffic is what links may do: they fill inputs that have room and empty outputs that hold something. */
  lemma TrafficIsLegal<B>(s: System<B>, senders: set<B>, k: nat)
    requires Wired(s, senders) && k < |s.elements|
    requires forall c | 0 <= c < |s.elements[k].w.ins| ::
      s.elements[k].w.ins[c] in s.queues ==> s.queues[s.elements[k].w.ins[c]].depth == s.elements[k].m.cp.channelBufferDepth
    ensures Legal(s.elements[k].m.cp, Iterate(s.elements[k].m, PeOf(s.queues, s.elements[k])).dp, Traffic(s, k))
  {
    hide Iterate, Staged, Wired, PeOf, Scheduled, WellFormedProgram, Links, CoreNext, Env, EnvPe;
    var e := s.elements[k];
    var dp := Iterate(e.m, PeOf(s.queues, e)).dp;
    OneChannelIsLegal(s, senders, k, 0);
    forall c: nat | c < |dp.inputs| && Traffic(s, k).arrivals[c].Some? ensures |dp.inputs[c]| < e.m.cp.channelBufferDepth {
      OneChannelIsLegal(s, senders, k, c);
    }
    forall c: nat | c < |dp.outputs| && Traffic(s, k).drained[c] ensures dp.outputs[c] != [] {
      OneChannelIsLegal(s, senders, k, c);
    }
  }

  /**
   * One cycle of the system is, for each of its processing elements, one iteration of the sequential element
   * followed by link traffic: exactly a step the pipelined cores refine.
   */
  lemma ElementIsSequential<B>(s: System<B>, senders: set<B>, k: nat)
    requires Wired(s, senders) && OwnPorts(s) && k < |s.elements| && Private(s, k)
    ensures
      var e := s.elements[k];
      var pe := PeOf(s.queues, e);
      PeOf(Cycle(s).queues, Cycle(s).elements[k]) == EnvPe(Iterate(e.m, pe), Traffic(s, k))
  {
    var e := s.elements[k];
    NextElement(s, k);
    hide *;
    ChannelsAfter(s, senders, k);
    Assemble(Cycle(s).queues, e, Iterate(e.m, PeOf(s.queues, e)), Traffic(s, k));
  }

  lemma ChannelsAfter<B>(s: System<B>, senders: set<B>, k: nat)
    requires Wired(s, senders) && OwnPorts(s) && k < |s.elements| && Private(s, k)
    ensures
      var e, q' := s.elements[k], Cycle(s).queues;
      var dp := Env(Iterate(e.m, PeOf(s.queues, e)).dp, Traffic(s, k));
      Packets(q', e.w.ins) == dp.inputs && Packets(q', e.w.outs) == dp.outputs
  {
    hide *;
    var e, q' := s.elements[k], Cycle(s).queues;
    var dp := Env(Iterate(e.m, PeOf(s.queues, e)).dp, Traffic(s, k));
    IterateAt(s.queues, e, 0);
    EnvShape(Iterate(e.m, PeOf(s.queues, e)).dp, Traffic(s, k));
    var ins, outs := Packets(q', e.w.ins), Packets(q', e.w.outs);
    forall c | 0 <= c < |e.w.ins| ensures c < |dp.inputs| && ins[c] == dp.inputs[c] { InputsAfter(s, senders, k, c); }
    forall c | 0 <= c < |e.w.outs| ensures c < |dp.outputs| && outs[c] == dp.outputs[c] { OutputsAfter(s, senders, k, c); }
    assert ins == dp.inputs && outs == dp.outputs;
  }

  lemma NextElement<B>(s: System<B>, k: nat)
    requires k < |s.elements|
    ensures Cycle(s).elements[k] == s.elements[k].(core := StateOf(Iterate(s.elements[k].m, PeOf(s.queues, s.elements[k]))))
  {
    hide Iterate, Staged, Commit, NextMemories;
  }

  lemma Assemble<B>(q: Queues<B>, e: Element<B>, pe: Pe, ev: Events)
    requires Packets(q, e.w.ins) == Env(pe.dp, ev).inputs && Packets(q, e.w.outs) == Env(pe.dp, ev).outputs
    ensures PeOf(q, e.(core := StateOf(pe))) == EnvPe(pe, ev)
  {
    EnvShape(pe.dp, ev);
    hide Env, Packets;
  }

  lemma EnvShape(dp: Datapath, ev: Events)
    ensures Env(dp, ev).(inputs := [], outputs := []) == dp.(inputs := [], outputs := [])
    ensures |Env(dp, ev).inputs| == |dp.inputs| && |Env(dp, ev).outputs| == |dp.outputs|
  {
  }
}
