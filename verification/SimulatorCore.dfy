/** The core of the functional simulator: one instruction per cycle, found by an ordered search of the program. */
module SimulatorCore {
  import opened Prelude
  import opened Instructions
  import opened Sequential
  import opened Simulator
  import opened SimulatorObjects

  class Core {
    const m: Machine
    const ins: seq<Buffer>
    const outs: seq<Buffer>
    var predicates: seq<bool>
    var registers: seq<Word>
    var scratchpad: seq<Word>
    var haltRegister: bool
    var retired: seq<Instruction>

    /** The core's registers start cleared, and its channels are the buffers it is given. */
    constructor (m: Machine, ins: seq<Buffer>, outs: seq<Buffer>, scratchpadWords: nat)
      ensures this.m == m && this.ins == ins && this.outs == outs
      ensures State() == CoreState(seq(m.cp.numPredicates, _ => false), seq(m.cp.numRegisters, _ => 0),
                                   seq(scratchpadWords, _ => 0), false, [])
    {
      this.m, this.ins, this.outs := m, ins, outs;
      predicates, registers := seq(m.cp.numPredicates, _ => false), seq(m.cp.numRegisters, _ => 0);
      scratchpad, haltRegister, retired := seq(scratchpadWords, _ => 0), false, [];
    }

    function State(): CoreState
      reads this
    {
      CoreState(predicates, registers, scratchpad, haltRegister, retired)
    }

    function AsElement(w: Wiring<Buffer>): Element<Buffer>
      reads this
    {
      Element(m, State(), w)
    }

    /** The core's channels exist, have the depth its parameters say, and its program is well formed. */
    ghost predicate Ready(all: set<Buffer>)
      reads this
    {
      && WellFormedProgram(m.cp, m.program)
      && |predicates| == m.cp.numPredicates
      && |ins| == m.cp.numInputChannels && |outs| == m.cp.numOutputChannels
      && (forall c | 0 <= c < |ins| :: ins[c] in all)
      && (forall c | 0 <= c < |outs| :: outs[c] in all && outs[c].depth == m.cp.channelBufferDepth)
    }

    /** What triggers see, read directly off the buffers. */
    ghost function Seen(): (v: View)
      reads this, ins, outs
      ensures |v.predicates| == |predicates| && |v.empty| == |v.tags| == |ins| && |v.full| == |outs|
    {
      View(predicates,
           seq(|ins|, c requires 0 <= c < |ins| reads this, ins => ins[c].queue == []),
           seq(|ins|, c requires 0 <= c < |ins| reads this, ins => if ins[c].queue == [] then 0 else ins[c].queue[0].tag),
           seq(|outs|, c requires 0 <= c < |outs| reads this, outs => |outs[c].queue| == outs[c].depth))
    }

    ghost function SeenBy(all: set<Buffer>): Pe
      reads this, all
    {
      Pe(predicates, Datapath(registers, scratchpad, Packets(Committed(all), ins), Packets(Committed(all), outs), haltRegister, retired))
    }

    lemma SeenIsView(all: set<Buffer>)
      requires Ready(all) && AllValid(all)
      ensures Seen() == ViewOf(m.cp, SeenBy(all))
    {
      var v, w := Seen(), ViewOf(m.cp, SeenBy(all));
      forall c | 0 <= c < |ins| ensures v.empty[c] == w.empty[c] && v.tags[c] == w.tags[c] {
        assert ins[c] in all;
      }
      forall c | 0 <= c < |outs| ensures v.full[c] == w.full[c] {
        assert outs[c] in all && outs[c].Valid();
      }
      assert v.empty == w.empty && v.tags == w.tags && v.full == w.full;
    }

    /** A trigger is checked condition by condition; the first failure decides. */
    method CheckTrigger(t: Trigger) returns (ok: bool)
      requires |predicates| == m.cp.numPredicates && |ins| == m.cp.numInputChannels && |outs| == m.cp.numOutputChannels
      requires WellFormedTrigger(m.cp, t)
      ensures ok == Eligible(t, Seen())
    {
      ghost var v := Seen();
      for k := 0 to |t.truePredicates|
        invariant forall p | p in t.truePredicates[..k] :: p < |v.predicates| && v.predicates[p]
      {
        assert t.truePredicates[k] in t.truePredicates && t.truePredicates[..k + 1] == t.truePredicates[..k] + [t.truePredicates[k]];
        if !predicates[t.truePredicates[k]] { return false; }
      }
      for k := 0 to |t.falsePredicates|
        invariant forall p | p in t.falsePredicates[..k] :: p < |v.predicates| && !v.predicates[p]
      {
        assert t.falsePredicates[k] in t.falsePredicates && t.falsePredicates[..k + 1] == t.falsePredicates[..k] + [t.falsePredicates[k]];
        if predicates[t.falsePredicates[k]] { return false; }
      }
      for k := 0 to |t.inputChannels|
        invariant forall c | c in t.inputChannels[..k] :: c < |v.empty| && !v.empty[c]
      {
        assert t.inputChannels[k] in t.inputChannels && t.inputChannels[..k + 1] == t.inputChannels[..k] + [t.inputChannels[k]];
        if ins[t.inputChannels[k]].IsEmpty() { return false; }
      }
      for j := 0 to |t.inputChannels|
        invariant forall k | 0 <= k < j :: TagMatches(t, v, k)
      {
        var c := t.inputChannels[j];
        assert c in t.inputChannels && c in t.inputChannels[..|t.inputChannels|];
        if t.inputChannelTagBooleans[j] {
          if ins[c].queue[0].tag != t.inputChannelTags[j] { assert !TagMatches(t, v, j); return false; }
        } else {
          if ins[c].queue[0].tag == t.inputChannelTags[j] { assert !TagMatches(t, v, j); return false; }
        }
      }
      for k := 0 to |t.outputChannels|
        invariant forall c | c in t.outputChannels[..k] :: c < |v.full| && !v.full[c]
      {
        assert t.outputChannels[k] in t.outputChannels && t.outputChannels[..k + 1] == t.outputChannels[..k] + [t.outputChannels[k]];
        if outs[t.outputChannels[k]].IsFull() { return false; }
      }
      assert t.truePredicates[..|t.truePredicates|] == t.truePredicates && t.falsePredicates[..|t.falsePredicates|] == t.falsePredicates;
      assert t.inputChannels[..|t.inputChannels|] == t.inputChannels && t.outputChannels[..|t.outputChannels|] == t.outputChannels;
      return true;
    }

    /** The ordered search. */
    method FindInstruction(ghost all: set<Buffer>) returns (found: Option<Instruction>)
      requires Ready(all) && AllValid(all) && !haltRegister
      ensures found == Scheduled(m, SeenBy(all))
    {
      SeenIsView(all);
      ghost var v := ViewOf(m.cp, SeenBy(all));
      ghost var first := FirstMatch(m.program, v);
      hide Eligible, ViewOf, Seen;
      for k := 0 to |m.program|
        invariant forall j | 0 <= j < k :: !Eligible(m.program[j].trigger, v)
      {
        assert m.program[k] in m.program && WellFormed(m.cp, m.program[k]);
        var ok := CheckTrigger(m.program[k].trigger);
        if ok {
          assert first == Some(k);
          return Some(m.program[k]);
        }
      }
      return None;
    }

    method Fetch(i: Instruction, s: Source, ghost all: set<Buffer>) returns (w: Word)
      requires Ready(all) && WellFormed(m.cp, i) && SourceInRange(m.cp, i.trigger, s)
      requires Eligible(i.trigger, ViewOf(m.cp, SeenBy(all)))
      ensures w == Operand(SeenBy(all).dp, i, s)
    {
      match s
      case NullSource => w := 0;
      case ImmediateSource => w := i.immediate;
      case ChannelSource(k) =>
        assert k in i.trigger.inputChannels && k < |ins|;
        assert !ViewOf(m.cp, SeenBy(all)).empty[k];
        w := ins[k].queue[0].value;
      case RegisterSource(k) => w := if k < |registers| then registers[k] else 0;
    }

    /** Stage the result on every output channel of the instruction. */
    method EnqueueAll(chans: seq<nat>, p: Packet, ghost all: set<Buffer>)
      requires Ready(all) && AllValid(all)
      requires forall c | c in chans :: c < |outs| && !outs[c].IsFull()
      modifies all`stagedPacket, all`pending
      ensures AllValid(all) && Committed(all) == old(Committed(all))
      ensures StagedOn(all) == Merge(old(StagedOn(all)), Filling(Chosen(outs, chans), p))
    {
      ghost var start := StagedOn(all);
      FillNothing(outs, p, start);
      hide Committed, StagedOn, Merge, Filling, Chosen, AllValid;
      for k := 0 to |chans|
        invariant AllValid(all) && Committed(all) == old(Committed(all))
        invariant StagedOn(all) == Merge(start, Filling(Chosen(outs, chans[..k]), p))
      {
        assert chans[k] in chans && chans[..k + 1] == chans[..k] + [chans[k]];
        PutInto(outs[chans[k]], p, all);
        FillMore(outs, chans[..k], chans[k], p, start);
      }
      assert chans[..|chans|] == chans;
    }

    /** Stage the dequeues of the instruction. */
    method DequeueAll(chans: seq<nat>, ghost all: set<Buffer>)
      requires Ready(all) && AllValid(all)
      requires forall c | c in chans :: c < |ins| && ins[c].queue != []
      modifies all`stagedDequeue, all`pending
      ensures AllValid(all) && Committed(all) == old(Committed(all))
      ensures StagedOn(all) == Merge(old(StagedOn(all)), Emptying(Chosen(ins, chans)))
    {
      ghost var start := StagedOn(all);
      EmptyNothing(ins, start);
      hide Committed, StagedOn, Merge, Emptying, Chosen, AllValid;
      for k := 0 to |chans|
        invariant AllValid(all) && Committed(all) == old(Committed(all))
        invariant StagedOn(all) == Merge(start, Emptying(Chosen(ins, chans[..k])))
      {
        assert chans[k] in chans && chans[..k + 1] == chans[..k] + [chans[k]];
        var p := TakeFrom(ins[chans[k]], all);
        EmptyMore(ins, chans[..k], chans[k], start);
      }
      assert chans[..|chans|] == chans;
    }

    /** Assign the predicate updates one by one. */
    method ApplyUpdates(us: seq<PredicateUpdate>)
      modifies this`predicates
      ensures predicates == AssignUpdates(old(predicates), us)
    {
      ghost var goal := AssignUpdates(predicates, us);
      for k := 0 to |us|
        invariant AssignUpdates(predicates, us[k..]) == goal
      {
        assert us[k..][0] == us[k] && us[k..][1..] == us[k + 1..];
        predicates := SetPredicate(predicates, us[k].index, us[k].value);
      }
    }

    /** The result of an instruction, with its scratchpad access; it fails if the scratchpad has no such word. */
    method Compute(i: Instruction, x: Operands) returns (ok: bool, result: Word)
      modifies this`scratchpad
      ensures ok == InScratchpad(old(DatapathNow()), i.op, x)
      ensures ok ==> result == Sequential.Compute(m.alu, old(DatapathNow()), i.op, x)
      ensures ok ==> scratchpad == Store(old(DatapathNow()), i.op, x).scratchpad
    {
      hide Load;
      ok, result := true, 0;
      if i.op == LSW {
        if x.a < 0 || x.a >= |scratchpad| { return false, 0; }
        WordWithin(scratchpad, x.a);
        result := scratchpad[x.a];
      } else if i.op == SSW {
        if x.b < 0 || x.b >= |scratchpad| { return false, 0; }
        WordWithin(scratchpad, x.b);
        scratchpad := scratchpad[x.b := x.a];
      } else {
        result := m.alu(i.op, x.a, x.b, x.c);
      }
    }

    ghost function DatapathNow(): Datapath
      reads this
    {
      Datapath(registers, scratchpad, [], [], haltRegister, retired)
    }

    /** Put a result where it belongs, dequeue, and update predicates. */
    method Retire(i: Instruction, result: Word, ghost all: set<Buffer>)
      requires Ready(all) && AllValid(all)
      requires forall c | c in i.dequeues :: c < |ins| && ins[c].queue != []
      requires forall c | c in i.trigger.outputChannels :: c < |outs| && !outs[c].IsFull()
      requires !i.destination.ChannelDestination? ==> i.trigger.outputChannels == []
      modifies this`registers, this`predicates, all`stagedPacket, all`stagedDequeue, all`pending
      ensures AllValid(all) && Committed(all) == old(Committed(all))
      ensures registers == if i.destination.RegisterDestination? then Put(old(registers), i.destination.index, result) else old(registers)
      ensures predicates == AssignUpdates(
        if i.destination.PredicateDestination? then SetPredicate(old(predicates), i.destination.index, result != 0) else old(predicates), i.updates)
      ensures StagedOn(all) == Merge(old(StagedOn(all)),
        Merge(Filling(Chosen(outs, i.trigger.outputChannels), Packet(i.outputTag, result)), Emptying(Chosen(ins, i.dequeues))))
    {
      ghost var start := StagedOn(all);
      FillNothing(outs, Packet(i.outputTag, result), start);
      hide Committed, StagedOn, AllValid, Merge, Filling, Emptying, Chosen, AssignUpdates;
      match i.destination {
        case ChannelDestination => EnqueueAll(i.trigger.outputChannels, Packet(i.outputTag, result), all);
        case RegisterDestination(k) => registers := Put(registers, k, result);
        case PredicateDestination(k) => predicates := SetPredicate(predicates, k, result != 0);
        case NullDestination =>
      }
      DequeueAll(i.dequeues, all);
      ApplyUpdates(i.updates);
      MergeAssociates(start, Filling(Chosen(outs, i.trigger.outputChannels), Packet(i.outputTag, result)), Emptying(Chosen(ins, i.dequeues)));
    }

    /** Carry out one eligible instruction, in the order of the source. It fails exactly outside the scratchpad. */
    method Execute(i: Instruction, ghost all: set<Buffer>) returns (ok: bool)
      requires Ready(all) && AllValid(all) && WellFormed(m.cp, i)
      requires Eligible(i.trigger, ViewOf(m.cp, SeenBy(all)))
      modifies this, all`stagedPacket, all`stagedDequeue, all`pending
      ensures AllValid(all) && Committed(all) == old(Committed(all))
      ensures ok == InScratchpad(old(SeenBy(all)).dp, i.op, ReadOperands(old(SeenBy(all)).dp, i))
      ensures ok ==> State() == StateOf(Fire(m.alu, old(SeenBy(all)), i))
      ensures ok ==>
        var r := Sequential.Compute(m.alu, old(SeenBy(all)).dp, i.op, ReadOperands(old(SeenBy(all)).dp, i));
        StagedOn(all) == Merge(old(StagedOn(all)),
          Merge(Filling(Chosen(outs, i.trigger.outputChannels), Packet(i.outputTag, r)), Emptying(Chosen(ins, i.dequeues))))
    {
      hide Eligible, WellFormed, ViewOf, Committed, StagedOn, AllValid, Merge, Filling, Emptying, Chosen, Operand, AssignUpdates,
           Load, InScratchpad, Sequential.Compute, Store, Fire, StateOf, Put, SetPredicate, SourceInRange, Packets;
      ghost var pe := SeenBy(all);
      Executable(all, i);
      FiredState(m.alu, pe, i);
      SameAccess(m.alu, pe.dp, DatapathNow(), i.op);
      var a := Fetch(i, i.sourceA, all);
      var b := Fetch(i, i.sourceB, all);
      var c := Fetch(i, i.sourceC, all);
      var x := Operands(a, b, c);
      var result;
      ok, result := Compute(i, x);
      if !ok { return; }
      retired := retired + [i];
      if i.op == HALT { haltRegister := true; }
      Retire(i, result, all);
    }

    lemma SameAccess(alu: Alu, dp: Datapath, now: Datapath, op: nat)
      requires dp.scratchpad == now.scratchpad
      ensures forall x :: Sequential.Compute(alu, now, op, x) == Sequential.Compute(alu, dp, op, x)
      ensures forall x :: Store(now, op, x).scratchpad == Store(dp, op, x).scratchpad
      ensures forall x :: InScratchpad(now, op, x) == InScratchpad(dp, op, x)
    {
    }

    /** What eligibility and well-formedness guarantee the executing core. */
    lemma Executable(all: set<Buffer>, i: Instruction)
      requires Ready(all) && AllValid(all) && WellFormed(m.cp, i)
      requires Eligible(i.trigger, ViewOf(m.cp, SeenBy(all)))
      ensures forall c | c in i.dequeues :: c < |ins| && ins[c].queue != []
      ensures forall c | c in i.trigger.outputChannels :: c < |outs| && !outs[c].IsFull()
      ensures SourceInRange(m.cp, i.trigger, i.sourceA) && SourceInRange(m.cp, i.trigger, i.sourceB) && SourceInRange(m.cp, i.trigger, i.sourceC)
      ensures !i.destination.ChannelDestination? ==> i.trigger.outputChannels == []
    {
      SeenIsView(all);
      forall c | c in i.dequeues ensures c < |ins| && ins[c].queue != [] {
        assert c in i.trigger.inputChannels && !Seen().empty[c];
      }
      forall c | c in i.trigger.outputChannels ensures c < |outs| && !outs[c].IsFull() {
        assert !Seen().full[c];
      }
    }

    /** One cycle: the first eligible instruction, if any, and nothing once halted. */
    method Iterate(ghost all: set<Buffer>, ghost w: Wiring<Buffer>) returns (ok: bool)
      requires Ready(all) && AllValid(all) && w.ins == ins && w.outs == outs
      modifies this, all`stagedPacket, all`stagedDequeue, all`pending
      ensures AllValid(all) && Committed(all) == old(Committed(all))
      ensures ok == StaysInScratchpad(Committed(all), old(AsElement(w)))
      ensures ok ==> AsElement(w) == CoreNext(Committed(all), old(AsElement(w)))
      ensures ok ==> StagedOn(all) == Merge(old(StagedOn(all)), CoreDelta(Committed(all), old(AsElement(w))))
    {
      hide *;
      ghost var q, e, start := Committed(all), AsElement(w), StagedOn(all);
      SeenAsElement(all, w);
      MergeNothing(start, q);
      IdleCore(q, e);
      ok := true;
      if !haltRegister {
        var found := FindInstruction(all);
        if found.Some? {
          BusyCore(q, e, found.value);
          ok := Execute(found.value, all);
          SeenAsElement(all, w);
        }
      }
    }

    /** The core as an element of the model on values. */
    lemma SeenAsElement(all: set<Buffer>, w: Wiring<Buffer>)
      requires w.ins == ins && w.outs == outs
      ensures AsElement(w) == Element(m, State(), w) && AsElement(w).core.halted == haltRegister
      ensures SeenBy(all) == PeOf(Committed(all), AsElement(w))
      ensures Ready(all) ==> WellFormedProgram(m.cp, m.program)
    {
      hide Committed, Packets, WellFormedProgram;
    }
  }

  /** Within the scratchpad, keeping the low address bits keeps the address. */
  lemma WordWithin(scratchpad: seq<Word>, address: Word)
    requires 0 <= address < |scratchpad|
    ensures address % |scratchpad| == address && Load(scratchpad, address) == scratchpad[address]
  {
  }

  lemma IdleCore(q: Queues<Buffer>, e: Element<Buffer>)
    ensures Scheduled(e.m, PeOf(q, e)).None? ==> CoreDelta(q, e) == Nothing() && CoreNext(q, e) == e && StaysInScratchpad(q, e)
    ensures e.core.halted ==> Scheduled(e.m, PeOf(q, e)).None?
  {
    hide Fire, Eligible;
  }

  lemma BusyCore(q: Queues<Buffer>, e: Element<Buffer>, i: Instruction)
    requires Scheduled(e.m, PeOf(q, e)) == Some(i) && WellFormedProgram(e.m.cp, e.m.program)
    ensures WellFormed(e.m.cp, i) && Eligible(i.trigger, ViewOf(e.m.cp, PeOf(q, e)))
    ensures CoreNext(q, e) == e.(core := StateOf(Fire(e.m.alu, PeOf(q, e), i)))
    ensures StaysInScratchpad(q, e) == InScratchpad(PeOf(q, e).dp, i.op, ReadOperands(PeOf(q, e).dp, i))
    ensures
      var r := Sequential.Compute(e.m.alu, PeOf(q, e).dp, i.op, ReadOperands(PeOf(q, e).dp, i));
      CoreDelta(q, e)
        == Merge(Filling(Chosen(e.w.outs, i.trigger.outputChannels), Packet(i.outputTag, r)), Emptying(Chosen(e.w.ins, i.dequeues)))
  {
    hide Fire, Eligible, WellFormed, ViewOf, Compute, ReadOperands, PeOf, InScratchpad;
  }

  lemma FiredState(alu: Alu, pe: Pe, i: Instruction)
    ensures
      var x := ReadOperands(pe.dp, i);
      var r := Sequential.Compute(alu, pe.dp, i.op, x);
      StateOf(Fire(alu, pe, i)) == CoreState(
        AssignUpdates(if i.destination.PredicateDestination? then SetPredicate(pe.predicates, i.destination.index, r != 0)
                      else pe.predicates, i.updates),
        if i.destination.RegisterDestination? then Put(pe.dp.registers, i.destination.index, r) else pe.dp.registers,
        Store(pe.dp, i.op, x).scratchpad,
        pe.dp.halted || i.op == HALT,
        pe.dp.retired + [i])
  {
    hide ReadOperands, AssignUpdates, PushChannels, PopChannels, Load;
  }

  function Filling(bs: set<Buffer>, p: Packet): Delta<Buffer> { Delta({}, map b | b in bs :: p) }
  function Emptying(bs: set<Buffer>): Delta<Buffer> { Delta(bs, map[]) }

  lemma ChosenSnoc(bs: seq<Buffer>, cs: seq<nat>, c: nat)
    requires c < |bs|
    ensures Chosen(bs, cs + [c]) == Chosen(bs, cs) + {bs[c]}
  {
  }

  lemma FillNothing(bs: seq<Buffer>, p: Packet, start: Delta<Buffer>)
    ensures Merge(start, Filling(Chosen(bs, []), p)) == start
  {
  }

  lemma EmptyNothing(bs: seq<Buffer>, start: Delta<Buffer>)
    ensures Merge(start, Emptying(Chosen(bs, []))) == start
  {
  }

  lemma FillMore(bs: seq<Buffer>, cs: seq<nat>, c: nat, p: Packet, start: Delta<Buffer>)
    requires c < |bs|
    ensures Merge(Merge(start, Filling(Chosen(bs, cs), p)), Putting(bs[c], p)) == Merge(start, Filling(Chosen(bs, cs + [c]), p))
  {
    ChosenSnoc(bs, cs, c);
    var f, g := Filling(Chosen(bs, cs), p), Filling(Chosen(bs, cs + [c]), p);
    assert f.enqs + map[bs[c] := p] == g.enqs;
    MergeAssociates(start, f, Putting(bs[c], p));
  }

  lemma EmptyMore(bs: seq<Buffer>, cs: seq<nat>, c: nat, start: Delta<Buffer>)
    requires c < |bs|
    ensures Merge(Merge(start, Emptying(Chosen(bs, cs))), Taking(bs[c])) == Merge(start, Emptying(Chosen(bs, cs + [c])))
  {
    ChosenSnoc(bs, cs, c);
    MergeAssociates(start, Emptying(Chosen(bs, cs)), Taking(bs[c]));
  }
}
