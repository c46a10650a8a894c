/**
 * The clocked parts every core is assembled from: banks of circular channel buffers, a predicate unit of either
 * kind, the register file and the scratchpad, and the trigger stage that searches a loaded instruction memory.
 */
module CoreParts {
  import opened Prelude
  import opened Instructions
  import opened Sequential
  import opened PredicateUnits
  import opened InFlight
  import opened Refinement
  import opened ChannelBuffers
  import opened Runs
  import TDX
  import Status = ChannelStatus
  import Binary = ProgramBinary
  import Resolver = TriggerResolver
  import Decoding

  // --- Channels ---

  /** One channel buffer per channel, all of one depth. */
  class ChannelBank {
    const depth: nat
    const buffers: seq<ChannelBuffer>

    ghost const Repr: set<object>

    ghost predicate Member(b: ChannelBuffer) {
      b in Repr && b.cells in Repr && b.depth == depth
    }

    ghost predicate Separate() {
      && (forall k | 0 <= k < |buffers| :: Member(buffers[k]))
      && (forall j, k | 0 <= j < k < |buffers| :: buffers[j] != buffers[k] && buffers[j].cells != buffers[k].cells)
    }

    ghost predicate Valid()
      reads this, Repr
    {
      && this !in Repr && Separate()
      && forall k | 0 <= k < |buffers| :: buffers[k].Valid()
    }

    ghost function Queues(): (q: seq<seq<Packet>>)
      requires Valid()
      reads this, Repr
      ensures |q| == |buffers|
      ensures forall k | 0 <= k < |q| :: q[k] == buffers[k].Contents() && |q[k]| == buffers[k].count <= depth
    {
      seq(|buffers|, k requires 0 <= k < |buffers| && Member(buffers[k]) && buffers[k].Valid() reads this, Repr => buffers[k].Contents())
    }

    constructor (n: nat, depth: nat)
      requires depth > 0 && PowerOfTwo(depth)
      ensures Valid() && this.depth == depth && fresh(Repr)
      ensures Queues() == seq(n, _ => [])
    {
      var bank: seq<ChannelBuffer> := [];
      ghost var repr: set<object> := {};
      for i := 0 to n
        invariant |bank| == i && fresh(repr)
        invariant forall k | 0 <= k < i ::
          bank[k] in repr && bank[k].cells in repr && bank[k].depth == depth && bank[k].Valid() && bank[k].Contents() == []
        invariant forall j, k | 0 <= j < k < i :: bank[j] != bank[k] && bank[j].cells != bank[k].cells
      {
        var b := new ChannelBuffer(depth, Packet(0, 0));
        repr := repr + {b, b.cells};
        bank := bank + [b];
      }
      this.depth, buffers, Repr := depth, bank, repr;
    }

    method Counts() returns (counts: seq<nat>)
      requires Valid()
      ensures counts == Refinement.Counts(Queues())
    {
      counts := [];
      for i := 0 to |buffers|
        invariant |counts| == i
        invariant forall k | 0 <= k < i :: counts[k] == buffers[k].count
      {
        counts := counts + [buffers[i].count];
      }
    }

    /** The packet `k` places behind the head. */
    method Peek(channel: nat, k: nat) returns (p: Packet)
      requires Valid() && channel < |buffers| && k < buffers[channel].count
      ensures p == Queues()[channel][k]
    {
      var b := buffers[channel];
      p := b.cells[Wrap(b.head + k, depth)];
    }

    /** The tag the trigger stage sees on one channel. */
    method TagBehind(channel: nat, pending: bool) returns (tag: nat)
      requires Valid() && channel < |buffers|
      ensures
        var q, place := Queues()[channel], if pending then 1 else 0;
        tag == if place < |q| then q[place].tag else 0
    {
      var place := if pending then 1 else 0;
      tag := 0;
      if place < buffers[channel].count {
        var p := Peek(channel, place);
        tag := p.tag;
      }
    }

    /** The tag lookahead unit. */
    method LookAhead(icd: seq<nat>) returns (tags: seq<nat>)
      requires Valid()
      ensures tags == ResolvedTags(Queues(), icd)
    {
      hide *;
      ghost var queues := Queues();
      tags := [];
      for i := 0 to |buffers|
        invariant |tags| == i
        invariant forall k | 0 <= k < i :: tags[k] == ResolvedTags(queues, icd)[k]
      {
        var tag := TagBehind(i, i in icd);
        tags := tags + [tag];
      }
    }

    /** One edge of every input channel. */
    method TickInputs(icd: seq<nat>, requests: seq<Option<Packet>>)
      requires Valid()
      modifies Repr
      ensures Valid()
      ensures Queues() == NextInputs(depth, old(Queues()), icd, requests)
    {
      hide *;
      ghost var before := Queues();
      ghost var after := NextInputs(depth, before, icd, requests);
      HalfwayEnds(after, before);
      for i := 0 to |buffers|
        modifies Repr
        invariant Valid()
        invariant Queues() == Halfway(after, before, i)
      {
        ThisBuffer(i);
        label now:
        buffers[i].TickInput(i in icd, if i < |requests| then requests[i] else None);
        OthersKeep@now(i);
        HalfwayNext(after, before, i);
      }
    }

    /** One edge of every output channel. */
    method TickOutputs(oci: seq<nat>, p: Packet, acks: seq<bool>)
      requires Valid()
      modifies Repr
      ensures Valid()
      ensures Queues() == NextOutputs(depth, old(Queues()), oci, p, acks)
    {
      hide *;
      ghost var before := Queues();
      ghost var after := NextOutputs(depth, before, oci, p, acks);
      HalfwayEnds(after, before);
      for i := 0 to |buffers|
        modifies Repr
        invariant Valid()
        invariant Queues() == Halfway(after, before, i)
      {
        ThisBuffer(i);
        label now:
        buffers[i].TickOutput(i in oci, p, i < |acks| && acks[i]);
        OthersKeep@now(i);
        HalfwayNext(after, before, i);
      }
    }

    lemma ThisBuffer(i: nat)
      requires Valid() && i < |buffers|
      ensures buffers[i] in Repr && buffers[i].cells in Repr && buffers[i].depth == depth
      ensures buffers[i].Valid() && buffers[i].Contents() == Queues()[i]
    {
      hide ChannelBuffer.Valid, ChannelBuffer.Contents;
    }

    /** An edge of one buffer leaves the others alone. */
    twostate lemma OthersKeep(i: nat)
      requires i < |buffers| && old(Valid()) && buffers[i].Valid()
      requires forall o: object | o in Repr && o != buffers[i] && o != buffers[i].cells :: unchanged(o)
      ensures Valid()
      ensures Queues() == old(Queues())[i := buffers[i].Contents()]
    {
      hide ChannelBuffer.Valid, ChannelBuffer.Contents;
      forall k | 0 <= k < |buffers| && k != i
        ensures buffers[k].Valid() && buffers[k].Contents() == old(buffers[k].Contents())
      {
        Distinct(i, k);
        assert buffers[k] in Repr && buffers[k].cells in Repr by { assert Member(buffers[k]); }
      }
    }

    lemma Distinct(i: nat, k: nat)
      requires Separate() && i < |buffers| && k < |buffers| && k != i
      ensures buffers[k] != buffers[i] && buffers[k].cells != buffers[i].cells
    {
    }
  }

  // --- Predicates ---

  /** A core is built with one predicate unit or the other. */
  datatype PredicateBank = PlainBank(plain: PlainPredicateUnit) | SpeculativeBank(speculative: SpeculativePredicateUnit) {
    ghost function Repr(): set<object> {
      if PlainBank? then {plain} else {speculative}
    }

    ghost function State(): PredicateUnit
      reads Repr()
    {
      if PlainBank? then Plain(plain.predicates) else speculative.State()
    }

    function Predicates(): (p: seq<bool>)
      reads Repr()
      ensures p == State().predicates
    {
      if PlainBank? then plain.predicates else speculative.predicates
    }

    method Tick(d: Destination, value: bool, slot: Slot, prediction: bool) returns (override: bool, miss: bool)
      modifies Repr()
      ensures State() == Clock(old(State()), d, value, slot, prediction)
      ensures override == Override(old(State()), d, value, slot)
      ensures miss == Miss(old(State()), d, value)
    {
      if PlainBank? {
        plain.Tick(d, value, slot);
        override, miss := false, false;
      } else {
        override, miss := speculative.Tick(d, value, slot, prediction);
      }
    }
  }

  /** The unit a core is built with. */
  method BuildUnit(numPredicates: nat, speculative: bool) returns (bank: PredicateBank)
    ensures fresh(bank.Repr()) && bank.State() == ResetUnit(numPredicates, speculative)
  {
    if speculative {
      var unit := new SpeculativePredicateUnit(numPredicates);
      bank := SpeculativeBank(unit);
    } else {
      var unit := new PlainPredicateUnit(numPredicates);
      bank := PlainBank(unit);
    }
  }

  // --- Everything but the pipeline registers ---

  /** Storage at reset: the host has written the registers, and no packet has arrived. */
  function EmptyStorage(cp: CoreParameters, registers: seq<Word>, scratchpad: seq<Word>): Datapath {
    Datapath(registers, scratchpad, seq(cp.numInputChannels, _ => []), seq(cp.numOutputChannels, _ => []), false, [])
  }

  predicate ProgramLoaded(hw: Hardware, words: seq<nat>) {
    && Binary.EncodableProgram(hw.m.cp, hw.m.program) && |hw.m.program| <= hw.m.cp.numInstructions
    && words == Binary.Flat(Binary.Blocks(hw.m.cp, hw.m.program))
  }

  function EntryOf(hw: Hardware, words: seq<nat>, index: nat): nat {
    Binary.Entry(Binary.WordsPerInstruction(hw.m.cp), words, index)
  }

  lemma EntryCarries(hw: Hardware, words: seq<nat>, index: nat)
    requires ProgramLoaded(hw, words) && index < |hw.m.program|
    ensures Binary.Padding(hw.m.cp) >= 0 && Decoding.Carries(hw.m.cp, EntryOf(hw, words, index), hw.m.program[index])
  {
    hide Binary.Padding, Binary.Encodable, Binary.Flat, Binary.Blocks, Binary.Entry, Decoding.Carries, Binary.Encode;
    Binary.MemoryHoldsProgram(hw.m.cp, hw.m.program, index);
    Decoding.DecodeGivesInstruction(hw.m.cp, hw.m.program[index]);
  }

  /** What the encoder selects on a loaded memory is the trigger stage's instruction. */
  lemma SelectedIsTriggered(hw: Hardware, words: seq<nat>, v: View)
    requires ProgramLoaded(hw, words) && Resolver.Observes(hw.m.cp, v) && Binary.Padding(hw.m.cp) >= 0
    ensures
      match Resolver.FirstSet(Resolver.Bank(hw.m.cp, words, v), 0)
      case None => Triggered(hw, v) == Bubble
      case Some(k) => k < |hw.m.program| && Triggered(hw, v) == Busy(hw.m.program[k])
  {
    hide Resolver.Bank, Resolver.FirstSet, Resolver.Observes, Binary.Padding, Binary.Flat, Binary.Blocks, Binary.EncodableProgram,
         FirstMatch, Eligible;
    Resolver.SchedulingAgrees(hw.m.cp, hw.m.program, v);
  }

  /** The empty status updater of the selected kind. */
  method EmptyChannels(hw: Hardware, counts: seq<nat>, icd: seq<nat>) returns (empty: seq<bool>)
    ensures |empty| == |counts|
    ensures empty == if hw.status.FullInformation? then Status.EmptyStatus(counts, icd)
                     else Status.PessimisticEmpty(seq(|counts|, k requires 0 <= k < |counts| => counts[k] == 0), icd)
  {
    if hw.status.FullInformation? {
      empty := Status.OneStageEmpty(counts, icd);
    } else {
      empty := Status.PessimisticEmpty(seq(|counts|, k requires 0 <= k < |counts| => counts[k] == 0), icd);
    }
  }

  function AtDepth(depth: nat, counts: seq<nat>): seq<bool> {
    seq(|counts|, k requires 0 <= k < |counts| => counts[k] == depth)
  }

  /** The full status updater of the selected kind and number of stages. */
  method FullChannels(hw: Hardware, counts: seq<nat>, stages: seq<seq<nat>>) returns (full: seq<bool>)
    requires 2 <= |stages| <= 3
    ensures |full| == |counts|
    ensures full == if hw.status.FullInformation? then Status.FullStatus(hw.m.cp.channelBufferDepth, counts, stages)
                    else Status.PessimisticFull(AtDepth(hw.m.cp.channelBufferDepth, counts), stages)
  {
    var depth := hw.m.cp.channelBufferDepth;
    hide Status.Bumped, Status.InFlight;
    if |stages| == 2 {
      assert stages == [stages[0], stages[1]];
      if hw.status.FullInformation? {
        full := Status.TwoStageFull(depth, counts, stages[0], stages[1]);
      } else {
        full := Status.PessimisticTwoStageFull(AtDepth(depth, counts), stages[0], stages[1]);
      }
    } else {
      assert stages == [stages[0], stages[1], stages[2]];
      if hw.status.FullInformation? {
        full := Status.ThreeStageFull(depth, counts, stages[0], stages[1], stages[2]);
      } else {
        full := Status.PessimisticThreeStageFull(AtDepth(depth, counts), stages[0], stages[1], stages[2]);
      }
    }
  }

  /** The wires into the trigger resolution unit carry the stage's view. */
  lemma ViewAssembles(hw: Hardware, p: seq<bool>, dp: Datapath, icd: seq<nat>, stages: seq<seq<nat>>)
    requires forall c | 0 <= c < |dp.outputs| :: |dp.outputs[c]| <= hw.m.cp.channelBufferDepth
    ensures
      var arrived, waiting := Counts(dp.inputs), Counts(dp.outputs);
      var empty := if hw.status.FullInformation? then Status.EmptyStatus(arrived, icd)
                   else Status.PessimisticEmpty(seq(|arrived|, k requires 0 <= k < |arrived| => arrived[k] == 0), icd);
      var full := if hw.status.FullInformation? then Status.FullStatus(hw.m.cp.channelBufferDepth, waiting, stages)
                  else Status.PessimisticFull(AtDepth(hw.m.cp.channelBufferDepth, waiting), stages);
      var v := View(p, empty, ResolvedTags(dp.inputs, icd), full);
      && v == StageView(hw, p, dp, icd, stages)
      && (|p| == hw.m.cp.numPredicates ==>
          |dp.inputs| == hw.m.cp.numInputChannels ==>
          |dp.outputs| == hw.m.cp.numOutputChannels ==> Resolver.Observes(hw.m.cp, v))
  {
    var arrived, waiting := Counts(dp.inputs), Counts(dp.outputs);
    assert seq(|arrived|, k requires 0 <= k < |arrived| => arrived[k] == 0) == Empties(dp.inputs);
    assert AtDepth(hw.m.cp.channelBufferDepth, waiting) == Fulls(hw.m.cp.channelBufferDepth, dp.outputs);
    hide Status.Bumped, Status.InFlight;
  }

  /** What an edge makes of the storage outside the channel buffers. */
  function Written(dp: Datapath, retiring: Slot, r: Word, storing: Slot, x: Operands): Datapath {
    dp.(registers := if retiring.Dest().RegisterDestination? then Put(dp.registers, retiring.Dest().index, r) else dp.registers,
        scratchpad := Store(dp, storing.Op(), x).scratchpad,
        halted := dp.halted || retiring.Op() == HALT,
        retired := if retiring.Busy? then dp.retired + [retiring.i] else dp.retired)
  }

  lemma WrittenParts(dp: Datapath, retiring: Slot, r: Word, storing: Slot, x: Operands)
    ensures Written(dp, retiring, r, storing, x) == Datapath(
      if retiring.Dest().RegisterDestination? then Put(dp.registers, retiring.Dest().index, r) else dp.registers,
      Store(dp, storing.Op(), x).scratchpad, dp.inputs, dp.outputs,
      dp.halted || retiring.Op() == HALT,
      if retiring.Busy? then dp.retired + [retiring.i] else dp.retired)
  {
    hide Put, Store;
  }

  /** The write port of the register file. */
  method WriteRegister(registers: seq<Word>, d: Destination, r: Word) returns (file: seq<Word>)
    ensures file == if d.RegisterDestination? then Put(registers, d.index, r) else registers
  {
    file := registers;
    if d.RegisterDestination? && d.index < |registers| {
      file := file[d.index := r];
    }
  }

  /** The write port of the scratchpad. */
  method StoreWord(ghost dp: Datapath, scratchpad: seq<Word>, op: nat, x: Operands) returns (next: seq<Word>)
    requires scratchpad == dp.scratchpad
    ensures next == Store(dp, op, x).scratchpad
  {
    next := scratchpad;
    if op == SSW && |scratchpad| != 0 {
      next := next[x.b % |scratchpad| := x.a];
    }
  }

  /** The buffers' edge and the write-back together are the core's edge of storage. */
  lemma EdgeAssembles(hw: Hardware, dp: Datapath, retiring: Slot, r: Word, storing: Slot, x: Operands, reading: Slot, c: Cycle)
    ensures
      var depth := hw.m.cp.channelBufferDepth;
      var p := Packet(if retiring.Busy? then retiring.i.outputTag else 0, r);
      var moved := dp.(inputs := NextInputs(depth, dp.inputs, reading.Icd(), c.requests),
                       outputs := NextOutputs(depth, dp.outputs, retiring.Oci(), p, c.acks));
      NextStorage(hw, dp, retiring, r, storing, x, reading, c) == Written(moved, retiring, r, storing, x)
  {
    hide NextInputs, NextOutputs, Put;
  }

  lemma ThreeOperands(dp: Datapath, s: Slot, d: Destination, r: Word)
    ensures TDX.DecodeOperands(dp, s, d, r) ==
      match s
      case Bubble => Operands(0, 0, 0)
      case Busy(i) =>
        Operands(TDX.Forward(dp, i, i.sourceA, d, r), TDX.Forward(dp, i, i.sourceB, d, r), TDX.Forward(dp, i, i.sourceC, d, r))
  {
    hide TDX.Forward;
  }

  class Parts {
    const hw: Hardware
    const words: seq<nat>
    const inputs: ChannelBank
    const outputs: ChannelBank
    const predicates: PredicateBank
    var registers: seq<Word>
    var scratchpad: seq<Word>
    var halted: bool
    ghost var retired: seq<Instruction>

    ghost const Repr: set<object>

    /** The program is loaded, and every part has the size the parameters say. */
    ghost predicate Loaded() {
      && ProgramLoaded(hw, words)
      && inputs.depth == outputs.depth == hw.m.cp.channelBufferDepth
      && |inputs.buffers| == hw.m.cp.numInputChannels && |outputs.buffers| == hw.m.cp.numOutputChannels
    }

    ghost predicate Apart() {
      && Repr == {this, inputs, outputs} + inputs.Repr + outputs.Repr + predicates.Repr()
      && inputs != outputs
      && this !in inputs.Repr + outputs.Repr + predicates.Repr()
      && {inputs, outputs} !! inputs.Repr + outputs.Repr + predicates.Repr()
      && inputs.Repr !! outputs.Repr && inputs.Repr + outputs.Repr !! predicates.Repr()
    }

    ghost predicate Valid()
      reads this, Repr
    {
      && Apart() && Loaded()
      && inputs.Valid() && outputs.Valid()
      && Wide(predicates.State(), hw.m.cp.numPredicates)
    }

    ghost function Storage(): Datapath
      requires Valid()
      reads this, Repr
    {
      Datapath(registers, scratchpad, inputs.Queues(), outputs.Queues(), halted, retired)
    }

    ghost function Unit(): PredicateUnit
      requires Valid()
      reads this, Repr
    {
      predicates.State()
    }

    constructor (hw: Hardware, words: seq<nat>, registers: seq<Word>, scratchpad: seq<Word>, speculative: bool)
      requires hw.m.cp.channelBufferDepth > 0 && PowerOfTwo(hw.m.cp.channelBufferDepth)
      requires ProgramLoaded(hw, words)
      ensures Valid() && fresh(Repr) && this.hw == hw
      ensures Storage() == EmptyStorage(hw.m.cp, registers, scratchpad)
      ensures Unit() == ResetUnit(hw.m.cp.numPredicates, speculative)
    {
      hide ProgramLoaded, PowerOfTwo, ChannelBank.Separate, ChannelBank.Valid, ChannelBank.Queues;
      var cp := hw.m.cp;
      var ins := new ChannelBank(cp.numInputChannels, cp.channelBufferDepth);
      var outs := new ChannelBank(cp.numOutputChannels, cp.channelBufferDepth);
      var bank := BuildUnit(cp.numPredicates, speculative);
      this.hw, this.words, inputs, outputs, predicates := hw, words, ins, outs, bank;
      this.registers, this.scratchpad, halted, retired := registers, scratchpad, false, [];
      Repr := {this, ins, outs} + ins.Repr + outs.Repr + bank.Repr();
    }

    lemma Opened()
      requires Valid()
      ensures ProgramLoaded(hw, words) && inputs.Valid() && outputs.Valid()
      ensures inputs.depth == outputs.depth == hw.m.cp.channelBufferDepth
      ensures forall k | 0 <= k < |Storage().outputs| :: |Storage().outputs[k]| <= hw.m.cp.channelBufferDepth
      ensures this in Repr && inputs.Repr + outputs.Repr <= Repr && predicates.Repr() <= Repr
      ensures |inputs.Queues()| == hw.m.cp.numInputChannels && |outputs.Queues()| == hw.m.cp.numOutputChannels
      ensures |Unit().predicates| == hw.m.cp.numPredicates
      ensures Unit() == predicates.State()
      ensures Storage() == Datapath(registers, scratchpad, inputs.Queues(), outputs.Queues(), halted, retired)
      ensures Binary.Padding(hw.m.cp) >= 0
    {
      hide Binary.Padding, Binary.Encodable;
    }

    predicate IsPlain() {
      predicates.PlainBank?
    }

    lemma WhatIsRead()
      requires Valid()
      ensures Storage().scratchpad == scratchpad && Unit().Plain? == IsPlain()
    {
    }

    /** The view of the trigger stage, from the status updaters of the selected kind and the tag lookahead. */
    method Observe(icd: seq<nat>, stages: seq<seq<nat>>) returns (v: View)
      requires Valid() && 2 <= |stages| <= 3
      ensures v == StageView(hw, Unit().predicates, Storage(), icd, stages)
      ensures Resolver.Observes(hw.m.cp, v)
    {
      hide *;
      Opened();
      var arrived := inputs.Counts();
      var waiting := outputs.Counts();
      var tags := inputs.LookAhead(icd);
      var empty := EmptyChannels(hw, arrived, icd);
      var full := FullChannels(hw, waiting, stages);
      v := View(predicates.Predicates(), empty, tags, full);
      ViewAssembles(hw, Unit().predicates, Storage(), icd, stages);
    }

    /**
     * The trigger stage: a resolver per memory entry, the priority encoder, and the selected instruction with its index.
     * The entry at that index is a word that makes the datapath execute the instruction.
     */
    method Trigger(icd: seq<nat>, stages: seq<seq<nat>>) returns (t: Slot, index: nat)
      requires Valid() && 2 <= |stages| <= 3
      ensures t == Triggered(hw, StageView(hw, Unit().predicates, Storage(), icd, stages))
      ensures t.Busy? ==> Binary.Padding(hw.m.cp) >= 0 && Decoding.Carries(hw.m.cp, EntryOf(hw, words, index), t.i)
    {
      hide *;
      Opened();
      var v := Observe(icd, stages);
      var states := Resolver.ResolveAll(hw.m.cp, words, v);
      var valid;
      valid, index := Resolver.PriorityEncode(states);
      SelectedIsTriggered(hw, words, v);
      if valid {
        EntryCarries(hw, words, index);
        t := Busy(hw.m.program[index]);
      } else {
        t := Bubble;
      }
    }

    /** One operand, from the register file, a channel head, the immediate or the forwarded result. */
    method FetchSource(i: Instruction, src: Source, d: Destination, r: Word) returns (w: Word)
      requires Valid()
      ensures w == TDX.Forward(Storage(), i, src, d, r)
    {
      match src {
        case NullSource => w := 0;
        case ImmediateSource => w := i.immediate;
        case ChannelSource(k) =>
          w := 0;
          if k < |inputs.buffers| && inputs.buffers[k].count > 0 {
            var p := inputs.Peek(k, 0);
            w := p.value;
          }
        case RegisterSource(k) =>
          w := if d == RegisterDestination(k) then r else if k < |registers| then registers[k] else 0;
      }
    }

    /** The source fetching and forwarding units. */
    method Fetch(s: Slot, d: Destination, r: Word) returns (x: Operands)
      requires Valid()
      ensures x == TDX.DecodeOperands(Storage(), s, d, r)
    {
      hide *;
      ThreeOperands(Storage(), s, d, r);
      x := Operands(0, 0, 0);
      match s {
        case Bubble =>
        case Busy(i) =>
          var a := FetchSource(i, i.sourceA, d, r);
          var b := FetchSource(i, i.sourceB, d, r);
          var c := FetchSource(i, i.sourceC, d, r);
          x := Operands(a, b, c);
      }
    }

    /** The storage the datapath writes: register file, scratchpad and the halt flag. */
    method WriteBackEdge(retiring: Slot, r: Word, storing: Slot, x: Operands)
      requires Valid()
      modifies this
      ensures Valid() && Unit() == old(Unit())
      ensures Storage() == Written(old(Storage()), retiring, r, storing, x)
    {
      hide *;
      Opened();
      ghost var before := Storage();
      var file := WriteRegister(registers, retiring.Dest(), r);
      var pad := StoreWord(before, scratchpad, storing.Op(), x);
      WrittenParts(before, retiring, r, storing, x);
      label now:
      registers, scratchpad, halted := file, pad, halted || retiring.Op() == HALT;
      retired := if retiring.Busy? then retired + [retiring.i] else retired;
      PartsUntouched@now();
      Opened();
    }

    twostate lemma PartsUntouched()
      requires old(Valid())
      requires unchanged(Repr - {this})
      ensures Valid() && Unit() == old(Unit())
      ensures inputs.Queues() == old(inputs.Queues()) && outputs.Queues() == old(outputs.Queues())
    {
      hide Loaded, Wide, ChannelBank.Valid, ChannelBank.Queues;
    }

    /** The channel buffers. */
    method ChannelEdge(icd: seq<nat>, oci: seq<nat>, p: Packet, c: Cycle)
      requires Valid()
      modifies inputs.Repr + outputs.Repr
      ensures Valid() && Unit() == old(Unit())
      ensures Storage() == old(Storage()).(
        inputs := NextInputs(hw.m.cp.channelBufferDepth, old(Storage()).inputs, icd, c.requests),
        outputs := NextOutputs(hw.m.cp.channelBufferDepth, old(Storage()).outputs, oci, p, c.acks))
    {
      hide ProgramLoaded, Wide, NextInputs, NextOutputs;
      inputs.TickInputs(icd, c.requests);
      outputs.TickOutputs(oci, p, c.acks);
    }

    /** The predicate unit. */
    method PredicateEdge(d: Destination, value: bool, offered: Slot, prediction: bool) returns (override: bool, miss: bool)
      requires Valid()
      modifies predicates.Repr()
      ensures Valid() && Storage() == old(Storage())
      ensures Unit() == Clock(old(Unit()), d, value, offered, prediction)
      ensures override == Override(old(Unit()), d, value, offered)
      ensures miss == Miss(old(Unit()), d, value)
    {
      WidthIsKept(Unit(), d, value, offered, prediction, hw.m.cp.numPredicates);
      hide Loaded, Wide, Clock, Override, Miss;
      override, miss := predicates.Tick(d, value, offered, prediction);
    }

    /** One clock edge of every part. */
    method Edge(retiring: Slot, r: Word, storing: Slot, x: Operands, reading: Slot, offered: Slot, c: Cycle)
      returns (override: bool, miss: bool)
      requires Valid()
      modifies Repr
      ensures Valid()
      ensures Storage() == NextStorage(hw, old(Storage()), retiring, r, storing, x, reading, c)
      ensures Unit() == Clock(old(Unit()), retiring.Dest(), r != 0, offered, c.prediction)
      ensures override == Override(old(Unit()), retiring.Dest(), r != 0, offered)
      ensures miss == Miss(old(Unit()), retiring.Dest(), r != 0)
    {
      hide *;
      Opened();
      EdgeAssembles(hw, Storage(), retiring, r, storing, x, reading, c);
      override, miss := PredicateEdge(retiring.Dest(), r != 0, offered, c.prediction);
      ChannelEdge(reading.Icd(), retiring.Oci(), Packet(if retiring.Busy? then retiring.i.outputTag else 0, r), c);
      WriteBackEdge(retiring, r, storing, x);
    }
  }
}
