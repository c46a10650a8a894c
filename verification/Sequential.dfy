/**
 * The single-cycle triggered processing element of the functional simulator: one instruction at a
 * time, first match wins. It is the specification every pipelined core is measured against.
 */
module Sequential {
  import opened Prelude
  import opened Instructions

  /** The functional units, shared by every machine and otherwise uninterpreted. */
  type Alu = (nat, Word, Word, Word) -> Word

  /** A program together with the hardware that runs it. */
  datatype Machine = Machine(cp: CoreParameters, program: seq<Instruction>, alu: Alu)

  /** Architectural state other than the predicates, with the instructions retired so far, oldest first. */
  datatype Datapath = Datapath(
    registers: seq<Word>,
    scratchpad: seq<Word>,
    inputs: seq<seq<Packet>>,
    outputs: seq<seq<Packet>>,
    halted: bool,
    retired: seq<Instruction>)

  datatype Pe = Pe(predicates: seq<bool>, dp: Datapath)

  datatype Operands = Operands(a: Word, b: Word, c: Word)

  // --- Reading ---

  function HeadValue(q: seq<Packet>): Word {
    if q == [] then 0 else q[0].value
  }

  function Operand(dp: Datapath, i: Instruction, s: Source): Word {
    match s
    case NullSource => 0
    case ImmediateSource => i.immediate
    case ChannelSource(k) => if k < |dp.inputs| then HeadValue(dp.inputs[k]) else 0
    case RegisterSource(k) => if k < |dp.registers| then dp.registers[k] else 0
  }

  function ReadOperands(dp: Datapath, i: Instruction): Operands {
    Operands(Operand(dp, i, i.sourceA), Operand(dp, i, i.sourceB), Operand(dp, i, i.sourceC))
  }

  /** The scratchpad word an address selects; the hardware keeps the low address bits. */
  function Load(scratchpad: seq<Word>, address: Word): Word {
    if |scratchpad| == 0 then 0 else scratchpad[address % |scratchpad|]
  }

  /** A scratchpad access, if there is one, to a word that exists. Elsewhere the simulator raises an exception. */
  predicate InScratchpad(dp: Datapath, op: nat, x: Operands) {
    (op == LSW ==> 0 <= x.a < |dp.scratchpad|) && (op == SSW ==> 0 <= x.b < |dp.scratchpad|)
  }

  function Compute(alu: Alu, dp: Datapath, op: nat, x: Operands): Word {
    if op == LSW then Load(dp.scratchpad, x.a)
    else if op == SSW then 0
    else alu(op, x.a, x.b, x.c)
  }

  // --- Writing ---

  function Put(s: seq<Word>, k: nat, w: Word): seq<Word> {
    if k < |s| then s[k := w] else s
  }

  function Store(dp: Datapath, op: nat, x: Operands): Datapath {
    if op == SSW && |dp.scratchpad| != 0 then
      dp.(scratchpad := dp.scratchpad[x.b % |dp.scratchpad| := x.a])
    else dp
  }

  function PopIf(q: seq<Packet>, b: bool): seq<Packet> {
    if b && q != [] then q[1..] else q
  }

  function PushIf(q: seq<Packet>, b: bool, p: Packet): seq<Packet> {
    if b then q + [p] else q
  }

  function PopChannels(queues: seq<seq<Packet>>, chans: seq<nat>): (r: seq<seq<Packet>>)
    ensures |r| == |queues|
    ensures forall c | 0 <= c < |queues| :: r[c] == PopIf(queues[c], c in chans)
  {
    seq(|queues|, c requires 0 <= c < |queues| => PopIf(queues[c], c in chans))
  }

  function PushChannels(queues: seq<seq<Packet>>, chans: seq<nat>, p: Packet): (r: seq<seq<Packet>>)
    ensures |r| == |queues|
    ensures forall c | 0 <= c < |queues| :: r[c] == PushIf(queues[c], c in chans, p)
  {
    seq(|queues|, c requires 0 <= c < |queues| => PushIf(queues[c], c in chans, p))
  }

  function Dequeue(dp: Datapath, chans: seq<nat>): Datapath {
    dp.(inputs := PopChannels(dp.inputs, chans))
  }

  /** Retire an instruction: write its result where it belongs, and note a halt. */
  function WriteBack(dp: Datapath, i: Instruction, r: Word): Datapath {
    dp.(registers := if i.destination.RegisterDestination? then Put(dp.registers, i.destination.index, r) else dp.registers,
        outputs := PushChannels(dp.outputs, i.trigger.outputChannels, Packet(i.outputTag, r)),
        halted := dp.halted || i.op == HALT,
        retired := dp.retired + [i])
  }

  function SetPredicate(p: seq<bool>, k: nat, b: bool): seq<bool> {
    if k < |p| then p[k := b] else p
  }

  /** The simulator's loop over an instruction's predicate updates. */
  function AssignUpdates(p: seq<bool>, us: seq<PredicateUpdate>): (r: seq<bool>)
    ensures |r| == |p|
    decreases us
  {
    if us == [] then p else AssignUpdates(SetPredicate(p, us[0].index, us[0].value), us[1..])
  }

  // --- One instruction, one cycle ---

  /** Execute one instruction completely, in the order of the simulator's core. */
  function Fire(alu: Alu, pe: Pe, i: Instruction): Pe {
    var x := ReadOperands(pe.dp, i);
    var r := Compute(alu, pe.dp, i.op, x);
    var stored := Store(pe.dp, i.op, x);
    var written := WriteBack(stored, i, r);
    var p := if i.destination.PredicateDestination? then SetPredicate(pe.predicates, i.destination.index, r != 0) else pe.predicates;
    Pe(AssignUpdates(p, i.updates), Dequeue(written, i.dequeues))
  }

  function Heads(queues: seq<seq<Packet>>): (r: seq<nat>)
    ensures |r| == |queues|
    ensures forall c | 0 <= c < |r| :: r[c] == if queues[c] == [] then 0 else queues[c][0].tag
  {
    seq(|queues|, c requires 0 <= c < |queues| => if queues[c] == [] then 0 else queues[c][0].tag)
  }

  function Empties(queues: seq<seq<Packet>>): (r: seq<bool>)
    ensures |r| == |queues|
    ensures forall c | 0 <= c < |r| :: r[c] == (queues[c] == [])
  {
    seq(|queues|, c requires 0 <= c < |queues| => queues[c] == [])
  }

  function Fulls(depth: nat, queues: seq<seq<Packet>>): (r: seq<bool>)
    ensures |r| == |queues|
    ensures forall c | 0 <= c < |r| :: r[c] == (|queues[c]| >= depth)
  {
    seq(|queues|, c requires 0 <= c < |queues| => |queues[c]| >= depth)
  }

  function ViewOf(cp: CoreParameters, pe: Pe): View {
    View(pe.predicates, Empties(pe.dp.inputs), Heads(pe.dp.inputs), Fulls(cp.channelBufferDepth, pe.dp.outputs))
  }

  /** The instruction the simulator would execute this cycle, if any. */
  function Scheduled(m: Machine, pe: Pe): (r: Option<Instruction>)
    ensures r.Some? ==> r.value in m.program && Eligible(r.value.trigger, ViewOf(m.cp, pe))
  {
    if pe.dp.halted then None
    else
      match FirstMatch(m.program, ViewOf(m.cp, pe))
      case None => None
      case Some(k) => Some(m.program[k])
  }

  /** One cycle of the simulator's core. */
  function Iterate(m: Machine, pe: Pe): Pe {
    match Scheduled(m, pe)
    case None => pe
    case Some(i) => Fire(m.alu, pe, i)
  }

  // --- The outside world ---

  /** What the links did in one cycle: packets accepted into inputs and output heads taken away. */
  datatype Events = Events(arrivals: seq<Option<Packet>>, drained: seq<bool>)

  function Arrive(q: seq<Packet>, a: Option<Packet>): seq<Packet> {
    match a
    case None => q
    case Some(p) => q + [p]
  }

  function Env(dp: Datapath, e: Events): Datapath {
    dp.(inputs := seq(|dp.inputs|, c requires 0 <= c < |dp.inputs| =>
                    if c < |e.arrivals| then Arrive(dp.inputs[c], e.arrivals[c]) else dp.inputs[c]),
        outputs := seq(|dp.outputs|, c requires 0 <= c < |dp.outputs| =>
                     PopIf(dp.outputs[c], c < |e.drained| && e.drained[c])))
  }

  function EnvPe(pe: Pe, e: Events): Pe {
    pe.(dp := Env(pe.dp, e))
  }

  /** Links only fill inputs that have room and only take from outputs that hold something. */
  predicate Legal(cp: CoreParameters, dp: Datapath, e: Events) {
    && |e.arrivals| == |dp.inputs|
    && |e.drained| == |dp.outputs|
    && (forall c | 0 <= c < |dp.inputs| :: e.arrivals[c].Some? ==> |dp.inputs[c]| < cp.channelBufferDepth)
    && (forall c | 0 <= c < |dp.outputs| :: e.drained[c] ==> dp.outputs[c] != [])
  }

  // --- Shape ---

  predicate Shaped(cp: CoreParameters, dp: Datapath) {
    && |dp.registers| == cp.numRegisters
    && |dp.inputs| == cp.numInputChannels
    && |dp.outputs| == cp.numOutputChannels
  }

  /** Bits set and cleared by an instruction's predicate update mask. */
  predicate Sets(us: seq<PredicateUpdate>, k: nat) { PredicateUpdate(k, true) in us }
  predicate Clears(us: seq<PredicateUpdate>, k: nat) { PredicateUpdate(k, false) in us }

  /** The hardware's masked update: set the set mask, then clear the unset mask. */
  function MaskUpdates(p: seq<bool>, us: seq<PredicateUpdate>): (r: seq<bool>)
    ensures |r| == |p|
    ensures forall k | 0 <= k < |p| :: r[k] == ((p[k] || Sets(us, k)) && !Clears(us, k))
  {
    seq(|p|, k requires 0 <= k < |p| => (p[k] || Sets(us, k)) && !Clears(us, k))
  }

  /** No predicate is both set and cleared. */
  ghost predicate Unambiguous(us: seq<PredicateUpdate>) {
    forall k: nat :: !(Sets(us, k) && Clears(us, k))
  }

  lemma DistinctIsUnambiguous(us: seq<PredicateUpdate>)
    requires forall j, k | 0 <= j < k < |us| :: us[j].index != us[k].index
    ensures Unambiguous(us)
  {
  }

  /**
   * The simulator's assignment loop and the hardware's mask agree whenever no predicate is both set and cleared by one
   * instruction.
   */
  lemma {:induction false} MaskIsAssignment(p: seq<bool>, us: seq<PredicateUpdate>)
    requires Unambiguous(us)
    ensures AssignUpdates(p, us) == MaskUpdates(p, us)
    decreases us
  {
    if us != [] {
      var q, rest := SetPredicate(p, us[0].index, us[0].value), us[1..];
      assert forall u :: u in us <==> u == us[0] || u in rest;
      assert forall k: nat :: !(Sets(us, k) && Clears(us, k)) ==> !(Sets(rest, k) && Clears(rest, k));
      MaskIsAssignment(q, rest);
    }
  }
}
