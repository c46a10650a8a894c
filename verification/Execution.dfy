/**
 * What one cycle of the simulator's core does, told from outside: in terms of registers, words and packets, and without
 * the functions that select instructions, read operands and compute effects.
 */
module Execution {
  import opened Prelude
  import opened Instructions
  import opened Sequential

  // --- Selecting ---

  /** A trigger's conditions on the element's own state. */
  predicate Holds(cp: CoreParameters, t: Trigger, pe: Pe) {
    && (forall k | k in t.truePredicates :: k < |pe.predicates| && pe.predicates[k])
    && (forall k | k in t.falsePredicates :: k < |pe.predicates| && !pe.predicates[k])
    && (forall j | 0 <= j < |t.inputChannels| :: HeadHolds(t, pe, j))
    && (forall c | c in t.outputChannels :: c < |pe.dp.outputs| && |pe.dp.outputs[c]| < cp.channelBufferDepth)
  }

  /** The channel holds a packet, and whether its tag is the one named is as the trigger wants it. */
  predicate HeadHolds(t: Trigger, pe: Pe, j: nat)
    requires j < |t.inputChannels|
  {
    && t.inputChannels[j] < |pe.dp.inputs| && pe.dp.inputs[t.inputChannels[j]] != []
    && (j < |t.inputChannelTags| && j < |t.inputChannelTagBooleans| ==>
          (pe.dp.inputs[t.inputChannels[j]][0].tag == t.inputChannelTags[j] <==> t.inputChannelTagBooleans[j]))
  }

  lemma EligibleIffHolds(cp: CoreParameters, t: Trigger, pe: Pe)
    ensures Eligible(t, ViewOf(cp, pe)) <==> Holds(cp, t, pe)
  {
    var v := ViewOf(cp, pe);
    if Eligible(t, v) {
      forall j | 0 <= j < |t.inputChannels| ensures HeadHolds(t, pe, j) {
        assert t.inputChannels[j] in t.inputChannels && TagMatches(t, v, j);
      }
    }
    if Holds(cp, t, pe) {
      forall c | c in t.inputChannels ensures c < |v.empty| && !v.empty[c] {
        var j :| 0 <= j < |t.inputChannels| && t.inputChannels[j] == c;
        assert HeadHolds(t, pe, j);
      }
      forall j | 0 <= j < |t.inputChannels| ensures TagMatches(t, v, j) { assert HeadHolds(t, pe, j); }
    }
  }

  // --- Reading ---

  /** The word a source supplies: the value of the packet at the head of a channel, a register, the immediate or zero. */
  predicate Supplies(dp: Datapath, i: Instruction, s: Source, w: Word) {
    match s
    case NullSource => w == 0
    case ImmediateSource => w == i.immediate
    case ChannelSource(c) => c < |dp.inputs| && dp.inputs[c] != [] ==> w == dp.inputs[c][0].value
    case RegisterSource(k) => k < |dp.registers| ==> w == dp.registers[k]
  }

  // --- Effects ---

  /** The result of an operation on these operands; the scratchpad keeps the low address bits. */
  predicate Yields(alu: Alu, dp: Datapath, op: nat, a: Word, b: Word, c: Word, r: Word) {
    if op == LSW then |dp.scratchpad| != 0 ==> r == dp.scratchpad[a % |dp.scratchpad|]
    else if op == SSW then r == 0
    else r == alu(op, a, b, c)
  }

  /** What becomes of every part of the element when an instruction with operands `a` and `b` has result `r`. */
  ghost predicate Leaves(pe: Pe, i: Instruction, a: Word, b: Word, r: Word, after: Pe) {
    && RegistersAfter(pe.dp, i, r, after.dp)
    && PredicatesAfter(pe, i, r, after)
    && ChannelsAfter(pe.dp, i, r, after.dp)
    && ScratchpadAfter(pe.dp, i, a, b, after.dp)
    && (after.dp.halted <==> pe.dp.halted || i.op == HALT)
    && after.dp.retired == pe.dp.retired + [i]
  }

  predicate RegistersAfter(dp: Datapath, i: Instruction, r: Word, after: Datapath) {
    && |after.registers| == |dp.registers|
    && forall k | 0 <= k < |dp.registers| ::
         after.registers[k] == if i.destination == RegisterDestination(k) then r else dp.registers[k]
  }

  /** A predicate is what an update makes it, else the truth value of a result written there, else what it was. */
  ghost predicate PredicatesAfter(pe: Pe, i: Instruction, r: Word, after: Pe) {
    && |after.predicates| == |pe.predicates|
    && (forall u | u in i.updates && u.index < |pe.predicates| :: after.predicates[u.index] == u.value)
    && forall k | 0 <= k < |pe.predicates| && forall u | u in i.updates :: u.index != k ::
         after.predicates[k] == if i.destination == PredicateDestination(k) then r != 0 else pe.predicates[k]
  }

  predicate ChannelsAfter(dp: Datapath, i: Instruction, r: Word, after: Datapath) {
    && |after.inputs| == |dp.inputs| && |after.outputs| == |dp.outputs|
    && (forall c | 0 <= c < |dp.inputs| ::
          after.inputs[c] == if c in i.dequeues && dp.inputs[c] != [] then dp.inputs[c][1..] else dp.inputs[c])
    && (forall c | 0 <= c < |dp.outputs| ::
          after.outputs[c] == if c in i.trigger.outputChannels then dp.outputs[c] + [Packet(i.outputTag, r)] else dp.outputs[c])
  }

  predicate ScratchpadAfter(dp: Datapath, i: Instruction, a: Word, b: Word, after: Datapath) {
    && |after.scratchpad| == |dp.scratchpad|
    && forall k | 0 <= k < |dp.scratchpad| ::
         after.scratchpad[k] == if i.op == SSW && k == b % |dp.scratchpad| then a else dp.scratchpad[k]
  }

  /** Executing a well-formed instruction reads what its sources supply and leaves exactly its effects. */
  lemma FireLeaves(alu: Alu, cp: CoreParameters, pe: Pe, i: Instruction) returns (a: Word, b: Word, c: Word, r: Word)
    requires WellFormed(cp, i)
    ensures Supplies(pe.dp, i, i.sourceA, a) && Supplies(pe.dp, i, i.sourceB, b) && Supplies(pe.dp, i, i.sourceC, c)
    ensures Yields(alu, pe.dp, i.op, a, b, c, r)
    ensures Leaves(pe, i, a, b, r, Fire(alu, pe, i))
    ensures InScratchpad(pe.dp, i.op, ReadOperands(pe.dp, i)) <==>
      (i.op == LSW ==> 0 <= a < |pe.dp.scratchpad|) && (i.op == SSW ==> 0 <= b < |pe.dp.scratchpad|)
  {
    var x := ReadOperands(pe.dp, i);
    a, b, c, r := x.a, x.b, x.c, Compute(alu, pe.dp, i.op, x);
    DatapathLeft(alu, pe, i, x, r);
    PredicatesLeft(alu, cp, pe, i, r);
    ComputeYields(alu, pe.dp, i.op, x);
    hide Fire, Compute, RegistersAfter, PredicatesAfter, ChannelsAfter, ScratchpadAfter, Yields, WellFormed;
  }

  lemma ComputeYields(alu: Alu, dp: Datapath, op: nat, x: Operands)
    ensures Yields(alu, dp, op, x.a, x.b, x.c, Compute(alu, dp, op, x))
  {
  }

  lemma DatapathLeft(alu: Alu, pe: Pe, i: Instruction, x: Operands, r: Word)
    requires x == ReadOperands(pe.dp, i) && r == Compute(alu, pe.dp, i.op, x)
    ensures
      var after := Fire(alu, pe, i).dp;
      && RegistersAfter(pe.dp, i, r, after) && ChannelsAfter(pe.dp, i, r, after) && ScratchpadAfter(pe.dp, i, x.a, x.b, after)
      && (after.halted <==> pe.dp.halted || i.op == HALT)
      && after.retired == pe.dp.retired + [i]
  {
    hide ReadOperands, Compute, AssignUpdates, SetPredicate;
  }

  lemma PredicatesLeft(alu: Alu, cp: CoreParameters, pe: Pe, i: Instruction, r: Word)
    requires WellFormed(cp, i) && r == Compute(alu, pe.dp, i.op, ReadOperands(pe.dp, i))
    ensures PredicatesAfter(pe, i, r, Fire(alu, pe, i))
  {
    var p := Resulting(pe.predicates, i, r);
    DistinctIsUnambiguous(i.updates);
    MaskIsAssignment(p, i.updates);
    FirePredicates(alu, pe, i);
    hide ReadOperands, Compute, WellFormed, Fire, Unambiguous, AssignUpdates, MaskUpdates, Resulting;
    ResultingMeans(pe.predicates, i, r);
    UpdatesDecide(p, i.updates);
  }

  /** The predicates with the result written where it belongs, before the updates. */
  function Resulting(p: seq<bool>, i: Instruction, r: Word): seq<bool> {
    if i.destination.PredicateDestination? then SetPredicate(p, i.destination.index, r != 0) else p
  }

  lemma ResultingMeans(p: seq<bool>, i: Instruction, r: Word)
    ensures |Resulting(p, i, r)| == |p|
    ensures forall k | 0 <= k < |p| :: Resulting(p, i, r)[k] == if i.destination == PredicateDestination(k) then r != 0 else p[k]
  {
  }

  lemma FirePredicates(alu: Alu, pe: Pe, i: Instruction)
    ensures Fire(alu, pe, i).predicates
         == AssignUpdates(Resulting(pe.predicates, i, Compute(alu, pe.dp, i.op, ReadOperands(pe.dp, i))), i.updates)
  {
    hide ReadOperands, Compute, Store, WriteBack, Dequeue, AssignUpdates, SetPredicate;
  }

  lemma UpdatesDecide(p: seq<bool>, us: seq<PredicateUpdate>)
    requires Unambiguous(us)
    ensures forall u | u in us && u.index < |p| :: MaskUpdates(p, us)[u.index] == u.value
    ensures forall k | 0 <= k < |p| && forall u | u in us :: u.index != k :: MaskUpdates(p, us)[k] == p[k]
  {
    forall u | u in us && u.index < |p| ensures MaskUpdates(p, us)[u.index] == u.value {
      assert u == PredicateUpdate(u.index, u.value);
      assert !(Sets(us, u.index) && Clears(us, u.index));
    }
  }

  /** None of the first `n` instructions of the program has a trigger that holds. */
  predicate NothingHolds(m: Machine, pe: Pe, n: nat) {
    forall j | 0 <= j < n && j < |m.program| :: !Holds(m.cp, m.program[j].trigger, pe)
  }

  /**
   * One cycle of the core: nothing if it has halted or no trigger holds; otherwise the first instruction in program
   * order whose trigger holds reads what its sources supply and leaves exactly its effects.
   */
  lemma FirstThatHoldsExecutes(m: Machine, pe: Pe) returns (k: nat, a: Word, b: Word, c: Word, r: Word)
    requires WellFormedProgram(m.cp, m.program)
    ensures pe.dp.halted || NothingHolds(m, pe, |m.program|) ==> Iterate(m, pe) == pe
    ensures !pe.dp.halted && !NothingHolds(m, pe, |m.program|) ==>
      && k < |m.program| && Holds(m.cp, m.program[k].trigger, pe)
      && NothingHolds(m, pe, k)
      && var i := m.program[k];
         && Supplies(pe.dp, i, i.sourceA, a) && Supplies(pe.dp, i, i.sourceB, b) && Supplies(pe.dp, i, i.sourceC, c)
         && Yields(m.alu, pe.dp, i.op, a, b, c, r)
         && Leaves(pe, i, a, b, r, Iterate(m, pe))
  {
    SelectsWhatHolds(m, pe);
    k, a, b, c, r := 0, 0, 0, 0, 0;
    hide FirstMatch, Fire, Holds, NothingHolds, ViewOf, Leaves, Yields, Supplies, WellFormed;
    if !pe.dp.halted {
      match FirstMatch(m.program, ViewOf(m.cp, pe)) {
        case None =>
        case Some(first) =>
          k := first;
          a, b, c, r := FireLeaves(m.alu, m.cp, pe, m.program[k]);
      }
    }
  }

  lemma SelectsWhatHolds(m: Machine, pe: Pe)
    ensures
      match FirstMatch(m.program, ViewOf(m.cp, pe))
      case None => NothingHolds(m, pe, |m.program|)
      case Some(k) => Holds(m.cp, m.program[k].trigger, pe) && NothingHolds(m, pe, k) && !NothingHolds(m, pe, |m.program|)
  {
    var v := ViewOf(m.cp, pe);
    hide Holds, Eligible, ViewOf;
    forall j | 0 <= j < |m.program| ensures Eligible(m.program[j].trigger, v) <==> Holds(m.cp, m.program[j].trigger, pe) {
      EligibleIffHolds(m.cp, m.program[j].trigger, pe);
    }
  }

  /** A load from the address a store has just written gives the stored word, which is the store's first operand. */
  lemma LoadAfterStore(alu: Alu, cp: CoreParameters, pe: Pe, store: Instruction, load: Instruction, k: nat, x: nat) returns (w: Word)
    requires WellFormed(cp, store) && WellFormed(cp, load) && |pe.dp.scratchpad| != 0
    requires store.op == SSW && load.op == LSW && load.destination == RegisterDestination(k) && k < |pe.dp.registers|
    requires x < |pe.dp.registers| && store.sourceB == load.sourceA == RegisterSource(x) && store.destination != RegisterDestination(x)
    ensures Supplies(pe.dp, store, store.sourceA, w)
    ensures Fire(alu, Fire(alu, pe, store), load).dp.registers[k] == w
  {
    var after := Fire(alu, pe, store);
    var a, b, c, r := FireLeaves(alu, cp, pe, store);
    var a', b', c', r' := FireLeaves(alu, cp, after, load);
    w := a;
    hide Fire;
    assert b % |pe.dp.scratchpad| == a' % |after.dp.scratchpad|;
  }
}
