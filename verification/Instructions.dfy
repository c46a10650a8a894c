/**
 * Triggered instructions as the assembler builds them, the architectural view a trigger is evaluated
 * against, and priority selection of the first eligible instruction.
 */
module Instructions {
  import opened Prelude

  /** A data word. Only its truth value matters to control, so its width is left to the functional units. */
  type Word = int

  datatype Packet = Packet(tag: nat, value: Word)

  datatype Source = NullSource | ImmediateSource | ChannelSource(index: nat) | RegisterSource(index: nat)

  datatype Destination =
    | NullDestination
    | ChannelDestination
    | RegisterDestination(index: nat)
    | PredicateDestination(index: nat)

  datatype PredicateUpdate = PredicateUpdate(index: nat, value: bool)

  datatype Trigger = Trigger(
    truePredicates: seq<nat>,
    falsePredicates: seq<nat>,
    inputChannels: seq<nat>,
    inputChannelTags: seq<nat>,
    inputChannelTagBooleans: seq<bool>,
    outputChannels: seq<nat>)

  datatype Instruction = Instruction(
    trigger: Trigger,
    op: nat,
    sourceA: Source,
    sourceB: Source,
    sourceC: Source,
    immediate: Word,
    destination: Destination,
    outputTag: nat,
    dequeues: seq<nat>,
    updates: seq<PredicateUpdate>)

  const HALT: nat := 39
  const LSW: nat := 40
  const SSW: nat := 41
  const NUM_OPS: nat := 63

  /** The architectural parameters of one core. */
  datatype CoreParameters = CoreParameters(
    numInstructions: nat,
    numPredicates: nat,
    numRegisters: nat,
    numInputChannels: nat,
    numOutputChannels: nat,
    channelBufferDepth: nat,
    maxNumInputChannelsToCheck: nat,
    numTags: nat,
    immediateWidth: nat,
    mmInstructionWidth: nat)

  // --- Well-formed programs ---

  predicate SourceInRange(cp: CoreParameters, t: Trigger, s: Source) {
    match s
    case ChannelSource(k) => k in t.inputChannels
    case RegisterSource(k) => k < cp.numRegisters
    case _ => true
  }

  predicate DestinationInRange(cp: CoreParameters, d: Destination) {
    match d
    case RegisterDestination(k) => k < cp.numRegisters
    case PredicateDestination(k) => k < cp.numPredicates
    case _ => true
  }

  predicate WellFormedTrigger(cp: CoreParameters, t: Trigger) {
    && (forall k | k in t.truePredicates :: k < cp.numPredicates)
    && (forall k | k in t.falsePredicates :: k < cp.numPredicates)
    && |t.inputChannels| == |t.inputChannelTags| == |t.inputChannelTagBooleans| <= cp.maxNumInputChannelsToCheck
    && (forall k | k in t.inputChannels :: k < cp.numInputChannels)
    && (forall tag | tag in t.inputChannelTags :: tag < cp.numTags)
    && (forall k | k in t.outputChannels :: k < cp.numOutputChannels)
  }

  /**
   * What the assembler and every machine in this project assume of an instruction. The source leaves
   * this check unwritten.
   */
  predicate WellFormed(cp: CoreParameters, i: Instruction) {
    && WellFormedTrigger(cp, i.trigger)
    && SourceInRange(cp, i.trigger, i.sourceA)
    && SourceInRange(cp, i.trigger, i.sourceB)
    && SourceInRange(cp, i.trigger, i.sourceC)
    && DestinationInRange(cp, i.destination)
    && (i.trigger.outputChannels != [] ==> i.destination.ChannelDestination?)
    && (forall k | k in i.dequeues :: k in i.trigger.inputChannels)
    && (forall u | u in i.updates :: u.index < cp.numPredicates)
    && (forall j, k | 0 <= j < k < |i.updates| :: i.updates[j].index != i.updates[k].index)
    && (i.destination.PredicateDestination? ==> forall u | u in i.updates :: u.index != i.destination.index)
  }

  predicate WellFormedProgram(cp: CoreParameters, program: seq<Instruction>) {
    forall i | i in program :: WellFormed(cp, i)
  }

  /** Programs whose triggers test predicates and nothing else. */
  predicate PredicatesOnly(program: seq<Instruction>) {
    forall i | i in program :: i.trigger.inputChannels == [] && i.trigger.outputChannels == []
  }

  // --- Trigger evaluation ---

  /** Everything a trigger can observe: predicates, and per channel its emptiness, head tag and fullness. */
  datatype View = View(predicates: seq<bool>, empty: seq<bool>, tags: seq<nat>, full: seq<bool>)

  predicate TagMatches(t: Trigger, v: View, j: nat)
    requires j < |t.inputChannels|
  {
    j < |t.inputChannelTags| && j < |t.inputChannelTagBooleans| ==>
      && t.inputChannels[j] < |v.tags|
      && (v.tags[t.inputChannels[j]] == t.inputChannelTags[j]) == t.inputChannelTagBooleans[j]
  }

  /** The meaning of a trigger. An index outside the view is an error in the source and is never eligible here. */
  predicate Eligible(t: Trigger, v: View) {
    && (forall k | k in t.truePredicates :: k < |v.predicates| && v.predicates[k])
    && (forall k | k in t.falsePredicates :: k < |v.predicates| && !v.predicates[k])
    && (forall c | c in t.inputChannels :: c < |v.empty| && !v.empty[c])
    && (forall j | 0 <= j < |t.inputChannels| :: TagMatches(t, v, j))
    && (forall c | c in t.outputChannels :: c < |v.full| && !v.full[c])
  }

  /** The highest-priority eligible instruction. */
  function FirstMatch(program: seq<Instruction>, v: View): (r: Option<nat>)
    ensures r.Some? ==>
      && r.value < |program|
      && Eligible(program[r.value].trigger, v)
      && forall k | 0 <= k < r.value :: !Eligible(program[k].trigger, v)
    ensures r.None? ==> forall k | 0 <= k < |program| :: !Eligible(program[k].trigger, v)
  {
    FirstMatchFrom(program, v, 0)
  }

  function FirstMatchFrom(program: seq<Instruction>, v: View, from: nat): (r: Option<nat>)
    requires from <= |program|
    ensures r.Some? ==>
      && from <= r.value < |program|
      && Eligible(program[r.value].trigger, v)
      && forall k | from <= k < r.value :: !Eligible(program[k].trigger, v)
    ensures r.None? ==> forall k | from <= k < |program| :: !Eligible(program[k].trigger, v)
    decreases |program| - from
  {
    if from == |program| then None
    else if Eligible(program[from].trigger, v) then Some(from)
    else FirstMatchFrom(program, v, from + 1)
  }

  /** A view that reports every channel at least as empty and as full, and agrees wherever a tag can be read. */
  predicate Conservative(v: View, exact: View) {
    && v.predicates == exact.predicates
    && |v.empty| == |exact.empty| == |v.tags| == |exact.tags|
    && |v.full| == |exact.full|
    && (forall c | 0 <= c < |v.empty| :: exact.empty[c] ==> v.empty[c])
    && (forall c | 0 <= c < |v.empty| :: !v.empty[c] ==> v.tags[c] == exact.tags[c])
    && (forall c | 0 <= c < |v.full| :: exact.full[c] ==> v.full[c])
  }

  /** Conservative views never enable an instruction that the exact view would not. */
  lemma ConservativeIsSound(t: Trigger, v: View, exact: View)
    requires Conservative(v, exact)
    requires Eligible(t, v)
    ensures Eligible(t, exact)
  {
    forall j | 0 <= j < |t.inputChannels| ensures TagMatches(t, exact, j) {
      assert TagMatches(t, v, j);
      assert t.inputChannels[j] in t.inputChannels;
    }
  }

  /** Two views that differ only in the tags of empty channels select the same instruction. */
  lemma ExactViewsAgree(program: seq<Instruction>, v: View, w: View)
    requires Conservative(v, w) && Conservative(w, v)
    ensures FirstMatch(program, v) == FirstMatch(program, w)
  {
    forall k | 0 <= k < |program|
      ensures Eligible(program[k].trigger, v) == Eligible(program[k].trigger, w)
    {
      if Eligible(program[k].trigger, v) { ConservativeIsSound(program[k].trigger, v, w); }
      if Eligible(program[k].trigger, w) { ConservativeIsSound(program[k].trigger, w, v); }
    }
  }

  /** Without channel conditions only the predicates are looked at. */
  lemma PredicatesSelect(program: seq<Instruction>, v: View, w: View)
    requires PredicatesOnly(program) && v.predicates == w.predicates
    ensures FirstMatch(program, v) == FirstMatch(program, w)
  {
    forall k | 0 <= k < |program|
      ensures Eligible(program[k].trigger, v) == Eligible(program[k].trigger, w)
    {
      assert program[k] in program;
    }
    hide Eligible;
  }
}
