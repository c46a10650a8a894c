# Verified models of the triggered-instruction array

A triggered processing element has no program counter. Every cycle it evaluates the triggers of all its instructions
against its predicates and the state of its channels, and executes the first one that is eligible. This project models
the three places where that idea is implemented and proves that they agree:

1. **The pipelined cores** (`hardware/`). T|D|X, T|D|X1|X2 and the integer core T|DX1|X2 are clocked state machines with
   latches, forwarding, hazard bubbles, collision stalls and a predicate unit that may speculate. The prediction is an
   input of every cycle, so every theorem holds for every predictor; so are the packets offered and accepted by the
   links. `Refinement.dfy` states what one cycle of any in-order pipeline has to do; `TDX.dfy`, `TDX1X2.dfy` and
   `IntegerCore.dfy` prove it of each design. `Runs.dfy` draws the conclusions for whole runs, `Progress.dfy` shows that
   runs get somewhere, also while they speculate, `Stalls.dfy` that they hold an instruction back only when issuing it
   would go wrong, and `UnknownOpcodes.dfy` for which opcodes all this holds; `Opcodes.dfy` names them.
   `CoreParts.dfy` and `ClockedCores.dfy` hold the mutable machines, assembled from the circular buffers, predicate units,
   status updaters and trigger resolvers, and prove that a clock edge of the whole is the step the theorems are about.
2. **The functional simulator** (`tools/simulator/`). All units read committed queues and stage their effects, then
   everything is committed at once. `Simulator.dfy`, `Wires.dfy`, `Staging.dfy`, `SystemRuns.dfy`, `SystemHalts.dfy`,
   `SystemLoops.dfy`, `Memories.dfy` and `Mesh.dfy` say what a cycle means on values and prove properties of runs;
   `SimulatorObjects.dfy`, `SimulatorCore.dfy`, `SimulatorMemory.dfy`, `SimulatorSystem.dfy` and `SimulatorArray.dfy` hold
   the mutable classes with their loops, each method proved against those values. `Bridge.dfy` connects
   this part to the first: a simulated element in any system is the same sequential machine the hardware refines.
3. **The assembler and the trigger hardware** (`tools/assembly/`, `hardware/src/control/`). `MachineCode.dfy` and
   `ProgramBinary.dfy` pack instructions into words, `TriggerResolver.dfy` decodes packed triggers as the hardware does,
   `Decoding.dfy` reads whole instructions back out of words, `Layout.dfy` compares the words bit by bit with the packed
   struct the hardware declares, and `PredicateUpdates.dfy` covers the predicate patterns of assembly source.

`Sequential.dfy` is the common specification: `Core.iterate` of the simulator as a function on one processing element,
together with the link traffic of one cycle, and `Execution.dfy` says from outside, in registers, words and packets, what
that function does. The datapath operation is one uninterpreted function `alu(op, a, b, c)`, so everything here is about
control, storage and ordering.

## How to read the main results

- A core *stands for* the sequential element in which everything in flight has already happened: `InFlight.Resolve`
  applies the in-flight instructions oldest first and, at a mispredicted predicate write, drops the younger ones and
  restores the saved predicates, which are the other outcome (`PredicateUnits.SavedIsTheOtherOutcome`). `StepRefines` says
  that one clock cycle is one step of that element: at most one eligible instruction, plus link traffic. With exact channel
  status, or with triggers that look at predicates only, it is the first match.
- A simulator cycle is a function of committed queues (`Simulator.Cycle`); `SimulatorSystem.System.Iterate` is proved to
  compute it in place. A buffer of the model is named by any type, and the classes use the buffer objects themselves.
- Safety and progress are separate. `Runs.dfy` says that what is retired is never wrong; `Progress.dfy` says that a core
  keeps executing, that retirement lags execution by a fixed number of instructions, and hence that every instruction of
  the sequential stream is retired in the end.
- Where a property of runs holds only under a condition, the lemma gives both directions, and the failing one builds a run
  from reset: `SystemLoops.HaltsAreFinalIff` and `UnknownOpcodes.RunTheoremIffLossless`. The other names with `Iff` say
  exactly when a signal is raised, or when a single computation is right.
- Definitions that several parts share are pinned from outside, without mentioning them: the core's cycle by
  `Execution.FirstThatHoldsExecutes`, the instruction word by `Layout.AssemblerFillsStruct`, memories by
  `Memories.AnswerIsWordHeld` and `Memories.ReadAfterWrite`, links by `Wires.LinkMovesIff`, the mesh by
  `Mesh.MeshByNumbers`, and everything that delays an instruction by `Stalls.NoCoreWaitsInVain`.

## Scope of the hardware theorems

`enable` and `execute` stay high after reset. A run ends with the cycle in which a halt is issued. Programs are well
formed in the sense of `Instructions.WellFormed`, a check the assembler leaves empty
(tools/assembly/instruction.py:1349-1351): channel sources and dequeued channels are among the trigger's input channels,
indices and tags are in range, only an instruction with a channel destination names output channels, no predicate is
updated twice, and none is both written by the datapath and set by the instruction. A program of the integer core either
names implemented opcodes only or none that retires from X2. Channel buffers hold at least two packets, the depth from
which the status arithmetic is exact. A buffer alone keeps its packets iff it is not asked to dequeue while empty or
enqueue while full (`ChannelBuffers.InputKeepsPacketsIff`, `ChannelBuffers.OutputForgetsPacketsIff`), which no run of a
core does (`Runs.FlowControlIsSafe`).

## Where code and documentation differ

- hardware/src/control/integer_collision_detector.sv:26-27 and hardware/src/control/integer_issue_unit.sv:35-38 give
  different defaults to unimplemented opcodes, and agree on the others (`IntegerCore.TablesAgreeIffImplemented`). The model
  follows both, and `UnknownOpcodes.RunTheoremIffLossless` says exactly when this matters: all well-formed programs over a
  set of opcodes keep the run theorem iff every opcode of the set is implemented or none of them retires from X2.
  `UnknownOpcodes.SecondInstructionIsLost` is the failing case.
- `build_dt` (tools/assembly/machine_code.py:269-285) checks the width of the destination index, not of the destination
  type. The model follows it, and `MachineCode.DestinationTypesAssembleIff` says when that matters.
- `build_ici` and `build_ictv` check only the total width, so an entry that is too large can change its neighbour
  (`MachineCode.SpillIsAccepted`).
- The channel buffers advance pointers of `$clog2` bits without comparing them with the depth, so they are circular
  buffers for powers of two only (`ChannelBuffers.PointersStayInStorageIffPowerOfTwo`).
- `run` treats a reported halt as the end (tools/simulator/system.py:176-215). For every wiring the repository can build
  it is (`SystemHalts.HaltIsFinal`): a read port's peripheral link is the only way from one memory port to another, and
  `peripheral_destination` is only ever set to `None` (tools/simulator/interconnect.py:160) before it is read
  (tools/simulator/memory.py:125-129). Over all wirings the classes admit, a halt is final iff no write port has both its
  inputs fed by read ports (`SystemLoops.HaltsAreFinalIff`). The start state of the failing run has two read requests
  queued while the cores' programs halt at once.

## Model

| member | source | states |
|---|---|---|
| `Runs.ResetIsSound` | hardware/src/core/t_d_x_core.sv:332-341 | After reset every design, speculative or not, satisfies its invariant and stands for a sequential element with all predicates false. |
| `Runs.StepRefines` | hardware/src/core/integer_core.sv:321-350 | For any of the three designs, any prediction and any traffic, one clock cycle keeps the invariant and is one allowed step of the sequential element. |
| `Runs.RunRefines` | hardware/src/core/t_d_x_core.sv:253-462 | Any run up to the first issued halt is a run of the sequential element in which every cycle is one eligible instruction or none, and the first match when status is exact. |
| `Runs.RetiredInOrder` | hardware/src/control/integer_retirement_unit.sv:24-44 | What a core has retired is an initial part, in order and without loss or repetition, of what the sequential element executed; squashed instructions are in neither. |
| `Runs.SpeculationIsTransparent` | hardware/src/control/speculative_predicate_unit.sv:63-153 | For triggers on predicates only, a core stands at every moment exactly where the simulator is after some number of its own iterations, whatever was predicted. |
| `Runs.RetiredIsPrefix` | tools/simulator/core.py:165-251 | For such programs the retired stream is an initial part of the stream of repeated `Core.iterate`. |
| `Runs.RetiredStreamsAgree` | hardware/src/control/speculative_predicate_unit.sv:63-153 | Two cores of any designs, predictors, status logic and traffic never disagree on such a program: one retired stream extends the other. |
| `Runs.SpeculationIsContained` | hardware/src/control/speculative_predicate_unit.sv:63-71 | In every reachable state the unit speculates iff exactly one predicate write is in flight, and everything younger has no dequeue, no store and no predicate destination. |
| `Runs.FlowControlIsSafe` | hardware/src/core/t_d_x1_x2_core.sv:255-287 | Buffered plus in-flight enqueues never exceed an output channel's depth, inputs never overflow, and the instruction about to dequeue finds its channels non-empty. |
| `Runs.DequeueFindsItsHeads` | hardware/src/interconnect/input_channel_tag_lookahead_unit.sv:24-27 | The heads it finds satisfy the tag checks of its trigger, resolved one cycle earlier. |
| `Runs.IdleIsExact` | hardware/src/control/trigger_resolution_unit.sv:41-49 | With either kind of channel status, an empty pipeline issues precisely what the sequential element would execute. |
| `Runs.QuietDrains` | hardware/src/core/t_d_x_core.sv:401-418 | A core that issues nothing for as many cycles as it has stages behind the trigger is empty. |
| `Progress.StutteringIsBounded` | hardware/src/core/t_d_x_core.sv:312-341 | Stuttering cannot go on: after as many cycles without a sequential step as there are stages behind the trigger, also cycles that issue on a mispredicted path, the next choice is the sequential one. |
| `Progress.IdlingDrains` | hardware/src/control/speculative_predicate_unit.sv:68-76 | Cycles that execute nothing, whether they issue nothing or issue what will be squashed, lead to an empty pipeline within a bound that shrinks in each of them. |
| `Progress.KeepsExecuting` | hardware/src/core/t_d_x_core.sv:253-462 | Any run of n times one more than that many cycles executes at least n instructions, or reaches a moment at which the sequential element has none to execute: no predictor causes livelock. |
| `Progress.RetirementLags` | hardware/src/control/integer_retirement_unit.sv:24-44 | What has been executed and not yet retired is never more than the pipeline holds, and nothing once it is empty. |
| `Progress.EverythingRetires` | tools/simulator/core.py:165-251 | For triggers on predicates only, the retired stream is the simulator's: after enough cycles it contains everything n iterations execute, for every n, and it is always an initial part of what more iterations execute. |
| `Progress.HaltIsIssued` | tools/simulator/system.py:176-215 | If the simulator halts within n iterations of such a program, the core issues that halt within a bounded number of cycles, whatever was predicted, and has by then executed exactly what the simulator executed. |
| `Stalls.NoCoreWaitsInVain` | hardware/src/core/t_d_x_core.sv:312-341 | In every run from reset each core issues what its trigger stage chooses, unless a predicate it looked at may still change, the path is mispredicted, squashing could not undo it, it reads what the instruction before it writes (four stages), or both would retire in one cycle (integer). |
| `Stalls.OverrideIffUnsquashable` | hardware/src/control/speculative_predicate_unit.sv:68-71 | Without a miss the speculative unit overrides an instruction iff it stores while a predicate write is in flight, or would have to be squashed behind one that stays in flight and is not harmless. |
| `Stalls.HitOpensNextSection` | hardware/src/control/speculative_predicate_unit.sv:61-66 | In the cycle of a hit a predicate write is let in and opens a section with its own prediction and its own saved outcome; a dequeue is let in and its updates take effect. |
| `Stalls.StaleIffWriteInFlight` | hardware/src/core/t_d_x_core.sv:312-323 | The predicates the trigger stage sees can differ from what they will be, for some results, iff a predicate write is in flight: the plain unit's bubble is needed in every such cycle and in no other. |
| `Stalls.RawHazardIffDependsOn` | hardware/src/control/data_hazard_detector.sv:35-46 | The detector fires iff for some storage and some result the second instruction reads something else after the first has written back: its bubble is needed as well as sufficient. |
| `Stalls.CollisionIffSameCycle` | hardware/src/control/integer_collision_detector.sv:17-29 | The collision stall keeps out an implemented operation iff it would retire in the same cycle as the one before it. |
| `TDX.StepRefines` | hardware/src/core/t_d_x_core.sv:253-462 | One cycle of the three-stage core, with flush, hazard bubble, override and forwarding, is one allowed sequential step and keeps the invariant. |
| `TDX.ForwardingIsReading` | hardware/src/core/t_d_x_core.sv:375-387 | Forwarding hands decode exactly the operands it would read after execute has written back. |
| `TDX.SquashLeavesNoTrace` | hardware/src/core/t_d_x_core.sv:336-341 | On a miss only the mispredicted instruction touches registers, scratchpad and channels; both latches are empty and the saved predicates are back. |
| `TDX.DecodeFindsItsHeads` | hardware/src/core/t_d_x_core.sv:283-287 | Whatever enters decode finds the channel heads its trigger was resolved on. |
| `TDX1X2.StepRefines` | hardware/src/core/t_d_x1_x2_core.sv:255-460 | One cycle of the four-stage core is one allowed sequential step and keeps the invariant. |
| `TDX1X2.HazardBubbleSuffices` | hardware/src/control/data_hazard_detector.sv:35-46 | The one-cycle bubble keeps an instruction from entering decode right behind one whose result it reads; that it is also needed is `Stalls.RawHazardIffDependsOn`. |
| `TDX1X2.DecodeReads` | hardware/src/core/t_d_x1_x2_core.sv:388-399 | With that bubble, forwarding from X2 alone gives decode the operands of sequential execution. |
| `TDX1X2.SquashLeavesNoTrace` | hardware/src/core/t_d_x1_x2_core.sv:348-353 | On a miss only the mispredicted instruction touches storage, and three latches are emptied. |
| `TDX1X2.DecodeFindsItsHeads` | hardware/src/core/t_d_x1_x2_core.sv:284-288 | Decode finds the channel heads its trigger was resolved on. |
| `IntegerCore.StepRefines` | hardware/src/core/integer_core.sv:259-478 | One cycle of the integer core, retiring from either stage, is one allowed sequential step and keeps the invariant, for every program that names no unimplemented opcode or no two-cycle one. |
| `IntegerCore.EveryInstructionMovesOn` | hardware/src/control/integer_retirement_unit.sv:24-44 | X2 always retires; DX1 retires, moves to X2 or is flushed by an older miss; at most one instruction retires per cycle and each exactly once. |
| `IntegerCore.OrderIsKept` | hardware/src/core/integer_core.sv:329-333 | The collision stall preserves that X2 holds only two-cycle operations and no one-cycle operation sits in DX1 behind one. |
| `IntegerCore.LateOperandsAreRead` | hardware/src/core/integer_core.sv:393-406 | Forwarding limited to back-to-back two-cycle operations gives DX1 the operands of sequential execution. |
| `IntegerCore.SquashLeavesNoTrace` | hardware/src/core/integer_core.sv:345-350 | On a miss only the retiring instruction touches storage; nothing older is flushed. |
| `IntegerCore.DecodeFindsItsHeads` | hardware/src/core/integer_core.sv:290-306 | DX1 finds the channel heads its trigger was resolved on. |
| `IntegerCore.UnknownOpcodeIsLost` | hardware/src/control/integer_collision_detector.sv:17-29 | Any other opcode issued right behind a two-cycle operation neither retires nor moves on. |
| `UnknownOpcodes.SecondInstructionIsLost` | hardware/src/control/integer_collision_detector.sv:17-29 | From reset, for every such opcode behind every two-cycle opcode, with either predicate unit and any inputs: the second instruction is never retired, however long the core runs, although the sequential element executes both. |
| `UnknownOpcodes.RunTheoremIffLossless` | hardware/src/control/integer_issue_unit.sv:16-40 | The integer core runs every well-formed program over a set of opcodes as the sequential element does, and retires everything the predicate-only ones execute, iff all opcodes of the set are implemented or none retires from X2. |
| `Opcodes.TablesByName` | hardware/src/control/integer_issue_unit.sv:16-40 | For every opcode, stage, unit and collision are those the case lists of issue unit and collision detector give to its name, defaults included. |
| `Opcodes.NumbersByName` | hardware/src/fixed_parameters.svh:22-70 | The opcodes control looks at are the hardware's halt, load and store scratchpad word, out of its number of opcodes. |
| `ClockedCores.ThreeStageCore.Tick` | hardware/src/core/t_d_x_core.sv:253-462 | Status loops, trigger resolvers on the loaded instruction words, priority encoder, predicate unit, circular buffers, storage and latches, clocked in place, together make exactly the step that refines the sequential element. |
| `ClockedCores.FourStageCore.Tick` | hardware/src/core/t_d_x1_x2_core.sv:255-491 | The same for the four-stage core with its hazard detector. |
| `ClockedCores.IntegerCore.Tick` | hardware/src/core/integer_core.sv:259-504 | The same for the integer core with its issue, collision, forwarding and retirement units. |
| `ClockedCores.ThreeStageCore.constructor` | hardware/src/core/t_d_x_core.sv:332-341 | The assembled machine starts in the reset state from which the run theorems start. |
| `CoreParts.Parts.Trigger` | hardware/src/control/trigger_resolution_unit.sv:28-49 | Resolvers and encoder over the assembled words, fed by the status updaters and the tag lookahead, pick the first instruction eligible in the stage view, and the word at the selected index decodes to that instruction. |
| `CoreParts.Parts.Edge` | hardware/src/core/t_d_x_core.sv:335-462 | Predicate unit, both banks of circular buffers, register file and scratchpad, each clocked on its own, change together as the core's storage and predicate unit do in one step. |
| `CoreParts.ChannelBank.LookAhead` | hardware/src/interconnect/input_channel_tag_lookahead_unit.sv:24-27 | On every channel the tag of the packet that will be at the head once the pending dequeue is done. |
| `Refinement.CoreCycle` | hardware/src/core/t_d_x_core.sv:312-341 | Any in-order pipeline whose stages advance without changing what they stand for refines the sequential element, for plain and speculative units alike; a mispredicted path ends with its miss and not before, and none begins without an issue. |
| `Refinement.StageViewIsConservative` | hardware/src/control/full_information_two_stage_output_channel_full_status_updater.sv:18-50 | What the trigger stage sees never makes a trigger eligible that is not eligible for the element it stands for, and agrees with it when status is exact. |
| `Refinement.TriggeredIsScheduled` | hardware/src/control/trigger_resolution_unit.sv:28-49 | Hence the first match of the trigger stage is eligible there, and is the first match there when status is exact. |
| `Refinement.StorageIsEdge` | hardware/src/core/t_d_x_core.sv:440-462 | Clocking registers, scratchpad and both kinds of channel buffers together is retire, store and dequeue followed by the link traffic. |
| `InFlight.IssueIsFire` | hardware/src/core/t_d_x_core.sv:301-341 | Latching an instruction behind those in flight is executing it on the element they stand for, also when its own predicate write is predicted. |
| `InFlight.RetireKeepsMeaning` | hardware/src/control/speculative_predicate_unit.sv:91-152 | Retiring the oldest instruction, with a hit or a miss, changes nothing about the element the pipeline stands for. |
| `InFlight.EnvCommutes` | hardware/src/core/t_d_x_core.sv:450-462 | Link traffic before or after the in-flight instructions complete gives the same element. |
| `PredicateUnits.ClockDecomposes` | hardware/src/control/speculative_predicate_unit.sv:63-153 | One edge is first the older write being resolved, then the new instruction being admitted, although the two interact through hit, miss and override. |
| `PredicateUnits.SpeculatingIffOneWrite` | hardware/src/control/speculative_predicate_unit.sv:61-66 | A consistent unit speculates iff exactly one of the instructions in flight writes a predicate. |
| `PredicateUnits.ClockKeepsConsistency` | hardware/src/control/speculative_predicate_unit.sv:63-153 | Every edge keeps the unit consistent with the pipeline, including one speculative section eliding into the next. |
| `PredicateUnits.MissFlushesYounger` | hardware/src/control/speculative_predicate_unit.sv:68-76 | At a miss no other write is in flight and every younger instruction is harmless. |
| `PredicateUnits.SpeculativePredicateUnit.Tick` | hardware/src/control/speculative_predicate_unit.sv:123-153 | The four registers, override and miss are those of the clock function. |
| `PredicateUnits.PlainPredicateUnit.Tick` | hardware/src/control/predicate_unit.sv:27-68 | The predicate register takes the masked value of instruction and datapath. |
| `PredicateUnits.DatapathMasks` | hardware/src/control/predicate_unit.sv:29-49 | The mask loop sets exactly the written predicate's bit, in the half its value selects. |
| `Sequential.MaskIsAssignment` | hardware/src/control/predicate_unit.sv:51-58 | Masking with true and false update masks is performing the simulator's list of assignments, for every list in which no predicate is both set and cleared. |
| `ChannelStatus.ThreeStageExactIffDeepEnough` | hardware/src/control/full_information_three_stage_output_channel_full_status_updater.sv:20-57 | The truncated sums give the true full status for every count and every three stages iff the depth is at least two. |
| `ChannelStatus.FullStatusIsExact` | hardware/src/derived_parameters.svh:135-135 | With up to three stages and depth at least two the bounded arithmetic equals the true sum compared with the depth. |
| `ChannelStatus.PessimisticCovers` | hardware/src/control/pessimistic_three_stage_output_channel_full_status_updater.sv:29-54 | Every channel the exact status marks full is marked full by the pessimistic one. |
| `ChannelStatus.PessimismIsLeast` | hardware/src/control/pessimistic_three_stage_output_channel_full_status_updater.sv:29-54 | It marks a channel only if some count that fits the full or empty signal would leave no room or no packet: it blocks no more than it must. |
| `ChannelStatus.ThreeStageFull` | hardware/src/control/full_information_three_stage_output_channel_full_status_updater.sv:27-57 | The successive loops compute the full status of three stages in their truncated width. |
| `ChannelStatus.TwoStageFull` | hardware/src/control/full_information_two_stage_output_channel_full_status_updater.sv:18-50 | The same for two stages. |
| `ChannelStatus.PessimisticThreeStageFull` | hardware/src/control/pessimistic_three_stage_output_channel_full_status_updater.sv:29-54 | The three mask loops and the final disjunction mark a channel full iff it is full or a stage names it. |
| `ChannelStatus.PessimisticTwoStageFull` | hardware/src/control/pessimistic_two_stage_output_channel_full_status_updater.sv:20-45 | The same for two stages. |
| `ChannelStatus.OneStageEmpty` | hardware/src/control/full_information_one_stage_input_channel_empty_status_updater.sv:27-48 | The saturating decrement and zero test mark a channel empty iff its count is at most the pending dequeue. |
| `ChannelBuffers.ChannelBuffer.TickInput` | hardware/src/interconnect/input_channel_buffer.sv:44-70 | The circular input buffer behaves as the queue function, in every combination of dequeue, request and count. |
| `ChannelBuffers.ChannelBuffer.TickOutput` | hardware/src/interconnect/output_channel_buffer.sv:42-67 | The circular output buffer behaves as the queue function, in every combination of enqueue, acknowledge and count. |
| `ChannelBuffers.OutputForgetsPacketsIff` | hardware/src/interconnect/output_channel_buffer.sv:49-65 | A packet the link takes leaves the buffer iff the buffer is not asked to enqueue while full. |
| `ChannelBuffers.PointersStayInStorageIffPowerOfTwo` | hardware/src/interconnect/input_channel_buffer.sv:22-24 | The pointers stay within the storage for every position iff the depth is a power of two. |
| `Instructions.ConservativeIsSound` | tools/simulator/core.py:83-105 | A view that never shows a free channel as free when it is not makes no further trigger eligible. |
| `TriggerResolver.Resolve` | hardware/src/control/trigger_resolver.sv:44-97 | The assigns and the two channel loops compute the conjunction of the five conditions on the packed fields. |
| `TriggerResolver.EncodedTriggerMeansTrigger` | tools/simulator/core.py:83-105 | For every well-formed trigger and every view, the hardware's verdict on the packed fields is `check_trigger`'s on the lists, null slots included. |
| `TriggerResolver.SlotsMean` | tools/assembly/machine_code.py:81-176 | The packed channel, tag and polarity fields stay aligned slot by slot, with the null slots first. |
| `TriggerResolver.TriggerOfEncoded` | hardware/src/instruction/instruction_memory.sv:32-41 | The trigger exposed from an assembled word is the packed trigger of the instruction. |
| `TriggerResolver.BlankNeverResolves` | tools/assembly/machine_code.py:551-561 | A zero entry of instruction memory is never eligible. |
| `TriggerResolver.PriorityEncode` | hardware/src/control/trigger_resolution_priority_encoder.sv:19-40 | The loop reports the first set state, or invalid with index zero. |
| `TriggerResolver.SchedulingAgrees` | hardware/src/control/trigger_resolution_unit.sv:28-44 | For every program that fits, resolver bank and encoder over the assembled, zero-padded memory select an index iff the simulator's ordered search selects the same instruction. |
| `Decoding.DecodeGivesInstruction` | hardware/src/instruction/instruction_memory.sv:56-79 | Decoding the assembled word of any encodable instruction gives the instruction back: trigger, operation, sources, destination, tags, dequeues, updates and the immediate as the assembler put it into its field, up to the order of lists whose order has no effect. |
| `Layout.AssemblerFillsStruct` | hardware/src/instruction/instruction.svh:42-59 | Every bit, mask, slot and entry of an assembled instruction lies at the position the packed struct gives it, with the hardware's type codes: valid bit, predicate masks, channel slots with tags and polarities, operation, sources, destination, outputs, tag, dequeues, updates and immediate. |
| `Layout.ExtractReadsMember` | hardware/src/instruction/instruction.svh:42-59 | Reading any of the fifteen fields of any word reads exactly the bits of the struct member of that name. |
| `Layout.CodeWidthsAreLeast` | hardware/src/derived_parameters.svh:22-45 | Each field of codes is as wide as needed for its number of codes and no wider. |
| `Layout.DefaultStruct` | tools/parameters.yaml:10-29 | For the parameters that come with the repository, the position and width of all fifteen members. |
| `Decoding.ImmediateIsTwosComplement` | tools/assembly/machine_code.py:452-479 | The immediate field holds the value itself, or for a negative value the value plus the field's range. |
| `Decoding.SameInstructionSameEffect` | tools/simulator/core.py:172-251 | Such instructions are eligible in the same views and have the same effect on every element. |
| `MachineCode.BuildPtm` | tools/assembly/machine_code.py:10-78 | Succeeds iff all predicates exist, and then has exactly their bits in the two halves. |
| `MachineCode.BuildPum` | tools/assembly/machine_code.py:380-449 | Succeeds iff all updated predicates exist, and then has exactly the updates' bits in the two halves. |
| `MachineCode.BuildIci` | tools/assembly/machine_code.py:81-110 | Rejects too many channels; otherwise the accumulated word if it fits the field, and the padded packing when each entry fits its slot. |
| `MachineCode.BuildIctb` | tools/assembly/machine_code.py:113-143 | For any two lists, the polarity bits at the positions the channels get, with the exception of the code when it runs out of range; for lists of one length the padded packing. |
| `MachineCode.BuildIctv` | tools/assembly/machine_code.py:146-176 | Rejects too many tags; otherwise the accumulated word if it fits the field, and the padded packing when each tag fits its slot. |
| `MachineCode.ReadBackIffEntriesFit` | tools/assembly/machine_code.py:81-176 | Every entry is recovered from its slot iff every entry fits its slot. |
| `MachineCode.SpillIsAccepted` | tools/assembly/machine_code.py:100-110 | Two different entry lists, one too large for its slot, pass the width check and give the same field. |
| `MachineCode.BuildChannelSet` | tools/assembly/machine_code.py:310-377 | The per-channel loops of oci and icd set exactly the listed channels' bits, and never fail. |
| `MachineCode.BuildTriple` | tools/assembly/machine_code.py:198-266 | The word the three entries accumulate to if it fits the field, and else an error; the packing with the first lowest when each entry fits. |
| `MachineCode.BuildRegisterWords` | tools/assembly/machine_code.py:535-545 | Every register value is reduced to 32 bits and then to the word width, in order. |
| `MachineCode.BuildDt` | tools/assembly/machine_code.py:269-285 | The destination type is accepted iff it fits the width of the destination index. |
| `MachineCode.DestinationTypesAssembleIff` | tools/parameters/core_parameters.py:218-224 | All destination types assemble iff there are at least three registers, output channels or predicates. |
| `MachineCode.BuildImmediate` | tools/assembly/machine_code.py:452-479 | The immediate is its value modulo the field's range, accepted iff its magnitude fits. |
| `ProgramBinary.BuildInstruction` | tools/assembly/machine_code.py:482-524 | Assembles iff every field method accepts and the format has room, and then to the fields above the padding; an encodable instruction to the concatenation of its field values. |
| `ProgramBinary.EncodableAssembles` | tools/assembly/machine_code.py:482-524 | Every encodable instruction passes all fifteen checks and assembles to its encoding. |
| `ProgramBinary.EncodeRoundTrip` | tools/parameters/core_parameters.py:166-274 | For all parameters, extracting any of the fifteen fields from the assembled integer recovers it. |
| `ProgramBinary.EncodeInjective` | tools/assembly/machine_code.py:482-524 | The assembled integer fits the memory-mapped width, and equal integers have equal fields. |
| `ProgramBinary.SourcesRoundTrip` | tools/assembly/machine_code.py:198-266 | Each source's type and index are recovered from the assembled integer. |
| `ProgramBinary.DequeuesRoundTrip` | tools/assembly/machine_code.py:356-377 | A bit of the dequeue field is set iff the instruction dequeues that channel. |
| `ProgramBinary.UpdatesRoundTrip` | tools/assembly/machine_code.py:380-449 | A bit of the update field is set iff the instruction makes that update. |
| `ProgramBinary.FieldRoundTrip` | tools/assembly/machine_code.py:491-521 | Appending fields by shift and disjunction can be undone field by field, for any list of widths. |
| `ProgramBinary.WordsRecombine` | tools/assembly/machine_code.py:537-549 | The 32-bit slices of an assembled integer give the integer back. |
| `ProgramBinary.BuildProgramBinary` | tools/assembly/machine_code.py:527-564 | Succeeds iff the width is aligned and every instruction assembles; the binary is the register words and then every instruction's words in order followed by zero entries up to the number of instructions. |
| `ProgramBinary.MemoryHoldsProgram` | tools/assembly/machine_code.py:551-561 | Every entry read back from that binary is the instruction assembled there, or zero. |
| `PredicateUpdates.ParsePattern` | tools/assembly/instruction.py:846-877 | Parsing succeeds iff every character is legal, and collects exactly the positions of ones and zeros, counted from the right. |
| `PredicateUpdates.PrintThenParse` | tools/assembly/instruction.py:846-877 | Printing disjoint ascending lists as a pattern and parsing it gives the lists back. |
| `PredicateUpdates.ParseThenPrint` | tools/assembly/instruction.py:846-877 | Parsing and printing a legal pattern changes nothing but the spelling of don't-cares. |
| `PredicateUpdates.DetermineUpdates` | tools/assembly/instruction.py:1308-1345 | Exactly the desired bits that the trigger pattern does not already imply are kept, in index order. |
| `PredicateUpdates.ElisionPreservesMeaningIff` | tools/simulator/core.py:236-251 | When the pattern matches, applying only the kept updates after the datapath write equals assigning the whole desired pattern iff the write does not overwrite an elided bit. |
| `PredicateUpdates.ParseTriggerPattern` | tools/assembly/instruction.py:430-457 | Parsing succeeds iff every character is one, zero or a don't-care in the spelling triggers allow, and collects exactly the positions of ones and zeros. |
| `PredicateUpdates.TriggerPatternsHaveNoZ` | tools/assembly/instruction.py:430-457 | The two parsers differ on exactly the patterns with a Z of either case. |
| `PredicateUpdates.PatternIsTrigger` | tools/assembly/instruction.py:846-877 | Matching a pattern is satisfying the parsed predicate lists of a trigger. |
| `Wires.StagedRespects` | tools/simulator/interconnect.py:55-93 | In a well-wired system every staged dequeue finds a packet, every staged enqueue finds room, and sending and receiving buffers exchange packets along links only. |
| `Wires.LinkEvent` | tools/simulator/router.py:205-231 | Although both endpoint routers drive a link, each cycle either moves exactly the head packet along it or touches neither side of it. |
| `Wires.LinkMovesIff` | tools/simulator/router.py:205-231 | A link moves its head in a cycle iff there is one and the other end has room. |
| `Wires.WiredForever` | tools/simulator/system.py:58-76 | A cycle keeps a system well wired and its links the same. |
| `Wires.LinkIsLosslessFifo` | tools/simulator/router.py:143-146 | Over any number of cycles what was underway and what the sender enqueued is what the receiver dequeued followed by what is underway, in order. |
| `Wires.NoException` | tools/simulator/interconnect.py:63-117 | In every cycle of every run no queue exceeds its depth, no empty buffer is dequeued and no full one is enqueued, so nothing is ever evicted. |
| `SystemRuns.OrderIsIrrelevant` | tools/simulator/system.py:58-61 | For every permutation of the processing elements one cycle reaches the same queues and memories and the same elements, permuted alike. |
| `SystemRuns.OrderIsIrrelevantForever` | tools/simulator/system.py:168-168 | So the order of the elements never matters over any number of cycles, also when memory ports share buffers. |
| `SystemRuns.AnyOrderIsIrrelevant` | tools/simulator/system.py:58-70 | For every permutation of the elements and every permutation of the memories one cycle reaches the same queues and the same units, permuted alike, and reports the same halt. |
| `SystemRuns.AnyOrderIsIrrelevantForever` | tools/simulator/system.py:168-168 | So the order that sorting by name gives to elements and memories never matters, over any number of cycles. |
| `SystemHalts.HaltIsStable` | tools/simulator/system.py:58-81 | After a reported halt memory contents and all core state stay unchanged for any number of cycles, unless some write port has both its inputs fed by read ports. |
| `SystemHalts.HaltIsFinal` | tools/simulator/interconnect.py:158-163 | In particular whenever no read port has a peripheral destination, the only value the repository gives it, whatever else is connected. |
| `SystemHalts.DrainedIsFinal` | tools/simulator/system.py:58-81 | After a reported halt with no answer pending nothing changes any more, however the system is wired. |
| `SystemLoops.HaltsAreFinalIff` | tools/simulator/memory.py:124-155 | Over all runs from reset on a given wiring in which nothing raises an exception, memory contents never change after a reported halt iff no write port has both its inputs fed by read ports. |
| `SystemLoops.LoopOverwrites` | tools/simulator/memory.py:124-155 | Every other wiring has a run from reset, with read requests queued and programs that halt, that reports a halt after one cycle and overwrites a word three cycles later. |
| `SystemRuns.RequestsAreAnsweredInOrder` | tools/simulator/memory.py:124-155 | Over any run the packets put into a read port's data-out buffer and the answer still pending match the packets taken from its address buffer, in order and tag for tag, each with the word held when it was taken, before that cycle's writes. |
| `Memories.AnswerIsWordHeld` | tools/simulator/memory.py:136-144 | The answer to the i-th request taken carries its tag and the word the memory held at its address in the very cycle in which it was taken, for any run and any address that exists. |
| `Memories.ReadAfterWrite` | tools/simulator/memory.py:136-155 | A request served after a port has written to its address, and before anyone writes there again, is answered with the datum written. |
| `Memories.ReadPortActsIff` | tools/simulator/memory.py:124-144 | An answer is put out iff one is pending and there is room; a request is taken iff there is one and no answer stays pending. |
| `Memories.WritePortActsIff` | tools/simulator/memory.py:146-155 | A write port takes an address and a datum iff both have arrived. |
| `Staging.PortEvents` | tools/simulator/memory.py:124-155 | What is taken from or put into a port's own buffers in a cycle is exactly what that port takes or puts, whatever the other units stage. |
| `Staging.ReceiverTaken` | tools/simulator/interconnect.py:69-93 | A receiving buffer is dequeued in a cycle iff the core or a memory port it belongs to takes from it. |
| `Staging.SenderFilled` | tools/simulator/interconnect.py:55-67 | A sending buffer is filled in a cycle iff the core or a read port it belongs to puts into it, and then with that unit's packet. |
| `Bridge.ElementIsSequential` | tools/simulator/core.py:165-251 | In a well-wired system whose elements and memory ports have buffers of their own, an element takes exactly one `Core.iterate` step per cycle and sees the rest of the system only as link traffic on its channels. |
| `Bridge.TrafficIsLegal` | tools/simulator/router.py:205-231 | That traffic fills only inputs with room and drains only outputs that hold something, the condition under which the pipelined cores are compared with the same element. |
| `Execution.FirstThatHoldsExecutes` | tools/simulator/core.py:165-251 | One cycle of the core in registers, words and packets: nothing if it has halted or no trigger holds; otherwise the first instruction whose trigger holds gets from each source the head packet's value, the register, the immediate or zero, and leaves exactly its result, packets, dequeues, predicates, store and halt. |
| `Execution.EligibleIffHolds` | tools/simulator/core.py:75-105 | A trigger is eligible iff its predicates are as listed, every input channel holds a packet whose tag equals the listed one or not as wanted, and every output channel has room. |
| `Execution.LoadAfterStore` | tools/simulator/core.py:216-225 | A load from the address a store has just written gives the store's first operand. |
| `SimulatorObjects.Buffer.Enqueue` | tools/simulator/interconnect.py:55-67 | Fails exactly on a full buffer; otherwise stages the packet and leaves the queue alone. |
| `SimulatorObjects.Buffer.Dequeue` | tools/simulator/interconnect.py:69-93 | Fails exactly on an empty buffer; otherwise stages the removal and returns the head. |
| `SimulatorObjects.Buffer.Commit` | tools/simulator/interconnect.py:95-117 | Applies the staged removal, then the staged packet, without the bounded deque ever evicting one. |
| `SimulatorObjects.Buffer.Reset` | tools/simulator/interconnect.py:119-132 | Empties the queue and drops what was staged, from any state. |
| `SimulatorObjects.SoftwareRouter.Iterate` | tools/simulator/router.py:205-231 | The two loops stage exactly the transfers of the router's links on top of what was staged before. |
| `SimulatorObjects.SoftwareRouter.ConnectToProcessingElement` | tools/simulator/router.py:129-146 | Both table entries of the direction now name the neighbour's facing channels, and nothing else changes. |
| `SimulatorCore.Core.CheckTrigger` | tools/simulator/core.py:75-105 | The five loops with early exit decide eligibility. |
| `SimulatorCore.Core.FindInstruction` | tools/simulator/core.py:165-171 | The ordered search finds the scheduled instruction, or nothing. |
| `SimulatorCore.Core.Execute` | tools/simulator/core.py:172-251 | Fails exactly for a scratchpad address that does not exist; otherwise the core state is that of the fired instruction and exactly its dequeues and enqueues are staged. |
| `SimulatorCore.Core.Iterate` | tools/simulator/core.py:124-260 | One iteration updates the core and stages exactly what the model on values says, and fails exactly when the scheduled instruction leaves the scratchpad. |
| `SimulatorMemory.MemoryElement.Iterate` | tools/simulator/memory.py:124-155 | All deliveries, then all services, then all writes in place give the next memory value and its staging; it fails iff an address does not exist. |
| `SimulatorMemory.MemoryElement.WriteAll` | tools/simulator/memory.py:146-155 | Write ports update the array in port order, later ones over earlier ones. |
| `SimulatorSystem.IterateElements` | tools/simulator/system.py:58-59 | Iterating the elements in list order stages the merge of their effects, each computed from the committed queues, and fails iff one of them raises. |
| `SimulatorSystem.CommitAll` | tools/simulator/system.py:73-76 | Committing every buffer applies everything staged, leaves nothing staged, and reports whether all are empty. |
| `SimulatorSystem.System.Iterate` | tools/simulator/system.py:37-81 | One iteration of the event loop computes `Simulator.Cycle` in place, returns whether every halt register is set and every buffer is empty, and counts the cycle unless it halts; it fails iff a core or a memory is asked for an address it does not have. |
| `SimulatorSystem.System.Register` | tools/simulator/processing_element.py:40-50 | An element registers its input channels, its output channels and itself. |
| `Mesh.MeshIsSymmetric` | tools/simulator/router.py:143-146 | On a grid of any size, A's destination in a direction is B's input iff B's source in the reverse direction is A's output, and iff B is A's neighbour that way. |
| `Mesh.MeshByNumbers` | tools/simulator/array.py:34-43 | With elements numbered row by row, ports 1 and 3 are connected both ways between neighbours in a row, and ports 2 and 0 between neighbours in a column. |
| `Mesh.SingleProducer` | tools/simulator/array.py:34-43 | Any two links of the mesh share one end iff they share the other, whichever routers drive them. |
| `Mesh.JoiningAddsAnEdge` | tools/simulator/processing_element.py:77-90 | Connecting two neighbours makes their pair of links and changes no other. |
| `Mesh.MeshIsWired` | tools/simulator/array.py:34-43 | Every mesh of processing elements is well wired, so all results on well-wired systems apply to it. |
| `Mesh.MeshIsLossless` | tools/simulator/router.py:205-231 | On a mesh of any size every neighbouring pair of channels is a lossless FIFO over any run. |
| `Mesh.MeshElementIsSequential` | tools/simulator/system.py:58-76 | On a mesh of any size every element takes one `Core.iterate` step per cycle, whatever its neighbours do. |
| `SimulatorArray.WireUp` | tools/simulator/array.py:34-43 | The nested loops link every element to exactly the neighbours along the direction vectors and leave entries over the edge unset. |
| `SimulatorArray.Array.constructor` | tools/simulator/array.py:14-43 | Given channels towards the neighbours each place has, makes separate reset elements that share no buffer, wired as a mesh. |
| `SimulatorArray.Assemble` | tools/simulator/array.py:47-58 | A system made of one registered array of well-formed programs, with channels and router entries towards the neighbours each place has, satisfies the event loop's precondition and is a mesh. |

## Left out

- Linux driver, user-space programs, MMIO and AXI bridges, test managers, FPGA scripts and testbenches: input and output plumbing.
- The other pipelines (TDX, T|DX, TD|X, TD|X1|X2, TDX1|X2, T|DX1|X2): they use the same units with fewer latches, and the general cycle theorem covers that shape.
- The functional units: the datapath operation is uninterpreted, so nothing is said about bits of results, and the Python operations are not compared with the SystemVerilog ones.
- Word widths, and the sign extension of immediates in the instruction memory (hardware/src/instruction/instruction_memory.sv:69-73, which takes the sign from a bit beyond the field): words are integers of which control tests only whether they are zero, and an immediate reaches the datapath as the program has it.
- Reset sequencing, the one-cycle lag of the internal enable, and anything a core does after a halt has been issued.
- Performance counters, MMIO reads and writes of registers, scratchpad and instruction memory, and debug output.
- The two-bit predictor: the prediction is an arbitrary input of every cycle.
- The third operand of T|D|X1|X2, which its functional unit does not receive: its programs use two operands.
- Scratchpad addresses outside the memory: the sequential element and the cores keep the low address bits as the hardware does, and have nothing to load where there is no scratchpad; the simulator's classes report them as a failure, as its exceptions do.
- Reads and writes of the cores' storage by the host: the register file, the scratchpad and the instruction memory of `CoreParts.dfy` are set at construction.
- `Runs.RunRefines`: under pessimistic status a chosen instruction is eligible but need not be the first match, because the conservative status can hide a higher-priority trigger; first match is stated for exact status or triggers on predicates only.
- `Runs.SpeculationIsTransparent`: for triggers that look at channels the stream depends on when packets arrive, so only the step-by-step agreement of `Runs.RunRefines` is stated for them.
- `SimulatorCore.Core.Iterate`: exceptions other than scratchpad addresses are excluded by well-formed programs, and cycle counters and traces are left out.
- `SystemRuns.AnyOrderIsIrrelevant`: buffers are committed independently of one another, so a cycle on values has no order of buffers to permute; the classes' commit loop is proved for every order of its list.
- `SimulatorMemory.MemoryElement.Iterate`: read and write ports are records in fields of the memory rather than objects of their own; the exception for an address that does not exist is the result `ok`, after which the contents are unspecified.
- `SimulatorArray.Array.constructor`: programs are given at construction instead of loaded later.
- The class checks of the router's connect methods, the switch and virtual-circuit routers (empty in this release), and the fixed 2x2 and 4x4 arrays, which are instances of the same wiring.
- Tokenising, macros, regular expressions and label handling of the assembler, and program files of the simulator.
