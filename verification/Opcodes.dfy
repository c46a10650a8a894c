/**
 * The opcodes by name, and the tables of the integer core as they are written, name by name. The rest of the project uses
 * opcode numbers.
 */
module Opcodes {
  import Instructions
  import IntegerCore

  const NOP: nat := 0
  const MOV: nat := 1
  const ADD: nat := 2
  const SUB: nat := 3
  const SL: nat := 4
  const ASR: nat := 5
  const LSR: nat := 6
  const EQ: nat := 7
  const NE: nat := 8
  const SGT: nat := 9
  const UGT: nat := 10
  const SLT: nat := 11
  const ULT: nat := 12
  const SGE: nat := 13
  const UGE: nat := 14
  const SLE: nat := 15
  const ULE: nat := 16
  const BAND: nat := 17
  const BNAND: nat := 18
  const BOR: nat := 19
  const BNOR: nat := 20
  const BXOR: nat := 21
  const BXNOR: nat := 22
  const LAND: nat := 23
  const LNAND: nat := 24
  const LOR: nat := 25
  const LNOR: nat := 26
  const LXOR: nat := 27
  const LXNOR: nat := 28
  const GBY: nat := 29
  const SBY: nat := 30
  const CBY: nat := 31
  const MBY: nat := 32
  const GB: nat := 33
  const SB: nat := 34
  const CB: nat := 35
  const MB: nat := 36
  const CLZ: nat := 37
  const CTZ: nat := 38
  const HALT: nat := 39
  const LSW: nat := 40
  const SSW: nat := 41
  const RLW: nat := 42
  const OLW: nat := 43
  const SW: nat := 44
  const LMUL: nat := 45
  const SHMUL: nat := 46
  const UHMUL: nat := 47
  const MAC: nat := 48

  /** Everything after these is floating point and not implemented. */
  const NUM_OPS: nat := 63

  predicate ListedAsArithmetic(op: nat) {
    op in [NOP, MOV, ADD, SUB, SL, ASR, LSR, EQ, NE, SGT, UGT, SLT, ULT, SGE, UGE, SLE, ULE]
  }

  predicate ListedAsLogic(op: nat) {
    op in [BAND, BNAND, BOR, BNOR, BXOR, BXNOR, LAND, LNAND, LOR, LNOR, LXOR, LXNOR]
  }

  predicate ListedAsBitOperation(op: nat) {
    op in [GB, SB, CB, MB, CLZ, CTZ, HALT]
  }

  /** The one-cycle case of the issue unit's and of the collision detector's lookup table. */
  predicate ListedAsOneCycle(op: nat) {
    ListedAsArithmetic(op) || ListedAsLogic(op) || ListedAsBitOperation(op)
  }

  predicate ListedAsScratchpad(op: nat) {
    op in [LSW, SSW]
  }

  predicate ListedAsMultiplier(op: nat) {
    op in [LMUL, SHMUL, UHMUL, MAC]
  }

  /** The codes control looks at are those of the opcodes meant. */
  lemma NumbersByName()
    ensures Instructions.HALT == HALT && Instructions.LSW == LSW && Instructions.SSW == SSW && Instructions.NUM_OPS == NUM_OPS
  {
  }

  lemma ArithmeticByName(op: nat)
    ensures ListedAsArithmetic(op) <==> op <= 16
  {
  }

  lemma LogicByName(op: nat)
    ensures ListedAsLogic(op) <==> 17 <= op <= 28
  {
  }

  /** For every opcode the integer core's rules over numbers are its two tables over names, with their defaults. */
  lemma TablesByName(op: nat, dx1Stage: nat)
    ensures IntegerCore.RetiringStage(op) == if ListedAsScratchpad(op) || ListedAsMultiplier(op) then 2 else 1
    ensures IntegerCore.Unit(op) ==
      if ListedAsScratchpad(op) then IntegerCore.SM else if ListedAsMultiplier(op) then IntegerCore.IMU else IntegerCore.ALU
    ensures IntegerCore.Collision(op, dx1Stage) <==> ListedAsOneCycle(op) && dx1Stage == 2
  {
    ArithmeticByName(op);
    LogicByName(op);
    hide ListedAsArithmetic, ListedAsLogic;
  }
}
