/**
  The 32-bit instruction words: an 8-bit opcode, then three 8-bit registers, or a
  register and a 16-bit value, or one 24-bit value. The fields do not overlap, so
  each mask-and-shift pair is written here as a division and a remainder by the
  powers of two they stand for.
 */
module Bytecode {
  import opened Values

  type Word = w: int | 0 <= w < TWO_32

  const HALT := 0
  const LOAD_VALUE := 9
  const LOAD_CONST_32 := 10
  const LOAD_CONST_64 := 11
  const ADD_I := 12
  const ADD_IL := 13
  const ADD_U := 14
  const ADD_UL := 15
  const SUB_I := 18
  const SUB_IL := 19
  const SUB_U := 20
  const SUB_UL := 21
  const MUL_I := 24
  const MUL_IL := 25
  const MUL_U := 26
  const MUL_UL := 27
  const DIV_I := 30
  const DIV_IL := 31
  const DIV_U := 32
  const DIV_UL := 33
  const NEG_I := 36
  const NEG_IL := 37
  const BIT_AND_32 := 40
  const BIT_AND_64 := 41
  const BIT_OR_32 := 42
  const BIT_OR_64 := 43
  const BIT_XOR_32 := 44
  const BIT_XOR_64 := 45
  const BIT_NOT_32 := 46
  const BIT_NOT_64 := 47
  const SHIFTL_32 := 48
  const SHIFTL_64 := 49
  const SHIFTR_32 := 50
  const SHIFTR_64 := 51
  const MOD_I := 52
  const MOD_IL := 53
  const MOD_U := 54
  const MOD_UL := 55
  const COMPARE_GT_I := 59
  const COMPARE_GT_IL := 60
  const COMPARE_GT_U := 61
  const COMPARE_GT_UL := 62
  const COMPARE_GE_I := 65
  const COMPARE_GE_IL := 66
  const COMPARE_GE_U := 67
  const COMPARE_GE_UL := 68
  const COMPARE_LT_I := 71
  const COMPARE_LT_IL := 72
  const COMPARE_LT_U := 73
  const COMPARE_LT_UL := 74
  const COMPARE_LE_I := 77
  const COMPARE_LE_IL := 78
  const COMPARE_LE_U := 79
  const COMPARE_LE_UL := 80
  const COMPARE_EQ_I := 83
  const COMPARE_EQ_IL := 84
  const COMPARE_EQ_U := 85
  const COMPARE_EQ_UL := 86
  const COMPARE_NE_I := 89
  const COMPARE_NE_IL := 90
  const COMPARE_NE_U := 91
  const COMPARE_NE_UL := 92
  const JUMP := 95
  const JUMP_TRUE := 96
  const JUMP_FALSE := 97
  const LOAD_FUNCTION := 98
  const PUSH_ARG := 99
  const CALL := 101
  const RETURN := 103
  const COPY_REGISTER := 104

  /** The register field that stands for "no register". */
  const NO_REGISTER := 0xFF

  function PackThreeRegisters(inst: int, dst: int, src1: int, src2: int): Word {
    inst % TWO_8 + dst % TWO_8 * TWO_8 + src1 % TWO_8 * TWO_16 + src2 % TWO_8 * TWO_24
  }

  function PackTwoRegisters(inst: int, dst: int, src1: int): Word {
    inst % TWO_8 + dst % TWO_8 * TWO_8 + src1 % TWO_8 * TWO_16
  }

  function PackOneRegister(inst: int, dst: int): Word {
    inst % TWO_8 + dst % TWO_8 * TWO_8
  }

  /** Both the unsigned and the signed form: a 16-bit argument keeps its low 16 bits. */
  function PackDstValue(inst: int, dst: int, value: int): Word {
    inst % TWO_8 + dst % TWO_8 * TWO_8 + value % TWO_16 * TWO_16
  }

  /** Both the unsigned and the signed form. */
  function PackValue(inst: int, value: int): Word {
    inst % TWO_8 + value % TWO_24 * TWO_8
  }

  function UnpackInstruction(w: Word): nat {
    w % TWO_8
  }

  function UnpackDst(w: Word): nat {
    w / TWO_8 % TWO_8
  }

  function UnpackSrc1(w: Word): nat {
    w / TWO_16 % TWO_8
  }

  function UnpackSrc2(w: Word): nat {
    w / TWO_24
  }

  function UnpackValue16(w: Word): nat {
    w / TWO_16
  }

  function UnpackValue16Signed(w: Word): int {
    var v := w / TWO_16;
    if v >= TWO_16 / 2 then v - TWO_16 else v
  }

  function UnpackValue24(w: Word): nat {
    w / TWO_8
  }

  function UnpackValue24Signed(w: Word): int {
    var v := w / TWO_8;
    if v >= TWO_24 / 2 then v - TWO_24 else v
  }

  lemma Split8(high: nat, low: nat)
    requires low < TWO_8
    ensures (low + high * TWO_8) / TWO_8 == high && (low + high * TWO_8) % TWO_8 == low
  {
  }

  lemma Split16(high: nat, low: nat)
    requires low < TWO_16
    ensures (low + high * TWO_16) / TWO_16 == high
  {
  }

  lemma Split24(high: nat, low: nat)
    requires low < TWO_24
    ensures (low + high * TWO_24) / TWO_24 == high
  {
  }

  /** Every field packed in its range is read back, in each of the five layouts. */
  lemma UnpackThree(inst: int, dst: int, src1: int, src2: int)
    requires 0 <= inst < TWO_8 && 0 <= dst < TWO_8 && 0 <= src1 < TWO_8 && 0 <= src2 < TWO_8
    ensures var w := PackThreeRegisters(inst, dst, src1, src2);
            UnpackInstruction(w) == inst && UnpackDst(w) == dst && UnpackSrc1(w) == src1 && UnpackSrc2(w) == src2
  {
    Split8(dst + src1 * TWO_8 + src2 * TWO_16, inst);
    Split8(src1 + src2 * TWO_8, dst);
    Split16(src1 + src2 * TWO_8, inst + dst * TWO_8);
    Split8(src2, src1);
    Split24(src2, inst + dst * TWO_8 + src1 * TWO_16);
  }

  lemma UnpackTwo(inst: int, dst: int, src1: int)
    requires 0 <= inst < TWO_8 && 0 <= dst < TWO_8 && 0 <= src1 < TWO_8
    ensures var w := PackTwoRegisters(inst, dst, src1);
            UnpackInstruction(w) == inst && UnpackDst(w) == dst && UnpackSrc1(w) == src1
  {
    UnpackThree(inst, dst, src1, 0);
  }

  lemma UnpackOne(inst: int, dst: int)
    requires 0 <= inst < TWO_8 && 0 <= dst < TWO_8
    ensures var w := PackOneRegister(inst, dst); UnpackInstruction(w) == inst && UnpackDst(w) == dst
  {
    UnpackThree(inst, dst, 0, 0);
  }

  lemma UnpackDstValue(inst: int, dst: int, value: int)
    requires 0 <= inst < TWO_8 && 0 <= dst < TWO_8
    ensures var w := PackDstValue(inst, dst, value);
            && UnpackInstruction(w) == inst && UnpackDst(w) == dst && UnpackValue16(w) == value % TWO_16
            && (-TWO_16 / 2 <= value < TWO_16 / 2 ==> UnpackValue16Signed(w) == value)
  {
    var w := PackDstValue(inst, dst, value);
    var v := value % TWO_16;
    assert w == inst + dst * TWO_8 + v * TWO_16;
    assert w / TWO_16 == v;
    assert w / TWO_8 == dst + v * TWO_8;
  }

  lemma UnpackValue(inst: int, value: int)
    requires 0 <= inst < TWO_8
    ensures var w := PackValue(inst, value);
            && UnpackInstruction(w) == inst && UnpackValue24(w) == value % TWO_24
            && (-TWO_24 / 2 <= value < TWO_24 / 2 ==> UnpackValue24Signed(w) == value)
  {
    var w := PackValue(inst, value);
    var v := value % TWO_24;
    assert w == inst + v * TWO_8;
    assert w / TWO_8 == v;
  }
}
