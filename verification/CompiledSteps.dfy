/** What the machine does on each of the instruction words the generator emits. */
module CompiledSteps {
  import opened Options
  import opened Values
  import opened Bytecode
  import opened Registers
  import opened Machine

  ghost predicate CodeAt(b: Binary, fn: nat, pc: int, fragment: seq<Word>) {
    && fn < |b.functions| && 0 <= pc && pc + |fragment| <= |b.functions[fn].code|
    && b.functions[fn].code[pc..pc + |fragment|] == fragment
  }

  lemma CodeSplit(b: Binary, fn: nat, pc: int, x: seq<Word>, y: seq<Word>)
    requires CodeAt(b, fn, pc, x + y)
    ensures CodeAt(b, fn, pc, x) && CodeAt(b, fn, pc + |x|, y)
  {
    var code := b.functions[fn].code;
    assert code[pc..pc + |x|] == code[pc..pc + |x + y|][..|x|];
    assert code[pc + |x|..pc + |x| + |y|] == code[pc..pc + |x + y|][|x|..];
  }

  lemma CodeSplit3(b: Binary, fn: nat, pc: int, x: seq<Word>, y: seq<Word>, z: seq<Word>)
    requires CodeAt(b, fn, pc, x + y + z)
    ensures CodeAt(b, fn, pc, x) && CodeAt(b, fn, pc + |x|, y) && CodeAt(b, fn, pc + |x| + |y|, z)
  {
    CodeSplit(b, fn, pc, x + y, z);
    CodeSplit(b, fn, pc, x, y);
  }

  /** A running frame that has not opened more than one callee, in bounds of its code. */
  ghost predicate At(b: Binary, s: State, w: Word) {
    ValidBinary(b) && s.Running? && |s.regs| <= NO_REGISTER && CodeAt(b, s.fn, s.pc, [w])
  }

  function Advance(s: State, n: int, regs: seq<Cell>): State
    requires s.Running?
  {
    s.(pc := s.pc + n, regs := regs)
  }

  lemma StepAt(b: Binary, s: State, w: Word)
    requires At(b, s, w)
    ensures Step(b, s) == Execute(b, s.(pc := s.pc + 1), w)
  {
    assert b.functions[s.fn].code[s.pc] == b.functions[s.fn].code[s.pc..s.pc + 1][0];
  }

  lemma StepDual(b: Binary, s: State, op: DualOp, ty: Ty, reg: int, reg1: int, reg2: int, x: int, y: int)
    returns (c: Cell)
    requires ty != Bool && EvalDual(op, ty, x, y).Some?
    requires At(b, s, PackThreeRegisters(DualOperatorInst(op, ty), reg, reg1, reg2))
    requires 0 <= reg < |s.regs| && 0 <= reg1 < |s.regs| && 0 <= reg2 < |s.regs|
    requires Holds(s.regs[reg1], ty, x) && Holds(s.regs[reg2], ty, y)
    ensures Step(b, s) == Some(Advance(s, 1, s.regs[reg := c]))
    ensures Holds(c, ty, EvalDual(op, ty, x, y).value) && (!Is64(ty) ==> c.hi == s.regs[reg].hi)
  {
    hide UnpackInstruction, UnpackDst, UnpackSrc1, UnpackSrc2, UnpackValue16, UnpackValue16Signed, UnpackValue24Signed;
    hide PackThreeRegisters, PackTwoRegisters, PackOneRegister, PackDstValue, PackValue;
    var inst := DualOperatorInst(op, ty);
    UnpackThree(inst, reg, reg1, reg2);
    StepAt(b, s, PackThreeRegisters(inst, reg, reg1, reg2));
    DualSelected(op, ty, s.regs[reg], s.regs[reg1], s.regs[reg2], x, y);
    hide DualOperatorInst, EvalDual, Holds, Operate;
    DispatchIsAlu(inst);
    var o := Dispatch(inst).value;
    assert !o.Unary? by { DualIsBinary(op, ty); }
    c := Operate(o, s.regs[reg], s.regs[reg1], s.regs[reg2]).value;
  }

  /** The interpreter treats exactly the dispatched instructions as two- or three-register operations. */
  lemma DispatchIsAlu(inst: nat)
    requires Dispatch(inst).Some?
    ensures inst !in {HALT, JUMP, RETURN, LOAD_VALUE, LOAD_CONST_32, LOAD_CONST_64, JUMP_TRUE, JUMP_FALSE,
                      LOAD_FUNCTION, PUSH_ARG, CALL, COPY_REGISTER}
  {
  }

  lemma DualIsBinary(op: DualOp, ty: Ty)
    requires ty != Bool
    ensures Dispatch(DualOperatorInst(op, ty)).Some? && Dispatch(DualOperatorInst(op, ty)).value.Arith?
  {
  }

  lemma StepCompare(b: Binary, s: State, cmp: CompareOp, ty: Ty, reg: int, reg1: int, reg2: int, x: int, y: int)
    returns (c: Cell)
    requires At(b, s, PackThreeRegisters(CompareOperatorInst(cmp, ty), reg, reg1, reg2))
    requires 0 <= reg < |s.regs| && 0 <= reg1 < |s.regs| && 0 <= reg2 < |s.regs|
    requires Holds(s.regs[reg1], ty, x) && Holds(s.regs[reg2], ty, y)
    ensures Step(b, s) == Some(Advance(s, 1, s.regs[reg := c]))
    ensures Holds(c, Bool, EvalCompare(cmp, x, y))
  {
    hide UnpackInstruction, UnpackDst, UnpackSrc1, UnpackSrc2, UnpackValue16, UnpackValue16Signed, UnpackValue24Signed;
    hide PackThreeRegisters, PackTwoRegisters, PackOneRegister, PackDstValue, PackValue;
    var inst := CompareOperatorInst(cmp, ty);
    UnpackThree(inst, reg, reg1, reg2);
    StepAt(b, s, PackThreeRegisters(inst, reg, reg1, reg2));
    CompareSelected(cmp, ty, s.regs[reg], s.regs[reg1], s.regs[reg2], x, y);
    assert Dispatch(inst) == Some(Registers.Comparison(TypeView(ty), cmp));
    hide CompareOperatorInst, EvalCompare, Holds, Operate;
    DispatchIsAlu(inst);
    c := Operate(Dispatch(inst).value, s.regs[reg], s.regs[reg1], s.regs[reg2]).value;
  }

  lemma StepSingle(b: Binary, s: State, single: SingleOp, ty: Ty, reg: int, reg1: int, x: int) returns (c: Cell)
    requires ty != Bool && (single.Negate? ==> IsSigned(ty))
    requires At(b, s, PackTwoRegisters(SingleOperatorInst(single, ty), reg, reg1))
    requires 0 <= reg < |s.regs| && 0 <= reg1 < |s.regs|
    requires Holds(s.regs[reg1], ty, x)
    ensures Step(b, s) == Some(Advance(s, 1, s.regs[reg := c]))
    ensures Holds(c, ty, EvalSingle(single, ty, x))
  {
    hide UnpackInstruction, UnpackDst, UnpackSrc1, UnpackSrc2, UnpackValue16, UnpackValue16Signed, UnpackValue24Signed;
    hide PackThreeRegisters, PackTwoRegisters, PackOneRegister, PackDstValue, PackValue;
    var inst := SingleOperatorInst(single, ty);
    UnpackTwo(inst, reg, reg1);
    StepAt(b, s, PackTwoRegisters(inst, reg, reg1));
    SingleSelected(single, ty, s.regs[reg], s.regs[reg1], ZERO_CELL, x);
    assert Dispatch(inst).value.Unary?;
    hide SingleOperatorInst, EvalSingle, Holds, Operate;
    DispatchIsAlu(inst);
    c := Operate(Dispatch(inst).value, s.regs[reg], s.regs[reg1], ZERO_CELL).value;
  }

  lemma StepCopy(b: Binary, s: State, dst: int, src: int)
    requires At(b, s, PackTwoRegisters(COPY_REGISTER, dst, src))
    requires 0 <= dst < |s.regs| && 0 <= src < |s.regs|
    ensures Step(b, s) == Some(Advance(s, 1, s.regs[dst := s.regs[src]]))
  {
    hide UnpackInstruction, UnpackDst, UnpackSrc1, UnpackSrc2, UnpackValue16, UnpackValue16Signed, UnpackValue24Signed;
    hide PackThreeRegisters, PackTwoRegisters, PackOneRegister, PackDstValue, PackValue;
    UnpackTwo(COPY_REGISTER, dst, src);
    StepAt(b, s, PackTwoRegisters(COPY_REGISTER, dst, src));
  }

  lemma StepJump(b: Binary, s: State, offset: int)
    requires At(b, s, PackValue(JUMP, offset)) && -TWO_24 / 2 <= offset < TWO_24 / 2
    ensures Step(b, s) == Some(Advance(s, 1 + offset, s.regs))
  {
    hide UnpackInstruction, UnpackDst, UnpackSrc1, UnpackSrc2, UnpackValue16, UnpackValue16Signed, UnpackValue24Signed;
    hide PackThreeRegisters, PackTwoRegisters, PackOneRegister, PackDstValue, PackValue;
    UnpackValue(JUMP, offset);
    StepAt(b, s, PackValue(JUMP, offset));
  }

  /** The jump on false looks at the low half of its register only. */
  lemma StepJumpFalse(b: Binary, s: State, reg: int, offset: int)
    requires At(b, s, PackDstValue(JUMP_FALSE, reg, offset)) && 0 <= offset < TWO_16
    requires 0 <= reg < |s.regs|
    ensures Step(b, s) == Some(Advance(s, if s.regs[reg].lo == 0 then 1 + offset else 1, s.regs))
  {
    hide UnpackInstruction, UnpackDst, UnpackSrc1, UnpackSrc2, UnpackValue16, UnpackValue16Signed, UnpackValue24Signed;
    hide PackThreeRegisters, PackTwoRegisters, PackOneRegister, PackDstValue, PackValue;
    UnpackDstValue(JUMP_FALSE, reg, offset);
    StepAt(b, s, PackDstValue(JUMP_FALSE, reg, offset));
  }

  lemma StepJumpTrue(b: Binary, s: State, reg: int, offset: int)
    requires At(b, s, PackDstValue(JUMP_TRUE, reg, offset)) && MIN_INT16 <= offset <= MAX_INT16
    requires 0 <= reg < |s.regs|
    ensures Step(b, s) == Some(Advance(s, if s.regs[reg].lo != 0 then 1 + offset else 1, s.regs))
  {
    hide UnpackInstruction, UnpackDst, UnpackSrc1, UnpackSrc2, UnpackValue16, UnpackValue16Signed, UnpackValue24Signed;
    hide PackThreeRegisters, PackTwoRegisters, PackOneRegister, PackDstValue, PackValue;
    UnpackDstValue(JUMP_TRUE, reg, offset);
    StepAt(b, s, PackDstValue(JUMP_TRUE, reg, offset));
  }

  /**
    The two conditional jumps are each other's opposite: with the same register and offset
    one of them jumps and the other goes on to the next word. A jump on true jumps exactly
    when the low half of the register is not zero, whatever the high half.
   */
  lemma OppositeJumps(b: Binary, s: State, t: State, reg: int, offset: int)
    requires At(b, s, PackDstValue(JUMP_TRUE, reg, offset)) && At(b, t, PackDstValue(JUMP_FALSE, reg, offset))
    requires 0 < offset <= MAX_INT16 && 0 <= reg < |s.regs| && s.regs == t.regs
    ensures Step(b, s) == Some(Advance(s, 1 + offset, s.regs)) <==> s.regs[reg].lo != 0
    ensures Step(b, s) == Some(Advance(s, 1 + offset, s.regs)) <==> Step(b, t) == Some(Advance(t, 1, t.regs))
    ensures Step(b, s) == Some(Advance(s, 1, s.regs)) <==> Step(b, t) == Some(Advance(t, 1 + offset, t.regs))
  {
    StepJumpTrue(b, s, reg, offset);
    StepJumpFalse(b, t, reg, offset);
    hide At, Step, PackDstValue;
  }

  lemma StepLoadValue(b: Binary, s: State, reg: int, v: int)
    requires At(b, s, PackDstValue(LOAD_VALUE, reg, v)) && 0 <= reg < |s.regs|
    ensures Step(b, s) == Some(Advance(s, 1, s.regs[reg := FromRaw64(v % TWO_16)]))
  {
    hide UnpackInstruction, UnpackDst, UnpackSrc1, UnpackSrc2, UnpackValue16, UnpackValue16Signed, UnpackValue24Signed;
    hide PackThreeRegisters, PackTwoRegisters, PackOneRegister, PackDstValue, PackValue;
    UnpackDstValue(LOAD_VALUE, reg, v);
    StepAt(b, s, PackDstValue(LOAD_VALUE, reg, v));
  }

  lemma StepLoadConstant32(b: Binary, s: State, reg: int, i: nat)
    requires At(b, s, PackDstValue(LOAD_CONST_32, reg, i)) && 0 <= reg < |s.regs| && i < |b.constants32| < TWO_16
    ensures Step(b, s) == Some(Advance(s, 1, s.regs[reg := s.regs[reg].(lo := b.constants32[i])]))
  {
    hide UnpackInstruction, UnpackDst, UnpackSrc1, UnpackSrc2, UnpackValue16, UnpackValue16Signed, UnpackValue24Signed;
    hide PackThreeRegisters, PackTwoRegisters, PackOneRegister, PackDstValue, PackValue;
    UnpackDstValue(LOAD_CONST_32, reg, i);
    StepAt(b, s, PackDstValue(LOAD_CONST_32, reg, i));
  }

  lemma StepLoadConstant64(b: Binary, s: State, reg: int, i: nat)
    requires At(b, s, PackDstValue(LOAD_CONST_64, reg, i)) && 0 <= reg < |s.regs| && i < |b.constants64| < TWO_16
    ensures Step(b, s) == Some(Advance(s, 1, s.regs[reg := FromRaw64(b.constants64[i])]))
  {
    hide UnpackInstruction, UnpackDst, UnpackSrc1, UnpackSrc2, UnpackValue16, UnpackValue16Signed, UnpackValue24Signed;
    hide PackThreeRegisters, PackTwoRegisters, PackOneRegister, PackDstValue, PackValue;
    UnpackDstValue(LOAD_CONST_64, reg, i);
    StepAt(b, s, PackDstValue(LOAD_CONST_64, reg, i));
  }

  // ----- the call protocol -----

  lemma StepLoadFunction(b: Binary, s: State, reg: int, i: nat)
    requires At(b, s, PackDstValue(LOAD_FUNCTION, reg, i)) && 0 <= reg < |s.regs| && i < |b.functions| && i < TWO_16
    requires s.pending.None?
    ensures Step(b, s) == Some(s.(pc := s.pc + 1, regs := s.regs[reg := FunctionPointer(b, i)],
                                 pending := Some(Pending(Zeros(b.functions[i].nRegisters), 0))))
  {
    hide UnpackInstruction, UnpackDst, UnpackSrc1, UnpackSrc2, UnpackValue16, UnpackValue16Signed, UnpackValue24Signed;
    hide PackThreeRegisters, PackTwoRegisters, PackOneRegister, PackDstValue, PackValue;
    UnpackDstValue(LOAD_FUNCTION, reg, i);
    StepAt(b, s, PackDstValue(LOAD_FUNCTION, reg, i));
  }

  lemma StepPush(b: Binary, s: State, reg: int)
    requires At(b, s, PackOneRegister(PUSH_ARG, reg)) && 0 <= reg < |s.regs|
    requires s.pending.Some? && s.pending.value.pushed < |s.pending.value.cells|
    ensures var p := s.pending.value;
            Step(b, s) == Some(s.(pc := s.pc + 1, pending := Some(Pending(p.cells[p.pushed := s.regs[reg]],
                  p.pushed + 1))))
  {
    hide UnpackInstruction, UnpackDst, UnpackSrc1, UnpackSrc2, UnpackValue16, UnpackValue16Signed, UnpackValue24Signed;
    hide PackThreeRegisters, PackTwoRegisters, PackOneRegister, PackDstValue, PackValue;
    UnpackOne(PUSH_ARG, reg);
    StepAt(b, s, PackOneRegister(PUSH_ARG, reg));
  }

  lemma StepCall(b: Binary, s: State, reg: int, ret: int, n: nat, i: nat)
    requires At(b, s, PackThreeRegisters(CALL, reg, ret, n)) && 0 <= reg < |s.regs| && -1 <= ret < |s.regs|
    requires i < |b.functions| && s.regs[reg] == FunctionPointer(b, i)
    requires s.pending.Some? && |s.pending.value.cells| == b.functions[i].nRegisters
    ensures Step(b, s) == Some(Running(s.callers + [Suspended(s.fn, s.pc + 1, s.regs,
                                                              if ret == -1 then NO_REGISTER else ret)], i, 0,
                                                              s.pending.value.cells, None))
  {
    hide UnpackInstruction, UnpackDst, UnpackSrc1, UnpackSrc2, UnpackValue16, UnpackValue16Signed, UnpackValue24Signed;
    hide PackThreeRegisters, PackTwoRegisters, PackOneRegister, PackDstValue, PackValue, FunctionAt, FunctionPointer;
    CallUnpacked(reg, ret, n);
    StepAt(b, s, PackThreeRegisters(CALL, reg, ret, n));
    FunctionPointerFound(b, i);
  }

  lemma CallUnpacked(reg: int, ret: int, n: nat)
    requires 0 <= reg < TWO_8 && -1 <= ret < TWO_8
    ensures var w := PackThreeRegisters(CALL, reg, ret, n);
            && UnpackInstruction(w) == CALL && UnpackDst(w) == reg
            && UnpackSrc1(w) == if ret == -1 then NO_REGISTER else ret
  {
    UnpackThree(CALL, reg, ret % TWO_8, n % TWO_8);
    assert PackThreeRegisters(CALL, reg, ret, n) == PackThreeRegisters(CALL, reg, ret % TWO_8, n % TWO_8);
  }

  lemma StepReturn(b: Binary, s: State, reg: int)
    requires At(b, s, PackDstValue(RETURN, reg, 0)) && 0 <= reg <= NO_REGISTER
    ensures Step(b, s) == ReturnToCaller(s.(pc := s.pc + 1), reg)
  {
    hide UnpackInstruction, UnpackDst, UnpackSrc1, UnpackSrc2, UnpackValue16, UnpackValue16Signed, UnpackValue24Signed;
    hide PackThreeRegisters, PackTwoRegisters, PackOneRegister, PackDstValue, PackValue;
    UnpackDstValue(RETURN, reg, 0);
    StepAt(b, s, PackDstValue(RETURN, reg, 0));
  }
}
