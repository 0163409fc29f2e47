/**
  The virtual machine over a stack of frames. Each frame owns its registers; the
  module FlatStack shows that the machine's one block of memory behaves like this.
  `None` is a state the interpreter leaves with an error or with undefined behaviour.
 */
module Machine {
  import opened Options
  import opened Values
  import opened Bytecode
  import opened Registers

  type U64 = w: int | 0 <= w < TWO_64

  datatype Function = Function(code: seq<Word>, nRegisters: nat)

  /** A loaded binary; `functionTable` is the address of its first function record. */
  datatype Binary = Binary(constants32: seq<U32>, constants64: seq<U64>, functions: seq<Function>, functionTable: nat)

  const FUNCTION_RECORD_SIZE := 16

  predicate ValidBinary(b: Binary) {
    && b.functionTable + FUNCTION_RECORD_SIZE * |b.functions| < TWO_64
    && forall i :: 0 <= i < |b.functions| ==> b.functions[i].nRegisters <= NO_REGISTER
  }

  /** A caller waiting for its callee: where it resumes and which register gets the result. */
  datatype Suspended = Suspended(fn: nat, pc: int, regs: seq<Cell>, ret: nat)

  /** A frame opened by LOAD_FUNCTION and not called yet. */
  datatype Pending = Pending(cells: seq<Cell>, pushed: nat)

  datatype State =
    | Running(callers: seq<Suspended>, fn: nat, pc: int, regs: seq<Cell>, pending: Option<Pending>)
    | Halted
    | Returned(value: Option<Cell>)

  function Zeros(n: nat): (cells: seq<Cell>)
    ensures |cells| == n
    ensures forall i :: 0 <= i < n ==> cells[i] == ZERO_CELL
  {
    if n == 0 then [] else Zeros(n - 1) + [ZERO_CELL]
  }

  function FunctionPointer(b: Binary, i: nat): Cell
    requires ValidBinary(b) && i < |b.functions|
  {
    FromRaw64(b.functionTable + FUNCTION_RECORD_SIZE * i)
  }

  /** The function whose record a register points to. */
  function FunctionAt(b: Binary, c: Cell): Option<nat> {
    var offset := Raw64(c) - b.functionTable;
    if 0 <= offset && offset % FUNCTION_RECORD_SIZE == 0 && offset / FUNCTION_RECORD_SIZE < |b.functions|
    then Some(offset / FUNCTION_RECORD_SIZE) else None
  }

  function SetRegister(s: State, r: nat, c: Cell): State
    requires s.Running? && r < |s.regs|
  {
    s.(regs := s.regs[r := c])
  }

  function LoadFunction(b: Binary, s: State, dst: nat, index: nat): Option<State>
    requires ValidBinary(b) && s.Running? && dst < |s.regs|
  {
    if index >= |b.functions| || s.pending.Some? then None
    else
      var frame := Pending(Zeros(b.functions[index].nRegisters), 0);
      Some(s.(regs := s.regs[dst := FunctionPointer(b, index)], pending := Some(frame)))
  }

  function PushArgument(s: State, dst: nat): Option<State>
    requires s.Running? && dst < |s.regs|
  {
    match s.pending
    case None => None
    case Some(p) =>
      if p.pushed >= |p.cells| then None
      else Some(s.(pending := Some(Pending(p.cells[p.pushed := s.regs[dst]], p.pushed + 1))))
  }

  function CallFunction(b: Binary, s: State, dst: nat, ret: nat): Option<State>
    requires s.Running? && dst < |s.regs|
  {
    match FunctionAt(b, s.regs[dst])
    case None => None
    case Some(callee) =>
      if s.pending.None? || (ret != NO_REGISTER && ret >= |s.regs|)
          || b.functions[callee].nRegisters != |s.pending.value.cells| then None
      else Some(Running(s.callers + [Suspended(s.fn, s.pc, s.regs, ret)], callee, 0, s.pending.value.cells, None))
  }

  function ReturnToCaller(s: State, dst: nat): Option<State>
    requires s.Running?
  {
    if s.pending.Some? || (dst != NO_REGISTER && dst >= |s.regs|) then None
    else if s.callers == [] then Some(Returned(if dst == NO_REGISTER then None else Some(s.regs[dst])))
    else
      var c := s.callers[|s.callers| - 1];
      if dst != NO_REGISTER && c.ret >= |c.regs| then None
      else Some(Running(s.callers[..|s.callers| - 1], c.fn, c.pc,
                        if dst == NO_REGISTER then c.regs else c.regs[c.ret := s.regs[dst]], None))
  }

  /** One instruction, the program counter already past it. */
  function Execute(b: Binary, s: State, w: Word): Option<State>
    requires ValidBinary(b) && s.Running?
  {
    var inst, dst, src1, src2 := UnpackInstruction(w), UnpackDst(w), UnpackSrc1(w), UnpackSrc2(w);
    if inst == HALT then Some(Halted)
    else if inst == JUMP then Some(s.(pc := s.pc + UnpackValue24Signed(w)))
    else if inst == RETURN then ReturnToCaller(s, dst)
    else if dst >= |s.regs| then None
    else if inst == LOAD_VALUE then Some(SetRegister(s, dst, FromRaw64(UnpackValue16(w))))
    else if inst == LOAD_CONST_32 then
      if UnpackValue16(w) >= |b.constants32| then None
      else Some(SetRegister(s, dst, s.regs[dst].(lo := b.constants32[UnpackValue16(w)])))
    else if inst == LOAD_CONST_64 then
      if UnpackValue16(w) >= |b.constants64| then None
      else Some(SetRegister(s, dst, FromRaw64(b.constants64[UnpackValue16(w)])))
    else if inst == JUMP_TRUE then
      Some(if s.regs[dst].lo != 0 then s.(pc := s.pc + UnpackValue16Signed(w)) else s)
    else if inst == JUMP_FALSE then
      Some(if s.regs[dst].lo == 0 then s.(pc := s.pc + UnpackValue16(w)) else s)
    else if inst == LOAD_FUNCTION then LoadFunction(b, s, dst, UnpackValue16(w))
    else if inst == PUSH_ARG then PushArgument(s, dst)
    else if inst == CALL then CallFunction(b, s, dst, src1)
    else if src1 >= |s.regs| then None
    else if inst == COPY_REGISTER then Some(SetRegister(s, dst, s.regs[src1]))
    else
      match Dispatch(inst)
      case None => None
      case Some(o) =>
        if !o.Unary? && src2 >= |s.regs| then None
        else
          match Operate(o, s.regs[dst], s.regs[src1], if o.Unary? then ZERO_CELL else s.regs[src2])
          case None => None
          case Some(c) => Some(SetRegister(s, dst, c))
  }

  function Step(b: Binary, s: State): Option<State>
    requires ValidBinary(b)
  {
    if !s.Running? || s.fn >= |b.functions| || !(0 <= s.pc < |b.functions[s.fn].code|) then None
    else Execute(b, s.(pc := s.pc + 1), b.functions[s.fn].code[s.pc])
  }

  function Run(b: Binary, s: State, n: nat): Option<State>
    requires ValidBinary(b)
    decreases n
  {
    if n == 0 then Some(s)
    else
      match Step(b, s)
      case None => None
      case Some(next) => Run(b, next, n - 1)
  }

  ghost predicate Reaches(b: Binary, s: State, t: State)
    requires ValidBinary(b)
  {
    exists n: nat :: Run(b, s, n) == Some(t)
  }

  lemma ReachesItself(b: Binary, s: State)
    requires ValidBinary(b)
    ensures Reaches(b, s, s)
  {
    assert Run(b, s, 0) == Some(s);
  }

  lemma ReachesStep(b: Binary, s: State, t: State)
    requires ValidBinary(b) && Step(b, s) == Some(t)
    ensures Reaches(b, s, t)
  {
    assert Run(b, t, 0) == Some(t);
    assert Run(b, s, 1) == Some(t);
  }

  lemma {:induction false} RunAppend(b: Binary, s: State, n: nat, m: nat)
    requires ValidBinary(b) && Run(b, s, n).Some?
    ensures Run(b, s, n + m) == Run(b, Run(b, s, n).value, m)
    decreases n
  {
    if n > 0 {
      RunAppend(b, Step(b, s).value, n - 1, m);
    }
  }

  lemma ReachesTransitive(b: Binary, s: State, t: State, u: State)
    requires ValidBinary(b) && Reaches(b, s, t) && Reaches(b, t, u)
    ensures Reaches(b, s, u)
  {
    var n: nat :| Run(b, s, n) == Some(t);
    var m: nat :| Run(b, t, m) == Some(u);
    RunAppend(b, s, n, m);
    assert Run(b, s, n + m) == Some(u);
  }

  lemma FunctionPointerFound(b: Binary, i: nat)
    requires ValidBinary(b) && i < |b.functions|
    ensures FunctionAt(b, FunctionPointer(b, i)) == Some(i)
  {
  }
}
