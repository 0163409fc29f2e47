/**
  A VM register is a 64-bit cell that every instruction reads and writes through a
  view of one C type. A 32-bit view touches only the low half of the cell.
 */
module Registers {
  import opened Options
  import opened Values
  import opened Bytecode

  type U32 = w: int | 0 <= w < TWO_32

  datatype Cell = Cell(lo: U32, hi: U32)

  const ZERO_CELL := Cell(0, 0)

  datatype View = I32 | U32View | I64 | U64View

  function Raw64(c: Cell): nat {
    c.hi * TWO_32 + c.lo
  }

  function FromRaw64(v: nat): Cell
    requires v < TWO_64
  {
    Cell(v % TWO_32, v / TWO_32)
  }

  function Read(view: View, c: Cell): int {
    match view
    case I32 => if c.lo >= TWO_31 then c.lo - TWO_32 else c.lo
    case U32View => c.lo
    case I64 => if Raw64(c) >= TWO_63 then Raw64(c) - TWO_64 else Raw64(c)
    case U64View => Raw64(c)
  }

  /** Stores through a view: a 32-bit store leaves the high half as it was. */
  function Write(view: View, c: Cell, v: int): Cell {
    match view
    case I32 => c.(lo := v % TWO_32)
    case U32View => c.(lo := v % TWO_32)
    case I64 => FromRaw64(v % TWO_64)
    case U64View => FromRaw64(v % TWO_64)
  }

  /** The operation of a two- or three-register instruction, and the view it works through. */
  datatype Operation =
    | Arith(view: View, op: DualOp)
    | Comparison(view: View, cmp: CompareOp)
    | Unary(view: View, single: SingleOp)

  /** The dispatch of the interpreter's switch on these instructions. */
  function Dispatch(inst: nat): Option<Operation> {
    if inst == ADD_I then Some(Arith(I32, Plus))
    else if inst == ADD_IL then Some(Arith(I64, Plus))
    else if inst == ADD_U then Some(Arith(U32View, Plus))
    else if inst == ADD_UL then Some(Arith(U64View, Plus))
    else if inst == SUB_I then Some(Arith(I32, Minus))
    else if inst == SUB_IL then Some(Arith(I64, Minus))
    else if inst == SUB_U then Some(Arith(U32View, Minus))
    else if inst == SUB_UL then Some(Arith(U64View, Minus))
    else if inst == MUL_I then Some(Arith(I32, Mult))
    else if inst == MUL_IL then Some(Arith(I64, Mult))
    else if inst == MUL_U then Some(Arith(U32View, Mult))
    else if inst == MUL_UL then Some(Arith(U64View, Mult))
    else if inst == DIV_I then Some(Arith(I32, Div))
    else if inst == DIV_IL then Some(Arith(I64, Div))
    else if inst == DIV_U then Some(Arith(U32View, Div))
    else if inst == DIV_UL then Some(Arith(U64View, Div))
    else if inst == NEG_I then Some(Unary(I32, Negate))
    else if inst == NEG_IL then Some(Unary(I64, Negate))
    else if inst == BIT_AND_32 then Some(Arith(U32View, BitAnd))
    else if inst == BIT_AND_64 then Some(Arith(U64View, BitAnd))
    else if inst == BIT_OR_32 then Some(Arith(U32View, BitOr))
    else if inst == BIT_OR_64 then Some(Arith(U64View, BitOr))
    else if inst == BIT_XOR_32 then Some(Arith(U32View, BitXor))
    else if inst == BIT_XOR_64 then Some(Arith(U64View, BitXor))
    else if inst == BIT_NOT_32 then Some(Unary(U32View, BitNot))
    else if inst == BIT_NOT_64 then Some(Unary(U64View, BitNot))
    else if inst == SHIFTL_32 then Some(Arith(U32View, ShiftLeft))
    else if inst == SHIFTL_64 then Some(Arith(U64View, ShiftLeft))
    else if inst == SHIFTR_32 then Some(Arith(U32View, ShiftRight))
    else if inst == SHIFTR_64 then Some(Arith(U64View, ShiftRight))
    else if inst == MOD_I then Some(Arith(I32, Mod))
    else if inst == MOD_IL then Some(Arith(I64, Mod))
    else if inst == MOD_U then Some(Arith(U32View, Mod))
    else if inst == MOD_UL then Some(Arith(U64View, Mod))
    else if inst == COMPARE_GT_I then Some(Comparison(I32, Gt))
    else if inst == COMPARE_GT_IL then Some(Comparison(I64, Gt))
    else if inst == COMPARE_GT_U then Some(Comparison(U32View, Gt))
    else if inst == COMPARE_GT_UL then Some(Comparison(U64View, Gt))
    else if inst == COMPARE_GE_I then Some(Comparison(I32, Ge))
    else if inst == COMPARE_GE_IL then Some(Comparison(I64, Ge))
    else if inst == COMPARE_GE_U then Some(Comparison(U32View, Ge))
    else if inst == COMPARE_GE_UL then Some(Comparison(U64View, Ge))
    else if inst == COMPARE_LT_I then Some(Comparison(I32, Lt))
    else if inst == COMPARE_LT_IL then Some(Comparison(I64, Lt))
    else if inst == COMPARE_LT_U then Some(Comparison(U32View, Lt))
    else if inst == COMPARE_LT_UL then Some(Comparison(U64View, Lt))
    else if inst == COMPARE_LE_I then Some(Comparison(I32, Le))
    else if inst == COMPARE_LE_IL then Some(Comparison(I64, Le))
    else if inst == COMPARE_LE_U then Some(Comparison(U32View, Le))
    else if inst == COMPARE_LE_UL then Some(Comparison(U64View, Le))
    else if inst == COMPARE_EQ_I then Some(Comparison(I32, Eq))
    else if inst == COMPARE_EQ_IL then Some(Comparison(I64, Eq))
    else if inst == COMPARE_EQ_U then Some(Comparison(U32View, Eq))
    else if inst == COMPARE_EQ_UL then Some(Comparison(U64View, Eq))
    else if inst == COMPARE_NE_I then Some(Comparison(I32, Ne))
    else if inst == COMPARE_NE_IL then Some(Comparison(I64, Ne))
    else if inst == COMPARE_NE_U then Some(Comparison(U32View, Ne))
    else if inst == COMPARE_NE_UL then Some(Comparison(U64View, Ne))
    else None
  }

  /** The C type behind a view, as far as arithmetic is concerned. */
  function ViewType(view: View): Ty {
    match view
    case I32 => Int32
    case U32View => UInt32
    case I64 => Int64
    case U64View => UInt64
  }

  /** What the instruction leaves in its destination; nothing when C leaves it undefined. */
  function Operate(o: Operation, dst: Cell, src1: Cell, src2: Cell): Option<Cell> {
    match o
    case Arith(view, op) =>
      (match EvalDual(op, ViewType(view), Read(view, src1), Read(view, src2))
       case None => None
       case Some(v) => Some(Write(view, dst, v)))
    case Comparison(view, cmp) =>
      Some(Write(view, dst, EvalCompare(cmp, Read(view, src1), Read(view, src2))))
    case Unary(view, single) =>
      Some(Write(view, dst, EvalSingle(single, ViewType(view), Read(view, src1))))
  }

  // ----- instruction selection -----

  function DualOperatorInst(op: DualOp, ty: Ty): nat
    requires ty != Bool
  {
    match op
    case Plus => (match ty case Int32 => ADD_I case UInt32 => ADD_U case Int64 => ADD_IL case UInt64 => ADD_UL)
    case Minus => (match ty case Int32 => SUB_I case UInt32 => SUB_U case Int64 => SUB_IL case UInt64 => SUB_UL)
    case Mult => (match ty case Int32 => MUL_I case UInt32 => MUL_U case Int64 => MUL_IL case UInt64 => MUL_UL)
    case Div => (match ty case Int32 => DIV_I case UInt32 => DIV_U case Int64 => DIV_IL case UInt64 => DIV_UL)
    case Mod => (match ty case Int32 => MOD_I case UInt32 => MOD_U case Int64 => MOD_IL case UInt64 => MOD_UL)
    case BitAnd => if Is64(ty) then BIT_AND_64 else BIT_AND_32
    case BitOr => if Is64(ty) then BIT_OR_64 else BIT_OR_32
    case BitXor => if Is64(ty) then BIT_XOR_64 else BIT_XOR_32
    case ShiftLeft => if Is64(ty) then SHIFTL_64 else SHIFTL_32
    case ShiftRight => if Is64(ty) then SHIFTR_64 else SHIFTR_32
  }

  /** A boolean has the VM type of an unsigned 32-bit integer. */
  function CompareOperatorInst(cmp: CompareOp, ty: Ty): nat {
    match cmp
    case Gt => (match ty case Int32 => COMPARE_GT_I case Int64 => COMPARE_GT_IL
               case UInt64 => COMPARE_GT_UL case _ => COMPARE_GT_U)
    case Ge => (match ty case Int32 => COMPARE_GE_I case Int64 => COMPARE_GE_IL
               case UInt64 => COMPARE_GE_UL case _ => COMPARE_GE_U)
    case Lt => (match ty case Int32 => COMPARE_LT_I case Int64 => COMPARE_LT_IL
               case UInt64 => COMPARE_LT_UL case _ => COMPARE_LT_U)
    case Le => (match ty case Int32 => COMPARE_LE_I case Int64 => COMPARE_LE_IL
               case UInt64 => COMPARE_LE_UL case _ => COMPARE_LE_U)
    case Eq => (match ty case Int32 => COMPARE_EQ_I case Int64 => COMPARE_EQ_IL
               case UInt64 => COMPARE_EQ_UL case _ => COMPARE_EQ_U)
    case Ne => (match ty case Int32 => COMPARE_NE_I case Int64 => COMPARE_NE_IL
               case UInt64 => COMPARE_NE_UL case _ => COMPARE_NE_U)
  }

  function SingleOperatorInst(single: SingleOp, ty: Ty): nat
    requires ty != Bool && (single.Negate? ==> IsSigned(ty))
  {
    match single
    case Negate => if Is64(ty) then NEG_IL else NEG_I
    case BitNot => if Is64(ty) then BIT_NOT_64 else BIT_NOT_32
  }

  // ----- the selected instruction computes the operator -----

  /** The view that shows a value of a type. */
  function TypeView(ty: Ty): View {
    match ty
    case Bool => U32View
    case Int32 => I32
    case UInt32 => U32View
    case Int64 => I64
    case UInt64 => U64View
  }

  /** The cell shows the value `v` of type `ty`; a 32-bit type says nothing of the high half. */
  predicate Holds(c: Cell, ty: Ty, v: int) {
    InRange(ty, v) && Read(TypeView(ty), c) == v
  }

  lemma WriteHolds(ty: Ty, c: Cell, v: int)
    requires InRange(ty, v)
    ensures Holds(Write(TypeView(ty), c, v), ty, v)
  {
  }

  /** Seen without its sign, a cell shows the bits of the value it holds. */
  lemma UnsignedView(c: Cell, ty: Ty, v: int)
    requires ty != Bool && Holds(c, ty, v)
    ensures Read(if Is64(ty) then U64View else U32View, c) == Bits(ty, v)
  {
  }

  lemma UnsignedWrite(ty: Ty, c: Cell, v: nat)
    requires ty != Bool
    ensures Holds(Write(if Is64(ty) then U64View else U32View, c, Wrap(if Is64(ty) then UInt64 else UInt32, v)), ty,
                  Wrap(ty, v))
  {
    var u := v % Modulus(ty);
    assert u % Modulus(ty) == u;
    if Is64(ty) {
      RawWritten(u);
      hide FromRaw64, Raw64;
    }
  }

  lemma RawWritten(u: nat)
    requires u < TWO_64
    ensures Raw64(FromRaw64(u)) == u
  {
  }

  /** Executing the instruction chosen for an operator computes the operator. */
  lemma DualSelected(op: DualOp, ty: Ty, dst: Cell, src1: Cell, src2: Cell, a: int, b: int)
    requires ty != Bool && Holds(src1, ty, a) && Holds(src2, ty, b)
    requires EvalDual(op, ty, a, b).Some?
    ensures var o := Dispatch(DualOperatorInst(op, ty));
            && o.Some? && Operate(o.value, dst, src1, src2).Some?
            && Holds(Operate(o.value, dst, src1, src2).value, ty, EvalDual(op, ty, a, b).value)
            && (!Is64(ty) ==> Operate(o.value, dst, src1, src2).value.hi == dst.hi)
  {
    hide Dispatch, DualOperatorInst, EvalDual, Bits;
    DualDispatch(op, ty);
    if op.Plus? || op.Minus? || op.Mult? || op.Div? || op.Mod? {
      SignedSelected(op, ty, dst, a, b);
    } else {
      var uty := if Is64(ty) then UInt64 else UInt32;
      UnsignedView(src1, ty, a);
      UnsignedView(src2, ty, b);
      UnsignedSelected(op, ty, uty, dst, a, b);
    }
  }

  lemma DualDispatch(op: DualOp, ty: Ty)
    requires ty != Bool
    ensures Dispatch(DualOperatorInst(op, ty)) ==
            Some(Arith(TypeView(if op.Plus? || op.Minus? || op.Mult? || op.Div?
                                || op.Mod? then ty else if Is64(ty) then UInt64 else UInt32), op))
  {
  }

  lemma SignedSelected(op: DualOp, ty: Ty, dst: Cell, a: int, b: int)
    requires ty != Bool && InRange(ty, a) && InRange(ty, b)
    requires EvalDual(op, ty, a, b).Some?
    ensures Holds(Write(TypeView(ty), dst, EvalDual(op, ty, a, b).value), ty, EvalDual(op, ty, a, b).value)
  {
    DualInRange(op, ty, a, b);
    WriteHolds(ty, dst, EvalDual(op, ty, a, b).value);
  }

  lemma UnsignedSelected(op: DualOp, ty: Ty, uty: Ty, dst: Cell, a: int, b: int)
    requires ty != Bool && InRange(ty, a) && InRange(ty, b) && uty == if Is64(ty) then UInt64 else UInt32
    requires op.BitAnd? || op.BitOr? || op.BitXor? || op.ShiftLeft? || op.ShiftRight?
    requires EvalDual(op, ty, a, b).Some?
    ensures var r := EvalDual(op, uty, Bits(ty, a), Bits(ty, b));
            r.Some? && Holds(Write(TypeView(uty), dst, r.value), ty, EvalDual(op, ty, a, b).value)
  {
    hide Bits, Wrap, EvalBits, Write, Holds, Width, InRange;
    var x, y := Bits(ty, a), Bits(ty, b);
    BitsAgain(ty, a);
    BitsAgain(ty, b);
    UnsignedWrite(ty, dst, EvalBits(op, Width(ty), x, y).value);
  }

  lemma CompareSelected(cmp: CompareOp, ty: Ty, dst: Cell, src1: Cell, src2: Cell, a: int, b: int)
    requires Holds(src1, ty, a) && Holds(src2, ty, b)
    ensures var o := Dispatch(CompareOperatorInst(cmp, ty));
            && o.Some? && Operate(o.value, dst, src1, src2).Some?
            && Holds(Operate(o.value, dst, src1, src2).value, Bool, EvalCompare(cmp, a, b))
  {
    assert Dispatch(CompareOperatorInst(cmp, ty)) == Some(Comparison(TypeView(ty), cmp));
  }

  lemma SingleSelected(single: SingleOp, ty: Ty, dst: Cell, src1: Cell, src2: Cell, a: int)
    requires ty != Bool && (single.Negate? ==> IsSigned(ty)) && Holds(src1, ty, a)
    ensures var o := Dispatch(SingleOperatorInst(single, ty));
            && o.Some? && Operate(o.value, dst, src1, src2).Some?
            && Holds(Operate(o.value, dst, src1, src2).value, ty, EvalSingle(single, ty, a))
  {
    hide Dispatch, SingleOperatorInst, Write, Bits, Wrap, Holds, InRange;
    SingleDispatch(single, ty);
    ViewedAs(src1, ty, a);
    if single.Negate? {
      WrapInRange(ty, -a);
      WriteHolds(ty, dst, Wrap(ty, -a));
    } else {
      var uty := if Is64(ty) then UInt64 else UInt32;
      UnsignedView(src1, ty, a);
      BitsAgain(ty, a);
      UnsignedWrite(ty, dst, Modulus(ty) - 1 - Bits(ty, a));
    }
  }

  lemma SingleDispatch(single: SingleOp, ty: Ty)
    requires ty != Bool && (single.Negate? ==> IsSigned(ty))
    ensures Dispatch(SingleOperatorInst(single, ty)) ==
            Some(Unary(TypeView(if single.Negate? then ty else if Is64(ty) then UInt64 else UInt32), single))
  {
  }

  lemma ViewedAs(c: Cell, ty: Ty, v: int)
    requires Holds(c, ty, v)
    ensures Read(TypeView(ty), c) == v && InRange(ty, v)
  {
  }

  lemma BitsAgain(ty: Ty, a: int)
    requires ty != Bool
    ensures var uty := if Is64(ty) then UInt64 else UInt32;
            Bits(uty, Bits(ty, a)) == Bits(ty, a) < Modulus(ty) == Modulus(uty) && Width(uty) == Width(ty)
  {
  }

  /** A cell that shows a value, extended to 64 bits when that is known of it. */
  predicate Shows(c: Cell, ty: Ty, v: Value) {
    v.ty == ty && Holds(c, ty, v.n) && (v.whole ==> Holds(c, Widest(ty), v.n))
  }

  /** The cell shows a value that may stand where `ty` is asked for. */
  predicate Passes(c: Cell, ty: Ty, v: Value) {
    Promotes(v.ty, ty) && Shows(c, v.ty, v)
  }

  /**
    A 32-bit value is seen unchanged through the 64-bit view of its register exactly when
    the high half is its extension.
   */
  lemma PromotedRead(c: Cell, ty: Ty, v: int)
    requires (ty == Int32 || ty == UInt32) && Holds(c, ty, v)
    ensures Read(TypeView(Widest(ty)), c) == v <==> c.hi == if v < 0 then TWO_32 - 1 else 0
  {
  }

  /** Every value can be in a register that shows another one through the 64-bit view. */
  lemma HighHalfIsStale(ty: Ty, v: int, hi: U32)
    requires !Is64(ty) && InRange(ty, v)
    ensures Holds(Cell(v % TWO_32, hi), ty, v)
    ensures Holds(Cell(v % TWO_32, hi), Widest(ty), v) <==> hi == if v < 0 then TWO_32 - 1 else 0
  {
  }

  lemma ComputedShown(c: Cell, ty: Ty, v: int)
    requires Holds(c, ty, v)
    ensures Shows(c, ty, Computed(ty, v))
  {
  }
}
