/**
  The integer types of the language and the meaning of its operators on them.
  A value is a mathematical integer in the range of its type; arithmetic wraps
  around in two's complement. An operation the machine leaves undefined (a zero
  divisor, the one overflowing quotient, a shift by the whole width or more) has
  no meaning here.
 */
module Values {
  import opened Options

  datatype Ty = Bool | Int32 | UInt32 | Int64 | UInt64

  datatype DualOp = Plus | Minus | Mult | Div | Mod | BitAnd | BitOr | BitXor | ShiftLeft | ShiftRight

  datatype CompareOp = Gt | Ge | Lt | Le | Eq | Ne

  datatype SingleOp = Negate | BitNot

  const TWO_8 := 0x100
  const TWO_16 := 0x1_0000
  const TWO_24 := 0x100_0000
  const TWO_31 := 0x8000_0000
  const TWO_32 := 0x1_0000_0000
  const TWO_63 := 0x8000_0000_0000_0000
  const TWO_64 := 0x1_0000_0000_0000_0000

  predicate Is64(ty: Ty) {
    ty.Int64? || ty.UInt64?
  }

  predicate IsSigned(ty: Ty) {
    ty.Int32? || ty.Int64?
  }

  function Width(ty: Ty): nat {
    if Is64(ty) then 64 else 32
  }

  function Modulus(ty: Ty): nat {
    if Is64(ty) then TWO_64 else TWO_32
  }

  predicate InRange(ty: Ty, v: int) {
    match ty
    case Bool => 0 <= v <= 1
    case Int32 => -TWO_31 <= v < TWO_31
    case UInt32 => 0 <= v < TWO_32
    case Int64 => -TWO_63 <= v < TWO_63
    case UInt64 => 0 <= v < TWO_64
  }

  /** The unsigned view of a value: its bits read as a number. */
  function Bits(ty: Ty, v: int): nat {
    v % Modulus(ty)
  }

  /** The value in the range of `ty` that is congruent to `v`. */
  function Wrap(ty: Ty, v: int): int {
    var u := v % Modulus(ty);
    if IsSigned(ty) && u >= Modulus(ty) / 2 then u - Modulus(ty) else u
  }

  function ShiftUp(x: nat, n: nat): nat {
    if n == 0 then x else 2 * ShiftUp(x, n - 1)
  }

  function ShiftDown(x: nat, n: nat): nat {
    if n == 0 then x else ShiftDown(x, n - 1) / 2
  }

  /** C's division: the quotient is truncated toward zero. */
  function TruncDiv(a: int, b: int): int
    requires b != 0
  {
    if a >= 0 then (if b > 0 then a / b else -(a / -b))
    else (if b > 0 then -(-a / b) else -a / -b)
  }

  function TruncMod(a: int, b: int): int
    requires b != 0
  {
    a - TruncDiv(a, b) * b
  }

  datatype BitFn = AndFn | OrFn | XorFn

  function BitOf(f: BitFn, x: nat, y: nat): nat {
    match f
    case AndFn => if x % 2 == 1 && y % 2 == 1 then 1 else 0
    case OrFn => if x % 2 == 1 || y % 2 == 1 then 1 else 0
    case XorFn => if x % 2 != y % 2 then 1 else 0
  }

  /** The bitwise operator `f` on the low `n` bits of two numbers. */
  function Bitwise(f: BitFn, n: nat, x: nat, y: nat): nat {
    if n == 0 then 0 else BitOf(f, x, y) + 2 * Bitwise(f, n - 1, x / 2, y / 2)
  }

  /** The operators that work on bits, on the low `width` bits of their operands. */
  function EvalBits(op: DualOp, width: nat, x: nat, y: nat): Option<nat>
    requires op.BitAnd? || op.BitOr? || op.BitXor? || op.ShiftLeft? || op.ShiftRight?
  {
    match op
    case BitAnd => Some(Bitwise(AndFn, width, x, y))
    case BitOr => Some(Bitwise(OrFn, width, x, y))
    case BitXor => Some(Bitwise(XorFn, width, x, y))
    case ShiftLeft => if y >= width then None else Some(ShiftUp(x, y))
    case ShiftRight => if y >= width then None else Some(ShiftDown(x, y))
  }

  function EvalDual(op: DualOp, ty: Ty, a: int, b: int): Option<int> {
    match op
    case Plus => Some(Wrap(ty, a + b))
    case Minus => Some(Wrap(ty, a - b))
    case Mult => Some(Wrap(ty, a * b))
    case Div => if b == 0 || !InRange(ty, TruncDiv(a, b)) then None else Some(TruncDiv(a, b))
    case Mod => if b == 0 || !InRange(ty, TruncDiv(a, b)) then None else Some(TruncMod(a, b))
    case _ =>
      match EvalBits(op, Width(ty), Bits(ty, a), Bits(ty, b))
      case None => None
      case Some(n) => Some(Wrap(ty, n))
  }

  predicate Compare(op: CompareOp, a: int, b: int) {
    match op
    case Gt => a > b
    case Ge => a >= b
    case Lt => a < b
    case Le => a <= b
    case Eq => a == b
    case Ne => a != b
  }

  function EvalCompare(op: CompareOp, a: int, b: int): int {
    if Compare(op, a, b) then 1 else 0
  }

  function EvalSingle(op: SingleOp, ty: Ty, a: int): int {
    match op
    case Negate => Wrap(ty, -a)
    case BitNot => Wrap(ty, Modulus(ty) - 1 - Bits(ty, a))
  }

  // ----- typed values -----

  const MAX_INT16 := 32767
  const MIN_INT16 := -32768

  /** A constant that an instruction word carries itself. */
  predicate FitsInBytecode(ty: Ty, v: int) {
    match ty
    case Bool => true
    case Int32 => MIN_INT16 <= v <= MAX_INT16
    case Int64 => MIN_INT16 <= v <= MAX_INT16
    case UInt32 => v < TWO_16
    case UInt64 => v < TWO_16
  }

  /**
    A value with its type. `whole` says that the machine is known to keep the value
    extended to 64 bits; a 32-bit instruction leaves the upper half of its result as it
    found it, so of most 32-bit values this is not known.
   */
  datatype Value = Value(ty: Ty, n: int, whole: bool)

  function Literal(ty: Ty, n: int): Value {
    Value(ty, n, Is64(ty) || FitsInBytecode(ty, n))
  }

  function Computed(ty: Ty, n: int): Value {
    Value(ty, n, Is64(ty))
  }

  /** The 64-bit type with the same signedness. */
  function Widest(ty: Ty): Ty {
    match ty
    case Int32 => Int64
    case UInt32 => UInt64
    case Bool => UInt64
    case _ => ty
  }

  /** A value of the first type may stand where the second is asked for. */
  predicate Promotes(from: Ty, target: Ty) {
    from == target || (!Is64(from) && from != Bool && target == Widest(from))
  }

  lemma WrapInRange(ty: Ty, v: int)
    requires ty != Bool
    ensures InRange(ty, Wrap(ty, v))
    ensures InRange(ty, v) ==> Wrap(ty, v) == v
    ensures Bits(ty, Wrap(ty, v)) == Bits(ty, v)
  {
  }

  lemma TruncModRange(a: int, b: int)
    requires b != 0
    ensures a >= 0 ==> 0 <= TruncMod(a, b) <= a
    ensures a <= 0 ==> a <= TruncMod(a, b) <= 0
  {
    if a >= 0 {
      if b > 0 { DivMod(a, b); } else { DivMod(a, -b); }
    } else {
      if b > 0 { DivMod(-a, b); } else { DivMod(-a, -b); }
    }
  }

  lemma DivMod(a: nat, b: nat)
    requires b > 0
    ensures 0 <= a - (a / b) * b <= a
  {
    assert a == (a / b) * b + a % b;
  }

  /** Whatever an operator yields is a value of its type. */
  lemma DualInRange(op: DualOp, ty: Ty, a: int, b: int)
    requires ty != Bool && InRange(ty, a) && InRange(ty, b)
    requires EvalDual(op, ty, a, b).Some?
    ensures InRange(ty, EvalDual(op, ty, a, b).value)
  {
    match op
    case Mod =>
      TruncModRange(a, b);
    case _ =>
  }
}
