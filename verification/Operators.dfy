/**
  What the instructions selected for the operators leave in a register, in terms of the
  numbers and bits that the operands show. The source meaning of an operator is the same
  function, so these laws are about both.
 */
module Operators {
  import opened Options
  import opened Values
  import opened Bytecode
  import opened Registers

  /** What an instruction leaves in its destination. */
  function Left(inst: nat, dst: Cell, x: Cell, y: Cell): Option<Cell> {
    match Dispatch(inst)
    case None => None
    case Some(o) => Operate(o, dst, x, y)
  }

  /** The number a register shows through the view of a type. */
  function Shown(ty: Ty, c: Cell): int {
    Read(TypeView(ty), c)
  }

  /** The bits of a register that belong to a type, read without a sign. */
  function Raw(ty: Ty, c: Cell): nat {
    if Is64(ty) then Raw64(c) else c.lo
  }

  /** A 32-bit instruction leaves the high half of its destination alone. */
  predicate HighKept(ty: Ty, dst: Cell, c: Cell) {
    !Is64(ty) ==> c.hi == dst.hi
  }

  /** Two numbers with the same bits. */
  predicate Same(ty: Ty, a: int, b: int) {
    (a - b) % Modulus(ty) == 0
  }

  function Power(n: nat): nat {
    if n == 0 then 1 else 2 * Power(n - 1)
  }

  function Bit(n: nat, k: nat): nat {
    if k == 0 then n % 2 else Bit(n / 2, k - 1)
  }

  lemma ShownRaw(ty: Ty, c: Cell)
    requires ty != Bool
    ensures InRange(ty, Shown(ty, c)) && Raw(ty, c) < Modulus(ty)
    ensures Shown(ty, c) == Raw(ty, c) || Shown(ty, c) == Raw(ty, c) - Modulus(ty)
    ensures Bits(ty, Shown(ty, c)) == Raw(ty, c)
  {
  }

  // ----- comparisons -----

  /** The instruction leaves a truth value, for every pair of registers. */
  predicate Flags(cmp: CompareOp, ty: Ty, dst: Cell, x: Cell, y: Cell, b: bool) {
    var c := Left(CompareOperatorInst(cmp, ty), dst, x, y);
    && c.Some? && Raw(ty, c.value) == (if b then 1 else 0) && HighKept(ty, dst, c.value)
  }

  /** The comparisons are the numeric order of what the two registers show. */
  lemma Ordered(ty: Ty, dst: Cell, x: Cell, y: Cell)
    ensures Flags(Gt, ty, dst, x, y, Shown(ty, x) - Shown(ty, y) > 0)
    ensures Flags(Lt, ty, dst, x, y, Shown(ty, y) - Shown(ty, x) > 0)
    ensures Flags(Ge, ty, dst, x, y, !(Shown(ty, y) - Shown(ty, x) > 0))
    ensures Flags(Le, ty, dst, x, y, !(Shown(ty, x) - Shown(ty, y) > 0))
    ensures Flags(Eq, ty, dst, x, y, Raw(ty, x) == Raw(ty, y))
    ensures Flags(Ne, ty, dst, x, y, Raw(ty, x) != Raw(ty, y))
  {
    hide Flags, Shown, Raw;
    var a, b := Shown(ty, x), Shown(ty, y);
    SameBits(ty, x, y);
    FlagLeft(Gt, ty, dst, x, y, a - b > 0);
    FlagLeft(Lt, ty, dst, x, y, b - a > 0);
    FlagLeft(Ge, ty, dst, x, y, !(b - a > 0));
    FlagLeft(Le, ty, dst, x, y, !(a - b > 0));
    FlagLeft(Eq, ty, dst, x, y, Raw(ty, x) == Raw(ty, y));
    FlagLeft(Ne, ty, dst, x, y, Raw(ty, x) != Raw(ty, y));
  }

  lemma FlagLeft(cmp: CompareOp, ty: Ty, dst: Cell, x: Cell, y: Cell, b: bool)
    requires b == Compare(cmp, Shown(ty, x), Shown(ty, y))
    ensures Flags(cmp, ty, dst, x, y, b)
  {
    hide Dispatch, CompareOperatorInst, Compare;
    CompareDispatch(cmp, ty);
  }

  /** Two registers show one number exactly when they have the same bits. */
  lemma SameBits(ty: Ty, x: Cell, y: Cell)
    ensures Shown(ty, x) == Shown(ty, y) <==> Raw(ty, x) == Raw(ty, y)
  {
  }

  lemma CompareDispatch(cmp: CompareOp, ty: Ty)
    ensures Dispatch(CompareOperatorInst(cmp, ty)) == Some(Comparison(TypeView(ty), cmp))
  {
  }

  /** Less is greater with the operands exchanged, and the others follow from the two. */
  lemma Exchanged(ty: Ty, dst: Cell, x: Cell, y: Cell)
    ensures Left(CompareOperatorInst(Lt, ty), dst, x, y) == Left(CompareOperatorInst(Gt, ty), dst, y, x)
    ensures Left(CompareOperatorInst(Le, ty), dst, x, y) == Left(CompareOperatorInst(Ge, ty), dst, y, x)
  {
    hide Dispatch, CompareOperatorInst;
    CompareDispatch(Lt, ty);
    CompareDispatch(Gt, ty);
    CompareDispatch(Le, ty);
    CompareDispatch(Ge, ty);
  }

  // ----- sums, differences and products -----

  predicate Leaves(op: DualOp, ty: Ty, dst: Cell, x: Cell, y: Cell, n: int)
    requires ty != Bool
  {
    var c := Left(DualOperatorInst(op, ty), dst, x, y);
    && c.Some? && Same(ty, Raw(ty, c.value), n) && HighKept(ty, dst, c.value)
  }

  lemma Wrapped(ty: Ty, dst: Cell, v: int)
    requires ty != Bool
    ensures var c := Write(TypeView(ty), dst, Wrap(ty, v)); Same(ty, Raw(ty, c), v) && HighKept(ty, dst, c)
  {
    WrappedRaw(ty, dst, v);
    SameRemainder(ty, v);
  }

  lemma WrappedRaw(ty: Ty, dst: Cell, v: int)
    requires ty != Bool
    ensures var c := Write(TypeView(ty), dst, Wrap(ty, v)); Raw(ty, c) == v % Modulus(ty) && HighKept(ty, dst, c)
  {
    var u := v % Modulus(ty);
    assert Wrap(ty, v) % Modulus(ty) == u;
    if Is64(ty) {
      RawWritten(u);
    }
  }

  lemma SameMultiple(ty: Ty, a: int, b: int, k: int)
    requires a - b == k * Modulus(ty)
    ensures Same(ty, a, b)
  {
  }

  lemma SameIs(ty: Ty, a: int, b: int) returns (k: int)
    requires Same(ty, a, b)
    ensures a - b == k * Modulus(ty)
  {
    k := (a - b) / Modulus(ty);
  }

  lemma SameTransitive(ty: Ty, a: int, b: int, c: int)
    requires Same(ty, a, b) && Same(ty, b, c)
    ensures Same(ty, a, c)
  {
  }

  lemma SameShown(ty: Ty, c: Cell) returns (k: int)
    requires ty != Bool
    ensures Shown(ty, c) - Raw(ty, c) == k * Modulus(ty)
  {
    ShownRaw(ty, c);
    k := if Shown(ty, c) == Raw(ty, c) then 0 else -1;
  }

  lemma ProductSame(ty: Ty, a: int, b: int, x: int, y: int, i: int, j: int)
    requires a - x == i * Modulus(ty) && b - y == j * Modulus(ty)
    ensures Same(ty, a * b, x * y)
  {
    var m := Modulus(ty);
    var k := i * y + x * j + i * j * m;
    calc {
      a * b;
      (x + i * m) * (y + j * m);
      x * y + x * (j * m) + (i * m) * y + (i * m) * (j * m);
      x * y + (x * j) * m + (i * y) * m + (i * j * m) * m;
      x * y + k * m;
    }
    SameMultiple(ty, a * b, x * y, k);
  }

  /** The bits left are those of the sum, the difference and the product. */
  lemma RingOperators(ty: Ty, dst: Cell, x: Cell, y: Cell)
    requires ty != Bool
    ensures Leaves(Plus, ty, dst, x, y, Raw(ty, x) + Raw(ty, y))
    ensures Leaves(Minus, ty, dst, x, y, Raw(ty, x) - Raw(ty, y))
    ensures Leaves(Mult, ty, dst, x, y, Raw(ty, x) * Raw(ty, y))
  {
    hide Dispatch, DualOperatorInst, Write, Wrap, Raw, Same, InRange, Bits, HighKept, Modulus;
    DualDispatch(Plus, ty);
    DualDispatch(Minus, ty);
    DualDispatch(Mult, ty);
    var a, b := Shown(ty, x), Shown(ty, y);
    var i := SameShown(ty, x);
    var j := SameShown(ty, y);
    SumSame(ty, a, b, Raw(ty, x), Raw(ty, y), i, j);
    ProductSame(ty, a, b, Raw(ty, x), Raw(ty, y), i, j);
    OneLeaves(Plus, ty, dst, x, y, a + b, Raw(ty, x) + Raw(ty, y));
    OneLeaves(Minus, ty, dst, x, y, a - b, Raw(ty, x) - Raw(ty, y));
    OneLeaves(Mult, ty, dst, x, y, a * b, Raw(ty, x) * Raw(ty, y));
  }

  lemma SumSame(ty: Ty, a: int, b: int, x: int, y: int, i: int, j: int)
    requires a - x == i * Modulus(ty) && b - y == j * Modulus(ty)
    ensures Same(ty, a + b, x + y) && Same(ty, a - b, x - y)
  {
    assert (i + j) * Modulus(ty) == i * Modulus(ty) + j * Modulus(ty);
    assert (i - j) * Modulus(ty) == i * Modulus(ty) - j * Modulus(ty);
    SameMultiple(ty, a + b, x + y, i + j);
    SameMultiple(ty, a - b, x - y, i - j);
  }

  lemma OneLeaves(op: DualOp, ty: Ty, dst: Cell, x: Cell, y: Cell, v: int, n: int)
    requires ty != Bool && (op.Plus? || op.Minus? || op.Mult?) && Same(ty, v, n)
    requires EvalDual(op, ty, Shown(ty, x), Shown(ty, y)) == Some(Wrap(ty, v))
    ensures Leaves(op, ty, dst, x, y, n)
  {
    hide Dispatch, DualOperatorInst, EvalDual, Write, Wrap, Raw, Same, HighKept;
    DualDispatch(op, ty);
    ViewTypeOf(ty);
    Wrapped(ty, dst, v);
    SameTransitive(ty, Raw(ty, Write(TypeView(ty), dst, Wrap(ty, v))), v, n);
  }

  lemma ViewTypeOf(ty: Ty)
    requires ty != Bool
    ensures ViewType(TypeView(ty)) == ty
  {
  }

  // ----- quotient and remainder -----

  /** Everything can be divided except by zero, and the least signed number by -1. */
  predicate Divisible(ty: Ty, x: Cell, y: Cell)
    requires ty != Bool
  {
    Shown(ty, y) != 0 && !(IsSigned(ty) && 2 * Shown(ty, x) + Modulus(ty) == 0 && Shown(ty, y) == -1)
  }

  /**
    The quotient times the divisor and the remainder make the dividend; the remainder is
    less than the divisor and has the dividend's sign.
   */
  lemma Division(ty: Ty, dst: Cell, x: Cell, y: Cell)
    requires ty != Bool
    ensures var q, r := Left(DualOperatorInst(Div, ty), dst, x, y), Left(DualOperatorInst(Mod, ty), dst, x, y);
            && (q.Some? <==> Divisible(ty, x, y)) && (r.Some? <==> Divisible(ty, x, y))
            && (q.Some? && r.Some? ==>
                  && HighKept(ty, dst, q.value) && HighKept(ty, dst, r.value)
                  && Shown(ty, q.value) * Shown(ty, y) + Shown(ty, r.value) == Shown(ty, x)
                  && Magnitude(Shown(ty, r.value)) < Magnitude(Shown(ty, y))
                  && (if Shown(ty, x) >= 0 then Shown(ty, r.value) >= 0 else Shown(ty, r.value) <= 0))
  {
    hide Dispatch, DualOperatorInst, Write, HighKept, TruncDiv, TruncMod, Holds, Read, Modulus;
    DualDispatch(Div, ty);
    DualDispatch(Mod, ty);
    ViewTypeOf(ty);
    ShownRaw(ty, x);
    ShownRaw(ty, y);
    var a, b := Shown(ty, x), Shown(ty, y);
    if b != 0 {
      Truncated(a, b);
      QuotientFits(ty, a, b);
      if InRange(ty, TruncDiv(a, b)) {
        DualInRange(Mod, ty, a, b);
        ShownLeft(ty, dst, TruncDiv(a, b));
        ShownLeft(ty, dst, TruncMod(a, b));
      }
    }
  }

  function Magnitude(n: int): nat {
    if n < 0 then -n else n
  }

  lemma Truncated(a: int, b: int)
    requires b != 0
    ensures TruncDiv(a, b) * b + TruncMod(a, b) == a && Magnitude(TruncMod(a, b)) < Magnitude(b)
    ensures if a >= 0 then TruncMod(a, b) >= 0 else TruncMod(a, b) <= 0
  {
    TruncModRange(a, b);
    var m, n := Magnitude(a), Magnitude(b);
    assert m == m / n * n + m % n;
  }

  lemma QuotientFits(ty: Ty, a: int, b: int)
    requires ty != Bool && InRange(ty, a) && InRange(ty, b) && b != 0
    ensures InRange(ty, TruncDiv(a, b)) <==> !(IsSigned(ty) && 2 * a + Modulus(ty) == 0 && b == -1)
  {
    var m, n := Magnitude(a), Magnitude(b);
    QuotientBound(m, n);
    QuotientSign(a, b);
    hide TruncDiv, Magnitude;
    assert m == 0 <==> a == 0;
  }

  lemma QuotientSign(a: int, b: int)
    requires b != 0
    ensures TruncDiv(a, b) == var q: int := Magnitude(a) / Magnitude(b); if (a >= 0) == (b > 0) then q else -q
    ensures Magnitude(a) == (if a < 0 then -a else a) && Magnitude(b) == if b < 0 then -b else b
  {
  }

  lemma QuotientBound(m: nat, n: nat)
    requires n > 0
    ensures 0 <= m / n <= m && (n == 1 ==> m / n == m) && (n > 1 && m > 0 ==> m / n < m)
  {
    var q := m / n;
    assert q * n <= m by { assert m == q * n + m % n; }
    if n > 1 {
      Grows(q, 2, n);
    }
    Grows(q, 1, n);
  }

  lemma Grows(q: nat, k: nat, n: nat)
    requires k <= n
    ensures q * k <= q * n
  {
  }

  lemma ShownLeft(ty: Ty, dst: Cell, v: int)
    requires ty != Bool && InRange(ty, v)
    ensures var c := Write(TypeView(ty), dst, v); Shown(ty, c) == v && HighKept(ty, dst, c)
  {
    WriteHolds(ty, dst, v);
  }

  // ----- bits -----

  function Unsigned(ty: Ty): Ty
    requires ty != Bool
  {
    if Is64(ty) then UInt64 else UInt32
  }

  function BitsLeft(op: DualOp, ty: Ty, dst: Cell, x: Cell, y: Cell): Option<Cell>
    requires ty != Bool
  {
    Left(DualOperatorInst(op, ty), dst, x, y)
  }

  lemma {:induction false} BitwiseBits(f: BitFn, n: nat, x: nat, y: nat, k: nat)
    requires k < n
    ensures Bit(Bitwise(f, n, x, y), k)
            == match f
               case AndFn => if Bit(x, k) == 1 && Bit(y, k) == 1 then 1 else 0
               case OrFn => if Bit(x, k) == 0 && Bit(y, k) == 0 then 0 else 1
               case XorFn => if Bit(x, k) == Bit(y, k) then 0 else 1
  {
    var rest := Bitwise(f, n - 1, x / 2, y / 2);
    assert (BitOf(f, x, y) + 2 * rest) / 2 == rest && (BitOf(f, x, y) + 2 * rest) % 2 == BitOf(f, x, y);
    if k > 0 {
      BitwiseBits(f, n - 1, x / 2, y / 2, k - 1);
    }
  }

  lemma {:induction false} BitwiseBound(f: BitFn, n: nat, x: nat, y: nat)
    ensures Bitwise(f, n, x, y) < Power(n)
  {
    if n > 0 {
      BitwiseBound(f, n - 1, x / 2, y / 2);
    }
  }

  lemma WidthPower(ty: Ty)
    requires ty != Bool
    ensures Power(Width(ty)) == Modulus(ty)
  {
    assert Power(8) == 0x100 && Power(16) == 0x1_0000 && Power(24) == 0x100_0000;
    assert Power(32) == TWO_32 && Power(40) == 0x100_0000_0000 && Power(48) == 0x1_0000_0000_0000;
    assert Power(56) == 0x100_0000_0000_0000 && Power(64) == TWO_64;
  }

  /** The instruction works on the bits of both registers, whatever the sign of their type. */
  lemma BitsWorked(op: DualOp, ty: Ty, dst: Cell, x: Cell, y: Cell)
    requires ty != Bool && (op.BitAnd? || op.BitOr? || op.BitXor? || op.ShiftLeft? || op.ShiftRight?)
    ensures var n, c := EvalBits(op, Width(ty), Raw(ty, x), Raw(ty, y)), BitsLeft(op, ty, dst, x, y);
            && (c.Some? <==> n.Some?)
            && (n.Some? && c.Some? ==> Raw(ty, c.value) == n.value % Modulus(ty) && HighKept(ty, dst, c.value))
  {
    hide Dispatch, DualOperatorInst, EvalBits, Write, Wrap, Modulus;
    var uty := Unsigned(ty);
    DualDispatch(op, ty);
    RawBits(ty, x);
    RawBits(ty, y);
    var n := EvalBits(op, Width(ty), Raw(ty, x), Raw(ty, y));
    if n.Some? {
      WrappedRaw(uty, dst, n.value);
    }
  }

  lemma RawBits(ty: Ty, c: Cell)
    requires ty != Bool
    ensures Bits(Unsigned(ty), Read(TypeView(Unsigned(ty)), c)) == Raw(ty, c) == Raw(Unsigned(ty), c) < Modulus(ty)
    ensures Width(Unsigned(ty)) == Width(ty) && Modulus(Unsigned(ty)) == Modulus(ty)
    ensures ViewType(TypeView(Unsigned(ty))) == Unsigned(ty)
  {
  }

  predicate BitLeft(ty: Ty, c: Option<Cell>, k: nat, b: bool) {
    c.Some? && Bit(Raw(ty, c.value), k) == if b then 1 else 0
  }

  /** And, or and exclusive or, bit by bit. */
  lemma BitByBit(ty: Ty, dst: Cell, x: Cell, y: Cell, k: nat)
    requires ty != Bool && k < Width(ty)
    ensures var i, j := Bit(Raw(ty, x), k), Bit(Raw(ty, y), k);
            && BitLeft(ty, BitsLeft(BitAnd, ty, dst, x, y), k, i == 1 && j == 1)
            && BitLeft(ty, BitsLeft(BitOr, ty, dst, x, y), k, i == 1 || j == 1)
            && BitLeft(ty, BitsLeft(BitXor, ty, dst, x, y), k, i != j)
  {
    hide Dispatch, DualOperatorInst, Left, BitsLeft, Bitwise, Raw, HighKept, Bit;
    WidthPower(ty);
    var n, a, b := Width(ty), Raw(ty, x), Raw(ty, y);
    BitRange(a, k);
    BitRange(b, k);
    BitsWorked(BitAnd, ty, dst, x, y);
    BitsWorked(BitOr, ty, dst, x, y);
    BitsWorked(BitXor, ty, dst, x, y);
    BitwiseBound(AndFn, n, a, b);
    BitwiseBound(OrFn, n, a, b);
    BitwiseBound(XorFn, n, a, b);
    BitwiseBits(AndFn, n, a, b, k);
    BitwiseBits(OrFn, n, a, b, k);
    BitwiseBits(XorFn, n, a, b, k);
  }

  lemma {:induction false} BitRange(n: nat, k: nat)
    ensures Bit(n, k) == 0 || Bit(n, k) == 1
  {
    if k > 0 {
      BitRange(n / 2, k - 1);
    }
  }

  // ----- shifts -----

  /** A shift by less than the width multiplies by a power of two, or divides by it. */
  lemma Shifts(ty: Ty, dst: Cell, x: Cell, y: Cell)
    requires ty != Bool
    ensures var n, up, down := Raw(ty, y), BitsLeft(ShiftLeft, ty, dst, x, y), BitsLeft(ShiftRight, ty, dst, x, y);
            && (up.Some? <==> n < Width(ty)) && (down.Some? <==> n < Width(ty))
            && (up.Some? ==> Same(ty, Raw(ty, up.value), Raw(ty, x) * Power(n)) && HighKept(ty, dst, up.value))
            && (down.Some? ==>
                  && Raw(ty, down.value) * Power(n) <= Raw(ty, x) < (Raw(ty, down.value) + 1) * Power(n)
                  && HighKept(ty, dst, down.value))
  {
    hide Width, Left, BitsLeft, Raw, HighKept, Power, Same;
    ShiftsUp(ty, dst, x, y);
    ShiftsDown(ty, dst, x, y);
  }

  lemma ShiftsUp(ty: Ty, dst: Cell, x: Cell, y: Cell)
    requires ty != Bool
    ensures var n, up := Raw(ty, y), BitsLeft(ShiftLeft, ty, dst, x, y);
            && (up.Some? <==> n < Width(ty))
            && (up.Some? ==> Same(ty, Raw(ty, up.value), Raw(ty, x) * Power(n)) && HighKept(ty, dst, up.value))
  {
    hide Dispatch, DualOperatorInst, Left, BitsLeft, Raw, HighKept, Power, Same;
    BitsWorked(ShiftLeft, ty, dst, x, y);
    ShiftedUp(Raw(ty, x), Raw(ty, y));
    SameRemainder(ty, ShiftUp(Raw(ty, x), Raw(ty, y)));
  }

  lemma ShiftsDown(ty: Ty, dst: Cell, x: Cell, y: Cell)
    requires ty != Bool
    ensures var n, down := Raw(ty, y), BitsLeft(ShiftRight, ty, dst, x, y);
            && (down.Some? <==> n < Width(ty))
            && (down.Some? ==>
                  && Raw(ty, down.value) * Power(n) <= Raw(ty, x) < (Raw(ty, down.value) + 1) * Power(n)
                  && HighKept(ty, dst, down.value))
  {
    hide Dispatch, DualOperatorInst, Left, BitsLeft, Raw, HighKept, Power, ShiftDown;
    RawBits(ty, x);
    BitsWorked(ShiftRight, ty, dst, x, y);
    ShiftedDown(Raw(ty, x), Raw(ty, y));
    Unwrapped(ShiftDown(Raw(ty, x), Raw(ty, y)), Modulus(ty));
  }

  lemma Unwrapped(n: nat, m: nat)
    requires n < m
    ensures n % m == n
  {
  }

  lemma SameRemainder(ty: Ty, v: int)
    ensures Same(ty, v % Modulus(ty), v)
  {
    assert v == v / Modulus(ty) * Modulus(ty) + v % Modulus(ty);
    SameMultiple(ty, v % Modulus(ty), v, -(v / Modulus(ty)));
  }

  lemma {:induction false} ShiftedUp(x: nat, n: nat)
    ensures ShiftUp(x, n) == x * Power(n)
  {
    if n > 0 {
      ShiftedUp(x, n - 1);
    }
  }

  lemma {:induction false} ShiftedDown(x: nat, n: nat)
    ensures ShiftDown(x, n) * Power(n) <= x < (ShiftDown(x, n) + 1) * Power(n) && ShiftDown(x, n) <= x
  {
    if n > 0 {
      ShiftedDown(x, n - 1);
      var d, p := ShiftDown(x, n - 1), Power(n - 1);
      Halved(d, p);
    }
  }

  lemma Halved(d: nat, p: nat)
    ensures d / 2 * (2 * p) <= d * p && (d + 1) * p <= (d / 2 + 1) * (2 * p)
  {
    var h := d / 2;
    assert d == 2 * h || d == 2 * h + 1;
    assert h * (2 * p) == 2 * h * p && (h + 1) * (2 * p) == (2 * h + 2) * p;
    Grows(p, 2 * h, d);
    Grows(p, d + 1, 2 * h + 2);
  }

  // ----- one operand -----

  /** A number and its negative make zero, a number and its complement all ones. */
  lemma Inverses(ty: Ty, dst: Cell, x: Cell)
    requires ty != Bool
    ensures IsSigned(ty) ==>
              var c := Left(SingleOperatorInst(Negate, ty), dst, x, ZERO_CELL);
              c.Some? && Same(ty, Raw(ty, c.value) + Raw(ty, x), 0) && HighKept(ty, dst, c.value)
    ensures var c := Left(SingleOperatorInst(BitNot, ty), dst, x, ZERO_CELL);
            && c.Some? && Raw(ty, c.value) + Raw(ty, x) == Modulus(ty) - 1 && HighKept(ty, dst, c.value)
            && forall k :: 0 <= k < Width(ty) ==> Bit(Raw(ty, c.value), k) == 1 - Bit(Raw(ty, x), k)
  {
    if IsSigned(ty) {
      Negated(ty, dst, x);
    }
    Complemented(ty, dst, x);
    hide Dispatch, SingleOperatorInst, Left, Raw, HighKept, Bit;
    var c := Left(SingleOperatorInst(BitNot, ty), dst, x, ZERO_CELL).value;
    WidthPower(ty);
    forall k | 0 <= k < Width(ty)
      ensures Bit(Raw(ty, c), k) == 1 - Bit(Raw(ty, x), k)
    {
      ComplementBits(Raw(ty, c), Raw(ty, x), Width(ty), k);
    }
  }

  lemma Negated(ty: Ty, dst: Cell, x: Cell)
    requires IsSigned(ty)
    ensures var c := Left(SingleOperatorInst(Negate, ty), dst, x, ZERO_CELL);
            c.Some? && Same(ty, Raw(ty, c.value) + Raw(ty, x), 0) && HighKept(ty, dst, c.value)
  {
    hide Dispatch, SingleOperatorInst, Write, Wrap, Raw, Same, HighKept, Modulus;
    SingleDispatch(Negate, ty);
    ViewTypeOf(ty);
    var a := Shown(ty, x);
    Wrapped(ty, dst, -a);
    var k := SameShown(ty, x);
    var c := Write(TypeView(ty), dst, Wrap(ty, -a));
    var j := SameIs(ty, Raw(ty, c), -a);
    assert (j - k) * Modulus(ty) == j * Modulus(ty) - k * Modulus(ty);
    SameMultiple(ty, Raw(ty, c) + Raw(ty, x), 0, j - k);
  }

  lemma Complemented(ty: Ty, dst: Cell, x: Cell)
    requires ty != Bool
    ensures var c := Left(SingleOperatorInst(BitNot, ty), dst, x, ZERO_CELL);
            c.Some? && Raw(ty, c.value) + Raw(ty, x) == Modulus(ty) - 1 && HighKept(ty, dst, c.value)
  {
    hide Dispatch, SingleOperatorInst, Write, Wrap, Raw, HighKept;
    SingleDispatch(BitNot, ty);
    RawBits(ty, x);
    WrappedRaw(Unsigned(ty), dst, Modulus(ty) - 1 - Raw(ty, x));
    SameRaw(ty, Write(TypeView(Unsigned(ty)), dst, Wrap(Unsigned(ty), Modulus(ty) - 1 - Raw(ty, x))), dst);
  }

  lemma SameRaw(ty: Ty, c: Cell, dst: Cell)
    requires ty != Bool
    ensures Raw(Unsigned(ty), c) == Raw(ty, c) && (HighKept(Unsigned(ty), dst, c) <==> HighKept(ty, dst, c))
  {
  }

  lemma {:induction false} ComplementBits(a: nat, b: nat, n: nat, k: nat)
    requires a + b == Power(n) - 1 && k < n
    ensures Bit(a, k) == 1 - Bit(b, k)
  {
    assert a % 2 + b % 2 == 1 && a / 2 + b / 2 == Power(n - 1) - 1;
    if k > 0 {
      ComplementBits(a / 2, b / 2, n - 1, k - 1);
    }
  }
}
