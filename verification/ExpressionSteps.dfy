/** The instructions that end each form of expression, given what its operands left. */
module ExpressionSteps {
  import opened Options
  import opened Values
  import opened Bytecode
  import opened Registers
  import opened RegisterPool
  import opened Ast
  import opened Semantics
  import opened CodeGen
  import opened CodeGenPool
  import opened Checking
  import opened Machine
  import opened CompiledSteps
  import opened CompilerRelation

  /** An expression with a type and a value, about to be computed. */
  ghost predicate ExprReady(w: World, fuel: nat, cx: Context, env: Env, p: Pool, c: nat, e: Expr, target: Option<Key>,
                            s: State) {
    && cx.scopes.depth > 0 && TypeOf(w.p, cx, e).Some? && Eval(w.p, AsCompiled, fuel, env, cx.scopes.depth, e).Some?
    && var g := GenExpr(w.m, cx.scopes, p, c, e, target);
    && g.Emit? && Ready(w, p, g.pool.used, s, g.code)
    && (s.pending.None? || CallFree(e))
    && Represents(env, cx.types, p.owner, s.regs)
  }

  /**
    Its value is in the result register; nothing the pool owns has changed except the
    expression's own temporaries and the target.
   */
  ghost predicate ExprDone(w: World, fuel: nat, cx: Context, env: Env, p: Pool, c: nat, e: Expr, target: Option<Key>,
                           s: State, t: State)
  {
    ExprReady(w, fuel, cx, env, p, c, e, target, s) &&
    var g := GenExpr(w.m, cx.scopes, p, c, e, target);
    && RanTo(w, s, |g.code|, t)
    && 0 <= g.reg < |t.regs|
       && Shows(t.regs[g.reg], TypeOf(w.p, cx, e).value, Eval(w.p, AsCompiled, fuel, env, cx.scopes.depth, e).value)
    && Preserves(p, cx.scopes.depth - 1, c, c + TempCount(e), target, s.regs, t.regs)
  }

  lemma ConstantDone(w: World, fuel: nat, cx: Context, env: Env, p: Pool, c: nat, e: Expr, target: Option<Key>,
                     s: State) returns (t: State)
    requires ExprReady(w, fuel, cx, env, p, c, e, target, s) && e.Constant?
    ensures ExprDone(w, fuel, cx, env, p, c, e, target, s, t)
  {
    hide Inv, Shows, Compiled, Reaches, Represents;
    GenExprOwners(w.m, cx.scopes, p, c, e, target);
    OwnerFacts(p);
    var g := GenExpr(w.m, cx.scopes, p, c, e, target);
    var cell := ConstantCorrect(w, s, e.ty, e.value, g.reg);
    t := RanStep(w, s, 1, s.regs[g.reg := cell]);
    StoreKept(p, cx.scopes.depth - 1, c, c, c, target, ResultKey(cx.scopes, c, e, target), cell, s.regs, s.regs,
              s.regs);
  }

  lemma AccessDone(w: World, fuel: nat, cx: Context, env: Env, p: Pool, c: nat, e: Expr, target: Option<Key>, s: State)
    returns (t: State)
    requires ExprReady(w, fuel, cx, env, p, c, e, target, s) && e.Access?
    ensures ExprDone(w, fuel, cx, env, p, c, e, target, s, t)
  {
    hide Inv, Shows, Compiled, Reaches;
    t := s;
    ReachesItself(w.b, s);
  }

  /** The last instruction of an expression stores the result. */
  lemma Finish(w: World, p: Pool, level: nat, c: nat, e: Expr, target: Option<Key>, key: Key, cell: Cell, s: State,
               n: nat, t1: State)
    returns (t: State)
    requires Inv(p) && key in p.owner && s.Running? && p.used <= |s.regs| && TempCount(e) > 0
    requires RanTo(w, s, n, t1) && Preserves(p, level, c, c + TempCount(e) - 1, None, s.regs, t1.regs)
    requires if target.Some? then key == target.value else key == Temp(level, c + TempCount(e) - 1)
    requires p.owner[key] < |t1.regs| && Step(w.b, t1) == Some(Advance(t1, 1, t1.regs[p.owner[key] := cell]))
    ensures RanTo(w, s, n + 1, t) && t.regs == t1.regs[p.owner[key] := cell]
    ensures Preserves(p, level, c, c + TempCount(e), target, s.regs, t.regs)
  {
    hide Inv, Reaches;
    t := RanStep(w, t1, 1, t1.regs[p.owner[key] := cell]);
    RanOn(w, s, n, t1, 1, t);
    var end := c + TempCount(e) - 1;
    StoreKept(p, level, c, end, end, target, key, cell, s.regs, t1.regs, t1.regs);
  }

  lemma SingleDone(w: World, fuel: nat, cx: Context, env: Env, p: Pool, c: nat, e: Expr, target: Option<Key>, s: State,
                   t1: State)
    returns (t: State)
    requires ExprReady(w, fuel, cx, env, p, c, e, target, s) && e.Single?
    requires ExprDone(w, fuel, cx, env, p, c, e.operand, None, s, t1)
    ensures ExprDone(w, fuel, cx, env, p, c, e, target, s, t)
  {
    hide Inv, Holds, Shows, BothOperands, Compiled, Reaches, Represents, Preserves, Step, PackThreeRegisters,
         PackTwoRegisters, EvalDual, EvalSingle, EvalCompare;
    GenExprOwners(w.m, cx.scopes, p, c, e, target);
    OwnerFacts(p);
    var g, o := GenExpr(w.m, cx.scopes, p, c, e, target), GenExpr(w.m, cx.scopes, p, c, e.operand, None);
    CodeSplit(w.b, s.fn, s.pc, o.code, [PackTwoRegisters(SingleOperatorInst(e.single, e.ty), g.reg, o.reg)]);
    var x := Eval(w.p, AsCompiled, fuel, env, cx.scopes.depth, e.operand).value;
    ShownHolds(t1.regs[o.reg], e.ty, x);
    var cell := StepSingle(w.b, t1, e.single, e.ty, g.reg, o.reg, x.n);
    ComputedShown(cell, e.ty, EvalSingle(e.single, e.ty, x.n));
    t := Finish(w, p, cx.scopes.depth - 1, c, e, target, ResultKey(cx.scopes, c, e, target), cell, s, |o.code|, t1);
  }

  ghost predicate OperandsReady(w: World, fuel: nat, cx: Context, env: Env, p: Pool, c: nat, e: Expr, s: State) {
    && cx.scopes.depth > 0 && (e.Dual? || e.Comparison?)
    && TypeOf(w.p, cx, e).Some? && Eval(w.p, AsCompiled, fuel, env, cx.scopes.depth, e).Some?
    && var o := GenOperands(w.m, cx.scopes, p, c, e);
    && o.Operands? && Ready(w, p, o.pool.used, s, o.code)
    && (s.pending.None? || CallFree(e))
    && Represents(env, cx.types, p.owner, s.regs)
  }

  /** The values of both operands, the right one promoted. */
  function OperandsOf(w: World, fuel: nat, cx: Context, env: Env, e: Expr): Option<(int, int)>
    requires e.Dual? || e.Comparison?
  {
    BothOperands(AsCompiled, e.ty, Eval(w.p, AsCompiled, fuel, env, cx.scopes.depth, e.left),
                 Eval(w.p, AsCompiled, fuel, env, cx.scopes.depth, e.right))
  }

  /** A promoted value is still shown: it was extended, or it is the same. */
  lemma PromotedShown(c: Cell, ty: Ty, v: Value)
    requires Passes(c, ty, v) && Promote(AsCompiled, ty, v).Some?
    ensures Shows(c, ty, Promote(AsCompiled, ty, v).value)
  {
  }

  lemma PassesPromoted(c: Cell, from: Ty, ty: Ty, v: Value)
    requires Shows(c, from, v) && Promotes(from, ty)
    ensures Passes(c, ty, v)
  {
  }

  lemma ShownHolds(c: Cell, ty: Ty, v: Value)
    requires Shows(c, ty, v)
    ensures Holds(c, ty, v.n) && v.ty == ty
  {
  }

  lemma OperandsShown(w: World, fuel: nat, cx: Context, env: Env, e: Expr, left: Cell, right: Cell)
    requires (e.Dual? || e.Comparison?) && TypeOf(w.p, cx, e).Some?
             && Eval(w.p, AsCompiled, fuel, env, cx.scopes.depth, e).Some?
    requires Shows(left, TypeOf(w.p, cx, e.left).value, Eval(w.p, AsCompiled, fuel, env, cx.scopes.depth, e.left).value)
    requires Shows(right, TypeOf(w.p, cx, e.right).value,
                   Eval(w.p, AsCompiled, fuel, env, cx.scopes.depth, e.right).value)
    ensures OperandsOf(w, fuel, cx, env, e).Some?
    ensures Holds(left, e.ty, OperandsOf(w, fuel, cx, env, e).value.0)
            && Holds(right, e.ty, OperandsOf(w, fuel, cx, env, e).value.1)
  {
    hide Holds, EvalDual, EvalCompare;
    PromotedShown(right, e.ty, Eval(w.p, AsCompiled, fuel, env, cx.scopes.depth, e.right).value);
  }

  /** Both operands are in their registers. */
  ghost predicate OperandsDone(w: World, fuel: nat, cx: Context, env: Env, p: Pool, c: nat, e: Expr, s: State, t: State)
  {
    OperandsReady(w, fuel, cx, env, p, c, e, s) &&
    var o := GenOperands(w.m, cx.scopes, p, c, e);
    var values := OperandsOf(w, fuel, cx, env, e);
    && RanTo(w, s, |o.code|, t) && values.Some?
    && 0 <= o.reg1 < |t.regs| && Holds(t.regs[o.reg1], e.ty, values.value.0)
    && 0 <= o.reg2 < |t.regs| && Holds(t.regs[o.reg2], e.ty, values.value.1)
    && Preserves(p, cx.scopes.depth - 1, c, c + TempCount(e) - 1, None, s.regs, t.regs)
  }

  lemma OperandsStart(w: World, fuel: nat, cx: Context, env: Env, p: Pool, c: nat, e: Expr, target: Option<Key>,
                      s: State)
    requires ExprReady(w, fuel, cx, env, p, c, e, target, s) && (e.Dual? || e.Comparison?)
    ensures OperandsReady(w, fuel, cx, env, p, c, e, s)
  {
    hide Inv, Compiled, Represents;
    var g, o := GenExpr(w.m, cx.scopes, p, c, e, target), GenOperands(w.m, cx.scopes, p, c, e);
    assert g.code == o.code + g.code[|o.code|..];
    CodeSplit(w.b, s.fn, s.pc, o.code, g.code[|o.code|..]);
  }

  lemma OperandsKept(p: Pool, p1: Pool, level: nat, c: nat, mid: nat, end: nat, key: Key, regs: seq<Cell>,
                     regs1: seq<Cell>, regs2: seq<Cell>)
    requires c <= mid <= end && SameOwners(p, p1) && key in p.owner && (key.Named? || TempIn(key, level, c, mid))
    requires Preserves(p, level, c, mid, None, regs, regs1) && Preserves(p1, level, mid, end, None, regs1, regs2)
    ensures Preserves(p, level, c, end, None, regs, regs2)
    ensures p.owner[key] < |regs| ==> regs2[p.owner[key]] == regs1[p.owner[key]]
  {
    hide Inv;
  }

  /** The left operand was computed, then the right one. */
  lemma OperandsFinished(w: World, fuel: nat, cx: Context, env: Env, p: Pool, c: nat, e: Expr, s: State, t1: State,
                         t: State)
    requires OperandsReady(w, fuel, cx, env, p, c, e, s)
    requires ExprDone(w, fuel, cx, env, p, c, e.left, None, s, t1)
    requires var p1 := GenExpr(w.m, cx.scopes, p, c, e.left, None).pool;
             ExprDone(w, fuel, cx, env, p1, c + TempCount(e.left), e.right, None, t1, t)
    ensures OperandsDone(w, fuel, cx, env, p, c, e, s, t)
  {
    hide Inv, Shows, Holds, Compiled, Reaches, CodeAt, Represents, Preserves, EvalDual, GenExpr, Eval,
         BothOperands, ExprReady;
    var mid := c + TempCount(e.left);
    var g1 := GenExpr(w.m, cx.scopes, p, c, e.left, None);
    var g2 := GenExpr(w.m, cx.scopes, g1.pool, mid, e.right, None);
    GenExprOwners(w.m, cx.scopes, p, c, e.left, None);
    GenExprOwners(w.m, cx.scopes, g1.pool, mid, e.right, None);
    RanOn(w, s, |g1.code|, t1, |g2.code|, t);
    ResultKeyRange(w, cx, c, e.left);
    OperandsKept(p, g1.pool, cx.scopes.depth - 1, c, mid, mid + TempCount(e.right),
                 ResultKey(cx.scopes, c, e.left, None), s.regs, t1.regs, t.regs);
    OperandsShown(w, fuel, cx, env, e, t.regs[g1.reg], t.regs[g2.reg]);
  }

  lemma DualDone(w: World, fuel: nat, cx: Context, env: Env, p: Pool, c: nat, e: Expr, target: Option<Key>, s: State,
                 t1: State)
    returns (t: State)
    requires ExprReady(w, fuel, cx, env, p, c, e, target, s) && e.Dual?
    requires OperandsDone(w, fuel, cx, env, p, c, e, s, t1)
    ensures ExprDone(w, fuel, cx, env, p, c, e, target, s, t)
  {
    hide Inv, Holds, Shows, BothOperands, Compiled, Reaches, Represents, Preserves, Step, PackThreeRegisters,
         PackTwoRegisters, EvalDual, EvalSingle, EvalCompare;
    GenExprOwners(w.m, cx.scopes, p, c, e, target);
    OwnerFacts(p);
    var g, o := GenExpr(w.m, cx.scopes, p, c, e, target), GenOperands(w.m, cx.scopes, p, c, e);
    var x, y := OperandsOf(w, fuel, cx, env, e).value.0, OperandsOf(w, fuel, cx, env, e).value.1;
    CodeSplit(w.b, s.fn, s.pc, o.code, [PackThreeRegisters(DualOperatorInst(e.op, e.ty), g.reg, o.reg1, o.reg2)]);
    var cell := StepDual(w.b, t1, e.op, e.ty, g.reg, o.reg1, o.reg2, x, y);
    ComputedShown(cell, e.ty, EvalDual(e.op, e.ty, x, y).value);
    t := Finish(w, p, cx.scopes.depth - 1, c, e, target, ResultKey(cx.scopes, c, e, target), cell, s, |o.code|, t1);
  }

  lemma CompareDone(w: World, fuel: nat, cx: Context, env: Env, p: Pool, c: nat, e: Expr, target: Option<Key>,
                    s: State, t1: State)
    returns (t: State)
    requires ExprReady(w, fuel, cx, env, p, c, e, target, s) && e.Comparison?
    requires OperandsDone(w, fuel, cx, env, p, c, e, s, t1)
    ensures ExprDone(w, fuel, cx, env, p, c, e, target, s, t)
  {
    hide Inv, Holds, Shows, BothOperands, Compiled, Reaches, Represents, Preserves, Step, PackThreeRegisters,
         PackTwoRegisters, EvalDual, EvalSingle, EvalCompare;
    GenExprOwners(w.m, cx.scopes, p, c, e, target);
    OwnerFacts(p);
    var g, o := GenExpr(w.m, cx.scopes, p, c, e, target), GenOperands(w.m, cx.scopes, p, c, e);
    var x, y := OperandsOf(w, fuel, cx, env, e).value.0, OperandsOf(w, fuel, cx, env, e).value.1;
    CodeSplit(w.b, s.fn, s.pc, o.code, [PackThreeRegisters(CompareOperatorInst(e.cmp, e.ty), g.reg, o.reg1, o.reg2)]);
    var cell := StepCompare(w.b, t1, e.cmp, e.ty, g.reg, o.reg1, o.reg2, x, y);
    ComputedShown(cell, Bool, EvalCompare(e.cmp, x, y));
    t := Finish(w, p, cx.scopes.depth - 1, c, e, target, ResultKey(cx.scopes, c, e, target), cell, s, |o.code|, t1);
  }
}
