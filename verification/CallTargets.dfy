/** Every LOAD_FUNCTION in the code of a checked program asks for a function that exists. */
module CallTargets {
  import opened Options
  import opened Values
  import opened Bytecode
  import opened Registers
  import opened RegisterPool
  import opened Ast
  import opened Semantics
  import opened CodeGen
  import opened Checking
  import opened Machine
  import opened CompilerRelation

  // ----- the functions a tree calls -----

  predicate ExprCalls(e: Expr, n: nat) {
    match e
    case Constant(_, _) => true
    case Access(_) => true
    case Dual(_, _, l, r) => ExprCalls(l, n) && ExprCalls(r, n)
    case Comparison(_, _, l, r) => ExprCalls(l, n) && ExprCalls(r, n)
    case Single(_, _, operand) => ExprCalls(operand, n)
    case Call(callee, args) => callee < n && forall i :: 0 <= i < |args| ==> ExprCalls(args[i], n)
  }

  predicate StmtCalls(s: Stmt, n: nat) {
    match s
    case Declare(_, init) => ExprCalls(init, n)
    case Assign(_, _, _, value) => ExprCalls(value, n)
    case Evaluate(e) => ExprCalls(e, n)
    case If(cond) => ConditionCalls(cond, n)
    case While(test, body) => ExprCalls(test, n) && BlockCalls(body, n)
    case Return(result) => result.Some? ==> ExprCalls(result.value, n)
  }

  predicate BlockCalls(b: Block, n: nat) {
    forall i :: 0 <= i < |b.stmts| ==> StmtCalls(b.stmts[i], n)
  }

  predicate ConditionCalls(c: Condition, n: nat) {
    && ExprCalls(c.test, n) && BlockCalls(c.onTrue, n)
    && match c.onFalse
       case NoElse => true
       case Elif(next) => ConditionCalls(next, n)
       case Else(block) => BlockCalls(block, n)
  }

  // ----- a checked tree calls functions of the program -----

  lemma {:induction false} TypedCalls(p: Program, cx: Context, e: Expr)
    requires TypeOf(p, cx, e).Some?
    ensures ExprCalls(e, |p.functions|)
    decreases e, 1
  {
    match e
    case Constant(_, _) =>
    case Access(_) =>
    case Dual(_, _, l, r) =>
      TypedCalls(p, cx, l);
      TypedCalls(p, cx, r);
    case Comparison(_, _, l, r) =>
      TypedCalls(p, cx, l);
      TypedCalls(p, cx, r);
    case Single(_, _, operand) =>
      TypedCalls(p, cx, operand);
    case Call(callee, args) =>
      ArgsTyped(p, cx, p.functions[callee].params, args);
  }

  lemma {:induction false} ArgsTyped(p: Program, cx: Context, params: seq<Parameter>, args: seq<Expr>)
    requires CheckArgs(p, cx, params, args)
    ensures forall i :: 0 <= i < |args| ==> ExprCalls(args[i], |p.functions|)
    decreases args, 0
  {
    if args != [] {
      TypedCalls(p, cx, args[0]);
      ArgsTyped(p, cx, params[1..], args[1..]);
      assert forall i :: 0 < i < |args| ==> args[i] == args[1..][i - 1];
    }
  }

  lemma {:induction false} StmtChecked(p: Program, cx: Context, result: Option<Ty>, s: Stmt)
    requires cx.scopes.depth > 0 && CheckStmt(p, cx, result, s).Some?
    ensures StmtCalls(s, |p.functions|)
    decreases s
  {
    match s
    case Declare(_, init) => TypedCalls(p, cx, init);
    case Assign(_, _, _, value) => TypedCalls(p, cx, value);
    case Evaluate(e) =>
      if TypeOf(p, cx, e).Some? {
        TypedCalls(p, cx, e);
      } else {
        ArgsTyped(p, cx, p.functions[e.callee].params, e.args);
      }
    case If(cond) => ConditionChecked(p, cx, result, cond);
    case While(test, body) =>
      TypedCalls(p, cx, test);
      BlockChecked(p, cx, result, body);
    case Return(returned) =>
      if returned.Some? {
        TypedCalls(p, cx, returned.value);
      }
  }

  lemma {:induction false} StmtsChecked(p: Program, cx: Context, result: Option<Ty>, ss: seq<Stmt>)
    requires cx.scopes.depth > 0 && CheckStmts(p, cx, result, ss)
    ensures forall i :: 0 <= i < |ss| ==> StmtCalls(ss[i], |p.functions|)
    decreases ss
  {
    if ss != [] {
      StmtChecked(p, cx, result, ss[0]);
      StmtsChecked(p, CheckStmt(p, cx, result, ss[0]).value, result, ss[1..]);
      assert forall i :: 0 < i < |ss| ==> ss[i] == ss[1..][i - 1];
    }
  }

  lemma {:induction false} BlockChecked(p: Program, cx: Context, result: Option<Ty>, b: Block)
    requires CheckBlock(p, cx, result, b)
    ensures BlockCalls(b, |p.functions|)
    decreases b
  {
    StmtsChecked(p, Context(cx.types, OpenScope(cx.scopes, b.vars)), result, b.stmts);
  }

  lemma {:induction false} ConditionChecked(p: Program, cx: Context, result: Option<Ty>, c: Condition)
    requires CheckCondition(p, cx, result, c)
    ensures ConditionCalls(c, |p.functions|)
    decreases c
  {
    TypedCalls(p, cx, c.test);
    BlockChecked(p, cx, result, c.onTrue);
    match c.onFalse
    case NoElse =>
    case Elif(next) => ConditionChecked(p, Context(cx.types, OpenScope(cx.scopes, [])), result, next);
    case Else(block) => BlockChecked(p, Context(cx.types, OpenScope(cx.scopes, [])), result, block);
  }

  // ----- the words generated for it -----

  predicate Known(w: Word, n: nat) {
    UnpackInstruction(w) == LOAD_FUNCTION ==> UnpackValue16(w) < n
  }

  predicate AllKnown(code: seq<Word>, n: nat) {
    forall i :: 0 <= i < |code| ==> Known(code[i], n)
  }

  lemma Instructions(inst: int, a: int, b: int, c: int)
    requires 0 <= inst < TWO_8
    ensures UnpackInstruction(PackThreeRegisters(inst, a, b, c)) == inst
            && UnpackInstruction(PackTwoRegisters(inst, a, b)) == inst
    ensures UnpackInstruction(PackOneRegister(inst, a)) == inst && UnpackInstruction(PackDstValue(inst, a, b)) == inst
    ensures UnpackInstruction(PackValue(inst, a)) == inst
  {
    assert PackThreeRegisters(inst, a, b, c) == PackThreeRegisters(inst, a % TWO_8, b % TWO_8, c % TWO_8);
    assert PackTwoRegisters(inst, a, b) == PackTwoRegisters(inst, a % TWO_8, b % TWO_8);
    assert PackOneRegister(inst, a) == PackOneRegister(inst, a % TWO_8);
    assert PackDstValue(inst, a, b) == PackDstValue(inst, a % TWO_8, b);
    UnpackThree(inst, a % TWO_8, b % TWO_8, c % TWO_8);
    UnpackTwo(inst, a % TWO_8, b % TWO_8);
    UnpackOne(inst, a % TWO_8);
    UnpackDstValue(inst, a % TWO_8, b);
    UnpackValue(inst, a);
  }

  lemma LoadKnown(reg: int, callee: nat, n: nat)
    requires callee < n <= TWO_16
    ensures Known(PackDstValue(LOAD_FUNCTION, reg, callee), n)
  {
    assert PackDstValue(LOAD_FUNCTION, reg, callee) == PackDstValue(LOAD_FUNCTION, reg % TWO_8, callee);
    UnpackDstValue(LOAD_FUNCTION, reg % TWO_8, callee);
  }

  lemma Selected(op: DualOp, cmp: CompareOp, single: SingleOp, ty: Ty)
    ensures CompareOperatorInst(cmp, ty) < TWO_8 && CompareOperatorInst(cmp, ty) != LOAD_FUNCTION
    ensures ty != Bool ==> DualOperatorInst(op, ty) < TWO_8 && DualOperatorInst(op, ty) != LOAD_FUNCTION
    ensures ty != Bool && (single.Negate? ==> IsSigned(ty)) ==>
              SingleOperatorInst(single, ty) < TWO_8 && SingleOperatorInst(single, ty) != LOAD_FUNCTION
  {
  }

  lemma {:induction false} ExprKnown(m: Constants, sc: Scopes, p: Pool, c: nat, e: Expr, target: Option<Key>, n: nat)
    requires sc.depth > 0 && n <= TWO_16 && ExprCalls(e, n) && GenExpr(m, sc, p, c, e, target).Emit?
    ensures AllKnown(GenExpr(m, sc, p, c, e, target).code, n)
    decreases e, 1
  {
    hide PackThreeRegisters, PackTwoRegisters, PackDstValue, UnpackInstruction, UnpackValue16;
    hide DualOperatorInst, CompareOperatorInst, SingleOperatorInst;
    var g := GenExpr(m, sc, p, c, e, target);
    match e
    case Constant(ty, v) =>
      Instructions(LOAD_VALUE, g.reg, v, 0);
      if !FitsInBytecode(ty, v) {
        var i := IndexOf(if Is64(ty) then m.bits64 else m.bits32, (ty, v)).value;
        Instructions(if Is64(ty) then LOAD_CONST_64 else LOAD_CONST_32, g.reg, i, 0);
      }
    case Access(_) =>
    case Dual(op, ty, _, _) =>
      OperandsKnown(m, sc, p, c, e, n);
      var o := GenOperands(m, sc, p, c, e);
      Selected(op, Eq, Negate, ty);
      Instructions(DualOperatorInst(op, ty), g.reg, o.reg1, o.reg2);
    case Comparison(cmp, ty, _, _) =>
      OperandsKnown(m, sc, p, c, e, n);
      var o := GenOperands(m, sc, p, c, e);
      Selected(Plus, cmp, Negate, ty);
      Instructions(CompareOperatorInst(cmp, ty), g.reg, o.reg1, o.reg2);
    case Single(single, ty, operand) =>
      ExprKnown(m, sc, p, c, operand, None, n);
      Selected(Plus, Eq, single, ty);
      Instructions(SingleOperatorInst(single, ty), g.reg, GenExpr(m, sc, p, c, operand, None).reg, 0);
    case Call(callee, args) =>
      CallKnown(m, sc, p, c, callee, args, Some(ResultKey(sc, c, e, target)), n);
  }

  lemma {:induction false} OperandsKnown(m: Constants, sc: Scopes, p: Pool, c: nat, e: Expr, n: nat)
    requires sc.depth > 0 && n <= TWO_16 && (e.Dual? || e.Comparison?) && ExprCalls(e, n)
             && GenOperands(m, sc, p, c, e).Operands?
    ensures AllKnown(GenOperands(m, sc, p, c, e).code, n)
    decreases e, 0
  {
    hide GenExpr, Known;
    ExprKnown(m, sc, p, c, e.left, None, n);
    ExprKnown(m, sc, GenExpr(m, sc, p, c, e.left, None).pool, c + TempCount(e.left), e.right, None, n);
  }

  lemma {:induction false} CallKnown(m: Constants, sc: Scopes, p: Pool, c: nat, callee: nat, args: seq<Expr>,
                                     result: Option<Key>, n: nat)
    requires sc.depth > 0 && callee < n <= TWO_16 && (forall i :: 0 <= i < |args| ==> ExprCalls(args[i], n))
    requires GenCall(m, sc, p, c, callee, args, result).Emit?
    ensures AllKnown(GenCall(m, sc, p, c, callee, args, result).code, n)
    decreases args, 1
  {
    hide PackThreeRegisters, PackDstValue, UnpackInstruction, UnpackValue16, GenArgs;
    var g := GenCall(m, sc, p, c, callee, args, result);
    ArgsKnown(m, sc, AllocateTemporary(p), c, args, n);
    LoadKnown(AllocatedTemporary(p), callee, n);
    Instructions(CALL, AllocatedTemporary(p), g.reg, |args|);
  }

  lemma {:induction false} ArgsKnown(m: Constants, sc: Scopes, p: Pool, c: nat, args: seq<Expr>, n: nat)
    requires sc.depth > 0 && n <= TWO_16
             && (forall i :: 0 <= i < |args| ==> ExprCalls(args[i], n)) && GenArgs(m, sc, p, c, args).Gen?
    ensures AllKnown(GenArgs(m, sc, p, c, args).code, n)
    decreases args, 0
  {
    hide PackOneRegister, UnpackInstruction, UnpackValue16, GenExpr;
    if args != [] {
      ExprKnown(m, sc, p, c, args[0], None, n);
      var g := GenExpr(m, sc, p, c, args[0], None);
      ArgsKnown(m, sc, g.pool, c + TempCount(args[0]), args[1..], n);
      Instructions(PUSH_ARG, g.reg, 0, 0);
    }
  }

  lemma {:induction false} StmtKnown(m: Constants, sc: Scopes, results: seq<bool>, p: Pool, c: nat, s: Stmt, n: nat)
    requires sc.depth > 0 && n <= TWO_16 && StmtCalls(s, n) && GenStmt(m, sc, results, p, c, s).Gen?
    ensures AllKnown(GenStmt(m, sc, results, p, c, s).code, n)
    decreases s, 1
  {
    hide GenVisit, GenCondition, Known;
    if s.If? {
      ConditionKnown(m, sc, results, p, c, s.cond, n);
    } else {
      var temps := StmtTempCount(s) - if s.Declare? && !s.init.Access? then 1 else 0;
      VisitKnown(m, sc, results, AllocateTemps(p, sc.depth - 1, c, c + temps), c, s, n);
    }
  }

  lemma {:induction false} VisitKnown(m: Constants, sc: Scopes, results: seq<bool>, p: Pool, c: nat, s: Stmt, n: nat)
    requires sc.depth > 0 && !s.If? && n <= TWO_16 && StmtCalls(s, n) && GenVisit(m, sc, results, p, c, s).Gen?
    ensures AllKnown(GenVisit(m, sc, results, p, c, s).code, n)
    decreases s, 0
  {
    hide PackThreeRegisters, PackTwoRegisters, PackDstValue, PackValue, UnpackInstruction, UnpackValue16, GenExpr,
         GenBlock, GenCall, DualOperatorInst;
    match s
    case Declare(name, init) =>
      var key := Named(name, sc.depth - 1);
      ExprKnown(m, sc, p, c, init, Some(key), n);
      Instructions(COPY_REGISTER, RegisterFor(p, key), GenExpr(m, sc, p, c, init, Some(key)).reg, 0);
    case Assign(name, assign, ty, value) =>
      var left := GenExpr(m, sc, p, c, Access(name), None);
      ExprKnown(m, sc, left.pool, c, value, None, n);
      var right := GenExpr(m, sc, left.pool, c, value, None);
      Instructions(COPY_REGISTER, left.reg, right.reg, 0);
      if assign.Compound? {
        Selected(assign.op, Eq, Negate, ty);
        Instructions(DualOperatorInst(assign.op, ty), left.reg, left.reg, right.reg);
      }
    case Evaluate(e) =>
      if HasResult(results, e) || !e.Call? {
        ExprKnown(m, sc, p, c, e, None, n);
      } else {
        CallKnown(m, sc, p, c, e.callee, e.args, None, n);
      }
    case While(test, body) =>
      ExprKnown(m, sc, p, c, test, None, n);
      var g := GenExpr(m, sc, p, c, test, None);
      BlockKnown(m, sc, results, g.pool, body, n);
      var loop := GenBlock(m, sc, results, g.pool, body);
      Instructions(JUMP_FALSE, g.reg, |loop.code| + 1, 0);
      Instructions(JUMP, -(|g.code| + |loop.code| + 2), 0, 0);
    case Return(result) =>
      Instructions(RETURN, NO_REGISTER, 0, 0);
      if result.Some? {
        ExprKnown(m, sc, p, c, result.value, None, n);
        Instructions(RETURN, GenExpr(m, sc, p, c, result.value, None).reg, 0, 0);
      }
  }

  lemma {:induction false} StmtsKnown(m: Constants, sc: Scopes, results: seq<bool>, p: Pool, c: nat, ss: seq<Stmt>,
                                      n: nat)
    requires sc.depth > 0 && n <= TWO_16
             && (forall i :: 0 <= i < |ss| ==> StmtCalls(ss[i], n)) && GenStmts(m, sc, results, p, c, ss).Gen?
    ensures AllKnown(GenStmts(m, sc, results, p, c, ss).code, n)
    decreases ss, 0
  {
    hide GenStmt, Known;
    if ss != [] {
      StmtKnown(m, sc, results, p, c, ss[0], n);
      StmtsKnown(m, sc, results, GenStmt(m, sc, results, p, c, ss[0]).pool, c + StmtTempCount(ss[0]), ss[1..], n);
    }
  }

  lemma {:induction false} BlockKnown(m: Constants, sc: Scopes, results: seq<bool>, p: Pool, b: Block, n: nat)
    requires n <= TWO_16 && BlockCalls(b, n) && GenBlock(m, sc, results, p, b).Gen?
    ensures AllKnown(GenBlock(m, sc, results, p, b).code, n)
    decreases b, 0
  {
    hide Known;
    StmtsKnown(m, OpenScope(sc, b.vars), results, AllocateVars(p, sc.depth, b.vars), 0, b.stmts, n);
  }

  lemma {:induction false} ConditionKnown(m: Constants, sc: Scopes, results: seq<bool>, p: Pool, c: nat,
                                          cond: Condition, n: nat)
    requires sc.depth > 0 && n <= TWO_16 && ConditionCalls(cond, n) && GenCondition(m, sc, results, p, c, cond).Gen?
    ensures AllKnown(GenCondition(m, sc, results, p, c, cond).code, n)
    decreases cond, 0
  {
    hide PackDstValue, PackValue, UnpackInstruction, UnpackValue16, GenExpr, GenBlock, GenTail, AllocateTemps,
         DeallocateTemps;
    var temps := TempCount(cond.test);
    var q := AllocateTemps(p, sc.depth - 1, c, c + temps);
    ExprKnown(m, sc, q, c, cond.test, None, n);
    var g := GenExpr(m, sc, q, c, cond.test, None);
    var p1 := DeallocateTemps(g.pool, sc.depth - 1, c, c + temps);
    BlockKnown(m, sc, results, p1, cond.onTrue, n);
    var onTrue := GenBlock(m, sc, results, p1, cond.onTrue);
    Instructions(JUMP_FALSE, g.reg, |onTrue.code|, 0);
    Instructions(JUMP_FALSE, g.reg, |onTrue.code| + 1, 0);
    if !cond.onFalse.NoElse? {
      TailKnown(m, OpenScope(sc, []), results, onTrue.pool, cond.onFalse, n);
      Instructions(JUMP, |GenTail(m, OpenScope(sc, []), results, onTrue.pool, cond.onFalse).code|, 0, 0);
    }
  }

  lemma {:induction false} TailKnown(m: Constants, sc: Scopes, results: seq<bool>, p: Pool, t: Tail, n: nat)
    requires sc.depth > 0 && !t.NoElse? && n <= TWO_16 && GenTail(m, sc, results, p, t).Gen?
    requires match t case NoElse => true case Elif(cond) => ConditionCalls(cond,
          n) case Else(block) => BlockCalls(block, n)
    ensures AllKnown(GenTail(m, sc, results, p, t).code, n)
    decreases t, 0
  {
    hide Known;
    match t
    case Elif(cond) => ConditionKnown(m, sc, results, p, 0, cond, n);
    case Else(block) => BlockKnown(m, sc, results, p, block, n);
  }

  /** No generated instruction meets the gap in the interpreter's test of the function index. */
  lemma LoadsKnownFunctions(w: World, i: nat, k: nat)
    requires Compiled(w) && i < |w.p.functions| && i < |w.b.functions| && k < |w.b.functions[i].code|
    requires UnpackInstruction(w.b.functions[i].code[k]) == LOAD_FUNCTION
    ensures UnpackValue16(w.b.functions[i].code[k]) < |w.p.functions| <= |w.b.functions|
  {
    hide GenStmts, CheckStmts, PackValue, PackDstValue, UnpackInstruction, UnpackValue16;
    assert CompiledFunction(w, i) && CheckFunction(w.p, w.p.functions[i]);
    assert CompiledFunction(w, |w.p.functions| - 1);
    var f, n := w.p.functions[i], |w.p.functions|;
    var sc, p := OpenScope(FUNCTION_SCOPES, f.body.vars), SetupPool(f).value;
    StmtsChecked(w.p, FunctionContext(f), f.result, f.body.stmts);
    StmtsKnown(w.m, sc, ResultFlags(w.p.functions), p, 0, f.body.stmts, n);
    Instructions(HALT, 0, 0, 0);
    Instructions(RETURN, NO_REGISTER, 0, 0);
    assert AllKnown(w.b.functions[i].code, n);
  }
}
