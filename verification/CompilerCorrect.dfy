/**
  Compiler correctness: whatever the source program computes, the machine computes
  by running the generated code from its first word to its last, or to a return.
 */
module CompilerCorrect {
  import opened Options
  import opened Values
  import opened Bytecode
  import opened Registers
  import opened RegisterPool
  import opened Ast
  import opened Semantics
  import opened CodeGen
  import opened CodeGenPool
  import opened Checking
  import opened Machine
  import opened CompiledSteps
  import opened CompilerRelation
  import opened ExpressionSteps
  import opened CallSteps
  import opened StatementSteps
  import opened BranchSteps

  lemma {:induction false} ExprCorrect(w: World, fuel: nat, cx: Context, env: Env, p: Pool, c: nat, e: Expr,
                                       target: Option<Key>, s: State)
    returns (t: State)
    requires ExprReady(w, fuel, cx, env, p, c, e, target, s)
    ensures ExprDone(w, fuel, cx, env, p, c, e, target, s, t)
    decreases fuel, 1, e, 1
  {
    hide Inv, Shows, Compiled, Reaches, CodeAt, Represents;
    var sc := cx.scopes;
    match e
    case Constant(_, _) =>
      t := ConstantDone(w, fuel, cx, env, p, c, e, target, s);
    case Access(_) =>
      t := AccessDone(w, fuel, cx, env, p, c, e, target, s);
    case Dual(_, _, _, _) =>
      OperandsStart(w, fuel, cx, env, p, c, e, target, s);
      var t1 := OperandsCorrect(w, fuel, cx, env, p, c, e, s);
      t := DualDone(w, fuel, cx, env, p, c, e, target, s, t1);
    case Comparison(_, _, _, _) =>
      OperandsStart(w, fuel, cx, env, p, c, e, target, s);
      var t1 := OperandsCorrect(w, fuel, cx, env, p, c, e, s);
      t := CompareDone(w, fuel, cx, env, p, c, e, target, s, t1);
    case Single(single, ty, operand) =>
      var o := GenExpr(w.m, sc, p, c, operand, None);
      ReadySplit(w, p, o.pool.used, s, o.code,
                 [PackTwoRegisters(SingleOperatorInst(single, ty), RegisterFor(p, ResultKey(sc, c, e, target)),
                                   o.reg)]);
      var t1 := ExprCorrect(w, fuel, cx, env, p, c, operand, None, s);
      t := SingleDone(w, fuel, cx, env, p, c, e, target, s, t1);
    case Call(callee, args) =>
      t := CallCorrect(w, fuel, cx, env, p, c, callee, args, Some(ResultKey(sc, c, e, target)), s);
      CallKept(w, cx, p, c, e, target, s, t);
  }

  /** Evaluating the right operand does not disturb the left one's result. */
  lemma {:induction false} OperandsCorrect(w: World, fuel: nat, cx: Context, env: Env, p: Pool, c: nat, e: Expr,
                                           s: State)
    returns (t: State)
    requires OperandsReady(w, fuel, cx, env, p, c, e, s)
    ensures OperandsDone(w, fuel, cx, env, p, c, e, s, t)
    decreases fuel, 1, e, 0
  {
    hide Inv, Shows, Compiled, Reaches, CodeAt, Represents, Preserves, EvalDual, OperandsDone;
    var sc, level := cx.scopes, cx.scopes.depth - 1;
    var g1 := GenExpr(w.m, sc, p, c, e.left, None);
    var mid := c + TempCount(e.left);
    var g2 := GenExpr(w.m, sc, g1.pool, mid, e.right, None);
    GenExprOwners(w.m, sc, p, c, e.left, None);
    GenExprOwners(w.m, sc, g1.pool, mid, e.right, None);
    ReadySplit(w, p, g2.pool.used, s, g1.code, g2.code);
    var t1 := ExprCorrect(w, fuel, cx, env, p, c, e.left, None, s);
    RepresentsKept(env, cx.types, p, level, c, mid, s.regs, t1.regs);
    t := ExprCorrect(w, fuel, cx, env, g1.pool, mid, e.right, None, t1);
    OperandsFinished(w, fuel, cx, env, p, c, e, s, t1, t);
  }

  lemma {:induction false} CallCorrect(w: World, fuel: nat, cx: Context, env: Env, p: Pool, c: nat, callee: nat,
                                       args: seq<Expr>, result: Option<Key>, s: State)
    returns (t: State)
    requires CallReady(w, fuel, cx, env, p, c, callee, args, result, s)
    ensures CallDone(w, fuel, cx, env, p, c, callee, args, result, s, t)
    decreases fuel, 1, args, 1
  {
    hide Inv, Shows, Reaches, CodeAt, Preserves, Represents, Compiled, Invoke;
    var s1 := FunctionLoaded(w, fuel, cx, env, p, c, callee, args, result, s);
    var s2 := ArgsCorrect(w, fuel, cx, env, AllocateTemporary(p), c, w.p.functions[callee].params, args, s1);
    var s3 := Entered(w, fuel, cx, env, p, c, callee, args, result, s, s1, s2);
    var t3 := InvokeCorrect(w, fuel, callee, EvalArgs(w.p, AsCompiled, fuel, env, cx.scopes.depth, args).value, s3);
    t := Resumed(w, fuel, cx, env, p, c, callee, args, result, s, s1, s2, s3, t3);
  }

  lemma {:induction false} ArgsCorrect(w: World, fuel: nat, cx: Context, env: Env, p: Pool, c: nat,
                                       params: seq<Parameter>, args: seq<Expr>, s: State)
    returns (t: State)
    requires ArgsReady(w, fuel, cx, env, p, c, params, args, s)
    ensures ArgsDone(w, fuel, cx, env, p, c, params, args, s, t)
    decreases fuel, 1, args, 0
  {
    hide Inv, Shows, Passes, Reaches, CodeAt, Preserves, Represents, Compiled, PackOneRegister, CallFree, GenExpr,
         GenArgs, EvalArgs, TypeOf, Eval, CheckArgs;
    if args == [] {
      t := NoArgs(w, fuel, cx, env, p, c, params, args, s);
    } else {
      var g1 := FirstArg(w, fuel, cx, env, p, c, params, args, s);
      var t1 := ExprCorrect(w, fuel, cx, env, p, c, args[0], None, s);
      PassesPromoted(t1.regs[g1.reg], TypeOf(w.p, cx, args[0]).value, params[0].ty,
                     Eval(w.p, AsCompiled, fuel, env, cx.scopes.depth, args[0]).value);
      var t2 := FirstPushed(w, fuel, cx, env, p, c, params, args, s, g1, t1);
      t := ArgsCorrect(w, fuel, cx, env, g1.pool, c + TempCount(args[0]), params[1..], args[1..], t2);
      AllPushed(w, fuel, cx, env, p, c, params, args, s, g1, t1, t2, t);
    }
  }

  lemma {:induction false} InvokeCorrect(w: World, fuel: nat, callee: nat, values: seq<Value>, s: State)
    returns (t: State)
    requires InvokeReady(w, fuel, callee, values, s)
    ensures RanWithin(w, s, t)
            && AtReturn(w.b, t, Invoke(w.p, AsCompiled, fuel, callee, values).value, w.p.functions[callee].result)
    ensures OfType(Invoke(w.p, AsCompiled, fuel, callee, values).value, w.p.functions[callee].result)
    decreases fuel, 0
  {
    hide Inv, Shows, Reaches, CodeAt, Represents, GenStmts, ExecAll, CheckStmts, PackDstValue;
    var f := w.p.functions[callee];
    var cx := FunctionContext(f);
    BodyReady(w, fuel, callee, values, s);
    var types;
    t, types := StmtsCorrect(w, fuel - 1, cx, Bind(f.params, Bound(w, callee, values).value), f.result,
                             SetupPool(f).value, 0, f.body.stmts, s);
    BodyEnded(w, fuel, callee, values, s, t, types);
  }

  lemma {:induction false} StmtsCorrect(w: World, fuel: nat, cx: Context, env: Env, result: Option<Ty>, p: Pool,
                                        c: nat, ss: seq<Stmt>, s: State)
    returns (t: State, types: map<Key, Ty>)
    requires StmtsReady(w, fuel, cx, env, result, p, c, ss, s)
    ensures Extends(cx.types, types, cx.scopes.depth)
    ensures Ended(w, ExecAll(w.p, AsCompiled, fuel, env, cx.scopes.depth, ss), types, p.owner, result, s,
                  |GenStmts(w.m, cx.scopes, ResultFlags(w.p.functions), p, c, ss).code|, t)
    decreases fuel, 1, ss, 0
  {
    hide Inv, Shows, Reaches, CodeAt, Represents, Compiled, Exec, GenStmt;
    var results := ResultFlags(w.p.functions);
    if ss == [] {
      t, types := s, cx.types;
      ReachesItself(w.b, s);
    } else {
      var g1 := GenStmt(w.m, cx.scopes, results, p, c, ss[0]);
      var g2 := GenStmts(w.m, cx.scopes, results, g1.pool, c + StmtTempCount(ss[0]), ss[1..]);
      GenStmtOwners(w.m, cx.scopes, results, p, c, ss[0]);
      GenStmtsOwners(w.m, cx.scopes, results, g1.pool, c + StmtTempCount(ss[0]), ss[1..]);
      CodeSplit(w.b, s.fn, s.pc, g1.code, g2.code);
      CheckStmtExtends(w, cx, result, ss[0]);
      var t1 := StmtCorrect(w, fuel, cx, env, result, p, c, ss[0], s);
      var cx1 := CheckStmt(w.p, cx, result, ss[0]).value;
      match Exec(w.p, AsCompiled, fuel, env, cx.scopes.depth, ss[0])
      case Normal(env1) =>
        t, types := StmtsCorrect(w, fuel, cx1, env1, result, g1.pool, c + StmtTempCount(ss[0]), ss[1..], t1);
        EndedLater(w, ExecAll(w.p, AsCompiled, fuel, env1, cx.scopes.depth, ss[1..]), types, p.owner, result, s,
                   |g1.code|, t1, |g2.code|, t);
      case _ =>
        t, types := t1, cx1.types;
    }
  }

  lemma {:induction false} StmtCorrect(w: World, fuel: nat, cx: Context, env: Env, result: Option<Ty>, p: Pool, c: nat,
                                       st: Stmt, s: State)
    returns (t: State)
    requires StmtReady(w, fuel, cx, env, result, p, c, st, s)
    ensures Ended(w, Exec(w.p, AsCompiled, fuel, env, cx.scopes.depth, st), CheckStmt(w.p, cx, result, st).value.types,
                  p.owner, result, s,
                  |GenStmt(w.m, cx.scopes, ResultFlags(w.p.functions), p, c, st).code|, t)
    decreases fuel, 1, st, 2
  {
    hide Inv, Shows, Reaches, CodeAt, Compiled, AtReturn, GenVisit, GenCondition, Exec, CheckStmt, Represents, Ended,
         Fits, Grown, SameOwners;
    if st.If? {
      IfIsCondition(w, fuel, cx, env, result, p, c, st);
      t := ConditionCorrect(w, fuel, cx, env, result, p, c, st.cond, s);
    } else {
      var n := StmtTemps(st);
      var q := AllocateTemps(p, cx.scopes.depth - 1, c, c + n);
      VisitPrepared(w, fuel, cx, env, result, p, c, st, s);
      t := VisitCorrect(w, fuel, cx, env, result, q, c + n, c, st, s);
      hide AllocateTemps, DeallocateTemps;
      EndedShrunk(w, Exec(w.p, AsCompiled, fuel, env, cx.scopes.depth, st), CheckStmt(w.p, cx, result, st).value.types,
                  p, q, result, s,
                  |GenVisit(w.m, cx.scopes, ResultFlags(w.p.functions), q, c, st).code|, t);
    }
  }

  lemma {:induction false} VisitCorrect(w: World, fuel: nat, cx: Context, env: Env, result: Option<Ty>, p: Pool,
                                        live: nat, c: nat, st: Stmt, s: State)
    returns (t: State)
    requires VisitReady(w, fuel, cx, env, result, p, live, c, st, s)
    ensures VisitDone(w, fuel, cx, env, result, p, live, c, st, s, t)
    decreases fuel, 1, st, 1
  {
    hide Inv, Shows, Reaches, CodeAt, Compiled, AtReturn, Represents, GenExpr, GenCall, GenVisit, Exec, CheckStmt,
         TypeOf, Eval;
    match st
    case Declare(name, init) =>
      DeclareReady(w, fuel, cx, env, result, p, live, c, st, s);
      var t1 := ExprCorrect(w, fuel, cx, env, p, c, init, Some(Named(name, cx.scopes.depth - 1)), s);
      t := DeclareDone(w, fuel, cx, env, result, p, live, c, st, s, t1);
    case Assign(name, assign, ty, value) =>
      AssignReady(w, fuel, cx, env, result, p, live, c, st, s);
      var t1 := ExprCorrect(w, fuel, cx, env, p, c, value, None, s);
      t := AssignDone(w, fuel, cx, env, result, p, live, c, st, s, t1);
    case Evaluate(e) =>
      EvaluateReady(w, fuel, cx, env, result, p, live, c, st, s);
      if e.Call? {
        t := CallCorrect(w, fuel, cx, env, p, c, e.callee, e.args, CallTarget(w, cx, c, e), s);
        EvaluateCallDone(w, fuel, cx, env, result, p, live, c, st, s, t);
      } else {
        t := ExprCorrect(w, fuel, cx, env, p, c, e, None, s);
        EvaluateDone(w, fuel, cx, env, result, p, live, c, st, s, t);
      }
    case While(_, _) =>
      t := WhileCorrect(w, fuel, cx, env, result, p, live, c, st, s);
    case Return(None) =>
      t := s;
      ReturnNothing(w, fuel, cx, env, result, p, live, c, st, s);
    case Return(Some(e)) =>
      ReturnReady(w, fuel, cx, env, result, p, live, c, st, s);
      t := ExprCorrect(w, fuel, cx, env, p, c, e, None, s);
      ReturnDone(w, fuel, cx, env, result, p, live, c, st, s, t);
  }

  /** A jump past `offset` words comes after the tested expression. */
  ghost predicate TestReady(w: World, fuel: nat, cx: Context, env: Env, p: Pool, c: nat, test: Expr, offset: nat,
                            s: State) {
    && ExprReady(w, fuel, cx, env, p, c, test, None, s) && offset < TWO_16
    && var g := GenExpr(w.m, cx.scopes, p, c, test, None);
    CodeAt(w.b, s.fn, s.pc + |g.code|, [PackDstValue(JUMP_FALSE, g.reg, offset)])
  }

  ghost predicate TestDone(w: World, fuel: nat, cx: Context, env: Env, p: Pool, c: nat, test: Expr, offset: nat,
                           s: State, t: State) {
    && cx.scopes.depth > 0
    && var g := GenExpr(w.m, cx.scopes, p, c, test, None);
    && g.Emit?
    && RanTo(w, s, |g.code| + 1 + (if TestOf(w, fuel, cx, env, test) == Some(false) then offset else 0), t)
    && Represents(env, cx.types, p.owner, t.regs)
  }

  /** A tested expression, and the jump past `offset` words taken when it is false. */
  lemma {:induction false} TestCorrect(w: World, fuel: nat, cx: Context, env: Env, p: Pool, c: nat, test: Expr,
                                       offset: nat, s: State)
    returns (t: State)
    requires TestReady(w, fuel, cx, env, p, c, test, offset, s)
    ensures TestDone(w, fuel, cx, env, p, c, test, offset, s, t)
    decreases fuel, 1, test, 2
  {
    hide Inv, Compiled, Represents, GenExpr, Reaches, Shows, Preserves, Eval, TypeOf, PackDstValue, Step, CodeAt;
    var g := GenExpr(w.m, cx.scopes, p, c, test, None);
    var t1 := ExprCorrect(w, fuel, cx, env, p, c, test, None, s);
    RepresentsKept(env, cx.types, p, cx.scopes.depth - 1, c, c + TempCount(test), s.regs, t1.regs);
    StepJumpFalse(w.b, t1, g.reg, offset);
    var v := Eval(w.p, AsCompiled, fuel, env, cx.scopes.depth, test).value;
    ShownHolds(t1.regs[g.reg], TypeOf(w.p, cx, test).value, v);
    ConditionRead(t1.regs[g.reg], TypeOf(w.p, cx, test).value, v.n);
    var n := if t1.regs[g.reg].lo == 0 then 1 + offset else 1;
    t := RanStep(w, t1, n, t1.regs);
    RanOn(w, s, |g.code|, t1, n, t);
  }

  lemma {:induction false} WhileCorrect(w: World, fuel: nat, cx: Context, env: Env, result: Option<Ty>, p: Pool,
                                        live: nat, c: nat, st: Stmt, s: State)
    returns (t: State)
    requires VisitReady(w, fuel, cx, env, result, p, live, c, st, s) && st.While?
    ensures VisitDone(w, fuel, cx, env, result, p, live, c, st, s, t)
    decreases fuel, 1, st, 0
  {
    hide Inv, Shows, Reaches, CodeAt, Compiled, AtReturn, Represents, GenExpr, GenBlock, TypeOf, Eval, ExecBlock,
         CheckBlock, PackDstValue, PackValue;
    hide Step, Ended, Fits, CheckStmt, Exec, GenVisit, SameOwners;
    var parts := LoopReady(w, fuel, cx, env, result, p, live, c, st, s);
    LoopMeaning(w, fuel, cx, env, result, p, live, c, st, s);
    var t1 := TestCorrect(w, fuel, cx, env, p, c, st.test, |parts.body.code| + 1, s);
    if TestOf(w, fuel, cx, env, st.test) == Some(false) {
      t := t1;
      LoopLeft(w, fuel, cx, env, result, p, live, c, st, s, parts, t);
    } else {
      LoopEntered(w, fuel, cx, env, result, p, live, c, st, s, parts, t1);
      var t2 := BlockCorrect(w, fuel, cx, env, result, parts.test.pool, live, st.body, t1);
      var o := ExecBlock(w.p, AsCompiled, fuel, env, cx.scopes.depth, st.body);
      if o.Normal? {
        var t3 := LoopedBack(w, fuel, cx, env, result, p, live, c, st, s, parts, t1, t2, o.env);
        t := WhileCorrect(w, fuel - 1, cx, o.env, result, p, live, c, st, t3);
        EndedLater(w, Exec(w.p, AsCompiled, fuel, env, cx.scopes.depth, st), cx.types, p.owner, result, s, 0, t3,
                   |GenVisit(w.m, cx.scopes, ResultFlags(w.p.functions), p, c, st).code|, t);
      } else {
        t := t2;
        LoopReturned(w, fuel, cx, env, result, p, live, c, st, s, parts, t1, t);
      }
    }
  }

  lemma {:induction false} BlockCorrect(w: World, fuel: nat, cx: Context, env: Env, result: Option<Ty>, p: Pool,
                                        live: nat, b: Block, s: State)
    returns (t: State)
    requires BlockReady(w, fuel, cx, env, result, p, live, b, s)
    ensures Ended(w, ExecBlock(w.p, AsCompiled, fuel, env, cx.scopes.depth, b), cx.types, p.owner, result, s,
                  |GenBlock(w.m, cx.scopes, ResultFlags(w.p.functions), p, b).code|, t)
    decreases fuel, 1, b, 0
  {
    hide Inv, Shows, Reaches, CodeAt, Compiled, AtReturn, Represents, GenStmts, ExecAll, CheckStmts, AllocateVars,
         DeallocateVars;
    var inner := Context(cx.types, OpenScope(cx.scopes, b.vars));
    var p1 := AllocateVars(p, cx.scopes.depth, b.vars);
    AllocateVarsOwners(p, cx.scopes.depth, b.vars);
    BlockFits(p, cx.scopes.depth, live, b.vars);
    RepresentsGrown(env, cx.types, p, p1, s.regs);
    var g := GenStmts(w.m, inner.scopes, ResultFlags(w.p.functions), p1, 0, b.stmts);
    GenStmtsOwners(w.m, inner.scopes, ResultFlags(w.p.functions), p1, 0, b.stmts);
    DeallocateVarsOwners(g.pool, cx.scopes.depth, b.vars);
    var types;
    t, types := StmtsCorrect(w, fuel, inner, env, result, p1, 0, b.stmts, s);
    ScopeClosed(w, ExecAll(w.p, AsCompiled, fuel, env, cx.scopes.depth + 1, b.stmts), cx, env, types, p, p1, result, s,
                |g.code|, t);
  }

  lemma {:induction false} ConditionCorrect(w: World, fuel: nat, cx: Context, env: Env, result: Option<Ty>, p: Pool,
                                            c: nat, cond: Condition, s: State)
    returns (t: State)
    requires ConditionReady(w, fuel, cx, env, result, p, c, cond, s)
    ensures ConditionDone(w, fuel, cx, env, result, p, c, cond, s, t)
    decreases fuel, 1, cond, 0
  {
    hide Inv, Shows, Reaches, CodeAt, Compiled, AtReturn, Represents, GenExpr, GenBlock, TypeOf, Eval, ExecBlock,
         CheckBlock, PackDstValue, PackValue;
    hide Step, Ended, Fits, GenCondition, SameOwners, AllocateTemps, ExecCondition, RanTo;
    var parts := ConditionParts(w, fuel, cx, env, result, p, c, cond, s);
    var o := ExecBlock(w.p, AsCompiled, fuel, env, cx.scopes.depth, cond.onTrue);
    var skip := |parts.onTrue.code| + SkipSize(cond);
    var t1 := TestCorrect(w, fuel, cx, env, parts.taken, c, cond.test, skip, s);
    if TestOf(w, fuel, cx, env, cond.test) != Some(false) {
      Chosen(w, fuel, cx, env, result, p, c, cond, s, parts, t1);
      var t2 := BlockCorrect(w, fuel, cx, env, result, parts.closed, c, cond.onTrue, t1);
      t := Skipped(w, fuel, cx, env, result, p, c, cond, s, parts, t1, t2);
    } else if cond.onFalse.NoElse? {
      t := t1;
      NotChosen(w, fuel, cx, env, result, p, c, cond, s, parts, t);
    } else {
      TailReady(w, fuel, cx, env, result, p, c, cond, s, parts, t1);
      if cond.onFalse.Elif? {
        t := ConditionCorrect(w, fuel, TailContext(cx), env, result, parts.onTrue.pool, 0, cond.onFalse.cond, t1);
        ElifIsTail(w, fuel, cx, env, result, parts.onTrue.pool, cond, t1, t);
      } else {
        t := BlockCorrect(w, fuel, TailContext(cx), env, result, parts.onTrue.pool, 0, cond.onFalse.block, t1);
        ElseIsTail(w, fuel, cx, env, result, parts.onTrue.pool, cond, t1, t);
      }
      TailDone(w, fuel, cx, env, result, p, c, cond, s, parts, t1, t);
    }
  }

  // ----- whole programs -----

  /** The cell that carries a function's result, if it returns one. */
  ghost predicate Carries(cell: Option<Cell>, result: Option<Ty>, value: Option<Value>) {
    cell.Some? == value.Some? == result.Some? && (cell.Some? ==> Shows(cell.value, result.value, value.value))
  }

  /**
    A host that opens the frame of any function and stores the arguments gets what the
    function returns in the source, however deep the calls it makes are nested.
   */
  lemma ProgramCorrect(w: World, fuel: nat, callee: nat, values: seq<Value>, s: State) returns (cell: Option<Cell>)
    requires InvokeReady(w, fuel, callee, values, s) && s.callers == []
    ensures Reaches(w.b, s, Returned(cell))
    ensures Carries(cell, w.p.functions[callee].result, Invoke(w.p, AsCompiled, fuel, callee, values).value)
  {
    hide Inv, Shows, Reaches, CodeAt, Compiled, Invoke, PackDstValue, Step;
    var t := InvokeCorrect(w, fuel, callee, values, s);
    cell := ReturnTaken(w, t, Invoke(w.p, AsCompiled, fuel, callee, values).value, w.p.functions[callee].result);
    ReachesStep(w.b, t, Returned(cell));
    ReachesTransitive(w.b, s, t, Returned(cell));
  }

  /** A RETURN delivers the value of its register. */
  lemma ReturnTaken(w: World, t: State, value: Option<Value>, result: Option<Ty>) returns (cell: Option<Cell>)
    requires ValidBinary(w.b) && AtReturn(w.b, t, value, result) && OfType(value, result)
    requires t.callers != [] && value.Some? ==> t.callers[|t.callers| - 1].ret < |t.callers[|t.callers| - 1].regs|
    ensures Carries(cell, result, value)
    ensures Step(w.b, t) == Some(AfterReturn(t.callers, cell))
  {
    hide Inv, Shows, Reaches, PackDstValue, Step;
    if value.None? {
      cell := None;
      StepReturn(w.b, t, NO_REGISTER);
    } else {
      var reg: nat :| reg < |t.regs| && CodeAt(w.b, t.fn, t.pc, [PackDstValue(RETURN, reg, 0)])
        && Passes(t.regs[reg], result.value, value.value);
      cell := Some(t.regs[reg]);
      StepReturn(w.b, t, reg);
    }
  }

  /** The innermost caller goes on after its CALL; only its result register has changed. */
  function AfterReturn(callers: seq<Suspended>, cell: Option<Cell>): State
    requires callers != [] && cell.Some? ==> callers[|callers| - 1].ret < |callers[|callers| - 1].regs|
  {
    if callers == [] then Returned(cell)
    else
      var c := callers[|callers| - 1];
      Running(callers[..|callers| - 1], c.fn, c.pc, if cell.Some? then c.regs[c.ret := cell.value] else c.regs, None)
  }

  /** At any depth, a call comes back to its caller with every other register as it was. */
  lemma CallReturns(w: World, fuel: nat, callee: nat, values: seq<Value>, s: State) returns (cell: Option<Cell>)
    requires InvokeReady(w, fuel, callee, values, s) && s.callers != []
    requires w.p.functions[callee].result.Some? ==> s.callers[|s.callers| - 1].ret < |s.callers[|s.callers| - 1].regs|
    ensures Carries(cell, w.p.functions[callee].result, Invoke(w.p, AsCompiled, fuel, callee, values).value)
    ensures Reaches(w.b, s, AfterReturn(s.callers, cell))
  {
    hide Inv, Shows, Reaches, CodeAt, Compiled, Invoke, PackDstValue, Step;
    var t := InvokeCorrect(w, fuel, callee, values, s);
    cell := ReturnTaken(w, t, Invoke(w.p, AsCompiled, fuel, callee, values).value, w.p.functions[callee].result);
    ReachesStep(w.b, t, AfterReturn(s.callers, cell));
    ReachesTransitive(w.b, s, t, AfterReturn(s.callers, cell));
  }
}
