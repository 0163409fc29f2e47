/** Declarations, assignments, calls and returns, given what their expressions left. */
module StatementSteps {
  import opened Options
  import opened Values
  import opened Bytecode
  import opened Registers
  import opened RegisterPool
  import opened Ast
  import opened Semantics
  import opened CodeGen
  import opened CodeGenPool
  import opened Checking
  import opened Machine
  import opened CompiledSteps
  import opened CompilerRelation
  import opened ExpressionSteps
  import opened CallSteps

  ghost predicate StmtReady(w: World, fuel: nat, cx: Context, env: Env, result: Option<Ty>, p: Pool, c: nat, st: Stmt,
                            s: State) {
    && Base(w, cx, env, p, s) && Fits(p, cx.scopes.depth, c)
    && CheckStmt(w.p, cx, result, st).Some? && !Exec(w.p, AsCompiled, fuel, env, cx.scopes.depth, st).Stuck?
    && var g := GenStmt(w.m, cx.scopes, ResultFlags(w.p.functions), p, c, st);
       g.Gen? && g.pool.used <= |s.regs| && CodeAt(w.b, s.fn, s.pc, g.code)
  }

  /** The temporaries a statement other than a condition holds while it is visited. */
  function StmtTemps(st: Stmt): nat {
    StmtTempCount(st) - if st.Declare? && !st.init.Access? then 1 else 0
  }

  lemma VisitPrepared(w: World, fuel: nat, cx: Context, env: Env, result: Option<Ty>, p: Pool, c: nat, st: Stmt,
                      s: State)
    requires StmtReady(w, fuel, cx, env, result, p, c, st, s) && !st.If?
    ensures var q := AllocateTemps(p, cx.scopes.depth - 1, c, c + StmtTemps(st));
            && VisitReady(w, fuel, cx, env, result, q, c + StmtTemps(st), c, st, s)
            && Grown(p, q) && (forall k :: k in q.owner && k !in p.owner ==> k.Temp?)
            && GenStmt(w.m, cx.scopes, ResultFlags(w.p.functions), p, c, st).code
               == GenVisit(w.m, cx.scopes, ResultFlags(w.p.functions), q, c, st).code
  {
    hide Inv, Shows, Reaches, CodeAt, Compiled, AtReturn, GenVisit, GenCondition, Exec, CheckStmt, Represents,
         AllocateTemps, DeallocateTemps;
    var n := StmtTemps(st);
    var q := AllocateTemps(p, cx.scopes.depth - 1, c, c + n);
    TempsGrown(p, cx.scopes.depth, c, c + n);
    FitsOpened(p, cx.scopes.depth, c, c, c + n);
    var g := GenVisit(w.m, cx.scopes, ResultFlags(w.p.functions), q, c, st);
    GenVisitOwners(w.m, cx.scopes, ResultFlags(w.p.functions), q, c + n, c, st);
    DeallocateTempsOwners(g.pool, cx.scopes.depth - 1, c, c + n);
    RepresentsGrown(env, cx.types, p, q, s.regs);
  }

  lemma IfIsCondition(w: World, fuel: nat, cx: Context, env: Env, result: Option<Ty>, p: Pool, c: nat, st: Stmt)
    requires st.If? && cx.scopes.depth > 0 && CheckStmt(w.p, cx, result, st).Some?
    ensures Exec(w.p, AsCompiled, fuel, env, cx.scopes.depth, st)
            == ExecCondition(w.p, AsCompiled, fuel, env, cx.scopes.depth, st.cond)
    ensures CheckStmt(w.p, cx, result, st).value == cx && CheckCondition(w.p, cx, result, st.cond)
    ensures GenStmt(w.m, cx.scopes, ResultFlags(w.p.functions), p, c, st)
            == GenCondition(w.m, cx.scopes, ResultFlags(w.p.functions), p, c, st.cond)
  {
    hide ExecCondition, CheckCondition, GenCondition;
  }

  ghost predicate VisitReady(w: World, fuel: nat, cx: Context, env: Env, result: Option<Ty>, p: Pool, live: nat,
                             c: nat, st: Stmt, s: State) {
    && Base(w, cx, env, p, s) && Fits(p, cx.scopes.depth, live) && !st.If?
    && CheckStmt(w.p, cx, result, st).Some? && !Exec(w.p, AsCompiled, fuel, env, cx.scopes.depth, st).Stuck?
    && var g := GenVisit(w.m, cx.scopes, ResultFlags(w.p.functions), p, c, st);
       g.Gen? && g.pool.used <= |s.regs| && CodeAt(w.b, s.fn, s.pc, g.code)
  }

  /** What a statement's visit has to establish. */
  ghost predicate VisitDone(w: World, fuel: nat, cx: Context, env: Env, result: Option<Ty>, p: Pool, live: nat, c: nat,
                            st: Stmt, s: State, t: State)
  {
    VisitReady(w, fuel, cx, env, result, p, live, c, st, s) &&
    Ended(w, Exec(w.p, AsCompiled, fuel, env, cx.scopes.depth, st), CheckStmt(w.p, cx, result, st).value.types,
          p.owner, result, s,
          |GenVisit(w.m, cx.scopes, ResultFlags(w.p.functions), p, c, st).code|, t)
  }

  lemma DeclareReady(w: World, fuel: nat, cx: Context, env: Env, result: Option<Ty>, p: Pool, live: nat, c: nat,
                     st: Stmt, s: State)
    requires VisitReady(w, fuel, cx, env, result, p, live, c, st, s) && st.Declare?
    ensures ExprReady(w, fuel, cx, env, p, c, st.init, Some(Named(st.name, cx.scopes.depth - 1)), s)
  {
    hide Inv, Compiled, Represents, GenExpr;
    var key := Named(st.name, cx.scopes.depth - 1);
    var g := GenExpr(w.m, cx.scopes, p, c, st.init, Some(key));
    GenExprOwners(w.m, cx.scopes, p, c, st.init, Some(key));
    if st.init.Access? {
      CodeSplit(w.b, s.fn, s.pc, g.code, [PackTwoRegisters(COPY_REGISTER, RegisterFor(p, key), g.reg)]);
    }
  }

  lemma DeclareDone(w: World, fuel: nat, cx: Context, env: Env, result: Option<Ty>, p: Pool, live: nat, c: nat,
                    st: Stmt, s: State, t1: State)
    returns (t: State)
    requires VisitReady(w, fuel, cx, env, result, p, live, c, st, s) && st.Declare?
    requires ExprDone(w, fuel, cx, env, p, c, st.init, Some(Named(st.name, cx.scopes.depth - 1)), s, t1)
    ensures VisitDone(w, fuel, cx, env, result, p, live, c, st, s, t)
  {
    hide Inv, Compiled, Represents, GenExpr, Reaches, Shows, Preserves, Eval, TypeOf, PackTwoRegisters, Step;
    var key := Named(st.name, cx.scopes.depth - 1);
    var g := GenExpr(w.m, cx.scopes, p, c, st.init, Some(key));
    var v, ty := Eval(w.p, AsCompiled, fuel, env, cx.scopes.depth, st.init).value, TypeOf(w.p, cx, st.init).value;
    GenExprOwners(w.m, cx.scopes, p, c, st.init, Some(key));
    OwnerFacts(p);
    if st.init.Access? {
      NotTouched(env, cx.types, p, cx.scopes.depth - 1, c, c + TempCount(st.init), key, s.regs, t1.regs);
      CodeSplit(w.b, s.fn, s.pc, g.code, [PackTwoRegisters(COPY_REGISTER, p.owner[key], g.reg)]);
      StepCopy(w.b, t1, p.owner[key], g.reg);
      t := RanStep(w, t1, 1, t1.regs[p.owner[key] := t1.regs[g.reg]]);
      RanOn(w, s, |g.code|, t1, 1, t);
      StoreVariable(env, cx.types, p, key, ty, v, t1.regs[g.reg], t1.regs);
    } else {
      t := t1;
      StoredInPlace(env, cx.types, p, cx.scopes.depth - 1, c, c + TempCount(st.init), key, ty, v, s.regs, t1.regs);
    }
  }

  lemma AssignReady(w: World, fuel: nat, cx: Context, env: Env, result: Option<Ty>, p: Pool, live: nat, c: nat,
                    st: Stmt, s: State)
    requires VisitReady(w, fuel, cx, env, result, p, live, c, st, s) && st.Assign?
    ensures ExprReady(w, fuel, cx, env, p, c, st.value, None, s)
  {
    hide Inv, Compiled, Represents;
    var left := GenExpr(w.m, cx.scopes, p, c, Access(st.name), None);
    assert left.pool == p;
    hide GenExpr;
    var code := GenVisit(w.m, cx.scopes, ResultFlags(w.p.functions), p, c, st).code;
    var g := GenExpr(w.m, cx.scopes, p, c, st.value, None);
    GenExprOwners(w.m, cx.scopes, p, c, st.value, None);
    assert code == g.code + code[|g.code|..];
    CodeSplit(w.b, s.fn, s.pc, g.code, code[|g.code|..]);
  }

  /** The variable of an assignment, as both the source and the generator find it. */
  lemma AssignTarget(w: World, cx: Context, env: Env, p: Pool, c: nat, st: Stmt, result: Option<Ty>) returns (key: Key)
    requires st.Assign? && cx.scopes.depth > 0 && CheckStmt(w.p, cx, result, st).Some? && env.Keys == cx.types.Keys
    requires GenExpr(w.m, cx.scopes, p, c, Access(st.name), None).Emit?
    ensures key.Named? && key in cx.types && cx.types[key] == st.ty
    ensures Resolve(env.Keys, cx.scopes.depth, st.name) == Some(key.level) && key.name == st.name
    ensures key in p.owner && GenExpr(w.m, cx.scopes, p, c, Access(st.name), None) == Emit(p, [], p.owner[key])
  {
    key := Named(st.name, Resolve(cx.scopes.tables, cx.scopes.depth, st.name).value);
  }

  /** The instruction that ends an assignment to the variable in register `r`. */
  function StoreCode(st: Stmt, r: nat, right: int): seq<Word>
    requires st.Assign? && (st.assign.Compound? ==> st.ty != Bool)
  {
    if st.assign.Compound? then [PackThreeRegisters(DualOperatorInst(st.assign.op, st.ty), r, r, right)]
    else if st.value == Access(st.name) then []
    else [PackTwoRegisters(COPY_REGISTER, r, right)]
  }

  function StoredValue(st: Stmt, before: Value, v: Value): Option<Value>
    requires st.Assign?
  {
    Stored(AsCompiled, st.assign, st.ty, before, v)
  }

  ghost predicate AssignParts(w: World, fuel: nat, cx: Context, env: Env, result: Option<Ty>, p: Pool, c: nat,
                              st: Stmt, key: Key) {
    && st.Assign? && cx.scopes.depth > 0 && key.Named? && key in env && key in cx.types && cx.types[key] == st.ty
       && key in p.owner
    && Resolve(env.Keys, cx.scopes.depth, st.name) == Some(key.level) && key.name == st.name
    && (st.assign.Compound? ==> st.ty != Bool)
    && CheckStmt(w.p, cx, result, st) == Some(cx)
    && var g := GenExpr(w.m, cx.scopes, p, c, st.value, None);
    && g.Emit?
    && GenVisit(w.m, cx.scopes, ResultFlags(w.p.functions), p, c, st)
       == Gen(g.pool, g.code + StoreCode(st, p.owner[key], g.reg))
    && Fitting(TypeOf(w.p, cx, st.value), st.ty)
    && var v := Eval(w.p, AsCompiled, fuel, env, cx.scopes.depth, st.value);
    && v.Some? && StoredValue(st, env[key], v.value).Some?
    && Exec(w.p, AsCompiled, fuel, env, cx.scopes.depth, st)
       == Normal(env[key := StoredValue(st, env[key], v.value).value])
  }

  lemma AssignUnfolds(w: World, fuel: nat, cx: Context, env: Env, result: Option<Ty>, p: Pool, live: nat, c: nat,
                      st: Stmt, s: State) returns (key: Key)
    requires VisitReady(w, fuel, cx, env, result, p, live, c, st, s) && st.Assign?
    ensures AssignParts(w, fuel, cx, env, result, p, c, st, key)
  {
    hide Inv, Compiled, CodeAt, Fits;
    var left := GenExpr(w.m, cx.scopes, p, c, Access(st.name), None);
    assert left.Emit?;
    key := AssignTarget(w, cx, env, p, c, st, result);
    hide GenExpr, Represents, Resolve, Eval, EvalDual, TypeOf;
  }

  lemma AssignDone(w: World, fuel: nat, cx: Context, env: Env, result: Option<Ty>, p: Pool, live: nat, c: nat,
                   st: Stmt, s: State, t1: State)
    returns (t: State)
    requires VisitReady(w, fuel, cx, env, result, p, live, c, st, s) && st.Assign?
    requires ExprDone(w, fuel, cx, env, p, c, st.value, None, s, t1)
    ensures VisitDone(w, fuel, cx, env, result, p, live, c, st, s, t)
  {
    hide Inv, Compiled, Represents, GenExpr, Reaches, Shows, Passes, Preserves, Eval, TypeOf, Resolve, EvalDual, Exec,
         CheckStmt, GenVisit, Fits;
    hide PackTwoRegisters, PackThreeRegisters, Step, DualOperatorInst, CodeAt, TempCount;
    var key := AssignUnfolds(w, fuel, cx, env, result, p, live, c, st, s);
    var g := GenExpr(w.m, cx.scopes, p, c, st.value, None);
    var v := Eval(w.p, AsCompiled, fuel, env, cx.scopes.depth, st.value).value;
    GenExprOwners(w.m, cx.scopes, p, c, st.value, None);
    OwnerFacts(p);
    RepresentsKept(env, cx.types, p, cx.scopes.depth - 1, c, c + TempCount(st.value), s.regs, t1.regs);
    if st.value == Access(st.name) { SelfAssigned(w, fuel, cx, env, st, key); }
    PassesPromoted(t1.regs[g.reg], TypeOf(w.p, cx, st.value).value, st.ty, v);
    t := AssignStored(w, env, cx.types, p, key, st, v, s, g, t1);
  }

  /** A compound assignment leaves the high half, which still extends the value if its sign has not changed. */
  lemma CompoundShown(st: Stmt, was: Cell, before: Value, v: Value, cell: Cell)
    requires st.Assign? && st.assign.Compound? && st.ty != Bool && Shows(was, st.ty, before)
             && StoredValue(st, before, v).Some?
    requires Holds(cell, st.ty, StoredValue(st, before, v).value.n) && (!Is64(st.ty) ==> cell.hi == was.hi)
    ensures Shows(cell, st.ty, StoredValue(st, before, v).value)
  {
    hide EvalDual, Promote;
    var n := StoredValue(st, before, v).value.n;
    if !Is64(st.ty) && before.whole && SameExtension(st.ty, before.n, n) {
      PromotedRead(was, st.ty, before.n);
      PromotedRead(cell, st.ty, n);
    }
  }

  /** The store at the end of an assignment, if it needs one. */
  lemma AssignStored(w: World, env: Env, types: map<Key, Ty>, p: Pool, key: Key, st: Stmt, v: Value, s: State,
                     g: Emitted, t1: State)
    returns (t: State)
    requires g.Emit? && RanTo(w, s, |g.code|, t1) && |s.regs| <= NO_REGISTER
    requires st.Assign? && (st.assign.Compound? ==> st.ty != Bool)
    requires Inv(p) && key in p.owner && key.Named? && key in types && types[key] == st.ty && p.owner[key] < |t1.regs|
    requires Represents(env, types, p.owner, t1.regs)
    requires 0 <= g.reg < |t1.regs| && Passes(t1.regs[g.reg], st.ty, v)
    requires key in env && StoredValue(st, env[key], v).Some?
    requires st.assign.Copy? && st.value == Access(st.name) ==> v == env[key]
    requires CodeAt(w.b, s.fn, s.pc, g.code + StoreCode(st, p.owner[key], g.reg))
    ensures RanTo(w, s, |g.code| + |StoreCode(st, p.owner[key], g.reg)|, t)
    ensures Represents(env[key := StoredValue(st, env[key], v).value], types, p.owner, t.regs)
  {
    hide Inv, Reaches, Holds, Shows, EvalDual, PackThreeRegisters, PackTwoRegisters, Step, DualOperatorInst, CodeAt,
         Represents;
    var r := p.owner[key];
    assert types[key := st.ty] == types;
    CodeSplit(w.b, s.fn, s.pc, g.code, StoreCode(st, r, g.reg));
    var cell := t1.regs[g.reg];
    if st.assign.Compound? {
      VariableHeld(env, types, p, key, t1.regs);
      PromotedShown(cell, st.ty, v);
      ShownHolds(cell, st.ty, Promote(AsCompiled, st.ty, v).value);
      ShownHolds(t1.regs[r], st.ty, env[key]);
      cell := StepDual(w.b, t1, st.assign.op, st.ty, r, r, g.reg, env[key].n, v.n);
      CompoundShown(st, t1.regs[r], env[key], v, cell);
    } else if st.value == Access(st.name) {
      t := t1;
      VariableHeld(env, types, p, key, t1.regs);
      ShownHolds(t1.regs[r], st.ty, env[key]);
      assert env[key := v] == env;
      return;
    } else {
      PromotedShown(cell, st.ty, v);
      StepCopy(w.b, t1, r, g.reg);
    }
    t := RanStep(w, t1, 1, t1.regs[r := cell]);
    RanOn(w, s, |g.code|, t1, 1, t);
    StoreVariable(env, types, p, key, st.ty, StoredValue(st, env[key], v).value, cell, t1.regs);
  }

  /** Assigning a variable to itself emits nothing and changes nothing. */
  lemma SelfAssigned(w: World, fuel: nat, cx: Context, env: Env, st: Stmt, key: Key)
    requires st.Assign? && st.value == Access(st.name) && key in env
    requires Resolve(env.Keys, cx.scopes.depth, st.name) == Some(key.level) && key == Named(st.name, key.level)
    ensures Eval(w.p, AsCompiled, fuel, env, cx.scopes.depth, st.value) == Some(env[key]) && env[key := env[key]] == env
  {
  }

  /** A call that is a statement keeps its result, if any, in the temporary of its node. */
  function CallTarget(w: World, cx: Context, c: nat, e: Expr): Option<Key>
    requires e.Call? && cx.scopes.depth > 0
  {
    if e.callee < |w.p.functions|
        && w.p.functions[e.callee].result.Some? then Some(ResultKey(cx.scopes, c, e, None)) else None
  }

  lemma EvaluateReady(w: World, fuel: nat, cx: Context, env: Env, result: Option<Ty>, p: Pool, live: nat, c: nat,
                      st: Stmt, s: State)
    requires VisitReady(w, fuel, cx, env, result, p, live, c, st, s) && st.Evaluate?
    ensures if st.e.Call? then CallReady(w, fuel, cx, env, p, c, st.e.callee, st.e.args, CallTarget(w, cx, c, st.e), s)
            else ExprReady(w, fuel, cx, env, p, c, st.e, None, s)
  {
    hide Inv, Compiled, Represents, GenCall, EvalArgs, Invoke, CheckArgs;
    if st.e.Call? {
      assert CheckCall(w.p, cx, st.e.callee, st.e.args);
      GenCallOwners(w.m, cx.scopes, p, c, st.e.callee, st.e.args, CallTarget(w, cx, c, st.e));
    } else {
      GenExprOwners(w.m, cx.scopes, p, c, st.e, None);
    }
  }

  lemma EvaluateDone(w: World, fuel: nat, cx: Context, env: Env, result: Option<Ty>, p: Pool, live: nat, c: nat,
                     st: Stmt, s: State, t: State)
    requires VisitReady(w, fuel, cx, env, result, p, live, c, st, s) && st.Evaluate? && !st.e.Call?
    requires ExprDone(w, fuel, cx, env, p, c, st.e, None, s, t)
    ensures VisitDone(w, fuel, cx, env, result, p, live, c, st, s, t)
  {
    hide Inv, Compiled, Represents, GenCall, EvalArgs, Invoke, CheckArgs, Reaches, Shows, Preserves;
    RepresentsKept(env, cx.types, p, cx.scopes.depth - 1, c, c + TempCount(st.e), s.regs, t.regs);
  }

  lemma EvaluateCallDone(w: World, fuel: nat, cx: Context, env: Env, result: Option<Ty>, p: Pool, live: nat, c: nat,
                         st: Stmt, s: State, t: State)
    requires VisitReady(w, fuel, cx, env, result, p, live, c, st, s) && st.Evaluate? && st.e.Call?
    requires CallDone(w, fuel, cx, env, p, c, st.e.callee, st.e.args, CallTarget(w, cx, c, st.e), s, t)
    ensures VisitDone(w, fuel, cx, env, result, p, live, c, st, s, t)
  {
    hide Inv, Compiled, Represents, GenCall, EvalArgs, Invoke, CheckArgs, Reaches, Shows, Preserves;
    CallTargetIsTemp(w, cx, p, c, st.e, s.regs, t.regs);
    RepresentsKept(env, cx.types, p, cx.scopes.depth - 1, c, c + TempCount(st.e), s.regs, t.regs);
  }

  lemma CallTargetIsTemp(w: World, cx: Context, p: Pool, c: nat, e: Expr, regs: seq<Cell>, after: seq<Cell>)
    requires e.Call? && cx.scopes.depth > 0
    requires Preserves(p, cx.scopes.depth - 1, c, c + ArgsTempCount(e.args), CallTarget(w, cx, c, e), regs, after)
    ensures Preserves(p, cx.scopes.depth - 1, c, c + TempCount(e), None, regs, after)
  {
  }

  lemma ReturnReady(w: World, fuel: nat, cx: Context, env: Env, result: Option<Ty>, p: Pool, live: nat, c: nat,
                    st: Stmt, s: State)
    requires VisitReady(w, fuel, cx, env, result, p, live, c, st, s) && st.Return? && st.result.Some?
    ensures ExprReady(w, fuel, cx, env, p, c, st.result.value, None, s)
  {
    hide Inv, Compiled, Represents, GenExpr;
    var g := GenExpr(w.m, cx.scopes, p, c, st.result.value, None);
    GenExprOwners(w.m, cx.scopes, p, c, st.result.value, None);
    CodeSplit(w.b, s.fn, s.pc, g.code, [PackDstValue(RETURN, g.reg, 0)]);
  }

  lemma ReturnDone(w: World, fuel: nat, cx: Context, env: Env, result: Option<Ty>, p: Pool, live: nat, c: nat,
                   st: Stmt, s: State, t: State)
    requires VisitReady(w, fuel, cx, env, result, p, live, c, st, s) && st.Return? && st.result.Some?
    requires ExprDone(w, fuel, cx, env, p, c, st.result.value, None, s, t)
    ensures VisitDone(w, fuel, cx, env, result, p, live, c, st, s, t)
  {
    hide Inv, Compiled, Represents, GenExpr, Reaches, Shows, Passes, Preserves, Eval, TypeOf, PackDstValue;
    var g := GenExpr(w.m, cx.scopes, p, c, st.result.value, None);
    CodeSplit(w.b, s.fn, s.pc, g.code, [PackDstValue(RETURN, g.reg, 0)]);
    var reg: nat := g.reg;
    PassesPromoted(t.regs[reg], TypeOf(w.p, cx, st.result.value).value, result.value,
                   Eval(w.p, AsCompiled, fuel, env, cx.scopes.depth, st.result.value).value);
    assert CodeAt(w.b, t.fn, t.pc, [PackDstValue(RETURN, reg, 0)]);
  }

  lemma ReturnNothing(w: World, fuel: nat, cx: Context, env: Env, result: Option<Ty>, p: Pool, live: nat, c: nat,
                      st: Stmt, s: State)
    requires VisitReady(w, fuel, cx, env, result, p, live, c, st, s) && st == Return(None)
    ensures VisitDone(w, fuel, cx, env, result, p, live, c, st, s, s)
  {
    hide Inv, Compiled, Represents, PackDstValue;
    ReachesItself(w.b, s);
  }
}
