/**
  The parts of a call: loading the function, pushing the arguments, entering the
  callee's frame, and resuming the caller.
 */
module CallSteps {
  import opened Options
  import opened Values
  import opened Bytecode
  import opened Registers
  import opened RegisterPool
  import opened Ast
  import opened Semantics
  import opened CodeGen
  import opened CodeGenPool
  import opened Checking
  import opened Machine
  import opened CompiledSteps
  import opened CompilerRelation
  import opened ExpressionSteps

  ghost predicate CallReady(w: World, fuel: nat, cx: Context, env: Env, p: Pool, c: nat, callee: nat, args: seq<Expr>,
                            result: Option<Key>, s: State) {
    && cx.scopes.depth > 0 && CheckCall(w.p, cx, callee, args)
    && var values := EvalArgs(w.p, AsCompiled, fuel, env, cx.scopes.depth, args);
    && values.Some? && Invoke(w.p, AsCompiled, fuel, callee, values.value).Some?
    && var g := GenCall(w.m, cx.scopes, p, c, callee, args, result);
    && g.Emit? && Ready(w, p, g.pool.used, s, g.code)
    && s.pending.None? && (result.Some? == w.p.functions[callee].result.Some?)
    && Represents(env, cx.types, p.owner, s.regs)
  }

  ghost predicate CallDone(w: World, fuel: nat, cx: Context, env: Env, p: Pool, c: nat, callee: nat, args: seq<Expr>,
                           result: Option<Key>, s: State, t: State)
  {
    CallReady(w, fuel, cx, env, p, c, callee, args, result, s) &&
    var g := GenCall(w.m, cx.scopes, p, c, callee, args, result);
    var v := Invoke(w.p, AsCompiled, fuel, callee,
                    EvalArgs(w.p, AsCompiled, fuel, env, cx.scopes.depth, args).value).value;
    && RanTo(w, s, |g.code|, t)
    && v.Some? == result.Some?
    && (result.Some? ==> 0 <= g.reg < |t.regs| && Shows(t.regs[g.reg], w.p.functions[callee].result.value, v.value))
    && Preserves(p, cx.scopes.depth - 1, c, c + ArgsTempCount(args), result, s.regs, t.regs)
  }

  lemma CallKept(w: World, cx: Context, p: Pool, c: nat, e: Expr, target: Option<Key>, s: State, t: State)
    requires e.Call? && cx.scopes.depth > 0 && s.Running? && t.Running?
    requires Preserves(p, cx.scopes.depth - 1, c, c + ArgsTempCount(e.args), Some(ResultKey(cx.scopes, c, e, target)),
                       s.regs, t.regs)
    ensures Preserves(p, cx.scopes.depth - 1, c, c + TempCount(e), target, s.regs, t.regs)
  {
  }

  /** The function is loaded into its temporary, and its frame is open and zeroed. */
  lemma FunctionLoaded(w: World, fuel: nat, cx: Context, env: Env, p: Pool, c: nat, callee: nat, args: seq<Expr>,
                       result: Option<Key>, s: State)
    returns (s1: State)
    requires CallReady(w, fuel, cx, env, p, c, callee, args, result, s)
    ensures ArgsReady(w, fuel, cx, env, AllocateTemporary(p), c, w.p.functions[callee].params, args, s1)
    ensures Opened(w, p, callee, s, s1)
  {
    hide Inv, Shows, Reaches, PackDstValue, PackThreeRegisters, Step, CodeAt, GenArgs, GenCall, EvalArgs, Invoke,
         CheckArgs, Compiled, Represents, AllocateTemporary;
    CallParts(w, fuel, cx, env, p, c, callee, args, result, s);
    var fn := AllocatedTemporary(p);
    AllocateTemporaryInv(p);
    StepLoadFunction(w.b, s, fn, callee);
    s1 := s.(pc := s.pc + 1, regs := s.regs[fn := FunctionPointer(w.b, callee)],
             pending := Some(Pending(Zeros(w.b.functions[callee].nRegisters), 0)));
    ReachesStep(w.b, s, s1);
    OthersKept(env, cx.types, p, s.regs, fn, FunctionPointer(w.b, callee));
  }

  lemma OthersKept(env: Env, types: map<Key, Ty>, p: Pool, regs: seq<Cell>, r: nat, cell: Cell)
    requires Represents(env, types, p.owner, regs) && r < |regs| && forall k :: k in p.owner ==> p.owner[k] != r
    ensures Represents(env, types, AllocateTemporary(p).owner, regs[r := cell])
  {
  }

  /** The words of a call: the load, the arguments, the call. */
  lemma CallParts(w: World, fuel: nat, cx: Context, env: Env, p: Pool, c: nat, callee: nat, args: seq<Expr>,
                  result: Option<Key>, s: State)
    requires CallReady(w, fuel, cx, env, p, c, callee, args, result, s)
    ensures var g, a := GenCall(w.m, cx.scopes, p, c, callee, args, result),
            GenArgs(w.m, cx.scopes, AllocateTemporary(p), c, args);
            var fn := AllocatedTemporary(p);
            && SameOwners(p, g.pool) && 0 <= fn < |s.regs| && a.Gen? && SameOwners(AllocateTemporary(p), a.pool)
               && a.pool.used <= |s.regs|
            && CodeAt(w.b, s.fn, s.pc, [PackDstValue(LOAD_FUNCTION, fn, callee)])
            && CodeAt(w.b, s.fn, s.pc + 1, a.code)
            && CodeAt(w.b, s.fn, s.pc + 1 + |a.code|, [PackThreeRegisters(CALL, fn, g.reg, |args|)])
            && |g.code| == |a.code| + 2
            && (forall k :: k in p.owner ==> p.owner[k] != fn) && fn in AllocateTemporary(p).temps
            && (result.Some? ==>
                result.value in p.owner && g.reg == p.owner[result.value] && p.owner[result.value] < p.used)
            && (result.None? ==> g.reg == UNUSED)
    ensures CheckArgs(w.p, cx, w.p.functions[callee].params, args) && |w.p.functions[callee].params| == |args|
    ensures callee < |w.b.functions| && callee < TWO_16 && |args| <= w.b.functions[callee].nRegisters <= MAX_REGISTERS
  {
    hide Inv, Shows, Reaches, PackDstValue, PackThreeRegisters, Step, CodeAt, GenArgs, EvalArgs, Invoke, CheckArgs,
         Represents, CompiledFunction, CheckProgram;
    GenCallOwners(w.m, cx.scopes, p, c, callee, args, result);
    AllocateTemporaryInv(p);
    OwnerFacts(p);
    var fn, a := AllocatedTemporary(p), GenArgs(w.m, cx.scopes, AllocateTemporary(p), c, args);
    GenArgsOwners(w.m, cx.scopes, AllocateTemporary(p), c, args);
    var g := GenCall(w.m, cx.scopes, p, c, callee, args, result);
    CodeSplit3(w.b, s.fn, s.pc, [PackDstValue(LOAD_FUNCTION, fn, callee)], a.code,
               [PackThreeRegisters(CALL, fn, g.reg, |args|)]);
    ArgsCounted(w, cx, w.p.functions[callee].params, args);
    FunctionRoom(w, callee);
  }

  lemma ArgsCounted(w: World, cx: Context, params: seq<Parameter>, args: seq<Expr>)
    requires CheckArgs(w.p, cx, params, args)
    ensures |params| == |args|
  {
  }

  ghost predicate Opened(w: World, p: Pool, callee: nat, s: State, s1: State) {
    && ValidBinary(w.b) && s.Running? && callee < |w.b.functions| && 0 <= AllocatedTemporary(p) < |s.regs|
    && s1 == s.(pc := s.pc + 1, regs := s.regs[AllocatedTemporary(p) := FunctionPointer(w.b, callee)],
                pending := Some(Pending(Zeros(w.b.functions[callee].nRegisters), 0)))
    && Reaches(w.b, s, s1)
  }

  ghost predicate ArgsReady(w: World, fuel: nat, cx: Context, env: Env, p: Pool, c: nat, params: seq<Parameter>,
                            args: seq<Expr>, s: State) {
    && cx.scopes.depth > 0 && CheckArgs(w.p, cx, params, args)
       && EvalArgs(w.p, AsCompiled, fuel, env, cx.scopes.depth, args).Some?
    && var g := GenArgs(w.m, cx.scopes, p, c, args);
    && g.Gen? && Ready(w, p, g.pool.used, s, g.code)
    && s.pending.Some? && s.pending.value.pushed + |args| <= |s.pending.value.cells|
    && Represents(env, cx.types, p.owner, s.regs)
  }

  /** Argument i is in cell i past those pushed before; no other cell of the open frame changes. */
  ghost predicate ArgsDone(w: World, fuel: nat, cx: Context, env: Env, p: Pool, c: nat, params: seq<Parameter>,
                           args: seq<Expr>, s: State, t: State)
  {
    ArgsReady(w, fuel, cx, env, p, c, params, args, s) &&
    var values := EvalArgs(w.p, AsCompiled, fuel, env, cx.scopes.depth, args).value;
    var before := s.pending.value;
    && ValidBinary(w.b) && Reaches(w.b, s, t)
    && t.Running? && t.pending.Some? && |t.pending.value.cells| == |before.cells|
    && t == s.(pc := s.pc + |GenArgs(w.m, cx.scopes, p, c, args).code|, regs := t.regs, pending := t.pending)
    && t.pending.value.pushed == before.pushed + |args|
    && (forall i :: 0 <= i < |args| ==> Passes(t.pending.value.cells[before.pushed + i], params[i].ty, values[i]))
    && (forall i :: 0 <= i < |before.cells| && !(before.pushed <= i < before.pushed + |args|) ==>
        t.pending.value.cells[i] == before.cells[i])
    && Preserves(p, cx.scopes.depth - 1, c, c + ArgsTempCount(args), None, s.regs, t.regs)
  }

  lemma NoArgs(w: World, fuel: nat, cx: Context, env: Env, p: Pool, c: nat, params: seq<Parameter>, args: seq<Expr>,
               s: State) returns (t: State)
    requires ArgsReady(w, fuel, cx, env, p, c, params, args, s) && args == []
    ensures ArgsDone(w, fuel, cx, env, p, c, params, args, s, t)
  {
    hide Inv, Shows, Reaches, CodeAt, Preserves, Represents, Compiled;
    t := s;
    ReachesItself(w.b, s);
    NothingWritten(p, cx.scopes.depth - 1, c, s.regs);
  }

  lemma FirstArg(w: World, fuel: nat, cx: Context, env: Env, p: Pool, c: nat, params: seq<Parameter>, args: seq<Expr>,
                 s: State)
    returns (g1: Emitted)
    requires ArgsReady(w, fuel, cx, env, p, c, params, args, s) && args != []
    ensures ExprReady(w, fuel, cx, env, p, c, args[0], None, s)
    ensures ArgParts(w, fuel, cx, env, p, c, params, args, s, g1)
  {
    hide Inv, Shows, Reaches, CodeAt, Preserves, Represents, Compiled, PackOneRegister, CallFree, GenExpr, TypeOf, Eval;
    g1 := GenExpr(w.m, cx.scopes, p, c, args[0], None);
    var mid := c + TempCount(args[0]);
    var g2 := GenArgs(w.m, cx.scopes, g1.pool, mid, args[1..]);
    GenExprOwners(w.m, cx.scopes, p, c, args[0], None);
    GenArgsOwners(w.m, cx.scopes, g1.pool, mid, args[1..]);
    CodeSplit3(w.b, s.fn, s.pc, g1.code, [PackOneRegister(PUSH_ARG, g1.reg)], g2.code);
  }

  /** The first argument of a list and the rest of it. */
  ghost predicate ArgParts(w: World, fuel: nat, cx: Context, env: Env, p: Pool, c: nat, params: seq<Parameter>,
                           args: seq<Expr>, s: State, g1: Emitted) {
    && cx.scopes.depth > 0 && args != [] && params != [] && s.Running?
    && g1 == GenExpr(w.m, cx.scopes, p, c, args[0], None) && g1.Emit? && SameOwners(p, g1.pool)
    && var g2 := GenArgs(w.m, cx.scopes, g1.pool, c + TempCount(args[0]), args[1..]);
    && g2.Gen? && g1.pool.used <= g2.pool.used <= |s.regs|
    && GenArgs(w.m, cx.scopes, p, c, args) == Gen(g2.pool, g1.code + [PackOneRegister(PUSH_ARG, g1.reg)] + g2.code)
    && CodeAt(w.b, s.fn, s.pc + |g1.code|, [PackOneRegister(PUSH_ARG, g1.reg)])
    && CodeAt(w.b, s.fn, s.pc + |g1.code| + 1, g2.code)
    && Fitting(TypeOf(w.p, cx, args[0]), params[0].ty) && CheckArgs(w.p, cx, params[1..], args[1..])
       && |params| == |args|
    && var v, rest := Eval(w.p, AsCompiled, fuel, env, cx.scopes.depth, args[0]),
       EvalArgs(w.p, AsCompiled, fuel, env, cx.scopes.depth, args[1..]);
    && v.Some? && rest.Some?
       && EvalArgs(w.p, AsCompiled, fuel, env, cx.scopes.depth, args) == Some([v.value] + rest.value)
  }

  /** The register's cell is pushed, and nothing else changes. */
  ghost predicate OnePushed(w: World, s: State, reg: int, t: State) {
    && ValidBinary(w.b) && s.Running? && s.pending.Some? && s.pending.value.pushed < |s.pending.value.cells|
       && 0 <= reg < |s.regs|
    && t == s.(pc := s.pc + 1,
               pending := Some(Pending(s.pending.value.cells[s.pending.value.pushed := s.regs[reg]],
                                       s.pending.value.pushed + 1)))
    && Reaches(w.b, s, t)
  }

  lemma FirstPushed(w: World, fuel: nat, cx: Context, env: Env, p: Pool, c: nat, params: seq<Parameter>,
                    args: seq<Expr>, s: State,
                    g1: Emitted, t1: State) returns (t2: State)
    requires ArgParts(w, fuel, cx, env, p, c, params, args, s, g1)
    requires ArgsReady(w, fuel, cx, env, p, c, params, args, s)
    requires ExprDone(w, fuel, cx, env, p, c, args[0], None, s, t1)
    ensures ArgsReady(w, fuel, cx, env, g1.pool, c + TempCount(args[0]), params[1..], args[1..], t2)
    ensures OnePushed(w, t1, g1.reg, t2)
  {
    hide Inv, Shows, Passes, Reaches, CodeAt, Preserves, Represents, Compiled, PackOneRegister, CallFree, GenExpr,
         GenArgs, EvalArgs, TypeOf, Eval, CheckArgs;
    RepresentsKept(env, cx.types, p, cx.scopes.depth - 1, c, c + TempCount(args[0]), s.regs, t1.regs);
    t2 := Pushed(w, t1, g1.reg);
  }

  lemma AllPushed(w: World, fuel: nat, cx: Context, env: Env, p: Pool, c: nat, params: seq<Parameter>, args: seq<Expr>,
                  s: State,
                  g1: Emitted, t1: State, t2: State, t: State)
    requires ArgParts(w, fuel, cx, env, p, c, params, args, s, g1)
    requires ArgsReady(w, fuel, cx, env, p, c, params, args, s)
    requires RanTo(w, s, |g1.code|, t1) && 0 <= g1.reg < |t1.regs|
    requires Passes(t1.regs[g1.reg], params[0].ty, Eval(w.p, AsCompiled, fuel, env, cx.scopes.depth, args[0]).value)
    requires Preserves(p, cx.scopes.depth - 1, c, c + TempCount(args[0]), None, s.regs, t1.regs)
    requires OnePushed(w, t1, g1.reg, t2)
    requires ArgsDone(w, fuel, cx, env, g1.pool, c + TempCount(args[0]), params[1..], args[1..], t2, t)
    ensures ArgsDone(w, fuel, cx, env, p, c, params, args, s, t)
  {
    hide Inv, Shows, Passes, Reaches, CodeAt, Preserves, Represents, Compiled, PackOneRegister, CallFree, GenExpr,
         GenArgs, EvalArgs, TypeOf, Eval, CheckArgs;
    hide TempCount, SameOwners;
    var mid := c + TempCount(args[0]);
    assert ArgsTempCount(args) == TempCount(args[0]) + ArgsTempCount(args[1..]);
    ReachesTransitive(w.b, s, t1, t2);
    ReachesTransitive(w.b, s, t2, t);
    ArgsKept(p, g1.pool, cx.scopes.depth - 1, c, mid, mid + ArgsTempCount(args[1..]), s.regs, t1.regs, t.regs);
  }

  lemma NothingWritten(p: Pool, level: nat, c: nat, regs: seq<Cell>)
    ensures Preserves(p, level, c, c, None, regs, regs)
  {
  }

  lemma ArgsKept(p: Pool, p1: Pool, level: nat, c: nat, mid: nat, end: nat, regs: seq<Cell>, regs1: seq<Cell>,
                 regs2: seq<Cell>)
    requires c <= mid <= end && SameOwners(p, p1)
    requires Preserves(p, level, c, mid, None, regs, regs1) && Preserves(p1, level, mid, end, None, regs1, regs2)
    ensures Preserves(p, level, c, end, None, regs, regs2)
  {
    hide Inv;
  }

  lemma Pushed(w: World, s: State, reg: int) returns (t: State)
    requires At(w.b, s, PackOneRegister(PUSH_ARG, reg)) && 0 <= reg < |s.regs|
    requires s.pending.Some? && s.pending.value.pushed < |s.pending.value.cells|
    ensures OnePushed(w, s, reg, t)
  {
    StepPush(w.b, s, reg);
    var p := s.pending.value;
    t := s.(pc := s.pc + 1, pending := Some(Pending(p.cells[p.pushed := s.regs[reg]], p.pushed + 1)));
    ReachesStep(w.b, s, t);
  }

  /** Names allocated one after another from a pool nothing was given back to get consecutive registers. */
  lemma {:induction false} NamesInOrder(p: Pool, names: seq<string>)
    requires Inv(p) && p.recycled == [] && VarsFit(p, 1, names)
    requires forall i, j :: 0 <= i < j < |names| ==> names[i] != names[j]
    requires forall i :: 0 <= i < |names| ==> Named(names[i], 1) !in p.owner
    ensures var q := AllocateVars(p, 1, names);
            && Inv(q) && q.recycled == [] && q.temps == p.temps && q.used == p.used + |names|
            && forall i :: 0 <= i < |names| ==> InRegister(q, names[i], p.used + i)
    decreases |names|
  {
    hide Inv;
    if names != [] {
      AllocateInv(p, Named(names[0], 1));
      NamesInOrder(Allocate(p, Named(names[0], 1)), names[1..]);
      AllocateVarsOwners(Allocate(p, Named(names[0], 1)), 1, names[1..]);
    }
  }

  /** Parameter k is in register k when a function's code begins. */
  lemma ParametersFirst(f: FunctionDecl)
    requires SetupPool(f).Some? && DistinctNames(f.params)
    ensures Fits(SetupPool(f).value, 2, 0) && SetupPool(f).value.temps == {} && |f.params| <= SetupPool(f).value.used
    ensures forall i :: 0 <= i < |f.params| ==> InRegister(SetupPool(f).value, f.params[i].name, i)
  {
    hide Inv, AllocateVars, VarsFit;
    EmptyPoolInv();
    var names := ParameterNames(f.params);
    var p := AllocateVars(EMPTY_POOL, 1, names);
    NamesInOrder(EMPTY_POOL, names);
    AllocateVarsOwners(EMPTY_POOL, 1, names);
    AllocateVarsOwners(p, 1, f.body.vars);
    forall i | 0 <= i < |f.params|
      ensures InRegister(SetupPool(f).value, f.params[i].name, i)
    {
      assert InRegister(p, names[i], i);
    }
  }

  lemma EmptyPoolInv()
    ensures Inv(EMPTY_POOL)
  {
  }

  predicate InRegister(p: Pool, name: string, i: nat) {
    Named(name, 1) in p.owner && p.owner[Named(name, 1)] == i
  }

  lemma FunctionRoom(w: World, i: nat)
    requires Compiled(w) && i < |w.p.functions|
    ensures i < |w.b.functions| && |w.p.functions[i].params| <= w.b.functions[i].nRegisters <= MAX_REGISTERS
  {
    assert CompiledFunction(w, i) && CheckFunction(w.p, w.p.functions[i]);
    FunctionPool(w, i);
  }

  /** The frame of a function has room for every register its code uses. */
  lemma FunctionPool(w: World, i: nat)
    requires CompiledFunction(w, i) && CheckFunction(w.p, w.p.functions[i])
    ensures var f := w.p.functions[i]; var p := SetupPool(f).value;
            var g := GenStmts(w.m, OpenScope(FUNCTION_SCOPES, f.body.vars), ResultFlags(w.p.functions), p, 0,
                              f.body.stmts);
            && SetupPool(f).Some? && g.Gen? && Fits(p, 2, 0)
               && p.used <= g.pool.used <= w.b.functions[i].nRegisters <= MAX_REGISTERS
            && |f.params| <= p.used
  {
    var f := w.p.functions[i];
    ParametersFirst(f);
    var sc := OpenScope(FUNCTION_SCOPES, f.body.vars);
    var p := SetupPool(f).value;
    GenStmtsOwners(w.m, sc, ResultFlags(w.p.functions), p, 0, f.body.stmts);
    var g := GenStmts(w.m, sc, ResultFlags(w.p.functions), p, 0, f.body.stmts);
    DeallocateVarsOwners(g.pool, 1, f.body.vars);
    assert g.pool.used <= MAX_REGISTERS;
  }

  /** A frame at the first word of a function, parameter k in register k. */
  ghost predicate InvokeReady(w: World, fuel: nat, callee: nat, values: seq<Value>, s: State) {
    && Compiled(w) && ValidBinary(w.b) && callee < |w.p.functions| && callee < |w.b.functions|
    && Invoke(w.p, AsCompiled, fuel, callee, values).Some?
    && s.Running? && s.fn == callee && s.pc == 0 && s.pending.None? && |s.regs| == w.b.functions[callee].nRegisters
    && |values| == |w.p.functions[callee].params| <= |s.regs| <= NO_REGISTER
    && forall i :: 0 <= i < |values| ==> Passes(s.regs[i], w.p.functions[callee].params[i].ty, values[i])
  }

  /** The arguments as the function's variables hold them. */
  function Bound(w: World, callee: nat, values: seq<Value>): (bound: Option<seq<Value>>)
    requires callee < |w.p.functions| && |w.p.functions[callee].params| == |values|
    ensures bound.Some? ==> |bound.value| == |values|
  {
    PromoteAll(AsCompiled, w.p.functions[callee].params, values)
  }

  lemma BoundShown(w: World, callee: nat, values: seq<Value>, regs: seq<Cell>)
    requires callee < |w.p.functions| && |w.p.functions[callee].params| == |values| <= |regs|
             && Bound(w, callee, values).Some?
    requires forall i :: 0 <= i < |values| ==> Passes(regs[i], w.p.functions[callee].params[i].ty, values[i])
    ensures forall i :: 0 <= i < |values| ==>
            Shows(regs[i], w.p.functions[callee].params[i].ty, Bound(w, callee, values).value[i])
  {
    hide Shows;
    forall i | 0 <= i < |values|
      ensures Shows(regs[i], w.p.functions[callee].params[i].ty, Bound(w, callee, values).value[i])
    {
      PromotedShown(regs[i], w.p.functions[callee].params[i].ty, values[i]);
    }
  }

  lemma BodyReady(w: World, fuel: nat, callee: nat, values: seq<Value>, s: State)
    requires InvokeReady(w, fuel, callee, values, s)
    ensures fuel > 0 && SetupPool(w.p.functions[callee]).Some? && Bound(w, callee, values).Some?
    ensures var f := w.p.functions[callee];
            StmtsReady(w, fuel - 1, FunctionContext(f), Bind(f.params, Bound(w, callee, values).value), f.result,
                       SetupPool(f).value, 0, f.body.stmts, s)
  {
    hide Inv, Shows, Passes, Promote, Represents, Compiled, GenStmts, ExecAll, CheckStmts, PackDstValue, AllocateVars,
         VarsFit, SetupPool, CheckFunction;
    hide CompiledFunction, CodeAt, Step;
    var f := w.p.functions[callee];
    CompiledAt(w, callee);
    FunctionCode(w, callee);
    FunctionPool(w, callee);
    ParametersFirst(f);
    var p := SetupPool(f).value;
    BoundShown(w, callee, values, s.regs);
    ParametersBound(f.params, Bound(w, callee, values).value, p, s.regs);
  }

  lemma CompiledAt(w: World, i: nat)
    requires Compiled(w) && i < |w.p.functions|
    ensures CompiledFunction(w, i) && CheckFunction(w.p, w.p.functions[i])
  {
  }

  lemma FunctionCode(w: World, i: nat)
    requires CompiledFunction(w, i) && CheckFunction(w.p, w.p.functions[i])
    ensures SetupPool(w.p.functions[i]).Some?
    ensures var f := w.p.functions[i];
            var g := GenStmts(w.m, OpenScope(FUNCTION_SCOPES, f.body.vars), ResultFlags(w.p.functions),
                              SetupPool(f).value, 0, f.body.stmts);
            && g.Gen? && CodeAt(w.b, i, 0, g.code)
            && CheckStmts(w.p, FunctionContext(f), f.result, f.body.stmts)
            && DistinctNames(f.params)
  {
    hide GenStmts, SetupPool, CheckStmts;
    var f := w.p.functions[i];
    var code := w.b.functions[i].code;
    var g := GenStmts(w.m, OpenScope(FUNCTION_SCOPES, f.body.vars), ResultFlags(w.p.functions), SetupPool(f).value, 0,
                      f.body.stmts);
    assert code[0..|g.code|] == g.code;
  }

  lemma {:induction false} ParametersBound(params: seq<Parameter>, values: seq<Value>, p: Pool, regs: seq<Cell>)
    requires |params| == |values| <= |regs|
    requires forall i :: 0 <= i < |params| ==> InRegister(p, params[i].name, i)
    requires forall i :: 0 <= i < |params| ==> Shows(regs[i], params[i].ty, values[i])
    ensures Represents(Bind(params, values), ParameterTypes(params), p.owner, regs)
    ensures forall k :: k in ParameterTypes(params) ==> k.level == 1
  {
    hide Shows;
    if params != [] {
      var n := |params| - 1;
      ParametersBound(params[..n], values[..n], p, regs);
      assert InRegister(p, params[n].name, n);
    }
  }

  /** A call yields a value of the function's own type. */
  predicate OfType(value: Option<Value>, result: Option<Ty>) {
    value.Some? == result.Some? && (value.Some? ==> value.value.ty == result.value)
  }

  /** What is returned is still shown when it is promoted to the function's type. */
  lemma DeliveredShown(b: Binary, t: State, value: Option<Value>, result: Option<Ty>)
    requires AtReturn(b, t, value, result) && Delivered(AsCompiled, result, value).Some?
    ensures AtReturn(b, t, Delivered(AsCompiled, result, value).value, result)
    ensures OfType(Delivered(AsCompiled, result, value).value, result)
  {
    hide Shows;
    if value.Some? {
      var reg: nat :| reg < |t.regs| && CodeAt(b, t.fn, t.pc, [PackDstValue(RETURN, reg, 0)])
        && Passes(t.regs[reg], result.value, value.value);
      PromotedShown(t.regs[reg], result.value, value.value);
      assert Passes(t.regs[reg], result.value, Delivered(AsCompiled, result, value).value.value);
    }
  }

  /** What an invocation makes of how its body ends. */
  lemma InvokeUnfolds(w: World, fuel: nat, callee: nat, values: seq<Value>)
    requires callee < |w.p.functions| && Invoke(w.p, AsCompiled, fuel, callee, values).Some?
    ensures fuel > 0 && |w.p.functions[callee].params| == |values| && Bound(w, callee, values).Some?
    ensures var f := w.p.functions[callee];
            match ExecAll(w.p, AsCompiled, fuel - 1, Bind(f.params, Bound(w, callee, values).value), 2, f.body.stmts)
            case Done(value) => Invoke(w.p, AsCompiled, fuel, callee, values) == Delivered(AsCompiled, f.result, value)
            case Normal(_) => f.result.None? && Invoke(w.p, AsCompiled, fuel, callee, values) == Some(None)
            case Stuck => false
  {
    hide ExecAll, PromoteAll, Delivered;
  }

  /** The code of a function without a result ends in a return. */
  lemma LastReturn(w: World, i: nat)
    requires Compiled(w) && i < |w.p.functions| && SetupPool(w.p.functions[i]).Some? && w.p.functions[i].result.None?
    ensures var f := w.p.functions[i];
            var g := GenStmts(w.m, OpenScope(FUNCTION_SCOPES, f.body.vars), ResultFlags(w.p.functions),
                              SetupPool(f).value, 0, f.body.stmts);
            g.Gen? ==> CodeAt(w.b, i, |g.code|, [PackDstValue(RETURN, NO_REGISTER, 0)])
  {
    hide GenStmts, SetupPool, CheckProgram, PackDstValue;
    assert CompiledFunction(w, i);
    var f := w.p.functions[i];
    var g := GenStmts(w.m, OpenScope(FUNCTION_SCOPES, f.body.vars), ResultFlags(w.p.functions), SetupPool(f).value, 0,
                      f.body.stmts);
    if g.Gen? {
      var last := [PackDstValue(RETURN, NO_REGISTER, 0)];
      assert w.b.functions[i].code == g.code + last;
      assert (g.code + last)[|g.code|..|g.code| + 1] == last;
    }
  }

  lemma BodyEnded(w: World, fuel: nat, callee: nat, values: seq<Value>, s: State, t: State, types: map<Key, Ty>)
    requires InvokeReady(w, fuel, callee, values, s)
    requires fuel > 0 && SetupPool(w.p.functions[callee]).Some? && Bound(w, callee, values).Some?
    requires var f := w.p.functions[callee];
             var sc, p := OpenScope(FUNCTION_SCOPES, f.body.vars), SetupPool(f).value;
             var g := GenStmts(w.m, sc, ResultFlags(w.p.functions), p, 0, f.body.stmts);
             g.Gen? && Ended(w,
                             ExecAll(w.p, AsCompiled, fuel - 1, Bind(f.params, Bound(w, callee, values).value), 2,
                                     f.body.stmts), types, p.owner, f.result, s, |g.code|, t)
    ensures RanWithin(w, s, t)
            && AtReturn(w.b, t, Invoke(w.p, AsCompiled, fuel, callee, values).value, w.p.functions[callee].result)
    ensures OfType(Invoke(w.p, AsCompiled, fuel, callee, values).value, w.p.functions[callee].result)
  {
    hide Inv, Shows, Passes, Reaches, Represents, GenStmts, ExecAll, CheckStmts, Delivered, PromoteAll, Compiled,
         Invoke, Bound, SetupPool;
    InvokeUnfolds(w, fuel, callee, values);
    var f := w.p.functions[callee];
    var o := ExecAll(w.p, AsCompiled, fuel - 1, Bind(f.params, Bound(w, callee, values).value), 2, f.body.stmts);
    if o.Normal? {
      LastReturn(w, callee);
    } else {
      DeliveredShown(w.b, t, o.value, f.result);
    }
  }

  lemma Entered(w: World, fuel: nat, cx: Context, env: Env, p: Pool, c: nat, callee: nat, args: seq<Expr>,
                result: Option<Key>,
                s: State, s1: State, s2: State) returns (s3: State)
    requires CallReady(w, fuel, cx, env, p, c, callee, args, result, s) && Opened(w, p, callee, s, s1)
    requires ArgsDone(w, fuel, cx, env, AllocateTemporary(p), c, w.p.functions[callee].params, args, s1, s2)
    ensures InvokeReady(w, fuel, callee, EvalArgs(w.p, AsCompiled, fuel, env, cx.scopes.depth, args).value, s3)
    ensures Reaches(w.b, s, s3)
    ensures var g := GenCall(w.m, cx.scopes, p, c, callee, args, result);
            s3.callers == s.callers + [Suspended(s.fn, s.pc + |g.code|, s2.regs,
                                                 if result.None? then NO_REGISTER else g.reg)]
  {
    hide Inv, Shows, Reaches, PackDstValue, PackThreeRegisters, Step, Represents, CodeAt, GenArgs, GenCall, EvalArgs,
         Invoke, CheckArgs, Compiled, AllocateTemporary;
    CallParts(w, fuel, cx, env, p, c, callee, args, result, s);
    var fn, a, g := AllocatedTemporary(p), GenArgs(w.m, cx.scopes, AllocateTemporary(p), c, args),
      GenCall(w.m, cx.scopes, p, c, callee, args, result);
    assert fn in AllocateTemporary(p).temps && s2.regs[fn] == s1.regs[fn];
    StepCall(w.b, s2, fn, g.reg, |args|, callee);
    s3 := Step(w.b, s2).value;
    ReachesTransitive(w.b, s, s1, s2);
    ReachesStep(w.b, s2, s3);
    ReachesTransitive(w.b, s, s2, s3);
  }

  /** A call keeps every register but its temporaries', its function's and its result's. */
  lemma CallPreserves(p: Pool, level: nat, c: nat, end: nat, result: Option<Key>, fn: nat, pointer: Cell, cell: Cell,
                      regs: seq<Cell>, after: seq<Cell>)
    requires Inv(p) && fn == AllocatedTemporary(p) && fn < |regs| && forall k :: k in p.owner ==> p.owner[k] != fn
    requires Preserves(AllocateTemporary(p), level, c, end, None, regs[fn := pointer], after)
    requires result.Some? ==> result.value in p.owner && p.owner[result.value] < |after|
    ensures Preserves(p, level, c, end, result, regs,
                      if result.Some? then after[p.owner[result.value] := cell] else after)
  {
    OwnerFacts(p);
    TakenInv(p);
    hide Inv;
  }

  lemma Resumed(w: World, fuel: nat, cx: Context, env: Env, p: Pool, c: nat, callee: nat, args: seq<Expr>,
                result: Option<Key>,
                s: State, s1: State, s2: State, s3: State, t3: State) returns (t: State)
    requires CallReady(w, fuel, cx, env, p, c, callee, args, result, s) && Opened(w, p, callee, s, s1)
    requires ArgsDone(w, fuel, cx, env, AllocateTemporary(p), c, w.p.functions[callee].params, args, s1, s2)
    requires Reaches(w.b, s, s3)
    requires var g := GenCall(w.m, cx.scopes, p, c, callee, args, result);
             s3.Running? && s3.callers == s.callers + [Suspended(s.fn, s.pc + |g.code|, s2.regs,
                                                                 if result.None? then NO_REGISTER else g.reg)]
    requires var v := Invoke(w.p, AsCompiled, fuel, callee,
                             EvalArgs(w.p, AsCompiled, fuel, env, cx.scopes.depth, args).value).value;
             RanWithin(w, s3, t3) && AtReturn(w.b, t3, v, w.p.functions[callee].result)
               && OfType(v, w.p.functions[callee].result)
    ensures CallDone(w, fuel, cx, env, p, c, callee, args, result, s, t)
  {
    hide Inv, Shows, Reaches, PackDstValue, PackThreeRegisters, Step, Represents, CodeAt, GenArgs, GenCall, EvalArgs,
         Invoke, CheckArgs, Compiled, AllocateTemporary;
    CallParts(w, fuel, cx, env, p, c, callee, args, result, s);
    var g := GenCall(w.m, cx.scopes, p, c, callee, args, result);
    var f := w.p.functions[callee];
    var v := Invoke(w.p, AsCompiled, fuel, callee,
                    EvalArgs(w.p, AsCompiled, fuel, env, cx.scopes.depth, args).value).value;
    var fn: nat := AllocatedTemporary(p);
    assert t3.callers[..|t3.callers| - 1] == s.callers;
    if v.None? {
      StepReturn(w.b, t3, NO_REGISTER);
      t := Advance(s, |g.code|, s2.regs);
      CallPreserves(p, cx.scopes.depth - 1, c, c + ArgsTempCount(args), result, fn, FunctionPointer(w.b, callee),
                    ZERO_CELL, s.regs, s2.regs);
    } else {
      var reg: nat :| reg < |t3.regs| && CodeAt(w.b, t3.fn, t3.pc, [PackDstValue(RETURN, reg, 0)])
        && Passes(t3.regs[reg], f.result.value, v.value);
      StepReturn(w.b, t3, reg);
      t := Advance(s, |g.code|, s2.regs[g.reg := t3.regs[reg]]);
      CallPreserves(p, cx.scopes.depth - 1, c, c + ArgsTempCount(args), result, fn, FunctionPointer(w.b, callee),
                    t3.regs[reg], s.regs, s2.regs);
    }
    ReachesTransitive(w.b, s, s3, t3);
    ReachesStep(w.b, t3, t);
    ReachesTransitive(w.b, s, t3, t);
  }
}
