/**
  Two programs that do not compute what they say: one tests a 64-bit value, one promotes a
  32-bit constant that is loaded over the rest of a 64-bit one.
 */
module Misreadings {
  import opened Options
  import opened Values
  import opened Bytecode
  import opened Registers
  import opened RegisterPool
  import opened Ast
  import opened Semantics
  import opened CodeGen
  import opened CodeGenPool
  import opened CodeShape
  import opened Checking
  import opened Machine
  import opened CompiledSteps
  import opened CompilerRelation
  import opened CallSteps
  import opened CompilerCorrect

  /** A program of one function and its binary. */
  function Solo(f: FunctionDecl, m: Constants, bits32: seq<U32>, bits64: seq<U64>): World
    requires GenFunction(m, [f.result.Some?], f).Gen?
  {
    var g := GenFunction(m, [f.result.Some?], f);
    World(Program([f]), m, Binary(bits32, bits64, [Function(g.code, MaxRegisterCount(g.pool))], 0))
  }

  lemma SoloCompiled(f: FunctionDecl, m: Constants, bits32: seq<U32>, bits64: seq<U64>)
    requires GenFunction(m, [f.result.Some?], f).Gen? && CheckFunction(Program([f]), f)
    requires SameConstants(m, Binary(bits32, bits64, [], 0))
    ensures Compiled(Solo(f, m, bits32, bits64))
  {
    hide GenFunction, CheckFunction;
    FunctionShaped(m, [f.result.Some?], f);
    var w := Solo(f, m, bits32, bits64);
    assert ResultFlags(w.p.functions) == [f.result.Some?] + ResultFlags(w.p.functions[1..]);
    assert ResultFlags(w.p.functions) == [f.result.Some?];
    assert CompiledFunction(w, 0);
  }

  // ----- a test of a 64-bit value -----

  /** `if (v) { return 1; } return 0;` */
  function WideTest(v: int): FunctionDecl {
    FunctionDecl([], Some(Int32),
      Block([], [If(Condition(Constant(Int64, v), Block([], [Return(Some(Constant(Int32, 1)))]), NoElse)),
                 Return(Some(Constant(Int32, 0)))]))
  }

  function WideConstants(v: int): Constants {
    Constants([], [(Int64, v)])
  }

  /** No symbol holds a register. */
  predicate AllFree(p: Pool) {
    p.owner == map[] && !Full(p)
  }

  /** A constant and its temporary, taken and given back. */
  lemma ConstantGenerated(m: Constants, sc: Scopes, p: Pool, c: nat, ty: Ty, v: int)
    requires sc.depth > 0 && AllFree(p) && ConstantWord(m, ty, v, Next(p)).Some?
    ensures var q := AllocateTemps(p, sc.depth - 1, c, c + 1);
            && GenExpr(m, sc, q, c, Constant(ty, v), None) == Emit(q, [ConstantWord(m, ty, v, Next(p)).value], Next(p))
            && AllFree(DeallocateTemps(q, sc.depth - 1, c, c + 1))
  {
    hide ConstantWord;
    var key := Temp(sc.depth - 1, c);
    var q := Allocate(p, key);
    assert AllocateTemps(q, sc.depth - 1, c + 1, c + 1) == q;
    assert DeallocateTemps(Deallocate(q, key), sc.depth - 1, c + 1, c + 1) == Deallocate(q, key);
  }

  lemma ReturnGenerated(m: Constants, sc: Scopes, p: Pool, c: nat, n: nat)
    requires sc.depth > 0 && AllFree(p) && n <= 1
    ensures var g := GenStmt(m, sc, [true], p, c, Return(Some(Constant(Int32, n))));
            g.Gen? && |g.code| == 2 && AllFree(g.pool)
  {
    ConstantGenerated(m, sc, p, c, Int32, n);
    hide GenExpr, AllocateTemps, DeallocateTemps, ConstantWord, AllFree;
  }

  lemma BlockGenerated(m: Constants, sc: Scopes, p: Pool)
    requires AllFree(p)
    ensures var g := GenBlock(m, sc, [true], p, Block([], [Return(Some(Constant(Int32, 1)))]));
            g.Gen? && |g.code| == 2 && AllFree(g.pool)
  {
    ReturnGenerated(m, OpenScope(sc, []), p, 0, 1);
    hide GenStmt, AllFree;
    var ss := [Return(Some(Constant(Int32, 1)))];
    var g := GenStmt(m, OpenScope(sc, []), [true], p, 0, ss[0]);
    assert GenStmts(m, OpenScope(sc, []), [true], g.pool, 0 + StmtTempCount(ss[0]), ss[1..]) == Gen(g.pool, []);
  }

  lemma IfGenerated(v: int, sc: Scopes, p: Pool)
    requires sc.depth > 0 && AllFree(p)
    ensures var g := GenStmt(WideConstants(v), sc, [true], p, 0, WideTest(v).body.stmts[0]);
            g.Gen? && |g.code| == 4 && AllFree(g.pool)
  {
    var m, cond := WideConstants(v), WideTest(v).body.stmts[0].cond;
    ConstantGenerated(m, sc, p, 0, Int64, v);
    hide GenExpr, AllocateTemps, DeallocateTemps, ConstantWord, AllFree, GenBlock;
    var q := AllocateTemps(p, sc.depth - 1, 0, 1);
    assert TempCount(cond.test) == 1;
    BlockGenerated(m, sc, DeallocateTemps(q, sc.depth - 1, 0, 1));
  }

  lemma WideTestGenerated(v: int)
    ensures GenFunction(WideConstants(v), [true], WideTest(v)).Gen?
  {
    var m, f := WideConstants(v), WideTest(v);
    var sc, ss := OpenScope(FUNCTION_SCOPES, []), f.body.stmts;
    assert SetupPool(f) == Some(EMPTY_POOL);
    IfGenerated(v, sc, EMPTY_POOL);
    var g1 := GenStmt(m, sc, [true], EMPTY_POOL, 0, ss[0]);
    ReturnGenerated(m, sc, g1.pool, 1, 0);
    hide GenStmt, AllFree, SetupPool;
    var g2 := GenStmt(m, sc, [true], g1.pool, 1, ss[1]);
    assert StmtTempCount(ss[0]) == 1;
    assert ss[1..] == [ss[1]] && ss[1..][1..] == [];
    assert GenStmts(m, sc, [true], g2.pool, 1 + StmtTempCount(ss[1]), []) == Gen(g2.pool, []);
    assert GenStmts(m, sc, [true], g1.pool, 1, ss[1..]).Gen?;
    assert GenStmts(m, sc, [true], EMPTY_POOL, 0, ss).Gen?;
  }

  // ----- what it means, and what it computes -----

  function WideWorld(v: int): World
    requires InRange(Int64, v)
  {
    WideTestGenerated(v);
    Solo(WideTest(v), WideConstants(v), [], [v % TWO_64])
  }

  function Returning(n: int): Option<Option<Value>> {
    Some(Some(Value(Int32, n, true)))
  }

  lemma WideTestMeaning(v: int, r: Reading)
    requires r != Alike
    ensures var holds := if r == AsWritten then v != 0 else v % TWO_32 != 0;
            Invoke(Program([WideTest(v)]), r, 1, 0, []) == Returning(if holds then 1 else 0)
  {
    var p, ss := Program([WideTest(v)]), WideTest(v).body.stmts;
    var env: Env := map[];
    var cond := ss[0].cond;
    assert Bind([], []) == env;
    OneReturn(p, r, env, 3, 1);
    OneReturn(p, r, env, 2, 0);
    hide Exec;
    assert ss[1..] == [ss[1]];
    assert cond.onTrue.stmts == [Return(Some(Constant(Int32, 1)))];
    ConditionMeaning(p, r, env, cond, v);
  }

  lemma OneReturn(p: Program, r: Reading, env: Env, depth: nat, n: nat)
    requires depth > 0 && n <= 1
    ensures ExecAll(p, r, 0, env, depth, [Return(Some(Constant(Int32, n)))]) == Done(Some(Value(Int32, n, true)))
  {
    assert Exec(p, r, 0, env, depth, Return(Some(Constant(Int32, n)))) == Done(Some(Literal(Int32, n)));
  }

  lemma ConditionMeaning(p: Program, r: Reading, env: Env, cond: Condition, v: int)
    requires cond.test == Constant(Int64, v) && cond.onTrue == Block([], [Return(Some(Constant(Int32, 1)))])
             && cond.onFalse == NoElse
    ensures Exec(p, r, 0, env, 2, If(cond)) ==
            match Truth(r, Literal(Int64, v))
            case None => Stuck
            case Some(holds) => if holds then Done(Some(Value(Int32, 1, true))) else Normal(env)
  {
    OneReturn(p, r, env, 3, 1);
    hide ExecAll;
    assert Eval(p, r, 0, env, 2, cond.test) == Some(Literal(Int64, v));
    var block := ExecBlock(p, r, 0, env, 2, cond.onTrue);
    assert block == Leave(ExecAll(p, r, 0, env, 2 + 1, cond.onTrue.stmts), 2);
    assert block == Done(Some(Value(Int32, 1, true)));
    assert Exec(p, r, 0, env, 2, If(cond)) == ExecCondition(p, r, 0, env, 2, cond);
    hide ExecBlock, Eval;
  }

  /**
    Compiled from any 64-bit literal, this program returns 1 exactly when the low half of
    the literal is not zero. So it computes what it says exactly when the literal is zero or
    its low half is not; `if (4294967296l) ...` takes the wrong branch.
   */
  lemma WideTestMisread(v: int) returns (cell: Cell)
    requires 0 <= v < TWO_63
    ensures var w := WideWorld(v);
            && Compiled(w) && w.b.functions[0].nRegisters <= MAX_REGISTERS
            && Invoke(w.p, AsWritten, 1, 0, []) == Returning(if v != 0 then 1 else 0)
            && Reaches(w.b, Running([], 0, 0, Zeros(w.b.functions[0].nRegisters), None), Returned(Some(cell)))
            && Holds(cell, Int32, if v % TWO_32 != 0 then 1 else 0)
    ensures Holds(cell, Int32, if v != 0 then 1 else 0) <==> (v == 0 || v % TWO_32 != 0)
  {
    cell := WideTestRun(v);
    WideTestMeaning(v, AsWritten);
    WideTestMeaning(v, AsCompiled);
    hide WideWorld, Compiled, Invoke, Reaches, Carries;
  }

  lemma WideTestRun(v: int) returns (cell: Cell)
    requires 0 <= v < TWO_63
    ensures var w := WideWorld(v);
            && Compiled(w) && w.p == Program([WideTest(v)]) && 0 < |w.b.functions|
               && w.b.functions[0].nRegisters <= MAX_REGISTERS
            && Reaches(w.b, Running([], 0, 0, Zeros(w.b.functions[0].nRegisters), None), Returned(Some(cell)))
            && Invoke(w.p, AsCompiled, 1, 0, []).Some? && Invoke(w.p, AsCompiled, 1, 0, []).value.Some?
            && Shows(cell, Int32, Invoke(w.p, AsCompiled, 1, 0, []).value.value)
  {
    var w := WideWorld(v);
    WideTestCompiled(v);
    WideTestMeaning(v, AsCompiled);
    hide WideWorld, Compiled, Invoke, Reaches, Shows;
    FunctionRoom(w, 0);
    var s := Running([], 0, 0, Zeros(w.b.functions[0].nRegisters), None);
    var c := ProgramCorrect(w, 1, 0, [], s);
    cell := c.value;
  }

  lemma WideTestCompiled(v: int)
    requires 0 <= v < TWO_63
    ensures Compiled(WideWorld(v)) && WideWorld(v).p == Program([WideTest(v)])
  {
    WideTestGenerated(v);
    WideTestChecked(v);
    hide GenFunction, CheckFunction;
    SoloCompiled(WideTest(v), WideConstants(v), [], [v % TWO_64]);
  }

  lemma WideTestChecked(v: int)
    requires 0 <= v < TWO_63
    ensures CheckFunction(Program([WideTest(v)]), WideTest(v))
  {
    var p, ss := Program([WideTest(v)]), WideTest(v).body.stmts;
    var cx := Context(map[], OpenScope(FUNCTION_SCOPES, []));
    var cond := ss[0].cond;
    var inner := Context(map[], OpenScope(cx.scopes, []));
    assert TypeOf(p, cx, cond.test) == Some(Int64);
    assert CheckStmt(p, inner, Some(Int32), cond.onTrue.stmts[0]) == Some(inner);
    assert CheckStmts(p, inner, Some(Int32), cond.onTrue.stmts[1..]);
    assert CheckBlock(p, cx, Some(Int32), cond.onTrue);
    assert CheckStmt(p, cx, Some(Int32), ss[0]) == Some(cx);
    assert CheckStmt(p, cx, Some(Int32), ss[1]) == Some(cx);
    assert CheckStmts(p, cx, Some(Int32), ss[1..][1..]);
    assert CheckStmts(p, cx, Some(Int32), ss[1..]);
  }

  // ----- a promoted constant -----

  /** `y; return x + k;` of a 64-bit `x`, with literals too large for an instruction word. */
  function StaleSum(y: int, k: int): FunctionDecl {
    FunctionDecl([Parameter("x", Int64)], Some(Int64),
      Block(["x"], [Evaluate(Constant(Int64, y)), Return(Some(Dual(Plus, Int64, Access("x"), Constant(Int32, k))))]))
  }

  predicate LargeLiterals(y: int, k: int) {
    MAX_INT16 < y < TWO_63 && MAX_INT16 < k < TWO_31
  }

  function SumConstants(y: int, k: int): Constants {
    Constants([(Int32, k)], [(Int64, y)])
  }

  const X := Named("x", 1)
  const SUM_SCOPES := OpenScope(FUNCTION_SCOPES, ["x"])

  /** The first statement's temporary takes register 1 and gives it back. */
  lemma FirstStatement(y: int, k: int)
    requires LargeLiterals(y, k)
    ensures SetupPool(StaleSum(y, k)) == Some(Pool([], 1, map[X := 0], {}))
    ensures GenStmt(SumConstants(y, k), SUM_SCOPES, [true], Pool([], 1, map[X := 0], {}), 0,
                    StaleSum(y, k).body.stmts[0])
            == Gen(Pool([1], 2, map[X := 0], {}), [PackDstValue(LOAD_CONST_64, 1, 0)])
  {
    hide PackDstValue;
    var p, t := Pool([], 1, map[X := 0], {}), Temp(1, 0);
    var q := Pool([], 2, map[X := 0, t := 1], {});
    SetupPoolOf(y, k);
    assert Allocate(p, t) == q;
    assert AllocateTemps(q, 1, 1, 1) == q;
    assert AllocateTemps(p, 1, 0, 1) == q;
    assert ConstantWord(SumConstants(y, k), Int64, y, 1) == Some(PackDstValue(LOAD_CONST_64, 1, 0));
    assert GenExpr(SumConstants(y, k), SUM_SCOPES, q, 0, Constant(Int64, y), None)
           == Emit(q, [PackDstValue(LOAD_CONST_64, 1, 0)], 1);
    assert q.owner - {t} == p.owner;
    assert DeallocateTemps(Deallocate(q, t), 1, 1, 1) == Deallocate(q, t);
  }

  lemma SetupPoolOf(y: int, k: int)
    ensures SetupPool(StaleSum(y, k)) == Some(Pool([], 1, map[X := 0], {}))
  {
    var p, vars := Pool([], 1, map[X := 0], {}), ["x"];
    assert ParameterNames(StaleSum(y, k).params) == vars;
    assert Allocate(EMPTY_POOL, X) == p && Allocate(p, X) == p;
    assert vars[1..] == [];
    assert AllocateVars(p, 1, vars[1..]) == p && VarsFit(p, 1, vars[1..]);
    assert AllocateVars(EMPTY_POOL, 1, vars) == p && VarsFit(EMPTY_POOL, 1, vars);
    assert AllocateVars(p, 1, vars) == p && VarsFit(p, 1, vars);
  }

  function Sum(k: int): Expr {
    Dual(Plus, Int64, Access("x"), Constant(Int32, k))
  }

  function SumCode(): seq<Word> {
    [PackDstValue(LOAD_CONST_32, 1, 0), PackThreeRegisters(ADD_IL, 2, 0, 1), PackDstValue(RETURN, 2, 0)]
  }

  /** The promoted constant gets register 1 again, and the sum register 2. */
  lemma SumGenerated(y: int, k: int, q: Pool)
    requires LargeLiterals(y, k) && q == Pool([], 3, map[X := 0, Temp(1, 1) := 1, Temp(1, 2) := 2], {})
    ensures GenExpr(SumConstants(y, k), SUM_SCOPES, q, 1, Sum(k), None) == Emit(q, SumCode()[..2], 2)
  {
    hide PackDstValue, PackThreeRegisters;
    var m, e := SumConstants(y, k), Sum(k);
    assert X in SUM_SCOPES.tables;
    assert GenExpr(m, SUM_SCOPES, q, 1, e.left, None) == Emit(q, [], 0);
    assert ConstantWord(m, Int32, k, 1) == Some(PackDstValue(LOAD_CONST_32, 1, 0));
    assert GenExpr(m, SUM_SCOPES, q, 1 + TempCount(e.left), e.right, None)
           == Emit(q, [PackDstValue(LOAD_CONST_32, 1, 0)], 1);
    assert GenOperands(m, SUM_SCOPES, q, 1, e) == Operands(q, [] + [PackDstValue(LOAD_CONST_32, 1, 0)], 0, 1);
    assert SumCode()[..2] == [] + [PackDstValue(LOAD_CONST_32, 1, 0)] + [PackThreeRegisters(ADD_IL, 2, 0, 1)];
  }

  lemma SecondStatement(y: int, k: int)
    requires LargeLiterals(y, k)
    ensures var g := GenStmt(SumConstants(y, k), SUM_SCOPES, [true], Pool([1], 2, map[X := 0], {}), 1,
                             StaleSum(y, k).body.stmts[1]);
            g.Gen? && g.code == SumCode() && g.pool.used == 3
  {
    hide PackDstValue, PackThreeRegisters, GenExpr;
    var p, q1 := Pool([1], 2, map[X := 0], {}), Pool([], 2, map[X := 0, Temp(1, 1) := 1], {});
    var q := Pool([], 3, map[X := 0, Temp(1, 1) := 1, Temp(1, 2) := 2], {});
    assert Allocate(p, Temp(1, 1)) == q1 && Allocate(q1, Temp(1, 2)) == q;
    assert AllocateTemps(q, 1, 3, 3) == q;
    assert AllocateTemps(q1, 1, 2, 3) == q;
    assert AllocateTemps(p, 1, 1, 3) == q;
    SumGenerated(y, k, q);
    assert SumCode() == SumCode()[..2] + [PackDstValue(RETURN, 2, 0)];
    assert StmtTempCount(StaleSum(y, k).body.stmts[1]) == 2 by {
      assert TempCount(Sum(k).left) == 0 && TempCount(Sum(k).right) == 1;
    }
    UsedKept(q, 1, 1, 3);
  }

  lemma {:induction false} UsedKept(p: Pool, level: nat, from: nat, end: nat)
    ensures DeallocateTemps(p, level, from, end).used == p.used
    decreases end - from
  {
    if from < end {
      UsedKept(Deallocate(p, Temp(level, from)), level, from + 1, end);
    }
  }

  lemma StaleSumGenerated(y: int, k: int)
    requires LargeLiterals(y, k)
    ensures var g := GenFunction(SumConstants(y, k), [true], StaleSum(y, k));
            && g.Gen? && MaxRegisterCount(g.pool) == 3
            && g.code == [PackDstValue(LOAD_CONST_64, 1, 0)] + SumCode() + [PackValue(HALT, 0)]
  {
    hide PackDstValue, PackThreeRegisters, GenStmt, SetupPool, SumCode;
    var m, f := SumConstants(y, k), StaleSum(y, k);
    var ss := f.body.stmts;
    FirstStatement(y, k);
    SecondStatement(y, k);
    var p, p1 := Pool([], 1, map[X := 0], {}), Pool([1], 2, map[X := 0], {});
    var g2 := GenStmt(m, SUM_SCOPES, [true], p1, 1, ss[1]);
    assert ss[1..] == [ss[1]] && ss[1..][1..] == [];
    assert GenStmts(m, SUM_SCOPES, [true], g2.pool, 1 + StmtTempCount(ss[1]), []) == Gen(g2.pool, []);
    assert GenStmts(m, SUM_SCOPES, [true], p1, 1, ss[1..]) == Gen(g2.pool, SumCode() + []);
    assert StmtTempCount(ss[0]) == 1;
    assert GenStmts(m, SUM_SCOPES, [true], p, 0, ss)
           == Gen(g2.pool, [PackDstValue(LOAD_CONST_64, 1, 0)] + (SumCode() + []));
    var code := [PackDstValue(LOAD_CONST_64, 1, 0)] + (SumCode() + []);
    assert code == [PackDstValue(LOAD_CONST_64, 1, 0)] + SumCode();
    SumCodeSize();
    assert DeallocateVars(g2.pool, 1, ["x"]) == DeallocateVars(Deallocate(g2.pool, X), 1, ["x"][1..]);
    assert ["x"][1..] == [];
  }

  lemma SumCodeSize()
    ensures |SumCode()| == 3
  {
  }

  function StaleWorld(y: int, k: int): World
    requires LargeLiterals(y, k)
  {
    StaleSumGenerated(y, k);
    Solo(StaleSum(y, k), SumConstants(y, k), [k], [y])
  }

  lemma StaleSumCompiled(y: int, k: int)
    requires LargeLiterals(y, k)
    ensures var w := StaleWorld(y, k);
            && Compiled(w) && w.p == Program([StaleSum(y, k)]) && w.b.constants32 == [k] && w.b.constants64 == [y]
            && w.b.functions == [Function([PackDstValue(LOAD_CONST_64, 1, 0)] + SumCode() + [PackValue(HALT, 0)], 3)]
  {
    StaleSumGenerated(y, k);
    StaleSumChecked(y, k);
    hide GenFunction, CheckFunction, PackDstValue, PackThreeRegisters, SumCode;
    SoloCompiled(StaleSum(y, k), SumConstants(y, k), [k], [y]);
  }

  lemma StaleSumChecked(y: int, k: int)
    requires LargeLiterals(y, k)
    ensures CheckFunction(Program([StaleSum(y, k)]), StaleSum(y, k))
  {
    var p, f := Program([StaleSum(y, k)]), StaleSum(y, k);
    var ss := f.body.stmts;
    var cx := Context(map[X := Int64], SUM_SCOPES);
    assert f.params[..0] == [] && ParameterTypes(f.params) == map[X := Int64];
    assert X in cx.scopes.tables && X in cx.types.Keys;
    assert TypeOf(p, cx, Sum(k)) == Some(Int64);
    assert CheckStmt(p, cx, Some(Int64), ss[0]) == Some(cx);
    assert CheckStmt(p, cx, Some(Int64), ss[1]) == Some(cx);
    assert CheckStmts(p, cx, Some(Int64), ss[1..][1..]);
    assert CheckStmts(p, cx, Some(Int64), ss[1..]);
  }

  /** As written, the sum; as compiled, the extension of the promoted constant is not known. */
  lemma StaleSumMeaning(y: int, k: int, x: int, r: Reading)
    requires LargeLiterals(y, k)
    ensures Invoke(Program([StaleSum(y, k)]), r, 1, 0, [Value(Int64, x, true)])
            == if r == AsWritten then Some(Some(Value(Int64, Wrap(Int64, x + k), true))) else None
  {
    var p, f := Program([StaleSum(y, k)]), StaleSum(y, k);
    var ss, v := f.body.stmts, Value(Int64, x, true);
    var env := map[X := v];
    assert [v][1..] == [] && f.params[1..] == [] && [v] + [] == [v];
    assert PromoteAll(r, f.params[1..], [v][1..]) == Some([]);
    assert PromoteAll(r, f.params, [v]) == Some([v] + []);
    assert f.params[..0] == [] && Bind(f.params, [v]) == env;
    assert ss[1..] == [ss[1]];
    assert X in env.Keys && Eval(p, r, 0, env, 2, Access("x")) == Some(v);
    assert Eval(p, r, 0, env, 2, Constant(Int32, k)) == Some(Value(Int32, k, false));
    assert Eval(p, r, 0, env, 2, Sum(k))
           == if r == AsWritten then Some(Value(Int64, Wrap(Int64, x + k), true)) else None;
    EvalConstant(p, r, env, Int64, y);
    hide Eval;
    assert Exec(p, r, 0, env, 2, ss[0]) == Normal(env);
    var o := Exec(p, r, 0, env, 2, ss[1]);
    assert ExecAll(p, r, 0, env, 2, ss[1..]) == o;
    assert ExecAll(p, r, 0, env, 2, ss) == o;
    hide ExecAll, Exec;
    assert r == AsWritten ==> Delivered(r, f.result, o.value) == Some(Some(Value(Int64, Wrap(Int64, x + k), true)));
  }

  lemma EvalConstant(p: Program, r: Reading, env: Env, ty: Ty, v: int)
    ensures Eval(p, r, 0, env, 2, Constant(ty, v)) == Some(Literal(ty, v))
  {
  }

  /** Register 1 after both loads. */
  function StaleCell(y: int, k: int): Cell
    requires LargeLiterals(y, k)
  {
    Cell(k, y / TWO_32)
  }

  /**
    The compiled function adds what the first literal left in the high half of the register
    to the promoted constant: it computes what it says exactly when that literal was less
    than 2^32.
   */
  lemma StaleSumMisread(y: int, k: int, x: int, arg: Cell) returns (cell: Cell)
    requires LargeLiterals(y, k) && Holds(arg, Int64, x)
    ensures var w := StaleWorld(y, k);
            && Compiled(w)
            && Invoke(w.p, AsWritten, 1, 0, [Value(Int64, x, true)])
               == Some(Some(Value(Int64, Wrap(Int64, x + k), true)))
            && Reaches(w.b, Running([], 0, 0, [arg, ZERO_CELL, ZERO_CELL], None), Returned(Some(cell)))
            && Holds(cell, Int64, Wrap(Int64, x + k + y / TWO_32 * TWO_32))
    ensures Holds(cell, Int64, Wrap(Int64, x + k)) <==> y < TWO_32
  {
    hide StaleWorld, Invoke, Reaches, Holds, Wrap, SumCode, StaleSum, PackDstValue, PackValue;
    StaleSumCompiled(y, k);
    StaleSumMeaning(y, k, x, AsWritten);
    cell := StaleRun(StaleWorld(y, k).b, y, k, x, arg);
    WrapsApart(x + k, y / TWO_32);
    HoldsOne(cell, x + k + y / TWO_32 * TWO_32, x + k);
  }

  /** A register holds one value. */
  lemma HoldsOne(cell: Cell, a: int, b: int)
    requires Holds(cell, Int64, Wrap(Int64, a))
    ensures Holds(cell, Int64, Wrap(Int64, b)) <==> Wrap(Int64, a) == Wrap(Int64, b)
  {
    WrapInRange(Int64, b);
    hide Wrap;
  }

  lemma WrapsApart(a: int, hi: nat)
    requires hi < TWO_31
    ensures Wrap(Int64, a + hi * TWO_32) == Wrap(Int64, a) <==> hi == 0
  {
  }

  lemma StaleRun(b: Binary, y: int, k: int, x: int, arg: Cell) returns (cell: Cell)
    requires LargeLiterals(y, k) && Holds(arg, Int64, x) && ValidBinary(b)
    requires b.constants32 == [k] && b.constants64 == [y]
    requires b.functions == [Function([PackDstValue(LOAD_CONST_64, 1, 0)] + SumCode() + [PackValue(HALT, 0)], 3)]
    ensures Reaches(b, Running([], 0, 0, [arg, ZERO_CELL, ZERO_CELL], None), Returned(Some(cell)))
    ensures Holds(cell, Int64, Wrap(Int64, x + k + y / TWO_32 * TWO_32))
  {
    hide Step, Reaches, Holds, Wrap, PackDstValue, PackThreeRegisters, PackValue, FromRaw64;
    StaleCodeAt(b, k);
    var s0 := Running([], 0, 0, [arg, ZERO_CELL, ZERO_CELL], None);
    StepLoadConstant64(b, s0, 1, 0);
    var s1 := Advance(s0, 1, s0.regs[1 := FromRaw64(y)]);
    StepLoadConstant32(b, s1, 1, 0);
    var s2 := Advance(s1, 1, s1.regs[1 := StaleCell(y, k)]);
    StaleHalves(y, k);
    cell := StepDual(b, s2, Plus, Int64, 2, 0, 1, x, y / TWO_32 * TWO_32 + k);
    var s3 := Advance(s2, 1, s2.regs[2 := cell]);
    StepReturn(b, s3, 2);
    ReachesStep(b, s0, s1);
    ReachesStep(b, s1, s2);
    ReachesStep(b, s2, s3);
    ReachesStep(b, s3, Returned(Some(cell)));
    ReachesTransitive(b, s0, s1, s2);
    ReachesTransitive(b, s0, s2, s3);
    ReachesTransitive(b, s0, s3, Returned(Some(cell)));
  }

  lemma StaleHalves(y: int, k: int)
    requires LargeLiterals(y, k)
    ensures FromRaw64(y).(lo := k) == StaleCell(y, k)
    ensures Holds(StaleCell(y, k), Int64, y / TWO_32 * TWO_32 + k)
  {
  }

  lemma StaleCodeAt(b: Binary, k: int)
    requires b.functions == [Function([PackDstValue(LOAD_CONST_64, 1, 0)] + SumCode() + [PackValue(HALT, 0)], 3)]
    ensures CodeAt(b, 0, 0, [PackDstValue(LOAD_CONST_64, 1, 0)]) && CodeAt(b, 0, 1, [PackDstValue(LOAD_CONST_32, 1, 0)])
    ensures CodeAt(b, 0, 2, [PackThreeRegisters(DualOperatorInst(Plus, Int64), 2, 0, 1)])
            && CodeAt(b, 0, 3, [PackDstValue(RETURN, 2, 0)])
  {
    hide PackDstValue, PackThreeRegisters, PackValue;
  }
}
