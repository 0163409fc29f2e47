/**
  A program whose inner block reads an outer variable before it declares one of the same
  name. The generator resolves the name in the block's whole table, so the code reads a
  register that the block has not written.
 */
module Shadowing {
  import opened Options
  import opened Values
  import opened Bytecode
  import opened Registers
  import opened RegisterPool
  import opened Ast
  import opened Semantics
  import opened CodeGen
  import opened CodeShape
  import opened Machine
  import opened CompiledSteps
  import opened CompilerRelation
  import opened Misreadings

  /** `fn f(x) { if (k) { return x; x := 1; } return 0; }`, where `:=` declares. */
  function EarlyUse(k: int): FunctionDecl {
    FunctionDecl([Parameter("x", Int32)], Some(Int32),
      Block(["x"], [If(Condition(Constant(Int32, k), Inner(), NoElse)), Return(Some(Constant(Int32, 0)))]))
  }

  function Inner(): Block {
    Block(["x"], [Return(Some(Access("x"))), Declare("x", Constant(Int32, 1))])
  }

  const NO_CONSTANTS := Constants([], [])

  const INNER_X := Named("x", 2)

  /** The parameter is in register 0; register 1 has been given back. */
  const AFTER_TEST := Pool([1], 2, map[X := 0], {})

  predicate Inline(k: int) {
    0 < k <= MAX_INT16
  }

  function InnerCode(): seq<Word> {
    [PackDstValue(RETURN, 1, 0), PackDstValue(LOAD_VALUE, 1, 1)]
  }

  function EarlyCode(k: int): seq<Word> {
    [PackDstValue(LOAD_VALUE, 1, k), PackDstValue(JUMP_FALSE, 1, 2)] + InnerCode()
    + [PackDstValue(LOAD_VALUE, 1, 0), PackDstValue(RETURN, 1, 0), PackValue(HALT, 0)]
  }

  /** The inner variable gets register 1, and both the read and the declaration use it. */
  lemma InnerGenerated()
    ensures GenBlock(NO_CONSTANTS, SUM_SCOPES, [true], AFTER_TEST, Inner()) == Gen(AFTER_TEST, InnerCode())
  {
    hide PackDstValue;
    var m, sc, p, ss := NO_CONSTANTS, OpenScope(SUM_SCOPES, ["x"]), Pool([], 2, map[X := 0, INNER_X := 1], {}),
      Inner().stmts;
    assert Allocate(AFTER_TEST, INNER_X) == p && ["x"][1..] == [];
    assert AllocateVars(p, 2, ["x"][1..]) == p;
    assert AllocateVars(AFTER_TEST, 2, ["x"]) == p;
    assert INNER_X in sc.tables && Resolve(sc.tables, 3, "x") == Some(2);
    assert AllocateTemps(p, 2, 0, 0) == p == DeallocateTemps(p, 2, 0, 0);
    assert GenExpr(m, sc, p, 0, Access("x"), None) == Emit(p, [], 1);
    assert GenStmt(m, sc, [true], p, 0, ss[0]) == Gen(p, [] + [PackDstValue(RETURN, 1, 0)]);
    assert GenExpr(m, sc, p, 0, Constant(Int32, 1), Some(INNER_X)) == Emit(p, [PackDstValue(LOAD_VALUE, 1, 1)], 1);
    assert GenStmt(m, sc, [true], p, 0, ss[1]) == Gen(p, [PackDstValue(LOAD_VALUE, 1, 1)]);
    hide GenStmt, GenExpr;
    assert StmtTempCount(ss[0]) == 0 && ss[1..] == [ss[1]] && ss[1..][1..] == [];
    assert GenStmts(m, sc, [true], p, 0 + StmtTempCount(ss[1]), []) == Gen(p, []);
    assert GenStmts(m, sc, [true], p, 0, ss[1..]) == Gen(p, [PackDstValue(LOAD_VALUE, 1, 1)] + []);
    assert GenStmts(m, sc, [true], p, 0, ss)
           == Gen(p, [] + [PackDstValue(RETURN, 1, 0)] + ([PackDstValue(LOAD_VALUE, 1, 1)] + []));
    assert [] + [PackDstValue(RETURN, 1, 0)] + ([PackDstValue(LOAD_VALUE, 1, 1)] + []) == InnerCode();
    assert p.owner - {INNER_X} == map[X := 0];
    assert Deallocate(p, INNER_X) == AFTER_TEST;
    assert DeallocateVars(AFTER_TEST, 2, ["x"][1..]) == AFTER_TEST;
    assert DeallocateVars(p, 2, ["x"]) == AFTER_TEST;
  }

  lemma TestGenerated(k: int)
    requires Inline(k)
    ensures GenStmt(NO_CONSTANTS, SUM_SCOPES, [true], Pool([], 1, map[X := 0], {}), 0, EarlyUse(k).body.stmts[0])
            == Gen(AFTER_TEST, [PackDstValue(LOAD_VALUE, 1, k)] + [PackDstValue(JUMP_FALSE, 1, 2)] + InnerCode())
  {
    hide PackDstValue;
    var m, p, t := NO_CONSTANTS, Pool([], 1, map[X := 0], {}), Temp(1, 0);
    var q := Pool([], 2, map[X := 0, t := 1], {});
    assert Allocate(p, t) == q;
    assert AllocateTemps(q, 1, 1, 1) == q;
    assert AllocateTemps(p, 1, 0, 1) == q;
    assert GenExpr(m, SUM_SCOPES, q, 0, Constant(Int32, k), None) == Emit(q, [PackDstValue(LOAD_VALUE, 1, k)], 1);
    assert q.owner - {t} == map[X := 0];
    assert Deallocate(q, t) == AFTER_TEST;
    assert DeallocateTemps(AFTER_TEST, 1, 1, 1) == AFTER_TEST;
    assert DeallocateTemps(q, 1, 0, 1) == AFTER_TEST;
    InnerGenerated();
    hide GenBlock, GenExpr;
  }

  lemma LastGenerated()
    ensures GenStmt(NO_CONSTANTS, SUM_SCOPES, [true], AFTER_TEST, 1, Return(Some(Constant(Int32, 0))))
            == Gen(AFTER_TEST, [PackDstValue(LOAD_VALUE, 1, 0)] + [PackDstValue(RETURN, 1, 0)])
  {
    hide PackDstValue;
    var m, t := NO_CONSTANTS, Temp(1, 1);
    var q := Pool([], 2, map[X := 0, t := 1], {});
    assert Allocate(AFTER_TEST, t) == q;
    assert AllocateTemps(q, 1, 2, 2) == q;
    assert AllocateTemps(AFTER_TEST, 1, 1, 2) == q;
    assert GenExpr(m, SUM_SCOPES, q, 1, Constant(Int32, 0), None) == Emit(q, [PackDstValue(LOAD_VALUE, 1, 0)], 1);
    assert q.owner - {t} == map[X := 0];
    assert Deallocate(q, t) == AFTER_TEST;
    assert DeallocateTemps(AFTER_TEST, 1, 2, 2) == AFTER_TEST;
    assert DeallocateTemps(q, 1, 1, 2) == AFTER_TEST;
  }

  lemma EarlyGenerated(k: int)
    requires Inline(k)
    ensures var g := GenFunction(NO_CONSTANTS, [true], EarlyUse(k));
            g.Gen? && g.code == EarlyCode(k) && MaxRegisterCount(g.pool) == 2
  {
    hide PackDstValue, PackValue, GenStmt, SetupPool;
    var m, f, p := NO_CONSTANTS, EarlyUse(k), Pool([], 1, map[X := 0], {});
    var ss := f.body.stmts;
    SetupPoolOf(0, 0);
    assert SetupPool(f) == Some(p) by { SameSetup(f, StaleSum(0, 0)); }
    TestGenerated(k);
    LastGenerated();
    var first := [PackDstValue(LOAD_VALUE, 1, k)] + [PackDstValue(JUMP_FALSE, 1, 2)] + InnerCode();
    var last := [PackDstValue(LOAD_VALUE, 1, 0)] + [PackDstValue(RETURN, 1, 0)];
    assert StmtTempCount(ss[0]) == 1 && ss[1..] == [ss[1]] && ss[1..][1..] == [];
    assert GenStmts(m, SUM_SCOPES, [true], AFTER_TEST, 1 + StmtTempCount(ss[1]), []) == Gen(AFTER_TEST, []);
    assert GenStmts(m, SUM_SCOPES, [true], AFTER_TEST, 1, ss[1..]) == Gen(AFTER_TEST, last + []);
    assert GenStmts(m, SUM_SCOPES, [true], p, 0, ss) == Gen(AFTER_TEST, first + (last + []));
    assert first + (last + []) + [PackValue(HALT, 0)] == EarlyCode(k);
    assert DeallocateVars(AFTER_TEST, 1, ["x"]) == DeallocateVars(Deallocate(AFTER_TEST, X), 1, ["x"][1..]);
    assert ["x"][1..] == [];
  }

  lemma SameSetup(f: FunctionDecl, h: FunctionDecl)
    requires ParameterNames(f.params) == ParameterNames(h.params) && f.body.vars == h.body.vars
    ensures SetupPool(f) == SetupPool(h)
  {
  }

  function EarlyBinary(k: int): Binary
    requires Inline(k)
  {
    EarlyGenerated(k);
    Solo(EarlyUse(k), NO_CONSTANTS, [], []).b
  }

  /** As it is written, the program returns the parameter. */
  lemma EarlyMeaning(k: int, x: int)
    requires Inline(k)
    ensures Invoke(Program([EarlyUse(k)]), AsWritten, 1, 0, [Value(Int32, x, true)]) == Returning(x)
  {
    var p, f, v := Program([EarlyUse(k)]), EarlyUse(k), Value(Int32, x, true);
    var env, ss, r := map[X := v], f.body.stmts, AsWritten;
    assert [v][1..] == [] && f.params[1..] == [] && [v] + [] == [v];
    assert PromoteAll(r, f.params[1..], [v][1..]) == Some([]);
    assert PromoteAll(r, f.params, [v]) == Some([v] + []);
    assert f.params[..0] == [] && Bind(f.params, [v]) == env;
    assert Resolve(env.Keys, 1, "x") == None && Resolve(env.Keys, 2, "x") == Some(1)
           && Resolve(env.Keys, 3, "x") == Some(1);
    assert Eval(p, r, 0, env, 3, Access("x")) == Some(v);
    EvalConstant(p, r, env, Int32, k);
    hide Eval;
    var inner := Inner().stmts;
    assert Exec(p, r, 0, env, 3, inner[0]) == Done(Some(v));
    assert ExecAll(p, r, 0, env, 3, inner) == Done(Some(v));
    assert ExecBlock(p, r, 0, env, 2, Inner()) == Done(Some(v));
    hide ExecBlock;
    assert Exec(p, r, 0, env, 2, ss[0]) == ExecCondition(p, r, 0, env, 2, ss[0].cond);
    assert ExecAll(p, r, 0, env, 2, ss) == Done(Some(v));
  }

  /**
    The generated code reads the inner variable's register, in which the test left its
    constant: it returns what the program says exactly when the argument is that constant.
   */
  lemma EarlyUseMisread(k: int, x: int, arg: Cell) returns (cell: Cell)
    requires Inline(k) && Holds(arg, Int32, x)
    ensures Invoke(Program([EarlyUse(k)]), AsWritten, 1, 0, [Value(Int32, x, true)]) == Returning(x)
    ensures EarlyBinary(k).functions == [Function(EarlyCode(k), 2)]
    ensures Reaches(EarlyBinary(k), Running([], 0, 0, [arg, ZERO_CELL], None), Returned(Some(cell)))
    ensures Holds(cell, Int32, k) && (Holds(cell, Int32, x) <==> x == k)
  {
    EarlyMeaning(k, x);
    EarlyBinaryIs(k);
    LoadedHolds(k, x);
    hide Invoke, EarlyBinary, Reaches, EarlyCode, EarlyUse, Holds, FromRaw64;
    cell := EarlyRun(EarlyBinary(k), k, arg);
  }

  lemma LoadedHolds(k: int, x: int)
    requires Inline(k) && InRange(Int32, x)
    ensures Holds(FromRaw64(k), Int32, k) && (Holds(FromRaw64(k), Int32, x) <==> x == k)
  {
  }

  lemma EarlyBinaryIs(k: int)
    requires Inline(k)
    ensures EarlyBinary(k).functions == [Function(EarlyCode(k), 2)] && ValidBinary(EarlyBinary(k))
  {
    EarlyGenerated(k);
    hide GenFunction;
  }

  lemma EarlyRun(b: Binary, k: int, arg: Cell) returns (cell: Cell)
    requires Inline(k) && ValidBinary(b) && b.functions == [Function(EarlyCode(k), 2)]
    ensures Reaches(b, Running([], 0, 0, [arg, ZERO_CELL], None), Returned(Some(cell)))
    ensures cell == FromRaw64(k)
  {
    hide Step, Reaches, PackDstValue, PackValue;
    EarlyCodeAt(b, k);
    cell := FromRaw64(k % TWO_16);
    var s0 := Running([], 0, 0, [arg, ZERO_CELL], None);
    StepLoadValue(b, s0, 1, k);
    var s1 := Advance(s0, 1, s0.regs[1 := cell]);
    StepJumpFalse(b, s1, 1, 2);
    var s2 := Advance(s1, 1, s1.regs);
    StepReturn(b, s2, 1);
    ReachesStep(b, s0, s1);
    ReachesStep(b, s1, s2);
    ReachesStep(b, s2, Returned(Some(cell)));
    ReachesTransitive(b, s0, s1, s2);
    ReachesTransitive(b, s0, s2, Returned(Some(cell)));
  }

  lemma EarlyCodeAt(b: Binary, k: int)
    requires b.functions == [Function(EarlyCode(k), 2)]
    ensures CodeAt(b, 0, 0, [PackDstValue(LOAD_VALUE, 1, k)]) && CodeAt(b, 0, 1, [PackDstValue(JUMP_FALSE, 1, 2)])
    ensures CodeAt(b, 0, 2, [PackDstValue(RETURN, 1, 0)])
  {
    hide PackDstValue, PackValue;
  }
}
