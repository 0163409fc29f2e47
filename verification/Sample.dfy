/**
  A program that uses every kind of statement and expression, is checked, and has code: the
  conditions of the compiler theorems exclude none of them.
 */
module Sample {
  import opened Options
  import opened Values
  import opened RegisterPool
  import opened Ast
  import opened Semantics
  import opened CodeGen
  import opened Checking
  import opened CompilerRelation
  import opened CodeExists

  /** gcd(a, b): while (b != 0) { t = a % b; a = b; b = t; } return a; */
  function Loop(): Block {
    Block(["t"], [Declare("t", Dual(Mod, Int32, Access("a"), Access("b"))), Assign("a", Copy, Int32, Access("b")),
                  Assign("b", Copy, Int32, Access("t"))])
  }

  function Gcd(): FunctionDecl {
    FunctionDecl([Parameter("a", Int32), Parameter("b", Int32)], Some(Int32),
                 Block(["a", "b"], [While(Comparison(Ne, Int32, Access("b"), Constant(Int32, 0)), Loop()),
                                    Return(Some(Access("a")))]))
  }

  /** step(x): if (x > 0) { x += gcd(1, 2); } elif (x == 0) { step(-x); } else { ~x; } return; */
  function Sum(): Block {
    Block([], [Assign("x", Compound(Plus), Int32, Call(0, [Constant(Int32, 1), Constant(Int32, 2)]))])
  }

  function Again(): Block {
    Block([], [Evaluate(Call(1, [Single(Negate, Int32, Access("x"))]))])
  }

  function Drop(): Block {
    Block([], [Evaluate(Single(BitNot, Int32, Access("x")))])
  }

  function Choice(): Condition {
    Condition(Comparison(Gt, Int32, Access("x"), Constant(Int32, 0)), Sum(),
              Elif(Condition(Comparison(Eq, Int32, Access("x"), Constant(Int32, 0)), Again(), Else(Drop()))))
  }

  function Choose(): FunctionDecl {
    FunctionDecl([Parameter("x", Int32)], None, Block(["x"], [If(Choice()), Return(None)]))
  }

  const SAMPLE := Program([Gcd(), Choose()])

  // ----- the first function -----

  function GcdContext(): Context {
    Context(map[Named("a", 1) := Int32, Named("b", 1) := Int32], OpenScope(FUNCTION_SCOPES, ["a", "b"]))
  }

  lemma GcdParameters()
    ensures ParameterTypes(Gcd().params) == GcdContext().types
    ensures ParameterNames(Gcd().params) == ["a", "b"]
  {
    var ps := Gcd().params;
    assert ps[..1] == [ps[0]] && ps[..1][..0] == [] && ParameterTypes(ps[..1][..0]) == map[];
    assert ParameterTypes(ps[..1]) == map[Named("a", 1) := Int32];
    assert ps[1..] == [ps[1]] && ps[1..][1..] == [] && ParameterNames(ps[1..]) == ["b"];
  }

  /** A variable of the function's scope, seen from there, from a block in it or from one in an else part. */
  lemma Seen(cx: Context, name: string)
    requires 2 <= cx.scopes.depth <= 4 && Named(name, 1) in cx.types && cx.types.Keys <= cx.scopes.tables
    requires Named(name, 2) !in cx.scopes.tables && Named(name, 3) !in cx.scopes.tables
    ensures TypeOf(SAMPLE, cx, Access(name)) == Some(cx.types[Named(name, 1)])
  {
    Innermost(cx.types.Keys, cx.scopes.depth, name);
    Innermost(cx.scopes.tables, cx.scopes.depth, name);
  }

  lemma Innermost(declared: set<Key>, depth: nat, name: string)
    requires 2 <= depth <= 4 && Named(name, 1) in declared
    requires Named(name, 2) !in declared && Named(name, 3) !in declared
    ensures Resolve(declared, depth, name) == Some(1)
  {
    assert Resolve(declared, 2, name) == Some(1);
    assert Resolve(declared, 3, name) == Some(1);
  }

  function LoopContext(): Context {
    Context(GcdContext().types, OpenScope(GcdContext().scopes, ["t"]))
  }

  function LaterContext(): Context {
    LoopContext().(types := LoopContext().types[Named("t", 2) := Int32])
  }

  lemma LoopChecked()
    ensures CheckBlock(SAMPLE, GcdContext(), Some(Int32), Loop())
  {
    var cx, later, ss := LoopContext(), LaterContext(), Loop().stmts;
    Seen(cx, "a");
    Seen(cx, "b");
    Seen(later, "a");
    Seen(later, "b");
    assert "t" in ["t"];
    assert TypeOf(SAMPLE, later, Access("t")) == Some(Int32);
    hide TypeOf;
    OperatorTyped(cx);
    assert CheckStmt(SAMPLE, cx, Some(Int32), ss[0]) == Some(later);
    assert CheckStmt(SAMPLE, later, Some(Int32), ss[1]) == Some(later);
    assert CheckStmt(SAMPLE, later, Some(Int32), ss[2]) == Some(later);
    hide CheckStmt;
    assert ss[1..][1..] == [ss[2]] && ss[1..][1..][1..] == [];
    assert CheckStmts(SAMPLE, later, Some(Int32), [ss[2]]);
    assert CheckStmts(SAMPLE, later, Some(Int32), ss[1..]);
  }

  lemma OperatorTyped(cx: Context)
    requires TypeOf(SAMPLE, cx, Access("a")) == TypeOf(SAMPLE, cx, Access("b")) == Some(Int32)
    ensures TypeOf(SAMPLE, cx, Dual(Mod, Int32, Access("a"), Access("b"))) == Some(Int32)
    ensures TypeOf(SAMPLE, cx, Comparison(Ne, Int32, Access("b"), Constant(Int32, 0))) == Some(Bool)
  {
    assert TypeOf(SAMPLE, cx, Constant(Int32, 0)) == Some(Int32);
  }

  lemma GcdTyped()
    ensures CheckStmt(SAMPLE, GcdContext(), Some(Int32), Gcd().body.stmts[0]) == Some(GcdContext())
    ensures CheckStmt(SAMPLE, GcdContext(), Some(Int32), Gcd().body.stmts[1]) == Some(GcdContext())
  {
    Seen(GcdContext(), "a");
    Seen(GcdContext(), "b");
    OperatorTyped(GcdContext());
    LoopChecked();
    hide CheckBlock;
  }

  lemma GcdChecked()
    ensures CheckFunction(SAMPLE, Gcd()) && FunctionScoped(Gcd())
  {
    var cx, ss := GcdContext(), Gcd().body.stmts;
    GcdParameters();
    GcdTyped();
    hide CheckStmt, FunctionScoped;
    assert ss[1..] == [ss[1]] && ss[1..][1..] == [];
    assert CheckStmts(SAMPLE, cx, Some(Int32), ss[1..]);
    GcdScoped();
  }

  lemma GcdScoped()
    ensures FunctionScoped(Gcd())
  {
    var ss := Gcd().body.stmts;
    GcdParameters();
    LoopScoped();
    hide BlockScoped, Loop;
    assert ss[1..] == [ss[1]] && ss[1..][1..] == [];
    assert StmtsScoped(ss[1..]);
  }

  lemma LoopScoped()
    ensures BlockScoped(Loop())
  {
    var ss := Loop().stmts;
    assert ss[0].Declare? && ss[0].name == "t";
    assert StmtsScoped(ss[1..][1..][1..]) && StmtsScoped(ss[1..][1..]);
  }

  // ----- the second function -----

  function ChooseContext(): Context {
    Context(map[Named("x", 1) := Int32], OpenScope(FUNCTION_SCOPES, ["x"]))
  }

  lemma ChooseParameters()
    ensures ParameterTypes(Choose().params) == ChooseContext().types && ParameterNames(Choose().params) == ["x"]
  {
    var ps := Choose().params;
    assert ps[..0] == [] && ParameterTypes(ps[..0]) == map[] && ps[1..] == [];
  }

  /** The expressions of the second function, wherever `x` is seen. */
  lemma ChooseTyped(cx: Context)
    requires TypeOf(SAMPLE, cx, Access("x")) == Some(Int32)
    ensures TypeOf(SAMPLE, cx, Comparison(Gt, Int32, Access("x"), Constant(Int32, 0))) == Some(Bool)
    ensures TypeOf(SAMPLE, cx, Comparison(Eq, Int32, Access("x"), Constant(Int32, 0))) == Some(Bool)
    ensures TypeOf(SAMPLE, cx, Single(BitNot, Int32, Access("x"))) == Some(Int32)
    ensures TypeOf(SAMPLE, cx, Call(0, [Constant(Int32, 1), Constant(Int32, 2)])) == Some(Int32)
    ensures CheckCall(SAMPLE, cx, 1, [Single(Negate, Int32, Access("x"))])
  {
    assert TypeOf(SAMPLE, cx, Constant(Int32, 0)) == Some(Int32);
    assert TypeOf(SAMPLE, cx, Single(Negate, Int32, Access("x"))) == Some(Int32);
    var args, ps := [Constant(Int32, 1), Constant(Int32, 2)], Gcd().params;
    TwoArguments(cx, ps, args);
    var one, qs := [Single(Negate, Int32, Access("x"))], Choose().params;
    assert one[1..] == [] && qs[1..] == [];
    assert CheckArgs(SAMPLE, cx, qs, one);
  }

  lemma TwoArguments(cx: Context, ps: seq<Parameter>, args: seq<Expr>)
    requires |ps| == |args| == 2
    requires forall k :: 0 <= k < 2 ==> CallFree(args[k]) && Fitting(TypeOf(SAMPLE, cx, args[k]), ps[k].ty)
    ensures CheckArgs(SAMPLE, cx, ps, args)
  {
    hide CallFree, TypeOf, Fitting;
    assert args[1..][0] == args[1] && ps[1..][0] == ps[1];
    assert CheckArgs(SAMPLE, cx, ps[1..][1..], args[1..][1..]);
    assert CheckArgs(SAMPLE, cx, ps[1..], args[1..]);
  }

  lemma OneStatement(cx: Context, b: Block)
    requires b.vars == [] && |b.stmts| == 1 && cx.scopes.depth > 0
    requires CheckStmt(SAMPLE, Context(cx.types, OpenScope(cx.scopes, [])), None, b.stmts[0]).Some?
    requires CheckStmt(SAMPLE, Context(cx.types, OpenScope(cx.scopes, [])), None, b.stmts[0]).value.scopes.depth > 0
    ensures CheckBlock(SAMPLE, cx, None, b)
  {
    assert b.stmts[1..] == [];
  }

  lemma ChoiceChecked()
    ensures CheckCondition(SAMPLE, ChooseContext(), None, Choice())
  {
    var cx := ChooseContext();
    var inner := Context(cx.types, OpenScope(cx.scopes, []));
    var innermost := Context(cx.types, OpenScope(inner.scopes, []));
    assert TableKeys([], 2) == {} && TableKeys([], 3) == {};
    Seen(cx, "x");
    Seen(inner, "x");
    Seen(innermost, "x");
    ChooseTyped(cx);
    ChooseTyped(inner);
    ChooseTyped(innermost);
    hide TypeOf, CheckCall;
    OneStatement(cx, Sum());
    OneStatement(inner, Again());
    var innerTail := Context(inner.types, OpenScope(inner.scopes, []));
    DropChecked();
  }

  lemma DropChecked()
    ensures var cx := ChooseContext();
            var tail := Context(cx.types, OpenScope(OpenScope(cx.scopes, []), []));
            CheckBlock(SAMPLE, tail, None, Drop())
  {
    var cx := ChooseContext();
    var tail := Context(cx.types, OpenScope(OpenScope(cx.scopes, []), []));
    var deepest := Context(cx.types, OpenScope(tail.scopes, []));
    assert TableKeys([], 2) == {} && TableKeys([], 3) == {} && TableKeys([], 4) == {};
    Deepest(cx.types.Keys);
    Deepest(deepest.scopes.tables);
    assert TypeOf(SAMPLE, deepest, Access("x")) == Some(Int32);
    ChooseTyped(deepest);
    hide TypeOf;
    OneStatement(tail, Drop());
  }

  lemma Deepest(declared: set<Key>)
    requires declared == {Named("x", 1)}
    ensures Resolve(declared, 5, "x") == Some(1)
  {
    Innermost(declared, 4, "x");
  }

  lemma ChooseChecked()
    ensures CheckFunction(SAMPLE, Choose()) && FunctionScoped(Choose())
  {
    var cx, ss := ChooseContext(), Choose().body.stmts;
    ChooseParameters();
    ChoiceChecked();
    hide CheckCondition;
    assert CheckStmt(SAMPLE, cx, None, ss[0]) == Some(cx) && CheckStmt(SAMPLE, cx, None, ss[1]) == Some(cx);
    hide CheckStmt;
    assert ss[1..] == [ss[1]] && ss[1..][1..] == [];
    assert CheckStmts(SAMPLE, cx, None, ss[1..]);
    ChoiceScoped();
    assert StmtsScoped(ss[1..]);
  }

  lemma ChoiceScoped()
    ensures ConditionScoped(Choice())
  {
    assert Sum().stmts[1..] == [] && Again().stmts[1..] == [] && Drop().stmts[1..] == [];
  }

  // ----- both have code -----

  lemma GcdFits()
    ensures FunctionCodable(Constants([], []), Gcd())
  {
    var m, ss, body := Constants([], []), Gcd().body.stmts, Loop().stmts;
    assert body[1..] == [body[1], body[2]] && body[1..][1..] == [body[2]] && body[1..][1..][1..] == [];
    assert StmtsWords(body[1..][1..]) == 1 && StmtsWords(body[1..]) == 2 && StmtsWords(body) == 3;
    assert StmtsCodable(m, 5, body[1..][1..]) && StmtsCodable(m, 5, body[1..]) && StmtsCodable(m, 5, body);
    assert BlockCodable(m, 4, Loop());
    assert StmtCodable(m, 2, ss[0]) && StmtCodable(m, 2, ss[1]);
    assert ss[1..] == [ss[1]] && ss[1..][1..] == [];
    assert StmtsCodable(m, 2, ss[1..]);
    assert StmtsWords(ss[1..]) == 1;
  }

  lemma ChooseFits()
    ensures FunctionCodable(Constants([], []), Choose())
  {
    hide BlockCodable, StmtsWords, Sum, Again, Drop, StmtsCodable, Choice;
    var m, ss := Constants([], []), Choose().body.stmts;
    SumFits();
    AgainFits();
    DropFits();
    ConditionFits();
    EndFits(ss);
  }

  lemma AgainFits()
    ensures BlockCodable(Constants([], []), 1, Again()) && StmtsWords(Again().stmts) == 4
  {
    var m, args := Constants([], []), [Single(Negate, Int32, Access("x"))];
    assert Again().stmts[1..] == [];
    assert args[1..] == [] && ArgsListed(m, args) && ArgsWords(args) == 2 && ArgsIntermediates(args) == 1;
  }

  lemma DropFits()
    ensures BlockCodable(Constants([], []), 1, Drop()) && StmtsWords(Drop().stmts) == 1
  {
    assert Drop().stmts[1..] == [];
  }

  lemma ConditionFits()
    requires BlockCodable(Constants([], []), 1, Sum()) && StmtsWords(Sum().stmts) == 7
    requires BlockCodable(Constants([], []), 1, Again()) && StmtsWords(Again().stmts) == 4
    requires BlockCodable(Constants([], []), 1, Drop()) && StmtsWords(Drop().stmts) == 1
    ensures ConditionCodable(Constants([], []), 1, Choice()) && ConditionWords(Choice()) < 100
  {
    hide BlockCodable, StmtsWords, Sum, Again, Drop;
    assert ConditionCodable(Constants([], []), 1, Choice().onFalse.cond);
  }

  lemma EndFits(ss: seq<Stmt>)
    requires ss == [If(Choice()), Return(None)]
    requires ConditionCodable(Constants([], []), 1, Choice()) && ConditionWords(Choice()) < 100
    ensures StmtsCodable(Constants([], []), 1, ss) && StmtsWords(ss) < 200
  {
    hide ConditionCodable, ConditionWords, Choice;
    assert ss[1..] == [ss[1]] && ss[1..][1..] == [];
    EmptyReturnFits();
  }

  lemma EmptyReturnFits()
    ensures StmtsCodable(Constants([], []), 1, [Return(None)]) && StmtsWords([Return(None)]) == 1
  {
    assert [Return(None)][1..] == [];
    assert StmtWords(Return(None)) == 1;
  }

  lemma SumFits()
    ensures BlockCodable(Constants([], []), 1, Sum()) && StmtsWords(Sum().stmts) == 7
  {
    var m, args := Constants([], []), [Constant(Int32, 1), Constant(Int32, 2)];
    assert args[1..] == [args[1]];
    OneLiteralListed(2);
    assert ArgsListed(m, args) && ArgsWords(args) == 4 && ArgsIntermediates(args) == 2;
    assert Sum().stmts[1..] == [];
  }

  lemma OneLiteralListed(v: nat)
    requires v < 0x8000
    ensures ArgsListed(Constants([], []), [Constant(Int32, v)])
    ensures ArgsWords([Constant(Int32, v)]) == 2 && ArgsIntermediates([Constant(Int32, v)]) == 1
  {
    assert [Constant(Int32, v)][1..] == [];
  }

  /** The program is checked, as its symbol tables demand, and has code without any constant table. */
  lemma SampleHasCode()
    ensures CheckProgram(SAMPLE) && ProgramScoped(SAMPLE) && AllCodable(SAMPLE, Constants([], []))
    ensures forall i :: 0 <= i < 2 ==>
              GenFunction(Constants([], []), ResultFlags(SAMPLE.functions), SAMPLE.functions[i]).Gen?
  {
    GcdChecked();
    ChooseChecked();
    GcdFits();
    ChooseFits();
    hide CheckFunction, FunctionScoped, FunctionCodable, GenFunction, Gcd, Choose;
    FunctionHasCode(SAMPLE, Constants([], []), Gcd());
    FunctionHasCode(SAMPLE, Constants([], []), Choose());
  }
}
