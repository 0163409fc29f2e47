/**
  A function that needs exactly the 250 registers there are. Its parameter has one before
  the scope is registered, which asks for it again; when the parameter is listed last, no
  register is left by then, and the function is refused.
 */
module CrowdedScope {
  import opened Options
  import opened Values
  import opened RegisterPool
  import opened Ast
  import opened Semantics
  import opened CodeGen
  import opened Checking
  import opened CompilerRelation
  import opened CodeExists

  const LOCALS := 249

  /** Names of different length. */
  function Letters(i: nat): (name: string)
    ensures |name| == i + 1 && name[0] == 'a'
  {
    seq(i + 1, _ => 'a')
  }

  function Locals(): (vars: seq<string>)
    ensures |vars| == LOCALS && forall i :: 0 <= i < LOCALS ==> vars[i] == Letters(i)
  {
    seq(LOCALS, i requires 0 <= i => Letters(i))
  }

  function Declarations(): (ss: seq<Stmt>)
    ensures |ss| == LOCALS && forall i :: 0 <= i < LOCALS ==> ss[i] == Declare(Letters(i), Constant(Int32, 0))
  {
    seq(LOCALS, i requires 0 <= i => Declare(Letters(i), Constant(Int32, 0)))
  }

  /** Symbol tables are in the order of their names: z comes after the local variables, A before them. */
  function ParameterName(last: bool): string {
    if last then "z" else "A"
  }

  function Scope(last: bool): (vars: seq<string>)
    ensures |vars| == 250
  {
    if last then Locals() + [ParameterName(last)] else [ParameterName(last)] + Locals()
  }

  function Crowded(last: bool): FunctionDecl {
    FunctionDecl([Parameter(ParameterName(last), Int32)], None, Block(Scope(last), Declarations()))
  }

  lemma ScopeIs(last: bool)
    ensures DistinctVars(Scope(last)) && ParameterName(last) in Scope(last)
    ensures forall i :: 0 <= i < LOCALS ==> Letters(i) in Scope(last)
    ensures forall v :: v in Scope(last) ==> v == ParameterName(last) || v in Locals()
    ensures Scope(last)[249] == ParameterName(last) <==> last
  {
    var vars := Scope(last);
    assert vars[if last then 249 else 0] == ParameterName(last);
    forall i | 0 <= i < LOCALS
      ensures Letters(i) in vars
    {
      assert vars[if last then i else i + 1] == Locals()[i];
    }
    assert vars[249][0] == if last then 'z' else 'a';
  }

  lemma {:induction false} RestScoped(ss: seq<Stmt>)
    requires forall i :: 0 <= i < |ss| ==> ss[i].Declare? && ss[i].init == Constant(Int32, 0)
    ensures StmtsScoped(ss) && StmtsWords(ss) == |ss| && StmtsCodable(Constants([], []), 250, ss)
  {
    if ss != [] {
      RestScoped(ss[1..]);
    }
  }

  lemma {:induction false} RestChecked(p: Program, cx: Context, last: bool, k: nat)
    requires k <= LOCALS && cx.scopes.depth > 0
    requires forall i :: 0 <= i < LOCALS ==> Named(Letters(i), cx.scopes.depth - 1) in cx.scopes.tables
    requires forall key :: key in cx.types ==> key.Named? && (key.name == ParameterName(last) || |key.name| <= k)
    ensures CheckStmts(p, cx, None, Declarations()[k..])
    decreases LOCALS - k
  {
    if k < LOCALS {
      var s := Declarations()[k];
      assert Declarations()[k..][0] == s && Declarations()[k..][1..] == Declarations()[k + 1..];
      var key := Named(s.name, cx.scopes.depth - 1);
      assert s.name == Letters(k) && s.name[0] != ParameterName(last)[0];
      RestChecked(p, cx.(types := cx.types[key := Int32]), last, k + 1);
    }
  }

  lemma OneParameter(last: bool)
    ensures ParameterTypes(Crowded(last).params) == map[Named(ParameterName(last), 1) := Int32]
    ensures ParameterNames(Crowded(last).params) == [ParameterName(last)]
  {
    var ps := Crowded(last).params;
    assert ps[..0] == [] && ParameterTypes(ps[..0]) == map[] && ps[1..] == [];
  }

  function StartContext(last: bool): Context {
    Context(map[Named(ParameterName(last), 1) := Int32], OpenScope(FUNCTION_SCOPES, Scope(last)))
  }

  lemma DeclarationsChecked(last: bool)
    ensures CheckStmts(Program([Crowded(last)]), StartContext(last), None, Declarations())
  {
    hide Scope, Locals, Declarations, CheckStmts;
    ScopeIs(last);
    RestChecked(Program([Crowded(last)]), StartContext(last), last, 0);
    assert Declarations()[0..] == Declarations();
  }

  lemma CrowdedChecked(last: bool)
    ensures CheckFunction(Program([Crowded(last)]), Crowded(last))
  {
    hide Scope, ParameterTypes, ParameterNames, Declarations, CheckStmts, OpenScope;
    ScopeIs(last);
    OneParameter(last);
    DeclarationsChecked(last);
  }

  lemma CrowdedScoped(last: bool)
    ensures FunctionScoped(Crowded(last))
  {
    hide Scope, ParameterNames, Locals, Declarations, StmtsScoped, StmtsWords, StmtsCodable, Letters, ParameterName;
    ScopeIs(last);
    OneParameter(last);
    RestScoped(Declarations());
    forall v | v in Locals()
      ensures Declares(Declarations(), v)
    {
      var i :| 0 <= i < |Locals()| && Locals()[i] == v;
      assert Declarations()[i].name == v;
    }
  }

  /** With its parameter listed first it has code of 250 words; with the parameter listed last, none. */
  lemma LastParameterRefused(last: bool)
    ensures var f := Crowded(last);
            var p := Program([f]);
            && CheckFunction(p, f) && FunctionScoped(f) && |f.body.vars| == 250
            && var g := GenFunction(Constants([], []), ResultFlags(p.functions), f);
               && (g.Gen? <==> !last) && (g.Gen? ==> |g.code| == 250)
  {
    hide GenFunction, Scope, ParameterNames, Declarations, StmtsCodable, StmtsWords, CheckFunction, FunctionScoped,
         ResultFlags, Letters, ParameterName;
    CrowdedChecked(last);
    CrowdedScoped(last);
    ScopeIs(last);
    OneParameter(last);
    RestScoped(Declarations());
    FunctionHasCode(Program([Crowded(last)]), Constants([], []), Crowded(last));
  }
}
