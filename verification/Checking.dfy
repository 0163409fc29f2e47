/**
  The programs the compiler theorem speaks of. Each rule is something that can be
  checked on the tree:
  - both operands of an operator, and both sides of an assignment, an argument or a
    return, have one type, or the right one promotes to the left;
  - a signed constant that fits the instruction word is not negative (see
    InlineConstantLoaded);
  - a variable is not used in a scope that declares it further down (the generator
    resolves names in the whole table of the scope);
  - the arguments of a call contain no calls.
 */
module Checking {
  import opened Options
  import opened Values
  import opened RegisterPool
  import opened Ast
  import opened Semantics
  import opened CodeGen

  /** The types of the variables declared so far, and the scopes the generator has open. */
  datatype Context = Context(types: map<Key, Ty>, scopes: Scopes)

  predicate Loadable(ty: Ty, v: int) {
    InRange(ty, v) && !(IsSigned(ty) && MIN_INT16 <= v < 0)
  }

  /** An expression of the type, if it has one, may stand where `ty` is asked for. */
  predicate Fitting(from: Option<Ty>, ty: Ty) {
    from.Some? && Promotes(from.value, ty)
  }

  function TypeOf(p: Program, cx: Context, e: Expr): Option<Ty>
    decreases e
  {
    match e
    case Constant(ty, v) => if Loadable(ty, v) then Some(ty) else None
    case Access(name) =>
      var level := Resolve(cx.types.Keys, cx.scopes.depth, name);
      if level.Some? && level == Resolve(cx.scopes.tables, cx.scopes.depth, name)
          && Named(name, level.value) in cx.types
      then Some(cx.types[Named(name, level.value)]) else None
    case Dual(_, ty, l, r) =>
      if ty != Bool && TypeOf(p, cx, l) == Some(ty) && Fitting(TypeOf(p, cx, r), ty) then Some(ty) else None
    case Comparison(_, ty, l, r) =>
      if TypeOf(p, cx, l) == Some(ty) && Fitting(TypeOf(p, cx, r), ty) then Some(Bool) else None
    case Single(single, ty, operand) =>
      if ty != Bool && (single.Negate? ==> IsSigned(ty)) && TypeOf(p, cx, operand) == Some(ty) then Some(ty) else None
    case Call(callee, args) => if CheckCall(p, cx, callee, args) then p.functions[callee].result else None
  }

  predicate CheckCall(p: Program, cx: Context, callee: nat, args: seq<Expr>)
    decreases args, 1
  {
    callee < |p.functions| && CheckArgs(p, cx, p.functions[callee].params, args)
  }

  predicate CheckArgs(p: Program, cx: Context, params: seq<Parameter>, args: seq<Expr>)
    decreases args, 0
  {
    |params| == |args| &&
    (args == [] ||
     (CallFree(args[0]) && Fitting(TypeOf(p, cx, args[0]), params[0].ty) && CheckArgs(p, cx, params[1..], args[1..])))
  }

  /** The context after a statement, or nothing if it breaks a rule. */
  function CheckStmt(p: Program, cx: Context, result: Option<Ty>, s: Stmt): Option<Context>
    requires cx.scopes.depth > 0
    decreases s
  {
    match s
    case Declare(name, init) =>
      var key := Named(name, cx.scopes.depth - 1);
      var ty := TypeOf(p, cx, init);
      if ty.Some? && key in cx.scopes.tables
          && key !in cx.types then Some(cx.(types := cx.types[key := ty.value])) else None
    case Assign(name, assign, ty, value) =>
      if TypeOf(p, cx, Access(name)) == Some(ty) && Fitting(TypeOf(p, cx, value), ty)
          && (assign.Compound? ==> ty != Bool && !assign.op.Mod?)
      then Some(cx) else None
    case Evaluate(e) =>
      if TypeOf(p, cx, e).Some? || (e.Call? && CheckCall(p, cx, e.callee, e.args)) then Some(cx) else None
    case If(cond) => if CheckCondition(p, cx, result, cond) then Some(cx) else None
    case While(test, body) => if TypeOf(p, cx, test).Some? && CheckBlock(p, cx, result, body) then Some(cx) else None
    case Return(None) => if result.None? then Some(cx) else None
    case Return(Some(e)) => if result.Some? && Fitting(TypeOf(p, cx, e), result.value) then Some(cx) else None
  }

  predicate CheckStmts(p: Program, cx: Context, result: Option<Ty>, ss: seq<Stmt>)
    requires cx.scopes.depth > 0
    decreases ss
  {
    ss == [] ||
    var next := CheckStmt(p, cx, result, ss[0]);
    next.Some? && next.value.scopes.depth > 0 && CheckStmts(p, next.value, result, ss[1..])
  }

  predicate CheckBlock(p: Program, cx: Context, result: Option<Ty>, b: Block)
    decreases b
  {
    CheckStmts(p, Context(cx.types, OpenScope(cx.scopes, b.vars)), result, b.stmts)
  }

  predicate CheckCondition(p: Program, cx: Context, result: Option<Ty>, c: Condition)
    decreases c
  {
    && TypeOf(p, cx, c.test).Some?
    && CheckBlock(p, cx, result, c.onTrue)
    && match c.onFalse
       case NoElse => true
       case Elif(next) => CheckCondition(p, Context(cx.types, OpenScope(cx.scopes, [])), result, next)
       case Else(block) => CheckBlock(p, Context(cx.types, OpenScope(cx.scopes, [])), result, block)
  }

  function ParameterTypes(params: seq<Parameter>): map<Key, Ty> {
    if params == [] then map[]
    else ParameterTypes(params[..|params| - 1])[Named(params[|params| - 1].name, 1) := params[|params| - 1].ty]
  }

  predicate DistinctNames(params: seq<Parameter>) {
    forall i, j :: 0 <= i < j < |params| ==> params[i].name != params[j].name
  }

  predicate CheckFunction(p: Program, f: FunctionDecl) {
    && DistinctNames(f.params)
    && (forall i :: 0 <= i < |f.params| ==> f.params[i].name in f.body.vars)
    && CheckStmts(p, Context(ParameterTypes(f.params), OpenScope(FUNCTION_SCOPES, f.body.vars)), f.result, f.body.stmts)
  }

  predicate CheckProgram(p: Program) {
    forall i :: 0 <= i < |p.functions| ==> CheckFunction(p, p.functions[i])
  }

  /**
    The generator looks a name up in whole scope tables, the source among the variables
    declared so far. They find the same variable exactly when no scope further in lists
    the name at all.
   */
  lemma {:induction false} ResolvedAlike(declared: set<Key>, tables: set<Key>, depth: nat, name: string, level: nat)
    requires declared <= tables && Resolve(declared, depth, name) == Some(level)
    ensures Resolve(tables, depth, name) == Some(level) <==> forall j :: level < j < depth ==> Named(name, j) !in tables
    decreases depth
  {
    ResolveBelow(declared, depth, name);
    if Named(name, depth - 1) !in declared {
      ResolveBelow(tables, depth, name);
      ResolvedAlike(declared, tables, depth - 1, name, level);
    }
  }

  lemma {:induction false} ResolveBelow(tables: set<Key>, depth: nat, name: string)
    ensures Resolve(tables, depth, name).Some? ==>
              Resolve(tables, depth, name).value < depth && Named(name, Resolve(tables, depth, name).value) in tables
    decreases depth
  {
    if depth > 0 && Named(name, depth - 1) !in tables {
      ResolveBelow(tables, depth - 1, name);
    }
  }
}
