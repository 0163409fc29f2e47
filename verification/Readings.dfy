/**
  When the compiled program computes what the source says. The two readings of a program
  differ in tests and promotions only; a run in which no test is misread and every
  promoted value is known to be extended has the same meaning in both.
 */
module Readings {
  import opened Options
  import opened Values
  import opened RegisterPool
  import opened Ast
  import opened Semantics

  /** A test is read as it is written exactly when the two readings of its value agree. */
  lemma TruthAlike(v: Value)
    requires InRange(v.ty, v.n)
    ensures Truth(AsWritten, v) == Truth(AsCompiled, v) <==> Truth(Alike, v).Some?
    ensures Truth(Alike, v).Some? <==> !Is64(v.ty) || v.n == 0 || v.n % TWO_32 != 0
  {
  }

  lemma OperandsAlike(r: Reading, ty: Ty, a: Option<Value>, b: Option<Value>)
    ensures BothOperands(Alike, ty, a, b).Some? ==> BothOperands(r, ty, a, b) == BothOperands(Alike, ty, a, b)
  {
  }

  lemma StoredAlike(r: Reading, assign: AssignOp, ty: Ty, before: Value, v: Value)
    ensures Stored(Alike, assign, ty, before, v).Some? ==>
            Stored(r, assign, ty, before, v) == Stored(Alike, assign, ty, before, v)
  {
    hide EvalDual;
  }

  lemma {:induction false} PromoteAllAlike(r: Reading, params: seq<Parameter>, values: seq<Value>)
    requires |params| == |values|
    ensures PromoteAll(Alike, params, values).Some? ==>
            PromoteAll(r, params, values) == PromoteAll(Alike, params, values)
  {
    if params != [] {
      PromoteAllAlike(r, params[1..], values[1..]);
    }
  }

  lemma DeliveredAlike(r: Reading, result: Option<Ty>, value: Option<Value>)
    ensures Delivered(Alike, result, value).Some? ==> Delivered(r, result, value) == Delivered(Alike, result, value)
  {
  }

  lemma {:induction false} EvalAlike(p: Program, r: Reading, fuel: nat, env: Env, depth: nat, e: Expr)
    ensures Eval(p, Alike, fuel, env, depth, e).Some? ==>
            Eval(p, r, fuel, env, depth, e) == Eval(p, Alike, fuel, env, depth, e)
    decreases fuel, 1, e
  {
    hide EvalDual, EvalCompare, EvalSingle, Invoke, BothOperands;
    match e
    case Constant(_, _) =>
    case Access(_) =>
    case Dual(_, ty, left, right) =>
      EvalAlike(p, r, fuel, env, depth, left);
      EvalAlike(p, r, fuel, env, depth, right);
      BothAlike(p, r, fuel, env, depth, ty, left, right);
    case Comparison(_, ty, left, right) =>
      EvalAlike(p, r, fuel, env, depth, left);
      EvalAlike(p, r, fuel, env, depth, right);
      BothAlike(p, r, fuel, env, depth, ty, left, right);
    case Single(_, _, operand) =>
      EvalAlike(p, r, fuel, env, depth, operand);
    case Call(callee, args) =>
      ArgsAlike(p, r, fuel, env, depth, args);
      if EvalArgs(p, Alike, fuel, env, depth, args).Some? {
        InvokeAlike(p, r, fuel, callee, EvalArgs(p, Alike, fuel, env, depth, args).value);
      }
  }

  lemma BothAlike(p: Program, r: Reading, fuel: nat, env: Env, depth: nat, ty: Ty, left: Expr, right: Expr)
    requires forall e | e in [left, right] ::
               Eval(p, Alike, fuel, env, depth, e).Some? ==>
                 Eval(p, r, fuel, env, depth, e) == Eval(p, Alike, fuel, env, depth, e)
    ensures var both := BothOperands(Alike, ty, Eval(p, Alike, fuel, env, depth, left),
                                     Eval(p, Alike, fuel, env, depth, right));
            both.Some? ==>
              BothOperands(r, ty, Eval(p, r, fuel, env, depth, left), Eval(p, r, fuel, env, depth, right)) == both
  {
    hide Eval;
    assert left in [left, right] && right in [left, right];
    OperandsAlike(r, ty, Eval(p, Alike, fuel, env, depth, left), Eval(p, Alike, fuel, env, depth, right));
  }

  lemma {:induction false} ArgsAlike(p: Program, r: Reading, fuel: nat, env: Env, depth: nat, args: seq<Expr>)
    ensures EvalArgs(p, Alike, fuel, env, depth, args).Some? ==>
              EvalArgs(p, r, fuel, env, depth, args) == EvalArgs(p, Alike, fuel, env, depth, args)
    decreases fuel, 1, args
  {
    hide Eval;
    if args != [] {
      EvalAlike(p, r, fuel, env, depth, args[0]);
      ArgsAlike(p, r, fuel, env, depth, args[1..]);
    }
  }

  /** A call with a meaning both readings are sure of has that meaning in each of them. */
  lemma {:induction false} InvokeAlike(p: Program, r: Reading, fuel: nat, callee: nat, values: seq<Value>)
    ensures Invoke(p, Alike, fuel, callee, values).Some? ==>
            Invoke(p, r, fuel, callee, values) == Invoke(p, Alike, fuel, callee, values)
    decreases fuel, 0
  {
    hide ExecAll, Bind, PromoteAll, Delivered;
    if fuel > 0 && callee < |p.functions| && |p.functions[callee].params| == |values| {
      var f := p.functions[callee];
      PromoteAllAlike(r, f.params, values);
      var bound := PromoteAll(Alike, f.params, values);
      if bound.Some? {
        var env := Bind(f.params, bound.value);
        ExecAllAlike(p, r, fuel - 1, env, 2, f.body.stmts);
        var o := ExecAll(p, Alike, fuel - 1, env, 2, f.body.stmts);
        if o.Done? {
          DeliveredAlike(r, f.result, o.value);
        }
      }
    }
  }

  lemma {:induction false} ExecAlike(p: Program, r: Reading, fuel: nat, env: Env, depth: nat, s: Stmt)
    requires depth > 0
    ensures !Exec(p, Alike, fuel, env, depth, s).Stuck? ==>
            Exec(p, r, fuel, env, depth, s) == Exec(p, Alike, fuel, env, depth, s)
    decreases fuel, 1, s
  {
    hide Eval, Invoke, ExecBlock, ExecCondition, EvalArgs, Stored, Resolve;
    match s
    case Declare(_, init) =>
      EvalAlike(p, r, fuel, env, depth, init);
    case Assign(name, assign, ty, value) =>
      EvalAlike(p, r, fuel, env, depth, value);
      var level := Resolve(env.Keys, depth, name);
      if level.Some? && Named(name, level.value) in env && Eval(p, Alike, fuel, env, depth, value).Some? {
        StoredAlike(r, assign, ty, env[Named(name, level.value)], Eval(p, Alike, fuel, env, depth, value).value);
      }
    case Evaluate(e) =>
      EvalAlike(p, r, fuel, env, depth, e);
      if e.Call? {
        ArgsAlike(p, r, fuel, env, depth, e.args);
        if EvalArgs(p, Alike, fuel, env, depth, e.args).Some? {
          InvokeAlike(p, r, fuel, e.callee, EvalArgs(p, Alike, fuel, env, depth, e.args).value);
        }
      }
    case If(cond) =>
      ConditionAlike(p, r, fuel, env, depth, cond);
    case While(test, body) =>
      EvalAlike(p, r, fuel, env, depth, test);
      BlockAlike(p, r, fuel, env, depth, body);
      var turn := ExecBlock(p, Alike, fuel, env, depth, body);
      if turn.Normal? && fuel > 0 {
        ExecAlike(p, r, fuel - 1, turn.env, depth, s);
      }
    case Return(result) =>
      if result.Some? {
        EvalAlike(p, r, fuel, env, depth, result.value);
      }
  }

  lemma {:induction false} ExecAllAlike(p: Program, r: Reading, fuel: nat, env: Env, depth: nat, ss: seq<Stmt>)
    requires depth > 0
    ensures !ExecAll(p, Alike, fuel, env, depth, ss).Stuck? ==>
            ExecAll(p, r, fuel, env, depth, ss) == ExecAll(p, Alike, fuel, env, depth, ss)
    decreases fuel, 1, ss
  {
    hide Exec;
    if ss != [] {
      ExecAlike(p, r, fuel, env, depth, ss[0]);
      var o := Exec(p, Alike, fuel, env, depth, ss[0]);
      if o.Normal? {
        ExecAllAlike(p, r, fuel, o.env, depth, ss[1..]);
      }
    }
  }

  lemma {:induction false} BlockAlike(p: Program, r: Reading, fuel: nat, env: Env, depth: nat, b: Block)
    ensures !ExecBlock(p, Alike, fuel, env, depth, b).Stuck? ==>
            ExecBlock(p, r, fuel, env, depth, b) == ExecBlock(p, Alike, fuel, env, depth, b)
    decreases fuel, 1, b
  {
    hide ExecAll;
    ExecAllAlike(p, r, fuel, env, depth + 1, b.stmts);
  }

  lemma {:induction false} ConditionAlike(p: Program, r: Reading, fuel: nat, env: Env, depth: nat, c: Condition)
    ensures !ExecCondition(p, Alike, fuel, env, depth, c).Stuck? ==>
              ExecCondition(p, r, fuel, env, depth, c) == ExecCondition(p, Alike, fuel, env, depth, c)
    decreases fuel, 1, c
  {
    hide Eval, ExecBlock;
    EvalAlike(p, r, fuel, env, depth, c.test);
    BlockAlike(p, r, fuel, env, depth, c.onTrue);
    match c.onFalse
    case NoElse =>
    case Elif(next) =>
      ConditionAlike(p, r, fuel, env, depth + 1, next);
    case Else(block) =>
      BlockAlike(p, r, fuel, env, depth + 1, block);
  }
}
