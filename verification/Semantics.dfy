/**
  What a program means. A variable is found in the innermost open scope that has
  declared it so far; levels number the open scopes, 0 being the global one and 1 a
  function's own. `Stuck` is undefined behaviour, or more loop turns and calls than
  the fuel allows.

  There is one meaning for each reading of tests and promotions: as the source is
  written, as the compiled code runs, and as far as these two are sure to agree.
 */
module Semantics {
  import opened Options
  import opened Values
  import opened Ast
  import opened RegisterPool

  /** The variables declared so far in the open scopes. */
  type Env = map<Key, Value>

  datatype Outcome = Normal(env: Env) | Done(value: Option<Value>) | Stuck

  datatype Reading = AsWritten | AsCompiled | Alike

  /** Whether a tested value is taken for true. The machine tests the low 32 bits. */
  function Truth(r: Reading, v: Value): Option<bool> {
    var written, compiled := v.n != 0, v.n % TWO_32 != 0;
    match r
    case AsWritten => Some(written)
    case AsCompiled => Some(compiled)
    case Alike => if written == compiled then Some(written) else None
  }

  function Tested(r: Reading, v: Option<Value>): Option<bool> {
    match v
    case None => None
    case Some(tested) => Truth(r, tested)
  }

  /** A value where type `ty` is asked for. The machine reads the whole register then. */
  function Promote(r: Reading, ty: Ty, v: Value): (p: Option<Value>)
    ensures p.Some? ==> p.value.ty == ty && p.value.n == v.n && Promotes(v.ty, ty)
  {
    if v.ty == ty then Some(v)
    else if !Promotes(v.ty, ty) || (r != AsWritten && !v.whole) then None
    else Some(Value(ty, v.n, true))
  }

  /** Both operands of an operation on `ty`; the right one is promoted. */
  function BothOperands(r: Reading, ty: Ty, a: Option<Value>, b: Option<Value>): Option<(int, int)> {
    if a.None? || b.None? || Promote(r, ty, b.value).None? then None else Some((a.value.n, b.value.n))
  }

  function PromoteAll(r: Reading, params: seq<Parameter>, values: seq<Value>): (p: Option<seq<Value>>)
    requires |params| == |values|
    ensures p.Some? ==> |p.value| == |values| && forall i :: 0 <= i < |values| ==>
            Promote(r, params[i].ty, values[i]) == Some(p.value[i])
  {
    if params == [] then Some([])
    else
      var first, rest := Promote(r, params[0].ty, values[0]), PromoteAll(r, params[1..], values[1..]);
      if first.None? || rest.None? then None else Some([first.value] + rest.value)
  }

  /** What an assignment stores; a compound one changes the low half of the variable only. */
  function Stored(r: Reading, assign: AssignOp, ty: Ty, before: Value, v: Value): Option<Value> {
    match Promote(r, ty, v)
    case None => None
    case Some(p) =>
      if assign.Copy? then Some(p)
      else
        match EvalDual(assign.op, ty, before.n, p.n)
        case None => None
        case Some(n) => Some(Value(ty, n, Is64(ty) || (before.whole && SameExtension(ty, before.n, n))))
  }

  predicate SameExtension(ty: Ty, a: int, b: int) {
    IsSigned(ty) ==> (a < 0 <==> b < 0)
  }

  /** What a call yields of a function's returned value. */
  function Delivered(r: Reading, result: Option<Ty>, value: Option<Value>): Option<Option<Value>> {
    if value.None? then (if result.None? then Some(None) else None)
    else if result.None? then None
    else
      match Promote(r, result.value, value.value)
      case None => None
      case Some(v) => Some(Some(v))
  }

  /** The level of the innermost of `depth` open scopes that lists the name. */
  function Resolve(declared: set<Key>, depth: nat, name: string): Option<nat> {
    if depth == 0 then None
    else if Named(name, depth - 1) in declared then Some(depth - 1)
    else Resolve(declared, depth - 1, name)
  }

  function Lookup(env: Env, depth: nat, name: string): Option<Value> {
    match Resolve(env.Keys, depth, name)
    case None => None
    case Some(level) => if Named(name, level) in env then Some(env[Named(name, level)]) else None
  }

  /** Closing scopes forgets the variables of every level from `depth` on. */
  function CloseScope<T>(m: map<Key, T>, depth: nat): map<Key, T> {
    map k | k in m && k.level < depth :: m[k]
  }

  function Bind(params: seq<Parameter>, values: seq<Value>): Env
    requires |params| == |values|
  {
    if params == [] then map[]
    else Bind(params[..|params| - 1],
              values[..|values| - 1])[Named(params[|params| - 1].name, 1) := values[|values| - 1]]
  }

  function Eval(p: Program, r: Reading, fuel: nat, env: Env, depth: nat, e: Expr): Option<Value>
    decreases fuel, 1, e
  {
    match e
    case Constant(ty, v) => Some(Literal(ty, v))
    case Access(name) => Lookup(env, depth, name)
    case Dual(op, ty, left, right) =>
      (match BothOperands(r, ty, Eval(p, r, fuel, env, depth, left), Eval(p, r, fuel, env, depth, right))
       case None => None
       case Some((a, b)) =>
         match EvalDual(op, ty, a, b)
         case None => None
         case Some(n) => Some(Computed(ty, n)))
    case Comparison(cmp, ty, left, right) =>
      (match BothOperands(r, ty, Eval(p, r, fuel, env, depth, left), Eval(p, r, fuel, env, depth, right))
       case None => None
       case Some((a, b)) => Some(Computed(Bool, EvalCompare(cmp, a, b))))
    case Single(single, ty, operand) =>
      (match Eval(p, r, fuel, env, depth, operand)
       case None => None
       case Some(a) => Some(Computed(ty, EvalSingle(single, ty, a.n))))
    case Call(callee, args) =>
      match EvalArgs(p, r, fuel, env, depth, args)
      case None => None
      case Some(values) =>
        match Invoke(p, r, fuel, callee, values)
        case None => None
        case Some(result) => result
  }

  function EvalArgs(p: Program, r: Reading, fuel: nat, env: Env, depth: nat,
                    args: seq<Expr>): (values: Option<seq<Value>>)
    ensures values.Some? ==> |values.value| == |args|
    decreases fuel, 1, args
  {
    if args == [] then Some([])
    else
      match Eval(p, r, fuel, env, depth, args[0])
      case None => None
      case Some(v) =>
        match EvalArgs(p, r, fuel, env, depth, args[1..])
        case None => None
        case Some(rest) => Some([v] + rest)
  }

  /** A call: nothing when it is stuck, otherwise the value returned, if any. */
  function Invoke(p: Program, r: Reading, fuel: nat, callee: nat, values: seq<Value>): Option<Option<Value>>
    decreases fuel, 0
  {
    if fuel == 0 || callee >= |p.functions| || |p.functions[callee].params| != |values| then None
    else
      var f := p.functions[callee];
      match PromoteAll(r, f.params, values)
      case None => None
      case Some(bound) =>
        match ExecAll(p, r, fuel - 1, Bind(f.params, bound), 2, f.body.stmts)
        case Done(value) => Delivered(r, f.result, value)
        case Normal(_) => if f.result.None? then Some(None) else None
        case Stuck => None
  }

  function Exec(p: Program, r: Reading, fuel: nat, env: Env, depth: nat, s: Stmt): Outcome
    requires depth > 0
    decreases fuel, 1, s
  {
    match s
    case Declare(name, init) =>
      (match Eval(p, r, fuel, env, depth, init)
       case None => Stuck
       case Some(v) => Normal(env[Named(name, depth - 1) := v]))
    case Assign(name, assign, ty, value) =>
      (match Eval(p, r, fuel, env, depth, value)
       case None => Stuck
       case Some(v) =>
         var level := Resolve(env.Keys, depth, name);
         if level.None? || Named(name, level.value) !in env then Stuck
         else
           var key := Named(name, level.value);
           var stored := Stored(r, assign, ty, env[key], v);
           if stored.None? then Stuck else Normal(env[key := stored.value]))
    case Evaluate(e) =>
      if e.Call? then
        match EvalArgs(p, r, fuel, env, depth, e.args)
        case None => Stuck
        case Some(values) => if Invoke(p, r, fuel, e.callee, values).None? then Stuck else Normal(env)
      else if Eval(p, r, fuel, env, depth, e).None? then Stuck else Normal(env)
    case If(cond) => ExecCondition(p, r, fuel, env, depth, cond)
    case While(test, body) =>
      (match Tested(r, Eval(p, r, fuel, env, depth, test))
       case None => Stuck
       case Some(holds) =>
         if !holds then Normal(env)
         else
           match ExecBlock(p, r, fuel, env, depth, body)
           case Normal(next) => if fuel == 0 then Stuck else Exec(p, r, fuel - 1, next, depth, s)
           case other => other)
    case Return(result) =>
      match result
      case None => Done(None)
      case Some(e) =>
        match Eval(p, r, fuel, env, depth, e)
        case None => Stuck
        case Some(v) => Done(Some(v))
  }

  function ExecAll(p: Program, r: Reading, fuel: nat, env: Env, depth: nat, ss: seq<Stmt>): Outcome
    requires depth > 0
    decreases fuel, 1, ss
  {
    if ss == [] then Normal(env)
    else
      match Exec(p, r, fuel, env, depth, ss[0])
      case Normal(next) => ExecAll(p, r, fuel, next, depth, ss[1..])
      case other => other
  }

  function Leave(o: Outcome, depth: nat): Outcome {
    match o
    case Normal(env) => Normal(CloseScope(env, depth))
    case _ => o
  }

  function ExecBlock(p: Program, r: Reading, fuel: nat, env: Env, depth: nat, b: Block): Outcome
    decreases fuel, 1, b
  {
    Leave(ExecAll(p, r, fuel, env, depth + 1, b.stmts), depth)
  }

  function ExecCondition(p: Program, r: Reading, fuel: nat, env: Env, depth: nat, c: Condition): Outcome
    decreases fuel, 1, c
  {
    match Tested(r, Eval(p, r, fuel, env, depth, c.test))
    case None => Stuck
    case Some(holds) =>
      if holds then ExecBlock(p, r, fuel, env, depth, c.onTrue)
      else
        match c.onFalse
        case NoElse => Normal(env)
        case Elif(next) => Leave(ExecCondition(p, r, fuel, env, depth + 1, next), depth)
        case Else(block) => Leave(ExecBlock(p, r, fuel, env, depth + 1, block), depth)
  }
}
