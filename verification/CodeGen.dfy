/**
  The code a program compiles to, as a function of the tree and the register pool.
  The generator itself (module Generator) appends placeholders and patches them; its
  buffer ends up holding exactly this. `Throw` is a generator exception or a failed
  assertion of the generator.
 */
module CodeGen {
  import opened Options
  import opened Values
  import opened Bytecode
  import opened Registers
  import opened RegisterPool
  import opened Ast
  import opened Semantics

  const MAX_CODE_SIZE := 0xFFFF

  /** The constant tables of the module, in the order of their indices. */
  datatype Constants = Constants(bits32: seq<(Ty, int)>, bits64: seq<(Ty, int)>)

  /** The variables listed by the symbol tables of the open scopes, and their number. */
  datatype Scopes = Scopes(tables: set<Key>, depth: nat)

  datatype Emitted = Throw | Emit(pool: Pool, code: seq<Word>, reg: int)

  datatype Operands = NoOperands | Operands(pool: Pool, code: seq<Word>, reg1: int, reg2: int)

  datatype Generated = Failed | Gen(pool: Pool, code: seq<Word>)

  function TableKeys(vars: seq<string>, level: nat): set<Key> {
    set v | v in vars :: Named(v, level)
  }

  function OpenScope(sc: Scopes, vars: seq<string>): Scopes {
    Scopes(sc.tables + TableKeys(vars, sc.depth), sc.depth + 1)
  }

  // ----- temporaries -----

  /** How many temporaries the symbol-tree builder declares for an expression. */
  function TempCount(e: Expr): nat
    decreases e
  {
    match e
    case Constant(_, _) => 1
    case Access(_) => 0
    case Dual(_, _, l, r) => TempCount(l) + TempCount(r) + 1
    case Comparison(_, _, l, r) => TempCount(l) + TempCount(r) + 1
    case Single(_, _, operand) => TempCount(operand) + 1
    case Call(_, args) => ArgsTempCount(args) + 1
  }

  function ArgsTempCount(args: seq<Expr>): nat
    decreases args
  {
    if args == [] then 0 else TempCount(args[0]) + ArgsTempCount(args[1..])
  }

  function StmtTempCount(s: Stmt): nat {
    match s
    case Declare(_, init) => TempCount(init)
    case Assign(_, _, _, value) => TempCount(value)
    case Evaluate(e) => TempCount(e)
    case If(cond) => TempCount(cond.test)
    case While(test, _) => TempCount(test)
    case Return(result) => if result.Some? then TempCount(result.value) else 0
  }

  /** The temporaries numbered from `from` up to `end`, allocated in order until one is refused. */
  function AllocateTemps(p: Pool, level: nat, from: nat, end: nat): Pool
    decreases end - from
  {
    if from >= end || Allocated(p, Temp(level, from)) == UNUSED then p
    else AllocateTemps(Allocate(p, Temp(level, from)), level, from + 1, end)
  }

  function DeallocateTemps(p: Pool, level: nat, from: nat, end: nat): Pool
    decreases end - from
  {
    if from >= end then p else DeallocateTemps(Deallocate(p, Temp(level, from)), level, from + 1, end)
  }

  function AllocateVars(p: Pool, level: nat, vars: seq<string>): Pool
    decreases |vars|
  {
    if vars == [] || Allocated(p, Named(vars[0], level)) == UNUSED then p
    else AllocateVars(Allocate(p, Named(vars[0], level)), level, vars[1..])
  }

  /** Whether every variable of the scope got a register. */
  predicate VarsFit(p: Pool, level: nat, vars: seq<string>)
    decreases |vars|
  {
    vars == [] ||
    (Allocated(p, Named(vars[0], level)) != UNUSED && VarsFit(Allocate(p, Named(vars[0], level)), level, vars[1..]))
  }

  function DeallocateVars(p: Pool, level: nat, vars: seq<string>): Pool
    decreases |vars|
  {
    if vars == [] then p else DeallocateVars(Deallocate(p, Named(vars[0], level)), level, vars[1..])
  }

  // ----- expressions -----

  function IndexOf(table: seq<(Ty, int)>, entry: (Ty, int)): Option<nat>
  {
    if table == [] then None
    else if table[0] == entry then Some(0)
    else
      match IndexOf(table[1..], entry)
      case None => None
      case Some(i) => Some(i + 1)
  }

  function ConstantWord(m: Constants, ty: Ty, v: int, reg: int): Option<Word> {
    if FitsInBytecode(ty, v) then Some(PackDstValue(LOAD_VALUE, reg, v))
    else
      match IndexOf(if Is64(ty) then m.bits64 else m.bits32, (ty, v))
      case None => None
      case Some(i) => Some(PackDstValue(if Is64(ty) then LOAD_CONST_64 else LOAD_CONST_32, reg, i))
  }

  /** The symbol that holds the result of an expression whose temporaries start at `c`. */
  function ResultKey(sc: Scopes, c: nat, e: Expr, target: Option<Key>): Key
    requires sc.depth > 0
  {
    match e
    case Access(name) =>
      (match Resolve(sc.tables, sc.depth, name)
       case None => Temp(sc.depth - 1, c)
       case Some(level) => Named(name, level))
    case _ => if target.Some? then target.value else Temp(sc.depth - 1, c + TempCount(e) - 1)
  }

  /**
    The code of an expression and the register of its result. `target` is the symbol
    that a declaration substitutes for the temporary of the root.
   */
  function GenExpr(m: Constants, sc: Scopes, p: Pool, c: nat, e: Expr, target: Option<Key>): Emitted
    requires sc.depth > 0
    decreases e, 1
  {
    var reg := RegisterFor(p, ResultKey(sc, c, e, target));
    match e
    case Constant(ty, v) =>
      var word := ConstantWord(m, ty, v, reg);
      if reg == UNUSED || word.None? then Throw else Emit(p, [word.value], reg)
    case Access(name) =>
      if Resolve(sc.tables, sc.depth, name).None? || reg == UNUSED then Throw else Emit(p, [], reg)
    case Dual(op, ty, _, _) =>
      if reg == UNUSED || ty == Bool then Throw
      else
        (match GenOperands(m, sc, p, c, e)
         case NoOperands => Throw
         case Operands(p2, code, reg1, reg2) =>
           Emit(p2, code + [PackThreeRegisters(DualOperatorInst(op, ty), reg, reg1, reg2)], reg))
    case Comparison(cmp, ty, _, _) =>
      (match GenOperands(m, sc, p, c, e)
       case NoOperands => Throw
       case Operands(p2, code, reg1, reg2) =>
         if reg == UNUSED then Throw
         else Emit(p2, code + [PackThreeRegisters(CompareOperatorInst(cmp, ty), reg, reg1, reg2)], reg))
    case Single(single, ty, operand) =>
      (match GenExpr(m, sc, p, c, operand, None)
       case Throw => Throw
       case Emit(p1, code1, reg1) =>
         if reg == UNUSED || ty == Bool || (single.Negate? && !IsSigned(ty)) then Throw
         else Emit(p1, code1 + [PackTwoRegisters(SingleOperatorInst(single, ty), reg, reg1)], reg))
    case Call(callee, args) =>
      GenCall(m, sc, p, c, callee, args, Some(ResultKey(sc, c, e, target)))
  }

  /** The left operand, then the right one. */
  function GenOperands(m: Constants, sc: Scopes, p: Pool, c: nat, e: Expr): Operands
    requires sc.depth > 0 && (e.Dual? || e.Comparison?)
    decreases e, 0
  {
    match GenExpr(m, sc, p, c, e.left, None)
    case Throw => NoOperands
    case Emit(p1, code1, reg1) =>
      match GenExpr(m, sc, p1, c + TempCount(e.left), e.right, None)
      case Throw => NoOperands
      case Emit(p2, code2, reg2) => Operands(p2, code1 + code2, reg1, reg2)
  }

  /**
    A call holds one anonymous temporary for the function while its arguments are
    evaluated and pushed; a call without a result has no result symbol.
   */
  function GenCall(m: Constants, sc: Scopes, p: Pool, c: nat, callee: nat, args: seq<Expr>,
                   result: Option<Key>): Emitted
    requires sc.depth > 0
    decreases args, 1
  {
    var fn := AllocatedTemporary(p);
    if fn == UNUSED then Throw
    else
      match GenArgs(m, sc, AllocateTemporary(p), c, args)
      case Failed => Throw
      case Gen(p1, code) =>
        var reg := if result.Some? then RegisterFor(p1, result.value) else UNUSED;
        if result.Some? && reg == UNUSED then Throw
        else
          Emit(DeallocateTemporary(p1, fn),
               [PackDstValue(LOAD_FUNCTION, fn, callee)] + code + [PackThreeRegisters(CALL, fn, reg, |args|)], reg)
  }

  function GenArgs(m: Constants, sc: Scopes, p: Pool, c: nat, args: seq<Expr>): Generated
    requires sc.depth > 0
    decreases args, 0
  {
    if args == [] then Gen(p, [])
    else
      match GenExpr(m, sc, p, c, args[0], None)
      case Throw => Failed
      case Emit(p1, code1, reg1) =>
        match GenArgs(m, sc, p1, c + TempCount(args[0]), args[1..])
        case Failed => Failed
        case Gen(p2, code2) => Gen(p2, code1 + [PackOneRegister(PUSH_ARG, reg1)] + code2)
  }

  // ----- statements -----

  function AssignInst(assign: AssignOp, ty: Ty): Option<nat> {
    match assign
    case Copy => Some(COPY_REGISTER)
    case Compound(op) => if op.Mod? || ty == Bool then None else Some(DualOperatorInst(op, ty))
  }

  /** The statement's own temporaries live while it is visited; a condition frees its own early. */
  function GenStmt(m: Constants, sc: Scopes, results: seq<bool>, p: Pool, c: nat, s: Stmt): Generated
    requires sc.depth > 0
    decreases s, 1
  {
    if s.If? then GenCondition(m, sc, results, p, c, s.cond)
    else
      var n := StmtTempCount(s) - if s.Declare? && !s.init.Access? then 1 else 0;
      match GenVisit(m, sc, results, AllocateTemps(p, sc.depth - 1, c, c + n), c, s)
      case Failed => Failed
      case Gen(p1, code) => Gen(DeallocateTemps(p1, sc.depth - 1, c, c + n), code)
  }

  /** `results` says of each function of the module whether it returns a value. */
  predicate HasResult(results: seq<bool>, e: Expr) {
    e.Call? ==> e.callee < |results| && results[e.callee]
  }

  function GenVisit(m: Constants, sc: Scopes, results: seq<bool>, p: Pool, c: nat, s: Stmt): Generated
    requires sc.depth > 0 && !s.If?
    decreases s, 0
  {
    match s
    case Declare(name, init) =>
      var key := Named(name, sc.depth - 1);
      var var_reg := RegisterFor(p, key);
      if key !in sc.tables || var_reg == UNUSED then Failed
      else
        (match GenExpr(m, sc, p, c, init, Some(key))
         case Throw => Failed
         case Emit(p1, code, reg) =>
           Gen(p1, if init.Access? then code + [PackTwoRegisters(COPY_REGISTER, var_reg, reg)] else code))
    case Assign(name, assign, ty, value) =>
      (match GenExpr(m, sc, p, c, Access(name), None)
       case Throw => Failed
       case Emit(p0, _, left) =>
         match GenExpr(m, sc, p0, c, value, None)
         case Throw => Failed
         case Emit(p1, code, right) =>
           match AssignInst(assign, ty)
           case None => Failed
           case Some(inst) =>
             if assign.Compound? then Gen(p1, code + [PackThreeRegisters(inst, left, left, right)])
             else if value == Access(name) then Gen(p1, code)
             else Gen(p1, code + [PackTwoRegisters(inst, left, right)]))
    case Evaluate(e) =>
      (match if HasResult(results, e)
       || !e.Call? then GenExpr(m, sc, p, c, e, None) else GenCall(m, sc, p, c, e.callee, e.args, None)
       case Throw => Failed
       case Emit(p1, code, _) => Gen(p1, code))
    case While(test, body) =>
      (match GenExpr(m, sc, p, c, test, None)
       case Throw => Failed
       case Emit(p1, code, reg) =>
         match GenBlock(m, sc, results, p1, body)
         case Failed => Failed
         case Gen(p2, loop) =>
           var back := -(|code| + |loop| + 2);
           var out := |loop| + 1;
           if back <= MIN_INT16 || out >= MAX_INT16 then Failed
           else Gen(p2, code + [PackDstValue(JUMP_FALSE, reg, out)] + loop + [PackValue(JUMP, back)]))
    case Return(result) =>
      match result
      case None => Gen(p, [PackDstValue(RETURN, NO_REGISTER, 0)])
      case Some(e) =>
        match GenExpr(m, sc, p, c, e, None)
        case Throw => Failed
        case Emit(p1, code, reg) => Gen(p1, code + [PackDstValue(RETURN, reg, 0)])
  }

  function GenStmts(m: Constants, sc: Scopes, results: seq<bool>, p: Pool, c: nat, ss: seq<Stmt>): Generated
    requires sc.depth > 0
    decreases ss, 0
  {
    if ss == [] then Gen(p, [])
    else
      match GenStmt(m, sc, results, p, c, ss[0])
      case Failed => Failed
      case Gen(p1, code1) =>
        match GenStmts(m, sc, results, p1, c + StmtTempCount(ss[0]), ss[1..])
        case Failed => Failed
        case Gen(p2, code2) => Gen(p2, code1 + code2)
  }

  function GenBlock(m: Constants, sc: Scopes, results: seq<bool>, p: Pool, b: Block): Generated
    decreases b, 0
  {
    match GenStmts(m, OpenScope(sc, b.vars), results, AllocateVars(p, sc.depth, b.vars), 0, b.stmts)
    case Failed => Failed
    case Gen(p1, code) => Gen(DeallocateVars(p1, sc.depth, b.vars), code)
  }

  function GenCondition(m: Constants, sc: Scopes, results: seq<bool>, p: Pool, c: nat, cond: Condition): Generated
    requires sc.depth > 0
    decreases cond, 0
  {
    var n := TempCount(cond.test);
    match GenExpr(m, sc, AllocateTemps(p, sc.depth - 1, c, c + n), c, cond.test, None)
    case Throw => Failed
    case Emit(p1, code, reg) =>
      match GenBlock(m, sc, results, DeallocateTemps(p1, sc.depth - 1, c, c + n), cond.onTrue)
      case Failed => Failed
      case Gen(p2, onTrue) =>
        if cond.onFalse.NoElse? then
          if |onTrue| >= MAX_INT16 then Failed
          else Gen(p2, code + [PackDstValue(JUMP_FALSE, reg, |onTrue|)] + onTrue)
        else
          match GenTail(m, OpenScope(sc, []), results, p2, cond.onFalse)
          case Failed => Failed
          case Gen(p3, onFalse) =>
            if |onTrue| + 1 >= MAX_INT16 || |onFalse| >= MAX_INT16 then Failed
            else Gen(p3, code + [PackDstValue(JUMP_FALSE, reg, |onTrue| + 1)] + onTrue + [PackValue(JUMP,
                  |onFalse|)] + onFalse)
  }

  /** The node of an elif or else part, in the scope opened for it. */
  function GenTail(m: Constants, sc: Scopes, results: seq<bool>, p: Pool, t: Tail): Generated
    requires sc.depth > 0 && !t.NoElse?
    decreases t, 0
  {
    match t
    case Elif(cond) => GenCondition(m, sc, results, p, 0, cond)
    case Else(block) => GenBlock(m, sc, results, p, block)
  }

  // ----- functions -----

  function ParameterNames(params: seq<Parameter>): (names: seq<string>)
    ensures |names| == |params|
    ensures forall i :: 0 <= i < |params| ==> names[i] == params[i].name
  {
    if params == [] then [] else [params[0].name] + ParameterNames(params[1..])
  }

  /** The parameters take registers first, then the scope's table is registered. */
  function SetupPool(f: FunctionDecl): Option<Pool> {
    var names := ParameterNames(f.params);
    var p := AllocateVars(EMPTY_POOL, 1, names);
    if VarsFit(EMPTY_POOL, 1, names) && VarsFit(p, 1, f.body.vars) then Some(AllocateVars(p, 1, f.body.vars)) else None
  }

  const FUNCTION_SCOPES := Scopes({}, 1)

  function GenFunction(m: Constants, results: seq<bool>, f: FunctionDecl): Generated {
    match SetupPool(f)
    case None => Failed
    case Some(p) =>
      match GenStmts(m, OpenScope(FUNCTION_SCOPES, f.body.vars), results, p, 0, f.body.stmts)
      case Failed => Failed
      case Gen(p1, code) =>
        var last := if f.result.Some? then PackValue(HALT, 0) else PackDstValue(RETURN, NO_REGISTER, 0);
        if |code| + 1 >= MAX_CODE_SIZE then Failed else Gen(DeallocateVars(p1, 1, f.body.vars), code + [last])
  }
}
