/**
  The generator itself. It walks the tree once, appends words to its buffer, keeps the
  registers of results on a stack, and patches a jump when the code it skips is complete.
  Every visit is proved to add exactly the code that module CodeGen gives for its node
  and to leave every earlier word alone. A `false` result is an exception.
 */
module Generator {
  import opened Options
  import opened Values
  import opened Bytecode
  import opened Registers
  import opened RegisterPool
  import opened RegisterAllocation
  import opened Ast
  import opened Semantics
  import opened CodeGen
  import opened CodeGenPool
  import Checking
  import CodeExists
  import CompilerRelation

  /** A register and whether releasing it gives it back to the allocator. */
  datatype Register = Register(idx: int, isTemporary: bool)

  const NO_RESULT := Register(UNUSED, false)

  function Prepend(code: seq<Word>, g: Generated): Generated {
    match g
    case Failed => Failed
    case Gen(pool, rest) => Gen(pool, code + rest)
  }

  lemma PrependTwice(x: seq<Word>, y: seq<Word>, g: Generated)
    ensures Prepend(x, Prepend(y, g)) == Prepend(x + y, g)
  {
    if g.Gen? { assert x + (y + g.code) == x + y + g.code; }
  }

  /** Replacing the placeholder leaves the words around it alone. */
  lemma Patched(before: seq<Word>, old_word: Word, after: seq<Word>, word: Word)
    ensures (before + [old_word] + after)[|before| := word] == before + [word] + after
  {
  }

  /** The instruction that ends an assignment, if it needs one. */
  function StoreWords(s: Stmt, left: int, right: int): Option<seq<Word>>
    requires s.Assign?
  {
    match AssignInst(s.assign, s.ty)
    case None => None
    case Some(inst) =>
      if s.assign.Compound? then Some([PackThreeRegisters(inst, left, left, right)])
      else if s.value == Access(s.name) then Some([])
      else Some([PackTwoRegisters(inst, left, right)])
  }

  lemma AssignAsStore(m: Constants, sc: Scopes, results: seq<bool>, p: Pool, c: nat, s: Stmt)
    requires sc.depth > 0 && s.Assign?
    ensures GenVisit(m, sc, results, p, c, s) ==
            match GenExpr(m, sc, p, c, Access(s.name), None)
            case Throw => Failed
            case Emit(p0, _, left) =>
              match GenExpr(m, sc, p0, c, s.value, None)
              case Throw => Failed
              case Emit(p1, code, right) =>
                match StoreWords(s, left, right)
                case None => Failed
                case Some(store) => Gen(p1, code + store)
  {
    hide GenExpr, PackTwoRegisters, PackThreeRegisters, DualOperatorInst;
  }

  function GenTest(m: Constants, sc: Scopes, p: Pool, c: nat, test: Expr): Emitted
    requires sc.depth > 0
  {
    var n := c + TempCount(test);
    match GenExpr(m, sc, AllocateTemps(p, sc.depth - 1, c, n), c, test, None)
    case Throw => Throw
    case Emit(p1, code, reg) => Emit(DeallocateTemps(p1, sc.depth - 1, c, n), code, reg)
  }

  /** A condition without its else part. */
  function GenChoice(m: Constants, sc: Scopes, results: seq<bool>, p: Pool, c: nat, cond: Condition): Generated
    requires sc.depth > 0
  {
    match GenTest(m, sc, p, c, cond.test)
    case Throw => Failed
    case Emit(p1, code, reg) =>
      match GenBlock(m, sc, results, p1, cond.onTrue)
      case Failed => Failed
      case Gen(p2, onTrue) =>
        var skip := |onTrue| + if cond.onFalse.NoElse? then 0 else 1;
        if skip >= MAX_INT16 then Failed else Gen(p2, code + [PackDstValue(JUMP_FALSE, reg, skip)] + onTrue)
  }

  lemma ChoiceThenElse(m: Constants, sc: Scopes, results: seq<bool>, p: Pool, c: nat, cond: Condition)
    requires sc.depth > 0
    ensures GenCondition(m, sc, results, p, c, cond) ==
            match GenChoice(m, sc, results, p, c, cond)
            case Failed => Failed
            case Gen(p2, first) =>
              if cond.onFalse.NoElse? then Gen(p2, first)
              else
                match GenTail(m, OpenScope(sc, []), results, p2, cond.onFalse)
                case Failed => Failed
                case Gen(p3, onFalse) =>
                  if |onFalse| >= MAX_INT16 then Failed else Gen(p3, first + [PackValue(JUMP, |onFalse|)] + onFalse)
  {
    hide GenExpr, GenBlock, GenTail, AllocateTemps, DeallocateTemps, PackDstValue, PackValue;
  }

  class ByteCodeGenerator {
    const constants: Constants
    const results: seq<bool>
    const regAllocator: RegisterAllocator
    var buffer: seq<Word>
    var registerStack: seq<Register>

    ghost predicate Valid()
      reads this, regAllocator, regAllocator.registerPool
    {
      regAllocator.Valid()
    }

    ghost function Pool(): Pool
      reads this, regAllocator
    {
      regAllocator.State()
    }

    constructor (constants: Constants, results: seq<bool>)
      ensures Valid() && Pool() == EMPTY_POOL && buffer == [] && registerStack == []
      ensures this.constants == constants && this.results == results
      ensures fresh(regAllocator) && fresh(regAllocator.registerPool)
    {
      this.constants, this.results := constants, results;
      regAllocator := new RegisterAllocator();
      buffer, registerStack := [], [];
    }

    // ----- buffer and stack -----

    method Append(w: Word) returns (offset: nat)
      modifies this`buffer
      ensures buffer == old(buffer) + [w] && offset == |old(buffer)|
    {
      offset := |buffer|;
      buffer := buffer + [w];
    }

    method Replace(offset: nat, w: Word)
      requires offset < |buffer|
      modifies this`buffer
      ensures buffer == old(buffer)[offset := w]
    {
      buffer := buffer[offset := w];
    }

    method PushRegister(r: Register)
      modifies this`registerStack
      ensures registerStack == old(registerStack) + [r]
    {
      registerStack := registerStack + [r];
    }

    method PopRegister() returns (r: Register)
      modifies this`registerStack
      ensures old(registerStack) == [] ==> r == NO_RESULT && registerStack == []
      ensures old(registerStack) != [] ==>
                r == old(registerStack)[|old(registerStack)| - 1]
                  && registerStack == old(registerStack)[..|old(registerStack)| - 1]
    {
      if registerStack == [] {
        r := NO_RESULT;
      } else {
        r := registerStack[|registerStack| - 1];
        registerStack := registerStack[..|registerStack| - 1];
      }
    }

    method Release(r: Register)
      requires Valid() && (r.isTemporary ==> r.idx == UNUSED || (r.idx >= 0 && r.idx in Pool().temps))
      modifies regAllocator, regAllocator.registerPool
      ensures Valid()
      ensures Pool() == if r.isTemporary then DeallocateTemporary(old(Pool()), r.idx) else old(Pool())
    {
      if r.isTemporary {
        regAllocator.DeallocateTemporary(r.idx);
      }
    }

    // ----- scopes and statements -----

    /** The temporaries of a statement; the first refusal ends it. */
    method OnStatementScopeBegin(level: nat, from: nat, end: nat) returns (ok: bool)
      requires Valid() && from <= end
      modifies regAllocator, regAllocator.registerPool
      ensures Valid() && Pool() == AllocateTemps(old(Pool()), level, from, end)
    {
      var i := from;
      while i < end
        invariant from <= i <= end && Valid()
        invariant AllocateTemps(Pool(), level, i, end) == AllocateTemps(old(Pool()), level, from, end)
      {
        var r := regAllocator.Allocate(Temp(level, i));
        if r == UNUSED {
          return false;
        }
        i := i + 1;
      }
      return true;
    }

    method OnStatementScopeEnd(level: nat, from: nat, end: nat)
      requires Valid() && from <= end
      modifies regAllocator, regAllocator.registerPool
      ensures Valid() && Pool() == DeallocateTemps(old(Pool()), level, from, end)
    {
      var i := from;
      while i < end
        invariant from <= i <= end && Valid()
        invariant DeallocateTemps(Pool(), level, i, end) == DeallocateTemps(old(Pool()), level, from, end)
      {
        regAllocator.Deallocate(Temp(level, i));
        i := i + 1;
      }
    }

    method RegisterScope(level: nat, vars: seq<string>) returns (ok: bool)
      requires Valid()
      modifies regAllocator, regAllocator.registerPool
      ensures Valid() && Pool() == AllocateVars(old(Pool()), level, vars)
      ensures ok == VarsFit(old(Pool()), level, vars)
    {
      var i := 0;
      while i < |vars|
        invariant 0 <= i <= |vars| && Valid()
        invariant AllocateVars(Pool(), level, vars[i..]) == AllocateVars(old(Pool()), level, vars)
        invariant VarsFit(Pool(), level, vars[i..]) == VarsFit(old(Pool()), level, vars)
      {
        assert vars[i..][1..] == vars[i + 1..];
        var r := regAllocator.Allocate(Named(vars[i], level));
        if r == UNUSED {
          return false;
        }
        i := i + 1;
      }
      return true;
    }

    method UnregisterScope(level: nat, vars: seq<string>)
      requires Valid()
      modifies regAllocator, regAllocator.registerPool
      ensures Valid() && Pool() == DeallocateVars(old(Pool()), level, vars)
    {
      var i := 0;
      while i < |vars|
        invariant 0 <= i <= |vars| && Valid()
        invariant DeallocateVars(Pool(), level, vars[i..]) == DeallocateVars(old(Pool()), level, vars)
      {
        assert vars[i..][1..] == vars[i + 1..];
        regAllocator.Deallocate(Named(vars[i], level));
        i := i + 1;
      }
    }

    method RegisterForSymbol(key: Key) returns (r: Register)
      requires Valid()
      ensures r == Register(RegisterFor(Pool(), key), false)
    {
      var idx := regAllocator.RegisterForVariable(key);
      r := Register(idx, false);
    }

    // ----- expressions -----

    /** What the visit of an expression did: its code, its pool, its register on the stack. */
    ghost predicate Visited(was: seq<Word>, stack: seq<Register>, g: Emitted)
      reads this, regAllocator, regAllocator.registerPool
    {
      Valid() && g.Emit? && buffer == was + g.code && Pool() == g.pool
        && registerStack == stack + [Register(g.reg, false)]
    }

    method VisitExpression(sc: Scopes, c: nat, e: Expr, target: Option<Key>) returns (ok: bool)
      requires Valid() && sc.depth > 0
      modifies this, regAllocator, regAllocator.registerPool
      ensures ok == GenExpr(constants, sc, old(Pool()), c, e, target).Emit?
      ensures ok ==> Visited(old(buffer), old(registerStack), GenExpr(constants, sc, old(Pool()), c, e, target))
      decreases e, 2
    {
      hide Inv;
      match e
      case Constant(ty, v) =>
        ok := VisitConstant(sc, c, e, target);
      case Access(name) =>
        ok := VisitAccess(sc, c, e, target);
      case Dual(_, _, _, _) =>
        ok := VisitDual(sc, c, e, target);
      case Comparison(_, _, _, _) =>
        ok := VisitCompare(sc, c, e, target);
      case Single(_, _, _) =>
        ok := VisitSingle(sc, c, e, target);
      case Call(callee, args) =>
        ok := VisitCall(sc, c, callee, args, Some(ResultKey(sc, c, e, target)));
    }

    method VisitConstant(sc: Scopes, c: nat, e: Expr, target: Option<Key>) returns (ok: bool)
      requires Valid() && sc.depth > 0 && e.Constant?
      modifies this, regAllocator, regAllocator.registerPool
      ensures ok == GenExpr(constants, sc, old(Pool()), c, e, target).Emit?
      ensures ok ==> Visited(old(buffer), old(registerStack), GenExpr(constants, sc, old(Pool()), c, e, target))
    {
      var r := RegisterForSymbol(ResultKey(sc, c, e, target));
      if r.idx == UNUSED {
        return false;
      }
      var word;
      if FitsInBytecode(e.ty, e.value) {
        word := PackDstValue(LOAD_VALUE, r.idx, e.value);
      } else {
        var index := IndexOf(if Is64(e.ty) then constants.bits64 else constants.bits32, (e.ty, e.value));
        if index.None? {
          return false;
        }
        word := PackDstValue(if Is64(e.ty) then LOAD_CONST_64 else LOAD_CONST_32, r.idx, index.value);
      }
      PushRegister(r);
      var _ := Append(word);
      return true;
    }

    method VisitAccess(sc: Scopes, c: nat, e: Expr, target: Option<Key>) returns (ok: bool)
      requires Valid() && sc.depth > 0 && e.Access?
      modifies this, regAllocator, regAllocator.registerPool
      ensures ok == GenExpr(constants, sc, old(Pool()), c, e, target).Emit?
      ensures ok ==> Visited(old(buffer), old(registerStack), GenExpr(constants, sc, old(Pool()), c, e, target))
    {
      var level := Resolve(sc.tables, sc.depth, e.name);
      if level.None? {
        return false;
      }
      var r := RegisterForSymbol(Named(e.name, level.value));
      if r.idx == UNUSED {
        return false;
      }
      PushRegister(r);
      assert old(buffer) + [] == old(buffer);
      return true;
    }

    method VisitOperands(sc: Scopes, c: nat, e: Expr) returns (ok: bool, left: Register, right: Register)
      requires Valid() && sc.depth > 0 && (e.Dual? || e.Comparison?)
      modifies this, regAllocator, regAllocator.registerPool
      ensures ok == GenOperands(constants, sc, old(Pool()), c, e).Operands?
      ensures ok ==> var o := GenOperands(constants, sc, old(Pool()), c, e);
                     && Valid() && buffer == old(buffer) + o.code && Pool() == o.pool
                        && registerStack == old(registerStack)
                     && left == Register(o.reg1, false) && right == Register(o.reg2, false)
                     && SameOwners(old(Pool()), o.pool)
      decreases e, 0
    {
      hide Inv, GenExpr;
      ghost var p := Pool();
      left, right := NO_RESULT, NO_RESULT;
      ok := VisitExpression(sc, c, e.left, None);
      if !ok {
        return;
      }
      ghost var g1 := GenExpr(constants, sc, p, c, e.left, None);
      GenExprOwners(constants, sc, p, c, e.left, None);
      left := PopRegister();
      ok := VisitExpression(sc, c + TempCount(e.left), e.right, None);
      if !ok {
        return;
      }
      GenExprOwners(constants, sc, g1.pool, c + TempCount(e.left), e.right, None);
      right := PopRegister();
    }

    method VisitDual(sc: Scopes, c: nat, e: Expr, target: Option<Key>) returns (ok: bool)
      requires Valid() && sc.depth > 0 && e.Dual?
      modifies this, regAllocator, regAllocator.registerPool
      ensures ok == GenExpr(constants, sc, old(Pool()), c, e, target).Emit?
      ensures ok ==> Visited(old(buffer), old(registerStack), GenExpr(constants, sc, old(Pool()), c, e, target))
      decreases e, 1
    {
      hide Inv, GenOperands, PackThreeRegisters;
      var left, right;
      ok, left, right := VisitOperands(sc, c, e);
      if !ok {
        return;
      }
      var r := RegisterForSymbol(ResultKey(sc, c, e, target));
      if r.idx == UNUSED || e.ty == Bool {
        return false;
      }
      PushRegister(r);
      var _ := Append(PackThreeRegisters(DualOperatorInst(e.op, e.ty), r.idx, left.idx, right.idx));
    }

    method VisitCompare(sc: Scopes, c: nat, e: Expr, target: Option<Key>) returns (ok: bool)
      requires Valid() && sc.depth > 0 && e.Comparison?
      modifies this, regAllocator, regAllocator.registerPool
      ensures ok == GenExpr(constants, sc, old(Pool()), c, e, target).Emit?
      ensures ok ==> Visited(old(buffer), old(registerStack), GenExpr(constants, sc, old(Pool()), c, e, target))
      decreases e, 1
    {
      hide Inv, GenOperands, PackThreeRegisters;
      var left, right;
      ok, left, right := VisitOperands(sc, c, e);
      if !ok {
        return;
      }
      var r := RegisterForSymbol(ResultKey(sc, c, e, target));
      if r.idx == UNUSED {
        return false;
      }
      PushRegister(r);
      var _ := Append(PackThreeRegisters(CompareOperatorInst(e.cmp, e.ty), r.idx, left.idx, right.idx));
    }

    method VisitSingle(sc: Scopes, c: nat, e: Expr, target: Option<Key>) returns (ok: bool)
      requires Valid() && sc.depth > 0 && e.Single?
      modifies this, regAllocator, regAllocator.registerPool
      ensures ok == GenExpr(constants, sc, old(Pool()), c, e, target).Emit?
      ensures ok ==> Visited(old(buffer), old(registerStack), GenExpr(constants, sc, old(Pool()), c, e, target))
      decreases e, 0
    {
      hide Inv, PackTwoRegisters;
      ghost var p := Pool();
      ok := VisitExpression(sc, c, e.operand, None);
      if !ok {
        return;
      }
      GenExprOwners(constants, sc, p, c, e.operand, None);
      var operand := PopRegister();
      var r := RegisterForSymbol(ResultKey(sc, c, e, target));
      if r.idx == UNUSED || e.ty == Bool || (e.single.Negate? && !IsSigned(e.ty)) {
        return false;
      }
      PushRegister(r);
      var _ := Append(PackTwoRegisters(SingleOperatorInst(e.single, e.ty), r.idx, operand.idx));
    }

    /** A call without a result leaves nothing on the stack. */
    method VisitCall(sc: Scopes, c: nat, callee: nat, args: seq<Expr>, result: Option<Key>) returns (ok: bool)
      requires Valid() && sc.depth > 0
      modifies this, regAllocator, regAllocator.registerPool
      ensures ok == GenCall(constants, sc, old(Pool()), c, callee, args, result).Emit?
      ensures ok && result.Some? ==>
              Visited(old(buffer), old(registerStack), GenCall(constants, sc, old(Pool()), c, callee, args, result))
      ensures ok && result.None? ==> var g := GenCall(constants, sc, old(Pool()), c, callee, args, result);
                                     Valid() && buffer == old(buffer) + g.code && Pool() == g.pool
                                       && registerStack == old(registerStack)
      decreases args, 1
    {
      hide Inv, GenArgs, PackThreeRegisters, PackDstValue, RegisterPool.AllocateTemporary;
      ghost var p := Pool();
      AllocateTemporaryInv(p);
      var idx := regAllocator.AllocateTemporary();
      var function_call_reg := Register(idx, true);
      if idx == UNUSED {
        return false;
      }
      var _ := Append(PackDstValue(LOAD_FUNCTION, idx, callee));
      ok := VisitCallArgs(sc, c, args);
      if !ok {
        return;
      }
      GenArgsOwners(constants, sc, RegisterPool.AllocateTemporary(p), c, args);
      TemporaryTaken(p);
      var return_register := NO_RESULT;
      if result.Some? {
        return_register := RegisterForSymbol(result.value);
        if return_register.idx == UNUSED {
          return false;
        }
        PushRegister(return_register);
      }
      var _ := Append(PackThreeRegisters(CALL, idx, return_register.idx, |args|));
      Release(function_call_reg);
    }

    lemma TemporaryTaken(p: Pool)
      requires AllocatedTemporary(p) != UNUSED
      ensures AllocatedTemporary(p) >= 0 && AllocatedTemporary(p) in RegisterPool.AllocateTemporary(p).temps
    {
    }

    method VisitCallArgs(sc: Scopes, c: nat, args: seq<Expr>) returns (ok: bool)
      requires Valid() && sc.depth > 0
      modifies this, regAllocator, regAllocator.registerPool
      ensures ok == GenArgs(constants, sc, old(Pool()), c, args).Gen?
      ensures ok ==> var g := GenArgs(constants, sc, old(Pool()), c, args);
                     Valid() && buffer == old(buffer) + g.code && Pool() == g.pool
                       && registerStack == old(registerStack)
      decreases args, 0
    {
      hide Inv, GenExpr, PackOneRegister;
      var i: nat, d: nat := 0, c;
      ghost var code: seq<Word> := [];
      while i < |args|
        invariant i <= |args| && Valid()
        invariant buffer == old(buffer) + code && registerStack == old(registerStack)
        invariant GenArgs(constants, sc, old(Pool()), c, args)
                  == Prepend(code, GenArgs(constants, sc, Pool(), d, args[i..]))
      {
        ghost var p := Pool();
        assert args[i..][0] == args[i] && args[i..][1..] == args[i + 1..];
        ok := VisitExpression(sc, d, args[i], None);
        if !ok {
          return;
        }
        ghost var g := GenExpr(constants, sc, p, d, args[i], None);
        var r := PopRegister();
        var _ := Append(PackOneRegister(PUSH_ARG, r.idx));
        ghost var more := g.code + [PackOneRegister(PUSH_ARG, g.reg)];
        PrependTwice(code, more, GenArgs(constants, sc, Pool(), d + TempCount(args[i]), args[i + 1..]));
        code := code + more;
        d := d + TempCount(args[i]);
        i := i + 1;
      }
      return true;
    }

    // ----- statements -----

    /** What the visit of a statement did. Results nobody asked for stay on the stack. */
    ghost predicate Generated(was: seq<Word>, stack: seq<Register>, g: CodeGen.Generated)
      reads this, regAllocator, regAllocator.registerPool
    {
      Valid() && g.Gen? && buffer == was + g.code && Pool() == g.pool && stack <= registerStack
    }

    method VisitStatement(sc: Scopes, c: nat, s: Stmt) returns (ok: bool)
      requires Valid() && sc.depth > 0 && Fits(Pool(), sc.depth, c)
      modifies this, regAllocator, regAllocator.registerPool
      ensures ok == GenStmt(constants, sc, results, old(Pool()), c, s).Gen?
      ensures ok ==> Generated(old(buffer), old(registerStack), GenStmt(constants, sc, results, old(Pool()), c, s))
      decreases s, 2
    {
      hide Inv, GenVisit, GenCondition, AllocateTemps, DeallocateTemps;
      if s.If? {
        ok := VisitCondition(sc, c, s.cond);
      } else {
        var n := StmtTempCount(s) - if s.Declare? && !s.init.Access? then 1 else 0;
        FitsOpened(Pool(), sc.depth, c, c, c + n);
        var _ := OnStatementScopeBegin(sc.depth - 1, c, c + n);
        ok := Visit(sc, c, c + n, s);
        if ok {
          OnStatementScopeEnd(sc.depth - 1, c, c + n);
        }
      }
    }

    method Visit(sc: Scopes, c: nat, ghost live: nat, s: Stmt) returns (ok: bool)
      requires Valid() && sc.depth > 0 && !s.If? && Fits(Pool(), sc.depth, live)
      modifies this, regAllocator, regAllocator.registerPool
      ensures ok == GenVisit(constants, sc, results, old(Pool()), c, s).Gen?
      ensures ok ==> Generated(old(buffer), old(registerStack), GenVisit(constants, sc, results, old(Pool()), c, s))
      decreases s, 1
    {
      hide Inv, GenExpr, GenCall, GenBlock;
      match s
      case Declare(_, _) => ok := VisitDeclare(sc, c, s);
      case Assign(_, _, _, _) => ok := VisitAssign(sc, c, s);
      case Evaluate(e) =>
        if HasResult(results, e) || !e.Call? {
          ok := VisitExpression(sc, c, e, None);
        } else {
          ok := VisitCall(sc, c, e.callee, e.args, None);
        }
      case While(_, _) => ok := VisitWhile(sc, c, live, s);
      case Return(result) => ok := VisitReturn(sc, c, s);
    }

    method VisitDeclare(sc: Scopes, c: nat, s: Stmt) returns (ok: bool)
      requires Valid() && sc.depth > 0 && s.Declare?
      modifies this, regAllocator, regAllocator.registerPool
      ensures ok == GenVisit(constants, sc, results, old(Pool()), c, s).Gen?
      ensures ok ==> Generated(old(buffer), old(registerStack), GenVisit(constants, sc, results, old(Pool()), c, s))
      decreases s, 0
    {
      hide Inv, GenExpr, PackTwoRegisters;
      var key := Named(s.name, sc.depth - 1);
      if key !in sc.tables {
        return false;
      }
      var variable := RegisterForSymbol(key);
      if variable.idx == UNUSED {
        return false;
      }
      ok := VisitExpression(sc, c, s.init, Some(key));
      if !ok {
        return;
      }
      var r := PopRegister();
      if s.init.Access? {
        var _ := Append(PackTwoRegisters(COPY_REGISTER, variable.idx, r.idx));
      }
    }

    method VisitAssign(sc: Scopes, c: nat, s: Stmt) returns (ok: bool)
      requires Valid() && sc.depth > 0 && s.Assign?
      modifies this, regAllocator, regAllocator.registerPool
      ensures ok == GenVisit(constants, sc, results, old(Pool()), c, s).Gen?
      ensures ok ==> Generated(old(buffer), old(registerStack), GenVisit(constants, sc, results, old(Pool()), c, s))
      decreases s, 0
    {
      hide Inv, GenExpr, GenVisit, StoreWords;
      AssignAsStore(constants, sc, results, Pool(), c, s);
      AccessEmitsNothing(constants, sc, Pool(), c, s.name);
      ok := VisitAccess(sc, c, Access(s.name), None);
      if !ok {
        return;
      }
      var left := PopRegister();
      ok := VisitExpression(sc, c, s.value, None);
      if !ok {
        return;
      }
      var right := PopRegister();
      ok := EmitStore(s, left.idx, right.idx);
    }

    method EmitStore(s: Stmt, left: int, right: int) returns (ok: bool)
      requires s.Assign?
      modifies this`buffer
      ensures ok == StoreWords(s, left, right).Some?
      ensures ok ==> buffer == old(buffer) + StoreWords(s, left, right).value
    {
      hide PackTwoRegisters, PackThreeRegisters;
      var inst := AssignInst(s.assign, s.ty);
      if inst.None? {
        return false;
      }
      if s.assign.Compound? {
        var _ := Append(PackThreeRegisters(inst.value, left, left, right));
      } else if s.value != Access(s.name) {
        var _ := Append(PackTwoRegisters(inst.value, left, right));
      }
      return true;
    }

    method VisitReturn(sc: Scopes, c: nat, s: Stmt) returns (ok: bool)
      requires Valid() && sc.depth > 0 && s.Return?
      modifies this, regAllocator, regAllocator.registerPool
      ensures ok == GenVisit(constants, sc, results, old(Pool()), c, s).Gen?
      ensures ok ==> Generated(old(buffer), old(registerStack), GenVisit(constants, sc, results, old(Pool()), c, s))
      decreases s, 0
    {
      hide Inv, GenExpr, PackDstValue;
      var idx := NO_REGISTER;
      if s.result.Some? {
        ok := VisitExpression(sc, c, s.result.value, None);
        if !ok {
          return;
        }
        var r := PopRegister();
        idx := r.idx;
      }
      var _ := Append(PackDstValue(RETURN, idx, 0));
      return true;
    }

    method VisitWhile(sc: Scopes, c: nat, ghost live: nat, s: Stmt) returns (ok: bool)
      requires Valid() && sc.depth > 0 && s.While? && Fits(Pool(), sc.depth, live)
      modifies this, regAllocator, regAllocator.registerPool
      ensures ok == GenVisit(constants, sc, results, old(Pool()), c, s).Gen?
      ensures ok ==> Generated(old(buffer), old(registerStack), GenVisit(constants, sc, results, old(Pool()), c, s))
      decreases s, 0
    {
      hide Inv, GenExpr, GenBlock, PackDstValue, PackValue;
      ghost var p, was := Pool(), buffer;
      var jump_to_condition := |buffer|;
      ok := VisitExpression(sc, c, s.test, None);
      if !ok {
        return;
      }
      ghost var g1 := GenExpr(constants, sc, p, c, s.test, None);
      GenExprOwners(constants, sc, p, c, s.test, None);
      var test := PopRegister();
      var placeholder := PackDstValue(JUMP_FALSE, test.idx, 1);
      var jump_on_false := Append(placeholder);
      ok := VisitBlock(sc, live, s.body);
      if !ok {
        return;
      }
      ghost var g2 := GenBlock(constants, sc, results, g1.pool, s.body);
      var back := jump_to_condition - (|buffer| + 1);
      if back <= MIN_INT16 {
        return false;
      }
      var last := Append(PackValue(JUMP, back));
      var out := last - jump_on_false;
      if out >= MAX_INT16 {
        return false;
      }
      var word := PackDstValue(JUMP_FALSE, test.idx, out);
      assert buffer == was + g1.code + [placeholder] + (g2.code + [PackValue(JUMP, back)]);
      Patched(was + g1.code, placeholder, g2.code + [PackValue(JUMP, back)], word);
      Replace(jump_on_false, word);
      assert buffer == was + (g1.code + [word] + g2.code + [PackValue(JUMP, back)]);
    }

    method VisitStatements(sc: Scopes, ss: seq<Stmt>) returns (ok: bool)
      requires Valid() && sc.depth > 0 && Fits(Pool(), sc.depth, 0)
      modifies this, regAllocator, regAllocator.registerPool
      ensures ok == GenStmts(constants, sc, results, old(Pool()), 0, ss).Gen?
      ensures ok ==> Generated(old(buffer), old(registerStack), GenStmts(constants, sc, results, old(Pool()), 0, ss))
      decreases ss, 3
    {
      hide Inv, GenStmt;
      var i: nat, c: nat := 0, 0;
      ghost var code: seq<Word> := [];
      while i < |ss|
        invariant i <= |ss| && Valid() && Fits(Pool(), sc.depth, c)
        invariant buffer == old(buffer) + code && old(registerStack) <= registerStack
        invariant GenStmts(constants, sc, results, old(Pool()), 0, ss)
                  == Prepend(code, GenStmts(constants, sc, results, Pool(), c, ss[i..]))
      {
        ghost var p := Pool();
        assert ss[i..][0] == ss[i] && ss[i..][1..] == ss[i + 1..];
        ok := VisitStatement(sc, c, ss[i]);
        if !ok {
          return;
        }
        ghost var g := GenStmt(constants, sc, results, p, c, ss[i]);
        GenStmtOwners(constants, sc, results, p, c, ss[i]);
        PrependTwice(code, g.code, GenStmts(constants, sc, results, Pool(), c + StmtTempCount(ss[i]), ss[i + 1..]));
        code := code + g.code;
        c := c + StmtTempCount(ss[i]);
        i := i + 1;
      }
      return true;
    }

    /** A scope that does not fit is left incomplete, as in the source; a later lookup fails. */
    method VisitBlock(sc: Scopes, ghost live: nat, b: Block) returns (ok: bool)
      requires Valid() && sc.depth > 0 && Fits(Pool(), sc.depth, live)
      modifies this, regAllocator, regAllocator.registerPool
      ensures ok == GenBlock(constants, sc, results, old(Pool()), b).Gen?
      ensures ok ==> Generated(old(buffer), old(registerStack), GenBlock(constants, sc, results, old(Pool()), b))
      decreases b, 0
    {
      hide Inv, GenStmts, AllocateVars, DeallocateVars;
      BlockFits(Pool(), sc.depth, live, b.vars);
      var _ := RegisterScope(sc.depth, b.vars);
      ok := VisitStatements(OpenScope(sc, b.vars), b.stmts);
      if ok {
        UnregisterScope(sc.depth, b.vars);
      }
    }

    /** The test of a condition frees its temporaries before the block begins. */
    method VisitTest(sc: Scopes, c: nat, test: Expr) returns (ok: bool)
      requires Valid() && sc.depth > 0 && Fits(Pool(), sc.depth, c)
      modifies this, regAllocator, regAllocator.registerPool
      ensures ok == GenTest(constants, sc, old(Pool()), c, test).Emit?
      ensures ok ==>
              Visited(old(buffer), old(registerStack), GenTest(constants, sc, old(Pool()), c, test))
              && SameOwners(old(Pool()), Pool())
    {
      hide Inv, GenExpr, AllocateTemps, DeallocateTemps;
      var n := c + TempCount(test);
      FitsOpened(Pool(), sc.depth, c, c, n);
      var _ := OnStatementScopeBegin(sc.depth - 1, c, n);
      ghost var q := Pool();
      ok := VisitExpression(sc, c, test, None);
      if ok {
        GenExprOwners(constants, sc, q, c, test, None);
        OnStatementScopeEnd(sc.depth - 1, c, n);
      }
    }

    /** The test, the jump past the block, and the block; then the jump is patched. */
    method VisitChoice(sc: Scopes, c: nat, cond: Condition) returns (ok: bool)
      requires Valid() && sc.depth > 0 && Fits(Pool(), sc.depth, c)
      modifies this, regAllocator, regAllocator.registerPool
      ensures ok == GenChoice(constants, sc, results, old(Pool()), c, cond).Gen?
      ensures ok ==>
              Generated(old(buffer), old(registerStack), GenChoice(constants, sc, results, old(Pool()), c, cond))
              && SameOwners(old(Pool()), Pool())
      decreases cond, 0
    {
      hide Inv, GenTest, GenBlock, PackDstValue;
      ghost var was := buffer;
      ghost var g := GenTest(constants, sc, Pool(), c, cond.test);
      ok := VisitTest(sc, c, cond.test);
      if !ok {
        return;
      }
      var test := PopRegister();
      var placeholder := PackDstValue(JUMP_FALSE, test.idx, 1);
      var jump_to_false := Append(placeholder);
      ok := VisitBlock(sc, c, cond.onTrue);
      if !ok {
        return;
      }
      ghost var onTrue := GenBlock(constants, sc, results, g.pool, cond.onTrue);
      GenBlockOwners(constants, sc, results, g.pool, c, cond.onTrue);
      var diff := |buffer| - (if cond.onFalse.NoElse? then 1 else 0) - jump_to_false;
      if diff >= MAX_INT16 {
        return false;
      }
      var word := PackDstValue(JUMP_FALSE, test.idx, diff);
      Patched(was + g.code, placeholder, onTrue.code, word);
      Replace(jump_to_false, word);
      assert buffer == was + (g.code + [word] + onTrue.code);
    }

    method VisitCondition(sc: Scopes, c: nat, cond: Condition) returns (ok: bool)
      requires Valid() && sc.depth > 0 && Fits(Pool(), sc.depth, c)
      modifies this, regAllocator, regAllocator.registerPool
      ensures ok == GenCondition(constants, sc, results, old(Pool()), c, cond).Gen?
      ensures ok ==>
              Generated(old(buffer), old(registerStack), GenCondition(constants, sc, results, old(Pool()), c, cond))
      decreases cond, 1
    {
      hide Inv, GenChoice, GenTail, GenCondition, PackValue;
      ghost var was, choice := buffer, GenChoice(constants, sc, results, Pool(), c, cond);
      ChoiceThenElse(constants, sc, results, Pool(), c, cond);
      ok := VisitChoice(sc, c, cond);
      if ok && !cond.onFalse.NoElse? {
        ok := VisitElse(OpenScope(sc, []), cond.onFalse);
        ghost var onFalse := GenTail(constants, OpenScope(sc, []), results, choice.pool, cond.onFalse);
        assert ok ==> buffer == was + (choice.code + [PackValue(JUMP, |onFalse.code|)] + onFalse.code);
      }
    }

    /** The jump past the else part, and that part. */
    method VisitElse(sc: Scopes, t: Tail) returns (ok: bool)
      requires Valid() && sc.depth > 0 && !t.NoElse? && Fits(Pool(), sc.depth, 0)
      modifies this, regAllocator, regAllocator.registerPool
      ensures var g := GenTail(constants, sc, results, old(Pool()), t);
              && ok == (g.Gen? && |g.code| < MAX_INT16)
              && (ok ==>
                  Valid() && buffer == old(buffer) + [PackValue(JUMP, |g.code|)] + g.code && Pool() == g.pool
                  && old(registerStack) <= registerStack)
      decreases t, 1
    {
      hide Inv, GenTail, PackValue;
      ghost var p, was := Pool(), buffer;
      var skip := PackValue(JUMP, 0);
      var jump_to_end := Append(skip);
      ok := VisitTail(sc, t);
      if !ok {
        return;
      }
      ghost var onFalse := GenTail(constants, sc, results, p, t);
      var over := |buffer| - 1 - jump_to_end;
      if over >= MAX_INT16 {
        return false;
      }
      Patched(was, skip, onFalse.code, PackValue(JUMP, over));
      Replace(jump_to_end, PackValue(JUMP, over));
    }

    method VisitTail(sc: Scopes, t: Tail) returns (ok: bool)
      requires Valid() && sc.depth > 0 && !t.NoElse? && Fits(Pool(), sc.depth, 0)
      modifies this, regAllocator, regAllocator.registerPool
      ensures ok == GenTail(constants, sc, results, old(Pool()), t).Gen?
      ensures ok ==> Generated(old(buffer), old(registerStack), GenTail(constants, sc, results, old(Pool()), t))
      decreases t, 0
    {
      hide Inv, GenCondition, GenBlock;
      match t
      case Elif(cond) => ok := VisitCondition(sc, 0, cond);
      case Else(block) => ok := VisitBlock(sc, 0, block);
    }

    // ----- functions -----

    method Reset()
      requires regAllocator.registerPool.Length == MAX_REGISTERS
      modifies this, regAllocator, regAllocator.registerPool
      ensures Valid() && Pool() == EMPTY_POOL && buffer == [] && registerStack == []
    {
      buffer, registerStack := [], [];
      regAllocator.Reset();
    }

    /** The registers of the parameters, then of the body's variables. */
    method SetupFunction(f: FunctionDecl) returns (ok: bool)
      requires regAllocator.registerPool.Length == MAX_REGISTERS
      modifies this, regAllocator, regAllocator.registerPool
      ensures ok == SetupPool(f).Some?
      ensures ok ==> Valid() && buffer == [] && registerStack == [] && Pool() == SetupPool(f).value
    {
      hide Inv, AllocateVars, VarsFit;
      Reset();
      var names := ParameterNames(f.params);
      ok := RegisterScope(1, names);
      if ok {
        ok := RegisterScope(1, f.body.vars);
      }
    }

    /** The variables' registers are given back, and the last word is a HALT or a plain RETURN. */
    method FinishFunction(f: FunctionDecl)
      requires Valid()
      modifies this, regAllocator, regAllocator.registerPool
      ensures Valid() && Pool() == DeallocateVars(old(Pool()), 1, f.body.vars)
      ensures buffer == old(buffer)
              + [if f.result.Some? then PackValue(HALT, 0) else PackDstValue(RETURN, NO_REGISTER, 0)]
    {
      hide Inv, DeallocateVars, PackValue, PackDstValue;
      UnregisterScope(1, f.body.vars);
      var last := if f.result.Some? then PackValue(HALT, 0) else PackDstValue(RETURN, NO_REGISTER, 0);
      var _ := Append(last);
    }

    lemma AsCounted(f: FunctionDecl)
      ensures forall p: Program ::
                Checking.CheckFunction(p, f) && CodeExists.FunctionScoped(f)
                && results == CompilerRelation.ResultFlags(p.functions) ==>
                  var g := GenFunction(constants, results, f);
                  && (g.Gen? <==> CodeExists.FunctionCodable(constants, f))
                  && (g.Gen? ==> |g.code| == CodeExists.StmtsWords(f.body.stmts) + 1)
    {
      forall p: Program | Checking.CheckFunction(p, f) && CodeExists.FunctionScoped(f)
        && results == CompilerRelation.ResultFlags(p.functions)
        ensures var g := GenFunction(constants, results, f);
                && (g.Gen? <==> CodeExists.FunctionCodable(constants, f))
                && (g.Gen? ==> |g.code| == CodeExists.StmtsWords(f.body.stmts) + 1)
      {
        CodeExists.FunctionHasCode(p, constants, f);
      }
    }

    /** Any state left by an earlier function is forgotten. A checked function is refused only if it does not fit. */
    method GenerateFunction(f: FunctionDecl) returns (ok: bool)
      requires regAllocator.registerPool.Length == MAX_REGISTERS
      modifies this, regAllocator, regAllocator.registerPool
      ensures ok == GenFunction(constants, results, f).Gen?
      ensures ok ==>
              Valid() && buffer == GenFunction(constants, results, f).code
              && Pool() == GenFunction(constants, results, f).pool
      ensures forall p: Program ::
                Checking.CheckFunction(p, f) && CodeExists.FunctionScoped(f)
                && results == CompilerRelation.ResultFlags(p.functions) ==>
                  (ok <==> CodeExists.FunctionCodable(constants, f))
                  && (ok ==> |buffer| == CodeExists.StmtsWords(f.body.stmts) + 1)
    {
      hide Inv, GenStmts, SetupPool, DeallocateVars, PackValue, PackDstValue, CodeExists.FunctionCodable,
           CodeExists.FunctionScoped, Checking.CheckFunction;
      AsCounted(f);
      ok := SetupFunction(f);
      if !ok {
        return;
      }
      SetupFits(f);
      ok := VisitStatements(OpenScope(FUNCTION_SCOPES, f.body.vars), f.body.stmts);
      if !ok {
        return;
      }
      FinishFunction(f);
      return |buffer| < MAX_CODE_SIZE;
    }
  }
}
