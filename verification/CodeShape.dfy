/**
  The shape of generated code, checked on the words themselves: every jump lands in its
  own function, whatever it is nested in, and every register an instruction addresses is
  below the count written for the function.
 */
module CodeShape {
  import opened Options
  import opened Values
  import opened Bytecode
  import opened Registers
  import opened RegisterPool
  import opened Ast
  import opened Semantics
  import opened CodeGen
  import opened CodeGenPool

  predicate ReadsNoSource(inst: nat) {
    inst in {LOAD_VALUE, LOAD_CONST_32, LOAD_CONST_64, JUMP_TRUE, JUMP_FALSE, LOAD_FUNCTION, PUSH_ARG, RETURN}
  }

  predicate ReadsOneSource(inst: nat) {
    inst in {COPY_REGISTER, CALL, NEG_I, NEG_IL, BIT_NOT_32, BIT_NOT_64}
  }

  /** The registers addressed are below `used`; only a return and a call's result may be the marker instead. */
  predicate OperandsBelow(w: Word, used: nat) {
    var inst := UnpackInstruction(w);
    inst == HALT || inst == JUMP ||
    (&& (UnpackDst(w) < used || (inst == RETURN && UnpackDst(w) == NO_REGISTER))
     && (ReadsNoSource(inst) || UnpackSrc1(w) < used || (inst == CALL && UnpackSrc1(w) == NO_REGISTER))
     && (ReadsNoSource(inst) || ReadsOneSource(inst) || UnpackSrc2(w) < used))
  }

  /** A jump at `i` lands on one of `n` words, or just after them. */
  predicate LandsIn(w: Word, i: int, n: int) {
    var inst := UnpackInstruction(w);
    if inst == JUMP then 0 <= i + 1 + UnpackValue24Signed(w) <= n
    else if inst == JUMP_TRUE then 0 <= i + 1 + UnpackValue16Signed(w) <= n
    else if inst == JUMP_FALSE then 0 <= i + 1 + UnpackValue16(w) <= n
    else true
  }

  predicate Shaped(code: seq<Word>, used: nat) {
    forall i :: 0 <= i < |code| ==> OperandsBelow(code[i], used) && LandsIn(code[i], i, |code|)
  }

  lemma Moved(w: Word, i: int, n: int, d: nat, m: int)
    requires LandsIn(w, i, n) && d + n <= m
    ensures LandsIn(w, i + d, m)
  {
  }

  /** Code keeps its shape in the middle of other code. */
  lemma Embedded(x: seq<Word>, y: seq<Word>, z: seq<Word>, used: nat, more: nat)
    requires Shaped(y, used) && used <= more
    ensures forall i :: |x| <= i < |x| + |y| ==>
            OperandsBelow((x + y + z)[i], more) && LandsIn((x + y + z)[i], i, |x + y + z|)
  {
    hide LandsIn;
    forall i | |x| <= i < |x| + |y|
      ensures OperandsBelow((x + y + z)[i], more) && LandsIn((x + y + z)[i], i, |x + y + z|)
    {
      Moved(y[i - |x|], i - |x|, |y|, |x|, |x + y + z|);
    }
  }

  lemma Joined(x: seq<Word>, y: seq<Word>, used: nat, more: nat)
    requires Shaped(x, used) && Shaped(y, more) && used <= more
    ensures Shaped(x + y, more)
  {
    hide LandsIn, OperandsBelow;
    Embedded([], x, y, used, more);
    Embedded(x, y, [], more, more);
    assert [] + x + y == x + y && x + y + [] == x + y;
  }

  /** The words that are not jumps. */
  lemma OneWord(w: Word, used: nat)
    requires OperandsBelow(w, used) && UnpackInstruction(w) !in {JUMP, JUMP_TRUE, JUMP_FALSE}
    ensures Shaped([w], used)
  {
  }

  // ----- expressions -----

  lemma {:induction false} ExprShaped(m: Constants, sc: Scopes, p: Pool, c: nat, e: Expr, target: Option<Key>)
    requires sc.depth > 0 && Inv(p) && GenExpr(m, sc, p, c, e, target).Emit?
    ensures var g := GenExpr(m, sc, p, c, e, target);
            0 <= g.reg < g.pool.used <= MAX_REGISTERS && Shaped(g.code, g.pool.used)
    decreases e, 1
  {
    hide Inv, Shaped, OperandsBelow;
    var g := GenExpr(m, sc, p, c, e, target);
    GenExprOwners(m, sc, p, c, e, target);
    RegisterBound(p, ResultKey(sc, c, e, target));
    match e
    case Constant(ty, v) =>
      ConstantShaped(m, ty, v, g.reg, p.used);
    case Access(_) =>
      NoWords(p.used);
    case Dual(op, ty, _, _) =>
      OperandsShaped(m, sc, p, c, e);
      var o := GenOperands(m, sc, p, c, e);
      DualWord(op, ty, g.reg, o.reg1, o.reg2, g.pool.used);
      Joined(o.code, [PackThreeRegisters(DualOperatorInst(op, ty), g.reg, o.reg1, o.reg2)], g.pool.used, g.pool.used);
    case Comparison(cmp, ty, _, _) =>
      OperandsShaped(m, sc, p, c, e);
      var o := GenOperands(m, sc, p, c, e);
      CompareWord(cmp, ty, g.reg, o.reg1, o.reg2, g.pool.used);
      Joined(o.code, [PackThreeRegisters(CompareOperatorInst(cmp, ty), g.reg, o.reg1, o.reg2)], g.pool.used,
             g.pool.used);
    case Single(single, ty, operand) =>
      ExprShaped(m, sc, p, c, operand, None);
      var o := GenExpr(m, sc, p, c, operand, None);
      SingleWord(single, ty, g.reg, o.reg, g.pool.used);
      Joined(o.code, [PackTwoRegisters(SingleOperatorInst(single, ty), g.reg, o.reg)], g.pool.used, g.pool.used);
    case Call(callee, args) =>
      CallShaped(m, sc, p, c, callee, args, Some(ResultKey(sc, c, e, target)));
  }

  lemma NoWords(used: nat)
    ensures Shaped([], used)
  {
  }

  lemma RegisterBound(p: Pool, key: Key)
    requires Inv(p) && key in p.owner
    ensures p.owner[key] < p.used <= MAX_REGISTERS
  {
  }

  lemma ConstantShaped(m: Constants, ty: Ty, v: int, reg: nat, used: nat)
    requires reg < used <= MAX_REGISTERS && ConstantWord(m, ty, v, reg).Some?
    ensures Shaped([ConstantWord(m, ty, v, reg).value], used)
  {
    var w := ConstantWord(m, ty, v, reg).value;
    hide UnpackInstruction, UnpackDst, UnpackSrc1, UnpackSrc2, PackDstValue;
    if FitsInBytecode(ty, v) {
      UnpackDstValue(LOAD_VALUE, reg, v);
    } else {
      var i := IndexOf(if Is64(ty) then m.bits64 else m.bits32, (ty, v)).value;
      UnpackDstValue(if Is64(ty) then LOAD_CONST_64 else LOAD_CONST_32, reg, i);
    }
    OneWord(w, used);
  }

  lemma DualWord(op: DualOp, ty: Ty, reg: nat, reg1: nat, reg2: nat, used: nat)
    requires ty != Bool && reg < used && reg1 < used && reg2 < used <= MAX_REGISTERS
    ensures Shaped([PackThreeRegisters(DualOperatorInst(op, ty), reg, reg1, reg2)], used)
  {
    hide UnpackInstruction, UnpackDst, UnpackSrc1, UnpackSrc2, PackThreeRegisters;
    UnpackThree(DualOperatorInst(op, ty), reg, reg1, reg2);
    OneWord(PackThreeRegisters(DualOperatorInst(op, ty), reg, reg1, reg2), used);
  }

  lemma CompareWord(cmp: CompareOp, ty: Ty, reg: nat, reg1: nat, reg2: nat, used: nat)
    requires reg < used && reg1 < used && reg2 < used <= MAX_REGISTERS
    ensures Shaped([PackThreeRegisters(CompareOperatorInst(cmp, ty), reg, reg1, reg2)], used)
  {
    hide UnpackInstruction, UnpackDst, UnpackSrc1, UnpackSrc2, PackThreeRegisters;
    UnpackThree(CompareOperatorInst(cmp, ty), reg, reg1, reg2);
    OneWord(PackThreeRegisters(CompareOperatorInst(cmp, ty), reg, reg1, reg2), used);
  }

  lemma SingleWord(single: SingleOp, ty: Ty, reg: nat, reg1: nat, used: nat)
    requires ty != Bool && (single.Negate? ==> IsSigned(ty)) && reg < used && reg1 < used <= MAX_REGISTERS
    ensures Shaped([PackTwoRegisters(SingleOperatorInst(single, ty), reg, reg1)], used)
  {
    hide UnpackInstruction, UnpackDst, UnpackSrc1, UnpackSrc2, PackTwoRegisters;
    UnpackTwo(SingleOperatorInst(single, ty), reg, reg1);
    OneWord(PackTwoRegisters(SingleOperatorInst(single, ty), reg, reg1), used);
  }

  lemma CopyWord(reg: nat, reg1: nat, used: nat)
    requires reg < used && reg1 < used <= MAX_REGISTERS
    ensures Shaped([PackTwoRegisters(COPY_REGISTER, reg, reg1)], used)
  {
    hide UnpackInstruction, UnpackDst, UnpackSrc1, UnpackSrc2, PackTwoRegisters;
    UnpackTwo(COPY_REGISTER, reg, reg1);
    OneWord(PackTwoRegisters(COPY_REGISTER, reg, reg1), used);
  }

  lemma PushWord(reg: nat, used: nat)
    requires reg < used <= MAX_REGISTERS
    ensures Shaped([PackOneRegister(PUSH_ARG, reg)], used)
  {
    hide UnpackInstruction, UnpackDst, UnpackSrc1, UnpackSrc2, PackOneRegister;
    UnpackOne(PUSH_ARG, reg);
    OneWord(PackOneRegister(PUSH_ARG, reg), used);
  }

  lemma LoadWord(reg: nat, callee: int, used: nat)
    requires reg < used <= MAX_REGISTERS
    ensures Shaped([PackDstValue(LOAD_FUNCTION, reg, callee)], used)
  {
    hide UnpackInstruction, UnpackDst, UnpackSrc1, UnpackSrc2, PackDstValue;
    UnpackDstValue(LOAD_FUNCTION, reg, callee);
    OneWord(PackDstValue(LOAD_FUNCTION, reg, callee), used);
  }

  lemma CallWord(reg: nat, ret: int, n: int, used: nat)
    requires reg < used <= MAX_REGISTERS && (ret == UNUSED || 0 <= ret < used)
    ensures Shaped([PackThreeRegisters(CALL, reg, ret, n)], used)
  {
    assert PackThreeRegisters(CALL, reg, ret, n) == PackThreeRegisters(CALL, reg, ret % TWO_8, n % TWO_8);
    hide UnpackInstruction, UnpackDst, UnpackSrc1, UnpackSrc2, PackThreeRegisters;
    UnpackThree(CALL, reg, ret % TWO_8, n % TWO_8);
    OneWord(PackThreeRegisters(CALL, reg, ret, n), used);
  }

  lemma ReturnWord(reg: nat, used: nat)
    requires (reg < used || reg == NO_REGISTER) && used <= MAX_REGISTERS
    ensures Shaped([PackDstValue(RETURN, reg, 0)], used)
  {
    hide UnpackInstruction, UnpackDst, UnpackSrc1, UnpackSrc2, PackDstValue;
    UnpackDstValue(RETURN, reg, 0);
    OneWord(PackDstValue(RETURN, reg, 0), used);
  }

  lemma {:induction false} OperandsShaped(m: Constants, sc: Scopes, p: Pool, c: nat, e: Expr)
    requires sc.depth > 0 && (e.Dual? || e.Comparison?) && Inv(p) && GenOperands(m, sc, p, c, e).Operands?
    ensures var o := GenOperands(m, sc, p, c, e);
            && p.used <= o.pool.used <= MAX_REGISTERS && 0 <= o.reg1 < o.pool.used && 0 <= o.reg2 < o.pool.used
            && Shaped(o.code, o.pool.used)
    decreases e, 0
  {
    hide Inv, Shaped, GenExpr;
    ExprShaped(m, sc, p, c, e.left, None);
    GenExprOwners(m, sc, p, c, e.left, None);
    var g1 := GenExpr(m, sc, p, c, e.left, None);
    ExprShaped(m, sc, g1.pool, c + TempCount(e.left), e.right, None);
    GenExprOwners(m, sc, g1.pool, c + TempCount(e.left), e.right, None);
    var g2 := GenExpr(m, sc, g1.pool, c + TempCount(e.left), e.right, None);
    Joined(g1.code, g2.code, g1.pool.used, g2.pool.used);
  }

  lemma {:induction false} CallShaped(m: Constants, sc: Scopes, p: Pool, c: nat, callee: nat, args: seq<Expr>,
                                      result: Option<Key>)
    requires sc.depth > 0 && Inv(p) && GenCall(m, sc, p, c, callee, args, result).Emit?
    ensures var g := GenCall(m, sc, p, c, callee, args, result);
            p.used <= g.pool.used <= MAX_REGISTERS && Shaped(g.code, g.pool.used)
    decreases args, 1
  {
    hide Inv, Shaped, GenArgs;
    var g := GenCall(m, sc, p, c, callee, args, result);
    GenCallOwners(m, sc, p, c, callee, args, result);
    PoolBound(g.pool);
    AllocateTemporaryInv(p);
    ArgsShaped(m, sc, AllocateTemporary(p), c, args);
    var fn, a := AllocatedTemporary(p), GenArgs(m, sc, AllocateTemporary(p), c, args);
    LoadWord(fn, callee, g.pool.used);
    Joined([PackDstValue(LOAD_FUNCTION, fn, callee)], a.code, g.pool.used, g.pool.used);
    if result.Some? {
      RegisterBound(p, result.value);
    }
    CallWord(fn, g.reg, |args|, g.pool.used);
    Joined([PackDstValue(LOAD_FUNCTION, fn, callee)] + a.code, [PackThreeRegisters(CALL, fn, g.reg, |args|)],
           g.pool.used, g.pool.used);
  }

  lemma PoolBound(p: Pool)
    requires Inv(p)
    ensures p.used <= MAX_REGISTERS
  {
  }

  lemma {:induction false} ArgsShaped(m: Constants, sc: Scopes, p: Pool, c: nat, args: seq<Expr>)
    requires sc.depth > 0 && Inv(p) && GenArgs(m, sc, p, c, args).Gen?
    ensures var g := GenArgs(m, sc, p, c, args); p.used <= g.pool.used <= MAX_REGISTERS && Shaped(g.code, g.pool.used)
    decreases args, 0
  {
    hide Inv, Shaped, GenExpr;
    PoolBound(p);
    if args == [] {
      NoWords(p.used);
    } else {
      ExprShaped(m, sc, p, c, args[0], None);
      GenExprOwners(m, sc, p, c, args[0], None);
      var g1 := GenExpr(m, sc, p, c, args[0], None);
      ArgsShaped(m, sc, g1.pool, c + TempCount(args[0]), args[1..]);
      var g2 := GenArgs(m, sc, g1.pool, c + TempCount(args[0]), args[1..]);
      PushWord(g1.reg, g1.pool.used);
      Joined(g1.code, [PackOneRegister(PUSH_ARG, g1.reg)], g1.pool.used, g1.pool.used);
      Joined(g1.code + [PackOneRegister(PUSH_ARG, g1.reg)], g2.code, g1.pool.used, g2.pool.used);
    }
  }

  // ----- statements -----

  lemma {:induction false} StmtShaped(m: Constants, sc: Scopes, results: seq<bool>, p: Pool, c: nat, s: Stmt)
    requires sc.depth > 0 && Fits(p, sc.depth, c) && GenStmt(m, sc, results, p, c, s).Gen?
    ensures var g := GenStmt(m, sc, results, p, c, s); g.pool.used <= MAX_REGISTERS && Shaped(g.code, g.pool.used)
    decreases s, 1
  {
    hide Inv, Shaped, GenVisit;
    if s.If? {
      ConditionShaped(m, sc, results, p, c, s.cond);
    } else {
      var n := StmtTempCount(s) - if s.Declare? && !s.init.Access? then 1 else 0;
      FitsOpened(p, sc.depth, c, c, c + n);
      var q := AllocateTemps(p, sc.depth - 1, c, c + n);
      VisitShaped(m, sc, results, q, c + n, c, s);
      var g := GenVisit(m, sc, results, q, c, s);
      GenVisitOwners(m, sc, results, q, c + n, c, s);
      DeallocateTempsOwners(g.pool, sc.depth - 1, c, c + n);
    }
  }

  lemma {:induction false} VisitShaped(m: Constants, sc: Scopes, results: seq<bool>, p: Pool, live: nat, c: nat,
                                       s: Stmt)
    requires sc.depth > 0 && !s.If? && Fits(p, sc.depth, live) && GenVisit(m, sc, results, p, c, s).Gen?
    ensures var g := GenVisit(m, sc, results, p, c, s); g.pool.used <= MAX_REGISTERS && Shaped(g.code, g.pool.used)
    decreases s, 0
  {
    hide Inv, Shaped, GenExpr, GenCall, GenBlock;
    PoolBound(p);
    match s
    case Declare(name, init) =>
      var key := Named(name, sc.depth - 1);
      var g := GenExpr(m, sc, p, c, init, Some(key));
      ExprShaped(m, sc, p, c, init, Some(key));
      GenExprOwners(m, sc, p, c, init, Some(key));
      if init.Access? {
        RegisterBound(p, key);
        CopyWord(p.owner[key], g.reg, g.pool.used);
        Joined(g.code, [PackTwoRegisters(COPY_REGISTER, p.owner[key], g.reg)], g.pool.used, g.pool.used);
      }
    case Assign(_, _, _, _) =>
      AssignShaped(m, sc, results, p, c, s);
    case Evaluate(e) =>
      if HasResult(results, e) || !e.Call? {
        ExprShaped(m, sc, p, c, e, None);
      } else {
        CallShaped(m, sc, p, c, e.callee, e.args, None);
      }
    case While(test, body) =>
      ExprShaped(m, sc, p, c, test, None);
      GenExprOwners(m, sc, p, c, test, None);
      var g := GenExpr(m, sc, p, c, test, None);
      BlockShaped(m, sc, results, g.pool, live, body);
      var loop := GenBlock(m, sc, results, g.pool, body);
      GenBlockOwners(m, sc, results, g.pool, live, body);
      LoopShaped(g.code, g.reg, loop.code, g.pool.used, loop.pool.used);
    case Return(result) =>
      if result.None? {
        ReturnWord(NO_REGISTER, p.used);
      } else {
        ExprShaped(m, sc, p, c, result.value, None);
        var g := GenExpr(m, sc, p, c, result.value, None);
        ReturnWord(g.reg, g.pool.used);
        Joined(g.code, [PackDstValue(RETURN, g.reg, 0)], g.pool.used, g.pool.used);
      }
  }

  lemma AssignShaped(m: Constants, sc: Scopes, results: seq<bool>, p: Pool, c: nat, s: Stmt)
    requires sc.depth > 0 && s.Assign? && Inv(p) && GenVisit(m, sc, results, p, c, s).Gen?
    ensures var g := GenVisit(m, sc, results, p, c, s); g.pool.used <= MAX_REGISTERS && Shaped(g.code, g.pool.used)
  {
    var left := GenExpr(m, sc, p, c, Access(s.name), None);
    assert left.pool == p;
    hide Inv, Shaped, GenExpr;
    ExprShaped(m, sc, p, c, Access(s.name), None);
    ExprShaped(m, sc, p, c, s.value, None);
    GenExprOwners(m, sc, p, c, s.value, None);
    var g := GenExpr(m, sc, p, c, s.value, None);
    if s.assign.Compound? {
      DualWord(s.assign.op, s.ty, left.reg, left.reg, g.reg, g.pool.used);
      Joined(g.code, [PackThreeRegisters(DualOperatorInst(s.assign.op, s.ty), left.reg, left.reg, g.reg)], g.pool.used,
             g.pool.used);
    } else if s.value != Access(s.name) {
      CopyWord(left.reg, g.reg, g.pool.used);
      Joined(g.code, [PackTwoRegisters(COPY_REGISTER, left.reg, g.reg)], g.pool.used, g.pool.used);
    }
  }

  lemma JumpFalseLands(reg: nat, offset: nat, i: int, n: int, used: nat)
    requires reg < used <= MAX_REGISTERS && offset < TWO_16 && 0 <= i + 1 + offset <= n
    ensures var w := PackDstValue(JUMP_FALSE, reg, offset); OperandsBelow(w, used) && LandsIn(w, i, n)
  {
    hide UnpackInstruction, UnpackDst, UnpackSrc1, UnpackSrc2, UnpackValue16, UnpackValue16Signed, UnpackValue24Signed,
         PackDstValue;
    UnpackDstValue(JUMP_FALSE, reg, offset);
  }

  lemma JumpLands(offset: int, i: int, n: int, used: nat)
    requires -TWO_24 / 2 <= offset < TWO_24 / 2 && 0 <= i + 1 + offset <= n
    ensures var w := PackValue(JUMP, offset); OperandsBelow(w, used) && LandsIn(w, i, n)
  {
    hide UnpackInstruction, UnpackDst, UnpackSrc1, UnpackSrc2, UnpackValue16, UnpackValue16Signed, UnpackValue24Signed,
         PackValue;
    UnpackValue(JUMP, offset);
  }

  /** Both jumps of a loop stay in it: to just after it, and back to its test. */
  lemma LoopShaped(test: seq<Word>, reg: nat, loop: seq<Word>, used: nat, more: nat)
    requires Shaped(test, used) && Shaped(loop, more) && reg < used <= more <= MAX_REGISTERS
    requires |test| + |loop| + 2 < -MIN_INT16 && |loop| + 1 < MAX_INT16
    ensures Shaped(test + [PackDstValue(JUMP_FALSE, reg, |loop| + 1)] + loop
                   + [PackValue(JUMP, -(|test| + |loop| + 2))], more)
  {
    hide LandsIn, OperandsBelow, PackDstValue, PackValue;
    var first, last := [PackDstValue(JUMP_FALSE, reg, |loop| + 1)], [PackValue(JUMP, -(|test| + |loop| + 2))];
    var code := test + first + loop + last;
    Embedded([], test, first + loop + last, used, more);
    Embedded(test + first, loop, last, more, more);
    assert [] + test + (first + loop + last) == code;
    JumpFalseLands(reg, |loop| + 1, |test|, |code|, more);
    JumpLands(-(|test| + |loop| + 2), |code| - 1, |code|, more);
  }

  lemma {:induction false} StmtsShaped(m: Constants, sc: Scopes, results: seq<bool>, p: Pool, c: nat, ss: seq<Stmt>)
    requires sc.depth > 0 && Fits(p, sc.depth, c) && GenStmts(m, sc, results, p, c, ss).Gen?
    ensures var g := GenStmts(m, sc, results, p, c, ss); g.pool.used <= MAX_REGISTERS && Shaped(g.code, g.pool.used)
    decreases ss, 0
  {
    hide Inv, Shaped, GenStmt;
    PoolBound(p);
    if ss == [] {
      NoWords(p.used);
    } else {
      StmtShaped(m, sc, results, p, c, ss[0]);
      GenStmtOwners(m, sc, results, p, c, ss[0]);
      var g1 := GenStmt(m, sc, results, p, c, ss[0]);
      StmtsShaped(m, sc, results, g1.pool, c + StmtTempCount(ss[0]), ss[1..]);
      GenStmtsOwners(m, sc, results, g1.pool, c + StmtTempCount(ss[0]), ss[1..]);
      var g2 := GenStmts(m, sc, results, g1.pool, c + StmtTempCount(ss[0]), ss[1..]);
      Joined(g1.code, g2.code, g1.pool.used, g2.pool.used);
    }
  }

  lemma {:induction false} BlockShaped(m: Constants, sc: Scopes, results: seq<bool>, p: Pool, live: nat, b: Block)
    requires sc.depth > 0 && Fits(p, sc.depth, live) && GenBlock(m, sc, results, p, b).Gen?
    ensures var g := GenBlock(m, sc, results, p, b); g.pool.used <= MAX_REGISTERS && Shaped(g.code, g.pool.used)
    decreases b, 0
  {
    hide Inv, Shaped, GenStmts, AllocateVars, DeallocateVars;
    BlockFits(p, sc.depth, live, b.vars);
    var q := AllocateVars(p, sc.depth, b.vars);
    StmtsShaped(m, OpenScope(sc, b.vars), results, q, 0, b.stmts);
    GenStmtsOwners(m, OpenScope(sc, b.vars), results, q, 0, b.stmts);
    DeallocateVarsOwners(GenStmts(m, OpenScope(sc, b.vars), results, q, 0, b.stmts).pool, sc.depth, b.vars);
  }

  lemma {:induction false} ConditionShaped(m: Constants, sc: Scopes, results: seq<bool>, p: Pool, c: nat,
                                           cond: Condition)
    requires sc.depth > 0 && Fits(p, sc.depth, c) && GenCondition(m, sc, results, p, c, cond).Gen?
    ensures var g := GenCondition(m, sc, results, p, c, cond);
            g.pool.used <= MAX_REGISTERS && Shaped(g.code, g.pool.used)
    decreases cond, 0
  {
    hide Inv, Shaped, GenExpr, GenBlock, GenTail, AllocateTemps, DeallocateTemps;
    var n := TempCount(cond.test);
    FitsOpened(p, sc.depth, c, c, c + n);
    var q := AllocateTemps(p, sc.depth - 1, c, c + n);
    ExprShaped(m, sc, q, c, cond.test, None);
    GenExprOwners(m, sc, q, c, cond.test, None);
    var g := GenExpr(m, sc, q, c, cond.test, None);
    DeallocateTempsOwners(g.pool, sc.depth - 1, c, c + n);
    var p1 := DeallocateTemps(g.pool, sc.depth - 1, c, c + n);
    assert SameOwners(p, p1);
    BlockShaped(m, sc, results, p1, c, cond.onTrue);
    GenBlockOwners(m, sc, results, p1, c, cond.onTrue);
    var onTrue := GenBlock(m, sc, results, p1, cond.onTrue);
    if cond.onFalse.NoElse? {
      NoElseShaped(g.code, g.reg, onTrue.code, g.pool.used, onTrue.pool.used);
    } else {
      TailShaped(m, OpenScope(sc, []), results, onTrue.pool, cond.onFalse);
      GenTailOwners(m, OpenScope(sc, []), results, onTrue.pool, cond.onFalse);
      var onFalse := GenTail(m, OpenScope(sc, []), results, onTrue.pool, cond.onFalse);
      ElseShaped(g.code, g.reg, onTrue.code, onFalse.code, g.pool.used, onTrue.pool.used, onFalse.pool.used);
    }
  }

  lemma NoElseShaped(test: seq<Word>, reg: nat, onTrue: seq<Word>, used: nat, more: nat)
    requires Shaped(test, used) && Shaped(onTrue, more) && reg < used <= more <= MAX_REGISTERS && |onTrue| < MAX_INT16
    ensures Shaped(test + [PackDstValue(JUMP_FALSE, reg, |onTrue|)] + onTrue, more)
  {
    hide LandsIn, OperandsBelow, PackDstValue;
    var first := [PackDstValue(JUMP_FALSE, reg, |onTrue|)];
    var code := test + first + onTrue;
    Embedded([], test, first + onTrue, used, more);
    Embedded(test + first, onTrue, [], more, more);
    assert [] + test + (first + onTrue) == code && code + [] == code;
    JumpFalseLands(reg, |onTrue|, |test|, |code|, more);
  }

  /** The first jump lands on the else part, the second just after it. */
  lemma ElseShaped(test: seq<Word>, reg: nat, onTrue: seq<Word>, onFalse: seq<Word>, used: nat, more: nat, most: nat)
    requires Shaped(test, used) && Shaped(onTrue, more) && Shaped(onFalse, most)
             && reg < used <= more <= most <= MAX_REGISTERS
    requires |onTrue| + 1 < MAX_INT16 && |onFalse| < MAX_INT16
    ensures Shaped(test + [PackDstValue(JUMP_FALSE, reg, |onTrue| + 1)] + onTrue + [PackValue(JUMP, |onFalse|)]
                   + onFalse, most)
  {
    hide LandsIn, OperandsBelow, PackDstValue, PackValue;
    var first, over := [PackDstValue(JUMP_FALSE, reg, |onTrue| + 1)], [PackValue(JUMP, |onFalse|)];
    var code := test + first + onTrue + over + onFalse;
    Embedded([], test, first + onTrue + over + onFalse, used, most);
    Embedded(test + first, onTrue, over + onFalse, more, most);
    Embedded(test + first + onTrue + over, onFalse, [], most, most);
    assert [] + test + (first + onTrue + over + onFalse) == code && code + [] == code;
    assert test + first + onTrue + (over + onFalse) == code;
    JumpFalseLands(reg, |onTrue| + 1, |test|, |code|, most);
    JumpLands(|onFalse|, |test| + 1 + |onTrue|, |code|, most);
  }

  lemma {:induction false} TailShaped(m: Constants, sc: Scopes, results: seq<bool>, p: Pool, t: Tail)
    requires sc.depth > 0 && !t.NoElse? && Fits(p, sc.depth, 0) && GenTail(m, sc, results, p, t).Gen?
    ensures var g := GenTail(m, sc, results, p, t); g.pool.used <= MAX_REGISTERS && Shaped(g.code, g.pool.used)
    decreases t, 0
  {
    hide Inv, Shaped;
    match t
    case Elif(cond) => ConditionShaped(m, sc, results, p, 0, cond);
    case Else(block) => BlockShaped(m, sc, results, p, 0, block);
  }

  // ----- functions -----

  /**
    In the code of any function the generator accepts, no jump leaves the function, not
    even past its last word, and no register is outside the frame its header asks for.
   */
  lemma FunctionShaped(m: Constants, results: seq<bool>, f: FunctionDecl)
    requires GenFunction(m, results, f).Gen?
    ensures var g := GenFunction(m, results, f);
            && 0 < |g.code| < MAX_CODE_SIZE && MaxRegisterCount(g.pool) <= MAX_REGISTERS
            && forall i :: 0 <= i < |g.code| ==>
                 OperandsBelow(g.code[i], MaxRegisterCount(g.pool)) && LandsIn(g.code[i], i, |g.code| - 1)
  {
    hide Inv, GenStmts, SetupPool, OperandsBelow, LandsIn;
    SetupFits(f);
    var sc, p := OpenScope(FUNCTION_SCOPES, f.body.vars), SetupPool(f).value;
    StmtsShaped(m, sc, results, p, 0, f.body.stmts);
    GenStmtsOwners(m, sc, results, p, 0, f.body.stmts);
    var body, g := GenStmts(m, sc, results, p, 0, f.body.stmts), GenFunction(m, results, f);
    DeallocateVarsOwners(body.pool, 1, f.body.vars);
    Embedded([], body.code, g.code[|body.code|..], body.pool.used, MaxRegisterCount(g.pool));
    Embedded([], body.code, [], body.pool.used, MaxRegisterCount(g.pool));
    assert [] + body.code + g.code[|body.code|..] == g.code && [] + body.code + [] == body.code;
    LastWord(f, MaxRegisterCount(g.pool), |g.code| - 1);
  }

  lemma LastWord(f: FunctionDecl, used: nat, n: nat)
    requires used <= MAX_REGISTERS
    ensures var w := if f.result.Some? then PackValue(HALT, 0) else PackDstValue(RETURN, NO_REGISTER, 0);
            OperandsBelow(w, used) && LandsIn(w, n, n)
  {
    hide UnpackInstruction, UnpackDst, UnpackSrc1, UnpackSrc2, PackValue, PackDstValue;
    UnpackValue(HALT, 0);
    UnpackDstValue(RETURN, NO_REGISTER, 0);
  }
}
