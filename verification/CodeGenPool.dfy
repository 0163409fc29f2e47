/**
  What generating code does to the register pool: an expression leaves the owners as
  they were, and so does a whole statement, block or condition, because everything it
  allocates it gives back. The number of registers used only grows.
 */
module CodeGenPool {
  import opened Options
  import opened Values
  import opened Bytecode
  import opened Registers
  import opened RegisterPool
  import opened Ast
  import opened Semantics
  import opened CodeGen

  /** `q` is a later pool with the same owners and temporaries. */
  ghost predicate SameOwners(p: Pool, q: Pool) {
    Inv(q) && q.owner == p.owner && q.temps == p.temps && p.used <= q.used
  }

  /** The owners are symbols of the open scopes; temporaries from `c` on are free. */
  ghost predicate Fits(p: Pool, depth: nat, c: nat) {
    && Inv(p)
    && forall k :: k in p.owner ==> k.level < depth && (k.Temp? && k.level + 1 == depth ==> k.counter < c)
  }

  predicate TempIn(k: Key, level: nat, from: nat, end: nat) {
    k.Temp? && k.level == level && from <= k.counter < end
  }

  // ----- allocating and giving back -----

  ghost predicate Grown(p: Pool, q: Pool) {
    && Inv(q) && q.temps == p.temps && p.used <= q.used
    && forall k :: k in p.owner ==> k in q.owner && q.owner[k] == p.owner[k]
  }

  ghost predicate Shrunk(p: Pool, q: Pool) {
    && Inv(q) && q.temps == p.temps && p.used == q.used
    && forall k :: k in q.owner ==> k in p.owner && q.owner[k] == p.owner[k]
  }

  lemma {:induction false} AllocateTempsOwners(p: Pool, level: nat, from: nat, end: nat)
    requires Inv(p)
    requires forall k :: k in p.owner ==> !TempIn(k, level, from, end)
    ensures Grown(p, AllocateTemps(p, level, from, end))
    ensures forall k :: k in AllocateTemps(p, level, from, end).owner && k !in p.owner ==> TempIn(k, level, from, end)
    decreases end - from
  {
    hide Inv;
    if from < end && Allocated(p, Temp(level, from)) != UNUSED {
      AllocateInv(p, Temp(level, from));
      AllocateTempsOwners(Allocate(p, Temp(level, from)), level, from + 1, end);
    }
  }

  lemma {:induction false} DeallocateTempsOwners(p: Pool, level: nat, from: nat, end: nat)
    requires Inv(p)
    ensures Shrunk(p, DeallocateTemps(p, level, from, end))
    ensures forall k :: k in DeallocateTemps(p, level, from, end).owner <==>
            k in p.owner && !TempIn(k, level, from, end)
    decreases end - from
  {
    hide Inv;
    if from < end {
      DeallocateInv(p, Temp(level, from));
      DeallocateTempsOwners(Deallocate(p, Temp(level, from)), level, from + 1, end);
    }
  }

  predicate VarIn(k: Key, level: nat, vars: seq<string>) {
    k.Named? && k.level == level && k.name in vars
  }

  lemma {:induction false} AllocateVarsOwners(p: Pool, level: nat, vars: seq<string>)
    requires Inv(p)
    ensures Grown(p, AllocateVars(p, level, vars))
    ensures forall k :: k in AllocateVars(p, level, vars).owner && k !in p.owner ==> VarIn(k, level, vars)
    ensures VarsFit(p, level, vars) ==> forall v :: v in vars ==> Named(v, level) in AllocateVars(p, level, vars).owner
    decreases |vars|
  {
    hide Inv;
    if vars != [] && Allocated(p, Named(vars[0], level)) != UNUSED {
      AllocateInv(p, Named(vars[0], level));
      AllocateVarsOwners(Allocate(p, Named(vars[0], level)), level, vars[1..]);
    }
  }

  lemma {:induction false} DeallocateVarsOwners(p: Pool, level: nat, vars: seq<string>)
    requires Inv(p)
    ensures Shrunk(p, DeallocateVars(p, level, vars))
    ensures forall k :: k in DeallocateVars(p, level, vars).owner <==> k in p.owner && !VarIn(k, level, vars)
    decreases |vars|
  {
    hide Inv;
    if vars != [] {
      DeallocateInv(p, Named(vars[0], level));
      DeallocateVarsOwners(Deallocate(p, Named(vars[0], level)), level, vars[1..]);
    }
  }

  // ----- expressions -----

  lemma {:induction false} GenExprOwners(m: Constants, sc: Scopes, p: Pool, c: nat, e: Expr, target: Option<Key>)
    requires sc.depth > 0 && Inv(p)
    requires GenExpr(m, sc, p, c, e, target).Emit?
    ensures SameOwners(p, GenExpr(m, sc, p, c, e, target).pool)
    ensures ResultKey(sc, c, e, target) in p.owner
            && GenExpr(m, sc, p, c, e, target).reg == p.owner[ResultKey(sc, c, e, target)]
    decreases e, 1
  {
    hide Inv;
    match e
    case Constant(_, _) =>
    case Access(_) =>
    case Dual(_, _, l, r) =>
      GenExprOwners(m, sc, p, c, l, None);
      GenExprOwners(m, sc, GenExpr(m, sc, p, c, l, None).pool, c + TempCount(l), r, None);
    case Comparison(_, _, l, r) =>
      GenExprOwners(m, sc, p, c, l, None);
      GenExprOwners(m, sc, GenExpr(m, sc, p, c, l, None).pool, c + TempCount(l), r, None);
    case Single(_, _, operand) =>
      GenExprOwners(m, sc, p, c, operand, None);
    case Call(callee, args) =>
      GenCallOwners(m, sc, p, c, callee, args, Some(ResultKey(sc, c, e, target)));
  }

  lemma {:induction false} GenCallOwners(m: Constants, sc: Scopes, p: Pool, c: nat, callee: nat, args: seq<Expr>,
                                         result: Option<Key>)
    requires sc.depth > 0 && Inv(p)
    requires GenCall(m, sc, p, c, callee, args, result).Emit?
    ensures SameOwners(p, GenCall(m, sc, p, c, callee, args, result).pool)
    ensures 0 <= AllocatedTemporary(p) < GenCall(m, sc, p, c, callee, args, result).pool.used
    ensures forall k :: k in p.owner ==> p.owner[k] != AllocatedTemporary(p)
    ensures result.Some? ==>
            result.value in p.owner && GenCall(m, sc, p, c, callee, args, result).reg == p.owner[result.value]
    decreases args, 1
  {
    hide Inv;
    AllocateTemporaryInv(p);
    TakenInv(p);
    var p0 := AllocateTemporary(p);
    GenArgsOwners(m, sc, p0, c, args);
    var p1 := GenArgs(m, sc, p0, c, args).pool;
    DeallocateTemporaryInv(p1, AllocatedTemporary(p));
    assert DeallocateTemporary(p1, AllocatedTemporary(p)).temps == p.temps;
  }

  lemma {:induction false} GenArgsOwners(m: Constants, sc: Scopes, p: Pool, c: nat, args: seq<Expr>)
    requires sc.depth > 0 && Inv(p)
    requires GenArgs(m, sc, p, c, args).Gen?
    ensures SameOwners(p, GenArgs(m, sc, p, c, args).pool)
    decreases args, 0
  {
    hide Inv;
    if args != [] {
      GenExprOwners(m, sc, p, c, args[0], None);
      GenArgsOwners(m, sc, GenExpr(m, sc, p, c, args[0], None).pool, c + TempCount(args[0]), args[1..]);
    }
  }

  // ----- statements -----

  lemma FitsOpened(p: Pool, depth: nat, c: nat, from: nat, end: nat)
    requires depth > 0 && Fits(p, depth, c) && c <= from
    ensures Fits(AllocateTemps(p, depth - 1, from, end), depth, if from <= end then end else from)
    ensures p.used <= AllocateTemps(p, depth - 1, from, end).used
    ensures forall r: Pool {:trigger SameOwners(AllocateTemps(p, depth - 1, from, end), r)} ::
              SameOwners(AllocateTemps(p, depth - 1, from, end), r) ==>
                SameOwners(p, DeallocateTemps(r, depth - 1, from, end))
  {
    hide Inv;
    var q := AllocateTemps(p, depth - 1, from, end);
    AllocateTempsOwners(p, depth - 1, from, end);
    forall r: Pool {:trigger SameOwners(q, r)} | SameOwners(q, r)
      ensures SameOwners(p, DeallocateTemps(r, depth - 1, from, end))
    {
      DeallocateTempsOwners(r, depth - 1, from, end);
    }
  }

  lemma BlockFits(p: Pool, depth: nat, c: nat, vars: seq<string>)
    requires Fits(p, depth, c)
    ensures Fits(AllocateVars(p, depth, vars), depth + 1, 0) && p.used <= AllocateVars(p, depth, vars).used
    ensures forall r: Pool {:trigger SameOwners(AllocateVars(p, depth, vars), r)} ::
              SameOwners(AllocateVars(p, depth, vars), r) ==> SameOwners(p, DeallocateVars(r, depth, vars))
  {
    hide Inv;
    var q := AllocateVars(p, depth, vars);
    AllocateVarsOwners(p, depth, vars);
    forall r: Pool {:trigger SameOwners(q, r)} | SameOwners(q, r)
      ensures SameOwners(p, DeallocateVars(r, depth, vars))
    {
      DeallocateVarsOwners(r, depth, vars);
    }
  }

  lemma {:induction false} GenStmtOwners(m: Constants, sc: Scopes, results: seq<bool>, p: Pool, c: nat, s: Stmt)
    requires sc.depth > 0 && Fits(p, sc.depth, c)
    requires GenStmt(m, sc, results, p, c, s).Gen?
    ensures SameOwners(p, GenStmt(m, sc, results, p, c, s).pool)
    decreases s, 1
  {
    hide Inv;
    if s.If? {
      GenConditionOwners(m, sc, results, p, c, s.cond);
    } else {
      var n := StmtTempCount(s) - if s.Declare? && !s.init.Access? then 1 else 0;
      FitsOpened(p, sc.depth, c, c, c + n);
      var q := AllocateTemps(p, sc.depth - 1, c, c + n);
      GenVisitOwners(m, sc, results, q, c + n, c, s);
    }
  }

  lemma {:induction false} GenVisitOwners(m: Constants, sc: Scopes, results: seq<bool>, p: Pool, live: nat, c: nat,
                                          s: Stmt)
    requires sc.depth > 0 && !s.If? && Fits(p, sc.depth, live)
    requires GenVisit(m, sc, results, p, c, s).Gen?
    ensures SameOwners(p, GenVisit(m, sc, results, p, c, s).pool)
    decreases s, 0
  {
    hide Inv;
    match s
    case Declare(name, init) =>
      GenExprOwners(m, sc, p, c, init, Some(Named(name, sc.depth - 1)));
    case Assign(name, _, _, value) =>
      GenExprOwners(m, sc, p, c, Access(name), None);
      GenExprOwners(m, sc, p, c, value, None);
    case Evaluate(e) =>
      if HasResult(results, e) || !e.Call? {
        GenExprOwners(m, sc, p, c, e, None);
      } else {
        GenCallOwners(m, sc, p, c, e.callee, e.args, None);
      }
    case While(test, body) =>
      GenExprOwners(m, sc, p, c, test, None);
      var p1 := GenExpr(m, sc, p, c, test, None).pool;
      GenBlockOwners(m, sc, results, p1, live, body);
    case Return(result) =>
      if result.Some? {
        GenExprOwners(m, sc, p, c, result.value, None);
      }
  }

  lemma {:induction false} GenStmtsOwners(m: Constants, sc: Scopes, results: seq<bool>, p: Pool, c: nat, ss: seq<Stmt>)
    requires sc.depth > 0 && Fits(p, sc.depth, c)
    requires GenStmts(m, sc, results, p, c, ss).Gen?
    ensures SameOwners(p, GenStmts(m, sc, results, p, c, ss).pool)
    decreases ss, 0
  {
    hide Inv;
    if ss != [] {
      GenStmtOwners(m, sc, results, p, c, ss[0]);
      GenStmtsOwners(m, sc, results, GenStmt(m, sc, results, p, c, ss[0]).pool, c + StmtTempCount(ss[0]), ss[1..]);
    }
  }

  lemma {:induction false} GenBlockOwners(m: Constants, sc: Scopes, results: seq<bool>, p: Pool, live: nat, b: Block)
    requires sc.depth > 0 && Fits(p, sc.depth, live)
    requires GenBlock(m, sc, results, p, b).Gen?
    ensures SameOwners(p, GenBlock(m, sc, results, p, b).pool)
    decreases b, 0
  {
    hide Inv;
    BlockFits(p, sc.depth, live, b.vars);
    GenStmtsOwners(m, OpenScope(sc, b.vars), results, AllocateVars(p, sc.depth, b.vars), 0, b.stmts);
  }

  lemma {:induction false} GenConditionOwners(m: Constants, sc: Scopes, results: seq<bool>, p: Pool, c: nat,
                                              cond: Condition)
    requires sc.depth > 0 && Fits(p, sc.depth, c)
    requires GenCondition(m, sc, results, p, c, cond).Gen?
    ensures SameOwners(p, GenCondition(m, sc, results, p, c, cond).pool)
    decreases cond, 0
  {
    hide Inv;
    var n := TempCount(cond.test);
    FitsOpened(p, sc.depth, c, c, c + n);
    var q := AllocateTemps(p, sc.depth - 1, c, c + n);
    GenExprOwners(m, sc, q, c, cond.test, None);
    var p1 := DeallocateTemps(GenExpr(m, sc, q, c, cond.test, None).pool, sc.depth - 1, c, c + n);
    assert SameOwners(p, p1);
    GenBlockOwners(m, sc, results, p1, c, cond.onTrue);
    if !cond.onFalse.NoElse? {
      GenTailOwners(m, OpenScope(sc, []), results, GenBlock(m, sc, results, p1, cond.onTrue).pool, cond.onFalse);
    }
  }

  lemma {:induction false} GenTailOwners(m: Constants, sc: Scopes, results: seq<bool>, p: Pool, t: Tail)
    requires sc.depth > 0 && !t.NoElse? && Fits(p, sc.depth, 0)
    requires GenTail(m, sc, results, p, t).Gen?
    ensures SameOwners(p, GenTail(m, sc, results, p, t).pool)
    decreases t, 0
  {
    hide Inv;
    match t
    case Elif(cond) => GenConditionOwners(m, sc, results, p, 0, cond);
    case Else(block) => GenBlockOwners(m, sc, results, p, 0, block);
  }

  lemma SetupFits(f: FunctionDecl)
    requires SetupPool(f).Some?
    ensures Fits(SetupPool(f).value, 2, 0)
  {
    assert Inv(EMPTY_POOL);
    hide Inv, VarsFit;
    var names := ParameterNames(f.params);
    AllocateVarsOwners(EMPTY_POOL, 1, names);
    AllocateVarsOwners(AllocateVars(EMPTY_POOL, 1, names), 1, f.body.vars);
  }

  lemma AccessEmitsNothing(m: Constants, sc: Scopes, p: Pool, c: nat, name: string)
    requires sc.depth > 0
    ensures var g := GenExpr(m, sc, p, c, Access(name), None); g.Emit? ==> g.pool == p && g.code == []
  {
  }
}
