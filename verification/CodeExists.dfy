/**
  Which checked functions have code. Every condition is counted on the tree: the registers
  for variables, temporaries and called functions, the words that a jump skips, and the
  constants that do not fit an instruction word.
 */
module CodeExists {
  import opened Options
  import opened Values
  import opened Bytecode
  import opened RegisterPool
  import opened Ast
  import opened Semantics
  import opened CodeGen
  import opened CodeGenPool
  import opened Checking
  import opened CompilerRelation

  // ----- sizes -----

  /** The instruction words of an expression: one for each node but a variable, two more for the ends of a call. */
  function ExprWords(e: Expr): nat
    decreases e
  {
    match e
    case Constant(_, _) => 1
    case Access(_) => 0
    case Dual(_, _, l, r) => ExprWords(l) + ExprWords(r) + 1
    case Comparison(_, _, l, r) => ExprWords(l) + ExprWords(r) + 1
    case Single(_, _, operand) => ExprWords(operand) + 1
    case Call(_, args) => ArgsWords(args) + 2
  }

  function ArgsWords(args: seq<Expr>): nat
    decreases args
  {
    if args == [] then 0 else ExprWords(args[0]) + 1 + ArgsWords(args[1..])
  }

  function StmtWords(s: Stmt): nat
    decreases s
  {
    match s
    case Declare(_, init) => ExprWords(init) + if init.Access? then 1 else 0
    case Assign(name, assign, _, value) => ExprWords(value) + if assign.Copy? && value == Access(name) then 0 else 1
    case Evaluate(e) => ExprWords(e)
    case If(cond) => ConditionWords(cond)
    case While(test, body) => ExprWords(test) + 1 + StmtsWords(body.stmts) + 1
    case Return(result) => if result.Some? then ExprWords(result.value) + 1 else 1
  }

  function StmtsWords(ss: seq<Stmt>): nat
    decreases ss
  {
    if ss == [] then 0 else StmtWords(ss[0]) + StmtsWords(ss[1..])
  }

  function ConditionWords(c: Condition): nat
    decreases c
  {
    ExprWords(c.test) + 1 + StmtsWords(c.onTrue.stmts) + if c.onFalse.NoElse? then 0 else 1 + TailWords(c.onFalse)
  }

  function TailWords(t: Tail): nat
    decreases t
  {
    match t
    case NoElse => 0
    case Elif(cond) => ConditionWords(cond)
    case Else(block) => StmtsWords(block.stmts)
  }

  /** The values an expression computes, each of which has a temporary: all nodes but variables. */
  function Intermediates(e: Expr): nat
    decreases e
  {
    match e
    case Constant(_, _) => 1
    case Access(_) => 0
    case Dual(_, _, l, r) => 1 + Intermediates(l) + Intermediates(r)
    case Comparison(_, _, l, r) => 1 + Intermediates(l) + Intermediates(r)
    case Single(_, _, operand) => 1 + Intermediates(operand)
    case Call(_, args) => 1 + ArgsIntermediates(args)
  }

  function ArgsIntermediates(args: seq<Expr>): nat
    decreases args
  {
    if args == [] then 0 else Intermediates(args[0]) + ArgsIntermediates(args[1..])
  }

  /** A declaration computes its value in the variable's own register. */
  function Temporaries(s: Stmt): nat {
    match s
    case Declare(_, init) => if init.Access? then 0 else Intermediates(init) - 1
    case Assign(_, _, _, value) => Intermediates(value)
    case Evaluate(e) => Intermediates(e)
    case If(cond) => Intermediates(cond.test)
    case While(test, _) => Intermediates(test)
    case Return(result) => if result.Some? then Intermediates(result.value) else 0
  }

  // ----- what it takes -----

  /** Every constant is carried by its word, or listed. */
  predicate Listed(m: Constants, e: Expr)
    decreases e
  {
    match e
    case Constant(ty, v) => FitsInBytecode(ty, v) || (ty, v) in if Is64(ty) then m.bits64 else m.bits32
    case Access(_) => true
    case Dual(_, _, l, r) => Listed(m, l) && Listed(m, r)
    case Comparison(_, _, l, r) => Listed(m, l) && Listed(m, r)
    case Single(_, _, operand) => Listed(m, operand)
    case Call(_, args) => ArgsListed(m, args)
  }

  predicate ArgsListed(m: Constants, args: seq<Expr>)
    decreases args
  {
    args == [] || (Listed(m, args[0]) && ArgsListed(m, args[1..]))
  }

  /** With `live` registers taken; a called function takes one more while its arguments are computed. */
  predicate ExprCodable(m: Constants, live: nat, e: Expr) {
    Listed(m, e) && live <= 250 && (!CallFree(e) ==> live < 250)
  }

  predicate StmtCodable(m: Constants, live: nat, s: Stmt)
    decreases s, 1
  {
    if s.If? then ConditionCodable(m, live, s.cond) else VisitCodable(m, live + Temporaries(s), s)
  }

  /** The same, the temporaries already counted; a loop's stay while its body runs. */
  predicate VisitCodable(m: Constants, live: nat, s: Stmt)
    requires !s.If?
    decreases s, 0
  {
    match s
    case Declare(_, init) => ExprCodable(m, live, init)
    case Assign(_, _, _, value) => ExprCodable(m, live, value)
    case Evaluate(e) => ExprCodable(m, live, e)
    case While(test, body) =>
      && ExprCodable(m, live, test) && BlockCodable(m, live, body)
      && ExprWords(test) + StmtsWords(body.stmts) + 2 < 32768 && StmtsWords(body.stmts) + 1 < 32767
    case Return(result) => result.Some? ==> ExprCodable(m, live, result.value)
  }

  predicate StmtsCodable(m: Constants, live: nat, ss: seq<Stmt>)
    decreases ss
  {
    ss == [] || (StmtCodable(m, live, ss[0]) && StmtsCodable(m, live, ss[1..]))
  }

  predicate BlockCodable(m: Constants, live: nat, b: Block)
    decreases b
  {
    live + |b.vars| <= 250 && StmtsCodable(m, live + |b.vars|, b.stmts)
  }

  predicate ConditionCodable(m: Constants, live: nat, c: Condition)
    decreases c
  {
    && ExprCodable(m, live + Intermediates(c.test), c.test) && BlockCodable(m, live, c.onTrue)
    && match c.onFalse
       case NoElse => StmtsWords(c.onTrue.stmts) < 32767
       case Elif(cond) =>
         StmtsWords(c.onTrue.stmts) + 1 < 32767 && ConditionWords(cond) < 32767 && ConditionCodable(m, live, cond)
       case Else(block) =>
         StmtsWords(c.onTrue.stmts) + 1 < 32767 && StmtsWords(block.stmts) < 32767 && BlockCodable(m, live, block)
  }

  /**
    A parameter has its register when the scope is registered and asks for it again, which
    is refused when none is left: all 250 can be used only if the last variable of the
    scope is not a parameter.
   */
  predicate FunctionCodable(m: Constants, f: FunctionDecl) {
    var vars := f.body.vars;
    && (|vars| < 250 || (|vars| == 250 && vars[249] !in ParameterNames(f.params)))
    && StmtsCodable(m, |vars|, f.body.stmts) && StmtsWords(f.body.stmts) + 1 < 65535
  }

  // ----- scopes as the symbol-tree builder makes them -----

  predicate Declares(ss: seq<Stmt>, v: string) {
    exists i :: 0 <= i < |ss| && ss[i].Declare? && ss[i].name == v
  }

  predicate DistinctVars(vars: seq<string>) {
    forall i, j :: 0 <= i < j < |vars| ==> vars[i] != vars[j]
  }

  /** A scope lists each variable once, and only those that it declares. */
  predicate BlockScoped(b: Block)
    decreases b
  {
    DistinctVars(b.vars) && (forall v :: v in b.vars ==> Declares(b.stmts, v)) && StmtsScoped(b.stmts)
  }

  predicate StmtsScoped(ss: seq<Stmt>)
    decreases ss
  {
    ss == [] || (StmtScoped(ss[0]) && StmtsScoped(ss[1..]))
  }

  predicate StmtScoped(s: Stmt)
    decreases s
  {
    match s
    case If(cond) => ConditionScoped(cond)
    case While(_, body) => BlockScoped(body)
    case _ => true
  }

  predicate ConditionScoped(c: Condition)
    decreases c
  {
    && BlockScoped(c.onTrue)
    && match c.onFalse
       case NoElse => true
       case Elif(cond) => ConditionScoped(cond)
       case Else(block) => BlockScoped(block)
  }

  /** A function's scope lists its parameters too. */
  predicate FunctionScoped(f: FunctionDecl) {
    && DistinctVars(f.body.vars) && StmtsScoped(f.body.stmts)
    && forall v :: v in f.body.vars ==> v in ParameterNames(f.params) || Declares(f.body.stmts, v)
  }

  // ----- registers -----

  lemma FullIff(p: Pool)
    requires Inv(p)
    ensures Full(p) <==> Live(p) >= 250
    ensures Live(p) <= 250
  {
  }

  lemma SameLive(p: Pool, q: Pool)
    requires SameOwners(p, q)
    ensures Live(p) == Live(q)
  {
  }

  lemma {:induction false} IntermediateTemps(e: Expr)
    ensures TempCount(e) == Intermediates(e)
    decreases e
  {
    match e
    case Constant(_, _) =>
    case Access(_) =>
    case Dual(_, _, l, r) =>
      IntermediateTemps(l);
      IntermediateTemps(r);
    case Comparison(_, _, l, r) =>
      IntermediateTemps(l);
      IntermediateTemps(r);
    case Single(_, _, operand) =>
      IntermediateTemps(operand);
    case Call(_, args) =>
      ArgsTemps(args);
  }

  lemma {:induction false} ArgsTemps(args: seq<Expr>)
    ensures ArgsTempCount(args) == ArgsIntermediates(args)
    decreases args
  {
    if args != [] {
      IntermediateTemps(args[0]);
      ArgsTemps(args[1..]);
    }
  }

  lemma StmtTemporaries(s: Stmt)
    ensures !s.If? ==> Temporaries(s) == StmtTempCount(s) - if s.Declare? && !s.init.Access? then 1 else 0
  {
    match s
    case Declare(_, init) => IntermediateTemps(init);
    case Assign(_, _, _, value) => IntermediateTemps(value);
    case Evaluate(e) => IntermediateTemps(e);
    case While(test, _) => IntermediateTemps(test);
    case Return(result) => if result.Some? { IntermediateTemps(result.value); }
    case _ =>
  }

  predicate TempsThere(p: Pool, level: nat, from: nat, end: nat) {
    forall t: nat :: from <= t < end ==> Temp(level, t) in p.owner
  }

  /** Temporaries are allocated in order as long as there are registers. */
  lemma {:induction false} TempsAllocated(p: Pool, level: nat, from: nat, end: nat)
    requires Inv(p) && from <= end && Live(p) + (end - from) <= 250
    requires forall k :: k in p.owner ==> !TempIn(k, level, from, end)
    ensures var q := AllocateTemps(p, level, from, end);
            Inv(q) && q.temps == p.temps && Live(q) == Live(p) + (end - from) && TempsThere(q, level, from, end)
    decreases end - from
  {
    hide Inv, Live;
    if from < end {
      var k := Temp(level, from);
      assert TempIn(k, level, from, end);
      OneAllocated(p, k);
      var p1 := Allocate(p, k);
      AllocateInv(p, k);
      TempsAllocated(p1, level, from + 1, end);
      AllocateTempsOwners(p1, level, from + 1, end);
    } else {
      hide TempsThere;
      assert TempsThere(p, level, from, end) by { NoTemps(p, level, from, end); }
    }
  }

  lemma NoTemps(p: Pool, level: nat, from: nat, end: nat)
    requires from >= end
    ensures TempsThere(p, level, from, end)
  {
  }

  /** When they do not fit, one is missing and the registers are all taken. */
  lemma {:induction false} TempsRefused(p: Pool, level: nat, from: nat, end: nat) returns (t: nat)
    requires Inv(p) && from <= end && Live(p) + (end - from) > 250
    requires forall k :: k in p.owner ==> !TempIn(k, level, from, end)
    ensures var q := AllocateTemps(p, level, from, end);
            Inv(q) && Live(q) >= 250 && from <= t < end && Temp(level, t) !in q.owner
    decreases end - from
  {
    hide Inv, Live;
    FullIff(p);
    var k := Temp(level, from);
    assert TempIn(k, level, from, end);
    OneAllocated(p, k);
    if Live(p) >= 250 {
      t := from;
    } else {
      var p1 := Allocate(p, k);
      AllocateInv(p, k);
      t := TempsRefused(p1, level, from + 1, end);
    }
  }

  lemma OneAllocated(p: Pool, k: Key)
    requires Inv(p) && k !in p.owner
    ensures Allocated(p, k) == UNUSED <==> Live(p) >= 250
    ensures Live(p) < 250 ==>
              && Allocate(p, k).owner.Keys == p.owner.Keys + {k} && Allocate(p, k).temps == p.temps
              && Live(Allocate(p, k)) == Live(p) + 1
  {
    FullIff(p);
    hide Inv;
    if !Full(p) {
      TakenInv(p);
      var owner := p.owner[k := Next(p)];
      assert owner - {k} == p.owner;
      assert |owner| == |p.owner| + 1;
    }
  }

  // ----- the variables of a scope -----

  /** The keys of variables that are not there yet. */
  predicate Fresh(p: Pool, level: nat, vars: seq<string>) {
    forall v :: v in vars ==> Named(v, level) !in p.owner
  }

  function WithVars(p: Pool, level: nat, vars: seq<string>): set<Key> {
    p.owner.Keys + TableKeys(vars, level)
  }

  lemma {:induction false} VarsCounted(keys: set<Key>, level: nat, vars: seq<string>)
    requires DistinctVars(vars) && forall v :: v in vars ==> Named(v, level) !in keys
    ensures |keys + TableKeys(vars, level)| == |keys| + |vars|
    decreases |vars|
  {
    if vars == [] {
      assert keys + TableKeys(vars, level) == keys;
    } else {
      var k := Named(vars[0], level);
      VarsCounted(keys + {k}, level, vars[1..]);
      assert keys + {k} + TableKeys(vars[1..], level) == keys + TableKeys(vars, level);
    }
  }

  lemma OneVar(p: Pool, k: Key)
    requires Inv(p)
    ensures Allocated(p, k) == UNUSED <==> Live(p) >= 250
    ensures Live(p) < 250 ==> Allocate(p, k).owner.Keys == p.owner.Keys + {k} && Allocate(p, k).temps == p.temps
    ensures Inv(Allocate(p, k))
  {
    FullIff(p);
    AllocateInv(p, k);
    hide Inv;
    if k !in p.owner {
      OneAllocated(p, k);
    }
  }

  /** What is left to allocate after the first variable. */
  lemma RestVars(p: Pool, p1: Pool, level: nat, vars: seq<string>)
    requires vars != [] && p1.owner.Keys == p.owner.Keys + {Named(vars[0], level)}
    ensures WithVars(p1, level, vars[1..]) == WithVars(p, level, vars)
    ensures |vars| > 1 ==> WithVars(p1, level, vars[1..][..|vars| - 2]) == WithVars(p, level, vars[..|vars| - 1])
    ensures |vars| == 1 ==> WithVars(p, level, vars[..|vars| - 1]) == p.owner.Keys
  {
    TableSplit(level, vars);
    if |vars| > 1 {
      assert vars[1..][..|vars| - 2] == vars[..|vars| - 1][1..];
      TableSplit(level, vars[..|vars| - 1]);
    }
  }

  lemma TableSplit(level: nat, vars: seq<string>)
    requires vars != []
    ensures TableKeys(vars, level) == {Named(vars[0], level)} + TableKeys(vars[1..], level)
  {
  }

  /** The last variable is refused when all the others, and what was there before, take every register. */
  lemma {:induction false} VarsAllocated(p: Pool, level: nat, vars: seq<string>)
    requires Inv(p)
    ensures VarsFit(p, level, vars) <==> vars == [] || |WithVars(p, level, vars[..|vars| - 1])| + |p.temps| < 250
    decreases |vars|
  {
    hide Inv, WithVars;
    if vars != [] {
      var k := Named(vars[0], level);
      OneVar(p, k);
      if Live(p) >= 250 {
        OwnersFew(p, level, vars[..|vars| - 1]);
      } else {
        var p1 := Allocate(p, k);
        RestVars(p, p1, level, vars);
        VarsAllocated(p1, level, vars[1..]);
      }
    }
  }

  lemma OwnersFew(p: Pool, level: nat, vars: seq<string>)
    ensures Live(p) <= |WithVars(p, level, vars)| + |p.temps|
  {
    More(p.owner.Keys, WithVars(p, level, vars));
    assert |p.owner| == |p.owner.Keys|;
  }

  lemma {:induction false} AllAllocated(p: Pool, level: nat, vars: seq<string>)
    requires Inv(p) && VarsFit(p, level, vars)
    ensures var q := AllocateVars(p, level, vars);
            Inv(q) && q.temps == p.temps && q.owner.Keys == WithVars(p, level, vars)
    decreases |vars|
  {
    hide Inv, WithVars;
    if vars != [] {
      var k := Named(vars[0], level);
      OneVar(p, k);
      var p1 := Allocate(p, k);
      RestVars(p, p1, level, vars);
      AllAllocated(p1, level, vars[1..]);
    } else {
      assert WithVars(p, level, vars) == p.owner.Keys by { NoVars(p, level); }
    }
  }

  lemma NoVars(p: Pool, level: nat)
    ensures WithVars(p, level, []) == p.owner.Keys
  {
  }

  lemma More(a: set<Key>, b: set<Key>)
    requires a <= b
    ensures |a| <= |b|
  {
    assert a + (b - a) == b;
  }

  /** A block's variables all get registers exactly when there are enough left. */
  lemma BlockVars(p: Pool, level: nat, vars: seq<string>)
    requires Inv(p) && DistinctVars(vars) && Fresh(p, level, vars)
    ensures var q := AllocateVars(p, level, vars);
            && Inv(q) && q.temps == p.temps
            && (Live(p) + |vars| <= 250 ==>
                  Live(q) == Live(p) + |vars| && q.owner.Keys == p.owner.Keys + TableKeys(vars, level))
            && (Live(p) + |vars| > 250 ==> exists v :: v in vars && Named(v, level) !in q.owner)
  {
    hide Inv;
    var q := AllocateVars(p, level, vars);
    VarsAllocated(p, level, vars);
    VarsCounted(p.owner.Keys, level, vars);
    AllocateVarsOwners(p, level, vars);
    FullIff(p);
    FullIff(q);
    if vars != [] {
      VarsCounted(p.owner.Keys, level, vars[..|vars| - 1]);
    }
    if VarsFit(p, level, vars) {
      AllAllocated(p, level, vars);
    }
    if Live(p) + |vars| > 250 && forall v :: v in vars ==> Named(v, level) in q.owner {
      More(WithVars(p, level, vars), q.owner.Keys);
      assert false;
    }
  }

  // ----- expressions -----

  /** Every declared variable is listed by its scope, and every listed one has a register. */
  predicate Registered(cx: Context, p: Pool) {
    cx.types.Keys <= cx.scopes.tables <= p.owner.Keys
  }

  lemma RegisteredLater(cx: Context, p: Pool, q: Pool)
    requires Registered(cx, p) && p.owner.Keys <= q.owner.Keys
    ensures Registered(cx, q)
  {
  }

  /** The last node of an expression puts its value in the target, the others have temporaries. */
  predicate Prepared(p: Pool, level: nat, c: nat, e: Expr, target: Option<Key>) {
    if target.Some? && !e.Access? then target.value in p.owner && TempsThere(p, level, c, c + Intermediates(e) - 1)
    else TempsThere(p, level, c, c + Intermediates(e))
  }

  lemma TempsPart(p: Pool, level: nat, from: nat, end: nat, i: nat, j: nat)
    requires TempsThere(p, level, from, end) && from <= i && j <= end
    ensures TempsThere(p, level, i, j)
  {
  }

  /** The registers an expression writes to are there. */
  lemma ResultThere(p: Pool, sc: Scopes, c: nat, e: Expr, target: Option<Key>)
    requires sc.depth > 0 && Prepared(p, sc.depth - 1, c, e, target) && !e.Access?
    ensures ResultKey(sc, c, e, target) in p.owner
  {
    IntermediateTemps(e);
  }

  lemma VariableThere(p: Program, cx: Context, q: Pool, name: string)
    requires cx.scopes.depth > 0 && TypeOf(p, cx, Access(name)).Some? && Registered(cx, q)
    ensures Resolve(cx.scopes.tables, cx.scopes.depth, name).Some?
    ensures ResultKey(cx.scopes, 0, Access(name), None) in q.owner
    ensures forall c, target :: ResultKey(cx.scopes, c, Access(name), target) in q.owner
  {
  }

  lemma {:induction false} ListedAt(table: seq<(Ty, int)>, entry: (Ty, int))
    ensures IndexOf(table, entry).Some? <==> entry in table
  {
    if table != [] && table[0] != entry {
      ListedAt(table[1..], entry);
    }
  }

  lemma RegisterThere(p: Pool, k: Key)
    requires Inv(p)
    ensures RegisterFor(p, k) == UNUSED <==> k !in p.owner
  {
  }

  /**
    An expression whose variables and temporaries have registers has code exactly when its
    constants can be loaded and a called function can have a register.
   */
  lemma {:induction false} ExprCode(p: Program, cx: Context, m: Constants, q: Pool, c: nat, e: Expr,
                                    target: Option<Key>)
    requires cx.scopes.depth > 0 && Inv(q) && TypeOf(p, cx, e).Some? && Registered(cx, q)
    requires Prepared(q, cx.scopes.depth - 1, c, e, target)
    ensures var g := GenExpr(m, cx.scopes, q, c, e, target);
            && (g.Emit? <==> ExprCodable(m, Live(q), e))
            && (g.Emit? ==> |g.code| == ExprWords(e) && SameOwners(q, g.pool))
    decreases e, 1
  {
    hide Inv, Live, Registered, Full;
    var sc, key := cx.scopes, ResultKey(cx.scopes, c, e, target);
    RegisterThere(q, key);
    FullIff(q);
    if GenExpr(m, sc, q, c, e, target).Emit? { GenExprOwners(m, sc, q, c, e, target); }
    if e.Access? {
      VariableThere(p, cx, q, e.name);
    } else {
      ResultThere(q, sc, c, e, target);
    }
    match e
    case Constant(ty, v) => ListedAt(if Is64(ty) then m.bits64 else m.bits32, (ty, v));
    case Access(_) =>
    case Dual(_, _, l, r) => OperandsCode(p, cx, m, q, c, e, target);
    case Comparison(_, _, l, r) => OperandsCode(p, cx, m, q, c, e, target);
    case Single(_, _, operand) =>
      ExprCode(p, cx, m, q, c, operand, None);
    case Call(callee, args) =>
      ArgsPrepared(q, sc.depth - 1, c, e, target);
      CallCode(p, cx, m, q, c, callee, args, Some(key));
  }

  lemma ArgsPrepared(q: Pool, level: nat, c: nat, e: Expr, target: Option<Key>)
    requires e.Call? && Prepared(q, level, c, e, target)
    ensures TempsThere(q, level, c, c + ArgsIntermediates(e.args))
  {
  }

  lemma {:induction false} OperandsCode(p: Program, cx: Context, m: Constants, q: Pool, c: nat, e: Expr,
                                        target: Option<Key>)
    requires cx.scopes.depth > 0 && Inv(q) && (e.Dual? || e.Comparison?) && TypeOf(p, cx, e).Some?
    requires Registered(cx, q) && Prepared(q, cx.scopes.depth - 1, c, e, target)
    ensures var g := GenOperands(m, cx.scopes, q, c, e);
            && (g.Operands? <==> ExprCodable(m, Live(q), e.left) && ExprCodable(m, Live(q), e.right))
            && (g.Operands? ==> |g.code| == ExprWords(e.left) + ExprWords(e.right))
    decreases e, 0
  {
    hide Inv, Live, Registered, ExprCodable;
    var sc, level := cx.scopes, cx.scopes.depth - 1;
    OperandsPrepared(q, level, c, e, target);
    ExprCode(p, cx, m, q, c, e.left, None);
    var g1 := GenExpr(m, sc, q, c, e.left, None);
    if g1.Emit? {
      SameLive(q, g1.pool);
      assert g1.pool.owner == q.owner && Inv(g1.pool);
      RegisteredLater(cx, q, g1.pool);
      IntermediateTemps(e.left);
      ExprCode(p, cx, m, g1.pool, c + TempCount(e.left), e.right, None);
    }
  }

  lemma OperandsPrepared(q: Pool, level: nat, c: nat, e: Expr, target: Option<Key>)
    requires (e.Dual? || e.Comparison?) && Prepared(q, level, c, e, target)
    ensures Prepared(q, level, c, e.left, None)
    ensures forall r: Pool :: r.owner == q.owner ==> Prepared(r, level, c + TempCount(e.left), e.right, None)
  {
    IntermediateTemps(e.left);
  }

  /** A call needs a register for the function while its arguments are computed. */
  lemma {:induction false} CallCode(p: Program, cx: Context, m: Constants, q: Pool, c: nat, callee: nat,
                                    args: seq<Expr>, result: Option<Key>)
    requires cx.scopes.depth > 0 && Inv(q) && CheckCall(p, cx, callee, args) && Registered(cx, q)
    requires TempsThere(q, cx.scopes.depth - 1, c, c + ArgsIntermediates(args))
    requires result.Some? ==> result.value in q.owner
    ensures var g := GenCall(m, cx.scopes, q, c, callee, args, result);
            && (g.Emit? <==> ArgsListed(m, args) && Live(q) < 250)
            && (g.Emit? ==> |g.code| == ArgsWords(args) + 2)
    decreases args, 1
  {
    hide Inv, Registered, TempsThere, Live, AllocatedTemporary, AllocateTemporary;
    OneTemporary(q);
    if Live(q) < 250 {
      var q0 := AllocateTemporary(q);
      TempsKept(q, q0, cx.scopes.depth - 1, c, c + ArgsIntermediates(args));
      RegisteredLater(cx, q, q0);
      ArgsCode(p, cx, m, q0, c, p.functions[callee].params, args);
      var g := GenArgs(m, cx.scopes, q0, c, args);
      if g.Gen? {
        GenArgsOwners(m, cx.scopes, q0, c, args);
        if result.Some? {
          RegisterThere(g.pool, result.value);
        }
      }
    }
  }

  lemma OneTemporary(q: Pool)
    requires Inv(q)
    ensures AllocatedTemporary(q) == UNUSED <==> Live(q) >= 250
    ensures AllocatedTemporary(q) != UNUSED ==> AllocatedTemporary(q) >= 0
    ensures Inv(AllocateTemporary(q)) && AllocateTemporary(q).owner == q.owner
  {
    FullIff(q);
    AllocateTemporaryInv(q);
  }

  lemma TempsKept(p: Pool, q: Pool, level: nat, from: nat, end: nat)
    requires TempsThere(p, level, from, end) && p.owner == q.owner
    ensures TempsThere(q, level, from, end)
  {
  }

  lemma {:induction false} ArgsCode(p: Program, cx: Context, m: Constants, q: Pool, c: nat, params: seq<Parameter>,
                                    args: seq<Expr>)
    requires cx.scopes.depth > 0 && Inv(q) && CheckArgs(p, cx, params, args) && Registered(cx, q)
    requires TempsThere(q, cx.scopes.depth - 1, c, c + ArgsIntermediates(args))
    ensures var g := GenArgs(m, cx.scopes, q, c, args);
            && (g.Gen? <==> ArgsListed(m, args)) && (g.Gen? ==> |g.code| == ArgsWords(args))
    decreases args, 0
  {
    hide Inv, Registered, TempsThere;
    if args != [] {
      var sc, level := cx.scopes, cx.scopes.depth - 1;
      FullIff(q);
      TempsPart(q, level, c, c + ArgsIntermediates(args), c, c + Intermediates(args[0]));
      TempsPart(q, level, c, c + ArgsIntermediates(args), c + Intermediates(args[0]), c + ArgsIntermediates(args));
      ExprCode(p, cx, m, q, c, args[0], None);
      var g := GenExpr(m, sc, q, c, args[0], None);
      if g.Emit? {
        IntermediateTemps(args[0]);
        TempsKept(q, g.pool, level, c + Intermediates(args[0]), c + ArgsIntermediates(args));
        RegisteredLater(cx, q, g.pool);
        ArgsCode(p, cx, m, g.pool, c + TempCount(args[0]), params[1..], args[1..]);
      }
    }
  }

  /** Without one of its temporaries an expression has no code. */
  lemma {:induction false} TempMissing(m: Constants, sc: Scopes, q: Pool, c: nat, e: Expr, target: Option<Key>, t: nat)
    requires sc.depth > 0 && Inv(q) && Temp(sc.depth - 1, t) !in q.owner
    requires c <= t < c + Intermediates(e) - if target.Some? && !e.Access? then 1 else 0
    ensures GenExpr(m, sc, q, c, e, target).Throw?
    decreases e, 1
  {
    hide Inv;
    IntermediateTemps(e);
    var key := ResultKey(sc, c, e, target);
    RegisterThere(q, key);
    match e
    case Constant(_, _) =>
    case Access(_) =>
    case Dual(_, _, l, r) => OperandMissing(m, sc, q, c, e, target, t);
    case Comparison(_, _, l, r) => OperandMissing(m, sc, q, c, e, target, t);
    case Single(_, _, operand) =>
      if t < c + Intermediates(operand) {
        TempMissing(m, sc, q, c, operand, None, t);
      } else if GenExpr(m, sc, q, c, operand, None).Emit? {
        GenExprOwners(m, sc, q, c, operand, None);
      }
    case Call(callee, args) =>
      if GenExpr(m, sc, q, c, e, target).Emit? {
        GenCallOwners(m, sc, q, c, callee, args, Some(key));
      }
      if t < c + ArgsIntermediates(args) {
        ArgMissing(m, sc, AllocateTemporary(q), c, args, t) by { AllocateTemporaryInv(q); }
      }
  }

  lemma {:induction false} OperandMissing(m: Constants, sc: Scopes, q: Pool, c: nat, e: Expr, target: Option<Key>,
                                          t: nat)
    requires sc.depth > 0 && Inv(q) && (e.Dual? || e.Comparison?) && Temp(sc.depth - 1, t) !in q.owner
    requires c <= t < c + Intermediates(e) - if target.Some? then 1 else 0
    ensures GenOperands(m, sc, q, c, e).NoOperands? || ResultKey(sc, c, e, target) !in q.owner
    decreases e, 0
  {
    hide Inv;
    IntermediateTemps(e);
    IntermediateTemps(e.left);
    if t < c + Intermediates(e.left) {
      TempMissing(m, sc, q, c, e.left, None, t);
    } else if t < c + Intermediates(e.left) + Intermediates(e.right) && GenExpr(m, sc, q, c, e.left, None).Emit? {
      GenExprOwners(m, sc, q, c, e.left, None);
      TempMissing(m, sc, GenExpr(m, sc, q, c, e.left, None).pool, c + TempCount(e.left), e.right, None, t);
    }
  }

  lemma {:induction false} ArgMissing(m: Constants, sc: Scopes, q: Pool, c: nat, args: seq<Expr>, t: nat)
    requires sc.depth > 0 && Inv(q) && Temp(sc.depth - 1, t) !in q.owner && c <= t < c + ArgsIntermediates(args)
    ensures GenArgs(m, sc, q, c, args).Failed?
    decreases args, 0
  {
    hide Inv;
    IntermediateTemps(args[0]);
    if t < c + Intermediates(args[0]) {
      TempMissing(m, sc, q, c, args[0], None, t);
    } else if GenExpr(m, sc, q, c, args[0], None).Emit? {
      GenExprOwners(m, sc, q, c, args[0], None);
      ArgMissing(m, sc, GenExpr(m, sc, q, c, args[0], None).pool, c + TempCount(args[0]), args[1..], t);
    }
  }

  // ----- statements -----

  lemma {:induction false} StmtCode(p: Program, cx: Context, result: Option<Ty>, m: Constants, q: Pool, c: nat, s: Stmt)
    requires cx.scopes.depth > 0 && CheckStmt(p, cx, result, s).Some? && StmtScoped(s)
    requires Fits(q, cx.scopes.depth, c) && Registered(cx, q)
    ensures var g := GenStmt(m, cx.scopes, ResultFlags(p.functions), q, c, s);
            && (g.Gen? <==> StmtCodable(m, Live(q), s))
            && (g.Gen? ==> |g.code| == StmtWords(s))
    decreases s, 1
  {
    hide Inv, Live, Registered, Fits, VisitCodable, ConditionCodable, CheckStmt, TempsThere, GenVisit, GenCondition,
         AllocateTemps, DeallocateTemps, StmtWords, Temporaries, StmtScoped;
    var sc, n := cx.scopes, Temporaries(s);
    if s.If? {
      ConditionChecked(p, cx, result, m, Live(q), s);
      ConditionCode(p, cx, result, m, q, c, s.cond);
    } else {
      StmtTemporaries(s);
      var q1 := AllocateTemps(q, sc.depth - 1, c, c + n);
      TempsOpened(q, sc.depth, c, n);
      AllocateTempsOwners(q, sc.depth - 1, c, c + n);
      if Live(q) + n <= 250 {
        TempsAllocated(q, sc.depth - 1, c, c + n);
        RegisteredLater(cx, q, q1);
        VisitCode(p, cx, result, m, q1, c + n, c, s);
      } else {
        var t := TempsRefused(q, sc.depth - 1, c, c + n);
        VisitRefused(m, sc, ResultFlags(p.functions), q1, c, s, t);
        NotCodable(m, Live(q) + n, s);
      }
    }
  }

  lemma ConditionChecked(p: Program, cx: Context, result: Option<Ty>, m: Constants, live: nat, s: Stmt)
    requires cx.scopes.depth > 0 && s.If? && CheckStmt(p, cx, result, s).Some? && StmtScoped(s)
    ensures CheckCondition(p, cx, result, s.cond) && ConditionScoped(s.cond) && StmtWords(s) == ConditionWords(s.cond)
  {
  }

  /** The temporaries of a statement are new to the pool. */
  lemma TempsOpened(q: Pool, depth: nat, c: nat, n: nat)
    requires depth > 0 && Fits(q, depth, c)
    ensures Inv(q) && (forall k :: k in q.owner ==> !TempIn(k, depth - 1, c, c + n))
    ensures Fits(AllocateTemps(q, depth - 1, c, c + n), depth, c + n)
  {
    FitsOpened(q, depth, c, c, c + n);
  }

  lemma NotCodable(m: Constants, live: nat, s: Stmt)
    requires !s.If? && live > 250 && Temporaries(s) > 0
    ensures !VisitCodable(m, live, s)
  {
  }

  lemma VisitRefused(m: Constants, sc: Scopes, results: seq<bool>, q: Pool, c: nat, s: Stmt, t: nat)
    requires sc.depth > 0 && !s.If? && Inv(q) && Live(q) >= 250
    requires c <= t < c + Temporaries(s) && Temp(sc.depth - 1, t) !in q.owner
    ensures GenVisit(m, sc, results, q, c, s).Failed?
  {
    hide Inv, Live;
    match s
    case Declare(name, init) => TempMissing(m, sc, q, c, init, Some(Named(name, sc.depth - 1)), t);
    case Assign(name, _, _, value) =>
      AccessEmitsNothing(m, sc, q, c, name);
      TempMissing(m, sc, q, c, value, None, t);
    case Evaluate(e) =>
      TempMissing(m, sc, q, c, e, None, t);
      OneTemporary(q);
    case While(test, _) => TempMissing(m, sc, q, c, test, None, t);
    case Return(result) => TempMissing(m, sc, q, c, result.value, None, t);
  }

  lemma {:induction false} VisitCode(p: Program, cx: Context, result: Option<Ty>, m: Constants, q: Pool, live: nat,
                                     c: nat, s: Stmt)
    requires cx.scopes.depth > 0 && !s.If? && CheckStmt(p, cx, result, s).Some? && StmtScoped(s)
    requires Fits(q, cx.scopes.depth, live) && Registered(cx, q)
    requires TempsThere(q, cx.scopes.depth - 1, c, c + Temporaries(s))
    ensures var g := GenVisit(m, cx.scopes, ResultFlags(p.functions), q, c, s);
            && (g.Gen? <==> VisitCodable(m, Live(q), s))
            && (g.Gen? ==> |g.code| == StmtWords(s))
    decreases s, 0
  {
    hide Inv, Live, TempsThere, ExprCodable;
    var sc := cx.scopes;
    match s
    case Declare(name, init) =>
      var key := Named(name, sc.depth - 1);
      RegisterThere(q, key);
      ExprCode(p, cx, m, q, c, init, Some(key));
    case Assign(name, assign, ty, value) =>
      VariableThere(p, cx, q, name);
      RegisterThere(q, ResultKey(sc, c, Access(name), None));
      AccessEmitsNothing(m, sc, q, c, name);
      ExprCode(p, cx, m, q, c, value, None);
    case Evaluate(e) => EvaluateCode(p, cx, m, q, c, e);
    case While(test, body) =>
      ExprCode(p, cx, m, q, c, test, None);
      var g := GenExpr(m, sc, q, c, test, None);
      if g.Emit? {
        SameLive(q, g.pool);
        FitsSame(q, g.pool, sc.depth, live);
        BlockCode(p, cx, result, m, g.pool, live, body);
      }
    case Return(value) =>
      if value.Some? {
        ExprCode(p, cx, m, q, c, value.value, None);
      }
  }

  lemma FitsSame(p: Pool, q: Pool, depth: nat, live: nat)
    requires Fits(p, depth, live) && SameOwners(p, q)
    ensures Fits(q, depth, live) && q.owner == p.owner
  {
  }

  /** A call without a result leaves its last temporary unused. */
  lemma EvaluateCode(p: Program, cx: Context, m: Constants, q: Pool, c: nat, e: Expr)
    requires cx.scopes.depth > 0 && Inv(q) && Registered(cx, q)
    requires TypeOf(p, cx, e).Some? || (e.Call? && CheckCall(p, cx, e.callee, e.args))
    requires TempsThere(q, cx.scopes.depth - 1, c, c + Intermediates(e))
    ensures var results, s := ResultFlags(p.functions), Evaluate(e);
            var g := GenVisit(m, cx.scopes, results, q, c, s);
            && (g.Gen? <==> ExprCodable(m, Live(q), e))
            && (g.Gen? ==> |g.code| == ExprWords(e))
  {
    hide Inv, Live, Registered;
    FullIff(q);
    if HasResult(ResultFlags(p.functions), e) || !e.Call? {
      ExprCode(p, cx, m, q, c, e, None);
    } else {
      ArgsPrepared(q, cx.scopes.depth - 1, c, e, None);
      CallCode(p, cx, m, q, c, e.callee, e.args, None);
    }
  }

  lemma {:induction false} StmtsCode(p: Program, cx: Context, result: Option<Ty>, m: Constants, q: Pool, c: nat,
                                     ss: seq<Stmt>)
    requires cx.scopes.depth > 0 && CheckStmts(p, cx, result, ss) && StmtsScoped(ss)
    requires Fits(q, cx.scopes.depth, c) && Registered(cx, q)
    ensures var g := GenStmts(m, cx.scopes, ResultFlags(p.functions), q, c, ss);
            && (g.Gen? <==> StmtsCodable(m, Live(q), ss))
            && (g.Gen? ==> |g.code| == StmtsWords(ss))
    decreases ss, 0
  {
    hide Inv, Live, Registered, Fits, StmtCodable;
    if ss != [] {
      StmtCode(p, cx, result, m, q, c, ss[0]);
      var g := GenStmt(m, cx.scopes, ResultFlags(p.functions), q, c, ss[0]);
      if g.Gen? {
        GenStmtOwners(m, cx.scopes, ResultFlags(p.functions), q, c, ss[0]);
        SameLive(q, g.pool);
        NextStmt(p, cx, result, q, g.pool, c, ss[0]);
        StmtsCode(p, CheckStmt(p, cx, result, ss[0]).value, result, m, g.pool, c + StmtTempCount(ss[0]), ss[1..]);
      }
    }
  }

  lemma NextStmt(p: Program, cx: Context, result: Option<Ty>, q: Pool, r: Pool, c: nat, s: Stmt)
    requires cx.scopes.depth > 0 && CheckStmt(p, cx, result, s).Some? && SameOwners(q, r)
    requires Fits(q, cx.scopes.depth, c) && Registered(cx, q)
    ensures var next := CheckStmt(p, cx, result, s).value;
            && next.scopes == cx.scopes && Registered(next, r)
            && Fits(r, cx.scopes.depth, c + StmtTempCount(s))
  {
    hide Inv;
  }

  lemma {:induction false} BlockCode(p: Program, cx: Context, result: Option<Ty>, m: Constants, q: Pool, live: nat,
                                     b: Block)
    requires CheckBlock(p, cx, result, b) && BlockScoped(b) && Fits(q, cx.scopes.depth, live) && Registered(cx, q)
    ensures var g := GenBlock(m, cx.scopes, ResultFlags(p.functions), q, b);
            && (g.Gen? <==> BlockCodable(m, Live(q), b))
            && (g.Gen? ==> |g.code| == StmtsWords(b.stmts))
    decreases b, 0
  {
    hide Inv, Live, StmtsCodable, GenStmts, AllocateVars, DeallocateVars, StmtsScoped, CheckStmts, SameOwners;
    var sc := cx.scopes;
    var inner, q1 := Context(cx.types, OpenScope(sc, b.vars)), AllocateVars(q, sc.depth, b.vars);
    BlockVars(q, sc.depth, b.vars);
    BlockFits(q, sc.depth, live, b.vars);
    if Live(q) + |b.vars| <= 250 {
      StmtsCode(p, inner, result, m, q1, 0, b.stmts);
    } else {
      var v :| v in b.vars && Named(v, sc.depth) !in q1.owner;
      DeclareMissing(m, inner.scopes, ResultFlags(p.functions), q1, 0, b.stmts, v);
    }
  }

  /** A declared variable without a register is refused. */
  lemma {:induction false} DeclareMissing(m: Constants, sc: Scopes, results: seq<bool>, q: Pool, c: nat, ss: seq<Stmt>,
                                          v: string)
    requires sc.depth > 0 && Fits(q, sc.depth, c) && Named(v, sc.depth - 1) !in q.owner && Declares(ss, v)
    ensures GenStmts(m, sc, results, q, c, ss).Failed?
    decreases ss
  {
    hide Inv;
    var s := ss[0];
    if s.Declare? && s.name == v {
      var n := StmtTempCount(s) - if !s.init.Access? then 1 else 0;
      AllocateTempsOwners(q, sc.depth - 1, c, c + n);
      DeclareRefused(m, sc, results, AllocateTemps(q, sc.depth - 1, c, c + n), c, s);
    } else if GenStmt(m, sc, results, q, c, s).Gen? {
      GenStmtOwners(m, sc, results, q, c, s);
      var i :| 0 <= i < |ss| && ss[i].Declare? && ss[i].name == v;
      assert ss[1..][i - 1] == ss[i];
      DeclareMissing(m, sc, results, GenStmt(m, sc, results, q, c, s).pool, c + StmtTempCount(s), ss[1..], v);
    }
  }

  lemma DeclareRefused(m: Constants, sc: Scopes, results: seq<bool>, q: Pool, c: nat, s: Stmt)
    requires sc.depth > 0 && Inv(q) && s.Declare? && Named(s.name, sc.depth - 1) !in q.owner
    ensures GenVisit(m, sc, results, q, c, s).Failed?
  {
    RegisterThere(q, Named(s.name, sc.depth - 1));
    hide Inv;
  }

  lemma {:induction false} ConditionCode(p: Program, cx: Context, result: Option<Ty>, m: Constants, q: Pool, c: nat,
                                         cond: Condition)
    requires cx.scopes.depth > 0 && CheckCondition(p, cx, result, cond) && ConditionScoped(cond)
    requires Fits(q, cx.scopes.depth, c) && Registered(cx, q)
    ensures var g := GenCondition(m, cx.scopes, ResultFlags(p.functions), q, c, cond);
            && (g.Gen? <==> ConditionCodable(m, Live(q), cond))
            && (g.Gen? ==> |g.code| == ConditionWords(cond))
    decreases cond, 0
  {
    hide Inv, Live, Registered, Fits, ExprCodable, BlockCodable, TempsThere, GenExpr, GenBlock, GenTail, AllocateTemps,
         DeallocateTemps, SameOwners, TypeOf, CheckBlock, BlockScoped, PackDstValue, PackValue;
    var sc, results, n := cx.scopes, ResultFlags(p.functions), TempCount(cond.test);
    var q1 := AllocateTemps(q, sc.depth - 1, c, c + n);
    TestCode(p, cx, m, q, c, cond.test);
    var g := GenExpr(m, sc, q1, c, cond.test, None);
    if g.Emit? {
      var q2 := DeallocateTemps(g.pool, sc.depth - 1, c, c + n);
      FitsSame(q, q2, sc.depth, c);
      SameLive(q, q2);
      RegisteredLater(cx, q, q2);
      BlockCode(p, cx, result, m, q2, c, cond.onTrue);
      var b := GenBlock(m, sc, results, q2, cond.onTrue);
      if b.Gen? && !cond.onFalse.NoElse? {
        GenBlockOwners(m, sc, results, q2, c, cond.onTrue);
        SameLive(q2, b.pool);
        TailFits(cx, q2, b.pool, c);
        TailCode(p, Context(cx.types, OpenScope(sc, [])), result, m, b.pool, cond.onFalse);
      }
    }
  }

  /** The test of a condition, whose temporaries are given back at once. */
  lemma TestCode(p: Program, cx: Context, m: Constants, q: Pool, c: nat, test: Expr)
    requires cx.scopes.depth > 0 && TypeOf(p, cx, test).Some?
    requires Fits(q, cx.scopes.depth, c) && Registered(cx, q)
    ensures var sc, n := cx.scopes, TempCount(test);
            var g := GenExpr(m, sc, AllocateTemps(q, sc.depth - 1, c, c + n), c, test, None);
            && (g.Emit? <==> ExprCodable(m, Live(q) + Intermediates(test), test))
            && (g.Emit? ==> |g.code| == ExprWords(test)
                            && SameOwners(q, DeallocateTemps(g.pool, sc.depth - 1, c, c + n)))
  {
    hide Inv, Live, Registered, TempsThere, GenExpr, AllocateTemps, DeallocateTemps, ExprCodable, Fits, TypeOf;
    var sc, n := cx.scopes, TempCount(test);
    IntermediateTemps(test);
    var q1 := AllocateTemps(q, sc.depth - 1, c, c + n);
    TempsOpened(q, sc.depth, c, n);
    FitsOpened(q, sc.depth, c, c, c + n);
    AllocateTempsOwners(q, sc.depth - 1, c, c + n);
    if Live(q) + n <= 250 {
      TempsAllocated(q, sc.depth - 1, c, c + n);
      RegisteredLater(cx, q, q1);
      ExprCode(p, cx, m, q1, c, test, None);
    } else {
      var t := TempsRefused(q, sc.depth - 1, c, c + n);
      TempMissing(m, sc, q1, c, test, None, t);
      TooMany(m, Live(q) + n, test);
    }
  }

  lemma TooMany(m: Constants, live: nat, e: Expr)
    requires live > 250
    ensures !ExprCodable(m, live, e)
  {
  }

  lemma TailFits(cx: Context, q: Pool, r: Pool, c: nat)
    requires Fits(q, cx.scopes.depth, c) && SameOwners(q, r) && Registered(cx, q)
    ensures Fits(r, cx.scopes.depth + 1, 0) && Registered(Context(cx.types, OpenScope(cx.scopes, [])), r)
  {
    assert TableKeys([], cx.scopes.depth) == {};
  }

  lemma {:induction false} TailCode(p: Program, cx: Context, result: Option<Ty>, m: Constants, q: Pool, t: Tail)
    requires cx.scopes.depth > 0 && !t.NoElse? && Fits(q, cx.scopes.depth, 0) && Registered(cx, q)
    requires match t
             case NoElse => true
             case Elif(cond) => CheckCondition(p, cx, result, cond) && ConditionScoped(cond)
             case Else(block) => CheckBlock(p, cx, result, block) && BlockScoped(block)
    ensures var g := GenTail(m, cx.scopes, ResultFlags(p.functions), q, t);
            && (g.Gen? <==> if t.Elif? then ConditionCodable(m, Live(q), t.cond) else BlockCodable(m, Live(q), t.block))
            && (g.Gen? ==> |g.code| == TailWords(t))
    decreases t, 0
  {
    match t
    case Elif(cond) => ConditionCode(p, cx, result, m, q, 0, cond);
    case Else(block) => BlockCode(p, cx, result, m, q, 0, block);
  }

  // ----- functions -----

  lemma ParametersDistinct(f: FunctionDecl)
    requires DistinctNames(f.params)
    ensures DistinctVars(ParameterNames(f.params))
  {
  }

  /** The parameters take their registers first, and then the whole scope is registered. */
  lemma SetupCode(f: FunctionDecl)
    requires DistinctNames(f.params) && (forall i :: 0 <= i < |f.params| ==> f.params[i].name in f.body.vars)
    requires DistinctVars(f.body.vars)
    ensures var vars := f.body.vars;
            SetupPool(f).Some? <==> |vars| < 250 || (|vars| == 250 && vars[249] !in ParameterNames(f.params))
    ensures SetupPool(f).Some? ==>
              Live(SetupPool(f).value) == |f.body.vars| && SetupPool(f).value.owner.Keys == TableKeys(f.body.vars, 1)
  {
    hide Inv, VarsFit, AllocateVars;
    var names, vars, none := ParameterNames(f.params), f.body.vars, EMPTY_POOL;
    EmptyInv();
    ParametersDistinct(f);
    ParametersListed(f);
    VarsAllocated(none, 1, names);
    if names != [] { VarsCounted({}, 1, names[..|names| - 1]); }
    EmptyKeys(names);
    VarsCounted({}, 1, vars);
    VarsCounted({}, 1, names);
    More({} + TableKeys(names, 1), {} + TableKeys(vars, 1));
    if VarsFit(none, 1, names) {
      AllAllocated(none, 1, names);
      var q := AllocateVars(none, 1, names);
      EmptyKeys(names);
      SecondTime(q, names, vars);
    } else {
      assert |vars| >= |names| > 250;
    }
  }

  lemma EmptyInv()
    ensures Inv(EMPTY_POOL) && EMPTY_POOL.temps == {} && EMPTY_POOL.owner.Keys == {}
  {
  }

  lemma EmptyKeys(vars: seq<string>)
    ensures WithVars(EMPTY_POOL, 1, vars) == TableKeys(vars, 1) == {} + TableKeys(vars, 1)
    ensures vars != [] ==>
              WithVars(EMPTY_POOL, 1, vars[..|vars| - 1]) == {} + TableKeys(vars[..|vars| - 1], 1)
  {
  }

  lemma ParametersListed(f: FunctionDecl)
    requires forall i :: 0 <= i < |f.params| ==> f.params[i].name in f.body.vars
    ensures TableKeys(ParameterNames(f.params), 1) <= TableKeys(f.body.vars, 1)
  {
  }

  /** Registering the whole scope when some of it has registers already. */
  lemma SecondTime(q: Pool, names: seq<string>, vars: seq<string>)
    requires Inv(q) && q.temps == {} && q.owner.Keys == TableKeys(names, 1) <= TableKeys(vars, 1)
    requires DistinctVars(names) && DistinctVars(vars)
    ensures VarsFit(q, 1, vars) <==> |vars| < 250 || (|vars| == 250 && vars[249] !in names)
    ensures VarsFit(q, 1, vars) ==>
              var r := AllocateVars(q, 1, vars);
              Live(r) == |vars| && r.owner.Keys == TableKeys(vars, 1)
  {
    hide Inv, VarsFit, AllocateVars, DistinctVars, WithVars, TableKeys;
    VarsAllocated(q, 1, vars);
    TableSize(1, vars);
    AllOfThem(q, names, vars);
    if vars != [] {
      LastOfAll(q, names, vars);
    }
    if VarsFit(q, 1, vars) {
      AllAllocated(q, 1, vars);
    }
  }

  lemma TableSize(level: nat, vars: seq<string>)
    requires DistinctVars(vars)
    ensures |TableKeys(vars, level)| == |vars|
  {
    VarsCounted({}, level, vars);
    assert {} + TableKeys(vars, level) == TableKeys(vars, level);
  }

  lemma AllOfThem(q: Pool, names: seq<string>, vars: seq<string>)
    requires q.owner.Keys == TableKeys(names, 1) <= TableKeys(vars, 1)
    ensures WithVars(q, 1, vars) == TableKeys(vars, 1)
  {
  }

  lemma LastOfAll(q: Pool, names: seq<string>, vars: seq<string>)
    requires vars != [] && DistinctVars(vars) && q.owner.Keys == TableKeys(names, 1) <= TableKeys(vars, 1)
    ensures |WithVars(q, 1, vars[..|vars| - 1])| == |vars| - if vars[|vars| - 1] in names then 0 else 1
  {
    var first, last := vars[..|vars| - 1], vars[|vars| - 1];
    TableSize(1, vars);
    TableSize(1, first);
    LastKey(q, names, vars);
    hide WithVars, TableKeys;
  }

  lemma LastKey(q: Pool, names: seq<string>, vars: seq<string>)
    requires vars != [] && DistinctVars(vars) && q.owner.Keys == TableKeys(names, 1) <= TableKeys(vars, 1)
    ensures var first, last := vars[..|vars| - 1], vars[|vars| - 1];
            WithVars(q, 1, first) == if last in names then TableKeys(vars, 1) else TableKeys(first, 1)
  {
    var first, last := vars[..|vars| - 1], vars[|vars| - 1];
    assert forall v :: v in vars <==> v == last || v in first;
    assert Named(last, 1) in TableKeys(names, 1) <==> last in names;
  }

  /**
    A checked function has code exactly when its variables, temporaries and calls find
    registers, its large constants are listed, its jumps reach, and it is short enough; the
    code then has as many words as the tree says.
   */
  lemma FunctionHasCode(p: Program, m: Constants, f: FunctionDecl)
    requires CheckFunction(p, f) && FunctionScoped(f)
    ensures var g := GenFunction(m, ResultFlags(p.functions), f);
            && (g.Gen? <==> FunctionCodable(m, f))
            && (g.Gen? ==> |g.code| == StmtsWords(f.body.stmts) + 1)
  {
    hide Inv, SetupPool, Live, GenStmts, StmtsCodable, StmtsScoped, CheckStmts, Fits, DeallocateVars;
    SetupCode(f);
    if SetupPool(f).Some? {
      var q, cx := SetupPool(f).value, Context(ParameterTypes(f.params), OpenScope(FUNCTION_SCOPES, f.body.vars));
      SetupFits(f);
      ParameterKeys(f.params);
      StmtsCode(p, cx, f.result, m, q, 0, f.body.stmts);
    }
  }

  predicate ProgramScoped(p: Program) {
    forall i :: 0 <= i < |p.functions| ==> FunctionScoped(p.functions[i])
  }

  predicate AllCodable(p: Program, m: Constants) {
    forall i :: 0 <= i < |p.functions| ==> FunctionCodable(m, p.functions[i])
  }

  lemma {:induction false} ParameterKeys(params: seq<Parameter>)
    ensures forall k :: k in ParameterTypes(params) ==> exists i :: 0 <= i < |params| && k == Named(params[i].name, 1)
  {
    if params != [] {
      ParameterKeys(params[..|params| - 1]);
    }
  }
}
