/** Loops and conditions: where the patched jumps lead, given what their parts did. */
module BranchSteps {
  import opened Options
  import opened Values
  import opened Bytecode
  import opened Registers
  import opened RegisterPool
  import opened Ast
  import opened Semantics
  import opened CodeGen
  import opened CodeGenPool
  import opened Checking
  import opened Machine
  import opened CompiledSteps
  import opened CompilerRelation
  import opened ExpressionSteps
  import opened StatementSteps

  /** The code of a loop's test and of its body. */
  datatype LoopParts = LoopParts(test: Emitted, body: Generated)

  /** The words of a loop: the test, the jump past the end, the body, the jump back. */
  ghost predicate LoopCode(w: World, cx: Context, p: Pool, c: nat, st: Stmt, s: State, parts: LoopParts) {
    && cx.scopes.depth > 0 && st.While? && s.Running?
    && parts.test == GenExpr(w.m, cx.scopes, p, c, st.test, None) && parts.test.Emit? && SameOwners(p, parts.test.pool)
    && parts.body == GenBlock(w.m, cx.scopes, ResultFlags(w.p.functions), parts.test.pool, st.body) && parts.body.Gen?
       && parts.body.pool.used <= |s.regs|
    && |parts.body.code| + 1 < MAX_INT16 && |parts.test.code| + |parts.body.code| + 2 < -MIN_INT16
    && CodeAt(w.b, s.fn, s.pc + |parts.test.code|, [PackDstValue(JUMP_FALSE, parts.test.reg, |parts.body.code| + 1)])
    && CodeAt(w.b, s.fn, s.pc + |parts.test.code| + 1, parts.body.code)
    && CodeAt(w.b, s.fn, s.pc + |parts.test.code| + 1 + |parts.body.code|,
              [PackValue(JUMP, -(|parts.test.code| + |parts.body.code| + 2))])
    && var visit := GenVisit(w.m, cx.scopes, ResultFlags(w.p.functions), p, c, st);
       visit.Gen? && |visit.code| == |parts.test.code| + |parts.body.code| + 2
  }

  lemma LoopReady(w: World, fuel: nat, cx: Context, env: Env, result: Option<Ty>, p: Pool, live: nat, c: nat, st: Stmt,
                  s: State)
    returns (parts: LoopParts)
    requires VisitReady(w, fuel, cx, env, result, p, live, c, st, s) && st.While?
    ensures LoopCode(w, cx, p, c, st, s, parts)
    ensures ExprReady(w, fuel, cx, env, p, c, st.test, None, s) && TypeOf(w.p, cx, st.test).Some?
  {
    hide Inv, Compiled, Represents, GenExpr, GenBlock, Eval, ExecBlock, TypeOf, CheckBlock, PackDstValue, PackValue,
         CodeAt;
    var test := GenExpr(w.m, cx.scopes, p, c, st.test, None);
    parts := LoopParts(test, GenBlock(w.m, cx.scopes, ResultFlags(w.p.functions), test.pool, st.body));
    var out := |parts.body.code| + 1;
    GenExprOwners(w.m, cx.scopes, p, c, st.test, None);
    GenBlockOwners(w.m, cx.scopes, ResultFlags(w.p.functions), parts.test.pool, live, st.body);
    var back := -(|parts.test.code| + |parts.body.code| + 2);
    CodeSplit(w.b, s.fn, s.pc, parts.test.code + [PackDstValue(JUMP_FALSE, parts.test.reg, out)] + parts.body.code,
              [PackValue(JUMP, back)]);
    CodeSplit3(w.b, s.fn, s.pc, parts.test.code, [PackDstValue(JUMP_FALSE, parts.test.reg, out)], parts.body.code);
  }

  /** One turn of a loop, in the source. */
  lemma LoopMeaning(w: World, fuel: nat, cx: Context, env: Env, result: Option<Ty>, p: Pool, live: nat, c: nat,
                    st: Stmt, s: State)
    requires VisitReady(w, fuel, cx, env, result, p, live, c, st, s) && st.While?
    ensures CheckStmt(w.p, cx, result, st) == Some(cx) && CheckBlock(w.p, cx, result, st.body)
    ensures LoopTurn(w, fuel, cx, env, st)
  {
    hide Inv, Compiled, Represents, GenVisit, Eval, ExecBlock, TypeOf, CheckBlock, CodeAt, Fits;
  }

  ghost predicate LoopTurn(w: World, fuel: nat, cx: Context, env: Env, st: Stmt) {
    && cx.scopes.depth > 0 && st.While?
    && var o := Exec(w.p, AsCompiled, fuel, env, cx.scopes.depth, st);
       var turn := ExecBlock(w.p, AsCompiled, fuel, env, cx.scopes.depth, st.body);
    && !o.Stuck?
    && if TestOf(w, fuel, cx, env, st.test) == Some(false) then o == Normal(env)
       else if turn.Normal? then fuel > 0 && o == Exec(w.p, AsCompiled, fuel - 1, turn.env, cx.scopes.depth, st)
       else o == turn
  }

  lemma LoopLeft(w: World, fuel: nat, cx: Context, env: Env, result: Option<Ty>, p: Pool, live: nat, c: nat, st: Stmt,
                 s: State,
                 parts: LoopParts, t: State)
    requires VisitReady(w, fuel, cx, env, result, p, live, c, st, s) && CheckStmt(w.p, cx, result, st) == Some(cx)
    requires LoopCode(w, cx, p, c, st, s, parts) && LoopTurn(w, fuel, cx, env, st)
    requires TestOf(w, fuel, cx, env, st.test) == Some(false)
    requires RanTo(w, s, |parts.test.code| + 1 + (|parts.body.code| + 1), t)
             && Represents(env, cx.types, p.owner, t.regs)
    ensures VisitDone(w, fuel, cx, env, result, p, live, c, st, s, t)
  {
    hide Inv, Compiled, Represents, GenVisit, GenExpr, GenBlock, Eval, Exec, ExecBlock, TypeOf, CheckBlock, CheckStmt,
         CodeAt, Fits, Reaches;
    hide PackDstValue, PackValue, SameOwners;
  }

  lemma LoopEntered(w: World, fuel: nat, cx: Context, env: Env, result: Option<Ty>, p: Pool, live: nat, c: nat,
                    st: Stmt, s: State,
                    parts: LoopParts, t1: State)
    requires LoopCode(w, cx, p, c, st, s, parts) && LoopTurn(w, fuel, cx, env, st)
    requires VisitReady(w, fuel, cx, env, result, p, live, c, st, s) && CheckBlock(w.p, cx, result, st.body)
    requires TestOf(w, fuel, cx, env, st.test) != Some(false)
    requires RanTo(w, s, |parts.test.code| + 1, t1) && Represents(env, cx.types, p.owner, t1.regs)
    ensures BlockReady(w, fuel, cx, env, result, parts.test.pool, live, st.body, t1)
  {
    hide Inv, Compiled, Represents, GenVisit, GenExpr, GenBlock, Eval, Exec, ExecBlock, TypeOf, CheckBlock, CheckStmt,
         CodeAt, Reaches;
    hide PackDstValue, PackValue;
  }

  lemma LoopedBack(w: World, fuel: nat, cx: Context, env: Env, result: Option<Ty>, p: Pool, live: nat, c: nat,
                   st: Stmt, s: State,
                   parts: LoopParts, t1: State, t2: State, next: Env)
    returns (t3: State)
    requires VisitReady(w, fuel, cx, env, result, p, live, c, st, s)
    requires LoopCode(w, cx, p, c, st, s, parts) && LoopTurn(w, fuel, cx, env, st)
    requires TestOf(w, fuel, cx, env, st.test) != Some(false)
             && ExecBlock(w.p, AsCompiled, fuel, env, cx.scopes.depth, st.body) == Normal(next)
    requires RanTo(w, s, |parts.test.code| + 1, t1)
    requires Ended(w, Normal(next), cx.types, parts.test.pool.owner, result, t1, |parts.body.code|, t2)
    ensures fuel > 0 && VisitReady(w, fuel - 1, cx, next, result, p, live, c, st, t3) && RanTo(w, s, 0, t3)
  {
    hide Inv, Compiled, Represents, GenVisit, GenExpr, GenBlock, Eval, Exec, ExecBlock, TypeOf, CheckBlock, CheckStmt,
         CodeAt, Fits, Reaches;
    hide PackDstValue, PackValue, Step;
    RanOn(w, s, |parts.test.code| + 1, t1, |parts.body.code|, t2);
    var back := -(|parts.test.code| + |parts.body.code| + 2);
    StepJump(w.b, t2, back);
    t3 := RanStep(w, t2, 1 + back, t2.regs);
    RanOn(w, s, |parts.test.code| + 1 + |parts.body.code|, t2, 1 + back, t3);
  }

  lemma LoopReturned(w: World, fuel: nat, cx: Context, env: Env, result: Option<Ty>, p: Pool, live: nat, c: nat,
                     st: Stmt, s: State,
                     parts: LoopParts, t1: State, t: State)
    requires VisitReady(w, fuel, cx, env, result, p, live, c, st, s) && CheckStmt(w.p, cx, result, st) == Some(cx)
    requires LoopCode(w, cx, p, c, st, s, parts) && LoopTurn(w, fuel, cx, env, st)
    requires TestOf(w, fuel, cx, env, st.test) != Some(false)
             && !ExecBlock(w.p, AsCompiled, fuel, env, cx.scopes.depth, st.body).Normal?
    requires RanTo(w, s, |parts.test.code| + 1, t1)
    requires Ended(w, ExecBlock(w.p, AsCompiled, fuel, env, cx.scopes.depth, st.body), cx.types, parts.test.pool.owner,
                   result, t1, |parts.body.code|, t)
    ensures VisitDone(w, fuel, cx, env, result, p, live, c, st, s, t)
  {
    hide Inv, Compiled, Represents, GenVisit, GenExpr, GenBlock, Eval, Exec, ExecBlock, TypeOf, CheckBlock, CheckStmt,
         CodeAt, Fits, Reaches;
    hide PackDstValue, PackValue, RanTo, AtReturn;
    var o := ExecBlock(w.p, AsCompiled, fuel, env, cx.scopes.depth, st.body);
    EndedLater(w, o, cx.types, p.owner, result, s, |parts.test.code| + 1, t1, |parts.body.code|, t);
  }

  ghost predicate BlockReady(w: World, fuel: nat, cx: Context, env: Env, result: Option<Ty>, p: Pool, live: nat,
                             b: Block, s: State) {
    && Base(w, cx, env, p, s) && Fits(p, cx.scopes.depth, live)
    && CheckBlock(w.p, cx, result, b) && !ExecBlock(w.p, AsCompiled, fuel, env, cx.scopes.depth, b).Stuck?
    && var g := GenBlock(w.m, cx.scopes, ResultFlags(w.p.functions), p, b);
       g.Gen? && g.pool.used <= |s.regs| && CodeAt(w.b, s.fn, s.pc, g.code)
  }

  ghost predicate ConditionReady(w: World, fuel: nat, cx: Context, env: Env, result: Option<Ty>, p: Pool, c: nat,
                                 cond: Condition, s: State) {
    && Base(w, cx, env, p, s) && Fits(p, cx.scopes.depth, c)
    && CheckCondition(w.p, cx, result, cond) && !ExecCondition(w.p, AsCompiled, fuel, env, cx.scopes.depth, cond).Stuck?
    && var g := GenCondition(w.m, cx.scopes, ResultFlags(w.p.functions), p, c, cond);
       g.Gen? && g.pool.used <= |s.regs| && CodeAt(w.b, s.fn, s.pc, g.code)
  }

  /** The scope an elif or else part is in. */
  function TailContext(cx: Context): Context {
    Context(cx.types, OpenScope(cx.scopes, []))
  }

  function ExecTail(p: Program, r: Reading, fuel: nat, env: Env, depth: nat, t: Tail): Outcome {
    match t
    case NoElse => Normal(env)
    case Elif(cond) => ExecCondition(p, r, fuel, env, depth, cond)
    case Else(block) => ExecBlock(p, r, fuel, env, depth, block)
  }

  ghost predicate ConditionTurn(w: World, fuel: nat, cx: Context, env: Env, cond: Condition) {
    var o := ExecCondition(w.p, AsCompiled, fuel, env, cx.scopes.depth, cond);
    && !o.Stuck?
    && if TestOf(w, fuel, cx, env, cond.test) != Some(false)
       then o == ExecBlock(w.p, AsCompiled, fuel, env, cx.scopes.depth, cond.onTrue)
       else if cond.onFalse.NoElse? then o == Normal(env)
       else o == Leave(ExecTail(w.p, AsCompiled, fuel, env, cx.scopes.depth + 1, cond.onFalse), cx.scopes.depth)
  }

  /** The code of a condition's parts, and the pools with its test's temporaries taken and given back. */
  datatype ChoiceParts = ChoiceParts(taken: Pool, test: Emitted, closed: Pool, onTrue: Generated, onFalse: Generated)

  /**
    The words of a condition: the test, the jump to the else part, the block, the jump
    past the else part, and that part.
   */
  ghost predicate ConditionCode(w: World, cx: Context, p: Pool, c: nat, cond: Condition, s: State, parts: ChoiceParts) {
    && cx.scopes.depth > 0 && s.Running?
    && parts.taken == AllocateTemps(p, cx.scopes.depth - 1, c, c + TempCount(cond.test))
    && parts.test == GenExpr(w.m, cx.scopes, parts.taken, c, cond.test, None) && parts.test.Emit?
    && SameOwners(p, parts.closed)
    && parts.onTrue == GenBlock(w.m, cx.scopes, ResultFlags(w.p.functions), parts.closed, cond.onTrue)
       && parts.onTrue.Gen? && SameOwners(parts.closed, parts.onTrue.pool)
    && parts.onFalse == TailCode(w, cx, parts.onTrue.pool, cond) && parts.onFalse.Gen?
    && parts.onTrue.pool.used <= parts.onFalse.pool.used <= |s.regs|
    && ConditionWords(w, s, cond, parts.test, parts.onTrue, parts.onFalse)
    && var whole := GenCondition(w.m, cx.scopes, ResultFlags(w.p.functions), p, c, cond);
       whole.Gen? && |whole.code| == |parts.test.code| + 1 + |parts.onTrue.code| + SkipSize(cond) + |parts.onFalse.code|
  }

  /** The code of the else part: none when there is none. */
  function TailCode(w: World, cx: Context, p: Pool, cond: Condition): Generated {
    if cond.onFalse.NoElse? then Gen(p, [])
        else GenTail(w.m, TailContext(cx).scopes, ResultFlags(w.p.functions), p, cond.onFalse)
  }

  ghost predicate ConditionWords(w: World, s: State, cond: Condition, g: Emitted, onTrue: Generated, onFalse: Generated)
    requires s.Running? && g.Emit? && onTrue.Gen? && onFalse.Gen?
  {
    && |onTrue.code| + 1 <= MAX_INT16 && |onFalse.code| < MAX_INT16
    && CodeAt(w.b, s.fn, s.pc + |g.code|, [PackDstValue(JUMP_FALSE, g.reg, |onTrue.code| + SkipSize(cond))])
    && CodeAt(w.b, s.fn, s.pc + |g.code| + 1, onTrue.code)
    && (!cond.onFalse.NoElse? ==>
        CodeAt(w.b, s.fn, s.pc + |g.code| + 1 + |onTrue.code|, [PackValue(JUMP, |onFalse.code|)]))
    && CodeAt(w.b, s.fn, s.pc + |g.code| + 1 + |onTrue.code| + SkipSize(cond), onFalse.code)
  }

  /** Without an else part there is no jump over it. */
  function SkipSize(cond: Condition): nat {
    if cond.onFalse.NoElse? then 0 else 1
  }

  ghost predicate ConditionDone(w: World, fuel: nat, cx: Context, env: Env, result: Option<Ty>, p: Pool, c: nat,
                                cond: Condition, s: State, t: State)
  {
    ConditionReady(w, fuel, cx, env, result, p, c, cond, s) &&
    Ended(w, ExecCondition(w.p, AsCompiled, fuel, env, cx.scopes.depth, cond), cx.types, p.owner, result, s,
          |GenCondition(w.m, cx.scopes, ResultFlags(w.p.functions), p, c, cond).code|, t)
  }

  lemma ConditionParts(w: World, fuel: nat, cx: Context, env: Env, result: Option<Ty>, p: Pool, c: nat,
                       cond: Condition, s: State)
    returns (parts: ChoiceParts)
    requires ConditionReady(w, fuel, cx, env, result, p, c, cond, s)
    ensures ConditionCode(w, cx, p, c, cond, s, parts) && ConditionTurn(w, fuel, cx, env, cond)
    ensures TypeOf(w.p, cx, cond.test).Some? && ExprReady(w, fuel, cx, env, parts.taken, c, cond.test, None, s)
  {
    hide Inv, Shows, Reaches, CodeAt, Compiled, AtReturn, Represents, GenExpr, GenBlock, TypeOf, Eval, ExecBlock,
         CheckBlock, PackDstValue, PackValue;
    hide AllocateTemps, DeallocateTemps, ExecTail, GenTail, Fits;
    ConditionUnfolds(w, fuel, cx, env, cond);
    var results := ResultFlags(w.p.functions);
    var n := c + TempCount(cond.test);
    var q := AllocateTemps(p, cx.scopes.depth - 1, c, n);
    FitsOpened(p, cx.scopes.depth, c, c, n);
    TempsGrown(p, cx.scopes.depth, c, n);
    RepresentsGrown(env, cx.types, p, q, s.regs);
    var g := GenExpr(w.m, cx.scopes, q, c, cond.test, None);
    GenExprOwners(w.m, cx.scopes, q, c, cond.test, None);
    var p1 := DeallocateTemps(g.pool, cx.scopes.depth - 1, c, n);
    FitsSame(p, p1, cx.scopes.depth, c);
    DeallocateTempsOwners(g.pool, cx.scopes.depth - 1, c, n);
    var onTrue := GenBlock(w.m, cx.scopes, results, p1, cond.onTrue);
    GenBlockOwners(w.m, cx.scopes, results, p1, c, cond.onTrue);
    var onFalse := TailCode(w, cx, onTrue.pool, cond);
    parts := ChoiceParts(q, g, p1, onTrue, onFalse);
    ConditionLayout(w, fuel, cx, env, result, p, c, cond, s, g, onTrue, onFalse);
    if !cond.onFalse.NoElse? {
      FitsSame(p1, onTrue.pool, cx.scopes.depth, c);
      GenTailOwners(w.m, TailContext(cx).scopes, results, onTrue.pool, cond.onFalse);
    }
  }

  lemma ConditionUnfolds(w: World, fuel: nat, cx: Context, env: Env, cond: Condition)
    requires !ExecCondition(w.p, AsCompiled, fuel, env, cx.scopes.depth, cond).Stuck?
    ensures ConditionTurn(w, fuel, cx, env, cond) && Eval(w.p, AsCompiled, fuel, env, cx.scopes.depth, cond.test).Some?
  {
    hide Eval, ExecBlock;
  }

  lemma ConditionLayout(w: World, fuel: nat, cx: Context, env: Env, result: Option<Ty>, p: Pool, c: nat,
                        cond: Condition, s: State,
                        g: Emitted, onTrue: Generated, onFalse: Generated)
    requires ConditionReady(w, fuel, cx, env, result, p, c, cond, s)
    requires g == GenExpr(w.m, cx.scopes, AllocateTemps(p, cx.scopes.depth - 1, c, c + TempCount(cond.test)), c,
                          cond.test, None) && g.Emit?
    requires onTrue == GenBlock(w.m, cx.scopes, ResultFlags(w.p.functions),
                                DeallocateTemps(g.pool, cx.scopes.depth - 1, c, c + TempCount(cond.test)), cond.onTrue)
    requires onTrue.Gen?
    requires onFalse == TailCode(w, cx, onTrue.pool, cond)
    ensures onFalse.Gen? && onFalse.pool.used <= |s.regs| && CodeAt(w.b, s.fn, s.pc, g.code)
    ensures ConditionWords(w, s, cond, g, onTrue, onFalse)
    ensures var whole := GenCondition(w.m, cx.scopes, ResultFlags(w.p.functions), p, c, cond);
            whole.Gen? && |whole.code| == |g.code| + 1 + |onTrue.code| + SkipSize(cond) + |onFalse.code|
  {
    hide Inv, Compiled, Represents, Fits, GenExpr, GenBlock, TailCode, GenTail, AllocateTemps, DeallocateTemps, CodeAt,
         PackDstValue, PackValue, ExecCondition, CheckCondition, TempCount, GenCondition;
    LayoutOf(w, cx, p, c, cond, g, onTrue, onFalse);
    var jump := [PackDstValue(JUMP_FALSE, g.reg, |onTrue.code| + SkipSize(cond))];
    if cond.onFalse.NoElse? {
      var whole := g.code + jump + onTrue.code;
      assert whole + [] + [] == whole && whole + [] == whole;
      CodeSplit3(w.b, s.fn, s.pc, g.code, jump, onTrue.code);
      CodeSplit(w.b, s.fn, s.pc, whole, []);
    } else {
      var over := [PackValue(JUMP, |onFalse.code|)];
      CodeSplit3(w.b, s.fn, s.pc, g.code + jump + onTrue.code, over, onFalse.code);
      CodeSplit3(w.b, s.fn, s.pc, g.code, jump, onTrue.code);
    }
  }

  lemma LayoutOf(w: World, cx: Context, p: Pool, c: nat, cond: Condition, g: Emitted, onTrue: Generated,
                 onFalse: Generated)
    requires cx.scopes.depth > 0 && GenCondition(w.m, cx.scopes, ResultFlags(w.p.functions), p, c, cond).Gen?
    requires g == GenExpr(w.m, cx.scopes, AllocateTemps(p, cx.scopes.depth - 1, c, c + TempCount(cond.test)), c,
                          cond.test, None) && g.Emit?
    requires onTrue == GenBlock(w.m, cx.scopes, ResultFlags(w.p.functions),
                                DeallocateTemps(g.pool, cx.scopes.depth - 1, c, c + TempCount(cond.test)), cond.onTrue)
    requires onTrue.Gen?
    requires onFalse == TailCode(w, cx, onTrue.pool, cond)
    ensures onFalse.Gen? && |onTrue.code| + 1 <= MAX_INT16 && |onFalse.code| < MAX_INT16
            && (cond.onFalse.NoElse? ==> onFalse.code == [])
    ensures GenCondition(w.m, cx.scopes, ResultFlags(w.p.functions), p, c, cond)
            == Gen(onFalse.pool,
                   g.code + [PackDstValue(JUMP_FALSE, g.reg, |onTrue.code| + SkipSize(cond))] + onTrue.code
                                 + (if cond.onFalse.NoElse? then [] else [PackValue(JUMP, |onFalse.code|)])
                                   + onFalse.code)
  {
    hide GenExpr, GenBlock, GenTail, AllocateTemps, DeallocateTemps, PackDstValue, PackValue, TempCount;
  }

  /** The block was run; the jump past the else part, if there is one, is taken. */
  lemma Chosen(w: World, fuel: nat, cx: Context, env: Env, result: Option<Ty>, p: Pool, c: nat, cond: Condition,
               s: State,
               parts: ChoiceParts, t1: State)
    requires ConditionReady(w, fuel, cx, env, result, p, c, cond, s) && ConditionTurn(w, fuel, cx, env, cond)
    requires ConditionCode(w, cx, p, c, cond, s, parts)
    requires TestOf(w, fuel, cx, env, cond.test) != Some(false)
    requires RanTo(w, s, |parts.test.code| + 1, t1) && Represents(env, cx.types, parts.taken.owner, t1.regs)
    ensures BlockReady(w, fuel, cx, env, result, parts.closed, c, cond.onTrue, t1)
  {
    hide Inv, Compiled, Represents, GenExpr, GenBlock, GenTail, GenCondition, Eval, ExecCondition, ExecBlock,
         CheckBlock, CodeAt, Reaches;
    hide PackDstValue, PackValue, AllocateTemps;
    TempsGrown(p, cx.scopes.depth, c, c + TempCount(cond.test));
    RepresentsShrunk(env, cx.types, p, parts.taken, s.regs, t1.regs);
    FitsSame(p, parts.closed, cx.scopes.depth, c);
  }

  lemma Skipped(w: World, fuel: nat, cx: Context, env: Env, result: Option<Ty>, p: Pool, c: nat, cond: Condition,
                s: State,
                parts: ChoiceParts, t1: State, t2: State) returns (t: State)
    requires ConditionReady(w, fuel, cx, env, result, p, c, cond, s) && ConditionTurn(w, fuel, cx, env, cond)
    requires ConditionCode(w, cx, p, c, cond, s, parts)
    requires TestOf(w, fuel, cx, env, cond.test) != Some(false)
    requires RanTo(w, s, |parts.test.code| + 1, t1)
    requires Ended(w, ExecBlock(w.p, AsCompiled, fuel, env, cx.scopes.depth, cond.onTrue), cx.types,
                   parts.closed.owner, result, t1, |parts.onTrue.code|, t2)
    ensures ConditionDone(w, fuel, cx, env, result, p, c, cond, s, t)
  {
    hide Inv, Compiled, Represents, GenExpr, GenBlock, GenTail, GenCondition, Eval, ExecCondition, ExecBlock,
         CheckCondition, CodeAt, Reaches;
    hide PackDstValue, PackValue, AllocateTemps, Fits, Step, AtReturn;
    var o := ExecBlock(w.p, AsCompiled, fuel, env, cx.scopes.depth, cond.onTrue);
    t := t2;
    EndedLater(w, o, cx.types, p.owner, result, s, |parts.test.code| + 1, t1, |parts.onTrue.code|, t2);
    if o.Normal? && !cond.onFalse.NoElse? {
      StepJump(w.b, t2, |parts.onFalse.code|);
      t := RanStep(w, t2, 1 + |parts.onFalse.code|, t2.regs);
      RanOn(w, s, |parts.test.code| + 1 + |parts.onTrue.code|, t2, 1 + |parts.onFalse.code|, t);
    }
  }

  lemma NotChosen(w: World, fuel: nat, cx: Context, env: Env, result: Option<Ty>, p: Pool, c: nat, cond: Condition,
                  s: State,
                  parts: ChoiceParts, t: State)
    requires ConditionReady(w, fuel, cx, env, result, p, c, cond, s) && ConditionTurn(w, fuel, cx, env, cond)
    requires ConditionCode(w, cx, p, c, cond, s, parts)
    requires TestOf(w, fuel, cx, env, cond.test) == Some(false) && cond.onFalse.NoElse?
    requires RanTo(w, s, |parts.test.code| + 1 + |parts.onTrue.code|, t)
             && Represents(env, cx.types, parts.taken.owner, t.regs)
    ensures ConditionDone(w, fuel, cx, env, result, p, c, cond, s, t)
  {
    hide Inv, Compiled, Represents, GenExpr, GenBlock, GenTail, GenCondition, Eval, ExecCondition, ExecBlock,
         CheckCondition, CodeAt, Reaches;
    hide PackDstValue, PackValue, AllocateTemps, Fits;
    TempsGrown(p, cx.scopes.depth, c, c + TempCount(cond.test));
    RepresentsShrunk(env, cx.types, p, parts.taken, s.regs, t.regs);
  }

  ghost predicate TailReadyAt(w: World, fuel: nat, cx: Context, env: Env, result: Option<Ty>, p: Pool, cond: Condition,
                              s: State) {
    match cond.onFalse
    case NoElse => true
    case Elif(next) => ConditionReady(w, fuel, TailContext(cx), env, result, p, 0, next, s)
    case Else(block) => BlockReady(w, fuel, TailContext(cx), env, result, p, 0, block, s)
  }

  /** The machine is at the else part. */
  lemma TailReady(w: World, fuel: nat, cx: Context, env: Env, result: Option<Ty>, p: Pool, c: nat, cond: Condition,
                  s: State,
                  parts: ChoiceParts, t1: State)
    requires ConditionReady(w, fuel, cx, env, result, p, c, cond, s) && ConditionTurn(w, fuel, cx, env, cond)
    requires ConditionCode(w, cx, p, c, cond, s, parts)
    requires TestOf(w, fuel, cx, env, cond.test) == Some(false) && !cond.onFalse.NoElse?
    requires RanTo(w, s, |parts.test.code| + 1 + |parts.onTrue.code| + 1, t1)
             && Represents(env, cx.types, parts.taken.owner, t1.regs)
    ensures TailReadyAt(w, fuel, cx, env, result, parts.onTrue.pool, cond, t1)
  {
    hide Inv, Compiled, Represents, GenExpr, GenBlock, GenCondition, Eval, ExecCondition, ExecBlock, CheckBlock,
         CodeAt, Reaches;
    hide PackDstValue, PackValue, AllocateTemps;
    TempsGrown(p, cx.scopes.depth, c, c + TempCount(cond.test));
    RepresentsShrunk(env, cx.types, p, parts.taken, s.regs, t1.regs);
    FitsSame(p, parts.onTrue.pool, cx.scopes.depth, c);
  }

  /** How the run of the else part ends, in either form it has. */
  ghost predicate TailEnded(w: World, fuel: nat, cx: Context, env: Env, result: Option<Ty>, p: Pool, cond: Condition,
                            s: State, t: State)
    requires !cond.onFalse.NoElse?
  {
    var g := GenTail(w.m, TailContext(cx).scopes, ResultFlags(w.p.functions), p, cond.onFalse);
    g.Gen? && Ended(w, ExecTail(w.p, AsCompiled, fuel, env, cx.scopes.depth + 1, cond.onFalse), cx.types, p.owner,
                    result, s, |g.code|, t)
  }

  lemma ElifIsTail(w: World, fuel: nat, cx: Context, env: Env, result: Option<Ty>, p: Pool, cond: Condition, s: State,
                   t: State)
    requires cond.onFalse.Elif? && ConditionReady(w, fuel, TailContext(cx), env, result, p, 0, cond.onFalse.cond, s)
    requires ConditionDone(w, fuel, TailContext(cx), env, result, p, 0, cond.onFalse.cond, s, t)
    ensures TailEnded(w, fuel, cx, env, result, p, cond, s, t)
  {
    hide Ended, ExecCondition, GenCondition, CheckCondition, Base, Fits, CodeAt;
  }

  lemma ElseIsTail(w: World, fuel: nat, cx: Context, env: Env, result: Option<Ty>, p: Pool, cond: Condition, s: State,
                   t: State)
    requires cond.onFalse.Else? && BlockReady(w, fuel, TailContext(cx), env, result, p, 0, cond.onFalse.block, s)
    requires Ended(w, ExecBlock(w.p, AsCompiled, fuel, env, cx.scopes.depth + 1, cond.onFalse.block), cx.types,
                   p.owner, result, s,
                   |GenBlock(w.m, TailContext(cx).scopes, ResultFlags(w.p.functions), p, cond.onFalse.block).code|, t)
    ensures TailEnded(w, fuel, cx, env, result, p, cond, s, t)
  {
    hide Ended, ExecBlock, GenBlock, CheckBlock, Base, Fits, CodeAt;
  }

  lemma TailDone(w: World, fuel: nat, cx: Context, env: Env, result: Option<Ty>, p: Pool, c: nat, cond: Condition,
                 s: State,
                 parts: ChoiceParts, t1: State, t: State)
    requires ConditionReady(w, fuel, cx, env, result, p, c, cond, s) && ConditionTurn(w, fuel, cx, env, cond)
    requires ConditionCode(w, cx, p, c, cond, s, parts)
    requires TestOf(w, fuel, cx, env, cond.test) == Some(false) && !cond.onFalse.NoElse?
    requires RanTo(w, s, |parts.test.code| + 1 + |parts.onTrue.code| + 1, t1)
    requires TailEnded(w, fuel, cx, env, result, parts.onTrue.pool, cond, t1, t)
    ensures ConditionDone(w, fuel, cx, env, result, p, c, cond, s, t)
  {
    hide Inv, Compiled, Represents, GenExpr, GenBlock, GenTail, GenCondition, Eval, ExecCondition, ExecBlock, ExecTail,
         CheckCondition, CodeAt, Reaches;
    hide PackDstValue, PackValue, AllocateTemps, Ended;
    var o, n := ExecTail(w.p, AsCompiled, fuel, env, cx.scopes.depth + 1, cond.onFalse),
      |parts.test.code| + 1 + |parts.onTrue.code| + 1;
    EndedLater(w, o, cx.types, p.owner, result, s, n, t1, |parts.onFalse.code|, t);
    ScopeClosed(w, o, cx, env, cx.types, p, p, result, s, n + |parts.onFalse.code|, t);
  }
}
