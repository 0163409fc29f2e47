/**
  What it means for the machine to be in step with a program: which registers hold
  which variables, what a fragment of code may disturb, and how a run of it ends.
 */
module CompilerRelation {
  import opened Options
  import opened Values
  import opened Bytecode
  import opened Registers
  import opened RegisterPool
  import opened Ast
  import opened Semantics
  import opened CodeGen
  import opened CodeGenPool
  import opened Checking
  import opened Machine
  import opened CompiledSteps

  /** A program, its constants, and the binary it was compiled to. */
  datatype World = World(p: Program, m: Constants, b: Binary)

  function ResultFlags(fs: seq<FunctionDecl>): (flags: seq<bool>)
    ensures |flags| == |fs|
    ensures forall i :: 0 <= i < |fs| ==> flags[i] == fs[i].result.Some?
  {
    if fs == [] then [] else [fs[0].result.Some?] + ResultFlags(fs[1..])
  }

  ghost predicate CompiledFunction(w: World, i: nat) {
    && i < |w.p.functions| && i < |w.b.functions|
    && var g := GenFunction(w.m, ResultFlags(w.p.functions), w.p.functions[i]);
       g.Gen? && w.b.functions[i].code == g.code && w.b.functions[i].nRegisters == MaxRegisterCount(g.pool)
  }

  /** The binary's tables hold the raw bits of the module's constants, in order. */
  ghost predicate SameConstants(m: Constants, b: Binary) {
    && |b.constants32| == |m.bits32| < TWO_16
    && |b.constants64| == |m.bits64| < TWO_16
    && (forall i :: 0 <= i < |m.bits32| ==> b.constants32[i] == m.bits32[i].1 % TWO_32)
    && (forall i :: 0 <= i < |m.bits64| ==> b.constants64[i] == m.bits64[i].1 % TWO_64)
  }

  /** Every function was checked and compiled. */
  ghost predicate Compiled(w: World) {
    && ValidBinary(w.b) && SameConstants(w.m, w.b) && CheckProgram(w.p)
    && |w.p.functions| < TWO_16
    && forall i :: 0 <= i < |w.p.functions| ==> CompiledFunction(w, i)
  }

  /** Every declared variable's register holds its value. */
  ghost predicate Represents(env: Env, types: map<Key, Ty>, owner: map<Key, nat>, regs: seq<Cell>) {
    && env.Keys == types.Keys
    && forall k :: k in env ==> k.Named? && k in owner && owner[k] < |regs| && Shows(regs[owner[k]], types[k], env[k])
  }

  /** Owned registers keep their cells, except the target's and the listed temporaries'. */
  ghost predicate Preserves(p: Pool, level: nat, from: nat, end: nat, target: Option<Key>, regs: seq<Cell>,
                            after: seq<Cell>) {
    && |after| == |regs|
    && (forall k :: k in p.owner && !TempIn(k, level, from, end) && Some(k) != target && p.owner[k] < |regs| ==>
        after[p.owner[k]] == regs[p.owner[k]])
    && (forall r :: r in p.temps && r < |regs| ==> after[r] == regs[r])
  }

  lemma OwnerFacts(p: Pool)
    requires Inv(p)
    ensures Injective(p.owner)
    ensures forall k :: k in p.owner ==> p.owner[k] < p.used && p.owner[k] !in p.temps
    ensures forall r :: r in p.temps ==> r < p.used
  {
  }

  lemma RepresentsKept(env: Env, types: map<Key, Ty>, p: Pool, level: nat, from: nat, end: nat, regs: seq<Cell>,
                       after: seq<Cell>)
    requires Represents(env, types, p.owner, regs) && Preserves(p, level, from, end, None, regs, after)
    ensures Represents(env, types, p.owner, after)
  {
  }

  /** Two expressions in turn, then a store to the symbol of the whole expression. */
  lemma StoreKept(p: Pool, level: nat, c: nat, mid: nat, end: nat, target: Option<Key>, key: Key, cell: Cell,
                  regs: seq<Cell>, regs1: seq<Cell>, regs2: seq<Cell>)
    requires Inv(p) && key in p.owner && p.owner[key] < |regs| && c <= mid <= end
    requires Preserves(p, level, c, mid, None, regs, regs1) && Preserves(p, level, mid, end, None, regs1, regs2)
    requires if target.Some? then key == target.value else key == Temp(level, end)
    ensures Preserves(p, level, c, end + 1, target, regs, regs2[p.owner[key] := cell])
  {
    OwnerFacts(p);
    hide Inv;
  }

  lemma ResultKeyRange(w: World, cx: Context, c: nat, e: Expr)
    requires cx.scopes.depth > 0 && TypeOf(w.p, cx, e).Some?
    ensures var key := ResultKey(cx.scopes, c, e, None);
            key.Named? || TempIn(key, cx.scopes.depth - 1, c, c + TempCount(e))
  {
  }

  lemma {:induction false} IndexOfFinds(table: seq<(Ty, int)>, entry: (Ty, int))
    requires IndexOf(table, entry).Some?
    ensures IndexOf(table, entry).value < |table| && table[IndexOf(table, entry).value] == entry
  {
    if table[0] != entry {
      IndexOfFinds(table[1..], entry);
    }
  }

  /** LOAD_VALUE fills the cell with the 16 bits unsigned, so a negative value is lost. */
  lemma InlineConstantLoaded(ty: Ty, v: int)
    requires InRange(ty, v) && FitsInBytecode(ty, v)
    ensures Holds(FromRaw64(v % TWO_16), ty, v) <==> Loadable(ty, v)
    ensures Loadable(ty, v) ==> Shows(FromRaw64(v % TWO_16), ty, Literal(ty, v))
  {
  }

  lemma ConstantCorrect(w: World, s: State, ty: Ty, v: int, reg: nat) returns (c: Cell)
    requires Compiled(w) && Loadable(ty, v) && ConstantWord(w.m, ty, v, reg).Some?
    requires At(w.b, s, ConstantWord(w.m, ty, v, reg).value) && reg < |s.regs|
    ensures Step(w.b, s) == Some(Advance(s, 1, s.regs[reg := c])) && Shows(c, ty, Literal(ty, v))
  {
    hide PackDstValue, Step, FromRaw64;
    if FitsInBytecode(ty, v) {
      StepLoadValue(w.b, s, reg, v);
      InlineConstantLoaded(ty, v);
      c := FromRaw64(v % TWO_16);
    } else if Is64(ty) {
      IndexOfFinds(w.m.bits64, (ty, v));
      var i := IndexOf(w.m.bits64, (ty, v)).value;
      StepLoadConstant64(w.b, s, reg, i);
      c := FromRaw64(w.b.constants64[i]);
      PooledConstant64(ty, v);
    } else {
      IndexOfFinds(w.m.bits32, (ty, v));
      var i := IndexOf(w.m.bits32, (ty, v)).value;
      StepLoadConstant32(w.b, s, reg, i);
      c := s.regs[reg].(lo := w.b.constants32[i]);
      PooledConstant32(ty, v, s.regs[reg]);
    }
  }

  lemma PooledConstant64(ty: Ty, v: int)
    requires InRange(ty, v) && Is64(ty)
    ensures Shows(FromRaw64(v % TWO_64), ty, Literal(ty, v))
  {
  }

  lemma PooledConstant32(ty: Ty, v: int, before: Cell)
    requires InRange(ty, v) && !Is64(ty) && !FitsInBytecode(ty, v)
    ensures Shows(before.(lo := v % TWO_32), ty, Literal(ty, v))
  {
  }

  /** What a conditional jump finds in the register of a tested value. */
  lemma ConditionRead(c: Cell, ty: Ty, v: int)
    requires Holds(c, ty, v)
    ensures c.lo == 0 <==> v % TWO_32 == 0
  {
  }

  /**
    A test finds what the source means exactly when the value is not of a 64-bit type, or
    is zero, or is not zero in its low half.
   */
  lemma ConditionReadRight(c: Cell, ty: Ty, v: int)
    requires Holds(c, ty, v)
    ensures (c.lo == 0 <==> v == 0) <==> (!Is64(ty) || v == 0 || v % TWO_32 != 0)
    ensures (c.lo == 0 <==> v == 0) <==> Truth(Alike, Computed(ty, v)).Some?
  {
    ConditionRead(c, ty, v);
  }

  /** What the compiled test of an expression finds. */
  function TestOf(w: World, fuel: nat, cx: Context, env: Env, e: Expr): Option<bool> {
    Tested(AsCompiled, Eval(w.p, AsCompiled, fuel, env, cx.scopes.depth, e))
  }

  /** The machine stands at a fragment, in a frame with room for every register used. */
  ghost predicate Ready(w: World, p: Pool, used: nat, s: State, code: seq<Word>) {
    && Compiled(w) && ValidBinary(w.b) && Inv(p) && s.Running? && p.used <= used <= |s.regs| <= NO_REGISTER
    && CodeAt(w.b, s.fn, s.pc, code)
  }

  lemma ReadySplit(w: World, p: Pool, used: nat, s: State, x: seq<Word>, y: seq<Word>)
    requires Ready(w, p, used, s, x + y)
    ensures Ready(w, p, used, s, x) && CodeAt(w.b, s.fn, s.pc + |x|, y)
  {
    CodeSplit(w.b, s.fn, s.pc, x, y);
  }

  /** From `s` the machine reaches `t`, `n` words further in the same frame. */
  ghost predicate RanTo(w: World, s: State, n: int, t: State) {
    && ValidBinary(w.b) && s.Running? && t.Running? && t == Advance(s, n, t.regs) && |t.regs| == |s.regs|
    && Reaches(w.b, s, t)
  }

  lemma RanOn(w: World, s: State, n: int, t: State, m: int, u: State)
    requires RanTo(w, s, n, t) && RanTo(w, t, m, u)
    ensures RanTo(w, s, n + m, u)
  {
    ReachesTransitive(w.b, s, t, u);
  }

  lemma RanStep(w: World, s: State, n: int, regs: seq<Cell>) returns (t: State)
    requires ValidBinary(w.b) && s.Running? && |regs| == |s.regs| && Step(w.b, s) == Some(Advance(s, n, regs))
    ensures RanTo(w, s, n, t) && t == Advance(s, n, regs)
  {
    t := Advance(s, n, regs);
    ReachesStep(w.b, s, t);
  }

  /** The frame stands at a RETURN of the value. */
  ghost predicate AtReturn(b: Binary, t: State, value: Option<Value>, result: Option<Ty>) {
    && t.Running? && t.pending.None? && |t.regs| <= NO_REGISTER && value.Some? == result.Some?
    && (value.None? ==> CodeAt(b, t.fn, t.pc, [PackDstValue(RETURN, NO_REGISTER, 0)]))
    && (value.Some? ==>
          exists reg: nat :: reg < |t.regs| && CodeAt(b, t.fn, t.pc, [PackDstValue(RETURN, reg, 0)])
            && Passes(t.regs[reg], result.value, value.value))
  }

  /** The machine has run on in the same frame, wherever in its function. */
  ghost predicate RanWithin(w: World, s: State, t: State) {
    && ValidBinary(w.b) && s.Running? && t.Running? && t == s.(pc := t.pc, regs := t.regs) && |t.regs| == |s.regs|
    && Reaches(w.b, s, t)
  }

  function FunctionContext(f: FunctionDecl): Context {
    Context(ParameterTypes(f.params), OpenScope(FUNCTION_SCOPES, f.body.vars))
  }

  /** How a statement ends: normally after its last word, or at a return. */
  ghost predicate Ended(w: World, o: Outcome, types: map<Key, Ty>, owner: map<Key, nat>, result: Option<Ty>, s: State,
                        n: int, t: State) {
    match o
    case Normal(env) => RanTo(w, s, n, t) && Represents(env, types, owner, t.regs)
    case Done(value) => RanWithin(w, s, t) && AtReturn(w.b, t, value, result)
    case Stuck => false
  }

  predicate WellScoped(cx: Context) {
    cx.scopes.depth > 0 && forall k :: k in cx.types ==> k.level < cx.scopes.depth
  }

  ghost predicate Base(w: World, cx: Context, env: Env, p: Pool, s: State) {
    && Compiled(w) && ValidBinary(w.b) && WellScoped(cx) && Inv(p)
    && s.Running? && s.pending.None? && |s.regs| <= NO_REGISTER && Represents(env, cx.types, p.owner, s.regs)
  }

  ghost predicate StmtsReady(w: World, fuel: nat, cx: Context, env: Env, result: Option<Ty>, p: Pool, c: nat,
                             ss: seq<Stmt>, s: State) {
    && Base(w, cx, env, p, s) && Fits(p, cx.scopes.depth, c)
    && CheckStmts(w.p, cx, result, ss) && !ExecAll(w.p, AsCompiled, fuel, env, cx.scopes.depth, ss).Stuck?
    && var g := GenStmts(w.m, cx.scopes, ResultFlags(w.p.functions), p, c, ss);
       g.Gen? && g.pool.used <= |s.regs| && CodeAt(w.b, s.fn, s.pc, g.code)
  }

  /** `more` adds variables of the innermost scope only. */
  predicate Extends(types: map<Key, Ty>, more: map<Key, Ty>, depth: nat) {
    && (forall k :: k in types ==> k in more && more[k] == types[k])
    && forall k :: k in more && k !in types ==> k.level + 1 == depth
  }

  lemma CheckStmtExtends(w: World, cx: Context, result: Option<Ty>, st: Stmt)
    requires WellScoped(cx) && CheckStmt(w.p, cx, result, st).Some?
    ensures var next := CheckStmt(w.p, cx, result, st).value;
            next.scopes == cx.scopes && WellScoped(next) && Extends(cx.types, next.types, cx.scopes.depth)
  {
  }

  lemma EndedLater(w: World, o: Outcome, types: map<Key, Ty>, owner: map<Key, nat>, result: Option<Ty>, s: State,
                   n: int, t1: State, m: int, t: State)
    requires RanTo(w, s, n, t1) && Ended(w, o, types, owner, result, t1, m, t)
    ensures Ended(w, o, types, owner, result, s, n + m, t)
  {
    hide Reaches, Represents, AtReturn;
    ReachesTransitive(w.b, s, t1, t);
  }

  /** Variables keep their registers when more symbols are allocated. */
  lemma RepresentsGrown(env: Env, types: map<Key, Ty>, p: Pool, q: Pool, regs: seq<Cell>)
    requires Represents(env, types, p.owner, regs) && Grown(p, q)
    ensures Represents(env, types, q.owner, regs)
  {
    hide Inv, Shows;
  }

  lemma EndedShrunk(w: World, o: Outcome, types: map<Key, Ty>, p: Pool, q: Pool, result: Option<Ty>, s: State, n: int,
                    t: State)
    requires Ended(w, o, types, q.owner, result, s, n, t)
    requires Grown(p, q) && forall k :: k in q.owner && k !in p.owner ==> k.Temp?
    ensures Ended(w, o, types, p.owner, result, s, n, t)
  {
    hide Inv, Shows, AtReturn, Reaches;
  }

  /** A store to one variable's register changes that variable only. */
  lemma StoreVariable(env: Env, types: map<Key, Ty>, p: Pool, key: Key, ty: Ty, v: Value, cell: Cell, regs: seq<Cell>)
    requires Inv(p) && key in p.owner && key.Named? && p.owner[key] < |regs| && Shows(cell, ty, v)
    requires Represents(env, types, p.owner, regs)
    ensures Represents(env[key := v], types[key := ty], p.owner, regs[p.owner[key] := cell])
  {
    hide Inv, Shows;
    OwnerFacts(p);
  }

  /** A value computed into its variable's own register. */
  lemma StoredInPlace(env: Env, types: map<Key, Ty>, p: Pool, level: nat, from: nat, end: nat, key: Key, ty: Ty,
                      v: Value, regs: seq<Cell>, after: seq<Cell>)
    requires key in p.owner && key.Named? && p.owner[key] < |after| && key !in types
             && Shows(after[p.owner[key]], ty, v)
    requires Represents(env, types, p.owner, regs) && Preserves(p, level, from, end, Some(key), regs, after)
    ensures Represents(env[key := v], types[key := ty], p.owner, after)
    ensures Represents(env, types, p.owner, after)
  {
    hide Shows;
  }

  lemma NotTouched(env: Env, types: map<Key, Ty>, p: Pool, level: nat, from: nat, end: nat, key: Key, regs: seq<Cell>,
                   after: seq<Cell>)
    requires key !in types && Represents(env, types, p.owner, regs)
             && Preserves(p, level, from, end, Some(key), regs, after)
    ensures Represents(env, types, p.owner, after)
  {
    hide Shows;
  }

  lemma VariableHeld(env: Env, types: map<Key, Ty>, p: Pool, key: Key, regs: seq<Cell>)
    requires Represents(env, types, p.owner, regs) && key in env
    ensures key in p.owner && p.owner[key] < |regs| && Shows(regs[p.owner[key]], types[key], env[key])
  {
  }

  /** Leaving a scope forgets its variables and keeps the others in their registers. */
  lemma ScopeClosed(w: World, o: Outcome, cx: Context, env: Env, types: map<Key, Ty>, p: Pool, p1: Pool,
                    result: Option<Ty>, s: State, n: int, t: State)
    requires WellScoped(cx) && Grown(p, p1) && Extends(cx.types, types, cx.scopes.depth + 1)
    requires s.Running? && Represents(env, cx.types, p.owner, s.regs)
    requires Ended(w, o, types, p1.owner, result, s, n, t)
    ensures Ended(w, Leave(o, cx.scopes.depth), cx.types, p.owner, result, s, n, t)
  {
    hide Inv, Shows, AtReturn, Reaches;
    if o.Normal? {
      assert CloseScope(o.env, cx.scopes.depth).Keys == cx.types.Keys;
    }
  }

  lemma TempsGrown(p: Pool, depth: nat, from: nat, end: nat)
    requires depth > 0 && Fits(p, depth, from)
    ensures var q := AllocateTemps(p, depth - 1, from, end);
            Grown(p, q) && forall k :: k in q.owner && k !in p.owner ==> k.Temp?
  {
    hide Inv;
    AllocateTempsOwners(p, depth - 1, from, end);
  }

  lemma FitsSame(p: Pool, q: Pool, depth: nat, c: nat)
    requires Fits(p, depth, c) && SameOwners(p, q)
    ensures Fits(q, depth, c) && Fits(q, depth + 1, 0)
  {
    hide Inv;
  }

  lemma RepresentsShrunk(env: Env, types: map<Key, Ty>, p: Pool, q: Pool, regs: seq<Cell>, after: seq<Cell>)
    requires Grown(p, q) && Represents(env, types, p.owner, regs) && Represents(env, types, q.owner, after)
    ensures Represents(env, types, p.owner, after)
  {
    hide Inv, Shows;
  }
}
