/** From a source program to the host's result register. */
module EndToEnd {
  import opened Options
  import opened Values
  import opened Bytecode
  import opened Registers
  import opened RegisterPool
  import opened Ast
  import opened Semantics
  import opened CodeGen
  import opened Machine
  import opened FlatStack
  import opened Interpreter
  import opened CompilerRelation
  import opened CallSteps
  import opened CompilerCorrect
  import opened Readings

  /** A call whose arguments have the values and types of the parameters, and whose source meaning is known. */
  ghost predicate Callable(w: World, fuel: nat, fn: nat, values: seq<Value>, args: seq<Cell>) {
    && Compiled(w) && fn < |w.p.functions| && Invoke(w.p, AsCompiled, fuel, fn, values).Some?
    && |args| == |values| == |w.p.functions[fn].params|
    && forall i :: 0 <= i < |args| ==> Passes(args[i], w.p.functions[fn].params[i].ty, values[i])
  }

  lemma HostReady(w: World, fuel: nat, fn: nat, values: seq<Value>, args: seq<Cell>)
    requires Callable(w, fuel, fn, values, args)
    ensures fn < |w.b.functions| && |args| <= w.b.functions[fn].nRegisters
    ensures InvokeReady(w, fuel, fn, values, HostState(w.b, fn, args))
  {
    hide CompiledFunction, Invoke, Passes;
    FunctionRoom(w, fn);
  }

  /**
    Calling a compiled function on the real stack. The abstract machine returns after `n`
    steps; the loop does the same exactly when the block has room for the largest state on
    the way, and then the host finds the value the program computes as compiled. That is
    the value it has as written wherever the two readings are sure to agree.
   */
  method CallCompiled(cx: Context, fn: nat, args: seq<Cell>, ghost w: World, ghost fuel: nat, ghost values: seq<Value>)
    returns (status: Status, ghost n: nat)
    requires cx.stack.Valid() && HOST_REGISTER < cx.stack.start && cx.stack.state.frames == []
    requires ValidImage(cx.image) && cx.image.binary == w.b
    requires Callable(w, fuel, fn, values, args)
    modifies cx, cx.stack, cx.stack.memory
    ensures ReturnsAfter(w, fn, args, n)
    ensures status == if WordsNeeded(w.b, HostState(w.b, fn, args), n) < cx.stack.memory.Length then NoError
            else StackOverflow
    ensures status == NoError ==> cx.stack.Valid() && cx.stack.state.frames == []
    ensures status == NoError ==>
            Carried(cx.hostResult, w.p.functions[fn].result, Invoke(w.p, AsCompiled, fuel, fn, values).value)
    ensures Invoke(w.p, Alike, fuel, fn, values).Some? ==>
              Invoke(w.p, AsCompiled, fuel, fn, values) == Invoke(w.p, AsWritten, fuel, fn, values)
  {
    hide Invoke, Shows, Compiled, InvokeReady, Machine.Run, WordsNeeded;
    HostReady(w, fuel, fn, values, args);
    ghost var s := HostState(w.b, fn, args);
    ghost var cell := ProgramCorrect(w, fuel, fn, values, s);
    n :| Machine.Run(w.b, s, n) == Some(Returned(cell));
    InvokeAlike(w.p, AsCompiled, fuel, fn, values);
    InvokeAlike(w.p, AsWritten, fuel, fn, values);
    status := cx.CallFromHost(fn, args, n, Returned(cell));
  }

  ghost predicate ReturnsAfter(w: World, fn: nat, args: seq<Cell>, n: nat) {
    && ValidBinary(w.b) && fn < |w.b.functions| && |args| <= w.b.functions[fn].nRegisters
    && Machine.Run(w.b, HostState(w.b, fn, args), n).Some?
       && Machine.Run(w.b, HostState(w.b, fn, args), n).value.Returned?
  }

  /** The host's register holds the value, if there is one. */
  predicate Carried(c: Cell, result: Option<Ty>, v: Option<Value>) {
    v.Some? ==> result.Some? && Shows(c, result.value, v.value)
  }
}
