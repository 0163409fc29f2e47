/**
  The interpreter's loop over the real stack: registers are words of the block, callers
  are records in it, program counters are addresses. It does what module Machine says,
  step for step and for whole runs, unless the block is full.
 */
module Interpreter {
  import opened Options
  import opened Values
  import opened Bytecode
  import opened Registers
  import opened Machine
  import opened FlatStack
  import File = BinaryFile

  /** `Undefined` is what C leaves open: here, a read just past the function table. */
  datatype Status =
    Going | NoError | StackOverflow | StackUnderflow | InvalidFunctionCall | UnknownInstruction | Undefined

  /** The address of the register, outside the stack, that takes the host's result. */
  const HOST_REGISTER := 1

  const WORD_SIZE := 4

  /** The loaded binary: its file in memory, and where in it each function's code begins. */
  datatype Image = Image(binary: Binary, fileStart: nat, file: seq<File.Byte>, entries: seq<nat>)

  predicate ValidImage(im: Image) {
    && ValidBinary(im.binary) && 0 < im.fileStart && im.fileStart + |im.file| < TWO_64
    && |im.entries| == |im.binary.functions|
    && forall i :: 0 <= i < |im.entries| ==> Loaded(im, i)
  }

  predicate Loaded(im: Image, i: nat)
    requires i < |im.entries| && i < |im.binary.functions|
  {
    var f := im.binary.functions[i].code;
    im.entries[i] + WORD_SIZE * |f| <= |im.file| && File.CodeIs(im.file, im.entries[i], f)
  }

  function CodeAddress(im: Image, fn: nat, pc: int): int {
    if fn < |im.entries| then im.fileStart + im.entries[fn] + WORD_SIZE * pc else 0
  }

  // ----- the machine's state on the stack -----

  predicate Placed(im: Image, c: Suspended) {
    && c.fn < |im.entries| && c.fn < |im.binary.functions| && 0 <= c.pc <= |im.binary.functions[c.fn].code|
    && |c.regs| <= NO_REGISTER && (c.ret == NO_REGISTER || c.ret < |c.regs|)
  }

  predicate AllPlaced(im: Image, callers: seq<Suspended>) {
    forall i :: 0 <= i < |callers| ==> Placed(im, callers[i])
  }

  /** What the record above these callers holds: where the innermost of them resumes. */
  function LinkPc(im: Image, callers: seq<Suspended>): Cell {
    if callers == [] then NULL
    else
      var c := callers[|callers| - 1];
      var a := CodeAddress(im, c.fn, c.pc);
      if a < 0 then NULL else Pointer(a)
  }

  /** And where it wants the result. */
  function LinkRet(im: Image, start: nat, callers: seq<Suspended>): Cell
    decreases |callers|, 1
  {
    if callers == [] then Pointer(HOST_REGISTER)
    else
      var c := callers[|callers| - 1];
      if c.ret == NO_REGISTER then NULL else Pointer(Base(start, CallerFrames(im, start, callers)) + c.ret)
  }

  function CallerFrames(im: Image, start: nat, callers: seq<Suspended>): (frames: seq<Frame>)
    ensures |frames| == |callers|
    decreases |callers|, 0
  {
    if callers == [] then []
    else Active(im, start, callers[..|callers| - 1], callers[|callers| - 1].regs)
  }

  /** The frames of the callers and of the running function. */
  function Active(im: Image, start: nat, callers: seq<Suspended>, regs: seq<Cell>): (frames: seq<Frame>)
    ensures |frames| == |callers| + 1
    decreases |callers|, 2
  {
    CallerFrames(im, start, callers) + [Frame(LinkPc(im, callers), LinkRet(im, start, callers), regs)]
  }

  /** The frame of a pending call: its pushed arguments, and zeros above them still free. */
  predicate Awaits(s: Stack, active: seq<Frame>, p: Pending) {
    && |s.frames| == |active| + 1 && s.frames[..|active|] == active
    && p.pushed <= |p.cells| <= NO_REGISTER && Last(s.frames).words == p.cells[..p.pushed]
    && |p.cells| - p.pushed < |s.free| && s.free[..|p.cells| - p.pushed] == p.cells[p.pushed..]
  }

  predicate OnStack(im: Image, start: nat, s: Stack, m: State)
    requires m.Running?
  {
    FramesFor(im, start, s, m.callers, m.regs, m.pending)
  }

  predicate FramesFor(im: Image, start: nat, s: Stack, callers: seq<Suspended>, regs: seq<Cell>,
                      pending: Option<Pending>) {
    var active := Active(im, start, callers, regs);
    AllPlaced(im, callers) && |regs| <= NO_REGISTER &&
    match pending
    case None => s.frames == active
    case Some(p) => Awaits(s, active, p)
  }

  /** Changing one register changes one word, and no address. */
  lemma RegisterWritten(im: Image, start: nat, s: Stack, m: State, r: nat, c: Cell)
    requires m.Running? && OnStack(im, start, s, m) && r < |m.regs|
    ensures |m.callers| < |s.frames| && s.frames[|m.callers|].words == m.regs
    ensures s.frames[..|m.callers| + 1] == Active(im, start, m.callers, m.regs)
    ensures OnStack(im, start, Written(s, |m.callers|, r, c), m.(regs := m.regs[r := c]))
    ensures Base(start, Active(im, start, m.callers, m.regs[r := c]))
            == Base(start, Active(im, start, m.callers, m.regs))
  {
    hide CallerFrames, LinkPc, LinkRet, AllPlaced;
    var i := |m.callers|;
    var active, later := Active(im, start, m.callers, m.regs), Active(im, start, m.callers, m.regs[r := c]);
    assert s.frames[..i + 1] == active;
    assert s.frames[i] == active[i];
    assert later == active[i := active[i].(words := m.regs[r := c])];
    assert ButLast(later) == ButLast(active);
    if m.pending.Some? {
      var t := Written(s, i, r, c);
      assert t.frames[..|later|] == later;
      assert Last(t.frames) == Last(s.frames);
    }
  }

  lemma FrameOpened(im: Image, start: nat, s: Stack, m: State, count: nat)
    requires m.Running? && m.pending.None? && OnStack(im, start, s, m) && FitsFrame(s, count) && count <= NO_REGISTER
    ensures OnStack(im, start, Began(s, count), m.(pending := Some(Pending(Zeros(count), 0))))
  {
    hide Active, AllPlaced;
    var t := Began(s, count);
    assert Zeros(count)[0..] == Zeros(count);
    assert t.free[..count] == Zeros(count);
    LastOf(s.frames, Frame(NULL, s.free[2], []));
  }

  lemma ArgumentPushed(im: Image, start: nat, s: Stack, m: State, dst: nat)
    requires m.Running? && OnStack(im, start, s, m) && dst < |m.regs| && Machine.PushArgument(m, dst).Some?
    ensures s.frames != [] && s.free != []
            && OnStack(im, start, Pushed(s, m.regs[dst]), Machine.PushArgument(m, dst).value)
  {
    hide Active, AllPlaced;
    var p, c := m.pending.value, m.regs[dst];
    var f := Last(s.frames);
    LastOf(ButLast(s.frames), f.(words := f.words + [c]));
    var next := Machine.PushArgument(m, dst).value.pending.value;
    assert next.cells[..next.pushed] == p.cells[..p.pushed] + [c];
    assert s.free[1..][..|p.cells| - p.pushed - 1] == s.free[..|p.cells| - p.pushed][1..];
    assert next.cells[next.pushed..] == p.cells[p.pushed..][1..];
  }

  /** The callee's registers are the pushed cells; its record leads back here. */
  lemma CalleeEntered(im: Image, start: nat, s: Stack, m: State, dst: nat, ret: nat)
    requires m.Running? && OnStack(im, start, s, m) && dst < |m.regs|
             && Machine.CallFunction(im.binary, m, dst, ret).Some?
    requires m.fn < |im.entries| == |im.binary.functions| && 0 <= m.pc <= |im.binary.functions[m.fn].code|
    ensures s.frames != [] && FitsRegisters(s, |m.pending.value.cells|)
    ensures var at, base := CodeAddress(im, m.fn, m.pc), Base(start, Active(im, start, m.callers, m.regs));
            && at >= 0
            && var t := Entered(s, Pointer(at), if ret == NO_REGISTER then NULL else Pointer(base + ret),
                                |m.pending.value.cells|);
               var next := Machine.CallFunction(im.binary, m, dst, ret).value;
            && OnStack(im, start, t, next) && t.frames == Active(im, start, next.callers, next.regs)
  {
    var active, p := Active(im, start, m.callers, m.regs), m.pending.value;
    var callers := m.callers + [Suspended(m.fn, m.pc, m.regs, ret)];
    assert callers[..|m.callers|] == m.callers;
    assert CallerFrames(im, start, callers) == active;
    var area, count := Last(s.frames).words + s.free, |p.cells|;
    assert p.cells == p.cells[..p.pushed] + p.cells[p.pushed..];
    assert area[..count] == p.cells[..p.pushed] + s.free[..count - p.pushed];
    assert ButLast(s.frames) == active;
  }

  function WithResult(callers: seq<Suspended>, c: Cell): seq<Suspended>
    requires callers != [] ==> callers[|callers| - 1].ret < |callers[|callers| - 1].regs|
  {
    if callers == [] then []
    else
      var last := callers[|callers| - 1];
      callers[..|callers| - 1] + [last.(regs := last.regs[last.ret := c])]
  }

  /** The caller, once its callee's frame is gone. */
  function Resumed(m: State): State
    requires m.Running?
  {
    if m.callers == [] then Returned(None)
    else
      var c := m.callers[|m.callers| - 1];
      Running(m.callers[..|m.callers| - 1], c.fn, c.pc, c.regs, None)
  }

  /** What a return finds in the record below its registers, and where that leads. */
  lemma ReturnLinks(im: Image, start: nat, s: Stack, m: State)
    requires m.Running? && m.pending.None? && OnStack(im, start, s, m) && ValidImage(im)
    ensures s.frames != [] && Last(s.frames).ret == LinkRet(im, start, m.callers) && |s.frames| == |m.callers| + 1
    ensures m.callers != [] ==>
              var c, below := m.callers[|m.callers| - 1], m.callers[..|m.callers| - 1];
              && Raw64(Last(s.frames).pc) == CodeAddress(im, c.fn, c.pc) && AllPlaced(im, below)
                 && c.fn < |im.binary.functions|
              && Ended(start, s).frames == Active(im, start, below, c.regs)
                 && FramesFor(im, start, Ended(start, s), below, c.regs, None)
    ensures m.callers == [] ==> Ended(start, s).frames == []
  {
    if m.callers != [] {
      var c := m.callers[|m.callers| - 1];
      assert Placed(im, c) && Loaded(im, c.fn);
      PointerRead(CodeAddress(im, c.fn, c.pc));
      assert Ended(start, s).frames == CallerFrames(im, start, m.callers);
    }
  }

  /** The word a return stores to is the caller's result register. */
  lemma CallerWritten(im: Image, stack: CallStack, m: State, c: Cell)
    requires m.Running? && m.pending.None? && stack.Valid() && HOST_REGISTER < stack.start
             && OnStack(im, stack.start, stack.state, m)
    requires m.callers != [] ==> m.callers[|m.callers| - 1].ret < |m.callers[|m.callers| - 1].regs|
    requires m.callers != [] ==> m.callers[|m.callers| - 1].ret != NO_REGISTER
    ensures var a := Raw64(LinkRet(im, stack.start, m.callers));
            if m.callers == [] then a == HOST_REGISTER
            else
              var i := |m.callers| - 1;
              var ret := m.callers[i].ret;
              && a != HOST_REGISTER && i < |stack.state.frames| && ret < |stack.state.frames[i].words|
              && a == Base(stack.start, stack.state.frames[..i + 1]) + ret
              && OnStack(im, stack.start, Written(stack.state, i, ret, c), m.(callers := WithResult(m.callers, c)))
              && Base(stack.start, Active(im, stack.start, WithResult(m.callers, c), m.regs))
                 == Base(stack.start, Active(im, stack.start, m.callers, m.regs))
  {
    var start, s := stack.start, stack.state;
    if m.callers == [] {
      PointerRead(HOST_REGISTER);
    } else {
      var i := |m.callers| - 1;
      var last, below := m.callers[i], m.callers[..i];
      var later := WithResult(m.callers, c);
      assert s.frames[..i + 1] == CallerFrames(im, start, m.callers);
      assert s.frames[i] == CallerFrames(im, start, m.callers)[i];
      LaidWritten(start, stack.memory[..], s, i, last.ret, c);
      PointerRead(Base(start, s.frames[..i + 1]) + last.ret);
      assert later[..i] == below;
      assert ButLast(CallerFrames(im, start, later)) == ButLast(CallerFrames(im, start, m.callers));
      var regs := last.regs[last.ret := c];
      assert CallerFrames(im, start, later) == CallerFrames(im, start, m.callers)[i := s.frames[i].(words := regs)];
      var t := Written(s, i, last.ret, c);
      assert later[i] == last.(regs := regs);
      assert LinkPc(im, later) == LinkPc(im, m.callers);
      assert LinkRet(im, start, later) == LinkRet(im, start, m.callers);
      assert t.frames == Active(im, start, later, m.regs);
      assert Base(start, t.frames) == Base(start, s.frames);
    }
  }

  // ----- how much of the block a state takes -----

  function CallerWords(callers: seq<Suspended>): nat {
    if callers == [] then 0
    else CallerWords(callers[..|callers| - 1]) + RECORD_WORDS + |callers[|callers| - 1].regs|
  }

  /** The registers of all frames and their records, an opened frame counted in full. */
  function Words(m: State): nat {
    match m
    case Running(callers, _, _, regs, pending) =>
      CallerWords(callers) + RECORD_WORDS + |regs| + if pending.Some? then RECORD_WORDS + |pending.value.cells| else 0
    case _ => 0
  }

  /** The most words any state of a run takes. */
  function WordsNeeded(b: Binary, m: State, n: nat): nat
    requires ValidBinary(b)
    decreases n
  {
    if n == 0 || Step(b, m).None? then Words(m)
    else
      var later := WordsNeeded(b, Step(b, m).value, n - 1);
      if later > Words(m) then later else Words(m)
  }

  lemma {:induction false} ActiveSize(im: Image, start: nat, callers: seq<Suspended>, regs: seq<Cell>)
    ensures Size(Active(im, start, callers, regs)) == CallerWords(callers) + RECORD_WORDS + |regs|
    decreases |callers|
  {
    hide LinkPc, LinkRet;
    var active := Active(im, start, callers, regs);
    assert ButLast(active) == CallerFrames(im, start, callers);
    if callers != [] {
      ActiveSize(im, start, callers[..|callers| - 1], callers[|callers| - 1].regs);
    }
  }

  /** A further frame fits exactly when the words it would add leave one free. */
  lemma FrameFits(im: Image, start: nat, memory: seq<Cell>, s: Stack, m: State, count: nat)
    requires m.Running? && m.pending.None? && OnStack(im, start, s, m) && Laid(start, memory, s)
    ensures FitsFrame(s, count) <==> Words(m) + RECORD_WORDS + count < |memory|
  {
    ActiveSize(im, start, m.callers, m.regs);
    hide Active, Flat, AllPlaced;
  }

  lemma SameWords(m: State, pc: int)
    requires m.Running?
    ensures Words(m.(pc := pc)) == Words(m)
  {
  }

  lemma LoadWords(b: Binary, m: State, dst: nat, index: nat)
    requires ValidBinary(b) && m.Running? && dst < |m.regs| && LoadFunction(b, m, dst, index).Some?
    ensures Words(LoadFunction(b, m, dst, index).value) == Words(m) + RECORD_WORDS + b.functions[index].nRegisters
  {
  }

  /** Only loading a function takes more of the block. */
  lemma OtherWords(b: Binary, m: State, w: Word)
    requires ValidBinary(b) && m.Running? && Execute(b, m, w).Some? && UnpackInstruction(w) != LOAD_FUNCTION
    ensures Words(Execute(b, m, w).value) <= Words(m)
  {
    hide Dispatch, Operate, UnpackInstruction, UnpackDst, UnpackSrc1, UnpackSrc2, UnpackValue16, UnpackValue16Signed,
         UnpackValue24Signed;
    hide FunctionAt, ValidBinary, Zeros;
    if UnpackInstruction(w) == CALL {
      var callers := m.callers + [Suspended(m.fn, m.pc, m.regs, UnpackSrc1(w))];
      assert callers[..|m.callers|] == m.callers;
    }
  }

  lemma NeededLater(b: Binary, m: State, n: nat, limit: nat)
    requires ValidBinary(b) && n > 0 && Step(b, m).Some? && Words(m) < limit
    ensures WordsNeeded(b, m, n) < limit <==> WordsNeeded(b, Step(b, m).value, n - 1) < limit
  {
    hide Words, Step;
  }

  lemma NeededFirst(b: Binary, m: State, n: nat)
    requires ValidBinary(b)
    ensures WordsNeeded(b, m, n) >= Words(m)
  {
    hide Words, Step;
  }

  lemma NeededAtEnd(b: Binary, m: State, n: nat)
    requires ValidBinary(b)
    ensures !m.Running? ==> WordsNeeded(b, m, n) == 0
  {
  }

  /** The interpreter refuses to load this function. */
  predicate Refused(b: Binary, m: State, w: Word)
    requires m.Running?
  {
    m.pending.None? && UnpackInstruction(w) == LOAD_FUNCTION && UnpackDst(w) < |m.regs|
      && UnpackValue16(w) > |b.functions|
  }

  predicate RefusedAt(b: Binary, m: State) {
    && m.Running? && m.fn < |b.functions| && 0 <= m.pc < |b.functions[m.fn].code|
    && Refused(b, m, b.functions[m.fn].code[m.pc])
  }

  /** The function to be loaded exists, but its frame does not fit in a block of so many words. */
  predicate Overflows(b: Binary, m: State, w: Word, limit: nat)
    requires m.Running?
  {
    && UnpackInstruction(w) == LOAD_FUNCTION && UnpackValue16(w) < |b.functions|
    && Words(m) + RECORD_WORDS + b.functions[UnpackValue16(w)].nRegisters >= limit
  }

  /**
    An index that is one past the last function is accepted by the test for it, and only
    then is there no function behind the pointer that gets loaded.
   */
  lemma AcceptedWithoutFunction(b: Binary, index: nat)
    requires ValidBinary(b) && index <= |b.functions| && b.functionTable + FUNCTION_RECORD_SIZE * index < TWO_64
    ensures FunctionAt(b, FromRaw64(b.functionTable + FUNCTION_RECORD_SIZE * index)).None? <==> index == |b.functions|
  {
  }

  class Context {
    const image: Image
    const stack: CallStack
    var pc: int
    var registers: nat
    var hostResult: Cell

    constructor (image: Image, start: nat, memory: array<Cell>)
      requires HOST_REGISTER < start && start + memory.Length < TWO_64
      ensures stack.Valid() && stack.start == start && stack.memory == memory && stack.state == Stack([], memory[..])
      ensures this.image == image && fresh(stack) && pc == 0
    {
      this.image := image;
      stack := new CallStack(start, memory);
      pc, registers, hostResult := 0, 0, ZERO_CELL;
    }

    /** The interpreter's memory holds the state of the abstract machine. */
    ghost predicate Related(m: State)
      reads this, stack, stack.memory
    {
      && stack.Valid() && HOST_REGISTER < stack.start && ValidImage(image)
      && match m
         case Halted => true
         case Returned(v) => pc == 0 && stack.state.frames == [] && (v.Some? ==> hostResult == v.value)
         case Running(callers, fn, at, regs, _) =>
           && fn < |image.binary.functions| && pc == CodeAddress(image, fn, at)
           && registers == Base(stack.start, Active(image, stack.start, callers, regs))
           && OnStack(image, stack.start, stack.state, m)
           && Words(m) < stack.memory.Length
    }

    method LoadRegister(r: nat, ghost m: State) returns (c: Cell)
      requires Related(m) && m.Running? && r < |m.regs|
      ensures c == m.regs[r]
    {
      RegisterWritten(image, stack.start, stack.state, m, r, ZERO_CELL);
      hide FramesFor, Active, Base;
      c := stack.Load(registers + r, |m.callers|, r);
    }

    method StoreRegister(r: nat, c: Cell, ghost m: State)
      requires Related(m) && m.Running? && r < |m.regs|
      modifies stack, stack.memory
      ensures Related(m.(regs := m.regs[r := c]))
    {
      RegisterWritten(image, stack.start, stack.state, m, r, c);
      hide FramesFor, Active, Base;
      stack.Store(registers + r, c, |m.callers|, r);
    }

    // ----- calls -----

    /** The index is tested against the number of functions, which lets one index too many pass. */
    method TestFunctionIndex(value: nat) returns (accepted: bool)
      ensures accepted <==> value <= |image.binary.functions|
    {
      accepted := !(value > |image.binary.functions|);
    }

    /** For every index: refused, one past the table, too large a frame, or loaded. */
    method ExecuteLoadFunction(dst: nat, value: nat, ghost m: State) returns (status: Status)
      requires Related(m) && m.Running? && dst < |m.regs| && m.pending.None?
      modifies this, stack, stack.memory
      ensures status in {Going, InvalidFunctionCall, StackOverflow, Undefined}
      ensures status == InvalidFunctionCall <==> value > |image.binary.functions|
      ensures status == Undefined <==> value == |image.binary.functions|
      ensures status == StackOverflow <==>
                value < |image.binary.functions|
                  && Words(m) + RECORD_WORDS + image.binary.functions[value].nRegisters >= stack.memory.Length
      ensures status == Going ==> Related(LoadFunction(image.binary, m, dst, value).value)
      ensures status != Going ==> Related(m)
    {
      var accepted := TestFunctionIndex(value);
      if !accepted {
        return InvalidFunctionCall;
      }
      if value == |image.binary.functions| {
        return Undefined;
      }
      var count := image.binary.functions[value].nRegisters;
      ghost var before := stack.state;
      FrameFits(image, stack.start, stack.memory[..], before, m, count);
      var ok := stack.FrameBegin(count);
      if !ok {
        return StackOverflow;
      }
      ghost var begun := m.(pending := Some(Pending(Zeros(count), 0)));
      FrameOpened(image, stack.start, before, m, count);
      StoreRegister(dst, FunctionPointer(image.binary, value), begun);
      return Going;
    }

    method ExecutePush(dst: nat, ghost m: State) returns (status: Status)
      requires Related(m) && m.Running? && dst < |m.regs| && Machine.PushArgument(m, dst).Some?
      modifies this, stack, stack.memory
      ensures status == Going && Related(Machine.PushArgument(m, dst).value)
    {
      ArgumentPushed(image, stack.start, stack.state, m, dst);
      var c := LoadRegister(dst, m);
      hide FramesFor, Active;
      var ok := stack.Push(c);
      if !ok {
        return StackOverflow;
      }
      return Going;
    }

    method ExecuteCall(dst: nat, ret: nat, ghost m: State) returns (status: Status)
      requires Related(m) && m.Running? && dst < |m.regs| && Machine.CallFunction(image.binary, m, dst, ret).Some?
      requires 0 <= m.pc <= |image.binary.functions[m.fn].code|
      modifies this, stack, stack.memory
      ensures status == Going && Related(Machine.CallFunction(image.binary, m, dst, ret).value)
    {
      hide FramesFor, Active, Entered, Base, FitsRegisters, Pointer, FunctionAt, ValidBinary, Loaded;
      CalleeEntered(image, stack.start, stack.state, m, dst, ret);
      var pointer := LoadRegister(dst, m);
      var callee := FunctionAt(image.binary, pointer).value;
      CalleeKnown(image.binary, pointer);
      var ret_pointer := if ret == NO_REGISTER then NULL else Pointer(registers + ret);
      var ok := stack.FunctionBegin(Pointer(pc), ret_pointer, image.binary.functions[callee].nRegisters);
      if !ok {
        return StackOverflow;
      }
      pc := image.fileStart + image.entries[callee];
      registers := stack.LocalRegisters();
      return Going;
    }

    lemma CalleeKnown(b: Binary, pointer: Cell)
      requires FunctionAt(b, pointer).Some?
      ensures FunctionAt(b, pointer).value < |b.functions|
    {
    }

    method ExecuteReturn(dst: nat, ghost m: State) returns (status: Status)
      requires Related(m) && m.Running? && ReturnToCaller(m, dst).Some?
      modifies this, stack, stack.memory
      ensures status == Going && Related(ReturnToCaller(m, dst).value)
    {
      hide FramesFor, Active, CallerFrames, Base, ValidImage;
      ReturnLinks(image, stack.start, stack.state, m);
      if dst != NO_REGISTER {
        var c := LoadRegister(dst, m);
        var ret := stack.ReturnRegister();
        DeliverResult(Raw64(ret), c, m);
        status := LeaveFrame(m.(callers := WithResult(m.callers, c)));
      } else {
        status := LeaveFrame(m);
      }
    }

    method LeaveFrame(ghost m: State) returns (status: Status)
      requires Related(m) && m.Running? && m.pending.None?
      modifies this`pc, this`registers, stack
      ensures status == Going && Related(Resumed(m))
    {
      ReturnLinks(image, stack.start, stack.state, m);
      hide FramesFor, Active, CallerFrames, LinkPc, LinkRet;
      var ok, resume := stack.FrameEnd();
      if !ok {
        return StackUnderflow;
      }
      pc := Raw64(resume);
      registers := stack.LocalRegisters();
      return Going;
    }

    /** The result goes to the host, or into the caller's frame. */
    method DeliverResult(address: nat, c: Cell, ghost m: State)
      requires Related(m) && m.Running? && m.pending.None?
      requires m.callers != [] ==> m.callers[|m.callers| - 1].ret < |m.callers[|m.callers| - 1].regs|
      requires address == Raw64(LinkRet(image, stack.start, m.callers))
      modifies this`hostResult, stack, stack.memory
      ensures Related(m.(callers := WithResult(m.callers, c)))
      ensures m.callers == [] ==> hostResult == c
    {
      CallerWritten(image, stack, m, c);
      hide FramesFor, Active, CallerFrames, Base, LinkRet;
      if address == HOST_REGISTER {
        hostResult := c;
      } else {
        stack.Store(address, c, |m.callers| - 1, m.callers[|m.callers| - 1].ret);
      }
    }

    // ----- the loop -----

    /** One turn of the loop. Only the load of a function that is none, or whose frame does not fit, stops it early. */
    method Turn(ghost m: State) returns (status: Status)
      requires Related(m) && m.Running? && (Step(image.binary, m).Some? || RefusedAt(image.binary, m))
      modifies this, stack, stack.memory
      ensures status in {Going, NoError, InvalidFunctionCall, StackOverflow}
      ensures status == InvalidFunctionCall <==> RefusedAt(image.binary, m)
      ensures status in {Going, NoError} ==> Related(Step(image.binary, m).value)
      ensures status == NoError <==> Step(image.binary, m) == Some(Halted)
      ensures status == StackOverflow <==>
                Step(image.binary, m).Some? && Words(Step(image.binary, m).value) >= stack.memory.Length
    {
      hide Related, Words, Overflows, Refused, RefusedAt, Step, Execute, UnpackInstruction, ValidBinary;
      ghost var n := m.(pc := m.pc + 1);
      var code := Fetch(m);
      var inst := UnpackInstruction(code);
      if inst == HALT {
        return NoError;
      } else if inst == JUMP || inst == JUMP_TRUE || inst == JUMP_FALSE {
        ExecuteJump(code, n);
      } else if inst == RETURN || inst == LOAD_FUNCTION || inst == PUSH_ARG || inst == CALL {
        status := ExecuteFrames(code, n);
        return;
      } else {
        ExecuteStore(code, n);
      }
      return Going;
    }

    /** The next word of the code; the program counter moves past it. */
    method Fetch(ghost m: State) returns (code: Word)
      requires Related(m) && m.Running? && (Step(image.binary, m).Some? || RefusedAt(image.binary, m))
      modifies this`pc
      ensures Related(m.(pc := m.pc + 1)) && Related(Halted) && ValidBinary(image.binary)
      ensures var n := m.(pc := m.pc + 1);
              && (Step(image.binary, m).Some? ==> Step(image.binary, m) == Execute(image.binary, n, code))
              && (UnpackInstruction(code) == HALT <==> Step(image.binary, m) == Some(Halted))
              && (RefusedAt(image.binary, m) <==> Refused(image.binary, n, code))
              && (Refused(image.binary, n, code) || Overflows(image.binary, n, code, stack.memory.Length) ==>
                  UnpackInstruction(code) == LOAD_FUNCTION)
              && (Refused(image.binary, n, code) ==> Step(image.binary, m).None?)
              && (Step(image.binary, m).Some? ==>
                    (Words(Step(image.binary, m).value) >= stack.memory.Length <==>
                     Overflows(image.binary, n, code, stack.memory.Length)))
      ensures 0 <= m.pc < |image.binary.functions[m.fn].code|
    {
      TurnWords(m);
      WordTaken(m);
      hide FramesFor, Active, Base, ValidImage, Words, Overflows, Related, Refused, RefusedAt, Step, Execute,
           UnpackInstruction;
      code := NextWord(m);
    }

    /** What the next word does is the step of the abstract machine. */
    lemma WordTaken(m: State)
      requires Related(m) && m.Running? && (Step(image.binary, m).Some? || RefusedAt(image.binary, m))
      ensures ValidBinary(image.binary) && 0 <= m.pc < |image.binary.functions[m.fn].code|
      ensures var w, n := image.binary.functions[m.fn].code[m.pc], m.(pc := m.pc + 1);
              && (Step(image.binary, m).Some? ==> Step(image.binary, m) == Execute(image.binary, n, w))
              && (UnpackInstruction(w) == HALT <==> Step(image.binary, m) == Some(Halted))
              && (Refused(image.binary, n, w) ==> Step(image.binary, m).None?)
    {
      RelatedBinary(m);
      hide Related, UnpackInstruction;
    }

    method NextWord(ghost m: State) returns (code: Word)
      requires Related(m) && m.Running? && (Step(image.binary, m).Some? || RefusedAt(image.binary, m))
      modifies this`pc
      ensures Related(m.(pc := m.pc + 1)) && Related(Halted)
      ensures 0 <= m.pc < |image.binary.functions[m.fn].code| && code == image.binary.functions[m.fn].code[m.pc]
    {
      PcInRange(m);
      SameWords(m, m.pc + 1);
      hide FramesFor, Active, Base, ValidImage, Words, Execute;
      code := File.NumberAt(image.file, pc - image.fileStart, WORD_SIZE);
      pc := pc + WORD_SIZE;
    }

    method ExecuteJump(code: Word, ghost m: State)
      requires Related(m) && m.Running? && Execute(image.binary, m, code).Some?
      requires UnpackInstruction(code) in {JUMP, JUMP_TRUE, JUMP_FALSE}
      modifies this`pc
      ensures Related(Execute(image.binary, m, code).value)
    {
      RelatedBinary(m);
      hide FramesFor, Active, Base, ValidImage;
      var inst, dst := UnpackInstruction(code), UnpackDst(code);
      if inst == JUMP {
        pc := pc + WORD_SIZE * UnpackValue24Signed(code);
      } else if inst == JUMP_TRUE {
        var c := LoadRegister(dst, m);
        if c.lo != 0 {
          pc := pc + WORD_SIZE * UnpackValue16Signed(code);
        }
      } else {
        var c := LoadRegister(dst, m);
        if c.lo == 0 {
          pc := pc + WORD_SIZE * UnpackValue16(code);
        }
      }
    }

    /** The instructions that open, fill, enter and leave frames. */
    method ExecuteFrames(code: Word, ghost m: State) returns (status: Status)
      requires Related(m) && m.Running? && UnpackInstruction(code) in {RETURN, LOAD_FUNCTION, PUSH_ARG, CALL}
      requires 0 <= m.pc <= |image.binary.functions[m.fn].code|
      requires Execute(image.binary, m, code).Some? || Refused(image.binary, m, code)
      modifies this, stack, stack.memory
      ensures status in {Going, InvalidFunctionCall, StackOverflow}
      ensures status == InvalidFunctionCall <==> Refused(image.binary, m, code)
      ensures status == Going ==> Related(Execute(image.binary, m, code).value)
      ensures status == StackOverflow <==> Overflows(image.binary, m, code, stack.memory.Length)
    {
      hide FramesFor, Active, Base, ValidImage, Words;
      var inst, dst := UnpackInstruction(code), UnpackDst(code);
      if inst == RETURN {
        status := ExecuteReturn(dst, m);
      } else if inst == LOAD_FUNCTION {
        status := ExecuteLoadFunction(dst, UnpackValue16(code), m);
      } else if inst == PUSH_ARG {
        status := ExecutePush(dst, m);
      } else {
        status := ExecuteCall(dst, UnpackSrc1(code), m);
      }
    }

    /** What is known of the words before it is known which instruction it is. */
    lemma TurnWords(m: State)
      requires Related(m) && m.Running? && (Step(image.binary, m).Some? || RefusedAt(image.binary, m))
      ensures ValidBinary(image.binary)
      ensures Words(m.(pc := m.pc + 1)) == Words(m)
      ensures var w, n := image.binary.functions[m.fn].code[m.pc], m.(pc := m.pc + 1);
              && (RefusedAt(image.binary, m) <==> Refused(image.binary, n, w))
              && (Step(image.binary, m).Some? ==>
                    (Words(Step(image.binary, m).value) >= stack.memory.Length <==>
                     Overflows(image.binary, n, w, stack.memory.Length)))
              && (Overflows(image.binary, n, w, stack.memory.Length) || Refused(image.binary, n, w) ==>
                  UnpackInstruction(w) == LOAD_FUNCTION)
    {
      RelatedBinary(m);
      hide FramesFor, Active, Base, ValidImage, Words;
      SameWords(m, m.pc + 1);
      var w, n := image.binary.functions[m.fn].code[m.pc], m.(pc := m.pc + 1);
      if Step(image.binary, m).Some? {
        if UnpackInstruction(w) == LOAD_FUNCTION {
          LoadWords(image.binary, n, UnpackDst(w), UnpackValue16(w));
        } else {
          OtherWords(image.binary, n, w);
        }
      }
    }

    /** The instructions that only set their destination register. */
    method ExecuteStore(code: Word, ghost m: State)
      requires Related(m) && m.Running? && Execute(image.binary, m, code).Some?
      requires UnpackInstruction(code) !in {HALT, JUMP, RETURN, LOAD_FUNCTION, PUSH_ARG, CALL, JUMP_TRUE, JUMP_FALSE}
      modifies stack, stack.memory
      ensures Related(Execute(image.binary, m, code).value)
    {
      var inst, dst := UnpackInstruction(code), UnpackDst(code);
      hide UnpackInstruction, UnpackDst, UnpackSrc1, UnpackSrc2, UnpackValue16, Related;
      var before := LoadRegister(dst, m);
      var result;
      if inst == LOAD_VALUE {
        result := FromRaw64(UnpackValue16(code));
      } else if inst == LOAD_CONST_32 {
        result := before.(lo := image.binary.constants32[UnpackValue16(code)]);
      } else if inst == LOAD_CONST_64 {
        result := FromRaw64(image.binary.constants64[UnpackValue16(code)]);
      } else if inst == COPY_REGISTER {
        result := LoadRegister(UnpackSrc1(code), m);
      } else {
        var operation := Dispatch(inst).value;
        var src1 := LoadRegister(UnpackSrc1(code), m);
        var src2 := ZERO_CELL;
        if !operation.Unary? {
          src2 := LoadRegister(UnpackSrc2(code), m);
        }
        result := Operate(operation, before, src1, src2).value;
      }
      StoreRegister(dst, result, m);
    }

    /**
      Whatever run the abstract machine makes to its end, the loop makes too: it stops at
      the same HALT, or with the stack empty and the result delivered, exactly when the
      block has room for the state of the run that takes most words.
     */
    method Run(ghost m: State, ghost n: nat, ghost final: State) returns (status: Status)
      requires Related(m) && m.Running? && Machine.Run(image.binary, m, n) == Some(final) && !final.Running?
      modifies this, stack, stack.memory
      ensures status == if WordsNeeded(image.binary, m, n) < stack.memory.Length then NoError else StackOverflow
      ensures status == NoError ==> Related(final)
    {
      hide Related, Step, Machine.Run, ValidImage, ValidBinary, Words, WordsNeeded, RefusedAt;
      RelatedBinary(m);
      ghost var cur, left := m, n;
      while pc != 0 && pc < image.fileStart + |image.file|
        invariant ValidBinary(image.binary)
        invariant Related(cur) && !cur.Halted? && Machine.Run(image.binary, cur, left) == Some(final)
        invariant WordsNeeded(image.binary, m, n) < stack.memory.Length <==>
                  WordsNeeded(image.binary, cur, left) < stack.memory.Length
        decreases left
      {
        NotFinished(cur, left, final);
        ghost var next := Step(image.binary, cur).value;
        NeededLater(image.binary, cur, left, stack.memory.Length);
        NeededFirst(image.binary, next, left - 1);
        status := Turn(cur);
        if status != Going {
          NeededAtEnd(image.binary, next, left - 1);
          return;
        }
        cur, left := next, left - 1;
      }
      Finished(cur, left, final);
      NeededAtEnd(image.binary, cur, left);
      return NoError;
    }

    lemma RelatedBinary(m: State)
      requires Related(m)
      ensures ValidBinary(image.binary)
      ensures m.Running? ==> stack.memory.Length > 0
    {
    }

    /** While the program counter is in the code, the abstract machine has a step to take. */
    lemma NotFinished(m: State, n: nat, final: State)
      requires Related(m) && !m.Halted? && pc != 0 && Machine.Run(image.binary, m, n) == Some(final) && !final.Running?
      ensures Words(m) < stack.memory.Length
      ensures m.Running? && n > 0 && !RefusedAt(image.binary, m) && Step(image.binary, m).Some?
              && Machine.Run(image.binary, Step(image.binary, m).value, n - 1) == Some(final)
      ensures Step(image.binary, m) == Some(Halted) ==> final == Halted
    {
    }

    lemma Finished(m: State, n: nat, final: State)
      requires Related(m) && !m.Halted? && Machine.Run(image.binary, m, n) == Some(final) && !final.Running?
      requires pc == 0 || pc >= image.fileStart + |image.file|
      ensures m == final
    {
      if m.Running? {
        PcInRange(m);
      }
    }

    lemma PcInRange(m: State)
      requires Related(m) && m.Running? && (Step(image.binary, m).Some? || RefusedAt(image.binary, m))
      ensures ValidBinary(image.binary) && Words(m) < stack.memory.Length
      ensures image.fileStart <= pc < image.fileStart + |image.file|
      ensures File.NumberAt(image.file, pc - image.fileStart, WORD_SIZE) == image.binary.functions[m.fn].code[m.pc]
    {
      assert Loaded(image, m.fn);
    }

    // ----- calls from the host -----

    lemma HostRelated(fn: nat, args: seq<Cell>)
      requires stack.Valid() && HOST_REGISTER < stack.start && ValidImage(image)
      requires fn < |image.binary.functions| && |args| <= image.binary.functions[fn].nRegisters
      requires stack.state.frames == [Frame(NULL, Pointer(HOST_REGISTER), HostState(image.binary, fn, args).regs)]
      requires pc == image.fileStart + image.entries[fn] && registers == Base(stack.start, stack.state.frames)
      requires Words(HostState(image.binary, fn, args)) < stack.memory.Length
      ensures Related(HostState(image.binary, fn, args))
    {
      hide FramesFor, Active, Base;
      HostFrame(image, stack.start, stack.state, fn, args);
    }

    /** Opens a frame, pushes the arguments and runs the function to its end. */
    method CallFromHost(fn: nat, args: seq<Cell>, ghost n: nat, ghost final: State) returns (status: Status)
      requires stack.Valid() && HOST_REGISTER < stack.start && ValidImage(image) && stack.state.frames == []
      requires fn < |image.binary.functions| && |args| <= image.binary.functions[fn].nRegisters
      requires Machine.Run(image.binary, HostState(image.binary, fn, args), n) == Some(final) && !final.Running?
      modifies this, stack, stack.memory
      ensures status == if WordsNeeded(image.binary, HostState(image.binary, fn, args), n) < stack.memory.Length
              then NoError else StackOverflow
      ensures status == NoError ==> Related(final)
    {
      hide ValidImage, FramesFor, Began, PushAll, Pushed, Entered, Active, Zeros, Pointer, FitsFrame, Base,
           Machine.Run, Related, WordsNeeded, Words;
      HostBounds(image, fn);
      HostWords(image, stack.start, stack.memory[..], stack.state, fn, args);
      NeededFirst(image.binary, HostState(image.binary, fn, args), n);
      var count := image.binary.functions[fn].nRegisters;
      ghost var s := stack.state;
      var ok := stack.FrameBegin(count);
      if !ok {
        return StackOverflow;
      }
      HostArguments(s, count, args);
      var i := 0;
      while i < |args|
        invariant 0 <= i <= |args| && stack.Valid()
        invariant stack.state.frames != [] && |args| - i <= |stack.state.free|
        invariant PushAll(stack.state, args[i..]) == PushAll(Began(s, count), args)
      {
        PushFirst(stack.state, args[i..]);
        assert args[i..][1..] == args[i + 1..];
        ok := stack.Push(args[i]);
        i := i + 1;
      }
      PushNone(stack.state, args[i..]);
      CalleeRegisters(s, count, args, NULL, Pointer(HOST_REGISTER));
      ok := stack.FunctionBegin(NULL, Pointer(HOST_REGISTER), count);
      assert stack.state == Entered(PushAll(Began(s, count), args), NULL, Pointer(HOST_REGISTER), count);
      pc := image.fileStart + image.entries[fn];
      registers := stack.LocalRegisters();
      HostRelated(fn, args);
      status := Run(HostState(image.binary, fn, args), n, final);
    }
  }

  lemma PushFirst(s: Stack, args: seq<Cell>)
    requires s.frames != [] && 0 < |args| <= |s.free|
    ensures PushAll(s, args) == PushAll(Pushed(s, args[0]), args[1..])
    ensures Pushed(s, args[0]).frames != [] && |Pushed(s, args[0]).free| == |s.free| - 1
  {
  }

  lemma PushNone(s: Stack, args: seq<Cell>)
    requires s.frames != [] && args == []
    ensures PushAll(s, args) == s
  {
  }

  /** A function at its first word, called by the host. */
  function HostState(b: Binary, fn: nat, args: seq<Cell>): State
    requires fn < |b.functions| && |args| <= b.functions[fn].nRegisters
  {
    Running([], fn, 0, args + Zeros(b.functions[fn].nRegisters - |args|), None)
  }

  lemma HostFrame(im: Image, start: nat, s: Stack, fn: nat, args: seq<Cell>)
    requires ValidImage(im) && fn < |im.binary.functions| && |args| <= im.binary.functions[fn].nRegisters
    requires s.frames == [Frame(NULL, Pointer(HOST_REGISTER), HostState(im.binary, fn, args).regs)]
    ensures FramesFor(im, start, s, [], HostState(im.binary, fn, args).regs, None)
    ensures Active(im, start, [], HostState(im.binary, fn, args).regs) == s.frames
  {
  }

  lemma HostWords(im: Image, start: nat, memory: seq<Cell>, s: Stack, fn: nat, args: seq<Cell>)
    requires fn < |im.binary.functions| && |args| <= im.binary.functions[fn].nRegisters && Laid(start, memory, s)
             && s.frames == []
    ensures FitsFrame(s, im.binary.functions[fn].nRegisters) <==> Words(HostState(im.binary, fn, args)) < |memory|
  {
  }

  lemma HostBounds(im: Image, fn: nat)
    requires ValidImage(im) && fn < |im.binary.functions|
    ensures ValidBinary(im.binary) && fn < |im.entries| && im.binary.functions[fn].nRegisters <= NO_REGISTER
  {
  }

  lemma HostArguments(s: Stack, count: nat, args: seq<Cell>)
    requires FitsFrame(s, count) && |args| <= count
    ensures Began(s, count).frames != [] && |args| <= |Began(s, count).free|
    ensures args[0..] == args
  {
  }
}
