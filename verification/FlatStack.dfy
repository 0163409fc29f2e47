/**
  The machine's stack: one block of 8-byte words. Below the registers of each frame lies
  a three-word record: the address of the previous frame's registers, the program
  counter to resume at, and the register of the previous frame that takes the result.
  Addresses count words, and 0 is the null pointer.
 */
module FlatStack {
  import opened Options
  import opened Values
  import opened Registers
  import opened Machine

  const RECORD_WORDS := 3
  const NULL := ZERO_CELL

  /** `words` are the registers from the base of the frame to its top. */
  datatype Frame = Frame(pc: Cell, ret: Cell, words: seq<Cell>)

  /** The frames, outermost first, and the words above the top of the innermost one. */
  datatype Stack = Stack(frames: seq<Frame>, free: seq<Cell>)

  function Last(frames: seq<Frame>): Frame
    requires frames != []
  {
    frames[|frames| - 1]
  }

  function ButLast(frames: seq<Frame>): seq<Frame>
    requires frames != []
  {
    frames[..|frames| - 1]
  }

  /** The number of words the frames and their records take. */
  function Size(frames: seq<Frame>): nat {
    if frames == [] then 0 else Size(ButLast(frames)) + RECORD_WORDS + |Last(frames).words|
  }

  /** The address of the innermost frame's registers. */
  function Base(start: nat, frames: seq<Frame>): nat {
    if frames == [] then 0 else start + Size(ButLast(frames)) + RECORD_WORDS
  }

  function Pointer(a: nat): Cell {
    FromRaw64(a % TWO_64)
  }

  function Record(start: nat, below: seq<Frame>, f: Frame): (r: seq<Cell>)
    ensures |r| == RECORD_WORDS
  {
    [Pointer(Base(start, below)), f.pc, f.ret]
  }

  lemma BaseBelow(start: nat, frames: seq<Frame>)
    ensures Base(start, frames) <= start + Size(frames)
  {
  }

  /** The frames as words of memory. */
  function Flat(start: nat, frames: seq<Frame>): (words: seq<Cell>)
    ensures |words| == Size(frames)
  {
    if frames == [] then []
    else Flat(start, ButLast(frames)) + Record(start, ButLast(frames), Last(frames)) + Last(frames).words
  }

  // ----- the operations on values -----

  predicate FitsFrame(s: Stack, count: nat) {
    RECORD_WORDS + count < |s.free|
  }

  /** The result pointer of a new record is whatever the memory held. */
  function Began(s: Stack, count: nat): Stack
    requires FitsFrame(s, count)
  {
    Stack(s.frames + [Frame(NULL, s.free[2], [])], Zeros(count) + s.free[RECORD_WORDS + count..])
  }

  function Pushed(s: Stack, c: Cell): Stack
    requires s.frames != [] && s.free != []
  {
    var f := Last(s.frames);
    Stack(ButLast(s.frames) + [f.(words := f.words + [c])], s.free[1..])
  }

  predicate FitsRegisters(s: Stack, count: nat)
    requires s.frames != []
  {
    count < |Last(s.frames).words| + |s.free|
  }

  /** The frame takes `count` registers from its base, whatever they hold. */
  function Entered(s: Stack, pc: Cell, ret: Cell, count: nat): Stack
    requires s.frames != []
  {
    var f := Last(s.frames);
    var area := f.words + s.free;
    if count < |area| then Stack(ButLast(s.frames) + [Frame(pc, ret, area[..count])], area[count..])
    else Stack(ButLast(s.frames) + [f.(pc := pc, ret := ret)], s.free)
  }

  function Ended(start: nat, s: Stack): Stack
    requires s.frames != []
  {
    Stack(ButLast(s.frames), Record(start, ButLast(s.frames), Last(s.frames)) + Last(s.frames).words + s.free)
  }

  /** Register `r` of frame `i` set to `c`. */
  function Written(s: Stack, i: nat, r: nat, c: Cell): Stack
    requires i < |s.frames| && r < |s.frames[i].words|
  {
    var f := s.frames[i];
    s.(frames := s.frames[i := f.(words := f.words[r := c])])
  }

  lemma LastOf(below: seq<Frame>, f: Frame)
    ensures Last(below + [f]) == f && ButLast(below + [f]) == below
    ensures Size(below + [f]) == Size(below) + RECORD_WORDS + |f.words|
  {
    assert (below + [f])[..|below|] == below;
  }

  // ----- runs -----

  datatype Op = BeginOp(count: nat) | PushOp(c: Cell) | EnterOp(pc: Cell, ret: Cell, count: nat) | EndOp

  /** What the callers of each operation make sure of; a begin may still be refused. */
  predicate Allowed(s: Stack, op: Op) {
    match op
    case BeginOp(_) => true
    case PushOp(_) => s.frames != [] ==> s.free != []
    case EnterOp(_, _, _) => true
    case EndOp => true
  }

  /** The stack after an operation; one that fails leaves the frames alone, except that entering has set the record. */
  function Apply(start: nat, s: Stack, op: Op): Stack
    requires Allowed(s, op)
  {
    match op
    case BeginOp(count) => if FitsFrame(s, count) then Began(s, count) else s
    case PushOp(c) => if s.frames == [] then s else Pushed(s, c)
    case EnterOp(pc, ret, count) => if s.frames == [] then s else Entered(s, pc, ret, count)
    case EndOp => if s.frames == [] then s else Ended(start, s)
  }

  /** No operation gains or loses a word of the block. */
  lemma SizeKept(start: nat, s: Stack, op: Op)
    requires Allowed(s, op)
    ensures var t := Apply(start, s, op); Size(t.frames) + |t.free| == Size(s.frames) + |s.free|
  {
    if s.frames != [] {
      var f, below := Last(s.frames), ButLast(s.frames);
      match op
      case BeginOp(count) => if FitsFrame(s, count) { LastOf(s.frames, Frame(NULL, s.free[2], [])); }
      case PushOp(c) => LastOf(below, f.(words := f.words + [c]));
      case EnterOp(pc, ret, count) =>
        LastOf(below, f.(pc := pc, ret := ret));
        if FitsRegisters(s, count) { LastOf(below, Frame(pc, ret, (f.words + s.free)[..count])); }
      case EndOp =>
    } else if op.BeginOp? && FitsFrame(s, op.count) {
      LastOf([], Frame(NULL, s.free[2], []));
      assert s.frames + [Frame(NULL, s.free[2], [])] == [] + [Frame(NULL, s.free[2], [])];
    }
  }

  /** A run whose operations always find more than `depth` frames, a begin at least `depth`. */
  predicate RunsAbove(start: nat, s: Stack, ops: seq<Op>, depth: nat)
    decreases |ops|
  {
    |s.frames| >= depth &&
    (ops == [] ||
     (Allowed(s, ops[0]) && (ops[0].BeginOp? || |s.frames| > depth) &&
      RunsAbove(start, Apply(start, s, ops[0]), ops[1..], depth)))
  }

  function RunOps(start: nat, s: Stack, ops: seq<Op>, depth: nat): Stack
    requires RunsAbove(start, s, ops, depth)
    decreases |ops|
  {
    if ops == [] then s else RunOps(start, Apply(start, s, ops[0]), ops[1..], depth)
  }

  /**
    However many frames a run opens and closes above depth `depth`, the frames below are
    untouched: their registers, records and addresses.
   */
  lemma {:induction false} LowerFramesKept(start: nat, s: Stack, ops: seq<Op>, depth: nat)
    requires RunsAbove(start, s, ops, depth)
    ensures var t := RunOps(start, s, ops, depth);
            && |t.frames| >= depth && t.frames[..depth] == s.frames[..depth]
            && Size(t.frames) + |t.free| == Size(s.frames) + |s.free|
    decreases |ops|
  {
    if ops != [] {
      SizeKept(start, s, ops[0]);
      var t := Apply(start, s, ops[0]);
      assert t.frames[..depth] == s.frames[..depth];
      LowerFramesKept(start, t, ops[1..], depth);
    }
  }

  /** A balanced run ends with the frames, base and top it began with, and as much room. */
  lemma BalancedRestores(start: nat, s: Stack, ops: seq<Op>)
    requires RunsAbove(start, s, ops, |s.frames|)
    requires |RunOps(start, s, ops, |s.frames|).frames| == |s.frames|
    ensures var t := RunOps(start, s, ops, |s.frames|); t.frames == s.frames && |t.free| == |s.free|
  {
    LowerFramesKept(start, s, ops, |s.frames|);
  }

  function PushAll(s: Stack, args: seq<Cell>): Stack
    requires s.frames != [] && |args| <= |s.free|
    decreases |args|
  {
    if args == [] then s else PushAll(Pushed(s, args[0]), args[1..])
  }

  lemma {:induction false} PushAllMeaning(s: Stack, args: seq<Cell>)
    requires s.frames != [] && |args| <= |s.free|
    ensures var t := PushAll(s, args);
            t.frames == ButLast(s.frames) + [Last(s.frames).(words := Last(s.frames).words + args)]
              && t.free == s.free[|args|..]
    decreases |args|
  {
    if args != [] {
      PushAllMeaning(Pushed(s, args[0]), args[1..]);
      assert Last(s.frames).words + args == Last(s.frames).words + [args[0]] + args[1..];
    } else {
      assert Last(s.frames).words + args == Last(s.frames).words;
    }
  }

  /** A callee finds its arguments in its first registers and zeros in the others. */
  lemma CalleeRegisters(s: Stack, count: nat, args: seq<Cell>, pc: Cell, ret: Cell)
    requires FitsFrame(s, count) && |args| <= count
    ensures PushAll(Began(s, count), args).frames != []
    ensures var t := Entered(PushAll(Began(s, count), args), pc, ret, count);
            && t.frames == s.frames + [Frame(pc, ret, args + Zeros(count - |args|))]
            && t.free == s.free[RECORD_WORDS + count..]
  {
    var begun := Began(s, count);
    var pushed := PushAll(begun, args);
    var f := Frame(NULL, s.free[2], args);
    LastOf(s.frames, Frame(NULL, s.free[2], []));
    PushAllMeaning(begun, args);
    assert [] + args == args;
    LastOf(s.frames, f);
    assert pushed.frames == s.frames + [f];
    ArgumentsThenZeros(count, args, s.free[RECORD_WORDS + count..]);
  }

  lemma ArgumentsThenZeros(count: nat, args: seq<Cell>, rest: seq<Cell>)
    requires |args| <= count
    ensures var area := args + (Zeros(count) + rest)[|args|..];
            area[..count] == args + Zeros(count - |args|) && area[count..] == rest
  {
    assert (Zeros(count) + rest)[|args|..] == Zeros(count - |args|) + rest;
  }

  // ----- words of memory -----

  /** The block is the frames, each record in front of its registers, then the free words. */
  ghost predicate Laid(start: nat, m: seq<Cell>, s: Stack) {
    && 0 < start && start + |m| < TWO_64
    && Size(s.frames) + |s.free| == |m|
    && m == Flat(start, s.frames) + s.free
  }

  function Top(start: nat, frames: seq<Frame>): nat {
    if frames == [] then 0 else start + Size(frames)
  }

  lemma FlatOf(start: nat, below: seq<Frame>, f: Frame)
    ensures Size(below + [f]) == Size(below) + RECORD_WORDS + |f.words|
    ensures Flat(start, below + [f]) == Flat(start, below) + Record(start, below, f) + f.words
  {
    LastOf(below, f);
  }

  /** The innermost record, found below the registers. */
  lemma RecordAt(start: nat, m: seq<Cell>, s: Stack)
    requires Laid(start, m, s) && s.frames != []
    ensures var n := Base(start, s.frames) - RECORD_WORDS - start;
            && n == Size(ButLast(s.frames)) && n + RECORD_WORDS <= |m|
               && Top(start, s.frames) == start + n + RECORD_WORDS + |Last(s.frames).words|
            && Raw64(m[n]) == Base(start, ButLast(s.frames)) && m[n + 1] == Last(s.frames).pc
               && m[n + 2] == Last(s.frames).ret
  {
    var n, f := Size(ButLast(s.frames)), Last(s.frames);
    var lower, record := Flat(start, ButLast(s.frames)), Record(start, ButLast(s.frames), f);
    assert m == lower + record + f.words + s.free;
    BaseBelow(start, ButLast(s.frames));
    PointerRead(Base(start, ButLast(s.frames)));
    hide Flat;
  }

  lemma TopAddress(start: nat, m: seq<Cell>, s: Stack)
    requires Laid(start, m, s)
    ensures Top(start, s.frames) == 0 <==> s.frames == []
    ensures Base(start, s.frames) == 0 <==> s.frames == []
  {
  }

  lemma RegistersFit(start: nat, m: seq<Cell>, s: Stack, count: nat)
    requires Laid(start, m, s) && s.frames != []
    ensures FitsRegisters(s, count) <==> Base(start, s.frames) + count < start + |m|
  {
    hide Flat;
  }

  /** A new record in the free words, and the registers after it cleared. */
  lemma LaidBegan(start: nat, m: seq<Cell>, s: Stack, count: nat, after: seq<Cell>)
    requires Laid(start, m, s) && FitsFrame(s, count) && |after| == |m|
    requires var n := Size(s.frames); forall k :: 0 <= k < |m| ==>
               after[k] == if k == n then Pointer(Base(start, s.frames)) else if k == n + 1 then NULL
                           else if n + RECORD_WORDS <= k < n + RECORD_WORDS + count then ZERO_CELL else m[k]
    ensures Laid(start, after, Began(s, count))
    ensures Base(start, Began(s, count).frames) == start + Size(s.frames) + RECORD_WORDS
            == Top(start, Began(s, count).frames)
  {
    var f, lower := Frame(NULL, s.free[2], []), Flat(start, s.frames);
    var record := Record(start, s.frames, f);
    FlatOf(start, s.frames, f);
    LastOf(s.frames, f);
    hide Flat;
    assert lower + record + [] == lower + record;
    assert after == (lower + record) + (Zeros(count) + s.free[RECORD_WORDS + count..]);
  }

  lemma LaidPushed(start: nat, m: seq<Cell>, s: Stack, c: Cell)
    requires Laid(start, m, s) && s.frames != [] && s.free != []
    ensures Size(s.frames) < |m| && Laid(start, m[Size(s.frames) := c], Pushed(s, c))
    ensures Base(start, Pushed(s, c).frames) == Base(start, s.frames)
            && Top(start, Pushed(s, c).frames) == Top(start, s.frames) + 1
  {
    var below, f := ButLast(s.frames), Last(s.frames);
    var g := f.(words := f.words + [c]);
    FlatOf(start, below, f);
    FlatOf(start, below, g);
    LastOf(below, g);
    assert s.frames == below + [f];
    hide Flat, Record;
    var under := Flat(start, below) + Record(start, below, f);
    assert Record(start, below, f) == Record(start, below, g) by { RecordAlike(start, below, f, g); }
    assert (under + f.words + s.free)[|under + f.words| := c] == under + (f.words + [c]) + s.free[1..];
  }

  lemma RecordAlike(start: nat, below: seq<Frame>, f: Frame, g: Frame)
    requires f.pc == g.pc && f.ret == g.ret
    ensures Record(start, below, f) == Record(start, below, g)
  {
  }

  lemma LaidEntered(start: nat, m: seq<Cell>, s: Stack, pc: Cell, ret: Cell, count: nat)
    requires Laid(start, m, s) && s.frames != []
    ensures var n, t := Size(ButLast(s.frames)), Entered(s, pc, ret, count);
            && n + RECORD_WORDS <= |m| && Laid(start, m[n + 1 := pc][n + 2 := ret], t)
            && Base(start, t.frames) == Base(start, s.frames)
            && Top(start, t.frames)
               == if FitsRegisters(s, count) then Base(start, s.frames) + count else Top(start, s.frames)
  {
    hide Flat, Record, Size, Base, Top;
    EnteredAddresses(start, m, s, pc, ret, count);
    var below, f := ButLast(s.frames), Last(s.frames);
    var area := f.words + s.free;
    var g := if FitsRegisters(s, count) then Frame(pc, ret, area[..count]) else f.(pc := pc, ret := ret);
    assert s.frames == below + [f];
    assert area == g.words + area[|g.words|..];
    EnteredWords(start, m, below, f, g, s.free, area[|g.words|..]);
  }

  /** The record set in memory, and the words behind it dealt out anew. */
  lemma EnteredWords(start: nat, m: seq<Cell>, below: seq<Frame>, f: Frame, g: Frame, free: seq<Cell>, rest: seq<Cell>)
    requires m == Flat(start, below + [f]) + free && f.words + free == g.words + rest
    ensures Size(below) + RECORD_WORDS <= |m|
    ensures m[Size(below) + 1 := g.pc][Size(below) + 2 := g.ret] == Flat(start, below + [g]) + rest
  {
    hide Flat, Record, Size;
    FlatOf(start, below, f);
    FlatOf(start, below, g);
    var lower := Flat(start, below);
    assert m == lower + Record(start, below, f) + (f.words + free);
    RecordSet(start, below, f, g, lower, f.words + free);
    assert lower + Record(start, below, g) + (g.words + rest) == lower + Record(start, below, g) + g.words + rest;
  }

  lemma EnteredAddresses(start: nat, m: seq<Cell>, s: Stack, pc: Cell, ret: Cell, count: nat)
    requires Laid(start, m, s) && s.frames != []
    ensures var t := Entered(s, pc, ret, count);
            && Size(ButLast(s.frames)) + RECORD_WORDS <= |m|
            && Size(t.frames) + |t.free| == |m|
            && Base(start, t.frames) == Base(start, s.frames)
            && Top(start, t.frames)
               == if FitsRegisters(s, count) then Base(start, s.frames) + count else Top(start, s.frames)
  {
    hide Flat;
    var below, f := ButLast(s.frames), Last(s.frames);
    var area := f.words + s.free;
    LastOf(below, if FitsRegisters(s, count) then Frame(pc, ret, area[..count]) else f.(pc := pc, ret := ret));
  }

  /** The last two words of a record. */
  lemma RecordSet(start: nat, below: seq<Frame>, f: Frame, g: Frame, lower: seq<Cell>, area: seq<Cell>)
    ensures (lower + Record(start, below, f) + area)[|lower| + 1 := g.pc][|lower| + 2 := g.ret]
            == lower + Record(start, below, g) + area
  {
  }

  lemma LaidEnded(start: nat, m: seq<Cell>, s: Stack)
    requires Laid(start, m, s) && s.frames != []
    ensures Laid(start, m, Ended(start, s)) && Ended(start, s).frames == ButLast(s.frames)
    ensures Top(start, ButLast(s.frames)) == if |s.frames| == 1 then 0 else Base(start, s.frames) - RECORD_WORDS
    ensures |s.frames| == 1 <==> Base(start, s.frames) - RECORD_WORDS <= start
    ensures Base(start, ButLast(s.frames)) == 0 || start < Base(start, ButLast(s.frames))
    ensures |s.frames| == 1 <==> Base(start, ButLast(s.frames)) == 0
  {
    var below, f := ButLast(s.frames), Last(s.frames);
    FlatOf(start, below, f);
    assert s.frames == below + [f];
    hide Flat, Record;
    assert m == Flat(start, below) + (Record(start, below, f) + f.words + s.free);
  }

  /** A frame put back above the frames that were left when it ended. */
  lemma LaidReopened(start: nat, m: seq<Cell>, below: seq<Frame>, f: Frame, free: seq<Cell>)
    requires Laid(start, m, Stack(below, Record(start, below, f) + f.words + free))
    ensures Laid(start, m, Stack(below + [f], free))
  {
    FlatOf(start, below, f);
    hide Flat, Record;
    assert m == Flat(start, below) + Record(start, below, f) + f.words + free;
  }

  /** Storing to a register of any frame is storing to one word of the block. */
  lemma {:induction false} LaidWritten(start: nat, m: seq<Cell>, s: Stack, i: nat, r: nat, c: Cell)
    requires Laid(start, m, s) && i < |s.frames| && r < |s.frames[i].words|
    ensures var a := Base(start, s.frames[..i + 1]) + r - start;
            0 <= a < |m| && m[a] == s.frames[i].words[r] && Laid(start, m[a := c], Written(s, i, r, c))
    ensures Base(start, Written(s, i, r, c).frames) == Base(start, s.frames)
            && Size(Written(s, i, r, c).frames) == Size(s.frames)
    decreases |s.frames|
  {
    hide Flat, Record, Laid, Top, Pointer;
    var below, f := ButLast(s.frames), Last(s.frames);
    LaidEnded(start, m, s);
    if i == |below| {
      LastWritten(start, m, s, r, c);
    } else {
      var e := Ended(start, s);
      LaidWritten(start, m, e, i, r, c);
      assert s.frames[..i + 1] == below[..i + 1];
      var a := Base(start, s.frames[..i + 1]) + r - start;
      var after := Written(e, i, r, c).frames;
      RecordFrom(start, after, below, f);
      LaidReopened(start, m[a := c], after, f, s.free);
      LastOf(after, f);
      assert Written(s, i, r, c).frames == after + [f];
    }
  }

  lemma RecordFrom(start: nat, below: seq<Frame>, other: seq<Frame>, f: Frame)
    requires Base(start, below) == Base(start, other)
    ensures Record(start, below, f) == Record(start, other, f)
  {
  }

  lemma LastWritten(start: nat, m: seq<Cell>, s: Stack, r: nat, c: Cell)
    requires Laid(start, m, s) && s.frames != [] && r < |Last(s.frames).words|
    ensures var i, a := |s.frames| - 1, Base(start, s.frames) + r - start;
            && s.frames[..i + 1] == s.frames
            && 0 <= a < |m| && m[a] == s.frames[i].words[r] && Laid(start, m[a := c], Written(s, i, r, c))
            && Base(start, Written(s, i, r, c).frames) == Base(start, s.frames)
               && Size(Written(s, i, r, c).frames) == Size(s.frames)
  {
    hide Flat, Record;
    var below, f := ButLast(s.frames), Last(s.frames);
    var g := f.(words := f.words[r := c]);
    LastOf(below, g);
    assert s.frames == below + [f] && s.frames[|below| := g] == below + [g];
    WordStored(start, m, below, f, g, s.free, r, c);
  }

  lemma WordStored(start: nat, m: seq<Cell>, below: seq<Frame>, f: Frame, g: Frame, free: seq<Cell>, r: nat, c: Cell)
    requires m == Flat(start, below + [f]) + free && r < |f.words| && g == f.(words := f.words[r := c])
    ensures var a := Size(below) + RECORD_WORDS + r;
            a < |m| && m[a] == f.words[r] && m[a := c] == Flat(start, below + [g]) + free
  {
    hide Flat, Record, Size;
    FlatOf(start, below, f);
    FlatOf(start, below, g);
    RecordAlike(start, below, f, g);
    var under := Flat(start, below) + Record(start, below, f);
    assert (under + f.words + free)[|under| + r := c] == under + g.words + free;
  }

  // ----- the block of memory -----

  class CallStack {
    const start: nat
    const memory: array<Cell>
    var frameBase: nat
    var frameTop: nat
    ghost var state: Stack

    ghost predicate Valid()
      reads this, memory
    {
      Laid(start, memory[..], state) && frameBase == Base(start, state.frames) && frameTop == Top(start, state.frames)
    }

    constructor (start: nat, memory: array<Cell>)
      requires 0 < start && start + memory.Length < TWO_64
      ensures Valid() && this.start == start && this.memory == memory && state == Stack([], memory[..])
    {
      this.start, this.memory := start, memory;
      frameBase, frameTop := 0, 0;
      state := Stack([], memory[..]);
      new;
      assert [] + memory[..] == memory[..];
    }

    /** A frame that does not fit is refused, and nothing changes. */
    method FrameBegin(count: nat) returns (ok: bool)
      requires Valid()
      modifies this, memory
      ensures Valid()
      ensures ok == FitsFrame(old(state), count)
      ensures state == if ok then Began(old(state), count) else old(state)
      ensures !ok ==> memory[..] == old(memory[..])
    {
      var top := if frameBase == 0 then start else frameTop;
      assert top == start + Size(state.frames);
      var next := top + RECORD_WORDS + count;
      if next >= start + memory.Length {
        return false;
      }
      BaseBelow(start, state.frames);
      LaidBeganIn(count);
      hide Laid, Size, Base, Top, Began, Pointer;
      memory[top - start] := Pointer(frameBase);
      memory[top - start + 1] := NULL;
      var base := top + RECORD_WORDS;
      Clear(base - start, count);
      LaidBegan(start, old(memory[..]), state, count, memory[..]);
      frameBase, frameTop := base, base;
      state := Began(state, count);
      return true;
    }

    lemma LaidBeganIn(count: nat)
      requires Valid() && FitsFrame(state, count)
      ensures Size(state.frames) + RECORD_WORDS + count < memory.Length
    {
    }

    method Clear(from: nat, count: nat)
      requires from + count <= memory.Length
      modifies memory
      ensures forall k :: 0 <= k < memory.Length ==>
              memory[k] == if from <= k < from + count then ZERO_CELL else old(memory[k])
    {
      var i := 0;
      while i < count
        invariant 0 <= i <= count
        invariant forall k :: 0 <= k < memory.Length ==>
                  memory[k] == if from <= k < from + i then ZERO_CELL else old(memory[k])
      {
        memory[from + i] := ZERO_CELL;
        i := i + 1;
      }
    }

    /** The first frame's record is at the start of the block; without it the stack is empty again. */
    method FrameEnd() returns (ok: bool, pc: Cell)
      requires Valid()
      modifies this
      ensures Valid()
      ensures ok == (old(state).frames != [])
      ensures ok ==> state == Ended(start, old(state))
      ensures ok ==> pc == if |old(state).frames| == 1 then NULL else Last(old(state).frames).pc
      ensures !ok ==> state == old(state)
    {
      pc := NULL;
      if frameBase == 0 {
        return false, pc;
      }
      RecordAt(start, memory[..], state);
      LaidEnded(start, memory[..], state);
      hide Laid, Size, Base, Top, Ended;
      var record := frameBase - RECORD_WORDS;
      if record <= start {
        frameBase, frameTop := 0, 0;
      } else {
        var base := Raw64(memory[record - start]);
        if base < start {
          assert false;
        }
        frameBase := base;
        frameTop := record;
        pc := memory[record - start + 1];
      }
      state := Ended(start, state);
      return true, pc;
    }

    /** Pushing does not look for the end of the block; the frame has reserved the word. */
    method Push(c: Cell) returns (ok: bool)
      requires Valid() && (state.frames != [] ==> state.free != [])
      modifies this, memory
      ensures Valid()
      ensures ok == (old(state).frames != [])
      ensures state == if ok then Pushed(old(state), c) else old(state)
      ensures !ok ==> memory[..] == old(memory[..])
    {
      if frameTop == 0 {
        return false;
      }
      LaidPushed(start, memory[..], state, c);
      hide Laid, Size, Pushed;
      memory[frameTop - start] := c;
      frameTop := frameTop + 1;
      state := Pushed(state, c);
      assert memory[..] == old(memory[..])[old(frameTop) - start := c];
      return true;
    }

    method FunctionBegin(pc: Cell, ret: Cell, count: nat) returns (ok: bool)
      requires Valid()
      modifies this, memory
      ensures Valid()
      ensures ok == (old(state).frames != [] && FitsRegisters(old(state), count))
      ensures state == if old(state).frames == [] then old(state) else Entered(old(state), pc, ret, count)
    {
      hide Laid, Size, Entered, Base, Top;
      TopAddress(start, memory[..], state);
      if frameTop == 0 {
        return false;
      }
      RecordAt(start, memory[..], state);
      LaidEntered(start, memory[..], state, pc, ret, count);
      RegistersFit(start, memory[..], state, count);
      var record := frameBase - RECORD_WORDS;
      if !(record < start) {
        memory[record - start + 1] := pc;
        memory[record - start + 2] := ret;
      }
      assert memory[..] == old(memory[..])[record - start + 1 := pc][record - start + 2 := ret];
      var top := frameBase + count;
      ok := top < start + memory.Length;
      if ok {
        frameTop := top;
      }
      state := Entered(state, pc, ret, count);
    }

    /** A register of frame `i`, reached by its address. */
    method Store(address: nat, c: Cell, ghost i: nat, ghost r: nat)
      requires Valid() && i < |state.frames| && r < |state.frames[i].words|
               && address == Base(start, state.frames[..i + 1]) + r
      modifies this`state, memory
      ensures Valid() && state == Written(old(state), i, r, c)
    {
      LaidWritten(start, memory[..], state, i, r, c);
      assert Top(start, Written(state, i, r, c).frames) == frameTop;
      hide Laid, Size, Base, Top;
      memory[address - start] := c;
      state := Written(state, i, r, c);
      assert memory[..] == old(memory[..])[address - start := c];
    }

    method Load(address: nat, ghost i: nat, ghost r: nat) returns (c: Cell)
      requires Valid() && i < |state.frames| && r < |state.frames[i].words|
               && address == Base(start, state.frames[..i + 1]) + r
      ensures c == state.frames[i].words[r]
    {
      LaidWritten(start, memory[..], state, i, r, ZERO_CELL);
      c := memory[address - start];
    }

    method LocalRegisters() returns (base: nat)
      requires Valid()
      ensures base == Base(start, state.frames)
    {
      base := frameBase;
    }

    method ReturnRegister() returns (r: Cell)
      requires Valid()
      ensures r == if state.frames == [] then NULL else Last(state.frames).ret
    {
      r := NULL;
      if frameBase == 0 {
        return;
      }
      RecordAt(start, memory[..], state);
      var record := frameBase - RECORD_WORDS;
      if record >= start {
        r := memory[record - start + 2];
      }
    }
  }

  lemma PointerRead(a: nat)
    requires a < TWO_64
    ensures Raw64(Pointer(a)) == a
  {
  }
}
