/**
  From a checked program to a host that calls one of its functions by name: the builder
  generates every function and writes the module, the machine loads the file, finds the
  function in it and runs the code where it lies in the file.
 */
module Deployment {
  import opened Options
  import opened Values
  import opened Registers
  import opened RegisterPool
  import opened Ast
  import opened Semantics
  import opened CodeGen
  import CodeShape
  import opened Checking
  import opened CodeExists
  import Generator
  import opened Machine
  import opened FlatStack
  import opened Interpreter
  import opened CompilerRelation
  import opened CallSteps
  import opened EndToEnd
  import opened Readings
  import File = BinaryFile

  type Byte = File.Byte

  /** The name of the function that holds the code outside all functions. */
  const GLOBAL_NAME: seq<Byte> := [103, 108, 111, 98, 97, 108, 102, 117, 110, 99, 116, 105, 111, 110]

  // ----- the builder -----

  function RawBits(table: seq<(Ty, int)>, modulus: nat): (bits: seq<nat>)
    requires modulus > 0
    ensures |bits| == |table| && forall i :: 0 <= i < |bits| ==> bits[i] < modulus
  {
    seq(|table|, i requires 0 <= i < |table| => table[i].1 % modulus)
  }

  function FunctionOf(m: Constants, flags: seq<bool>, f: FunctionDecl, name: seq<Byte>): File.FunctionImage {
    var g := GenFunction(m, flags, f);
    File.FunctionImage(name, |f.params|, if g.Gen? then MaxRegisterCount(g.pool) else 0, if g.Gen? then g.code else [])
  }

  function FunctionsOf(p: Program, m: Constants, names: seq<seq<Byte>>): (fs: seq<File.FunctionImage>)
    requires |names| == |p.functions|
    ensures |fs| == |p.functions|
  {
    var flags := ResultFlags(p.functions);
    seq(|names|, i requires 0 <= i < |names| => FunctionOf(m, flags, p.functions[i], names[i]))
  }

  /** A module with these functions, and with no globals, no strings and no code outside functions. */
  function ModuleWith(m: Constants, fs: seq<File.FunctionImage>): File.ModuleImage {
    var none := File.StaticCode(MaxRegisterCount(EMPTY_POOL), []);
    File.ModuleImage(RawBits(m.bits32, TWO_32), RawBits(m.bits64, TWO_64), 0, 0, 0, [], none, none, fs,
                     File.FunctionImage(GLOBAL_NAME, 0, 0, []))
  }

  function ModuleOf(p: Program, m: Constants, names: seq<seq<Byte>>): File.ModuleImage
    requires |names| == |p.functions|
  {
    ModuleWith(m, FunctionsOf(p, m, names))
  }

  predicate Generated(p: Program, m: Constants) {
    forall i :: 0 <= i < |p.functions| ==> GenFunction(m, ResultFlags(p.functions), p.functions[i]).Gen?
  }

  /** A checked program is generated exactly when each of its functions fits. */
  lemma ProgramCode(p: Program, m: Constants)
    requires CheckProgram(p) && ProgramScoped(p)
    ensures Generated(p, m) <==> AllCodable(p, m)
    ensures Generated(p, m) ==> forall i :: 0 <= i < |p.functions| ==>
              |GenFunction(m, ResultFlags(p.functions), p.functions[i]).code| < 65535
  {
    hide GenFunction, CheckFunction, FunctionScoped, StmtsCodable;
    forall i | 0 <= i < |p.functions|
      ensures var f := p.functions[i];
              var g := GenFunction(m, ResultFlags(p.functions), f);
              && (g.Gen? <==> FunctionCodable(m, f)) && (g.Gen? ==> |g.code| < 65535)
    {
      FunctionHasCode(p, m, p.functions[i]);
    }
  }

  /** The writer takes the module of a generated program unless there are too many functions or constants. */
  lemma ModuleAccepted(p: Program, m: Constants, names: seq<seq<Byte>>)
    requires CheckProgram(p) && ProgramScoped(p) && Generated(p, m) && |names| == |p.functions|
    ensures File.Accepted(ModuleOf(p, m, names)) <==>
              |m.bits32| < 65535 && |m.bits64| < 65535 && |p.functions| < 65535
  {
    hide GenFunction, CheckProgram, ProgramScoped;
    ProgramCode(p, m);
    var image := ModuleOf(p, m, names);
    File.AcceptedIff(image);
    forall i | 0 <= i < |image.functions|
      ensures |image.functions[i].code| < 65535
    {
      assert image.functions[i] == FunctionOf(m, ResultFlags(p.functions), p.functions[i], names[i]);
    }
  }

  /** One function, whatever the generator has done before; `None` is an exception. */
  method GenerateOne(generator: Generator.ByteCodeGenerator, f: FunctionDecl, name: seq<Byte>)
    returns (made: Option<File.FunctionImage>)
    requires generator.Valid()
    modifies generator, generator.regAllocator, generator.regAllocator.registerPool
    ensures var g := GenFunction(generator.constants, generator.results, f);
            && (made.Some? <==> g.Gen?)
            && (g.Gen? ==>
                made == Some(FunctionOf(generator.constants, generator.results, f, name)) && generator.Valid())
  {
    hide GenFunction, MaxRegisterCount, Inv;
    PoolLength(generator);
    hide Generator.ByteCodeGenerator.Valid;
    var ok := generator.GenerateFunction(f);
    if !ok {
      return None;
    }
    AllocatorValid(generator);
    var count := generator.regAllocator.MaxRegisterCount();
    FunctionMade(generator.constants, generator.results, f, name);
    return Some(File.FunctionImage(name, |f.params|, count, generator.buffer));
  }

  lemma PoolLength(generator: Generator.ByteCodeGenerator)
    requires generator.Valid()
    ensures generator.regAllocator.registerPool.Length == MAX_REGISTERS
  {
  }

  lemma AllocatorValid(generator: Generator.ByteCodeGenerator)
    requires generator.Valid()
    ensures generator.regAllocator.Valid()
  {
  }

  /** One generator serves every function in turn. */
  method GenerateAll(p: Program, m: Constants, names: seq<seq<Byte>>) returns (image: Option<File.ModuleImage>)
    requires |names| == |p.functions|
    ensures image == if Generated(p, m) then Some(ModuleOf(p, m, names)) else None
    ensures CheckProgram(p) && ProgramScoped(p) ==> (image.Some? <==> AllCodable(p, m))
  {
    hide AllCodable, CheckProgram, ProgramScoped, GenFunction, FunctionOf, Generator.ByteCodeGenerator.Valid;
    if CheckProgram(p) && ProgramScoped(p) {
      ProgramCode(p, m);
    }
    var flags := ResultFlags(p.functions);
    ghost var all := FunctionsOf(p, m, names);
    var generator := new Generator.ByteCodeGenerator(m, flags);
    var fs: seq<File.FunctionImage> := [];
    while |fs| < |p.functions|
      invariant |fs| <= |p.functions|
      invariant fresh(generator) && fresh(generator.regAllocator) && fresh(generator.regAllocator.registerPool)
      invariant generator.Valid() && generator.constants == m && generator.results == flags
      invariant fs == all[..|fs|]
      invariant forall i :: 0 <= i < |fs| ==> GenFunction(m, flags, p.functions[i]).Gen?
      decreases |p.functions| - |fs|
    {
      var made := GenerateOne(generator, p.functions[|fs|], names[|fs|]);
      if made.None? {
        return None;
      }
      assert all[..|fs| + 1] == all[..|fs|] + [all[|fs|]];
      fs := fs + [made.value];
    }
    assert fs == all;
    return Some(ModuleWith(m, fs));
  }

  lemma FunctionMade(m: Constants, flags: seq<bool>, f: FunctionDecl, name: seq<Byte>)
    requires GenFunction(m, flags, f).Gen?
    ensures var g := GenFunction(m, flags, f);
            FunctionOf(m, flags, f, name) == File.FunctionImage(name, |f.params|, MaxRegisterCount(g.pool), g.code)
  {
    hide GenFunction;
  }

  /** No two functions share a name, a name has no zero byte, and it fits its field. */
  predicate WellNamed(p: Program, names: seq<seq<Byte>>) {
    && |names| == |p.functions|
    && (forall i :: 0 <= i < |names| ==> 0 !in names[i] && |names[i]| + 1 < TWO_16 && names[i] != GLOBAL_NAME)
    && forall i, j :: 0 <= i < j < |names| ==> names[i] != names[j]
  }

  // ----- the loaded file -----

  function WordAt(data: seq<Byte>, offset: nat): (w: U32)
    ensures w == File.NumberAt(data, offset, 4)
  {
    File.FieldWidths();
    if offset + 4 <= |data| then
      File.NumberRange(data[offset..offset + 4]); File.NumberAt(data, offset, 4)
    else 0
  }

  function LongAt(data: seq<Byte>, offset: nat): (w: U64)
    ensures w == File.NumberAt(data, offset, 8)
  {
    File.FieldWidths();
    if offset + 8 <= |data| then
      File.NumberRange(data[offset..offset + 8]); File.NumberAt(data, offset, 8)
    else 0
  }

  /** A function through its header: as many words as the header says, from where its code lies. */
  function FunctionIn(data: seq<Byte>, hdr: nat, code: nat): Function {
    Function(seq(File.NumberAt(data, hdr + 10, 2), i requires 0 <= i => WordAt(data, code + 4 * i)),
             File.NumberAt(data, hdr + 9, 1))
  }

  /** What the machine's instructions find through the loaded offsets. */
  function BinaryIn(data: seq<Byte>, b: File.LoadedBinary, table: nat): Binary {
    Binary(seq(File.NumberAt(data, 4, 2), i requires 0 <= i => WordAt(data, b.constants32 + 4 * i)),
           seq(File.NumberAt(data, 6, 2), i requires 0 <= i => LongAt(data, b.constants64 + 8 * i)),
           seq(|b.functions|,
               i requires 0 <= i < |b.functions| => FunctionIn(data, b.functions[i].0, b.functions[i].1)),
           table)
  }

  /** The file in memory: code is run where it was written. */
  function ImageIn(data: seq<Byte>, b: File.LoadedBinary, table: nat, fileStart: nat): Image {
    Image(BinaryIn(data, b, table), fileStart, data,
          seq(|b.functions|, i requires 0 <= i < |b.functions| => b.functions[i].1))
  }

  lemma FunctionRead(data: seq<Byte>, hdr: nat, code: nat, f: File.FunctionImage)
    requires File.FunctionAt(data, hdr, code, f)
    ensures FunctionIn(data, hdr, code) == Function(f.code, f.nRegisters)
  {
    hide File.NumberAt;
    var words := FunctionIn(data, hdr, code).code;
    forall i | 0 <= i < |words|
      ensures words[i] == f.code[i]
    {
      assert words[i] == File.NumberAt(data, code + 4 * i, 4);
    }
  }

  /** What the module holds for the machine. */
  function BinaryOf(m: File.ModuleImage, table: nat): Binary {
    var all := File.AllFunctions(m);
    Binary(m.constants32, m.constants64,
           seq(|all|, i requires 0 <= i < |all| => Function(all[i].code, all[i].nRegisters)), table)
  }

  /** The machine sees in a written file exactly what the module holds. */
  lemma ModuleRead(data: seq<Byte>, m: File.ModuleImage, b: File.LoadedBinary, table: nat, fileStart: nat)
    requires File.Written(data, m) && File.Recovers(data, b, m)
    requires table + FUNCTION_RECORD_SIZE * (|m.functions| + 1) < TWO_64 && 0 < fileStart && fileStart + |data| < TWO_64
    ensures BinaryIn(data, b, table) == BinaryOf(m, table)
    ensures ValidImage(ImageIn(data, b, table, fileStart))
  {
    FunctionsRead(data, m, b, table, fileStart);
    ConstantsRead(data, m, b, table);
    hide File.Recovers, File.Written, WordAt, LongAt, Loaded, File.NumberAt, FunctionIn, File.AllFunctions;
  }

  lemma FunctionsRead(data: seq<Byte>, m: File.ModuleImage, b: File.LoadedBinary, table: nat, fileStart: nat)
    requires File.Written(data, m) && File.Recovers(data, b, m)
    ensures var all, im := File.AllFunctions(m), ImageIn(data, b, table, fileStart);
            && |im.binary.functions| == |im.entries| == |all|
            && forall i :: 0 <= i < |all| ==>
                 im.binary.functions[i] == Function(all[i].code, all[i].nRegisters) && all[i].nRegisters < 256
                   && Loaded(im, i)
  {
    ConstantsRead(data, m, b, table);
    hide File.Recovers, File.Written, WordAt, LongAt, Loaded, File.NumberAt, FunctionIn, File.AllFunctions;
    forall i | 0 <= i < |File.AllFunctions(m)|
      ensures var f, im := File.AllFunctions(m)[i], ImageIn(data, b, table, fileStart);
              im.binary.functions[i] == Function(f.code, f.nRegisters) && f.nRegisters < 256 && Loaded(im, i)
    {
      OneRead(data, m, b, table, fileStart, i);
    }
  }

  lemma OneRead(data: seq<Byte>, m: File.ModuleImage, b: File.LoadedBinary, table: nat, fileStart: nat, i: nat)
    requires File.Written(data, m) && File.Recovers(data, b, m) && i < |File.AllFunctions(m)|
    requires |b.functions| == |File.AllFunctions(m)|
    ensures var im, f := ImageIn(data, b, table, fileStart), File.AllFunctions(m)[i];
            im.binary.functions[i] == Function(f.code, f.nRegisters) && f.nRegisters < 256 && Loaded(im, i)
  {
    hide File.NumberAt, File.Encode, File.FunctionAt, File.StaticAt, File.TextAt, File.Halted, File.TotalStringSize,
         FunctionIn, WordAt, LongAt;
    var f := File.AllFunctions(m)[i];
    assert File.FunctionFits(f);
    FunctionRead(data, b.functions[i].0, b.functions[i].1, f);
    CodeInFile(data, b.functions[i].0, b.functions[i].1, f);
  }

  lemma ConstantsRead(data: seq<Byte>, m: File.ModuleImage, b: File.LoadedBinary, table: nat)
    requires File.Written(data, m) && File.Recovers(data, b, m)
    ensures BinaryIn(data, b, table).constants32 == m.constants32
            && BinaryIn(data, b, table).constants64 == m.constants64
    ensures |b.functions| == |File.AllFunctions(m)| == |m.functions| + 1
  {
    hide File.NumberAt, File.Encode, File.FunctionAt, File.StaticAt, File.TextAt, File.Halted, File.TotalStringSize,
         FunctionIn, File.At;
    File.Layout(data, m);
    File.FunctionCount(m);
  }

  lemma CodeInFile(data: seq<Byte>, hdr: nat, code: nat, f: File.FunctionImage)
    requires File.FunctionAt(data, hdr, code, f)
    ensures code + 4 * |f.code| <= |data| && File.CodeIs(data, code, f.code)
  {
  }

  /** What was generated, written and loaded is what the compiler theorem is about. */
  lemma LoadedIsCompiled(p: Program, m: Constants, names: seq<seq<Byte>>, data: seq<Byte>, b: File.LoadedBinary,
                         table: nat, fileStart: nat)
    requires CheckProgram(p) && Generated(p, m) && WellNamed(p, names)
    requires var image := ModuleOf(p, m, names); File.Written(data, image) && File.Recovers(data, b, image)
    requires table + FUNCTION_RECORD_SIZE * (|p.functions| + 1) < TWO_64 && 0 < fileStart && fileStart + |data| < TWO_64
    ensures BinaryIn(data, b, table) == Deployed(p, m, names, table).b
    ensures Compiled(Deployed(p, m, names, table)) && ValidImage(ImageIn(data, b, table, fileStart))
  {
    hide File.NumberAt, File.Encode, File.Recovers, File.Halted, File.TotalStringSize, GenFunction, CheckProgram,
         BinaryIn;
    var image, w := ModuleOf(p, m, names), Deployed(p, m, names, table);
    ModuleRead(data, image, b, table, fileStart);
    forall i | 0 <= i < |p.functions|
      ensures CompiledFunction(w, i)
    {
      assert image.functions[i] == FunctionOf(m, ResultFlags(p.functions), p.functions[i], names[i]);
    }
  }

  /** A generated module's fields are never cut: that is what the writer leaves unchecked. */
  lemma GeneratedFits(p: Program, m: Constants, names: seq<seq<Byte>>)
    requires CheckProgram(p) && Generated(p, m) && WellNamed(p, names)
    ensures File.FitsFields(ModuleOf(p, m, names))
  {
    hide GenFunction, CheckProgram;
    var image := ModuleOf(p, m, names);
    forall i | 0 <= i < |File.AllFunctions(image)|
      ensures File.FunctionFits(File.AllFunctions(image)[i])
    {
      if i < |p.functions| {
        assert image.functions[i] == FunctionOf(m, ResultFlags(p.functions), p.functions[i], names[i]);
        CodeShape.FunctionShaped(m, ResultFlags(p.functions), p.functions[i]);
        ParametersFew(p, m, i);
      }
    }
  }

  lemma ParametersFew(p: Program, m: Constants, i: nat)
    requires CheckProgram(p) && Generated(p, m) && i < |p.functions|
    ensures |p.functions[i].params| <= MAX_REGISTERS
  {
    var f := p.functions[i];
    assert CheckFunction(p, f) && GenFunction(m, ResultFlags(p.functions), f).Gen?;
    ParametersFirst(f);
  }

  // ----- calling by name -----

  /** The text at an offset: the bytes before the first zero. */
  function TextIn(data: seq<Byte>, offset: nat): seq<Byte>
    decreases |data| - offset
  {
    if offset >= |data| || data[offset] == 0 then [] else [data[offset]] + TextIn(data, offset + 1)
  }

  lemma {:induction false} TextRead(data: seq<Byte>, offset: nat, text: seq<Byte>)
    requires File.TextAt(data, offset, text) && 0 !in text
    ensures TextIn(data, offset) == text
    decreases |text|
  {
    var all := text + [0];
    assert data[offset] == data[offset..offset + |all|][0] == all[0];
    if text != [] {
      assert data[offset + 1..offset + |all|] == data[offset..offset + |all|][1..] == text[1..] + [0];
      TextRead(data, offset + 1, text[1..]);
    }
  }

  /** The last function of the name, unless it has no code. */
  function Named(fs: seq<File.FunctionImage>, name: seq<Byte>): Option<nat> {
    if fs == [] then None
    else
      var i := |fs| - 1;
      if fs[i].name != name then Named(fs[..i], name) else if fs[i].code == [] then None else Some(i)
  }

  lemma {:induction false} NamedApart(fs: seq<File.FunctionImage>, fn: nat)
    requires fn < |fs| && fs[fn].code != [] && forall i :: fn < i < |fs| ==> fs[i].name != fs[fn].name
    ensures Named(fs, fs[fn].name) == Some(fn)
  {
    if fn < |fs| - 1 {
      NamedApart(fs[..|fs| - 1], fn);
    }
  }

  predicate NoZeros(m: File.ModuleImage) {
    forall i :: 0 <= i < |File.AllFunctions(m)| ==> 0 !in File.AllFunctions(m)[i].name
  }

  /** The search goes through the functions from the last to the first. */
  method AcquireFunction(data: seq<Byte>, b: File.LoadedBinary, name: seq<Byte>, ghost m: File.ModuleImage)
    returns (found: Option<nat>)
    requires File.Recovers(data, b, m) && NoZeros(m)
    ensures found == Named(File.AllFunctions(m), name)
  {
    hide File.NumberAt, File.TextAt, File.AllFunctions, File.StaticAt;
    ghost var fs := File.AllFunctions(m);
    File.FunctionCount(m);
    var n := |b.functions|;
    assert fs[..|fs|] == fs;
    while n > 0
      invariant 0 <= n <= |b.functions| == |fs|
      invariant Named(fs, name) == Named(fs[..n], name)
    {
      n := n - 1;
      var hdr := b.functions[n].0;
      assert File.FunctionAt(data, hdr, b.functions[n].1, fs[n]);
      TextRead(data, hdr + File.FUNC_HEADER_SIZE, fs[n].name);
      assert fs[..n + 1][..n] == fs[..n];
      if TextIn(data, hdr + File.FUNC_HEADER_SIZE) == name {
        return if File.NumberAt(data, hdr + 10, 2) == 0 then None else Some(n);
      }
    }
    return None;
  }

  lemma FunctionNamed(p: Program, m: Constants, names: seq<seq<Byte>>, fn: nat)
    requires Generated(p, m) && WellNamed(p, names) && fn < |p.functions|
    ensures NoZeros(ModuleOf(p, m, names))
    ensures Named(File.AllFunctions(ModuleOf(p, m, names)), names[fn]) == Some(fn)
  {
    hide GenFunction, CodeShape.OperandsBelow, CodeShape.LandsIn;
    var fs := FunctionsOf(p, m, names);
    var all := File.AllFunctions(ModuleOf(p, m, names));
    CodeShape.FunctionShaped(m, ResultFlags(p.functions), p.functions[fn]);
    assert all[fn].code == GenFunction(m, ResultFlags(p.functions), p.functions[fn]).code;
    hide *;
    NamedApart(all, fn);
  }

  // ----- the whole way -----

  /** Where the machine's memory is: the file, the function records and the stack. */
  datatype Addresses = Addresses(fileStart: nat, table: nat, stackStart: nat)

  predicate Addressable(at: Addresses, file: nat, functions: nat, stack: nat) {
    && 0 < at.fileStart && at.fileStart + file < TWO_64 && at.table + FUNCTION_RECORD_SIZE * (functions + 1) < TWO_64
    && HOST_REGISTER < at.stackStart && at.stackStart + stack < TWO_64
  }

  /** A call by the host whose arguments fit the parameters and whose meaning is known. */
  ghost predicate Asked(p: Program, fuel: nat, fn: nat, values: seq<Value>, args: seq<Cell>) {
    && fn < |p.functions| && Invoke(p, AsCompiled, fuel, fn, values).Some?
    && |args| == |values| == |p.functions[fn].params|
    && forall i :: 0 <= i < |args| ==> Passes(args[i], p.functions[fn].params[i].ty, values[i])
  }

  function Deployed(p: Program, m: Constants, names: seq<seq<Byte>>, table: nat): World
    requires |names| == |p.functions|
  {
    World(p, m, BinaryOf(ModuleOf(p, m, names), table))
  }

  /**
    Generate, write, load, find the function by its name, call it. The builder refuses
    exactly when some function does not fit its registers, jumps, constants or length, or
    there are too many functions or constants. Otherwise the call runs
    out of stack exactly when the block is smaller than the largest state on the way, and
    else the host finds the value the source program computes.
   */
  method BuildAndCall(p: Program, m: Constants, names: seq<seq<Byte>>, fn: nat, args: seq<Cell>, at: Addresses,
                      memory: array<Cell>,
                      ghost fuel: nat, ghost values: seq<Value>)
    returns (built: bool, status: Status, result: Cell, ghost n: nat)
    requires CheckProgram(p) && WellNamed(p, names) && Asked(p, fuel, fn, values, args)
    requires Addressable(at, |File.Encode(ModuleOf(p, m, names))|, |p.functions|, memory.Length)
    modifies memory
    ensures built <==> Generated(p, m) && File.Accepted(ModuleOf(p, m, names))
    ensures ProgramScoped(p) ==>
              (built <==> AllCodable(p, m) && |m.bits32| < 65535 && |m.bits64| < 65535 && |p.functions| < 65535)
    ensures built ==>
              var w := Deployed(p, m, names, at.table);
              && ReturnsAfter(w, fn, args, n)
              && status == if WordsNeeded(w.b, HostState(w.b, fn, args), n) < memory.Length then NoError
                 else StackOverflow
    ensures built && status == NoError ==>
            Carried(result, p.functions[fn].result, Invoke(p, AsCompiled, fuel, fn, values).value)
    ensures Invoke(p, Alike, fuel, fn, values).Some? ==>
            Invoke(p, AsCompiled, fuel, fn, values) == Invoke(p, AsWritten, fuel, fn, values)
  {
    hide GenFunction, CheckProgram, Invoke, Passes, File.Encode, File.Recovers, File.Accepted, File.FitsFields,
         BinaryIn, BinaryOf,
         ModuleOf, WordsNeeded, ReturnsAfter, Carried, ValidImage, Compiled, Generated, ProgramScoped, AllCodable,
         File.RegionsHalt, File.WithinLimits;
    if ProgramScoped(p) {
      ProgramCode(p, m);
      if Generated(p, m) { ModuleAccepted(p, m, names); }
    }
    InvokeAlike(p, AsCompiled, fuel, fn, values);
    InvokeAlike(p, AsWritten, fuel, fn, values);
    built, status, result, n := false, InvalidFunctionCall, ZERO_CELL, 0;
    var image := GenerateAll(p, m, names);
    if image.None? {
      return;
    }
    var out := new File.OutputSink();
    var ok := File.WriteModuleInfo(image.value, out);
    if !ok {
      return;
    }
    GeneratedFits(p, m, names);
    var data := out.bytes;
    var b;
    ok, b := File.Load(data, image.value);
    LoadedIsCompiled(p, m, names, data, b, at.table, at.fileStart);
    FunctionNamed(p, m, names, fn);
    var found := AcquireFunction(data, b, names[fn], image.value);
    built := true;
    var cx := new Interpreter.Context(ImageIn(data, b, at.table, at.fileStart), at.stackStart, memory);
    ghost var w := Deployed(p, m, names, at.table);
    status, n := CallCompiled(cx, found.value, args, w, fuel, values);
    result := cx.hostResult;
  }
}
