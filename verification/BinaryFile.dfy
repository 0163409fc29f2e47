/**
  The binary file: the builder writes it front to back, the virtual machine finds its
  parts again from the sizes in the headers. Numbers are stored low byte first.
 */
module BinaryFile {
  import opened Options
  import opened Values
  import opened Bytecode
  import opened Registers
  import opened Machine

  type Byte = b: int | 0 <= b < 256

  const BIN_MAGIC := 0x10e5af18
  const FUNC_MAGIC := 0x04974ceb
  const STATIC_MAGIC := 0xe351dac4

  const HEADER_SIZE := 24
  const STATIC_HEADER_SIZE := 8
  const FUNC_HEADER_SIZE := 14
  const MAX_COUNT := 0xFFFF

  // ----- numbers -----

  function LittleEndian(n: nat, v: nat): (bytes: seq<Byte>)
    ensures |bytes| == n
  {
    if n == 0 then [] else [v % 256] + LittleEndian(n - 1, v / 256)
  }

  function FromLittleEndian(bytes: seq<Byte>): nat {
    if bytes == [] then 0 else bytes[0] + 256 * FromLittleEndian(bytes[1..])
  }

  function Power256(n: nat): (p: nat)
    ensures p > 0
  {
    if n == 0 then 1 else 256 * Power256(n - 1)
  }

  lemma {:induction false} NumberRange(bytes: seq<Byte>)
    ensures FromLittleEndian(bytes) < Power256(|bytes|)
  {
    if bytes != [] {
      NumberRange(bytes[1..]);
    }
  }

  /** A number is read back exactly when it fits its field. */
  lemma {:induction false} NumberReadBack(n: nat, v: nat)
    ensures FromLittleEndian(LittleEndian(n, v)) == v <==> v < Power256(n)
    decreases n
  {
    NumberRange(LittleEndian(n, v));
    if n > 0 {
      NumberReadBack(n - 1, v / 256);
      assert LittleEndian(n, v)[1..] == LittleEndian(n - 1, v / 256);
    }
  }

  // ----- what is written -----

  datatype StaticCode = StaticCode(nRegisters: nat, code: seq<Word>)

  datatype FunctionImage = FunctionImage(name: seq<Byte>, nArguments: nat, nRegisters: nat, code: seq<Word>)

  /** A module without native functions, its tables in index order; texts have no zero byte. */
  datatype ModuleImage = ModuleImage(
    constants32: seq<U32>, constants64: seq<U64>,
    nGlobals32: nat, nGlobals64: nat, nGlobalsPtr: nat,
    strings: seq<seq<Byte>>, init: StaticCode, destroy: StaticCode,
    functions: seq<FunctionImage>, globalFunction: FunctionImage)

  function Words32(words: seq<U32>): seq<Byte> {
    if words == [] then [] else LittleEndian(4, words[0]) + Words32(words[1..])
  }

  function Words64(words: seq<U64>): seq<Byte> {
    if words == [] then [] else LittleEndian(8, words[0]) + Words64(words[1..])
  }

  function StringBytes(text: seq<Byte>): seq<Byte> {
    LittleEndian(4, |text|) + text + [0]
  }

  function StringsBytes(strings: seq<seq<Byte>>): seq<Byte> {
    if strings == [] then [] else StringBytes(strings[0]) + StringsBytes(strings[1..])
  }

  /** The size the module computes when its indices are assigned. */
  function TotalStringSize(strings: seq<seq<Byte>>): nat {
    if strings == [] then 0 else |strings[0]| + 1 + 4 + TotalStringSize(strings[1..])
  }

  lemma {:induction false} StringsSize(strings: seq<seq<Byte>>)
    ensures |StringsBytes(strings)| == TotalStringSize(strings)
  {
    if strings != [] {
      StringsSize(strings[1..]);
    }
  }

  /** Code that is not a function's ends in a HALT, unless there is none. */
  function Halted(code: seq<Word>): seq<Word> {
    if code == [] then [] else code + [PackValue(HALT, 0)]
  }

  function StaticBytes(s: StaticCode): seq<Byte> {
    LittleEndian(4, STATIC_MAGIC) + LittleEndian(2, |Halted(s.code)|) + LittleEndian(2, s.nRegisters)
      + Words32(Halted(s.code))
  }

  function FunctionHeader(f: FunctionImage): (bytes: seq<Byte>)
    ensures |bytes| == FUNC_HEADER_SIZE
  {
    LittleEndian(4, FUNC_MAGIC) + LittleEndian(4, 0) + LittleEndian(1, f.nArguments) + LittleEndian(1, f.nRegisters)
    + LittleEndian(2, |f.code|) + LittleEndian(2, |f.name| + 1)
  }

  function FunctionBytes(f: FunctionImage): seq<Byte> {
    FunctionHeader(f) + (f.name + [0]) + Words32(f.code)
  }

  function FunctionsBytes(fs: seq<FunctionImage>): seq<Byte> {
    if fs == [] then [] else FunctionBytes(fs[0]) + FunctionsBytes(fs[1..])
  }

  /** The size of both static regions in words, headers included, before it is cut to 16 bits. */
  function StaticSize(m: ModuleImage): nat {
    STATIC_HEADER_SIZE * 2 / 4 + |Halted(m.init.code)| + |Halted(m.destroy.code)|
  }

  function HeaderBytes(m: ModuleImage): (bytes: seq<Byte>)
    ensures |bytes| == HEADER_SIZE
  {
    LittleEndian(4, BIN_MAGIC)
    + LittleEndian(2, |m.constants32|) + LittleEndian(2, |m.constants64|)
    + LittleEndian(2, m.nGlobals32) + LittleEndian(2, m.nGlobals64)
    + LittleEndian(2, |m.functions| + 1) + LittleEndian(2, 0)
    + LittleEndian(2, |m.strings|) + LittleEndian(2, TotalStringSize(m.strings))
    + LittleEndian(2, m.nGlobalsPtr) + LittleEndian(2, StaticSize(m))
  }

  function AllFunctions(m: ModuleImage): seq<FunctionImage> {
    m.functions + [m.globalFunction.(code := Halted(m.globalFunction.code))]
  }

  function Body(m: ModuleImage): seq<Byte> {
    Words32(m.constants32) + (Words64(m.constants64) + (StringsBytes(m.strings)
    + (StaticBytes(m.init) + (StaticBytes(m.destroy) + FunctionsBytes(AllFunctions(m))))))
  }

  function Encode(m: ModuleImage): seq<Byte> {
    HeaderBytes(m) + Body(m)
  }

  /** The checks of the writer. */
  predicate Accepted(m: ModuleImage) {
    && |m.constants32| < MAX_COUNT && |m.constants64| < MAX_COUNT
    && m.nGlobals32 < MAX_COUNT && m.nGlobals64 < MAX_COUNT
    && |m.functions| < MAX_COUNT && |m.strings| < MAX_COUNT && TotalStringSize(m.strings) < MAX_COUNT
    && |Halted(m.init.code)| < MAX_COUNT && |Halted(m.destroy.code)| < MAX_COUNT
    && (forall i :: 0 <= i < |m.functions| ==> |m.functions[i].code| < MAX_COUNT)
    && |Halted(m.globalFunction.code)| < MAX_COUNT
  }

  /** The words of code that is not a function's, its HALT included. */
  function HaltedSize(code: seq<Word>): nat {
    if code == [] then 0 else |code| + 1
  }

  /** The same in the module's own numbers: every count stays below 65535. */
  predicate WithinLimits(m: ModuleImage) {
    && |m.constants32| < 65535 && |m.constants64| < 65535 && m.nGlobals32 < 65535 && m.nGlobals64 < 65535
    && |m.functions| < 65535 && |m.strings| < 65535 && |StringsBytes(m.strings)| < 65535
    && HaltedSize(m.init.code) < 65535 && HaltedSize(m.destroy.code) < 65535
    && HaltedSize(m.globalFunction.code) < 65535
    && forall i :: 0 <= i < |m.functions| ==> |m.functions[i].code| < 65535
  }

  lemma AcceptedIff(m: ModuleImage)
    ensures Accepted(m) <==> WithinLimits(m)
  {
    StringsSize(m.strings);
  }

  /** What it does not check: fields that would be cut to their width. */
  predicate FitsFields(m: ModuleImage) {
    && StaticSize(m) < TWO_16 && m.nGlobalsPtr < TWO_16
    && m.init.nRegisters < TWO_16 && m.destroy.nRegisters < TWO_16
    && forall i :: 0 <= i < |AllFunctions(m)| ==> FunctionFits(AllFunctions(m)[i])
  }

  predicate FunctionFits(f: FunctionImage) {
    |f.name| + 1 < TWO_16 && |f.code| < TWO_16 && f.nArguments < 256 && f.nRegisters < 256
  }

  class OutputSink {
    var bytes: seq<Byte>

    constructor ()
      ensures bytes == []
    {
      bytes := [];
    }

    method Write(data: seq<Byte>)
      modifies this
      ensures bytes == old(bytes) + data
    {
      bytes := bytes + data;
    }
  }

  /** Writes the module, or stops at the first check that fails. */
  method WriteModuleInfo(m: ModuleImage, out: OutputSink) returns (ok: bool)
    modifies out
    ensures ok <==> WithinLimits(m)
    ensures ok <==> Accepted(m)
    ensures ok ==> out.bytes == old(out.bytes) + Encode(m)
  {
    AcceptedIff(m);
    hide HeaderBytes, LittleEndian, StringBytes, FunctionBytes, StaticBytes, TotalStringSize;
    if |m.constants32| >= MAX_COUNT || |m.constants64| >= MAX_COUNT || m.nGlobals32 >= MAX_COUNT
        || m.nGlobals64 >= MAX_COUNT
       || |m.functions| >= MAX_COUNT || |m.strings| >= MAX_COUNT || TotalStringSize(m.strings) >= MAX_COUNT {
      return false;
    }
    ghost var was := out.bytes;
    out.Write(HeaderBytes(m));
    WriteTables(m, out);
    ok := WriteStatics(m, out);
    if !ok {
      return;
    }
    ok := WriteFunctions(m, out);
    if ok {
      Assembled(was, HeaderBytes(m), Words32(m.constants32), Words64(m.constants64), StringsBytes(m.strings),
                StaticBytes(m.init), StaticBytes(m.destroy), FunctionsBytes(AllFunctions(m)));
    }
  }

  lemma Assembled(was: seq<Byte>, a: seq<Byte>, b: seq<Byte>, c: seq<Byte>, d: seq<Byte>, e: seq<Byte>, f: seq<Byte>,
                  g: seq<Byte>)
    ensures was + a + (b + c + d) + (e + f) + g == was + (a + (b + (c + (d + (e + (f + g))))))
  {
  }

  method WriteTables(m: ModuleImage, out: OutputSink)
    modifies out
    ensures out.bytes == old(out.bytes) + (Words32(m.constants32) + Words64(m.constants64) + StringsBytes(m.strings))
  {
    hide LittleEndian, StringBytes;
    ghost var was := out.bytes;
    var i := 0;
    while i < |m.constants32|
      invariant 0 <= i <= |m.constants32|
      invariant was + Words32(m.constants32) == out.bytes + Words32(m.constants32[i..])
    {
      assert m.constants32[i..][1..] == m.constants32[i + 1..];
      out.Write(LittleEndian(4, m.constants32[i]));
      i := i + 1;
    }
    ghost var first := out.bytes;
    assert first == was + Words32(m.constants32);
    i := 0;
    while i < |m.constants64|
      invariant 0 <= i <= |m.constants64|
      invariant first + Words64(m.constants64) == out.bytes + Words64(m.constants64[i..])
    {
      assert m.constants64[i..][1..] == m.constants64[i + 1..];
      out.Write(LittleEndian(8, m.constants64[i]));
      i := i + 1;
    }
    ghost var second := out.bytes;
    assert second == first + Words64(m.constants64);
    i := 0;
    while i < |m.strings|
      invariant 0 <= i <= |m.strings|
      invariant second + StringsBytes(m.strings) == out.bytes + StringsBytes(m.strings[i..])
    {
      assert m.strings[i..][1..] == m.strings[i + 1..];
      out.Write(StringBytes(m.strings[i]));
      i := i + 1;
    }
    assert out.bytes == second + StringsBytes(m.strings);
  }

  method WriteStatics(m: ModuleImage, out: OutputSink) returns (ok: bool)
    modifies out
    ensures ok <==> |Halted(m.init.code)| < MAX_COUNT && |Halted(m.destroy.code)| < MAX_COUNT
    ensures ok ==> out.bytes == old(out.bytes) + (StaticBytes(m.init) + StaticBytes(m.destroy))
  {
    if |Halted(m.init.code)| >= MAX_COUNT {
      return false;
    }
    out.Write(StaticBytes(m.init));
    if |Halted(m.destroy.code)| >= MAX_COUNT {
      return false;
    }
    out.Write(StaticBytes(m.destroy));
    return true;
  }

  method WriteFunctions(m: ModuleImage, out: OutputSink) returns (ok: bool)
    modifies out
    ensures ok <==> |Halted(m.globalFunction.code)| < MAX_COUNT && forall i :: 0 <= i < |m.functions| ==>
            |m.functions[i].code| < MAX_COUNT
    ensures ok ==> out.bytes == old(out.bytes) + FunctionsBytes(AllFunctions(m))
  {
    hide FunctionBytes;
    ghost var was, all := out.bytes, AllFunctions(m);
    var i := 0;
    while i < |m.functions|
      invariant 0 <= i <= |m.functions|
      invariant forall j :: 0 <= j < i ==> |m.functions[j].code| < MAX_COUNT
      invariant was + FunctionsBytes(all) == out.bytes + FunctionsBytes(all[i..])
    {
      if |m.functions[i].code| >= MAX_COUNT {
        return false;
      }
      assert all[i..][1..] == all[i + 1..];
      out.Write(FunctionBytes(m.functions[i]));
      i := i + 1;
    }
    var global := m.globalFunction.(code := Halted(m.globalFunction.code));
    if |global.code| >= MAX_COUNT {
      return false;
    }
    assert all[i..] == [global] && [global][1..] == [];
    out.Write(FunctionBytes(global));
    assert FunctionsBytes([global]) == FunctionBytes(global) + [];
    return true;
  }

  // ----- what is read -----

  /** The field at an offset; bytes outside the file read as zero (in C, undefined). */
  function NumberAt(data: seq<Byte>, offset: nat, n: nat): nat {
    if offset + n <= |data| then FromLittleEndian(data[offset..offset + n]) else 0
  }

  /** The file goes on with `x` at the offset. */
  predicate At(data: seq<Byte>, offset: nat, x: seq<Byte>) {
    offset + |x| <= |data| && data[offset..offset + |x|] == x
  }

  lemma AtSplit(data: seq<Byte>, offset: nat, x: seq<Byte>, y: seq<Byte>)
    requires At(data, offset, x + y)
    ensures At(data, offset, x) && At(data, offset + |x|, y)
  {
    var z := x + y;
    assert data[offset..offset + |x|] == data[offset..offset + |z|][..|x|];
    assert data[offset + |x|..offset + |z|] == data[offset..offset + |z|][|x|..];
  }

  lemma FieldRead(data: seq<Byte>, offset: nat, n: nat, v: nat)
    requires At(data, offset, LittleEndian(n, v)) && v < Power256(n)
    ensures NumberAt(data, offset, n) == v
  {
    NumberReadBack(n, v);
  }

  lemma FieldCut(data: seq<Byte>, offset: nat, v: nat)
    requires At(data, offset, LittleEndian(2, v))
    ensures NumberAt(data, offset, 2) == CutTo16(v)
  {
  }

  lemma FieldWidths()
    ensures Power256(1) == 256 && Power256(2) == TWO_16 && Power256(4) == TWO_32 && Power256(8) == TWO_64
  {
    assert Power256(3) == 256 * Power256(2) && Power256(5) == 256 * Power256(4) && Power256(6) == 256 * Power256(5)
           && Power256(7) == 256 * Power256(6);
  }

  lemma {:induction false} Words32Read(data: seq<Byte>, offset: nat, words: seq<U32>)
    requires At(data, offset, Words32(words))
    ensures |Words32(words)| == 4 * |words|
    ensures forall i :: 0 <= i < |words| ==> NumberAt(data, offset + 4 * i, 4) == words[i]
    decreases |words|
  {
    hide NumberAt, LittleEndian;
    FieldWidths();
    if words != [] {
      AtSplit(data, offset, LittleEndian(4, words[0]), Words32(words[1..]));
      FieldRead(data, offset, 4, words[0]);
      Words32Read(data, offset + 4, words[1..]);
      forall i | 0 < i < |words|
        ensures NumberAt(data, offset + 4 * i, 4) == words[i]
      {
        assert NumberAt(data, offset + 4 + 4 * (i - 1), 4) == words[1..][i - 1];
      }
    }
  }

  lemma {:induction false} Words64Read(data: seq<Byte>, offset: nat, words: seq<U64>)
    requires At(data, offset, Words64(words))
    ensures |Words64(words)| == 8 * |words|
    ensures forall i :: 0 <= i < |words| ==> NumberAt(data, offset + 8 * i, 8) == words[i]
    decreases |words|
  {
    hide NumberAt, LittleEndian;
    FieldWidths();
    if words != [] {
      AtSplit(data, offset, LittleEndian(8, words[0]), Words64(words[1..]));
      FieldRead(data, offset, 8, words[0]);
      Words64Read(data, offset + 8, words[1..]);
      forall i | 0 < i < |words|
        ensures NumberAt(data, offset + 8 * i, 8) == words[i]
      {
        assert NumberAt(data, offset + 8 + 8 * (i - 1), 8) == words[1..][i - 1];
      }
    }
  }

  /** A text and the zero byte that ends it. */
  predicate TextAt(data: seq<Byte>, offset: nat, text: seq<Byte>) {
    At(data, offset, text + [0])
  }

  predicate CodeIs(data: seq<Byte>, offset: nat, code: seq<Word>) {
    forall i :: 0 <= i < |code| ==> NumberAt(data, offset + 4 * i, 4) == code[i]
  }

  predicate StaticAt(data: seq<Byte>, offset: nat, s: StaticCode) {
    && NumberAt(data, offset, 4) == STATIC_MAGIC
    && NumberAt(data, offset + 4, 2) == |Halted(s.code)| && NumberAt(data, offset + 6, 2) == s.nRegisters
    && CodeIs(data, offset + STATIC_HEADER_SIZE, Halted(s.code))
  }

  lemma StaticRead(data: seq<Byte>, offset: nat, s: StaticCode)
    requires At(data, offset, StaticBytes(s)) && |Halted(s.code)| < TWO_16 && s.nRegisters < TWO_16
    ensures StaticAt(data, offset, s) && |StaticBytes(s)| == STATIC_HEADER_SIZE + 4 * |Halted(s.code)|
  {
    hide NumberAt, LittleEndian, Halted;
    FieldWidths();
    var a, b, c, d := LittleEndian(4, STATIC_MAGIC), LittleEndian(2, |Halted(s.code)|), LittleEndian(2, s.nRegisters),
      Words32(Halted(s.code));
    AtSplit(data, offset, a + b + c, d);
    AtSplit(data, offset, a + b, c);
    AtSplit(data, offset, a, b);
    FieldRead(data, offset, 4, STATIC_MAGIC);
    FieldRead(data, offset + 4, 2, |Halted(s.code)|);
    FieldRead(data, offset + 6, 2, s.nRegisters);
    Words32Read(data, offset + 8, Halted(s.code));
  }

  /** A function's header, name and code, where the loader points. */
  predicate FunctionAt(data: seq<Byte>, hdr: nat, code: nat, f: FunctionImage) {
    && NumberAt(data, hdr, 4) == FUNC_MAGIC && NumberAt(data, hdr + 4, 4) == 0
    && NumberAt(data, hdr + 8, 1) == f.nArguments && NumberAt(data, hdr + 9, 1) == f.nRegisters
    && NumberAt(data, hdr + 10, 2) == |f.code| && NumberAt(data, hdr + 12, 2) == |f.name| + 1
    && TextAt(data, hdr + FUNC_HEADER_SIZE, f.name)
    && code == hdr + FUNC_HEADER_SIZE + |f.name| + 1 && code + 4 * |f.code| <= |data| && CodeIs(data, code, f.code)
  }

  lemma FunctionRead(data: seq<Byte>, offset: nat, f: FunctionImage)
    requires At(data, offset, FunctionBytes(f)) && FunctionFits(f)
    ensures FunctionAt(data, offset, offset + FUNC_HEADER_SIZE + |f.name| + 1, f)
    ensures |FunctionBytes(f)| == FUNC_HEADER_SIZE + |f.name| + 1 + 4 * |f.code|
  {
    hide NumberAt, LittleEndian;
    FieldWidths();
    AtSplit(data, offset, FunctionHeader(f) + (f.name + [0]), Words32(f.code));
    AtSplit(data, offset, FunctionHeader(f), f.name + [0]);
    FunctionHeaderRead(data, offset, f);
    Words32Read(data, offset + FUNC_HEADER_SIZE + |f.name| + 1, f.code);
  }

  lemma FunctionHeaderRead(data: seq<Byte>, hdr: nat, f: FunctionImage)
    requires At(data, hdr, FunctionHeader(f)) && FunctionFits(f)
    ensures NumberAt(data, hdr, 4) == FUNC_MAGIC && NumberAt(data, hdr + 4, 4) == 0
    ensures NumberAt(data, hdr + 8, 1) == f.nArguments && NumberAt(data, hdr + 9, 1) == f.nRegisters
    ensures NumberAt(data, hdr + 10, 2) == |f.code| && NumberAt(data, hdr + 12, 2) == |f.name| + 1
  {
    hide NumberAt, LittleEndian, At;
    FieldWidths();
    var a, b, c, d := LittleEndian(4, FUNC_MAGIC), LittleEndian(4, 0), LittleEndian(1, f.nArguments),
      LittleEndian(1, f.nRegisters);
    var e, n := LittleEndian(2, |f.code|), LittleEndian(2, |f.name| + 1);
    AtSplit(data, hdr, a + b + c + d + e, n);
    AtSplit(data, hdr, a + b + c + d, e);
    AtSplit(data, hdr, a + b + c, d);
    AtSplit(data, hdr, a + b, c);
    AtSplit(data, hdr, a, b);
    FieldRead(data, hdr, 4, FUNC_MAGIC);
    FieldRead(data, hdr + 4, 4, 0);
    FieldRead(data, hdr + 8, 1, f.nArguments);
    FieldRead(data, hdr + 9, 1, f.nRegisters);
    FieldRead(data, hdr + 10, 2, |f.code|);
    FieldRead(data, hdr + 12, 2, |f.name| + 1);
  }

  /** What is left of a number in a 16-bit field. */
  function CutTo16(v: nat): nat {
    FromLittleEndian(LittleEndian(2, v))
  }

  /** The header's fields, at their places. */
  predicate HeaderAt(data: seq<Byte>, m: ModuleImage) {
    && NumberAt(data, 0, 4) == BIN_MAGIC
    && NumberAt(data, 4, 2) == |m.constants32| && NumberAt(data, 6, 2) == |m.constants64|
    && NumberAt(data, 8, 2) == m.nGlobals32 && NumberAt(data, 10, 2) == m.nGlobals64
    && NumberAt(data, 12, 2) == |m.functions| + 1 && NumberAt(data, 14, 2) == 0
    && NumberAt(data, 16, 2) == |m.strings| && NumberAt(data, 18, 2) == TotalStringSize(m.strings)
    && NumberAt(data, 20, 2) == m.nGlobalsPtr && NumberAt(data, 22, 2) == CutTo16(StaticSize(m))
  }

  lemma HeaderRead(data: seq<Byte>, m: ModuleImage)
    requires At(data, 0, HeaderBytes(m)) && Accepted(m) && m.nGlobalsPtr < TWO_16
    ensures HeaderAt(data, m)
  {
    hide NumberAt, LittleEndian, At, TotalStringSize, StaticSize, Halted;
    FieldWidths();
    var a, b, c, d := LittleEndian(4, BIN_MAGIC), LittleEndian(2, |m.constants32|), LittleEndian(2, |m.constants64|),
      LittleEndian(2, m.nGlobals32);
    var e, f, g, h := LittleEndian(2, m.nGlobals64), LittleEndian(2, |m.functions| + 1), LittleEndian(2, 0),
      LittleEndian(2, |m.strings|);
    var i, j, k := LittleEndian(2, TotalStringSize(m.strings)), LittleEndian(2, m.nGlobalsPtr),
      LittleEndian(2, StaticSize(m));
    AtSplit(data, 0, a + b + c + d + e + f + g + h + i + j, k);
    AtSplit(data, 0, a + b + c + d + e + f + g + h + i, j);
    AtSplit(data, 0, a + b + c + d + e + f + g + h, i);
    AtSplit(data, 0, a + b + c + d + e + f + g, h);
    AtSplit(data, 0, a + b + c + d + e + f, g);
    AtSplit(data, 0, a + b + c + d + e, f);
    AtSplit(data, 0, a + b + c + d, e);
    AtSplit(data, 0, a + b + c, d);
    AtSplit(data, 0, a + b, c);
    AtSplit(data, 0, a, b);
    FieldRead(data, 0, 4, BIN_MAGIC);
    FieldRead(data, 4, 2, |m.constants32|);
    FieldRead(data, 6, 2, |m.constants64|);
    FieldRead(data, 8, 2, m.nGlobals32);
    FieldRead(data, 10, 2, m.nGlobals64);
    FieldRead(data, 12, 2, |m.functions| + 1);
    FieldRead(data, 14, 2, 0);
    FieldRead(data, 16, 2, |m.strings|);
    FieldRead(data, 18, 2, TotalStringSize(m.strings));
    FieldRead(data, 20, 2, m.nGlobalsPtr);
    FieldCut(data, 22, StaticSize(m));
  }

  // ----- the loader -----

  /** Where the parts are: offsets in the file. A function has its header and its code. */
  datatype LoadedBinary = LoadedBinary(
    constants32: nat, constants64: nat, strings: seq<nat>, init: nat, destroy: nat, functions: seq<(nat, nat)>)

  function OffsetConstants32(): nat { HEADER_SIZE }

  function OffsetConstants64(data: seq<Byte>): nat { OffsetConstants32() + 4 * NumberAt(data, 4, 2) }

  function OffsetStrings(data: seq<Byte>): nat { OffsetConstants64(data) + 8 * NumberAt(data, 6, 2)
                                                + 8 * NumberAt(data, 14, 2) }

  function OffsetStaticInit(data: seq<Byte>): nat { OffsetStrings(data) + NumberAt(data, 18, 2) }

  function OffsetFunctions(data: seq<Byte>): nat { OffsetStaticInit(data) + 4 * NumberAt(data, 22, 2) }

  /** Everything the module holds, found through the loaded offsets, in order. */
  predicate Recovers(data: seq<Byte>, b: LoadedBinary, m: ModuleImage) {
    && (forall i :: 0 <= i < |m.constants32| ==> NumberAt(data, b.constants32 + 4 * i, 4) == m.constants32[i])
    && (forall i :: 0 <= i < |m.constants64| ==> NumberAt(data, b.constants64 + 8 * i, 8) == m.constants64[i])
    && |b.strings| == |m.strings| && (forall i :: 0 <= i < |m.strings| ==> TextAt(data, b.strings[i], m.strings[i]))
    && StaticAt(data, b.init, m.init) && StaticAt(data, b.destroy, m.destroy)
    && |b.functions| == |m.functions| + 1
    && forall i :: 0 <= i < |b.functions| ==> FunctionAt(data, b.functions[i].0, b.functions[i].1, AllFunctions(m)[i])
  }

  // ----- how code that is not a function's ends -----

  /** The machine stops at this word, whatever state it is running in. */
  ghost predicate Halts(w: nat) {
    w < TWO_32 && forall b: Binary, s: State {:trigger Execute(b, s, w)} :: ValidBinary(b) && s.Running? ==>
                    Execute(b, s, w) == Some(State.Halted)
  }

  /** A size and the words it counts: the given code and one word that halts, or nothing at all. */
  ghost predicate EndsInHalt(data: seq<Byte>, size: nat, at: nat, code: seq<Word>) {
    if code == [] then NumberAt(data, size, 2) == 0
    else
      && NumberAt(data, size, 2) == |code| + 1
      && (forall i :: 0 <= i < |code| ==> NumberAt(data, at + 4 * i, 4) == code[i])
      && Halts(NumberAt(data, at + 4 * |code|, 4))
  }

  ghost predicate RegionsHalt(data: seq<Byte>, b: LoadedBinary, m: ModuleImage) {
    && EndsInHalt(data, b.init + 4, b.init + STATIC_HEADER_SIZE, m.init.code)
    && EndsInHalt(data, b.destroy + 4, b.destroy + STATIC_HEADER_SIZE, m.destroy.code)
    && |b.functions| == |m.functions| + 1
    && var (hdr, code) := b.functions[|m.functions|];
       EndsInHalt(data, hdr + 10, code, m.globalFunction.code)
  }

  lemma HaltHalts()
    ensures Halts(PackValue(HALT, 0))
  {
  }

  lemma HaltedEnds(data: seq<Byte>, size: nat, at: nat, code: seq<Word>)
    requires NumberAt(data, size, 2) == |Halted(code)| && CodeIs(data, at, Halted(code))
    ensures EndsInHalt(data, size, at, code)
  {
    HaltHalts();
    hide NumberAt, Halts;
    assert code != [] ==> Halted(code)[|code|] == PackValue(HALT, 0) && Halted(code)[..|code|] == code;
    assert forall i :: 0 <= i < |code| ==> Halted(code)[i] == code[i];
  }

  lemma RecoveredHalts(data: seq<Byte>, b: LoadedBinary, m: ModuleImage)
    requires Recovers(data, b, m)
    ensures RegionsHalt(data, b, m)
  {
    hide NumberAt, Halted, EndsInHalt, CodeIs, TextAt;
    HaltedEnds(data, b.init + 4, b.init + STATIC_HEADER_SIZE, m.init.code);
    HaltedEnds(data, b.destroy + 4, b.destroy + STATIC_HEADER_SIZE, m.destroy.code);
    var k := |m.functions|;
    assert FunctionAt(data, b.functions[k].0, b.functions[k].1, AllFunctions(m)[k]);
    HaltedEnds(data, b.functions[k].0 + 10, b.functions[k].1, m.globalFunction.code);
  }

  ghost predicate Written(data: seq<Byte>, m: ModuleImage) {
    data == Encode(m) && Accepted(m) && FitsFields(m)
  }

  /** The parts of a written file lie where the header's sizes say. */
  lemma Layout(data: seq<Byte>, m: ModuleImage)
    requires Written(data, m)
    ensures HeaderAt(data, m)
    ensures At(data, OffsetConstants32(), Words32(m.constants32))
            && At(data, OffsetConstants64(data), Words64(m.constants64))
    ensures At(data, OffsetStrings(data), StringsBytes(m.strings))
    ensures At(data, OffsetStaticInit(data), StaticBytes(m.init))
    ensures At(data, OffsetStaticInit(data) + STATIC_HEADER_SIZE + 4 * |Halted(m.init.code)|, StaticBytes(m.destroy))
    ensures At(data, OffsetFunctions(data), FunctionsBytes(AllFunctions(m)))
            && OffsetFunctions(data) + |FunctionsBytes(AllFunctions(m))| == |data|
  {
    hide NumberAt, LittleEndian, HeaderBytes, StaticBytes, FunctionsBytes, StringsBytes, TotalStringSize, Words32,
         Words64, FunctionFits, At, Halted, HeaderAt;
    var d, e, f := StaticBytes(m.init), StaticBytes(m.destroy), FunctionsBytes(AllFunctions(m));
    LayoutTables(data, m);
    var at := OffsetStaticInit(data);
    AtSplit(data, at, d, e + f);
    StaticRead(data, at, m.init);
    AtSplit(data, at + |d|, e, f);
    StaticRead(data, at + |d|, m.destroy);
    StaticField(data, m);
  }

  lemma StaticField(data: seq<Byte>, m: ModuleImage)
    requires HeaderAt(data, m)
    ensures NumberAt(data, 22, 2) == CutTo16(StaticSize(m))
            && (StaticSize(m) < TWO_16 <==> CutTo16(StaticSize(m)) == StaticSize(m))
    ensures NumberAt(data, 18, 2) == TotalStringSize(m.strings)
    ensures NumberAt(data, 4, 2) == |m.constants32| && NumberAt(data, 6, 2) == |m.constants64|
            && NumberAt(data, 14, 2) == 0
  {
    FieldWidths();
    NumberReadBack(2, StaticSize(m));
  }

  lemma LayoutTables(data: seq<Byte>, m: ModuleImage)
    requires data == Encode(m) && Accepted(m) && m.nGlobalsPtr < TWO_16
    ensures HeaderAt(data, m)
    ensures At(data, OffsetConstants32(), Words32(m.constants32))
            && At(data, OffsetConstants64(data), Words64(m.constants64))
    ensures At(data, OffsetStrings(data), StringsBytes(m.strings))
    ensures At(data, OffsetStaticInit(data),
               StaticBytes(m.init) + (StaticBytes(m.destroy) + FunctionsBytes(AllFunctions(m))))
    ensures OffsetStaticInit(data) + |StaticBytes(m.init) + (StaticBytes(m.destroy) + FunctionsBytes(AllFunctions(m)))|
            == |data|
  {
    hide NumberAt, LittleEndian, HeaderBytes, StaticBytes, FunctionsBytes, StringsBytes, TotalStringSize, Words32,
         Words64, FunctionFits, At, Halted;
    hide StaticSize, AllFunctions, HeaderAt;
    var a, b, c := Words32(m.constants32), Words64(m.constants64), StringsBytes(m.strings);
    var d := StaticBytes(m.init) + (StaticBytes(m.destroy) + FunctionsBytes(AllFunctions(m)));
    WholeAt(data);
    AtSplit(data, 0, HeaderBytes(m), Body(m));
    HeaderRead(data, m);
    StaticField(data, m);
    AtSplit(data, 24, a, b + (c + d));
    Words32Read(data, 24, m.constants32);
    AtSplit(data, 24 + |a|, b, c + d);
    Words64Read(data, 24 + |a|, m.constants64);
    AtSplit(data, 24 + |a| + |b|, c, d);
    StringsSize(m.strings);
  }

  lemma WholeAt(data: seq<Byte>)
    ensures At(data, 0, data)
  {
  }

  /** Loading what was written gives back the module; a file without the magic number is refused. */
  method Load(data: seq<Byte>, ghost m: ModuleImage) returns (ok: bool, b: LoadedBinary)
    ensures NumberAt(data, 0, 4) != BIN_MAGIC || FunctionsMissing(data) ==> !ok
    ensures Written(data, m) ==> ok && Recovers(data, b, m) && RegionsHalt(data, b, m)
  {
    hide RegionsHalt, NumberAt, Encode, Accepted, FitsFields, StaticBytes, FunctionsBytes, StringsBytes, Words32,
         Words64,
         FunctionAt, AllFunctions, Halted;
    b := LoadedBinary(0, 0, [], 0, 0, []);
    if NumberAt(data, 0, 4) != BIN_MAGIC {
      if Written(data, m) { Layout(data, m); }
      return false, b;
    }
    if Written(data, m) {
      Layout(data, m);
      Words32Read(data, OffsetConstants32(), m.constants32);
      Words64Read(data, OffsetConstants64(data), m.constants64);
      Statics(data, m);
    }
    var strings := LoadStrings(data, m);
    var init := OffsetStaticInit(data);
    if NumberAt(data, init, 4) != STATIC_MAGIC {
      return false, b;
    }
    var destroy := init + STATIC_HEADER_SIZE + 4 * NumberAt(data, init + 4, 2);
    if NumberAt(data, destroy, 4) != STATIC_MAGIC {
      return false, b;
    }
    var functions;
    ok, functions := LoadFunctions(data, m);
    FunctionCount(m);
    b := LoadedBinary(OffsetConstants32(), OffsetConstants64(data), strings, init, destroy, functions);
    if Written(data, m) { RecoveredHalts(data, b, m); }
  }

  lemma FunctionCount(m: ModuleImage)
    ensures |AllFunctions(m)| == |m.functions| + 1
  {
  }

  lemma Statics(data: seq<Byte>, m: ModuleImage)
    requires Written(data, m)
    ensures StaticAt(data, OffsetStaticInit(data), m.init)
    ensures StaticAt(data, OffsetStaticInit(data) + STATIC_HEADER_SIZE + 4 * |Halted(m.init.code)|, m.destroy)
  {
    hide NumberAt, Encode, StaticBytes, StaticAt, Halted, FunctionsBytes, StringsBytes, Words32, Words64;
    Layout(data, m);
    StaticRead(data, OffsetStaticInit(data), m.init);
    StaticRead(data, OffsetStaticInit(data) + STATIC_HEADER_SIZE + 4 * |Halted(m.init.code)|, m.destroy);
  }

  method LoadStrings(data: seq<Byte>, ghost m: ModuleImage) returns (strings: seq<nat>)
    ensures Written(data, m) ==> |strings| == |m.strings| && forall i :: 0 <= i < |strings| ==>
            TextAt(data, strings[i], m.strings[i])
  {
    hide NumberAt, Written, LittleEndian, TextAt;
    if Written(data, m) { StringsThere(data, m); }
    strings := [];
    var base, offset, n := OffsetStrings(data), 0, NumberAt(data, 16, 2);
    var i := 0;
    while i < n
      invariant 0 <= i <= n && |strings| == i && offset >= 0
      invariant Written(data, m) ==> n == |m.strings| && At(data, base + offset, StringsBytes(m.strings[i..]))
      invariant Written(data, m) ==> forall j :: 0 <= j < i ==> TextAt(data, strings[j], m.strings[j])
    {
      if Written(data, m) {
        StringRead(data, base + offset, m.strings[i..]);
        assert m.strings[i..][0] == m.strings[i] && m.strings[i..][1..] == m.strings[i + 1..];
      }
      var size := NumberAt(data, base + offset, 4);
      offset := offset + 4;
      strings := strings + [base + offset];
      offset := offset + size + 1;
      i := i + 1;
    }
  }

  lemma StringsThere(data: seq<Byte>, m: ModuleImage)
    requires Written(data, m)
    ensures NumberAt(data, 16, 2) == |m.strings| && At(data, OffsetStrings(data), StringsBytes(m.strings))
            && m.strings[0..] == m.strings
    ensures forall i :: 0 <= i < |m.strings| ==> |m.strings[i]| < TWO_32
  {
    StringBound(m.strings);
    hide NumberAt, Encode, StaticBytes, Halted, FunctionsBytes, StringsBytes, Words32, Words64, At;
    Layout(data, m);
  }

  lemma {:induction false} StringBound(strings: seq<seq<Byte>>)
    ensures forall i :: 0 <= i < |strings| ==> |strings[i]| < TotalStringSize(strings)
  {
    if strings != [] {
      StringBound(strings[1..]);
      assert forall i :: 0 < i < |strings| ==> strings[i] == strings[1..][i - 1];
    }
  }

  lemma StringRead(data: seq<Byte>, offset: nat, strings: seq<seq<Byte>>)
    requires At(data, offset, StringsBytes(strings)) && strings != [] && |strings[0]| < TWO_32
    ensures NumberAt(data, offset, 4) == |strings[0]| && TextAt(data, offset + 4, strings[0])
    ensures At(data, offset + 4 + |strings[0]| + 1, StringsBytes(strings[1..]))
  {
    hide NumberAt, LittleEndian;
    FieldWidths();
    var text := strings[0];
    AtSplit(data, offset, StringBytes(text), StringsBytes(strings[1..]));
    assert StringBytes(text) == LittleEndian(4, |text|) + (text + [0]);
    AtSplit(data, offset, LittleEndian(4, |text|), text + [0]);
    FieldRead(data, offset, 4, |text|);
  }

  /** Functions are announced, but there is none where the loader looks for the first. */
  predicate FunctionsMissing(data: seq<Byte>) {
    NumberAt(data, 12, 2) > 0 && NumberAt(data, OffsetFunctions(data), 4) != FUNC_MAGIC
  }

  method LoadFunctions(data: seq<Byte>, ghost m: ModuleImage) returns (ok: bool, functions: seq<(nat, nat)>)
    ensures FunctionsMissing(data) ==> !ok
    ensures Written(data, m) ==>
              && ok && |functions| == |AllFunctions(m)|
              && forall i :: 0 <= i < |functions| ==>
                 FunctionAt(data, functions[i].0, functions[i].1, AllFunctions(m)[i])
  {
    hide NumberAt, Written, AllFunctions, FunctionAt, FunctionFits, At, FunctionsBytes;
    if Written(data, m) { FunctionsThere(data, m); }
    functions := [];
    var input, n := OffsetFunctions(data), NumberAt(data, 12, 2);
    var i := 0;
    while i < n
      invariant i == 0 ==> input == OffsetFunctions(data)
      invariant i > 0 ==> !FunctionsMissing(data)
      invariant 0 <= i <= n && |functions| == i && input >= 0
      invariant Written(data, m) ==> n == |AllFunctions(m)| && At(data, input, FunctionsBytes(AllFunctions(m)[i..]))
      invariant Written(data, m) ==> forall j :: 0 <= j < i ==>
                FunctionAt(data, functions[j].0, functions[j].1, AllFunctions(m)[j])
    {
      if Written(data, m) {
        FunctionThere(data, input, AllFunctions(m)[i..]);
        assert AllFunctions(m)[i..][0] == AllFunctions(m)[i] && AllFunctions(m)[i..][1..] == AllFunctions(m)[i + 1..];
      }
      if input >= |data| || NumberAt(data, input, 4) != FUNC_MAGIC {
        return false, functions;
      }
      var name_len, code_size := NumberAt(data, input + 12, 2), NumberAt(data, input + 10, 2);
      functions := functions + [(input, input + FUNC_HEADER_SIZE + name_len)];
      input := input + FUNC_HEADER_SIZE + name_len + 4 * code_size;
      i := i + 1;
    }
    ok := true;
  }

  lemma FunctionsThere(data: seq<Byte>, m: ModuleImage)
    requires Written(data, m)
    ensures NumberAt(data, 12, 2) == |AllFunctions(m)|
            && At(data, OffsetFunctions(data), FunctionsBytes(AllFunctions(m)))
    ensures AllFunctions(m)[0..] == AllFunctions(m)
            && forall i :: 0 <= i < |AllFunctions(m)| ==> FunctionFits(AllFunctions(m)[i])
  {
    hide NumberAt, Encode, StaticBytes, Halted, FunctionsBytes, StringsBytes, Words32, Words64, At, FunctionFits;
    Layout(data, m);
  }

  lemma FunctionThere(data: seq<Byte>, input: nat, fs: seq<FunctionImage>)
    requires At(data, input, FunctionsBytes(fs)) && fs != [] && FunctionFits(fs[0])
    ensures input < |data| && NumberAt(data, input, 4) == FUNC_MAGIC
    ensures NumberAt(data, input + 12, 2) == |fs[0].name| + 1 && NumberAt(data, input + 10, 2) == |fs[0].code|
    ensures FunctionAt(data, input, input + FUNC_HEADER_SIZE + |fs[0].name| + 1, fs[0])
    ensures At(data, input + FUNC_HEADER_SIZE + |fs[0].name| + 1 + 4 * |fs[0].code|, FunctionsBytes(fs[1..]))
  {
    hide NumberAt, LittleEndian, FunctionBytes, TextAt, CodeIs;
    AtSplit(data, input, FunctionBytes(fs[0]), FunctionsBytes(fs[1..]));
    FunctionRead(data, input, fs[0]);
  }

  /**
    The writer does not check the combined size of the static regions, and the loader
    looks for the functions that far behind them. It looks where they were written
    exactly when the size fits its 16-bit field.
   */
  lemma FunctionsFound(m: ModuleImage)
    requires Accepted(m) && m.nGlobalsPtr < TWO_16 && m.init.nRegisters < TWO_16 && m.destroy.nRegisters < TWO_16
    ensures OffsetFunctions(Encode(m)) + |FunctionsBytes(AllFunctions(m))| == |Encode(m)| <==> StaticSize(m) < TWO_16
  {
    hide NumberAt, Encode, StaticBytes, FunctionsBytes, StringsBytes, Words32, Words64, At, HeaderAt, CutTo16;
    var data, d, e, f := Encode(m), StaticBytes(m.init), StaticBytes(m.destroy), FunctionsBytes(AllFunctions(m));
    LayoutTables(data, m);
    var at := OffsetStaticInit(data);
    AtSplit(data, at, d, e + f);
    StaticRead(data, at, m.init);
    AtSplit(data, at + |d|, e, f);
    StaticRead(data, at + |d|, m.destroy);
    StaticField(data, m);
  }

  /** Both static regions of 40000 words, all zero but for the HALT at the end, and no function. */
  function TwoLongRegions(): ModuleImage {
    var region := StaticCode(1, seq(39999, _ => 0));
    ModuleImage([], [], 0, 0, 0, [], region, region, [], FunctionImage([], 0, 0, []))
  }

  /**
    The writer accepts this module: each region passes its check. The loader then looks for
    the functions inside the first region, and refuses the file (see Load).
   */
  lemma LongRegionsLost()
    ensures var m := TwoLongRegions(); var data := Encode(m);
            && Accepted(m) && StaticSize(m) == 80004
            && OffsetFunctions(data) == OffsetStaticInit(data) + 4 * 14468
            && OffsetFunctions(data) + |FunctionsBytes(AllFunctions(m))| < |data|
            && NumberAt(data, 0, 4) == BIN_MAGIC && FunctionsMissing(data)
  {
    var m := TwoLongRegions();
    RegionSizes();
    FunctionsFound(m);
    hide NumberAt, Encode, StaticBytes, FunctionsBytes, StringsBytes, Words32, Words64, At, TwoLongRegions, Halted;
    var data, d, e, f := Encode(m), StaticBytes(m.init), StaticBytes(m.destroy), FunctionsBytes(AllFunctions(m));
    LayoutTables(data, m);
    var at := OffsetStaticInit(data);
    AtSplit(data, at, d, e + f);
    StaticRead(data, at, m.init);
    AtSplit(data, at + |d|, e, f);
    StaticRead(data, at + |d|, m.destroy);
    StaticField(data, m);
    CutSize();
    assert NumberAt(data, at + STATIC_HEADER_SIZE + 4 * 14466, 4) == Halted(m.init.code)[14466];
  }

  lemma RegionSizes()
    ensures var m := TwoLongRegions();
            && Accepted(m) && StaticSize(m) == 80004 && m.nGlobalsPtr == 0
            && |Halted(m.init.code)| == |Halted(m.destroy.code)| == 40000 && Halted(m.init.code)[14466] == 0
            && m.init.nRegisters == m.destroy.nRegisters == 1
  {
  }

  lemma CutSize()
    ensures CutTo16(80004) == 14468
  {
    var low := LittleEndian(2, 80004);
    assert low == [80004 % 256] + LittleEndian(1, 312) && LittleEndian(1, 312) == [312 % 256] + LittleEndian(0, 1);
    assert low == [132, 56] && low[1..] == [56] && low[1..][1..] == [];
    assert FromLittleEndian([56]) == 56 + 256 * FromLittleEndian([56][1..]);
  }
}
