/** The module writer: what it writes is read back, section by section and vector by vector, by the binary
    grammar of section 5 of the WebAssembly Core Specification. */
module WasmModules {
  import opened Bytes
  import opened Leb128

  // ---------------------------------------------------------------- what a module says

  datatype FuncType = FuncType(params: seq<Byte>, results: seq<Byte>)

  datatype Import = Import(host: seq<Byte>, field: seq<Byte>, typeIndex: nat)

  datatype Export = Export(name: seq<Byte>, kind: Byte, index: nat)

  datatype Limits = Limits(min: nat, max: nat)

  /** An active segment of memory zero. */
  datatype Segment = Segment(address: int, payload: seq<Byte>)

  /** Function bodies are kept as their instruction bytes, the closing `end` left off. */
  datatype Module = Module(
    types: seq<FuncType>, imports: seq<Import>, functions: seq<nat>, memories: seq<Limits>,
    exports: seq<Export>, bodies: seq<seq<Byte>>, data: seq<Segment>)

  datatype Section = Section(id: Byte, payload: seq<Byte>)

  const MAGIC: seq<Byte> := [0x00, 0x61, 0x73, 0x6D, 0x01, 0x00, 0x00, 0x00]
  const I32: Byte := 0x7F
  const I64: Byte := 0x7E
  const END: Byte := 0x0B
  const I32_CONST: Byte := 0x41
  const FUNC: Byte := 0x60
  const LIMIT32: nat := 0x1_0000_0000

  // ---------------------------------------------------------------- vectors, written and read

  function WriteAll<T>(write: T -> seq<Byte>, items: seq<T>): seq<Byte> {
    if items == [] then [] else write(items[0]) + WriteAll(write, items[1..])
  }

  function WriteVec<T>(write: T -> seq<Byte>, items: seq<T>): seq<Byte> {
    Uleb(|items|) + WriteAll(write, items)
  }

  function ReadAll<T>(read: seq<Byte> -> Parsed<T>, b: seq<Byte>, count: nat): Parsed<seq<T>>
    decreases count
  {
    if count == 0 then Parse([], b)
    else
      match read(b)
      case NoParse => NoParse
      case Parse(first, rest) =>
        match ReadAll(read, rest, count - 1)
        case NoParse => NoParse
        case Parse(others, last) => Parse([first] + others, last)
  }

  function ReadVec<T>(read: seq<Byte> -> Parsed<T>, b: seq<Byte>): Parsed<seq<T>> {
    match DecodeU(b, 32)
    case NoParse => NoParse
    case Parse(count, rest) => ReadAll(read, rest, count)
  }

  /** Reading undoes writing for this item, whatever follows it. */
  ghost predicate Inverts<T(!new)>(read: seq<Byte> -> Parsed<T>, write: T -> seq<Byte>, item: T) {
    forall rest: seq<Byte> :: read(write(item) + rest) == Parse(item, rest)
  }

  lemma {:induction false} AllInverts<T(!new)>(read: seq<Byte> -> Parsed<T>, write: T -> seq<Byte>, items: seq<T>, rest: seq<Byte>)
    requires forall k :: 0 <= k < |items| ==> Inverts(read, write, items[k])
    ensures ReadAll(read, WriteAll(write, items) + rest, |items|) == Parse(items, rest)
  {
    if items == [] {
      assert WriteAll(write, items) + rest == rest;
    } else {
      AllInverts(read, write, items[1..], rest);
      var tail := WriteAll(write, items[1..]) + rest;
      assert WriteAll(write, items) + rest == write(items[0]) + tail;
      assert Inverts(read, write, items[0]);
      assert items == [items[0]] + items[1..];
    }
  }

  lemma Fits32(value: nat, rest: seq<Byte>)
    requires value < LIMIT32
    ensures DecodeU(Uleb(value) + rest, 32) == Parse(value, rest)
  {
    hide DecodeU, Uleb;
    UlebInverts(value, 32, rest);
    Bits32();
  }

  lemma Bits32()
    ensures Pow2(32) == LIMIT32 && Pow2(31) == LIMIT32 / 2
  {
    hide Pow2;
    SevenBits();
    Pow2Seven(7);
    Pow2Seven(14);
    Pow2Seven(21);
    assert Pow2(28) == 128 * 128 * 128 * 128;
    LastFour(28);
  }

  lemma LastFour(n: nat)
    ensures Pow2(n + 4) == 16 * Pow2(n) && Pow2(n + 3) == 8 * Pow2(n)
  {
    assert Pow2(n + 3) == 2 * Pow2(n + 2) == 4 * Pow2(n + 1);
  }

  /** A vector of items each of which can be read back is read back. */
  lemma VecInverts<T(!new)>(read: seq<Byte> -> Parsed<T>, write: T -> seq<Byte>, items: seq<T>, rest: seq<Byte>)
    requires |items| < LIMIT32 && forall k :: 0 <= k < |items| ==> Inverts(read, write, items[k])
    ensures ReadVec(read, WriteVec(write, items) + rest) == Parse(items, rest)
  {
    hide DecodeU, Uleb, WriteAll, ReadAll, Inverts;
    assert WriteVec(write, items) + rest == Uleb(|items|) + (WriteAll(write, items) + rest);
    Fits32(|items|, WriteAll(write, items) + rest);
    AllInverts(read, write, items, rest);
  }

  // ---------------------------------------------------------------- each construct

  /** A name, or any bytes with their length before them. */
  function Name(text: seq<Byte>): (b: seq<Byte>)
    ensures |b| > |text|
  {
    Uleb(|text|) + text
  }

  function ReadName(b: seq<Byte>): Parsed<seq<Byte>> {
    match DecodeU(b, 32)
    case NoParse => NoParse
    case Parse(size, rest) => if size <= |rest| then Parse(rest[..size], rest[size..]) else NoParse
  }

  lemma NameInverts(text: seq<Byte>, rest: seq<Byte>)
    requires |text| < LIMIT32
    ensures ReadName(Name(text) + rest) == Parse(text, rest)
  {
    hide DecodeU, Uleb;
    assert Name(text) + rest == Uleb(|text|) + (text + rest);
    Fits32(|text|, text + rest);
    assert (text + rest)[..|text|] == text && (text + rest)[|text|..] == rest;
  }

  predicate IsValType(b: Byte) { b in {0x7F, 0x7E, 0x7D, 0x7C, 0x7B, 0x70, 0x6F} }

  predicate AreValTypes(s: seq<Byte>) { forall k :: 0 <= k < |s| ==> IsValType(s[k]) }

  function WriteFuncType(t: FuncType): seq<Byte> { [FUNC] + Name(t.params) + Name(t.results) }

  function ReadFuncType(b: seq<Byte>): Parsed<FuncType> {
    if b == [] || b[0] != FUNC then NoParse
    else
      match ReadName(b[1..])
      case NoParse => NoParse
      case Parse(params, more) =>
        match ReadName(more)
        case NoParse => NoParse
        case Parse(results, rest) =>
          if AreValTypes(params) && AreValTypes(results) then Parse(FuncType(params, results), rest) else NoParse
  }

  lemma FuncTypeInverts(t: FuncType)
    requires |WriteFuncType(t)| < LIMIT32 && AreValTypes(t.params) && AreValTypes(t.results)
    ensures Inverts(ReadFuncType, WriteFuncType, t)
  {
    hide Name, ReadName, AreValTypes;
    forall rest: seq<Byte> ensures ReadFuncType(WriteFuncType(t) + rest) == Parse(t, rest) {
      NameInverts(t.params, Name(t.results) + rest);
      NameInverts(t.results, rest);
      var b := WriteFuncType(t) + rest;
      assert b[1..] == Name(t.params) + (Name(t.results) + rest);
    }
  }

  function WriteImport(i: Import): seq<Byte> { Name(i.host) + Name(i.field) + [0x00] + Uleb(i.typeIndex) }

  function ReadImport(b: seq<Byte>): Parsed<Import> {
    match ReadName(b)
    case NoParse => NoParse
    case Parse(host, b1) =>
      match ReadName(b1)
      case NoParse => NoParse
      case Parse(field, b2) =>
        if b2 == [] || b2[0] != 0x00 then NoParse
        else
          match DecodeU(b2[1..], 32)
          case NoParse => NoParse
          case Parse(index, rest) => Parse(Import(host, field, index), rest)
  }

  lemma ImportInverts(i: Import)
    requires |WriteImport(i)| < LIMIT32 && i.typeIndex < LIMIT32
    ensures Inverts(ReadImport, WriteImport, i)
  {
    hide Name, ReadName, Uleb, DecodeU;
    forall rest: seq<Byte> ensures ReadImport(WriteImport(i) + rest) == Parse(i, rest) {
      var tail := [0x00] + Uleb(i.typeIndex) + rest;
      assert WriteImport(i) + rest == Name(i.host) + (Name(i.field) + tail);
      NameInverts(i.host, Name(i.field) + tail);
      NameInverts(i.field, tail);
      assert tail[1..] == Uleb(i.typeIndex) + rest;
      Fits32(i.typeIndex, rest);
    }
  }

  function ReadIndex(b: seq<Byte>): Parsed<nat> { DecodeU(b, 32) }

  lemma IndexInverts(index: nat)
    requires index < LIMIT32
    ensures Inverts(ReadIndex, Uleb, index)
  {
    hide Uleb, DecodeU;
    forall rest: seq<Byte> ensures ReadIndex(Uleb(index) + rest) == Parse(index, rest) {
      Fits32(index, rest);
    }
  }

  /** A memory that says how far it may grow. */
  function WriteLimits(l: Limits): seq<Byte> { [0x01] + Uleb(l.min) + Uleb(l.max) }

  function ReadLimits(b: seq<Byte>): Parsed<Limits> {
    if b == [] || b[0] != 0x01 then NoParse
    else
      match DecodeU(b[1..], 32)
      case NoParse => NoParse
      case Parse(min, more) =>
        match DecodeU(more, 32)
        case NoParse => NoParse
        case Parse(max, rest) => Parse(Limits(min, max), rest)
  }

  lemma LimitsInverts(l: Limits)
    requires l.min < LIMIT32 && l.max < LIMIT32
    ensures Inverts(ReadLimits, WriteLimits, l)
  {
    hide Uleb, DecodeU;
    forall rest: seq<Byte> ensures ReadLimits(WriteLimits(l) + rest) == Parse(l, rest) {
      var b := WriteLimits(l) + rest;
      assert b[1..] == Uleb(l.min) + (Uleb(l.max) + rest);
      Fits32(l.min, Uleb(l.max) + rest);
      Fits32(l.max, rest);
    }
  }

  function WriteExport(e: Export): seq<Byte> { Name(e.name) + [e.kind] + Uleb(e.index) }

  function ReadExport(b: seq<Byte>): Parsed<Export> {
    match ReadName(b)
    case NoParse => NoParse
    case Parse(name, more) =>
      if more == [] || more[0] > 3 then NoParse
      else
        match DecodeU(more[1..], 32)
        case NoParse => NoParse
        case Parse(index, rest) => Parse(Export(name, more[0], index), rest)
  }

  lemma ExportInverts(e: Export)
    requires |WriteExport(e)| < LIMIT32 && e.kind <= 3 && e.index < LIMIT32
    ensures Inverts(ReadExport, WriteExport, e)
  {
    hide Name, ReadName, Uleb, DecodeU;
    forall rest: seq<Byte> ensures ReadExport(WriteExport(e) + rest) == Parse(e, rest) {
      var tail := [e.kind] + Uleb(e.index) + rest;
      assert WriteExport(e) + rest == Name(e.name) + tail;
      NameInverts(e.name, tail);
      assert tail[1..] == Uleb(e.index) + rest;
      Fits32(e.index, rest);
    }
  }

  /** A body: its size, no local declarations, the code, and `end`. */
  function WriteBody(code: seq<Byte>): seq<Byte> { Name(Uleb(0) + code + [END]) }

  function ReadBody(b: seq<Byte>): Parsed<seq<Byte>> {
    match ReadName(b)
    case NoParse => NoParse
    case Parse(inner, rest) =>
      match DecodeU(inner, 32)
      case NoParse => NoParse
      case Parse(locals, code) =>
        if locals == 0 && code != [] && code[|code| - 1] == END then Parse(code[..|code| - 1], rest) else NoParse
  }

  lemma BodyInverts(code: seq<Byte>)
    requires |WriteBody(code)| < LIMIT32
    ensures Inverts(ReadBody, WriteBody, code)
  {
    hide Name, ReadName, Uleb, DecodeU;
    forall rest: seq<Byte> ensures ReadBody(WriteBody(code) + rest) == Parse(code, rest) {
      NameInverts(Uleb(0) + code + [END], rest);
      assert Uleb(0) + code + [END] == Uleb(0) + (code + [END]);
      Fits32(0, code + [END]);
      assert (code + [END])[..|code|] == code;
    }
  }

  function WriteSegment(s: Segment): seq<Byte> {
    Uleb(0) + [I32_CONST] + Sleb(s.address) + [END] + Name(s.payload)
  }

  function ReadSegment(b: seq<Byte>): Parsed<Segment> {
    match DecodeU(b, 32)
    case NoParse => NoParse
    case Parse(flag, b1) =>
      if flag != 0 || b1 == [] || b1[0] != I32_CONST then NoParse
      else
        match DecodeS(b1[1..], 32)
        case NoParse => NoParse
        case Parse(address, b2) =>
          if b2 == [] || b2[0] != END then NoParse
          else
            match ReadName(b2[1..])
            case NoParse => NoParse
            case Parse(payload, rest) => Parse(Segment(address, payload), rest)
  }

  lemma SegmentInverts(s: Segment)
    requires |WriteSegment(s)| < LIMIT32 && -0x8000_0000 <= s.address < 0x8000_0000
    ensures Inverts(ReadSegment, WriteSegment, s)
  {
    hide Name, ReadName, Uleb, DecodeU, Sleb, DecodeS, Pow2;
    forall rest: seq<Byte> ensures ReadSegment(WriteSegment(s) + rest) == Parse(s, rest) {
      var end := [END] + Name(s.payload) + rest;
      var tail := [I32_CONST] + Sleb(s.address) + end;
      assert WriteSegment(s) + rest == Uleb(0) + tail;
      Fits32(0, tail);
      assert tail[1..] == Sleb(s.address) + end;
      Bits32();
      SlebInverts(s.address, 32, end);
      assert end[1..] == Name(s.payload) + rest;
      NameInverts(s.payload, rest);
    }
  }

  // ---------------------------------------------------------------- sections

  function WriteSection(s: Section): seq<Byte> { [s.id] + Name(s.payload) }

  function ReadSection(b: seq<Byte>): Parsed<Section> {
    if b == [] then NoParse
    else
      match ReadName(b[1..])
      case NoParse => NoParse
      case Parse(payload, rest) => Parse(Section(b[0], payload), rest)
  }

  lemma SectionInverts(s: Section, rest: seq<Byte>)
    requires |s.payload| < LIMIT32
    ensures ReadSection(WriteSection(s) + rest) == Parse(s, rest)
  {
    hide Name, ReadName;
    NameInverts(s.payload, rest);
    var b := WriteSection(s) + rest;
    assert b[1..] == Name(s.payload) + rest;
  }

  /** Sections to the end of the file. */
  function ReadSections(b: seq<Byte>): Parsed<seq<Section>>
    decreases |b|
  {
    if b == [] then Parse([], [])
    else
      match ReadSection(b)
      case NoParse => NoParse
      case Parse(first, rest) =>
        if |rest| >= |b| then NoParse
        else
          match ReadSections(rest)
          case NoParse => NoParse
          case Parse(others, last) => Parse([first] + others, last)
  }

  lemma {:induction false} SectionsInvert(sections: seq<Section>)
    requires forall k :: 0 <= k < |sections| ==> |sections[k].payload| < LIMIT32
    ensures ReadSections(WriteAll(WriteSection, sections)) == Parse(sections, [])
  {
    hide ReadSection, Name;
    if sections != [] {
      SectionInverts(sections[0], WriteAll(WriteSection, sections[1..]));
      SectionsInvert(sections[1..]);
      assert sections == [sections[0]] + sections[1..];
    }
  }

  /** A section that holds exactly one vector, as each section here does. */
  function ReadWhole<T>(read: seq<Byte> -> Parsed<T>, payload: seq<Byte>): Parsed<seq<T>> {
    match ReadVec(read, payload)
    case NoParse => NoParse
    case Parse(items, rest) => if rest == [] then Parse(items, []) else NoParse
  }

  lemma {:induction false} WrittenLength<T>(write: T -> seq<Byte>, items: seq<T>, k: nat)
    requires forall i :: 0 <= i < |items| ==> |write(items[i])| >= 1
    ensures |items| <= |WriteAll(write, items)|
    ensures k < |items| ==> |write(items[k])| <= |WriteAll(write, items)|
  {
    if items != [] {
      WrittenLength(write, items[1..], if k > 0 then k - 1 else 0);
    }
  }

  /** What may be read back when it is short enough to have its size written. */
  ghost predicate Readable<T(!new)>(read: seq<Byte> -> Parsed<T>, write: T -> seq<Byte>, items: seq<T>) {
    && (forall k :: 0 <= k < |items| ==> |write(items[k])| >= 1)
    && (forall k :: 0 <= k < |items| && |write(items[k])| < LIMIT32 ==> Inverts(read, write, items[k]))
  }

  lemma WholeInverts<T(!new)>(read: seq<Byte> -> Parsed<T>, write: T -> seq<Byte>, items: seq<T>)
    requires Readable(read, write, items) && |WriteVec(write, items)| < LIMIT32
    ensures ReadWhole(read, WriteVec(write, items)) == Parse(items, [])
  {
    hide Inverts, Uleb, WriteAll, ReadVec;
    WrittenLength(write, items, 0);
    forall k | 0 <= k < |items| ensures Inverts(read, write, items[k]) {
      WrittenLength(write, items, k);
    }
    VecInverts(read, write, items, []);
    assert WriteVec(write, items) + [] == WriteVec(write, items);
  }

  // ---------------------------------------------------------------- the module

  const SECTIONS: seq<Byte> := [1, 2, 3, 5, 7, 10, 11]

  function SectionsOf(m: Module): seq<Section> {
    [Section(1, WriteVec(WriteFuncType, m.types)), Section(2, WriteVec(WriteImport, m.imports)),
     Section(3, WriteVec(Uleb, m.functions)), Section(5, WriteVec(WriteLimits, m.memories)),
     Section(7, WriteVec(WriteExport, m.exports)), Section(10, WriteVec(WriteBody, m.bodies)),
     Section(11, WriteVec(WriteSegment, m.data))]
  }

  function WriteModule(m: Module): seq<Byte> {
    MAGIC + WriteAll(WriteSection, SectionsOf(m))
  }

  function IdsOf(sections: seq<Section>): (ids: seq<Byte>)
    ensures |ids| == |sections| && forall k :: 0 <= k < |ids| ==> ids[k] == sections[k].id
  {
    if sections == [] then [] else [sections[0].id] + IdsOf(sections[1..])
  }

  function ReadContents(sections: seq<Section>): Parsed<Module>
    requires |sections| == 7
  {
    var types := ReadWhole(ReadFuncType, sections[0].payload);
    var imports := ReadWhole(ReadImport, sections[1].payload);
    var functions := ReadWhole(ReadIndex, sections[2].payload);
    var memories := ReadWhole(ReadLimits, sections[3].payload);
    var exports := ReadWhole(ReadExport, sections[4].payload);
    var bodies := ReadWhole(ReadBody, sections[5].payload);
    var data := ReadWhole(ReadSegment, sections[6].payload);
    if types.Parse? && imports.Parse? && functions.Parse? && memories.Parse? && exports.Parse? && bodies.Parse?
       && data.Parse?
    then Parse(Module(types.value, imports.value, functions.value, memories.value, exports.value, bodies.value,
                      data.value), [])
    else NoParse
  }

  /** A module with these seven sections, in this order, each read to its end. */
  function ReadModule(b: seq<Byte>): Parsed<Module> {
    if |b| < 8 || b[..8] != MAGIC then NoParse
    else
      match ReadSections(b[8..])
      case NoParse => NoParse
      case Parse(sections, _) => if IdsOf(sections) == SECTIONS then ReadContents(sections) else NoParse
  }

  /** The fields have room in the format. */
  predicate Encodable(m: Module) {
    && (forall k :: 0 <= k < |m.types| ==> AreValTypes(m.types[k].params) && AreValTypes(m.types[k].results))
    && (forall k :: 0 <= k < |m.imports| ==> m.imports[k].typeIndex < LIMIT32)
    && (forall k :: 0 <= k < |m.functions| ==> m.functions[k] < LIMIT32)
    && (forall k :: 0 <= k < |m.memories| ==> m.memories[k].min < LIMIT32 && m.memories[k].max < LIMIT32)
    && (forall k :: 0 <= k < |m.exports| ==> m.exports[k].kind <= 3 && m.exports[k].index < LIMIT32)
    && (forall k :: 0 <= k < |m.data| ==> -0x8000_0000 <= m.data[k].address < 0x8000_0000)
  }

  lemma PayloadFits(m: Module, k: nat)
    requires |WriteModule(m)| < LIMIT32 && k < 7
    ensures |SectionsOf(m)[k].payload| < LIMIT32
  {
    hide WriteVec, Name, WriteAll;
    var sections := SectionsOf(m);
    WrittenLength(WriteSection, sections, k);
    assert |WriteSection(sections[k])| > |sections[k].payload|;
  }

  lemma TypesRead(m: Module)
    requires Encodable(m) && |WriteVec(WriteFuncType, m.types)| < LIMIT32
    ensures ReadWhole(ReadFuncType, WriteVec(WriteFuncType, m.types)) == Parse(m.types, [])
  {
    hide ReadWhole, WriteVec, Inverts, AreValTypes, ReadFuncType;
    forall k | 0 <= k < |m.types| && |WriteFuncType(m.types[k])| < LIMIT32
      ensures Inverts(ReadFuncType, WriteFuncType, m.types[k])
    {
      FuncTypeInverts(m.types[k]);
    }
    WholeInverts(ReadFuncType, WriteFuncType, m.types);
  }

  lemma ImportsRead(m: Module)
    requires Encodable(m) && |WriteVec(WriteImport, m.imports)| < LIMIT32
    ensures ReadWhole(ReadImport, WriteVec(WriteImport, m.imports)) == Parse(m.imports, [])
  {
    hide ReadWhole, WriteVec, Inverts, AreValTypes, ReadImport;
    forall k | 0 <= k < |m.imports| && |WriteImport(m.imports[k])| < LIMIT32
      ensures Inverts(ReadImport, WriteImport, m.imports[k])
    {
      ImportInverts(m.imports[k]);
    }
    WholeInverts(ReadImport, WriteImport, m.imports);
  }

  lemma FunctionsRead(m: Module)
    requires Encodable(m) && |WriteVec(Uleb, m.functions)| < LIMIT32
    ensures ReadWhole(ReadIndex, WriteVec(Uleb, m.functions)) == Parse(m.functions, [])
  {
    hide ReadWhole, WriteVec, Inverts, AreValTypes, ReadIndex, Uleb;
    forall k | 0 <= k < |m.functions| ensures Inverts(ReadIndex, Uleb, m.functions[k]) {
      IndexInverts(m.functions[k]);
    }
    WholeInverts(ReadIndex, Uleb, m.functions);
  }

  lemma MemoriesRead(m: Module)
    requires Encodable(m) && |WriteVec(WriteLimits, m.memories)| < LIMIT32
    ensures ReadWhole(ReadLimits, WriteVec(WriteLimits, m.memories)) == Parse(m.memories, [])
  {
    hide ReadWhole, WriteVec, Inverts, AreValTypes, ReadLimits;
    forall k | 0 <= k < |m.memories| ensures Inverts(ReadLimits, WriteLimits, m.memories[k]) {
      LimitsInverts(m.memories[k]);
    }
    WholeInverts(ReadLimits, WriteLimits, m.memories);
  }

  lemma ExportsRead(m: Module)
    requires Encodable(m) && |WriteVec(WriteExport, m.exports)| < LIMIT32
    ensures ReadWhole(ReadExport, WriteVec(WriteExport, m.exports)) == Parse(m.exports, [])
  {
    hide ReadWhole, WriteVec, Inverts, AreValTypes, ReadExport;
    forall k | 0 <= k < |m.exports| && |WriteExport(m.exports[k])| < LIMIT32
      ensures Inverts(ReadExport, WriteExport, m.exports[k])
    {
      ExportInverts(m.exports[k]);
    }
    WholeInverts(ReadExport, WriteExport, m.exports);
  }

  lemma BodiesRead(m: Module)
    requires |WriteVec(WriteBody, m.bodies)| < LIMIT32
    ensures ReadWhole(ReadBody, WriteVec(WriteBody, m.bodies)) == Parse(m.bodies, [])
  {
    hide ReadWhole, WriteVec, Inverts, ReadBody;
    forall k | 0 <= k < |m.bodies| && |WriteBody(m.bodies[k])| < LIMIT32
      ensures Inverts(ReadBody, WriteBody, m.bodies[k])
    {
      BodyInverts(m.bodies[k]);
    }
    WholeInverts(ReadBody, WriteBody, m.bodies);
  }

  lemma DataRead(m: Module)
    requires Encodable(m) && |WriteVec(WriteSegment, m.data)| < LIMIT32
    ensures ReadWhole(ReadSegment, WriteVec(WriteSegment, m.data)) == Parse(m.data, [])
  {
    hide ReadWhole, WriteVec, Inverts, AreValTypes, ReadSegment;
    forall k | 0 <= k < |m.data| && |WriteSegment(m.data[k])| < LIMIT32
      ensures Inverts(ReadSegment, WriteSegment, m.data[k])
    {
      SegmentInverts(m.data[k]);
    }
    WholeInverts(ReadSegment, WriteSegment, m.data);
  }

  lemma ContentsRead(m: Module)
    requires Encodable(m) && forall k :: 0 <= k < 7 ==> |SectionsOf(m)[k].payload| < LIMIT32
    ensures ReadContents(SectionsOf(m)) == Parse(m, [])
  {
    hide ReadWhole, WriteVec, Encodable;
    var s := SectionsOf(m);
    assert |s[0].payload| < LIMIT32 && |s[1].payload| < LIMIT32 && |s[2].payload| < LIMIT32 && |s[3].payload| < LIMIT32;
    assert |s[4].payload| < LIMIT32 && |s[5].payload| < LIMIT32 && |s[6].payload| < LIMIT32;
    TypesRead(m);
    ImportsRead(m);
    FunctionsRead(m);
    MemoriesRead(m);
    ExportsRead(m);
    BodiesRead(m);
    DataRead(m);
  }

  /** A module shorter than four gigabytes, its fields in range, is read back exactly: every section with
      its exact size, in increasing order, and everything in it. */
  lemma ModuleInverts(m: Module)
    requires Encodable(m) && |WriteModule(m)| < LIMIT32
    ensures ReadModule(WriteModule(m)) == Parse(m, [])
  {
    hide ReadSections, ReadContents, WriteVec, WriteAll, Encodable;
    var b, s := WriteModule(m), SectionsOf(m);
    assert b[..8] == MAGIC && b[8..] == WriteAll(WriteSection, s);
    forall k | 0 <= k < 7 ensures |s[k].payload| < LIMIT32 {
      PayloadFits(m, k);
    }
    SectionsInvert(s);
    ContentsRead(m);
    assert IdsOf(s) == SECTIONS;
  }

  // ---------------------------------------------------------------- what a mod is built as

  /** A host function a mod imports, by the shape the host gives it. */
  datatype HostFunction = HostFunction(field: seq<Byte>, params: seq<Byte>, results: seq<Byte>)

  function Ascii(text: string): (b: seq<Byte>)
    requires forall k :: 0 <= k < |text| ==> text[k] as int < 128
    ensures |b| == |text|
  {
    seq(|text|, k requires 0 <= k < |text| => text[k] as int)
  }

  const COMMAND_ADDRESS := 32

  function TypesOf(imports: seq<HostFunction>): (t: seq<FuncType>)
    ensures |t| == 3 + |imports|
  {
    [FuncType([], [I32]), FuncType([I64], []), FuncType([], [])]
    + seq(|imports|, k requires 0 <= k < |imports| => FuncType(imports[k].params, imports[k].results))
  }

  function ImportsOf(imports: seq<HostFunction>): (i: seq<Import>)
    ensures |i| == |imports|
  {
    seq(|imports|, k requires 0 <= k < |imports| => Import(Ascii("atlas"), imports[k].field, 3 + k))
  }

  function ExportsOf(count: nat): seq<Export> {
    [Export(Ascii("memory"), 0x02, 0), Export(Ascii("mod_init"), 0x00, count),
     Export(Ascii("mod_tick"), 0x00, count + 1), Export(Ascii("mod_shutdown"), 0x00, count + 2)]
  }

  /** The module a mod's imports, tick and extra data describe. */
  function ModuleOf(imports: seq<HostFunction>, tick: seq<Byte>, extra: seq<Segment>): Module {
    Module(TypesOf(imports), ImportsOf(imports), [0, 1, 2], [Limits(1, 1)], ExportsOf(|imports|),
           [[I32_CONST] + Sleb(0), tick, []],
           [Segment(COMMAND_ADDRESS, Ascii("set_color_index"))] + extra)
  }

  /** Each export of a function leads to one whose type is the one the host will call it with, and every
      index is in range. */
  lemma ExportsHaveTheirTypes(imports: seq<HostFunction>, tick: seq<Byte>, extra: seq<Segment>)
    ensures var m := ModuleOf(imports, tick, extra);
      && TypeOfExport(m, 1) == Parse(FuncType([], [I32]), []) && TypeOfExport(m, 2) == Parse(FuncType([I64], []), [])
      && TypeOfExport(m, 3) == Parse(FuncType([], []), []) && |m.functions| == |m.bodies|
      && (forall k :: 0 <= k < |imports|
            ==> m.types[m.imports[k].typeIndex] == FuncType(imports[k].params, imports[k].results))
  {
  }

  /** The type an exported function has: imports are numbered before the module's own functions. */
  function TypeOfExport(m: Module, k: nat): Parsed<FuncType> {
    if k >= |m.exports| || m.exports[k].kind != 0x00 then NoParse
    else
      var index := m.exports[k].index;
      if index < |m.imports| then TypeAt(m, m.imports[index].typeIndex)
      else if index - |m.imports| < |m.functions| then TypeAt(m, m.functions[index - |m.imports|])
      else NoParse
  }

  function TypeAt(m: Module, t: nat): Parsed<FuncType> {
    if t < |m.types| then Parse(m.types[t], []) else NoParse
  }

  lemma {:induction false} WriteAllAppend<T>(write: T -> seq<Byte>, items: seq<T>, last: T)
    ensures WriteAll(write, items + [last]) == WriteAll(write, items) + write(last)
  {
    if items == [] {
    } else {
      WriteAllAppend(write, items[1..], last);
      assert (items + [last])[1..] == items[1..] + [last];
    }
  }

  method SectionBytes(id: Byte, payload: seq<Byte>) returns (b: seq<Byte>)
    ensures b == WriteSection(Section(id, payload))
  {
    var size := UlebPython(|payload|);
    b := [id] + size + payload;
  }

  method TypePayload(imports: seq<HostFunction>) returns (b: seq<Byte>)
    ensures b == WriteVec(WriteFuncType, TypesOf(imports))
  {
    hide Name;
    b := UlebPython(3 + |imports|);
    var types := [FuncType([], [I32]), FuncType([I64], []), FuncType([], [])]
      + seq(|imports|, k requires 0 <= k < |imports| => FuncType(imports[k].params, imports[k].results));
    for k := 0 to |types|
      invariant b == Uleb(3 + |imports|) + WriteAll(WriteFuncType, types[..k])
    {
      WriteAllAppend(WriteFuncType, types[..k], types[k]);
      assert types[..k + 1] == types[..k] + [types[k]];
      b := b + WriteFuncType(types[k]);
    }
    assert types[..|types|] == types == TypesOf(imports);
  }

  method ImportPayload(imports: seq<HostFunction>) returns (b: seq<Byte>)
    ensures b == WriteVec(WriteImport, ImportsOf(imports))
  {
    hide Name, Ascii;
    b := UlebPython(|imports|);
    ghost var all := ImportsOf(imports);
    for position := 0 to |imports|
      invariant b == Uleb(|imports|) + WriteAll(WriteImport, all[..position])
    {
      WriteAllAppend(WriteImport, all[..position], all[position]);
      assert all[..position + 1] == all[..position] + [all[position]];
      var index := UlebPython(3 + position);
      b := b + (Name(Ascii("atlas")) + Name(imports[position].field) + [0x00] + index);
    }
    assert all[..|imports|] == all;
  }

  method DataPayload(segments: seq<Segment>) returns (b: seq<Byte>)
    ensures b == WriteVec(WriteSegment, segments)
  {
    hide Name;
    b := UlebPython(|segments|);
    for k := 0 to |segments|
      invariant b == Uleb(|segments|) + WriteAll(WriteSegment, segments[..k])
    {
      WriteAllAppend(WriteSegment, segments[..k], segments[k]);
      assert segments[..k + 1] == segments[..k] + [segments[k]];
      b := b + WriteSegment(segments[k]);
    }
    assert segments[..|segments|] == segments;
  }

  /** The writer: seven sections onto the preamble, one after another. */
  method BuildModule(imports: seq<HostFunction>, tick: seq<Byte>, extra: seq<Segment>) returns (out: seq<Byte>)
    ensures out == WriteModule(ModuleOf(imports, tick, extra))
  {
    hide WriteVec, WriteSection, Ascii;
    ghost var m := ModuleOf(imports, tick, extra);
    var types := TypePayload(imports);
    var s1 := SectionBytes(1, types);
    var wanted := ImportPayload(imports);
    var s2 := SectionBytes(2, wanted);
    var s3 := SectionBytes(3, WriteVec(Uleb, [0, 1, 2]));
    var s5 := SectionBytes(5, WriteVec(WriteLimits, [Limits(1, 1)]));
    var s7 := SectionBytes(7, WriteVec(WriteExport, ExportsOf(|imports|)));
    var s10 := SectionBytes(10, WriteVec(WriteBody, [[I32_CONST] + Sleb(0), tick, []]));
    var data := DataPayload([Segment(COMMAND_ADDRESS, Ascii("set_color_index"))] + extra);
    var s11 := SectionBytes(11, data);
    out := MAGIC + s1 + s2 + s3 + s5 + s7 + s10 + s11;
    SevenWritten(SectionsOf(m));
    assert out == MAGIC + (s1 + (s2 + (s3 + (s5 + (s7 + (s10 + s11))))));
  }

  lemma SevenWritten(s: seq<Section>)
    requires |s| == 7
    ensures WriteAll(WriteSection, s)
         == WriteSection(s[0]) + (WriteSection(s[1]) + (WriteSection(s[2]) + (WriteSection(s[3])
            + (WriteSection(s[4]) + (WriteSection(s[5]) + WriteSection(s[6]))))))
  {
    hide WriteSection;
    assert WriteAll(WriteSection, s[1..]) == WriteSection(s[1]) + WriteAll(WriteSection, s[2..]);
    assert WriteAll(WriteSection, s[2..]) == WriteSection(s[2]) + WriteAll(WriteSection, s[3..]);
    assert WriteAll(WriteSection, s[3..]) == WriteSection(s[3]) + WriteAll(WriteSection, s[4..]);
    assert WriteAll(WriteSection, s[4..]) == WriteSection(s[4]) + WriteAll(WriteSection, s[5..]);
    assert WriteAll(WriteSection, s[5..]) == WriteSection(s[5]) + WriteAll(WriteSection, s[6..]);
    assert WriteAll(WriteSection, s[6..]) == WriteSection(s[6]);
  }

  /** What is built is read back as the mod it was built for. */
  lemma BuiltModuleInverts(imports: seq<HostFunction>, tick: seq<Byte>, extra: seq<Segment>)
    requires forall k :: 0 <= k < |imports| ==> AreValTypes(imports[k].params) && AreValTypes(imports[k].results)
    requires forall k :: 0 <= k < |extra| ==> -0x8000_0000 <= extra[k].address < 0x8000_0000
    requires |imports| + 3 < LIMIT32 && |WriteModule(ModuleOf(imports, tick, extra))| < LIMIT32
    ensures ReadModule(WriteModule(ModuleOf(imports, tick, extra))) == Parse(ModuleOf(imports, tick, extra), [])
  {
    hide WriteModule, ReadModule, Ascii, Sleb;
    ModuleInverts(ModuleOf(imports, tick, extra));
  }
}
